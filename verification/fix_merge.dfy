// Repairing the rewritten system thinking and merging it back into the SFT
// data: un-escaped quotes in model JSON, salvaging a JSON array from a
// model reply, reading the parts of a generated trace id, and attaching
// the revised (or the original) thinking to every assistant turn.

module FixMerge {
  import opened Basics
  import opened Text
  import opened Patterns

  // ------------------------------------------------------ quote repair

  /** A quote at `i` that the scanner treats as a delimiter: not preceded by a backslash. */
  predicate BareQuote(s: String, i: nat)
    requires i < |s|
  {
    s[i] == '"' && (i == 0 || s[i - 1] != '\\')
  }

  /** Inside a string, a bare quote ends it when the next non-space character is one of `,}]:`. */
  predicate EndsString(s: String, i: nat)
    requires i < |s|
  {
    var rest := LStrip(s[i + 1..]);
    rest != [] && rest[0] in {',', '}', ']', ':'}
  }

  /** What the repair emits from position `i` on, `inString` being the scanner's flag there. */
  function FixFrom(s: String, i: nat, inString: bool): String
    requires i <= |s|
    decreases |s| - i
  {
    if i == |s| then []
    else if BareQuote(s, i) then
      if !inString then "\"" + FixFrom(s, i + 1, true)
      else if EndsString(s, i) then "\"" + FixFrom(s, i + 1, false)
      else "\\\"" + FixFrom(s, i + 1, true)
    else [s[i]] + FixFrom(s, i + 1, inString)
  }

  function FixQuotes(s: String): String {
    FixFrom(s, 0, false)
  }

  /** fix_json_quotes: one pass with an in-string flag; `piece` is what one character appends. */
  method FixJsonQuotes(s: String) returns (result: String)
    ensures result == FixQuotes(s)
  {
    result := [];
    var inString := false;
    var i := 0;
    while i < |s|
      invariant 0 <= i <= |s|
      invariant result + FixFrom(s, i, inString) == FixQuotes(s)
    {
      var c := s[i];
      var piece: String;
      ghost var before := inString;
      if c == '"' && (i == 0 || s[i - 1] != '\\') {
        if !inString {
          inString := true;
          piece := [c];
        } else {
          var rest := LStrip(s[i + 1..]);
          if rest != [] && rest[0] in {',', '}', ']', ':'} {
            inString := false;
            piece := [c];
          } else {
            piece := "\\\"";
          }
        }
      } else {
        piece := [c];
      }
      ghost var tail := FixFrom(s, i + 1, inString);
      assert FixFrom(s, i, before) == piece + tail;
      ConcatAssoc(result, piece, tail);
      result := result + piece;
      i := i + 1;
    }
  }

  /** Reading `\"` as a plain quote: the text a JSON reader sees inside a string. */
  function Unescape(t: String): (r: String)
    ensures |r| <= |t|
  {
    if t == [] then []
    else if |t| >= 2 && t[0] == '\\' && t[1] == '"' then "\"" + Unescape(t[2..])
    else [t[0]] + Unescape(t[1..])
  }

  /** From `i` on, the repair only turns some quotes into `\"`: read back, the text is unchanged. */
  lemma {:induction false} FixFromUnescape(s: String, i: nat, inString: bool)
    requires i <= |s|
    ensures Unescape(FixFrom(s, i, inString)) == Unescape(s[i..])
    decreases |s| - i
  {
    if i < |s| {
      if s[i] == '\\' && i + 1 < |s| && s[i + 1] == '"' {
        FixFromUnescape(s, i + 2, inString);
        EscapedQuoteStep(s, i, inString);
      } else if s[i] == '"' {
        FixFromUnescape(s, i + 1, true);
        FixFromUnescape(s, i + 1, false);
        QuoteStep(s, i, inString);
      } else {
        FixFromUnescape(s, i + 1, inString);
        PlainStep(s, i, inString);
      }
    }
  }

  /** A character that does not start `\"` reads back as itself. */
  lemma UnescapeCons(c: char, y: String)
    requires c != '\\' || y == [] || y[0] != '"'
    ensures Unescape([c] + y) == [c] + Unescape(y)
  {
    assert ([c] + y)[1..] == y;
  }

  /** An escaped quote reads back as a quote. */
  lemma UnescapeEscapedQuote(y: String)
    ensures Unescape("\\\"" + y) == "\"" + Unescape(y)
  {
    assert ("\\\"" + y)[2..] == y;
  }

  /** The step at an escaped quote `\"`: both characters are copied. */
  lemma EscapedQuoteStep(s: String, i: nat, inString: bool)
    requires i + 1 < |s| && s[i] == '\\' && s[i + 1] == '"'
    requires Unescape(FixFrom(s, i + 2, inString)) == Unescape(s[i + 2..])
    ensures Unescape(FixFrom(s, i, inString)) == Unescape(s[i..])
  {
    var rest := FixFrom(s, i + 2, inString);
    assert FixFrom(s, i + 1, inString) == "\"" + rest;
    assert FixFrom(s, i, inString) == "\\" + ("\"" + rest);
    assert "\\" + ("\"" + rest) == "\\\"" + rest;
    UnescapeEscapedQuote(rest);
    assert s[i..] == "\\\"" + s[i + 2..];
    UnescapeEscapedQuote(s[i + 2..]);
  }

  /** The step at a quote: kept, or escaped; either way it reads back as a quote. */
  lemma QuoteStep(s: String, i: nat, inString: bool)
    requires i < |s| && s[i] == '"'
    requires Unescape(FixFrom(s, i + 1, true)) == Unescape(s[i + 1..])
    requires Unescape(FixFrom(s, i + 1, false)) == Unescape(s[i + 1..])
    ensures Unescape(FixFrom(s, i, inString)) == Unescape(s[i..])
  {
    assert s[i..] == "\"" + s[i + 1..];
    UnescapeCons('"', s[i + 1..]);
    if BareQuote(s, i) && inString && !EndsString(s, i) {
      var rest := FixFrom(s, i + 1, true);
      assert FixFrom(s, i, inString) == "\\\"" + rest;
      UnescapeEscapedQuote(rest);
    } else {
      var b := if BareQuote(s, i) then !inString else inString;
      var rest := FixFrom(s, i + 1, b);
      assert FixFrom(s, i, inString) == "\"" + rest;
      UnescapeCons('"', rest);
    }
  }

  /** The step at any other character: copied as it is. */
  lemma PlainStep(s: String, i: nat, inString: bool)
    requires i < |s| && s[i] != '"' && !(s[i] == '\\' && i + 1 < |s| && s[i + 1] == '"')
    requires Unescape(FixFrom(s, i + 1, inString)) == Unescape(s[i + 1..])
    ensures Unescape(FixFrom(s, i, inString)) == Unescape(s[i..])
  {
    var rest := FixFrom(s, i + 1, inString);
    assert FixFrom(s, i, inString) == [s[i]] + rest;
    if s[i] == '\\' && i + 1 < |s| {
      assert rest == [s[i + 1]] + FixFrom(s, i + 2, inString);
    }
    UnescapeCons(s[i], rest);
    assert s[i..] == [s[i]] + s[i + 1..];
    UnescapeCons(s[i], s[i + 1..]);
  }

  /** The repair keeps every character: it only escapes quotes. */
  lemma FixQuotesUnescape(s: String)
    ensures Unescape(FixQuotes(s)) == Unescape(s)
  {
    FixFromUnescape(s, 0, false);
    assert s[0..] == s;
  }

  /** Text without a quote is left as it is. */
  lemma {:induction false} FixFromNoQuote(s: String, i: nat, inString: bool)
    requires i <= |s| && '"' !in s
    ensures FixFrom(s, i, inString) == s[i..]
    decreases |s| - i
  {
    if i < |s| {
      FixFromNoQuote(s, i + 1, inString);
      assert s[i..] == [s[i]] + s[i + 1..];
    }
  }

  /** The quote that opens a string is kept; an inner one not followed by a delimiter is escaped. */
  lemma QuoteDecisions(s: String, i: nat, inString: bool)
    requires i < |s| && BareQuote(s, i)
    ensures !inString ==> StartsWith(FixFrom(s, i, inString), "\"")
    ensures inString && !EndsString(s, i) ==> StartsWith(FixFrom(s, i, inString), "\\\"")
    ensures inString && EndsString(s, i) ==> StartsWith(FixFrom(s, i, inString), "\"")
  {
  }

  // ------------------------------------------------ JSON salvaging

  /**
   * `re.search(r'```json\s*([\s\S]*?)```', text)`, group stripped. Only the
   * first opening fence can start a match: a later one would itself close
   * the first.
   */
  function JsonFence(s: String): (r: Option<String>)
    ensures r.Some? ==> Contains(s, "```json")
  {
    match Find(s, "```json")
    case None => None
    case Some(p) =>
      var k := SkipSpace(s, p + 7);
      match FindFrom(s, "```", k)
      case None => None
      case Some(j) => Some(Strip(s[k..j]))
  }

  /** The first `]` at or after `j` followed by optional space and a closing fence. */
  function ArrayClose(s: String, j: nat): (r: Option<nat>)
    requires j <= |s|
    ensures r.Some? ==> j <= r.value < |s| && s[r.value] == ']'
    ensures r.Some? ==> OccursAt(s, "```", SkipSpace(s, r.value + 1))
    decreases |s| - j
  {
    if j == |s| then None
    else if s[j] == ']' && OccursAt(s, "```", SkipSpace(s, j + 1)) then Some(j)
    else ArrayClose(s, j + 1)
  }

  /** The array a fence at `p` encloses: ```` ```\s*(\[[\s\S]*?\])\s*``` ```` matched at `p`. */
  function FencedArrayAt(s: String, p: nat): (r: Option<String>)
    requires p <= |s|
    ensures r.Some? ==> |r.value| >= 2 && r.value[0] == '[' && r.value[|r.value| - 1] == ']'
  {
    if !OccursAt(s, "```", p) then None
    else
      var k := SkipSpace(s, p + 3);
      if k < |s| && s[k] == '[' then
        match ArrayClose(s, k + 1)
        case None => None
        case Some(j) => Some(s[k..j + 1])
      else None
  }

  /** `re.search` for the fenced array: the leftmost fence that starts a match. */
  function FencedArrayFrom(s: String, p: nat): (r: Option<String>)
    requires p <= |s|
    ensures r.Some? ==> |r.value| >= 2 && r.value[0] == '[' && r.value[|r.value| - 1] == ']'
    decreases |s| - p
  {
    if FencedArrayAt(s, p).Some? then FencedArrayAt(s, p)
    else if p == |s| then None
    else FencedArrayFrom(s, p + 1)
  }

  /** How a character moves the bracket depth. */
  function Delta(c: char): int {
    if c == '[' then 1 else if c == ']' then -1 else 0
  }

  /** The bracket depth of `s[start..e]`: opening minus closing square brackets. */
  function DepthTo(s: String, start: nat, e: nat): int
    requires start <= e <= |s|
    decreases e - start
  {
    if e == start then 0 else DepthTo(s, start, e - 1) + Delta(s[e - 1])
  }

  /** The first end at or after `from` where the text since `start` is balanced. */
  function BalancedEnd(s: String, start: nat, from: nat): (r: Option<nat>)
    requires start < from <= |s| + 1
    ensures r.Some? ==> from <= r.value <= |s| && DepthTo(s, start, r.value) == 0
    ensures r.Some? ==> forall k :: from <= k < r.value ==> DepthTo(s, start, k) != 0
    ensures r.None? ==> forall k :: from <= k <= |s| ==> DepthTo(s, start, k) != 0
    decreases |s| + 1 - from
  {
    if from > |s| then None
    else if DepthTo(s, start, from) == 0 then Some(from)
    else BalancedEnd(s, start, from + 1)
  }

  /** The last resort: from the first `[` to the `]` that brings the depth back to zero. */
  function BracketFallback(s: String): (r: Option<String>)
  {
    match Find(s, "[")
    case None => None
    case Some(start) =>
      match BalancedEnd(s, start, start + 1)
      case None => None
      case Some(e) => Some(s[start..e])
  }

  /** Starting at a `[`, the depth stays positive until it first comes back to zero. */
  lemma {:induction false} DepthPositive(s: String, start: nat, e: nat)
    requires start < |s| && s[start] == '[' && start < e <= |s| + 1
    requires forall k :: start < k < e ==> DepthTo(s, start, k) != 0
    ensures forall k :: start < k < e ==> DepthTo(s, start, k) > 0
    decreases e - start
  {
    if e > start + 1 {
      DepthPositive(s, start, e - 1);
      var k := e - 1;
      if k > start + 1 {
        assert DepthTo(s, start, k) == DepthTo(s, start, k - 1) + Delta(s[k - 1]);
      } else {
        assert DepthTo(s, start, k) == 1;
      }
    }
  }

  /**
   * When the fallback finds a span, it runs from the first `[` to a `]`
   * where the depth is back to zero, and every proper prefix is still open.
   */
  lemma BracketFallbackSome(s: String, start: nat, e: nat)
    requires Find(s, "[") == Some(start) && BalancedEnd(s, start, start + 1) == Some(e)
    ensures BracketFallback(s) == Some(s[start..e])
    ensures start + 2 <= e && s[start] == '[' && s[e - 1] == ']' && DepthTo(s, start, e) == 0
    ensures forall k :: start < k < e ==> DepthTo(s, start, k) > 0
  {
    assert s[start..start + 1] == "[";
    DepthPositive(s, start, e);
    assert e != start + 1;
    assert DepthTo(s, start, e) == DepthTo(s, start, e - 1) + Delta(s[e - 1]);
  }

  /** The fallback finds nothing exactly when there is no `[` or the first one is never closed. */
  lemma BracketFallbackNone(s: String)
    ensures BracketFallback(s).None? <==>
      Find(s, "[").None? ||
      forall k :: Find(s, "[").value < k <= |s| ==> DepthTo(s, Find(s, "[").value, k) > 0
  {
    match Find(s, "[")
    case None =>
    case Some(start) =>
      assert s[start..start + 1] == "[";
      if BalancedEnd(s, start, start + 1).None? {
        DepthPositive(s, start, |s| + 1);
      } else {
        var e := BalancedEnd(s, start, start + 1).value;
        assert start < e <= |s| && DepthTo(s, start, e) == 0;
      }
  }

  /** The bracket-depth scan of extract_json_robust. */
  method BracketSpan(text: String) returns (r: Option<String>)
    ensures r == BracketFallback(text)
  {
    var found := Find(text, "[");
    if found.None? {
      return None;
    }
    var start := found.value;
    assert text[start..start + 1] == "[";
    var bracketCount := 0;
    var i := start;
    while i < |text|
      invariant start <= i <= |text|
      invariant bracketCount == DepthTo(text, start, i)
      invariant i == start || bracketCount > 0
      invariant BalancedEnd(text, start, start + 1) == BalancedEnd(text, start, i + 1)
    {
      var c := text[i];
      if c == '[' {
        bracketCount := bracketCount + 1;
      } else if c == ']' {
        bracketCount := bracketCount - 1;
        if bracketCount == 0 {
          return Some(text[start..i + 1]);
        }
      }
      i := i + 1;
    }
    return None;
  }

  /** extract_json_robust, attempt by attempt. */
  function ExtractJson(s: String): Option<String> {
    if Contains(s, "```json") && JsonFence(s).Some? then JsonFence(s)
    else if Contains(s, "```") && FencedArrayFrom(s, 0).Some? then Some(Strip(FencedArrayFrom(s, 0).value))
    else if Contains(s, "[") then BracketFallback(s)
    else None
  }

  method ExtractJsonRobust(text: String) returns (r: Option<String>)
    ensures r == ExtractJson(text)
  {
    if Contains(text, "```json") {
      var m := JsonFence(text);
      if m.Some? {
        return m;
      }
    }
    if Contains(text, "```") {
      var m := FencedArrayFrom(text, 0);
      if m.Some? {
        return Some(Strip(m.value));
      }
    }
    if Contains(text, "[") {
      r := BracketSpan(text);
      return;
    }
    return None;
  }

  /**
   * Without any fence the bracket scan decides; with no `[` at all nothing
   * is extracted; a found fenced array always starts with `[`.
   */
  lemma ExtractJsonOrder(s: String)
    ensures !Contains(s, "```") ==> ExtractJson(s) == BracketFallback(s)
    ensures !Contains(s, "```") && !Contains(s, "[") ==> ExtractJson(s).None?
    ensures !Contains(s, "```json") && Contains(s, "```") && FencedArrayFrom(s, 0).Some? ==>
      ExtractJson(s) == Some(Strip(FencedArrayFrom(s, 0).value))
  {
    if !Contains(s, "```") {
      assert !Contains(s, "```json") by {
        if Contains(s, "```json") {
          ContainsIff(s, "```json");
          var j :| OccursAt(s, "```json", j);
          assert s[j..j + 3] == s[j..j + 7][..3];
          assert OccursAt(s, "```", j);
          ContainsIff(s, "```");
        }
      }
      if !Contains(s, "[") {
        assert Find(s, "[").None?;
      }
    }
  }

  // ----------------------------------------------------------- trace ids

  /** The parts of a generated trace id `sys_gen_<id>/<character>/<index>`. */
  datatype TraceParts = TraceParts(prefix: String, character: String, index: Option<int>)

  /** `int(s)` for a decimal string with optional sign and surrounding whitespace. */
  function PyInt(s: String): (r: Option<int>)
    ensures DigitsOnly(s) && s != [] ==> r == Some(DigitsValue(s))
  {
    var t := Strip(s);
    if DigitsOnly(s) && s != [] then
      StripNoSpace(s);
      Some(DigitsValue(s))
    else if t != [] && (t[0] == '-' || t[0] == '+') then
      var d := t[1..];
      if d != [] && DigitsOnly(d) then
        var v: int := DigitsValue(d);
        Some(if t[0] == '-' then -v else v)
      else None
    else if t != [] && DigitsOnly(t) then Some(DigitsValue(t))
    else None
  }

  /** Stripping a string of digits changes nothing. */
  lemma StripNoSpace(s: String)
    requires s != [] && DigitsOnly(s)
    ensures Strip(s) == s
  {
    assert !IsSpace(s[0]) && !IsSpace(s[|s| - 1]);
  }

  /** parse_trace_id: None unless the id has the generator prefix and three '/'-separated parts. */
  function ParseTraceId(t: String): (r: Option<TraceParts>)
    ensures r.Some? ==> StartsWith(t, "sys_gen_") && |Split(t, '/')| >= 3
    ensures r.Some? ==> '/' !in r.value.prefix && '/' !in r.value.character
  {
    if !StartsWith(t, "sys_gen_") then None
    else
      var parts := Split(t, '/');
      if |parts| < 3 then None
      else
        ReplaceAllKeeps(parts[0], "sys_gen_", "", '/');
        Some(TraceParts(ReplaceAll(parts[0], "sys_gen_", ""), parts[1], PyInt(parts[2])))
  }

  /** Deleting a pattern adds no character. */
  lemma {:induction false} ReplaceAllKeeps(s: String, pat: String, rep: String, c: char)
    requires pat != [] && c !in s && c !in rep
    ensures c !in ReplaceAll(s, pat, rep)
    decreases |s|
  {
    if |s| >= |pat| {
      if s[..|pat|] == pat {
        ReplaceAllKeeps(s[|pat|..], pat, rep, c);
      } else {
        ReplaceAllKeeps(s[1..], pat, rep, c);
      }
    }
  }

  /** Splitting at the first separator. */
  lemma {:induction false} SplitConcat(a: String, b: String, sep: char)
    requires sep !in a
    ensures Split(a + [sep] + b, sep) == [a] + Split(b, sep)
    decreases |a|
  {
    var s := a + [sep] + b;
    if a == [] {
      assert s[0] == sep && s[1..] == b;
    } else {
      SplitConcat(a[1..], b, sep);
      assert s[0] == a[0] && s[1..] == a[1..] + [sep] + b;
      assert [a[0]] + a[1..] == a;
    }
  }

  /** A text without the separator is one piece. */
  lemma SplitNone(s: String, sep: char)
    requires sep !in s
    ensures Split(s, sep) == [s]
  {
    JoinSplit(s, sep);
  }

  /** Three pieces joined by a separator they do not hold split back into them. */
  lemma SplitThree(a: String, b: String, c: String, sep: char)
    requires sep !in a && sep !in b && sep !in c
    ensures Split(a + [sep] + b + [sep] + c, sep) == [a, b, c]
  {
    assert a + [sep] + b + [sep] + c == a + [sep] + (b + [sep] + c);
    SplitConcat(a, b + [sep] + c, sep);
    SplitConcat(b, c, sep);
    SplitNone(c, sep);
  }

  /** Deleting the generator prefix from `sys_gen_<p>` gives `p` when `p` does not repeat it. */
  lemma DropGeneratorPrefix(p: String)
    requires !Contains(p, "sys_gen_")
    ensures ReplaceAll("sys_gen_" + p, "sys_gen_", "") == p
  {
    var t := "sys_gen_" + p;
    assert t[..8] == "sys_gen_" && t[8..] == p;
  }

  /** Parsing the id the generator builds gives back its parts. */
  lemma ParseTraceIdRoundTrip(prefix: String, character: String, index: String)
    requires '/' !in prefix && '/' !in character && '/' !in index
    requires !Contains(prefix, "sys_gen_")
    ensures ParseTraceId("sys_gen_" + prefix + "/" + character + "/" + index) ==
      Some(TraceParts(prefix, character, PyInt(index)))
  {
    var p0 := "sys_gen_" + prefix;
    var t := p0 + "/" + character + "/" + index;
    assert "sys_gen_" + prefix + "/" + character + "/" + index == t;
    assert t[..8] == "sys_gen_";
    assert '/' !in p0;
    SplitThree(p0, character, index, '/');
    DropGeneratorPrefix(prefix);
  }

  /** An id without the generator prefix gives nothing. */
  lemma ParseTraceIdNeedsPrefix(t: String)
    requires !StartsWith(t, "sys_gen_")
    ensures ParseTraceId(t).None?
  {
  }

  // ------------------------------------------------------------ merging

  /** The `origin_id` of a turn: absent or null, a number, or a list of entries. */
  datatype OriginId = NoOrigin | Num(n: int) | Items(items: seq<Option<int>>)

  /** A list reduces to its first entry; an empty list or a null entry means no origin. */
  function ResolveOrigin(o: OriginId): (r: Option<int>)
    ensures o.NoOrigin? ==> r.None?
    ensures o.Items? && o.items == [] ==> r.None?
    ensures o.Items? && o.items != [] ==> r == o.items[0]
  {
    match o
    case NoOrigin => None
    case Num(n) => Some(n)
    case Items(xs) => if xs == [] then None else xs[0]
  }

  /** A training turn as far as the merge looks at it. */
  datatype Turn = Turn(role: Option<String>, originId: OriginId,
                       sysRevised: Option<String>, sysOriginal: Option<String>)

  predicate IsReply(t: Turn) {
    t.role == Some("assistant")
  }

  /** (trace id, character, origin id or assistant index). */
  type Key = (String, String, int)

  /** The record's id: `trace_id_book_chapter` if non-empty, else `trace_id`. */
  function RecordId(bookChapter: String, traceId: String): (r: String)
    ensures bookChapter != "" ==> r == bookChapter
    ensures bookChapter == "" ==> r == traceId
  {
    if bookChapter != "" then bookChapter else traceId
  }

  /** What happened to one assistant turn. */
  datatype Fate = NoId | Revised | Original | NotFound

  /** The lookup for the assistant turn that is the `rank`-th reply (1-based). */
  function FateOf(t: Turn, id: String, character: String, rank: nat,
                  rewrites: map<Key, String>, originals: map<Key, String>): Fate
  {
    match ResolveOrigin(t.originId)
    case None => NoId
    case Some(o) =>
      if (id, character, o) in rewrites then Revised
      else if (id, character, rank) in originals then Original
      else NotFound
  }

  /** The turn after the lookup. */
  function MergeTurn(t: Turn, id: String, character: String, rank: nat,
                     rewrites: map<Key, String>, originals: map<Key, String>): (r: Turn)
    ensures r.role == t.role && r.originId == t.originId
    ensures FateOf(t, id, character, rank, rewrites, originals) == Revised ==>
      r.sysRevised == Some(rewrites[(id, character, ResolveOrigin(t.originId).value)]) && r.sysOriginal == t.sysOriginal
    ensures FateOf(t, id, character, rank, rewrites, originals) == Original ==>
      r.sysOriginal == Some(originals[(id, character, rank)]) && r.sysRevised == t.sysRevised
    ensures FateOf(t, id, character, rank, rewrites, originals) in {NoId, NotFound} ==> r == t
  {
    match FateOf(t, id, character, rank, rewrites, originals)
    case Revised => t.(sysRevised := Some(rewrites[(id, character, ResolveOrigin(t.originId).value)]))
    case Original => t.(sysOriginal := Some(originals[(id, character, rank)]))
    case _ => t
  }

  /** The number of assistant turns in `ts`. */
  function Replies(ts: seq<Turn>): (n: nat)
    ensures n <= |ts|
  {
    if ts == [] then 0 else Replies(ts[..|ts| - 1]) + (if IsReply(ts[|ts| - 1]) then 1 else 0)
  }

  /** Turn `k` after the merge: assistant turns are looked up by their 1-based rank. */
  function MergedAt(ts: seq<Turn>, k: nat, id: String, character: String,
                    rewrites: map<Key, String>, originals: map<Key, String>): Turn
    requires k < |ts|
  {
    if IsReply(ts[k]) then MergeTurn(ts[k], id, character, Replies(ts[..k + 1]), rewrites, originals)
    else ts[k]
  }

  /** The merge counters for one character. */
  datatype Counts = Counts(turns: nat, revised: nat, original: nat, notFound: nat)

  /** The counters after one more assistant turn with the given fate. */
  function Count(c: Counts, f: Fate): Counts {
    match f
    case NoId => c.(turns := c.turns + 1)
    case Revised => c.(turns := c.turns + 1, revised := c.revised + 1)
    case Original => c.(turns := c.turns + 1, original := c.original + 1)
    case NotFound => c.(turns := c.turns + 1, notFound := c.notFound + 1)
  }

  function Tally(ts: seq<Turn>, id: String, character: String,
                 rewrites: map<Key, String>, originals: map<Key, String>): (c: Counts)
    ensures c.turns == Replies(ts)
    ensures c.revised + c.original + c.notFound <= c.turns
  {
    if ts == [] then Counts(0, 0, 0, 0)
    else
      var n := |ts| - 1;
      var c := Tally(ts[..n], id, character, rewrites, originals);
      if !IsReply(ts[n]) then c
      else Count(c, FateOf(ts[n], id, character, Replies(ts), rewrites, originals))
  }

  /** One more turn: how the reply count and the counters move. */
  lemma TallySnoc(ts: seq<Turn>, i: nat, id: String, character: String,
                  rewrites: map<Key, String>, originals: map<Key, String>)
    requires i < |ts|
    ensures Replies(ts[..i + 1]) == Replies(ts[..i]) + (if IsReply(ts[i]) then 1 else 0)
    ensures Tally(ts[..i + 1], id, character, rewrites, originals) ==
      if IsReply(ts[i])
      then Count(Tally(ts[..i], id, character, rewrites, originals),
                 FateOf(ts[i], id, character, Replies(ts[..i]) + 1, rewrites, originals))
      else Tally(ts[..i], id, character, rewrites, originals)
  {
    assert ts[..i + 1][..i] == ts[..i];
  }

  /** The lookup for one assistant turn: the revised thinking by origin id, else the original by rank. */
  method LookupTurn(turn: Turn, id: String, character: String, rank: nat,
                    rewrites: map<Key, String>, originals: map<Key, String>) returns (updated: Turn, fate: Fate)
    ensures updated == MergeTurn(turn, id, character, rank, rewrites, originals)
    ensures fate == FateOf(turn, id, character, rank, rewrites, originals)
  {
    updated := turn;
    var originId := ResolveOrigin(turn.originId);
    if originId.None? {
      return updated, NoId;
    }
    var o := originId.value;
    if (id, character, o) in rewrites {
      updated := turn.(sysRevised := Some(rewrites[(id, character, o)]));
      fate := Revised;
    } else if (id, character, rank) in originals {
      updated := turn.(sysOriginal := Some(originals[(id, character, rank)]));
      fate := Original;
    } else {
      fate := NotFound;
    }
  }

  /** The per-character loop of merge_to_sft_data, updating the turns in place. */
  method MergeCharacter(turns: array<Turn>, id: String, character: String,
                        rewrites: map<Key, String>, originals: map<Key, String>) returns (counts: Counts)
    modifies turns
    ensures forall k :: 0 <= k < turns.Length ==>
      turns[k] == MergedAt(old(turns[..]), k, id, character, rewrites, originals)
    ensures counts == Tally(old(turns[..]), id, character, rewrites, originals)
  {
    ghost var ts := turns[..];
    var assistantIdx := 0;
    counts := Counts(0, 0, 0, 0);
    for i := 0 to turns.Length
      invariant assistantIdx == Replies(ts[..i])
      invariant counts == Tally(ts[..i], id, character, rewrites, originals)
      invariant forall k :: 0 <= k < i ==> turns[k] == MergedAt(ts, k, id, character, rewrites, originals)
      invariant forall k :: i <= k < turns.Length ==> turns[k] == ts[k]
    {
      TallySnoc(ts, i, id, character, rewrites, originals);
      var turn := turns[i];
      if turn.role != Some("assistant") {
        continue;
      }
      assistantIdx := assistantIdx + 1;
      var updated, fate := LookupTurn(turn, id, character, assistantIdx, rewrites, originals);
      turns[i] := updated;
      counts := Count(counts, fate);
    }
    assert ts[..turns.Length] == ts;
  }

  /** Different assistant turns of a character get different ranks, counted from 1. */
  lemma {:induction false} RanksDistinct(ts: seq<Turn>, a: nat, b: nat)
    requires a < b < |ts| && IsReply(ts[a]) && IsReply(ts[b])
    ensures 1 <= Replies(ts[..a + 1]) < Replies(ts[..b + 1])
    decreases b
  {
    var u := ts[..b + 1];
    assert u[..b] == ts[..b];
    if a < b - 1 {
      RepliesMonotone(ts, a + 1, b);
      assert ts[..b][..a + 1] == ts[..a + 1];
    }
    assert ts[..a + 1][..a] == ts[..a];
  }

  /** A longer prefix holds at least as many replies. */
  lemma {:induction false} RepliesMonotone(ts: seq<Turn>, i: nat, j: nat)
    requires i <= j <= |ts|
    ensures Replies(ts[..i]) <= Replies(ts[..j])
    decreases j - i
  {
    if i < j {
      RepliesMonotone(ts, i, j - 1);
      assert ts[..j][..j - 1] == ts[..j - 1];
    }
  }

  /** Every assistant turn is counted exactly once: the turns with no origin are the rest. */
  lemma {:induction false} TallyPartition(ts: seq<Turn>, id: String, character: String,
                                          rewrites: map<Key, String>, originals: map<Key, String>)
    ensures Tally(ts, id, character, rewrites, originals).turns ==
      Tally(ts, id, character, rewrites, originals).revised +
      Tally(ts, id, character, rewrites, originals).original +
      Tally(ts, id, character, rewrites, originals).notFound + NoIdReplies(ts)
  {
    if ts != [] {
      TallyPartition(ts[..|ts| - 1], id, character, rewrites, originals);
    }
  }

  /** The assistant turns that have no usable origin id. */
  function NoIdReplies(ts: seq<Turn>): nat {
    if ts == [] then 0
    else
      var n := |ts| - 1;
      NoIdReplies(ts[..n]) + (if IsReply(ts[n]) && ResolveOrigin(ts[n].originId).None? then 1 else 0)
  }
}
