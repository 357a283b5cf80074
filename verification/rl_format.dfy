// Turning judged role-play comparisons into reinforcement-learning records:
// read the judge's preferred candidate out of its reply, repair the common
// JSON slips line by line, and pair the dialogue prompt with the preferred
// candidate's text.

module RlFormat {
  import opened Basics
  import opened Text
  import opened Messages
  import Patterns

  // ------------------------------------------------------------ the regex

  /** The key that the judge writes before its verdict. */
  const BetterKey: String := "\"better_response\":"

  /** `"better_response":\s*"(cand_[12])"` at `i`: the captured candidate name. */
  function BetterAt(s: String, i: nat): (r: Option<String>)
    requires i <= |s|
    ensures r.Some? ==> r.value == "cand_1" || r.value == "cand_2"
  {
    if OccursAt(s, BetterKey, i) then
      var j := Patterns.SkipSpace(s, i + |BetterKey|);
      if OccursAt(s, "\"cand_", j) && j + 8 <= |s| && (s[j + 6] == '1' || s[j + 6] == '2') && s[j + 7] == '"'
      then Some("cand_" + [s[j + 6]])
      else None
    else None
  }

  /** `re.search` for the verdict: the first position at or after `i` where it matches. */
  function FirstBetter(s: String, i: nat): (r: Option<nat>)
    requires i <= |s|
    ensures r.Some? ==> i <= r.value <= |s| && BetterAt(s, r.value).Some?
    ensures r.Some? ==> forall k :: i <= k < r.value ==> BetterAt(s, k).None?
    ensures r.None? ==> forall k :: i <= k <= |s| ==> BetterAt(s, k).None?
    decreases |s| - i
  {
    if BetterAt(s, i).Some? then Some(i)
    else if i == |s| then None
    else FirstBetter(s, i + 1)
  }

  /** The captured group of the first match, if any. */
  function FindBetter(s: String): (r: Option<String>)
    ensures r.Some? ==> r.value == "cand_1" || r.value == "cand_2"
    ensures r.Some? <==> FirstBetter(s, 0).Some?
  {
    match FirstBetter(s, 0)
    case Some(k) => BetterAt(s, k)
    case None => None
  }

  // -------------------------------------------------------- JSON repairs

  function CountChar(s: String, c: char): (n: nat)
    ensures n <= |s|
  {
    if s == [] then 0 else CountChar(s[..|s| - 1], c) + (if s[|s| - 1] == c then 1 else 0)
  }

  /** Trailing whitespace holds no quote. */
  lemma {:induction false} CountCharRStrip(s: String)
    ensures CountChar(RStrip(s), '"') == CountChar(s, '"')
    decreases |s|
  {
    if s != [] && IsSpace(s[|s| - 1]) {
      CountCharRStrip(s[..|s| - 1]);
    }
  }

  /** A line with an odd number of quotes that looks like an unterminated `"key": "value`. */
  predicate NeedsClosingQuote(line: String) {
    CountChar(line, '"') % 2 == 1 && ':' in line &&
    !EndsWith(Strip(line), "\"") && !EndsWith(Strip(line), ",")
  }

  /** One line of fix_common_json_errors. */
  function FixLine(line: String): String {
    if NeedsClosingQuote(line) then RStrip(line) + "\"" else line
  }

  /** A repaired line keeps its text up to the trailing whitespace and ends in a quote that balances its quotes. */
  lemma FixLineBalances(line: String)
    requires NeedsClosingQuote(line)
    ensures CountChar(FixLine(line), '"') % 2 == 0 && EndsWith(FixLine(line), "\"")
    ensures StartsWith(FixLine(line), RStrip(line)) && |FixLine(line)| <= |line| + 1
  {
    assert FixLine(line) == RStrip(line) + "\"";
    ClosingQuoteBalances(line);
  }

  /** Appending a quote to the stripped line makes an odd quote count even. */
  lemma ClosingQuoteBalances(line: String)
    requires CountChar(line, '"') % 2 == 1
    ensures CountChar(RStrip(line) + "\"", '"') % 2 == 0
    ensures StartsWith(RStrip(line) + "\"", RStrip(line))
  {
    var p := RStrip(line);
    var fixed := p + "\"";
    CountCharRStrip(line);
    assert fixed[..|p|] == p;
    var n := CountChar(line, '"');
    assert CountChar(fixed, '"') == n + 1;
    OddSucc(n);
  }

  lemma OddSucc(n: nat)
    requires n % 2 == 1
    ensures (n + 1) % 2 == 0
  {
  }

  /** A repair adds no line break. */
  lemma FixLineOneLine(line: String)
    requires '\n' !in line
    ensures '\n' !in FixLine(line)
  {
    if NeedsClosingQuote(line) {
      assert FixLine(line) == RStrip(line) + "\"";
      ClosingQuoteOneLine(line);
    }
  }

  lemma ClosingQuoteOneLine(line: String)
    requires '\n' !in line
    ensures '\n' !in RStrip(line) + "\""
  {
    var p := RStrip(line);
    assert p == line[..|p|];
    assert '\n' !in p;
  }

  /** A repaired line needs no further repair. */
  lemma FixLineIdempotent(line: String)
    ensures FixLine(FixLine(line)) == FixLine(line)
  {
    if NeedsClosingQuote(line) {
      FixLineBalances(line);
      assert !NeedsClosingQuote(FixLine(line));
    }
  }

  function FixAll(lines: seq<String>): (r: seq<String>)
    ensures |r| == |lines|
    ensures forall k :: 0 <= k < |lines| ==> r[k] == FixLine(lines[k])
  {
    seq(|lines|, k requires 0 <= k < |lines| => FixLine(lines[k]))
  }

  /** The text fix_common_json_errors returns. */
  function FixedJson(s: String): String {
    Join(FixAll(Split(s, '\n')), "\n")
  }

  /** fix_common_json_errors: line by line, appending a closing quote where one seems missing. */
  method FixCommonJsonErrors(json: String) returns (r: String)
    ensures r == FixedJson(json)
  {
    var lines := Split(json, '\n');
    var fixedLines: seq<String> := [];
    for i := 0 to |lines|
      invariant |fixedLines| == i
      invariant forall k :: 0 <= k < i ==> fixedLines[k] == FixLine(lines[k])
    {
      fixedLines := fixedLines + [FixLine(lines[i])];
    }
    assert fixedLines == FixAll(lines);
    r := Join(fixedLines, "\n");
  }

  /** The repaired text has the same lines, each repaired on its own: the line count is kept. */
  lemma FixedJsonLines(s: String)
    ensures Split(FixedJson(s), '\n') == FixAll(Split(s, '\n'))
    ensures |Split(FixedJson(s), '\n')| == |Split(s, '\n')|
  {
    var lines := Split(s, '\n');
    forall k | 0 <= k < |lines| ensures '\n' !in FixAll(lines)[k] {
      FixLineOneLine(lines[k]);
    }
    SplitJoin(FixAll(lines), '\n');
  }

  /** Repairing twice is repairing once. */
  lemma FixedJsonIdempotent(s: String)
    ensures FixedJson(FixedJson(s)) == FixedJson(s)
  {
    FixedJsonLines(s);
    var fixed := FixAll(Split(s, '\n'));
    forall k | 0 <= k < |fixed| ensures FixLine(fixed[k]) == fixed[k] {
      FixLineIdempotent(Split(s, '\n')[k]);
    }
    assert FixAll(fixed) == fixed;
  }

  // ------------------------------------------------------------ the verdict

  /** Dropping a leading "```json" and a trailing "```", then stripping. */
  function StripFences(s: String): (r: String)
    ensures |r| <= |s|
  {
    var a := if StartsWith(s, "```json") then s[7..] else s;
    var b := if EndsWith(a, "```") then a[..|a| - 3] else a;
    Strip(b)
  }

  /**
   * `data['result'][0]['better_response']` when `data` is an object whose
   * result is a non-empty list starting with an object holding that key;
   * every other shape ends in None or in a caught exception.
   */
  function VerdictOf(data: Json): (r: Option<Json>)
    ensures r.Some? ==>
      && data.JObj? && Lookup(data.members, "result").Some?
      && Lookup(data.members, "result").value.JArr? && |Lookup(data.members, "result").value.items| > 0
      && Lookup(data.members, "result").value.items[0].JObj?
      && Lookup(Lookup(data.members, "result").value.items[0].members, "better_response") == r
  {
    match data
    case JObj(m) =>
      (match Lookup(m, "result")
       case Some(JArr(items)) =>
         if |items| > 0 then
           match items[0]
           case JObj(first) => Lookup(first, "better_response")
           case _ => None
         else None
       case _ => None)
    case _ => None
  }

  /**
   * extract_better_response_from_roleplay. `parse` stands for json.loads
   * (None when it raises). A regex hit answers with the candidate name;
   * otherwise the answer is the verdict found in the parsed reply.
   */
  function ExtractBetterResponse(content: String, parse: String -> Option<Json>): (r: Option<Json>)
    ensures IsBlank(content) ==> r.None?
    ensures !IsBlank(content) && FindBetter(content).Some? ==>
      r == Some(JStr(FindBetter(content).value)) &&
      (r.value.str == "cand_1" || r.value.str == "cand_2")
    ensures FindBetter(content).None? && |StripFences(Strip(content))| < 20 ==> r.None?
    ensures r.Some? && FindBetter(content).None? ==>
      parse(FixedJson(StripFences(Strip(content)))).Some? &&
      r == VerdictOf(parse(FixedJson(StripFences(Strip(content)))).value)
  {
    if IsBlank(content) then None
    else match FindBetter(content)
      case Some(g) => Some(JStr(g))
      case None =>
        var body := StripFences(Strip(content));
        if |body| < 20 then None
        else match parse(FixedJson(body))
          case None => None
          case Some(data) => VerdictOf(data)
  }

  /**
   * A reply that writes the verdict key, optional spaces and a quoted
   * candidate name, before any other quote, is read back as that name.
   */
  lemma VerdictRoundTrip(pre: String, spaces: String, g: String, post: String, parse: String -> Option<Json>)
    requires '"' !in pre && IsBlank(spaces)
    requires g == "cand_1" || g == "cand_2"
    ensures ExtractBetterResponse(pre + BetterKey + spaces + "\"" + g + "\"" + post, parse) == Some(JStr(g))
  {
    var s := pre + BetterKey + spaces + "\"" + g + "\"" + post;
    var i := |pre|;
    VerdictLayout(pre, spaces, g, post);
    BetterAtHit(s, i, i + |BetterKey| + |spaces|, g);
    forall k | 0 <= k < i ensures BetterAt(s, k).None? {
      NoKeyAt(s, k);
    }
    FirstBetterFrom(s, 0, i);
    assert FindBetter(s) == Some(g);
    assert !IsSpace(s[i]);
  }

  /** Where the pieces of such a reply sit. */
  lemma VerdictLayout(pre: String, spaces: String, g: String, post: String)
    requires '"' !in pre && IsBlank(spaces) && |g| == 6
    ensures var s := pre + BetterKey + spaces + "\"" + g + "\"" + post;
      var c := |pre| + |BetterKey| + |spaces|;
      && OccursAt(s, BetterKey, |pre|) && OccursAt(s, "\"" + g + "\"", c)
      && (forall k :: |pre| + |BetterKey| <= k < c ==> IsSpace(s[k]))
      && (forall k :: 0 <= k < |pre| ==> s[k] != '"')
      && s[|pre|] == '"'
  {
    var s := pre + BetterKey + spaces + "\"" + g + "\"" + post;
    var i := |pre|;
    var c := i + |BetterKey| + |spaces|;
    assert s == pre + (BetterKey + spaces + ("\"" + g + "\"") + post);
    assert s[i..i + |BetterKey|] == BetterKey;
    assert s[c..c + 8] == "\"" + g + "\"";
    forall k | i + |BetterKey| <= k < c ensures IsSpace(s[k]) {
      assert s[k] == spaces[k - i - |BetterKey|];
    }
    forall k | 0 <= k < i ensures s[k] != '"' {
      assert s[k] == pre[k];
    }
    assert s[i] == BetterKey[0];
  }

  /** No match starts at a character other than a quote. */
  lemma NoKeyAt(s: String, k: nat)
    requires k <= |s|
    requires k < |s| ==> s[k] != '"'
    ensures BetterAt(s, k).None?
  {
  }

  /** The verdict key at `i`, spaces up to `c`, then the quoted name: the regex captures the name. */
  lemma BetterAtHit(s: String, i: nat, c: nat, g: String)
    requires OccursAt(s, BetterKey, i) && i + |BetterKey| <= c
    requires g == "cand_1" || g == "cand_2"
    requires OccursAt(s, "\"" + g + "\"", c)
    requires forall k :: i + |BetterKey| <= k < c ==> IsSpace(s[k])
    ensures BetterAt(s, i) == Some(g)
  {
    assert s[c] == '"';
    SkipSpaceRun(s, i + |BetterKey|, c);
    assert s[c..c + 8] == "\"" + g + "\"";
    var m := s[c..c + 8];
    assert s[c..c + 6] == m[..6];
    assert s[c + 6] == m[6] && s[c + 7] == m[7];
    if g == "cand_1" {
      assert m == "\"cand_1\"";
      assert m[..6] == "\"cand_";
      assert "cand_" + [m[6]] == g;
    } else {
      assert m == "\"cand_2\"";
      assert m[..6] == "\"cand_";
      assert "cand_" + [m[6]] == g;
    }
    assert OccursAt(s, "\"cand_", c);
    assert BetterAt(s, i) == Some("cand_" + [s[c + 6]]);
  }

  /** Skipping whitespace over a run of it stops at the first non-space. */
  lemma {:induction false} SkipSpaceRun(s: String, i: nat, e: nat)
    requires i <= e < |s| && !IsSpace(s[e])
    requires forall k :: i <= k < e ==> IsSpace(s[k])
    ensures Patterns.SkipSpace(s, i) == e
    decreases e - i
  {
    if i < e {
      SkipSpaceRun(s, i + 1, e);
    }
  }

  /** The search finds the match at `m` when none starts before it. */
  lemma {:induction false} FirstBetterFrom(s: String, i: nat, m: nat)
    requires i <= m <= |s| && BetterAt(s, m).Some?
    requires forall k :: i <= k < m ==> BetterAt(s, k).None?
    ensures FirstBetter(s, i) == Some(m)
    decreases m - i
  {
    if i < m {
      FirstBetterFrom(s, i + 1, m);
    }
  }

  // ------------------------------------------------------------ the record

  /** build_prompt_from_messages: the dialogue without a final assistant message. */
  function BuildPrompt(messages: seq<Message>): (r: seq<Message>)
    ensures |r| <= |messages| && r == messages[..|r|]
    ensures |r| < |messages| <==> messages != [] && messages[|messages| - 1].role == "assistant"
    ensures |r| + 1 >= |messages|
  {
    if messages == [] then []
    else if messages[|messages| - 1].role == "assistant" then messages[..|messages| - 1]
    else messages
  }

  /** The fields of a raw comparison record the conversion reads; an absent `messages` is empty. */
  datatype RawRecord = RawRecord(messages: seq<Message>, candidate1: Option<String>, candidate2: Option<String>)

  /** extract_candidates_from_raw_record. */
  function Candidates(raw: RawRecord): (r: map<String, String>)
    ensures forall k :: k in r <==> (k == "cand_1" && raw.candidate1.Some?) || (k == "cand_2" && raw.candidate2.Some?)
    ensures "cand_1" in r ==> r["cand_1"] == raw.candidate1.value
    ensures "cand_2" in r ==> r["cand_2"] == raw.candidate2.value
  {
    var one: map<String, String> := if raw.candidate1.Some? then map["cand_1" := raw.candidate1.value] else map[];
    if raw.candidate2.Some? then one["cand_2" := raw.candidate2.value] else one
  }

  /** The record convert_to_rl_format writes, without its JSON-encoded `solution` string. */
  datatype RlRecord = RlRecord(
    dataSource: String, prompt: seq<Message>, answer: String, style: String,
    raw: RawRecord, betterResponse: String, candidates: map<String, String>, goldenType: String, index: int)

  /** convert_to_rl_format: the prompt, and the preferred candidate's text as the answer. */
  function ConvertToRlFormat(raw: RawRecord, better: String): (r: RlRecord)
    ensures r.prompt == BuildPrompt(raw.messages)
    ensures better == "cand_1" && raw.candidate1.Some? ==> r.answer == raw.candidate1.value
    ensures better == "cand_2" && raw.candidate2.Some? ==> r.answer == raw.candidate2.value
    ensures (better != "cand_1" || raw.candidate1.None?) && (better != "cand_2" || raw.candidate2.None?) ==> r.answer == ""
    ensures r.dataSource == "roleplay_rl" && r.goldenType == "3" && r.index == 0
  {
    var candidates := Candidates(raw);
    var answer := if better in candidates then candidates[better] else "";
    RlRecord("roleplay_rl", BuildPrompt(raw.messages), answer, "rule", raw, better, candidates, "3", 0)
  }

  /** A verdict read by the regex picks the text of the candidate it names, when the record has it. */
  lemma VerdictPicksCandidate(content: String, parse: String -> Option<Json>, raw: RawRecord)
    requires FindBetter(content).Some?
    requires raw.candidate1.Some? && raw.candidate2.Some?
    ensures ExtractBetterResponse(content, parse).Some?
    ensures var g := ExtractBetterResponse(content, parse).value.str;
      ConvertToRlFormat(raw, g).answer == (if g == "cand_1" then raw.candidate1.value else raw.candidate2.value)
  {
    var k := FirstBetter(content, 0).value;
    assert OccursAt(content, BetterKey, k);
    assert content[k] == content[k..k + |BetterKey|][0];
  }
}
