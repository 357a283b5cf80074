// The regular expressions the role-play pipeline uses, each written as an
// explicit matcher over `seq<char>`, and the three ways they are applied:
// `re.sub` (substitute every leftmost non-overlapping match), `re.sub` of a
// pattern ending in `.*` under DOTALL (cut the text at the first match), and
// `re.search` (first match).

module Patterns {
  import opened Basics
  import opened Text

  /** A pattern shape. Every shape matches at least one character. */
  datatype Pat =
      /** a literal string (non-empty) */
    | Lit(t: String)
      /** `<\s*system[_\s]*think(?:ing)?\s*>`, or `[_\s]+` when `sepRequired`; `</…` when `closing` */
    | SysTag(closing: bool, sepRequired: bool)
      /** `<\s*role[_\s]+think(?:ing)?\s*>`, `</…` when `closing` */
    | RoleTag(closing: bool)
      /** `<\s*\w*[_\s]*think(?:ing)?\s*>`, `</…` when `closing` */
    | AnyThinkTag(closing: bool)
      /** `</?role_\w+>` */
    | RoleWordTag
      /** `c+` */
    | Run(c: char)
      /** `t\s+` */
    | LitSpaces(t: String)
      /** `\n\s*\n` */
    | NewlineGap
      /** `o([^stop]+)c` where `c` is in `stop`; the group is the text between */
    | Group(o: char, c: char, stop: set<char>)
      /** `(\s*)?open(.*?)close(\s*)?`; the group is the lazy middle; `.` matches a newline iff `dotall` */
    | Block(open: Pat, close: Pat, padBefore: bool, padAfter: bool, dotall: bool)

  /** A match: where it ends, and the span of its capture group. */
  datatype Hit = Hit(end: nat, gStart: nat, gEnd: nat)

  predicate IsSepChar(c: char) { c == '_' || IsSpace(c) }

  function SkipSpace(s: String, i: nat): (j: nat)
    requires i <= |s|
    ensures i <= j <= |s|
    ensures forall k :: i <= k < j ==> IsSpace(s[k])
    ensures j == |s| || !IsSpace(s[j])
    decreases |s| - i
  {
    if i < |s| && IsSpace(s[i]) then SkipSpace(s, i + 1) else i
  }

  function SkipSep(s: String, i: nat): (j: nat)
    requires i <= |s|
    ensures i <= j <= |s|
    ensures forall k :: i <= k < j ==> IsSepChar(s[k])
    ensures j == |s| || !IsSepChar(s[j])
    decreases |s| - i
  {
    if i < |s| && IsSepChar(s[i]) then SkipSep(s, i + 1) else i
  }

  function SkipChar(s: String, i: nat, c: char): (j: nat)
    requires i <= |s|
    ensures i <= j <= |s|
    ensures forall k :: i <= k < j ==> s[k] == c
    ensures j == |s| || s[j] != c
    decreases |s| - i
  {
    if i < |s| && s[i] == c then SkipChar(s, i + 1, c) else i
  }

  function SkipWordOrSpace(s: String, i: nat): (j: nat)
    requires i <= |s|
    ensures i <= j <= |s|
    ensures forall k :: i <= k < j ==> IsWordChar(s[k]) || IsSpace(s[k])
    ensures j == |s| || !(IsWordChar(s[j]) || IsSpace(s[j]))
    decreases |s| - i
  {
    if i < |s| && (IsWordChar(s[i]) || IsSpace(s[i])) then SkipWordOrSpace(s, i + 1) else i
  }

  function SkipWord(s: String, i: nat): (j: nat)
    requires i <= |s|
    ensures i <= j <= |s|
    ensures forall k :: i <= k < j ==> IsWordChar(s[k])
    ensures j == |s| || !IsWordChar(s[j])
    decreases |s| - i
  {
    if i < |s| && IsWordChar(s[i]) then SkipWord(s, i + 1) else i
  }

  /** After `<\s*` (or `</\s*`): the index where the tag's name starts. */
  function TagName(s: String, i: nat, closing: bool): (r: Option<nat>)
    requires i <= |s|
    ensures r.Some? ==> i < r.value <= |s|
    ensures r.Some? ==> s[i] == '<'
  {
    if closing then
      (if OccursAt(s, "</", i) then Some(SkipSpace(s, i + 2)) else None)
    else if OccursAt(s, "<", i) then Some(SkipSpace(s, i + 1))
    else None
  }

  /** `(?:ing)?\s*>` right after `think`. */
  function ThinkTail(s: String, j: nat): (r: Option<nat>)
    requires j <= |s|
    ensures r.Some? ==> j < r.value <= |s| && s[r.value - 1] == '>'
  {
    var k := if OccursAt(s, "ing", j) then j + 3 else j;
    var m := SkipSpace(s, k);
    if m < |s| && s[m] == '>' then Some(m + 1) else None
  }

  /** `kw[_\s]*think(?:ing)?\s*>` (or `[_\s]+`) starting at `a`. */
  function KeywordThink(s: String, a: nat, kw: String, sepRequired: bool): (r: Option<nat>)
    requires a <= |s|
    ensures r.Some? ==> a < r.value <= |s|
  {
    if OccursAt(s, kw, a) then
      var b := SkipSep(s, a + |kw|);
      if sepRequired && b == a + |kw| then None
      else if OccursAt(s, "think", b) then ThinkTail(s, b + 5)
      else None
    else None
  }

  /** The text matches `\w*[_\s]*`, given that it consists of word and blank characters. */
  predicate WordThenSep(p: String) {
    forall x, y :: 0 <= x < y < |p| && IsSpace(p[x]) ==> IsSepChar(p[y])
  }

  /**
   * `\w*[_\s]*think(?:ing)?\s*>` starting at `a`. Every character the pattern
   * can consume before `>` is a word or blank character, so the `>` is the
   * first character that is neither; what precedes it must end in `think`
   * or `thinking` (then blanks), preceded by `\w*[_\s]*`.
   */
  function AnyThink(s: String, a: nat): (r: Option<nat>)
    requires a <= |s|
    ensures r.Some? ==> a < r.value <= |s|
  {
    var e := SkipWordOrSpace(s, a);
    if e < |s| && s[e] == '>' then
      var q := RStrip(s[a..e]);
      if EndsWith(q, "thinking") && WordThenSep(q[..|q| - 8]) then Some(e + 1)
      else if EndsWith(q, "think") && WordThenSep(q[..|q| - 5]) then Some(e + 1)
      else None
    else None
  }

  /** `<\s*kw[_\s]*think(?:ing)?\s*>` (or its closing form) at `i`. */
  function KeywordTagAt(s: String, i: nat, closing: bool, kw: String, sepRequired: bool): (r: Option<Hit>)
    requires i <= |s|
    ensures r.Some? ==> i < r.value.end <= |s| && r.value.gStart == i == r.value.gEnd
  {
    match TagName(s, i, closing)
    case None => None
    case Some(a) =>
      match KeywordThink(s, a, kw, sepRequired)
      case None => None
      case Some(e) => Some(Hit(e, i, i))
  }

  /** `<\s*\w*[_\s]*think(?:ing)?\s*>` (or its closing form) at `i`. */
  function AnyThinkTagAt(s: String, i: nat, closing: bool): (r: Option<Hit>)
    requires i <= |s|
    ensures r.Some? ==> i < r.value.end <= |s| && r.value.gStart == i == r.value.gEnd
  {
    match TagName(s, i, closing)
    case None => None
    case Some(a) =>
      match AnyThink(s, a)
      case None => None
      case Some(e) => Some(Hit(e, i, i))
  }

  /** `</?role_\w+>` at `i`. */
  function RoleWordTagAt(s: String, i: nat): (r: Option<Hit>)
    requires i <= |s|
    ensures r.Some? ==> i < r.value.end <= |s| && r.value.gStart == i == r.value.gEnd
  {
    var a := if OccursAt(s, "</", i) then i + 2 else i + 1;
    if i < |s| && s[i] == '<' && OccursAt(s, "role_", a) then
      var w := SkipWord(s, a + 5);
      if w > a + 5 && w < |s| && s[w] == '>' then Some(Hit(w + 1, i, i)) else None
    else None
  }

  /** `\n\s*\n`: a newline, then blanks up to the last newline among them. */
  function NewlineGapAt(s: String, i: nat): (r: Option<Hit>)
    requires i <= |s|
    ensures r.Some? ==> i < r.value.end <= |s| && r.value.gStart == i == r.value.gEnd
  {
    if i < |s| && s[i] == '\n' then
      match LastNewlineIn(s, i + 1, SkipSpace(s, i + 1))
      case Some(k) => Some(Hit(k + 1, i, i))
      case None => None
    else None
  }

  /** `o([^stop]+)c` at `i`, the group being the text between the delimiters. */
  function GroupAt(s: String, i: nat, o: char, c: char, stop: set<char>): (r: Option<Hit>)
    requires i <= |s|
    ensures r.Some? ==> i < r.value.end <= |s| && i <= r.value.gStart <= r.value.gEnd <= r.value.end
  {
    if i < |s| && s[i] == o then
      match FirstIn(s, i + 1, stop)
      case Some(j) =>
        if s[j] == c && j > i + 1 then Some(Hit(j + 1, i + 1, j)) else None
      case None => None
    else None
  }

  /** The match of `p` that starts at `i`, the one Python's backtracking engine finds first. */
  function MatchAt(p: Pat, s: String, i: nat): (r: Option<Hit>)
    requires i <= |s|
    ensures r.Some? ==> i < r.value.end <= |s|
    ensures r.Some? ==> i <= r.value.gStart <= r.value.gEnd <= r.value.end
    decreases p, 0
  {
    match p
    case Lit(t) =>
      if t != [] && OccursAt(s, t, i) then Some(Hit(i + |t|, i, i)) else None
    case SysTag(closing, sepRequired) => KeywordTagAt(s, i, closing, "system", sepRequired)
    case RoleTag(closing) => KeywordTagAt(s, i, closing, "role", true)
    case AnyThinkTag(closing) => AnyThinkTagAt(s, i, closing)
    case RoleWordTag => RoleWordTagAt(s, i)
    case Run(c) =>
      if i < |s| && s[i] == c then Some(Hit(SkipChar(s, i, c), i, i)) else None
    case LitSpaces(t) =>
      if OccursAt(s, t, i) && i + |t| < |s| && IsSpace(s[i + |t|]) then
        Some(Hit(SkipSpace(s, i + |t|), i, i))
      else None
    case NewlineGap => NewlineGapAt(s, i)
    case Group(o, c, stop) => GroupAt(s, i, o, c, stop)
    case Block(open, close, padBefore, padAfter, dotall) =>
      var k := if padBefore then SkipSpace(s, i) else i;
      match MatchAt(open, s, k)
      case None => None
      case Some(h) =>
        match CloseAfter(s, close, h.end, dotall)
        case None => None
        case Some(j) =>
          var h2 := MatchAt(close, s, j).value;
          Some(Hit(if padAfter then SkipSpace(s, h2.end) else h2.end, h.end, j))
  }

  /** The last newline in `s[i..j]`. */
  function LastNewlineIn(s: String, i: nat, j: nat): (r: Option<nat>)
    requires i <= j <= |s|
    ensures r.Some? ==> i <= r.value < j && s[r.value] == '\n'
    ensures r.Some? ==> forall k :: r.value < k < j ==> s[k] != '\n'
    ensures r.None? ==> forall k :: i <= k < j ==> s[k] != '\n'
    decreases j - i
  {
    if i == j then None
    else if s[j - 1] == '\n' then Some(j - 1)
    else LastNewlineIn(s, i, j - 1)
  }

  /** The first index at or after `i` holding a character of `stop`. */
  function FirstIn(s: String, i: nat, stop: set<char>): (r: Option<nat>)
    requires i <= |s|
    ensures r.Some? ==> i <= r.value < |s| && s[r.value] in stop
    ensures r.Some? ==> forall k :: i <= k < r.value ==> s[k] !in stop
    ensures r.None? ==> forall k :: i <= k < |s| ==> s[k] !in stop
    decreases |s| - i
  {
    if i == |s| then None
    else if s[i] in stop then Some(i)
    else FirstIn(s, i + 1, stop)
  }

  /** The lazy `.*?close`: the first index at or after `j` where `close` matches. */
  function CloseAfter(s: String, close: Pat, j: nat, dotall: bool): (r: Option<nat>)
    requires j <= |s|
    ensures r.Some? ==> j <= r.value <= |s| && MatchAt(close, s, r.value).Some?
    ensures r.Some? ==> forall k :: j <= k < r.value ==> MatchAt(close, s, k).None?
    decreases close, |s| - j + 1
  {
    if MatchAt(close, s, j).Some? then Some(j)
    else if j == |s| || (!dotall && s[j] == '\n') then None
    else CloseAfter(s, close, j + 1, dotall)
  }

  // ------------------------------------------------------------ applying

  /** What `re.sub` puts in place of a match. */
  datatype Repl =
    | Delete
    | Const(t: String)
      /** `pre + \1 + post` */
    | Wrap(pre: String, post: String)

  function Replacement(s: String, h: Hit, r: Repl): String
    requires h.gStart <= h.gEnd <= |s|
  {
    match r
    case Delete => []
    case Const(t) => t
    case Wrap(pre, post) => pre + s[h.gStart..h.gEnd] + post
  }

  /** `re.sub(p, repl, s)`: scan left to right, replacing each match. */
  function Sub(s: String, p: Pat, r: Repl): String {
    SubFrom(s, p, r, 0)
  }

  function SubFrom(s: String, p: Pat, r: Repl, i: nat): String
    requires i <= |s|
    decreases |s| - i
  {
    if i == |s| then []
    else
      match MatchAt(p, s, i)
      case Some(h) => Replacement(s, h, r) + SubFrom(s, p, r, h.end)
      case None => [s[i]] + SubFrom(s, p, r, i + 1)
  }

  /** The start of the first match at or after `i` (`re.search`). */
  function FirstMatch(s: String, p: Pat, i: nat): (r: Option<nat>)
    requires i <= |s|
    ensures r.Some? ==> i <= r.value < |s| && MatchAt(p, s, r.value).Some?
    ensures r.Some? ==> forall k :: i <= k < r.value ==> MatchAt(p, s, k).None?
    ensures r.None? ==> forall k :: i <= k <= |s| ==> MatchAt(p, s, k).None?
    decreases |s| - i
  {
    if MatchAt(p, s, i).Some? then Some(i)
    else if i == |s| then None
    else FirstMatch(s, p, i + 1)
  }

  predicate HasMatch(s: String, p: Pat) {
    FirstMatch(s, p, 0).Some?
  }

  /** `re.sub(p + '.*', '', s, flags=re.DOTALL)`: everything from the first match on is cut. */
  function CutAt(s: String, p: Pat): (r: String)
    ensures |r| <= |s| && r == s[..|r|]
    ensures HasMatch(s, p) <==> |r| < |s|
    ensures forall k :: 0 <= k < |r| ==> MatchAt(p, s, k).None?
  {
    match FirstMatch(s, p, 0)
    case Some(k) => s[..k]
    case None => s
  }

  // ----------------------------------------------------------- properties

  /** Deleting matches never lengthens the text. */
  lemma {:induction false} SubDeleteNoLonger(s: String, p: Pat, i: nat)
    requires i <= |s|
    ensures |SubFrom(s, p, Delete, i)| <= |s| - i
    decreases |s| - i
  {
    if i < |s| {
      match MatchAt(p, s, i)
      case Some(h) =>
        SubDeleteNoLonger(s, p, h.end);
      case None =>
        SubDeleteNoLonger(s, p, i + 1);
    }
  }

  /** Deleting matches shortens the text when one exists. */
  lemma SubDeleteShrinks(s: String, p: Pat, i: nat)
    requires i <= |s| && FirstMatch(s, p, i).Some?
    ensures |SubFrom(s, p, Delete, i)| < |s| - i
  {
    var m := FirstMatch(s, p, i).value;
    SubFromSkip(s, p, Delete, i, m);
    SubFromHit(s, p, Delete, m);
    SubDeleteNoLonger(s, p, MatchAt(p, s, m).value.end);
  }

  /** A text with no match is left as it is. */
  lemma {:induction false} SubNoMatch(s: String, p: Pat, r: Repl, i: nat)
    requires i <= |s|
    requires FirstMatch(s, p, i).None?
    ensures SubFrom(s, p, r, i) == s[i..]
    decreases |s| - i
  {
    if i < |s| {
      SubNoMatch(s, p, r, i + 1);
      assert s[i..] == [s[i]] + s[i + 1..];
    }
  }

  /** A text with no match of the pattern is not cut. */
  lemma CutNoMatch(s: String, p: Pat)
    requires !HasMatch(s, p)
    ensures CutAt(s, p) == s
  {
  }

  lemma SubDelete(s: String, p: Pat)
    ensures |Sub(s, p, Delete)| <= |s|
    ensures HasMatch(s, p) ==> |Sub(s, p, Delete)| < |s|
    ensures !HasMatch(s, p) ==> Sub(s, p, Delete) == s
  {
    SubDeleteNoLonger(s, p, 0);
    if HasMatch(s, p) {
      SubDeleteShrinks(s, p, 0);
    } else {
      SubNoMatch(s, p, Delete, 0);
    }
  }

  /** Collapsing runs of `c` to one `c` never lengthens the text. */
  lemma {:induction false} SubRunShrinks(s: String, c: char, i: nat)
    requires i <= |s|
    ensures |SubFrom(s, Run(c), Const([c]), i)| <= |s| - i
    decreases |s| - i
  {
    if i < |s| {
      match MatchAt(Run(c), s, i)
      case Some(h) =>
        SubRunShrinks(s, c, h.end);
      case None =>
        SubRunShrinks(s, c, i + 1);
    }
  }

  /** The search finds the first position where the pattern matches. */
  lemma FirstMatchAt(s: String, p: Pat, i: nat, e: nat)
    requires i <= e <= |s| && MatchAt(p, s, e).Some?
    requires forall k :: i <= k < e ==> MatchAt(p, s, k).None?
    ensures FirstMatch(s, p, i) == Some(e)
  {
    FirstMatchBy(s, p, i, e);
    var r := FirstMatch(s, p, i).value;
    assert MatchAt(p, s, r).Some?;
  }

  /** A match at `e` means the search from `i` stops at `e` or before. */
  lemma FirstMatchBy(s: String, p: Pat, i: nat, e: nat)
    requires i <= e <= |s| && MatchAt(p, s, e).Some?
    ensures FirstMatch(s, p, i).Some? && FirstMatch(s, p, i).value <= e
  {
  }

  /** A match anywhere makes the search succeed. */
  lemma MatchMeansHasMatch(s: String, p: Pat, k: nat)
    requires k <= |s|
    ensures MatchAt(p, s, k).Some? ==> HasMatch(s, p)
  {
    if MatchAt(p, s, k).Some? {
      FirstMatchBy(s, p, 0, k);
    }
  }

  /** A pattern the search does not find matches nowhere. */
  lemma NoMatchNowhere(s: String, p: Pat)
    requires !HasMatch(s, p)
    ensures forall k :: 0 <= k <= |s| ==> MatchAt(p, s, k).None?
  {
    forall k | 0 <= k <= |s|
      ensures MatchAt(p, s, k).None?
    {
      MatchMeansHasMatch(s, p, k);
    }
  }

  /** A literal matches at the start of a text it begins. */
  lemma LitHitPrefix(t: String, rest: String)
    requires t != []
    ensures MatchAt(Lit(t), t + rest, 0).Some?
  {
    assert (t + rest)[..|t|] == t;
  }

  /** A literal cannot match where its first character is not. */
  lemma LitMiss(s: String, t: String, i: nat)
    requires i < |s| && t != [] && s[i] != t[0]
    ensures MatchAt(Lit(t), s, i).None?
  {
    if i + |t| <= |s| {
      assert s[i..i + |t|][0] == s[i];
    }
  }

  /** A pattern whose every match starts with `c` never matches a text without `c`. */
  lemma NoMatchWithout(s: String, p: Pat, c: char)
    requires c !in s
    requires p.Lit? ==> p.t != [] && p.t[0] == c
    requires p.Block? ==> p.open.Lit? && p.open.t != [] && p.open.t[0] == c && !p.padBefore
    requires p.RoleWordTag? ==> c == '<'
    requires p.Lit? || p.Block? || p.RoleWordTag?
    ensures !HasMatch(s, p)
  {
    forall k | 0 <= k <= |s|
      ensures MatchAt(p, s, k).None?
    {
      if k < |s| {
        match p
        case Lit(t) => LitMiss(s, t, k);
        case Block(o, _, _, _, _) => LitMiss(s, o.t, k);
        case RoleWordTag =>
        case _ =>
      }
    }
  }

  /** The lazy close search stops at the first place the literal occurs. */
  lemma {:induction false} CloseAfterAt(s: String, c: String, j: nat, e: nat)
    requires c != [] && j <= e && OccursAt(s, c, e)
    requires forall k :: j <= k < e ==> !OccursAt(s, c, k)
    ensures CloseAfter(s, Lit(c), j, true) == Some(e)
    decreases e - j
  {
    if j < e {
      CloseAfterAt(s, c, j + 1, e);
    }
  }

  /**
   * Where the five parts of `pre + o + body + c + post` sit, when `o` first
   * occurs in `pre + o` at its end and `c` first occurs in `body + c` at its end.
   */
  lemma BlockLayout(pre: String, o: String, body: String, c: String, post: String)
    requires o != [] && c != []
    requires NoOccurrenceBefore(pre + o, o, |pre|) && NoOccurrenceBefore(body + c, c, |body|)
    ensures var s := pre + o + body + c + post;
      var a := |pre| + |o|;
      var b := a + |body|;
      OccursAt(s, o, |pre|) && OccursAt(s, c, b) &&
      (forall k :: 0 <= k < |pre| ==> !OccursAt(s, o, k)) &&
      (forall k :: a <= k < b ==> !OccursAt(s, c, k))
  {
    var s := pre + o + body + c + post;
    var a := |pre| + |o|;
    var b := a + |body|;
    var u := body + c;
    var v := pre + o;
    assert s == v + (u + post);
    assert s[..a] == v;
    assert s[|pre|..a] == o;
    assert s[a..a + |u|] == u;
    assert s[b..b + |c|] == c;
    forall k | 0 <= k < |pre|
      ensures !OccursAt(s, o, k)
    {
      if k + |o| <= a {
        assert s[k..k + |o|] == v[k..k + |o|];
      }
      assert !OccursAt(v, o, k);
    }
    forall k | a <= k < b
      ensures !OccursAt(s, c, k)
    {
      assert s[k..k + |c|] == u[k - a..k - a + |c|];
      assert !OccursAt(u, c, k - a);
    }
  }

  /**
   * In `pre + o + body + c + post`, when `o` first occurs right after `pre`
   * and `c` first occurs after the opener right after `body`, the first match
   * of the lazy block `o.*?c` starts right after `pre` and its group is
   * exactly `body`.
   */
  lemma LitBlockFirst(pre: String, o: String, body: String, c: String, post: String, padAfter: bool)
    requires o != [] && c != []
    requires NoOccurrenceBefore(pre + o, o, |pre|) && NoOccurrenceBefore(body + c, c, |body|)
    ensures var s := pre + o + body + c + post;
      var blk := Block(Lit(o), Lit(c), false, padAfter, true);
      var b := |pre| + |o| + |body|;
      FirstMatch(s, blk, 0) == Some(|pre|) &&
      MatchAt(blk, s, |pre|).value.gStart == |pre| + |o| &&
      MatchAt(blk, s, |pre|).value.gEnd == b
  {
    var s := pre + o + body + c + post;
    var blk := Block(Lit(o), Lit(c), false, padAfter, true);
    var b := |pre| + |o| + |body|;
    BlockLayout(pre, o, body, c, post);
    BlockHitAt(s, o, c, |pre|, b, padAfter);
    NoBlockIn(s, o, c, 0, |pre|, padAfter);
    FirstMatchAt(s, blk, 0, |pre|);
  }

  /** The lazy block `o.*?c` matches at `i` up to the first `c` after the opener. */
  lemma BlockHitAt(s: String, o: String, c: String, i: nat, b: nat, padAfter: bool)
    requires o != [] && c != [] && OccursAt(s, o, i) && i + |o| <= b && OccursAt(s, c, b)
    requires forall k :: i + |o| <= k < b ==> !OccursAt(s, c, k)
    ensures var h := MatchAt(Block(Lit(o), Lit(c), false, padAfter, true), s, i);
      h.Some? && h.value.gStart == i + |o| && h.value.gEnd == b &&
      h.value.end == if padAfter then SkipSpace(s, b + |c|) else b + |c|
  {
    CloseAfterAt(s, c, i + |o|, b);
  }

  /** No block `o.*?c` starts where `o` does not occur. */
  lemma NoBlockIn(s: String, o: String, c: String, i: nat, e: nat, padAfter: bool)
    requires o != [] && i <= e <= |s|
    requires forall k :: i <= k < e ==> !OccursAt(s, o, k)
    ensures forall k :: i <= k < e ==> MatchAt(Block(Lit(o), Lit(c), false, padAfter, true), s, k).None?
  {
  }

  /** Skipping blanks from `i` leaves what `lstrip` leaves of the rest. */
  lemma {:induction false} SkipSpaceLStrip(s: String, i: nat)
    requires i <= |s|
    ensures s[SkipSpace(s, i)..] == LStrip(s[i..])
    decreases |s| - i
  {
    if i < |s| && IsSpace(s[i]) {
      SkipSpaceLStrip(s, i + 1);
      assert s[i..][1..] == s[i + 1..];
    }
  }

  /** Substitution copies the stretch before the next match unchanged. */
  lemma {:induction false} SubFromSkip(s: String, p: Pat, r: Repl, i: nat, e: nat)
    requires i <= e <= |s|
    requires forall k :: i <= k < e ==> MatchAt(p, s, k).None?
    ensures SubFrom(s, p, r, i) == s[i..e] + SubFrom(s, p, r, e)
    decreases e - i
  {
    if i < e {
      SubFromSkip(s, p, r, i + 1, e);
      SubFromSkipStep(s, p, r, i, e);
    }
  }

  /** One step of `SubFromSkip`: a miss at `i` prepends the character. */
  lemma SubFromSkipStep(s: String, p: Pat, r: Repl, i: nat, e: nat)
    requires i < e <= |s| && MatchAt(p, s, i).None?
    requires SubFrom(s, p, r, i + 1) == s[i + 1..e] + SubFrom(s, p, r, e)
    ensures SubFrom(s, p, r, i) == s[i..e] + SubFrom(s, p, r, e)
  {
    SubFromMiss(s, p, r, i);
    ConsSlice(s, i, e, SubFrom(s, p, r, e));
  }

  /** Where nothing matches, substitution copies the character. */
  lemma SubFromMiss(s: String, p: Pat, r: Repl, i: nat)
    requires i < |s| && MatchAt(p, s, i).None?
    ensures SubFrom(s, p, r, i) == [s[i]] + SubFrom(s, p, r, i + 1)
  {
  }

  lemma ConsSlice(s: String, i: nat, e: nat, t: String)
    requires i < e <= |s|
    ensures [s[i]] + (s[i + 1..e] + t) == s[i..e] + t
  {
    assert s[i..e] == [s[i]] + s[i + 1..e];
  }

  /** Deleting the only match leaves what is before it and what is after it. */
  lemma SubAround(s: String, p: Pat, i: nat, m: nat)
    requires i < m <= |s| && MatchAt(p, s, i).Some? && MatchAt(p, s, i).value.end == m
    requires forall k :: 0 <= k < i ==> MatchAt(p, s, k).None?
    requires forall k :: m <= k < |s| ==> MatchAt(p, s, k).None?
    ensures Sub(s, p, Delete) == s[..i] + s[m..]
  {
    var h := MatchAt(p, s, i).value;
    SubAroundRepl(s, p, Delete, i, h);
    AppendEmpty(s[..i]);
  }

  /** Substituting the only match replaces it and keeps what is before it and after it. */
  lemma SubAroundRepl(s: String, p: Pat, r: Repl, i: nat, h: Hit)
    requires i < h.end <= |s| && MatchAt(p, s, i) == Some(h)
    requires forall k :: 0 <= k < i ==> MatchAt(p, s, k).None?
    requires forall k :: h.end <= k < |s| ==> MatchAt(p, s, k).None?
    ensures Sub(s, p, r) == s[..i] + Replacement(s, h, r) + s[h.end..]
  {
    SubFromRest(s, p, r, h.end);
    SubFromHit(s, p, r, i);
    SubFromSkip(s, p, r, 0, i);
    assert s[0..i] == s[..i];
    AppendAssoc(s[..i], Replacement(s, h, r), s[h.end..]);
  }

  /** With no match from `e` on, the scan copies the rest of the text. */
  lemma SubFromRest(s: String, p: Pat, r: Repl, e: nat)
    requires e <= |s|
    requires forall k :: e <= k < |s| ==> MatchAt(p, s, k).None?
    ensures SubFrom(s, p, r, e) == s[e..]
  {
    SubFromSkip(s, p, r, e, |s|);
    SubFromEnd(s, p, r);
    assert s[e..|s|] == s[e..];
  }

  /** A match is replaced, and the scan resumes where it ends. */
  lemma SubFromHit(s: String, p: Pat, r: Repl, i: nat)
    requires i < |s| && MatchAt(p, s, i).Some?
    ensures SubFrom(s, p, r, i) == Replacement(s, MatchAt(p, s, i).value, r) + SubFrom(s, p, r, MatchAt(p, s, i).value.end)
  {
  }

  lemma SubFromEnd(s: String, p: Pat, r: Repl)
    ensures SubFrom(s, p, r, |s|) == []
  {
  }

  /** The tail after a prefix `x` holds no occurrence of `o` when `post` holds none. */
  lemma NoOccurrenceAfter(x: String, post: String, o: String, m: nat)
    requires |x| <= m && NoOccurrenceBefore(post, o, |post|)
    ensures forall k :: m <= k < |x + post| ==> !OccursAt(x + post, o, k)
  {
    forall k | m <= k < |x + post|
      ensures !OccursAt(x + post, o, k)
    {
      OccursShift(x, post, o, k - |x|);
    }
  }

  /**
   * Deleting the lazy block `o.*?c` (and the blanks after it, when the block
   * takes them) from `pre + o + body + c + post`, where the block is the only
   * one, leaves `pre` and `post`.
   */
  lemma SubOneBlock(pre: String, o: String, body: String, c: String, post: String, padAfter: bool)
    requires o != [] && c != []
    requires NoOccurrenceBefore(pre + o, o, |pre|) && NoOccurrenceBefore(body + c, c, |body|)
    requires NoOccurrenceBefore(post, o, |post|)
    ensures Sub(pre + o + body + c + post, Block(Lit(o), Lit(c), false, padAfter, true), Delete)
      == pre + if padAfter then LStrip(post) else post
  {
    var m := OneBlockHit(pre, o, body, c, post, padAfter);
    KeepAround(pre, o, body, c, post, m, padAfter);
  }

  /** Cutting out what lies between `pre` and the end of a block that ends where `c` does keeps `pre` and what follows. */
  lemma KeepAround(pre: String, o: String, body: String, c: String, post: String, m: nat, padAfter: bool)
    requires m == if padAfter then SkipSpace(pre + o + body + c + post, |pre + o + body + c|) else |pre + o + body + c|
    ensures var s := pre + o + body + c + post;
      s[..|pre|] + s[m..] == pre + if padAfter then LStrip(post) else post
  {
    var x := pre + o + body + c;
    TailAfter(x, post, m, padAfter);
    assert (x + post)[..|pre|] == pre;
  }

  /**
   * In `pre + o + body + c + post`, the block matches right after `pre` and
   * nowhere else, so deleting it keeps what is before it and after it.
   */
  lemma OneBlockHit(pre: String, o: String, body: String, c: String, post: String, padAfter: bool) returns (m: nat)
    requires o != [] && c != []
    requires NoOccurrenceBefore(pre + o, o, |pre|) && NoOccurrenceBefore(body + c, c, |body|)
    requires NoOccurrenceBefore(post, o, |post|)
    ensures var x := pre + o + body + c;
      var s := x + post;
      && |pre| < m <= |s|
      && Sub(s, Block(Lit(o), Lit(c), false, padAfter, true), Delete) == s[..|pre|] + s[m..]
      && m == if padAfter then SkipSpace(s, |x|) else |x|
  {
    var x := pre + o + body + c;
    var s := x + post;
    var blk := Block(Lit(o), Lit(c), false, padAfter, true);
    var b := |pre| + |o| + |body|;
    BlockLayout(pre, o, body, c, post);
    BlockHitAt(s, o, c, |pre|, b, padAfter);
    m := MatchAt(blk, s, |pre|).value.end;
    NoBlockIn(s, o, c, 0, |pre|, padAfter);
    NoOccurrenceAfter(x, post, o, m);
    NoBlockIn(s, o, c, m, |s|, padAfter);
    SubAround(s, blk, |pre|, m);
  }

  /** What follows a block that ends at `|x|`, with or without the blanks after it. */
  lemma TailAfter(x: String, post: String, m: nat, padAfter: bool)
    requires m == if padAfter then SkipSpace(x + post, |x|) else |x|
    ensures (x + post)[m..] == if padAfter then LStrip(post) else post
  {
    assert (x + post)[|x|..] == post;
    if padAfter {
      SkipSpaceLStrip(x + post, |x|);
    }
  }

  /** `t` opens with a non-blank that appears nowhere else in it. */
  predicate HeadOnlyFirst(t: String) {
    t != [] && !IsSpace(t[0]) && forall k :: 0 < k < |t| ==> t[k] != t[0]
  }

  /**
   * Rewriting `t\s+` as `t` in `pre + t + gap + post`, where `t` occurs only
   * after `pre` and `gap` is blank, drops the blanks that follow `t`.
   */
  lemma SubOneLitSpaces(pre: String, t: String, gap: String, post: String)
    requires HeadOnlyFirst(t)
    requires NoOccurrenceBefore(pre + t, t, |pre|) && NoOccurrenceBefore(post, t, |post|)
    requires forall k :: 0 <= k < |gap| ==> IsSpace(gap[k])
    ensures Sub(pre + t + gap + post, LitSpaces(t), Const(t)) == pre + t + LStrip(gap + post)
  {
    var rest := gap + post;
    LitSpacesOnlyAt(pre, t, gap, post);
    assert pre + t + gap + post == pre + t + rest;
    if rest != [] && IsSpace(rest[0]) {
      LitSpacesBlankAfter(pre, t, rest);
    } else {
      LitSpacesNoBlankAfter(pre, t, rest);
    }
  }

  /** `SubOneLitSpaces` with nothing between `t` and the text after it. */
  lemma SubOneLitSpacesAdjacent(pre: String, t: String, post: String)
    requires HeadOnlyFirst(t)
    requires NoOccurrenceBefore(pre + t, t, |pre|) && NoOccurrenceBefore(post, t, |post|)
    ensures Sub(pre + t + post, LitSpaces(t), Const(t)) == pre + t + LStrip(post)
  {
    SubOneLitSpaces(pre, t, [], post);
    AppendEmpty(pre + t);
    AppendEmpty(post);
  }

  lemma AppendEmpty<T>(a: seq<T>)
    ensures a + [] == a && [] + a == a
  {
  }

  lemma AppendAssoc<T>(a: seq<T>, b: seq<T>, c: seq<T>)
    ensures a + (b + c) == a + b + c
  {
  }

  lemma AppendAssoc4<T>(p: seq<T>, a: seq<T>, b: seq<T>, c: seq<T>, d: seq<T>)
    ensures p + a + b + c + d == p + (a + b + c + d)
  {
  }

  lemma AppendAssoc5<T>(p: seq<T>, a: seq<T>, b: seq<T>, c: seq<T>, d: seq<T>, e: seq<T>)
    ensures p + a + b + c + d + e == p + (a + b + c + d + e)
  {
  }

  /** `t` followed by a blank, and matching nowhere else: `t\s+` strips those blanks. */
  lemma LitSpacesBlankAfter(pre: String, t: String, rest: String)
    requires rest != [] && IsSpace(rest[0])
    requires OccursAt(pre + t + rest, t, |pre|)
    requires forall k :: 0 <= k < |pre + t + rest| && k != |pre| ==>
      MatchAt(LitSpaces(t), pre + t + rest, k).None?
    ensures Sub(pre + t + rest, LitSpaces(t), Const(t)) == pre + t + LStrip(rest)
  {
    var s := pre + t + rest;
    assert s[|pre| + |t|] == rest[0];
    LitSpacesHit(s, t, |pre|);
    var kept := s[..|pre|] + t + s[SkipSpace(s, |pre| + |t|)..];
    assert Sub(s, LitSpaces(t), Const(t)) == kept;
    KeepThenStrip(pre, t, rest);
    assert kept == pre + t + LStrip(rest);
  }

  /** Keeping `pre + t` and the text after the blanks that follow it strips `rest` on the left. */
  lemma KeepThenStrip(pre: String, t: String, rest: String)
    ensures (pre + t + rest)[..|pre|] + t + (pre + t + rest)[SkipSpace(pre + t + rest, |pre| + |t|)..]
         == pre + t + LStrip(rest)
  {
    AppendAssoc(pre, t, rest);
    TakePrefix(pre, t + rest);
    SkipSpaceAfterTag(pre, t, rest);
  }

  /** Skipping the blanks after `pre + t` in `pre + t + rest` leaves `rest` stripped on the left. */
  lemma SkipSpaceAfterTag(pre: String, t: String, rest: String)
    ensures (pre + t + rest)[SkipSpace(pre + t + rest, |pre| + |t|)..] == LStrip(rest)
  {
    SkipSpaceAfter(pre + t, rest);
    assert |pre + t| == |pre| + |t|;
  }

  /** Skipping the blanks after `u` in `u + v` leaves `v` stripped on the left. */
  lemma SkipSpaceAfter(u: String, v: String)
    ensures (u + v)[SkipSpace(u + v, |u|)..] == LStrip(v)
  {
    SkipSpaceLStrip(u + v, |u|);
    DropPrefix(u, v);
  }

  lemma TakePrefix<T>(u: seq<T>, v: seq<T>)
    ensures (u + v)[..|u|] == u
  {
  }

  lemma DropPrefix<T>(u: seq<T>, v: seq<T>)
    ensures (u + v)[|u|..] == v
  {
  }

  /** `t` not followed by a blank, and matching nowhere else: `t\s+` changes nothing. */
  lemma LitSpacesNoBlankAfter(pre: String, t: String, rest: String)
    requires rest == [] || !IsSpace(rest[0])
    requires forall k :: 0 <= k < |pre + t + rest| && k != |pre| ==>
      MatchAt(LitSpaces(t), pre + t + rest, k).None?
    ensures Sub(pre + t + rest, LitSpaces(t), Const(t)) == pre + t + LStrip(rest)
  {
    var s := pre + t + rest;
    if rest != [] {
      assert s[|pre| + |t|] == rest[0];
    }
    assert MatchAt(LitSpaces(t), s, |pre|).None?;
    NoMatchAnywhere(s, LitSpaces(t));
  }

  /** In `pre + t + gap + post`, `t\s+` can match only where `t` does, right after `pre`. */
  lemma LitSpacesOnlyAt(pre: String, t: String, gap: String, post: String)
    requires HeadOnlyFirst(t)
    requires NoOccurrenceBefore(pre + t, t, |pre|) && NoOccurrenceBefore(post, t, |post|)
    requires forall k :: 0 <= k < |gap| ==> IsSpace(gap[k])
    ensures var s := pre + t + gap + post;
      OccursAt(s, t, |pre|) &&
      forall k :: 0 <= k < |s| && k != |pre| ==> MatchAt(LitSpaces(t), s, k).None?
  {
    var x := pre + t + gap;
    var s := x + post;
    var i := |pre|;
    forall k | 0 <= k < |s| && k != i
      ensures MatchAt(LitSpaces(t), s, k).None?
    {
      if k < i {
        assert !OccursAt(pre + t, t, k);
        assert s[k..k + |t|] == (pre + t)[k..k + |t|];
      } else if k < |x| {
        assert s[k] == x[k];
      } else {
        OccursShift(x, post, t, k - |x|);
      }
    }
    assert s[i..i + |t|] == t;
  }

  /** The only match of `t\s+`, at `i`, takes `t` and every blank after it. */
  lemma LitSpacesHit(s: String, t: String, i: nat)
    requires OccursAt(s, t, i) && i + |t| < |s| && IsSpace(s[i + |t|])
    requires forall k :: 0 <= k < |s| && k != i ==> MatchAt(LitSpaces(t), s, k).None?
    ensures Sub(s, LitSpaces(t), Const(t)) == s[..i] + t + s[SkipSpace(s, i + |t|)..]
  {
    LitSpacesMatch(s, t, i);
    SubOnlyHit(s, LitSpaces(t), Const(t), i, Hit(SkipSpace(s, i + |t|), i, i));
  }

  /** Where `t` is followed by a blank, `t\s+` matches up to the next non-blank. */
  lemma LitSpacesMatch(s: String, t: String, i: nat)
    requires OccursAt(s, t, i) && i + |t| < |s| && IsSpace(s[i + |t|])
    ensures MatchAt(LitSpaces(t), s, i) == Some(Hit(SkipSpace(s, i + |t|), i, i))
  {
  }

  /** A pattern that matches at `i` and nowhere else is replaced there only. */
  lemma SubOnlyHit(s: String, p: Pat, r: Repl, i: nat, h: Hit)
    requires i <= |s| && MatchAt(p, s, i) == Some(h)
    requires forall k :: 0 <= k < |s| && k != i ==> MatchAt(p, s, k).None?
    ensures Sub(s, p, r) == s[..i] + Replacement(s, h, r) + s[h.end..]
  {
    SubAroundRepl(s, p, r, i, h);
  }

  /** With no match anywhere, substitution changes nothing. */
  lemma NoMatchAnywhere(s: String, p: Pat)
    requires forall k :: 0 <= k < |s| ==> MatchAt(p, s, k).None?
    ensures forall r :: Sub(s, p, r) == s
  {
    forall r ensures Sub(s, p, r) == s {
      SubNoMatch(s, p, r, 0);
      assert s[0..] == s;
    }
  }

  /** What follows `u` in `u + v + w`. */
  lemma TailOfConcat<T>(u: seq<T>, v: seq<T>, w: seq<T>)
    ensures (u + v + w)[|u|..] == v + w
  {
  }

  /** The group `o…c` at `i` closes at the first stop character, when that is `c`. */
  lemma GroupHit(s: String, i: nat, j: nat, o: char, c: char, stop: set<char>)
    requires i + 1 < j < |s| && s[i] == o && s[j] == c && c in stop
    requires forall k :: i < k < j ==> s[k] !in stop
    ensures MatchAt(Group(o, c, stop), s, i) == Some(Hit(j + 1, i + 1, j))
  {
    assert FirstIn(s, i + 1, stop) == Some(j);
  }

  /**
   * Rewriting the only group `o x c` of `pre + o + x + c + post`, where `x`
   * holds no stop character, wraps `x` and keeps the rest.
   */
  lemma SubOneGroup(pre: String, x: String, post: String, o: char, c: char, stop: set<char>,
                    before: String, after: String)
    requires o !in pre && o !in post && c in stop && x != []
    requires forall k :: 0 <= k < |x| ==> x[k] !in stop
    ensures Sub(pre + [o] + x + [c] + post, Group(o, c, stop), Wrap(before, after))
         == pre + before + x + after + post
  {
    var s := pre + [o] + x + [c] + post;
    var p := Group(o, c, stop);
    var r := Wrap(before, after);
    var i := |pre|;
    var j := i + 1 + |x|;
    forall k | 0 <= k < i
      ensures MatchAt(p, s, k).None?
    {
      assert s[k] == pre[k] && pre[k] in pre;
    }
    forall k | j + 1 <= k < |s|
      ensures MatchAt(p, s, k).None?
    {
      assert s[k] == post[k - j - 1] && post[k - j - 1] in post;
    }
    forall k | i < k < j
      ensures s[k] !in stop
    {
      assert s[k] == x[k - i - 1];
    }
    GroupHit(s, i, j, o, c, stop);
    SubAroundRepl(s, p, r, i, Hit(j + 1, i + 1, j));
    GroupPieces(pre, x, post, o, c, before, after);
  }

  /** Deleting the only group `o x c` of `pre + o + x + c + post` keeps `pre + post`. */
  lemma SubOneGroupDeleted(pre: String, x: String, post: String, o: char, c: char, stop: set<char>)
    requires o !in pre && o !in post && c in stop && x != []
    requires forall k :: 0 <= k < |x| ==> x[k] !in stop
    ensures Sub(pre + [o] + x + [c] + post, Group(o, c, stop), Delete) == pre + post
  {
    var s := pre + [o] + x + [c] + post;
    var p := Group(o, c, stop);
    var i := |pre|;
    var j := i + 1 + |x|;
    forall k | 0 <= k < i
      ensures MatchAt(p, s, k).None?
    {
      assert s[k] == pre[k] && pre[k] in pre;
    }
    forall k | j + 1 <= k < |s|
      ensures MatchAt(p, s, k).None?
    {
      assert s[k] == post[k - j - 1] && post[k - j - 1] in post;
    }
    forall k | i < k < j
      ensures s[k] !in stop
    {
      assert s[k] == x[k - i - 1];
    }
    GroupHit(s, i, j, o, c, stop);
    SubAround(s, p, i, j + 1);
    assert s[..i] == pre && s[j + 1..] == post;
  }

  /** Where no two spaces are adjacent, `re.sub(' +', ' ', s)` from `i` changes nothing. */
  lemma {:induction false} SingleSpacesKept(s: String, i: nat)
    requires i <= |s|
    requires forall k :: 0 <= k < |s| - 1 ==> s[k] != ' ' || s[k + 1] != ' '
    ensures SubFrom(s, Run(' '), Const(" "), i) == s[i..]
    decreases |s| - i
  {
    if i < |s| {
      SingleSpacesKept(s, i + 1);
      if s[i] == ' ' {
        assert SkipChar(s, i, ' ') == i + 1 by {
          assert i + 1 == |s| || s[i + 1] != ' ';
        }
        assert SubFrom(s, Run(' '), Const(" "), i) == " " + s[i + 1..];
      }
      assert s[i..] == [s[i]] + s[i + 1..];
    }
  }

  /** The pieces of `pre + [o] + x + [c] + post` around the group, with the group wrapped. */
  lemma GroupPieces(pre: String, x: String, post: String, o: char, c: char, before: String, after: String)
    ensures var s := pre + [o] + x + [c] + post;
      var i := |pre|;
      var j := i + 1 + |x|;
      s[..i] + (before + s[i + 1..j] + after) + s[j + 1..] == pre + before + x + after + post
  {
    var s := pre + [o] + x + [c] + post;
    var i := |pre|;
    var j := i + 1 + |x|;
    assert s[..i] == pre && s[i + 1..j] == x && s[j + 1..] == post;
  }
}
