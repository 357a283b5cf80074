// The shape of a role-play reply as a pattern string: its thinking and
// action blocks in order of appearance, with a speech token wherever
// non-blank text comes before a block or after the last one.

module PatternDiversity {
  import opened Basics
  import opened Text
  import opened Patterns

  /** `<role_thinking>.*?</role_thinking>` across lines. */
  const ThinkBlock: Pat := Block(Lit("<role_thinking>"), Lit("</role_thinking>"), false, false, true)

  /** `<role_action>.*?</role_action>` across lines. */
  const ActBlock: Pat := Block(Lit("<role_action>"), Lit("</role_action>"), false, false, true)

  datatype Kind = Think | Act

  /** A matched block: its kind and its span `start..end`. */
  datatype Segment = Segment(kind: Kind, start: nat, end: nat)

  /** Strictly increasing starts. */
  predicate SortedByStart(segs: seq<Segment>) {
    forall i, j :: 0 <= i < j < |segs| ==> segs[i].start < segs[j].start
  }

  /** Every span lies inside the text. */
  predicate InText(segs: seq<Segment>, s: String) {
    forall j :: 0 <= j < |segs| ==> segs[j].start < segs[j].end <= |s|
  }

  // ---------------------------------------------------------- finditer

  /** `re.finditer(p, s)` from `i`: left to right, each search resuming where the last match ended. */
  function Matches(s: String, p: Pat, k: Kind, i: nat): (r: seq<Segment>)
    requires i <= |s|
    ensures InText(r, s) && SortedByStart(r)
    ensures forall j :: 0 <= j < |r| ==> i <= r[j].start && r[j].kind == k
    ensures forall j :: 0 <= j < |r| ==> MatchAt(p, s, r[j].start).Some? && r[j].end == MatchAt(p, s, r[j].start).value.end
    decreases |s| - i
  {
    if i == |s| then []
    else
      match MatchAt(p, s, i)
      case Some(h) => [Segment(k, i, h.end)] + Matches(s, p, k, h.end)
      case None => Matches(s, p, k, i + 1)
  }

  /** A think block and an action block never start at the same index: their tags differ in the seventh character. */
  lemma StartsDiffer(s: String, i: nat)
    requires i <= |s|
    ensures !(MatchAt(ThinkBlock, s, i).Some? && MatchAt(ActBlock, s, i).Some?)
  {
    if MatchAt(ThinkBlock, s, i).Some? {
      assert OccursAt(s, "<role_thinking>", i);
      assert s[i + 6] == 't' by {
        assert s[i..i + 15][6] == s[i + 6];
      }
      assert !OccursAt(s, "<role_action>", i) by {
        if i + 13 <= |s| {
          assert s[i..i + 13][6] == s[i + 6];
        }
      }
    }
  }

  // ------------------------------------------------------------- sorting

  /** The two start-ordered match lists merged by start; on a tie the think block would come first. */
  function Merge(a: seq<Segment>, b: seq<Segment>): (r: seq<Segment>)
    ensures multiset(r) == multiset(a) + multiset(b)
    ensures |r| == |a| + |b|
    decreases |a| + |b|
  {
    if a == [] then
      assert a + b == b;
      b
    else if b == [] then a
    else if a[0].start <= b[0].start then
      assert a == [a[0]] + a[1..];
      [a[0]] + Merge(a[1..], b)
    else
      assert b == [b[0]] + b[1..];
      [b[0]] + Merge(a, b[1..])
  }

  /** Merging two sorted lists whose starts differ pairwise gives a sorted list. */
  lemma {:induction false} MergeSorted(a: seq<Segment>, b: seq<Segment>)
    requires SortedByStart(a) && SortedByStart(b)
    requires forall i, j :: 0 <= i < |a| && 0 <= j < |b| ==> a[i].start != b[j].start
    ensures SortedByStart(Merge(a, b))
    decreases |a| + |b|
  {
    if a != [] && b != [] {
      if a[0].start <= b[0].start {
        MergeSorted(a[1..], b);
        MergeHead(a[1..], b, a[0].start);
      } else {
        MergeSorted(a, b[1..]);
        MergeHead(a, b[1..], b[0].start);
      }
    }
  }

  /** Every element of a merge starts after `x` when every element of both lists does. */
  lemma MergeHead(a: seq<Segment>, b: seq<Segment>, x: nat)
    requires forall i :: 0 <= i < |a| ==> x < a[i].start
    requires forall j :: 0 <= j < |b| ==> x < b[j].start
    ensures forall k :: 0 <= k < |Merge(a, b)| ==> x < Merge(a, b)[k].start
  {
    var m := Merge(a, b);
    forall k | 0 <= k < |m|
      ensures x < m[k].start
    {
      assert m[k] in multiset(a) + multiset(b);
    }
  }

  /** Two sorted arrangements of the same segments are the same list. */
  lemma {:induction false} SortedUnique(a: seq<Segment>, b: seq<Segment>)
    requires SortedByStart(a) && SortedByStart(b) && multiset(a) == multiset(b)
    ensures a == b
    decreases |a|
  {
    if a != [] {
      assert b != [] by {
        assert a[0] in multiset(b);
      }
      SameHead(a, b);
      DropHead(a);
      DropHead(b);
      SortedUnique(a[1..], b[1..]);
      assert a == [a[0]] + a[1..];
      assert b == [b[0]] + b[1..];
    }
  }

  /** Two sorted arrangements of the same segments start with the same one. */
  lemma SameHead(a: seq<Segment>, b: seq<Segment>)
    requires SortedByStart(a) && SortedByStart(b) && multiset(a) == multiset(b)
    requires a != [] && b != []
    ensures a[0] == b[0]
  {
    assert a[0] in multiset(b) && b[0] in multiset(a);
    var j :| 0 <= j < |b| && b[j] == a[0];
    var k :| 0 <= k < |a| && a[k] == b[0];
    assert b[0].start <= b[j].start == a[0].start <= a[k].start == b[0].start;
  }

  /** What is left of a sorted list after its first segment: the others, still sorted. */
  lemma DropHead(x: seq<Segment>)
    requires x != [] && SortedByStart(x)
    ensures multiset(x[1..]) == multiset(x) - multiset{x[0]}
    ensures SortedByStart(x[1..])
  {
    assert x == [x[0]] + x[1..];
  }

  /** All thinking and action blocks of the text, in order of their start. */
  function Segments(s: String): (r: seq<Segment>)
    ensures SortedByStart(r) && InText(r, s)
    ensures multiset(r) == multiset(Matches(s, ThinkBlock, Think, 0) + Matches(s, ActBlock, Act, 0))
  {
    var thinks := Matches(s, ThinkBlock, Think, 0);
    var acts := Matches(s, ActBlock, Act, 0);
    forall i, j | 0 <= i < |thinks| && 0 <= j < |acts|
      ensures thinks[i].start != acts[j].start
    {
      StartsDiffer(s, thinks[i].start);
    }
    MergeSorted(thinks, acts);
    var m := Merge(thinks, acts);
    forall k | 0 <= k < |m|
      ensures m[k].start < m[k].end <= |s|
    {
      assert m[k] in multiset(thinks) + multiset(acts);
    }
    m
  }

  // ------------------------------------------------------------ pattern

  datatype Token = Speech | Tag(kind: Kind)

  function TokenName(t: Token): String {
    match t
    case Speech => "speech"
    case Tag(Think) => "think"
    case Tag(Act) => "act"
  }

  /** `content[from:to]`, empty when `from` is past `to`. */
  function Between(s: String, from: nat, to: nat): String
    requires from <= |s| && to <= |s|
  {
    if from <= to then s[from..to] else []
  }

  /** The text before a block counts as speech when, stripped and cleared of whole blocks, something is left. */
  predicate SpeechBetween(s: String, from: nat, to: nat)
    requires from <= |s| && to <= |s|
  {
    Sub(Sub(Strip(Between(s, from, to)), ThinkBlock, Delete), ActBlock, Delete) != []
  }

  /** Where the loop's cursor stands after the blocks `segs`: the end of the last one, or 0. */
  function LastEnd(segs: seq<Segment>): nat {
    if segs == [] then 0 else segs[|segs| - 1].end
  }

  /** The tokens the loop emits for the blocks `segs`, `speech[i]` saying whether speech precedes block `i`. */
  function Emit(segs: seq<Segment>, speech: seq<bool>): seq<Token>
    requires |speech| == |segs|
  {
    if segs == [] then []
    else
      var n := |segs| - 1;
      Emit(segs[..n], speech[..n]) + (if speech[n] then [Speech] else []) + [Tag(segs[n].kind)]
  }

  /** Emitting one more block. */
  lemma EmitStep(segs: seq<Segment>, speech: seq<bool>, i: nat)
    requires |speech| == |segs| && i < |segs|
    ensures Emit(segs[..i + 1], speech[..i + 1]) ==
      Emit(segs[..i], speech[..i]) + (if speech[i] then [Speech] else []) + [Tag(segs[i].kind)]
  {
    assert segs[..i + 1][..i] == segs[..i];
    assert speech[..i + 1][..i] == speech[..i];
  }

  /** For each block, whether the text between the end of the block before it (or the start) and its own start is speech. */
  function Gaps(s: String, segs: seq<Segment>): (r: seq<bool>)
    requires InText(segs, s)
    ensures |r| == |segs|
  {
    seq(|segs|, i requires 0 <= i < |segs| && InText(segs, s) => SpeechBetween(s, LastEnd(segs[..i]), segs[i].start))
  }

  /** The speech flag of block `i`, from the text the loop computes for it. */
  lemma GapAt(s: String, segs: seq<Segment>, i: nat, text: String)
    requires InText(segs, s) && i < |segs|
    requires text == Sub(Sub(Strip(Between(s, LastEnd(segs[..i]), segs[i].start)), ThinkBlock, Delete), ActBlock, Delete)
    ensures Gaps(s, segs)[i] == (text != [])
  {
  }

  /** The tokens of a text: the loop, then one speech token for non-blank text after the last block. */
  function Tokens(s: String): seq<Token> {
    var segs := Segments(s);
    Emit(segs, Gaps(s, segs)) + (if Strip(s[LastEnd(segs)..]) != [] then [Speech] else [])
  }

  /** The tokens of a text from what the loop ends with, `after` saying whether text follows the last block. */
  lemma TokensOf(s: String, tokens: seq<Token>, after: bool)
    requires tokens == Emit(Segments(s), Gaps(s, Segments(s)))
    requires after == (Strip(s[LastEnd(Segments(s))..]) != [])
    ensures Tokens(s) == tokens + (if after then [Speech] else [])
  {
  }

  function Names(tokens: seq<Token>): (r: seq<String>)
    ensures |r| == |tokens|
    ensures forall k :: 0 <= k < |tokens| ==> r[k] == TokenName(tokens[k])
  {
    seq(|tokens|, k requires 0 <= k < |tokens| => TokenName(tokens[k]))
  }

  const Arrow: char := '→'

  /** extract_pattern: "empty" for empty content or no tokens, else the token names joined by an arrow. */
  function Pattern(s: String): (r: String)
    ensures s == [] ==> r == "empty"
  {
    if s == [] then "empty"
    else
      var tokens := Tokens(s);
      if tokens == [] then "empty" else Join(Names(tokens), [Arrow])
  }

  /** The cursor loop of extract_pattern over the sorted blocks. */
  method WalkBlocks(content: String, segments: seq<Segment>) returns (pattern: seq<Token>, lastEnd: nat)
    requires InText(segments, content)
    ensures pattern == Emit(segments, Gaps(content, segments)) && lastEnd == LastEnd(segments)
  {
    pattern := [];
    lastEnd := 0;
    ghost var gaps := Gaps(content, segments);
    for i := 0 to |segments|
      invariant pattern == Emit(segments[..i], gaps[..i]) && lastEnd == LastEnd(segments[..i])
    {
      var seg: Segment := segments[i];
      var textBefore := Strip(Between(content, lastEnd, seg.start));
      textBefore := Sub(textBefore, ThinkBlock, Delete);
      textBefore := Sub(textBefore, ActBlock, Delete);
      GapAt(content, segments, i, textBefore);
      EmitStep(segments, gaps, i);
      if textBefore != [] {
        pattern := pattern + [Speech];
      }
      pattern := pattern + [Tag(seg.kind)];
      lastEnd := seg.end;
    }
    assert segments[..|segments|] == segments && gaps[..|segments|] == gaps;
  }

  /** extract_pattern with its sort and its cursor loop. */
  method ExtractPattern(content: String) returns (r: String)
    ensures r == Pattern(content)
  {
    if content == [] {
      return "empty";
    }
    var found := Matches(content, ThinkBlock, Think, 0) + Matches(content, ActBlock, Act, 0);
    // segments.sort(key=start): the blocks' starts are distinct, so this order is the only sorted one
    ghost var merged := Segments(content);
    var segments: seq<Segment> :| SortedByStart(segments) && multiset(segments) == multiset(found);
    SortedUnique(segments, merged);
    var pattern, lastEnd := WalkBlocks(content, segments);
    var textAfter := Strip(content[lastEnd..]);
    if textAfter != [] {
      pattern := pattern + [Speech];
    }
    assert segments == Segments(content);
    TokensOf(content, Emit(segments, Gaps(content, segments)), textAfter != []);
    assert pattern == Tokens(content);
    if pattern == [] {
      r := "empty";
    } else {
      r := Join(Names(pattern), [Arrow]);
    }
  }

  // ---------------------------------------------------------- properties

  /** The tag tokens in order. */
  function Tags(tokens: seq<Token>): seq<Kind> {
    if tokens == [] then []
    else Tags(tokens[..|tokens| - 1]) + (if tokens[|tokens| - 1].Tag? then [tokens[|tokens| - 1].kind] else [])
  }

  function Kinds(segs: seq<Segment>): (r: seq<Kind>)
    ensures |r| == |segs|
    ensures forall k :: 0 <= k < |segs| ==> r[k] == segs[k].kind
  {
    seq(|segs|, k requires 0 <= k < |segs| => segs[k].kind)
  }

  /** Tags with one more token. */
  lemma TagsSnoc(tokens: seq<Token>, t: Token)
    ensures Tags(tokens + [t]) == Tags(tokens) + (if t.Tag? then [t.kind] else [])
  {
    assert (tokens + [t])[..|tokens|] == tokens;
  }

  /** Every speech token is followed by a tag token. */
  predicate SpeechBeforeTag(tokens: seq<Token>) {
    forall k :: 0 <= k < |tokens| && tokens[k] == Speech ==> k + 1 < |tokens| && tokens[k + 1].Tag?
  }

  /** The loop emits one tag token per block, in the blocks' order. */
  lemma {:induction false} EmitTags(segs: seq<Segment>, speech: seq<bool>)
    requires |speech| == |segs|
    ensures Tags(Emit(segs, speech)) == Kinds(segs)
  {
    if segs != [] {
      var n := |segs| - 1;
      EmitTags(segs[..n], speech[..n]);
      var t := Emit(segs[..n], speech[..n]);
      var sp: seq<Token> := if speech[n] then [Speech] else [];
      TagsSnoc(t + sp, Tag(segs[n].kind));
      if speech[n] {
        TagsSnoc(t, Speech);
      } else {
        assert t + sp == t;
      }
      assert Kinds(segs) == Kinds(segs[..n]) + [segs[n].kind];
    }
  }

  /** The loop emits a speech token only right before a tag token, and its last token is a tag. */
  lemma {:induction false} EmitSpeech(segs: seq<Segment>, speech: seq<bool>)
    requires |speech| == |segs|
    ensures SpeechBeforeTag(Emit(segs, speech))
    ensures segs != [] ==> Emit(segs, speech) != [] && Emit(segs, speech)[|Emit(segs, speech)| - 1].Tag?
  {
    if segs != [] {
      var n := |segs| - 1;
      EmitSpeech(segs[..n], speech[..n]);
      var t := Emit(segs[..n], speech[..n]);
      var u := t + (if speech[n] then [Speech] else []) + [Tag(segs[n].kind)];
      assert Emit(segs, speech) == u;
      forall k | 0 <= k < |u| && u[k] == Speech
        ensures k + 1 < |u| && u[k + 1].Tag?
      {
        if k < |t| {
          assert u[k] == t[k];
          if k + 1 < |t| {
            assert u[k + 1] == t[k + 1];
          }
        }
      }
    }
  }

  /**
   * The think and act tokens of a pattern are the text's blocks in order of
   * their start, and a speech token stands only before a block or at the
   * very end, so two speech tokens are never adjacent.
   */
  lemma TokensShape(s: String)
    ensures Tags(Tokens(s)) == Kinds(Segments(s))
    ensures forall k :: 0 <= k < |Tokens(s)| - 1 && Tokens(s)[k] == Speech ==> Tokens(s)[k + 1].Tag?
    ensures |Tokens(s)| <= 2 * |Segments(s)| + 1
  {
    var segs := Segments(s);
    var t := Emit(segs, Gaps(s, segs));
    EmitTags(segs, Gaps(s, segs));
    EmitSpeech(segs, Gaps(s, segs));
    EmitCount(segs, Gaps(s, segs));
    var after := Strip(s[LastEnd(segs)..]) != [];
    TokensOf(s, t, after);
    if after {
      TagsSnoc(t, Speech);
    } else {
      assert Tokens(s) == t;
    }
  }

  /** The loop emits at most two tokens per block. */
  lemma {:induction false} EmitCount(segs: seq<Segment>, speech: seq<bool>)
    requires |speech| == |segs|
    ensures |Emit(segs, speech)| <= 2 * |segs|
  {
    if segs != [] {
      EmitCount(segs[..|segs| - 1], speech[..|segs| - 1]);
    }
  }

  /** Text with no thinking or action block is "speech" when it has non-blank text and "empty" otherwise. */
  lemma TagFree(s: String)
    requires s != [] && Segments(s) == []
    ensures Strip(s) != [] ==> Pattern(s) == "speech"
    ensures Strip(s) == [] ==> Pattern(s) == "empty"
  {
    assert s[0..] == s;
    assert Names([Speech]) == ["speech"];
  }

  /** The token names never hold the arrow, so splitting a pattern at its arrows gives the tokens back. */
  lemma PatternSplits(s: String)
    requires s != [] && Tokens(s) != []
    ensures Split(Pattern(s), Arrow) == Names(Tokens(s))
  {
    var names := Names(Tokens(s));
    forall k | 0 <= k < |names|
      ensures Arrow !in names[k]
    {
      NameNoArrow(Tokens(s)[k]);
    }
    assert Pattern(s) == Join(names, [Arrow]);
    SplitJoin(names, Arrow);
  }

  lemma NameNoArrow(t: Token)
    ensures Arrow !in TokenName(t)
  {
  }
}
