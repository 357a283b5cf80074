// The step-1 conversion of raw CoSER dialogues into per-character ShareGPT
// training samples: runs of one speaker merged, `[thought]`/`(action)`
// rewritten as HER tags, thoughts hidden from the other characters, the
// character records and system prompts, and the per-character message lists.

module SftFormat {
  import opened Basics
  import opened Text
  import opened Patterns

  // ------------------------------------------------------- markup passes

  /** `\[([^\]]+)\]`: a bracketed inner thought. */
  const ThoughtPat: Pat := Group('[', ']', {']'})
  /** `\(([^()]+)\)`: a parenthesised action without nested parentheses. */
  const ActionPat: Pat := Group('(', ')', {'(', ')'})

  const ThinkingOpen: String := "<role_thinking>"
  const ThinkingClose: String := "</role_thinking>"
  const ActionOpen: String := "<role_action>"
  const ActionClose: String := "</role_action>"

  /** convert_to_standard_format: thoughts and actions as HER tags, no whitespace after a closing tag. */
  function ConvertToStandardFormat(message: String): String {
    var a := Sub(message, ThoughtPat, Wrap(ThinkingOpen, ThinkingClose));
    var b := Sub(a, ActionPat, Wrap(ActionOpen, ActionClose));
    var c := Sub(b, LitSpaces(ThinkingClose), Const(ThinkingClose));
    Sub(c, LitSpaces(ActionClose), Const(ActionClose))
  }

  /** `re.sub(r'\[[^\]]+\]', '', s)`: every bracketed thought deleted. */
  function DropThoughts(s: String): String {
    Sub(s, ThoughtPat, Delete)
  }

  /** Runs of spaces collapsed, blank-line gaps collapsed, the text stripped. */
  function CollapseSpacing(s: String): String {
    Strip(Sub(Sub(s, Run(' '), Const(" ")), NewlineGap, Const("\n\n")))
  }

  /** remove_thoughts_and_convert_actions: what the other characters see of a turn. */
  function RemoveThoughtsAndConvertActions(message: String): String {
    CollapseSpacing(Sub(DropThoughts(message), ActionPat, Wrap(ActionOpen, ActionClose)))
  }

  /**
   * Every `[` is either closed at once (`[]`, which the pattern does not
   * match) or has no `]` anywhere after it.
   */
  predicate NoThought(s: String) {
    forall p :: 0 <= p < |s| && s[p] == '[' ==>
      (p + 1 < |s| && s[p + 1] == ']') || ']' !in s[p + 1..]
  }

  lemma NoThoughtNoMatch(s: String)
    requires NoThought(s)
    ensures !HasMatch(s, ThoughtPat)
  {
    forall p | 0 <= p <= |s| ensures MatchAt(ThoughtPat, s, p).None? {
      if p < |s| && s[p] == '[' {
        match FirstIn(s, p + 1, {']'})
        case None =>
        case Some(j) =>
      }
    }
  }

  /** The suffix scan of `DropThoughts` from `i` leaves no thought and invents no `]`. */
  lemma {:induction false} DropThoughtsFrom(s: String, i: nat)
    requires i <= |s|
    ensures NoThought(SubFrom(s, ThoughtPat, Delete, i))
    ensures ']' !in s[i..] ==> ']' !in SubFrom(s, ThoughtPat, Delete, i)
    ensures i < |s| && s[i] == ']' ==>
      (var o := SubFrom(s, ThoughtPat, Delete, i); |o| > 0 && o[0] == ']')
    decreases |s| - i
  {
    if i < |s| {
      match MatchAt(ThoughtPat, s, i)
      case Some(h) =>
        DropThoughtsFrom(s, h.end);
        assert s[h.end..] == s[i..][h.end - i..];
      case None =>
        var rest := SubFrom(s, ThoughtPat, Delete, i + 1);
        var o := [s[i]] + rest;
        assert SubFrom(s, ThoughtPat, Delete, i) == o;
        DropThoughtsFrom(s, i + 1);
        assert s[i..] == [s[i]] + s[i + 1..];
        if s[i] == '[' {
          match FirstIn(s, i + 1, {']'})
          case None =>
            assert ']' !in s[i + 1..];
          case Some(j) =>
            assert j == i + 1;
        }
        forall p | 0 <= p < |o| && o[p] == '['
          ensures (p + 1 < |o| && o[p + 1] == ']') || ']' !in o[p + 1..]
        {
          if p > 0 {
            assert o[p] == rest[p - 1];
            assert o[p + 1..] == rest[p..];
          } else {
            assert o[1..] == rest;
          }
        }
    }
  }

  /** No bracketed thought survives `DropThoughts`, even one uncovered by a deletion. */
  lemma DropThoughtsComplete(s: String)
    ensures !HasMatch(DropThoughts(s), ThoughtPat)
  {
    DropThoughtsFrom(s, 0);
    NoThoughtNoMatch(DropThoughts(s));
  }

  /** A `Sub` whose every match starts with a character absent from the text changes nothing. */
  lemma SubAbsentLead(s: String, p: Pat, r: Repl, c: char)
    requires c !in s
    requires forall k :: 0 <= k < |s| && s[k] != c ==> MatchAt(p, s, k).None?
    ensures Sub(s, p, r) == s
  {
    SubNoMatch(s, p, r, 0);
  }

  /** `t\s+` can only match where `t` begins. */
  lemma LitSpacesLead(s: String, t: String, k: nat)
    requires t != [] && k < |s| && s[k] != t[0]
    ensures MatchAt(LitSpaces(t), s, k).None?
  {
  }

  /** Speech with no `[`, `(` or `<` is already in the standard format. */
  lemma PlainSpeechUnchanged(s: String)
    requires '[' !in s && '(' !in s && '<' !in s
    ensures ConvertToStandardFormat(s) == s
  {
    SubAbsentLead(s, ThoughtPat, Wrap(ThinkingOpen, ThinkingClose), '[');
    SubAbsentLead(s, ActionPat, Wrap(ActionOpen, ActionClose), '(');
    forall k | 0 <= k < |s| && s[k] != '<' ensures MatchAt(LitSpaces(ThinkingClose), s, k).None? {
      LitSpacesLead(s, ThinkingClose, k);
    }
    SubAbsentLead(s, LitSpaces(ThinkingClose), Const(ThinkingClose), '<');
    forall k | 0 <= k < |s| && s[k] != '<' ensures MatchAt(LitSpaces(ActionClose), s, k).None? {
      LitSpacesLead(s, ActionClose, k);
    }
    SubAbsentLead(s, LitSpaces(ActionClose), Const(ActionClose), '<');
  }

  /**
   * A turn made of one thought, blanks, one action and the rest of the speech comes out
   * as a thinking tag and an action tag with nothing between them, and the speech after
   * the action stripped on the left.
   */
  lemma ConvertThoughtAction(x: String, gap: String, y: String, post: String)
    requires x != [] && '[' !in x && ']' !in x && '(' !in x && '<' !in x
    requires y != [] && '[' !in y && '(' !in y && ')' !in y && '<' !in y
    requires forall k :: 0 <= k < |gap| ==> IsSpace(gap[k])
    requires '[' !in post && '(' !in post && '<' !in post
    ensures ConvertToStandardFormat("[" + x + "]" + gap + "(" + y + ")" + post)
         == ThinkingOpen + x + ThinkingClose + ActionOpen + y + ActionClose + LStrip(post)
  {
    assert '[' !in gap && '(' !in gap by {
      forall k | 0 <= k < |gap| ensures gap[k] != '[' && gap[k] != '(' {
        assert IsSpace(gap[k]);
      }
    }
    ThoughtStep(x, gap, y, post);
    ThinkingTagsHoldNoParen();
    assert '(' !in ThinkingOpen + x + ThinkingClose + gap;
    ActionStep(ThinkingOpen + x + ThinkingClose + gap, y, post);
    ThinkingBlanksDropped(x, gap, y, post);
    ActionBlanksDropped(x, y, post);
  }

  /** The thought pass on a turn that opens with one bracketed thought. */
  lemma ThoughtStep(x: String, gap: String, y: String, post: String)
    requires x != [] && ']' !in x && '[' !in gap && '[' !in y && '[' !in post
    ensures Sub("[" + x + "]" + gap + "(" + y + ")" + post, ThoughtPat, Wrap(ThinkingOpen, ThinkingClose))
         == ThinkingOpen + x + ThinkingClose + gap + "(" + y + ")" + post
  {
    var rest := gap + "(" + y + ")" + post;
    SubOneGroup([], x, rest, '[', ']', {']'}, ThinkingOpen, ThinkingClose);
    AppendEmpty(ThinkingOpen);
    AppendEmpty(['['] + x);
    assert [] + ['['] == "[";
    AppendAssoc5("[" + x + "]", gap, "(", y, ")", post);
    AppendAssoc5(ThinkingOpen + x + ThinkingClose, gap, "(", y, ")", post);
  }

  /** The action pass on a turn holding one parenthesised action. */
  lemma ActionStep(pre: String, y: String, post: String)
    requires '(' !in pre && '(' !in post && y != [] && '(' !in y && ')' !in y
    ensures Sub(pre + "(" + y + ")" + post, ActionPat, Wrap(ActionOpen, ActionClose))
         == pre + ActionOpen + y + ActionClose + post
  {
    SubOneGroup(pre, y, post, '(', ')', {'(', ')'}, ActionOpen, ActionClose);
  }

  /** `</role_thinking>\s+` → `</role_thinking>` drops the blanks before the action tag. */
  lemma ThinkingBlanksDropped(x: String, gap: String, y: String, post: String)
    requires '<' !in x && '<' !in y && '<' !in post
    requires forall k :: 0 <= k < |gap| ==> IsSpace(gap[k])
    ensures Sub(ThinkingOpen + x + ThinkingClose + gap + ActionOpen + y + ActionClose + post,
                LitSpaces(ThinkingClose), Const(ThinkingClose))
         == ThinkingOpen + x + ThinkingClose + ActionOpen + y + ActionClose + post
  {
    var tail := ActionOpen + y + ActionClose + post;
    ThinkingCloseAbsent(y, post);
    NoOccurrenceAfterTag(ThinkingOpen, x, ThinkingClose, ThinkingClose, 1);
    CloseTagsHeadOnlyFirst();
    SubOneLitSpaces(ThinkingOpen + x, ThinkingClose, gap, tail);
    LStripBlankThen(gap, tail);
    AppendAssoc4(ThinkingOpen + x + ThinkingClose + gap, ActionOpen, y, ActionClose, post);
    AppendAssoc4(ThinkingOpen + x + ThinkingClose, ActionOpen, y, ActionClose, post);
  }

  /** `</role_thinking>` does not occur in an action tag and the speech after it. */
  lemma ThinkingCloseAbsent(y: String, post: String)
    requires '<' !in y && '<' !in post
    ensures var tail := ActionOpen + y + ActionClose + post;
      NoOccurrenceBefore(tail, ThinkingClose, |tail|)
  {
    NoOccurrenceAfterTag(ActionOpen, y, ActionClose + post, ThinkingClose, 1);
    NoOccurrenceAfterTag(ActionClose, post, [], ThinkingClose, 7);
    AppendEmpty(ActionClose + post);
    NoOccurrenceJoin(ActionOpen + y, ActionClose + post, ThinkingClose, |ActionClose + post|);
    assert ActionOpen + y + (ActionClose + post) == ActionOpen + y + ActionClose + post;
  }

  /** Neither thinking tag holds a `(`. */
  lemma ThinkingTagsHoldNoParen()
    ensures '(' !in ThinkingOpen && '(' !in ThinkingClose
  {
  }

  /** Each closing tag opens with `<` and holds no other `<`. */
  lemma CloseTagsHeadOnlyFirst()
    ensures HeadOnlyFirst(ThinkingClose) && HeadOnlyFirst(ActionClose)
  {
  }

  /** `</role_action>\s+` → `</role_action>` strips the speech that follows the action. */
  lemma ActionBlanksDropped(x: String, y: String, post: String)
    requires '<' !in x && '<' !in y && '<' !in post
    ensures Sub(ThinkingOpen + x + ThinkingClose + ActionOpen + y + ActionClose + post,
                LitSpaces(ActionClose), Const(ActionClose))
         == ThinkingOpen + x + ThinkingClose + ActionOpen + y + ActionClose + LStrip(post)
  {
    var pre := ThinkingOpen + x + ThinkingClose + ActionOpen + y;
    CloseTagsHeadOnlyFirst();
    ActionCloseFirstAfter(x, y);
    NoOccurrenceWithoutHead(post, [], ActionClose);
    assert post + [] == post;
    SubOneLitSpacesAdjacent(pre, ActionClose, post);
  }

  /** `</role_action>` first occurs right after the action's text. */
  lemma ActionCloseFirstAfter(x: String, y: String)
    requires '<' !in x && '<' !in y
    ensures var pre := ThinkingOpen + x + ThinkingClose + ActionOpen + y;
      NoOccurrenceBefore(pre + ActionClose, ActionClose, |pre|)
  {
    var c := ThinkingClose + ActionOpen + y + ActionClose;
    ActionCloseAfterThinking(y);
    NoOccurrenceAfterTag(ThinkingOpen, x, c, ActionClose, 1);
    NoOccurrenceJoin(ThinkingOpen + x, c, ActionClose, |ThinkingClose| + |ActionOpen| + |y|);
    assert ThinkingOpen + x + c == ThinkingOpen + x + ThinkingClose + ActionOpen + y + ActionClose;
  }

  /** Within `</role_thinking><role_action>y</role_action>`, the action's close tag is the first. */
  lemma ActionCloseAfterThinking(y: String)
    requires '<' !in y
    ensures NoOccurrenceBefore(ThinkingClose + ActionOpen + y + ActionClose, ActionClose,
                               |ThinkingClose| + |ActionOpen| + |y|)
  {
    var c := ActionOpen + y + ActionClose;
    NoOccurrenceAfterTag(ActionOpen, y, ActionClose, ActionClose, 1);
    NoOccurrenceAfterTag(ThinkingClose, [], c, ActionClose, 7);
    assert ThinkingClose + [] + c == ThinkingClose + c;
    NoOccurrenceJoin(ThinkingClose, c, ActionClose, |ActionOpen| + |y|);
    assert ThinkingClose + c == ThinkingClose + ActionOpen + y + ActionClose;
  }

  /** One-line text without doubled spaces is only stripped by the spacing cleanup. */
  lemma CollapseSpacingPlain(s: String)
    requires '\n' !in s
    requires forall k :: 0 <= k < |s| - 1 ==> s[k] != ' ' || s[k + 1] != ' '
    ensures CollapseSpacing(s) == Strip(s)
  {
    SingleSpacesKept(s, 0);
    assert s[0..] == s;
    SubAbsentLead(s, NewlineGap, Const("\n\n"), '\n');
  }

  /**
   * What the other characters see of a turn that opens with a thought and an action:
   * the thought is gone, the action is tagged, and only the spacing of the rest is tidied.
   */
  lemma HideThoughtShowAction(x: String, y: String, post: String)
    requires x != [] && ']' !in x
    requires y != [] && '(' !in y && ')' !in y
    requires '[' !in y && '[' !in post && '(' !in post
    ensures RemoveThoughtsAndConvertActions("[" + x + "]" + "(" + y + ")" + post)
         == CollapseSpacing(ActionOpen + y + ActionClose + post)
  {
    AppendAssoc4("[" + x + "]", "(", y, ")", post);
    LeadingThoughtDropped(x, "(" + y + ")" + post);
    LeadingActionTagged(y, post);
  }

  /** `DropThoughts` removes a thought that opens the turn. */
  lemma LeadingThoughtDropped(x: String, rest: String)
    requires x != [] && ']' !in x && '[' !in rest
    ensures DropThoughts("[" + x + "]" + rest) == rest
  {
    SubOneGroupDeleted([], x, rest, '[', ']', {']'});
    AppendEmpty(rest);
    assert [] + ['['] + x + [']'] == "[" + x + "]";
  }

  /** The action pass tags an action that opens the text. */
  lemma LeadingActionTagged(y: String, post: String)
    requires y != [] && '(' !in y && ')' !in y && '(' !in post
    ensures Sub("(" + y + ")" + post, ActionPat, Wrap(ActionOpen, ActionClose))
         == ActionOpen + y + ActionClose + post
  {
    ActionStep([], y, post);
    AppendEmpty("(");
    AppendEmpty(ActionOpen);
  }

  // ------------------------------------------------------ merging turns

  /** One raw dialogue entry: who speaks and what. */
  datatype Dialogue = Dialogue(character: String, message: String)

  /** A maximal run of consecutive turns by one character, with their original indices. */
  datatype SpeakerRun = SpeakerRun(character: String, messages: seq<String>, ids: seq<nat>)

  /** The runs of `ds`, built turn by turn as enrich_dialogues does. */
  function MergeRuns(ds: seq<Dialogue>): (r: seq<SpeakerRun>)
    ensures |r| <= |ds|
    ensures |r| == 0 <==> |ds| == 0
  {
    if ds == [] then []
    else
      var n := |ds| - 1;
      var prev := MergeRuns(ds[..n]);
      var d := ds[n];
      if prev != [] && prev[|prev| - 1].character == d.character then
        var last := prev[|prev| - 1];
        prev[..|prev| - 1] + [SpeakerRun(last.character, last.messages + [d.message], last.ids + [n])]
      else prev + [SpeakerRun(d.character, [d.message], [n])]
  }

  /** The origin indices of all runs, in order. */
  function FlatIds(rs: seq<SpeakerRun>): seq<nat> {
    if rs == [] then [] else FlatIds(rs[..|rs| - 1]) + rs[|rs| - 1].ids
  }

  function Indices(n: nat): (r: seq<nat>)
    ensures |r| == n && forall i :: 0 <= i < n ==> r[i] == i
  {
    seq(n, i requires 0 <= i < n => i)
  }

  lemma FlatIdsSnoc(rs: seq<SpeakerRun>, x: SpeakerRun)
    ensures FlatIds(rs + [x]) == FlatIds(rs) + x.ids
  {
    assert (rs + [x])[..|rs|] == rs;
  }

  /** Every run is non-empty, and neighbouring runs have different speakers. */
  lemma {:induction false} MergeRunsShape(ds: seq<Dialogue>)
    ensures forall k :: 0 <= k < |MergeRuns(ds)| ==>
      |MergeRuns(ds)[k].messages| == |MergeRuns(ds)[k].ids| >= 1
    ensures forall k :: 0 <= k < |MergeRuns(ds)| - 1 ==>
      MergeRuns(ds)[k].character != MergeRuns(ds)[k + 1].character
  {
    if ds != [] {
      var n := |ds| - 1;
      var prev := MergeRuns(ds[..n]);
      MergeRunsShape(ds[..n]);
      var d := ds[n];
      var r := MergeRuns(ds);
      if prev != [] && prev[|prev| - 1].character == d.character {
        var m := |prev| - 1;
        var last := prev[m];
        assert r == prev[..m] + [SpeakerRun(last.character, last.messages + [d.message], last.ids + [n])];
        assert forall k :: 0 <= k < m ==> r[k] == prev[k];
        assert |last.messages| == |last.ids|;
        assert |r| == |prev| && r[m].character == prev[m].character;
        assert |r[m].messages| == |r[m].ids| >= 1;
      } else {
        assert r == prev + [SpeakerRun(d.character, [d.message], [n])];
        assert forall k :: 0 <= k < |prev| ==> r[k] == prev[k];
        assert prev != [] ==> r[|prev| - 1].character != r[|prev|].character;
      }
    }
  }

  /** The origin indices of the runs read 0, 1, …, n-1: every turn lands in exactly one run, in order. */
  lemma {:induction false} MergeRunsIds(ds: seq<Dialogue>)
    ensures FlatIds(MergeRuns(ds)) == Indices(|ds|)
  {
    if ds != [] {
      var n := |ds| - 1;
      var prev := MergeRuns(ds[..n]);
      MergeRunsIds(ds[..n]);
      var d := ds[n];
      IndicesSnoc(n);
      if prev != [] && prev[|prev| - 1].character == d.character {
        var m := |prev| - 1;
        var last := prev[m];
        var grown := SpeakerRun(last.character, last.messages + [d.message], last.ids + [n]);
        MergeRunsGrows(ds);
        assert prev == prev[..m] + [last];
        FlatIdsSnoc(prev[..m], last);
        FlatIdsSnoc(prev[..m], grown);
        assert FlatIds(prev[..m]) + (last.ids + [n]) == (FlatIds(prev[..m]) + last.ids) + [n];
      } else {
        var single := SpeakerRun(d.character, [d.message], [n]);
        assert MergeRuns(ds) == prev + [single];
        FlatIdsSnoc(prev, single);
      }
    }
  }

  /** A turn by the speaker of the last run extends that run. */
  lemma MergeRunsGrows(ds: seq<Dialogue>)
    requires ds != [] && MergeRuns(ds[..|ds| - 1]) != []
    requires MergeRuns(ds[..|ds| - 1])[|MergeRuns(ds[..|ds| - 1])| - 1].character == ds[|ds| - 1].character
    ensures var prev := MergeRuns(ds[..|ds| - 1]);
      var last := prev[|prev| - 1];
      MergeRuns(ds) == prev[..|prev| - 1] +
        [SpeakerRun(last.character, last.messages + [ds[|ds| - 1].message], last.ids + [|ds| - 1])]
  {
  }

  lemma IndicesSnoc(n: nat)
    ensures Indices(n + 1) == Indices(n) + [n]
  {
  }

  /** Each origin index of each run points at a turn of the run's speaker carrying the matching message. */
  predicate PointsInto(rs: seq<SpeakerRun>, ds: seq<Dialogue>) {
    forall k, j :: 0 <= k < |rs| && 0 <= j < |rs[k].ids| && j < |rs[k].messages| ==>
      rs[k].ids[j] < |ds| && ds[rs[k].ids[j]] == Dialogue(rs[k].character, rs[k].messages[j])
  }

  /** Each origin index of a run points at a turn of the run's speaker carrying the matching message. */
  lemma {:induction false} MergeRunsOrigins(ds: seq<Dialogue>)
    ensures PointsInto(MergeRuns(ds), ds)
  {
    if ds != [] {
      var n := |ds| - 1;
      var prev := MergeRuns(ds[..n]);
      MergeRunsOrigins(ds[..n]);
      MergeRunsShape(ds[..n]);
      var d := ds[n];
      PointsIntoWiden(prev, ds[..n], ds);
      if prev != [] && prev[|prev| - 1].character == d.character {
        var m := |prev| - 1;
        MergeRunsGrows(ds);
        assert prev == prev[..m] + [prev[m]];
        PointsIntoGrow(prev[..m], prev[m], ds, n, d.message);
      } else {
        assert MergeRuns(ds) == prev + [SpeakerRun(d.character, [d.message], [n])];
        PointsIntoAdd(prev, ds, n, d.character, d.message);
      }
    }
  }

  lemma PointsIntoWiden(rs: seq<SpeakerRun>, ds: seq<Dialogue>, longer: seq<Dialogue>)
    requires PointsInto(rs, ds) && |ds| <= |longer| && ds == longer[..|ds|]
    ensures PointsInto(rs, longer)
  {
    forall k, j | 0 <= k < |rs| && 0 <= j < |rs[k].ids| && j < |rs[k].messages|
      ensures rs[k].ids[j] < |longer| && longer[rs[k].ids[j]] == Dialogue(rs[k].character, rs[k].messages[j])
    {
      assert ds[rs[k].ids[j]] == longer[rs[k].ids[j]];
    }
  }

  lemma PointsIntoGrow(pre: seq<SpeakerRun>, last: SpeakerRun, ds: seq<Dialogue>, n: nat, msg: String)
    requires PointsInto(pre + [last], ds) && |last.messages| == |last.ids|
    requires n < |ds| && ds[n] == Dialogue(last.character, msg)
    ensures PointsInto(pre + [SpeakerRun(last.character, last.messages + [msg], last.ids + [n])], ds)
  {
    var rs := pre + [last];
    var r := pre + [SpeakerRun(last.character, last.messages + [msg], last.ids + [n])];
    forall k, j | 0 <= k < |r| && 0 <= j < |r[k].ids| && j < |r[k].messages|
      ensures r[k].ids[j] < |ds| && ds[r[k].ids[j]] == Dialogue(r[k].character, r[k].messages[j])
    {
      if k < |pre| {
        assert r[k] == rs[k];
      } else if j < |last.ids| {
        assert r[k].ids[j] == rs[k].ids[j] && r[k].messages[j] == rs[k].messages[j];
      }
    }
  }

  lemma PointsIntoAdd(rs: seq<SpeakerRun>, ds: seq<Dialogue>, n: nat, c: String, msg: String)
    requires PointsInto(rs, ds) && n < |ds| && ds[n] == Dialogue(c, msg)
    ensures PointsInto(rs + [SpeakerRun(c, [msg], [n])], ds)
  {
    var r := rs + [SpeakerRun(c, [msg], [n])];
    forall k, j | 0 <= k < |r| && 0 <= j < |r[k].ids| && j < |r[k].messages|
      ensures r[k].ids[j] < |ds| && ds[r[k].ids[j]] == Dialogue(r[k].character, r[k].messages[j])
    {
      if k < |rs| {
        assert r[k] == rs[k];
      }
    }
  }

  /** The first loop of enrich_dialogues: the current run is kept in three variables and flushed on a change of speaker. */
  method MergeDialogues(ds: seq<Dialogue>) returns (merged: seq<SpeakerRun>)
    ensures merged == MergeRuns(ds)
  {
    merged := [];
    var currentChar: Option<String> := None;
    var currentMessages: seq<String> := [];
    var currentIds: seq<nat> := [];
    for i := 0 to |ds|
      invariant Collected(ds[..i], merged, currentChar, currentMessages, currentIds)
    {
      var d := ds[i];
      if currentChar == Some(d.character) {
        CollectSame(ds, i, merged, currentChar, currentMessages, currentIds);
        currentMessages := currentMessages + [d.message];
        currentIds := currentIds + [i];
      } else {
        ghost var before := merged;
        if currentChar.Some? && currentMessages != [] {
          merged := merged + [SpeakerRun(currentChar.value, currentMessages, currentIds)];
        }
        CollectOther(ds, i, before, currentChar, currentMessages, currentIds, merged);
        currentChar := Some(d.character);
        currentMessages := [d.message];
        currentIds := [i];
      }
    }
    ghost var before := merged;
    if currentChar.Some? && currentMessages != [] {
      merged := merged + [SpeakerRun(currentChar.value, currentMessages, currentIds)];
    }
    CollectEnd(ds, before, currentChar, currentMessages, currentIds, merged);
  }

  /**
   * The loop state of merge after the turns `seen`: nothing before the first
   * turn, otherwise the finished runs and the current one, which together
   * are the runs of `seen`.
   */
  predicate Collected(seen: seq<Dialogue>, merged: seq<SpeakerRun>, c: Option<String>, ms: seq<String>, ids: seq<nat>) {
    if seen == [] then c == None && merged == []
    else c.Some? && ms != [] && MergeRuns(seen) == merged + [SpeakerRun(c.value, ms, ids)]
  }

  /** The finished runs once the current one, if any, is flushed. */
  function Flushed(merged: seq<SpeakerRun>, c: Option<String>, ms: seq<String>, ids: seq<nat>): seq<SpeakerRun> {
    if c.Some? && ms != [] then merged + [SpeakerRun(c.value, ms, ids)] else merged
  }

  /** A turn by the current speaker joins the current run. */
  lemma CollectSame(ds: seq<Dialogue>, i: nat, merged: seq<SpeakerRun>, c: Option<String>, ms: seq<String>, ids: seq<nat>)
    requires i < |ds| && Collected(ds[..i], merged, c, ms, ids) && c == Some(ds[i].character)
    ensures Collected(ds[..i + 1], merged, c, ms + [ds[i].message], ids + [i])
  {
    assert ds[..i + 1][..i] == ds[..i];
    MergeRunsGrows(ds[..i + 1]);
    assert (merged + [SpeakerRun(c.value, ms, ids)])[..|merged|] == merged;
  }

  /** A turn by anyone else flushes the current run and opens a run of its own. */
  lemma CollectOther(ds: seq<Dialogue>, i: nat, merged: seq<SpeakerRun>, c: Option<String>, ms: seq<String>, ids: seq<nat>,
                     flushed: seq<SpeakerRun>)
    requires i < |ds| && Collected(ds[..i], merged, c, ms, ids) && c != Some(ds[i].character)
    requires flushed == Flushed(merged, c, ms, ids)
    ensures Collected(ds[..i + 1], flushed, Some(ds[i].character), [ds[i].message], [i])
  {
    assert ds[..i + 1][..i] == ds[..i];
  }

  /** Flushing the current run after the last turn gives the runs of all turns. */
  lemma CollectEnd(ds: seq<Dialogue>, merged: seq<SpeakerRun>, c: Option<String>, ms: seq<String>, ids: seq<nat>,
                   flushed: seq<SpeakerRun>)
    requires Collected(ds[..|ds|], merged, c, ms, ids)
    requires flushed == Flushed(merged, c, ms, ids)
    ensures flushed == MergeRuns(ds)
  {
    assert ds[..|ds|] == ds;
  }

  /** A merged turn with the two renderings the later steps use. */
  datatype Enriched = Enriched(character: String, message: String, originIds: seq<nat>,
                               standardFormat: String, withoutThink: String)

  /** A run joined with blank lines, with its standard form and its thought-free form. */
  function Enrich(run: SpeakerRun): Enriched {
    var message := Join(run.messages, "\n\n");
    Enriched(run.character, message, run.ids, ConvertToStandardFormat(message),
             RemoveThoughtsAndConvertActions(message))
  }

  /** enrich_dialogues: the runs of `ds`, each enriched, in order; [] for no turns. */
  method EnrichDialogues(ds: seq<Dialogue>) returns (enriched: seq<Enriched>)
    ensures |enriched| == |MergeRuns(ds)|
    ensures forall k :: 0 <= k < |enriched| ==> enriched[k] == Enrich(MergeRuns(ds)[k])
    ensures ds == [] ==> enriched == []
  {
    enriched := [];
    if ds == [] {
      return;
    }
    var merged := MergeDialogues(ds);
    for i := 0 to |merged|
      invariant |enriched| == i
      invariant forall k :: 0 <= k < i ==> enriched[k] == Enrich(merged[k])
    {
      enriched := enriched + [Enrich(merged[i])];
    }
  }

  /** The enriched turns have the properties of the runs: neighbours differ, indices cover the input in order. */
  lemma EnrichedPartition(ds: seq<Dialogue>, enriched: seq<Enriched>)
    requires |enriched| == |MergeRuns(ds)|
    requires forall k :: 0 <= k < |enriched| ==> enriched[k] == Enrich(MergeRuns(ds)[k])
    ensures forall k :: 0 <= k < |enriched| - 1 ==> enriched[k].character != enriched[k + 1].character
    ensures forall k :: 0 <= k < |enriched| ==>
      enriched[k].originIds != [] && enriched[k].originIds[0] < |ds| &&
      enriched[k].character == ds[enriched[k].originIds[0]].character
  {
    MergeRunsShape(ds);
    MergeRunsOrigins(ds);
    var r := MergeRuns(ds);
    forall k | 0 <= k < |enriched| - 1 ensures enriched[k].character != enriched[k + 1].character {
      assert enriched[k].character == r[k].character;
    }
  }

  // ------------------------------------------------- speaking characters

  /** The non-empty names of `characters`, each at its first appearance. */
  function SpeakingCharacters(characters: seq<String>): seq<String> {
    if characters == [] then []
    else
      var prev := SpeakingCharacters(characters[..|characters| - 1]);
      var c := characters[|characters| - 1];
      if c != "" && c !in prev then prev + [c] else prev
  }

  /** The index of the first `x` in `xs`, `|xs|` when there is none. */
  function FirstIndex(xs: seq<String>, x: String): (i: nat)
    ensures i <= |xs|
    ensures i < |xs| <==> x in xs
    ensures i < |xs| ==> xs[i] == x
    ensures forall j :: 0 <= j < i ==> xs[j] != x
  {
    if xs == [] then 0 else if xs[0] == x then 0 else 1 + FirstIndex(xs[1..], x)
  }

  lemma FirstIndexSnoc(xs: seq<String>, y: String, x: String)
    ensures x in xs ==> FirstIndex(xs + [y], x) == FirstIndex(xs, x)
    ensures x !in xs && x == y ==> FirstIndex(xs + [y], x) == |xs|
  {
    var i := FirstIndex(xs + [y], x);
    if x in xs {
      var k := FirstIndex(xs, x);
      assert (xs + [y])[k] == x;
    }
  }

  /** Distinct, non-empty, exactly the names that speak, in order of first appearance. */
  lemma {:induction false} SpeakingCharactersSpec(characters: seq<String>)
    ensures forall a, b :: 0 <= a < b < |SpeakingCharacters(characters)| ==>
      SpeakingCharacters(characters)[a] != SpeakingCharacters(characters)[b]
    ensures forall c :: c in SpeakingCharacters(characters) <==> c != "" && c in characters
    ensures forall a, b :: 0 <= a < b < |SpeakingCharacters(characters)| ==>
      FirstIndex(characters, SpeakingCharacters(characters)[a]) < FirstIndex(characters, SpeakingCharacters(characters)[b])
  {
    if characters != [] {
      var n := |characters| - 1;
      var init := characters[..n];
      var c := characters[n];
      SpeakingCharactersSpec(init);
      var prev := SpeakingCharacters(init);
      var r := SpeakingCharacters(characters);
      assert characters == init + [c];
      forall x | x in prev ensures FirstIndex(characters, x) == FirstIndex(init, x) < n {
        FirstIndexSnoc(init, c, x);
      }
      if c != "" && c !in prev {
        FirstIndexSnoc(init, c, c);
        forall a, b | 0 <= a < b < |r| ensures FirstIndex(characters, r[a]) < FirstIndex(characters, r[b]) {
          assert r[a] in prev;
          if b < |prev| {
            assert r[b] in prev;
          }
        }
      } else {
        forall a, b | 0 <= a < b < |r| ensures FirstIndex(characters, r[a]) < FirstIndex(characters, r[b]) {
          assert r[a] in prev && r[b] in prev;
        }
      }
    }
  }

  /** get_speaking_characters, over the `character` field of each dialogue. */
  method GetSpeakingCharacters(characters: seq<String>) returns (r: seq<String>)
    ensures r == SpeakingCharacters(characters)
  {
    r := [];
    for i := 0 to |characters|
      invariant r == SpeakingCharacters(characters[..i])
    {
      assert characters[..i + 1][..i] == characters[..i];
      var c := characters[i];
      if c != "" && c !in r {
        r := r + [c];
      }
    }
    assert characters[..|characters|] == characters;
  }

  // ---------------------------------------------------- character records

  const Environment: String := "Environment"

  /** One entry of a key_characters list; a missing field reads as "". */
  datatype KeyCharacter = KeyCharacter(name: String, motivation: String, experience: String, description: String)

  datatype Field = Motivation | Experience | Description

  function FieldOf(kc: KeyCharacter, f: Field): String {
    match f
    case Motivation => kc.motivation
    case Experience => kc.experience
    case Description => kc.description
  }

  /** The non-empty names of a key_characters list. */
  function NamesOf(kcs: seq<KeyCharacter>): set<String> {
    set j | 0 <= j < |kcs| && kcs[j].name != "" :: kcs[j].name
  }

  /**
   * The name-to-field dictionary of build_character_motivation_map and its
   * two siblings: entries without a name are skipped and a later entry
   * overrides an earlier one with the same name.
   */
  function FieldMap(kcs: seq<KeyCharacter>, f: Field): (m: map<String, String>)
    ensures m.Keys == NamesOf(kcs)
  {
    if kcs == [] then map[]
    else
      var n := |kcs| - 1;
      var prev := FieldMap(kcs[..n], f);
      assert NamesOf(kcs) == NamesOf(kcs[..n]) + (if kcs[n].name != "" then {kcs[n].name} else {}) by {
        assert forall j :: 0 <= j < n ==> kcs[..n][j] == kcs[j];
      }
      if kcs[n].name != "" then prev[kcs[n].name := FieldOf(kcs[n], f)] else prev
  }

  /** The value stored under a name is the field of the last entry with that name. */
  lemma {:induction false} FieldMapLastWins(kcs: seq<KeyCharacter>, f: Field, j: nat)
    requires j < |kcs| && kcs[j].name != ""
    requires forall j2 :: j < j2 < |kcs| ==> kcs[j2].name != kcs[j].name
    ensures kcs[j].name in FieldMap(kcs, f) && FieldMap(kcs, f)[kcs[j].name] == FieldOf(kcs[j], f)
  {
    var n := |kcs| - 1;
    var prev := FieldMap(kcs[..n], f);
    assert FieldMap(kcs, f) == if kcs[n].name != "" then prev[kcs[n].name := FieldOf(kcs[n], f)] else prev;
    if j < n {
      assert kcs[..n][j] == kcs[j];
      assert kcs[j].name != kcs[n].name;
      FieldMapLastWins(kcs[..n], f, j);
    }
  }

  /** An insertion-ordered dictionary, as its `items()` list. */
  type Items = seq<(String, String)>

  function KeysOf(d: Items): set<String> {
    set i | 0 <= i < |d| :: d[i].0
  }

  /** The value stored under `k`, if any. */
  function Get(d: Items, k: String): (r: Option<String>)
    ensures r.Some? <==> k in KeysOf(d)
  {
    if d == [] then None
    else
      ConsKeys(d[0], d[1..]);
      assert d == [d[0]] + d[1..];
      if d[0].0 == k then Some(d[0].1) else Get(d[1..], k)
  }

  lemma ConsKeys(x: (String, String), t: Items)
    ensures KeysOf([x] + t) == {x.0} + KeysOf(t)
  {
    var d := [x] + t;
    forall y | y in KeysOf(d) ensures y in {x.0} + KeysOf(t) {
      var i :| 0 <= i < |d| && d[i].0 == y;
      if i > 0 {
        assert t[i - 1].0 == y;
      }
    }
    forall y | y in KeysOf(t) ensures y in KeysOf(d) {
      var i :| 0 <= i < |t| && t[i].0 == y;
      assert d[i + 1].0 == y;
    }
    assert d[0].0 == x.0;
  }

  lemma ConsGet(x: (String, String), t: Items, k: String)
    ensures Get([x] + t, k) == if x.0 == k then Some(x.1) else Get(t, k)
  {
    assert ([x] + t)[1..] == t;
  }

  /** `d[k] = v`: an existing key keeps its place, a new one goes last. */
  function Put(d: Items, k: String, v: String): (r: Items)
    ensures KeysOf(r) == KeysOf(d) + {k}
    ensures Get(r, k) == Some(v)
    ensures forall x :: x != k ==> Get(r, x) == Get(d, x)
  {
    if d == [] then
      ConsKeys((k, v), []);
      ConsGet((k, v), [], k);
      assert [(k, v)] == [(k, v)] + [];
      [(k, v)]
    else
      var rest := if d[0].0 == k then d[1..] else Put(d[1..], k, v);
      var r := [if d[0].0 == k then (k, v) else d[0]] + rest;
      assert d == [d[0]] + d[1..];
      ConsKeys(d[0], d[1..]);
      ConsKeys(r[0], rest);
      ConsGet(r[0], rest, k);
      forall x | x != k ensures Get(r, x) == Get(d, x) {
        ConsGet(r[0], rest, x);
        ConsGet(d[0], d[1..], x);
      }
      r
  }

  /** The dataset profile of a character, the plot description when that is missing or empty. */
  function OwnProfile(c: String, datasets: map<String, String>, descriptions: map<String, String>): (p: String)
    ensures c in datasets && datasets[c] != "" ==> p == datasets[c]
    ensures (c !in datasets || datasets[c] == "") && c in descriptions ==> p == descriptions[c]
    ensures (c !in datasets || datasets[c] == "") && c !in descriptions ==> p == ""
  {
    var fromDataset := if c in datasets then datasets[c] else "";
    if fromDataset == "" && c in descriptions then descriptions[c] else fromDataset
  }

  /** The other_character_profiles dictionary of `self`, built over a prefix of the speakers. */
  function OtherProfilesOf(speaking: seq<String>, self: String, datasets: map<String, String>,
                           descriptions: map<String, String>): Items
  {
    if speaking == [] then []
    else
      var n := |speaking| - 1;
      var d := OtherProfilesOf(speaking[..n], self, datasets, descriptions);
      var o := speaking[n];
      if o != self && o != Environment then
        if o in datasets then Put(d, o, datasets[o])
        else if o in descriptions then Put(d, o, descriptions[o])
        else d
      else d
  }

  /**
   * The other characters listed for `self` are exactly the speakers other
   * than `self` and Environment that have a dataset entry or a description,
   * with the dataset profile winning even when it is empty.
   */
  lemma {:induction false} OtherProfilesSpec(speaking: seq<String>, self: String,
      datasets: map<String, String>, descriptions: map<String, String>)
    ensures forall k :: k in KeysOf(OtherProfilesOf(speaking, self, datasets, descriptions)) <==>
      (k in speaking && k != self && k != Environment && (k in datasets || k in descriptions))
    ensures forall k :: k in KeysOf(OtherProfilesOf(speaking, self, datasets, descriptions)) ==>
      Get(OtherProfilesOf(speaking, self, datasets, descriptions), k)
        == Some(if k in datasets then datasets[k] else descriptions[k])
  {
    if speaking != [] {
      var n := |speaking| - 1;
      OtherProfilesSpec(speaking[..n], self, datasets, descriptions);
      assert speaking == speaking[..n] + [speaking[n]];
    }
  }

  /** The inner loop of build_character_info. */
  method BuildOtherProfiles(speaking: seq<String>, self: String, datasets: map<String, String>,
                            descriptions: map<String, String>) returns (others: Items)
    ensures others == OtherProfilesOf(speaking, self, datasets, descriptions)
  {
    others := [];
    for i := 0 to |speaking|
      invariant others == OtherProfilesOf(speaking[..i], self, datasets, descriptions)
    {
      assert speaking[..i + 1][..i] == speaking[..i];
      var o := speaking[i];
      if o != self && o != Environment {
        if o in datasets {
          others := Put(others, o, datasets[o]);
        } else if o in descriptions {
          others := Put(others, o, descriptions[o]);
        }
      }
    }
    assert speaking[..|speaking|] == speaking;
  }

  /** The record build_character_info stores for one speaking character. */
  datatype CharacterInfo = CharacterInfo(
    bookName: String, character: String, profile: String, background: String,
    scenario: String, topic: String, motivation: String, experience: String,
    description: String, others: Items, outputFormat: String)

  const OutputFormat: String :=
    "Your output should follow this two-part structure in strict order:\n"
    + "1. System Thinking: A single block at the very beginning, wrapped in <system_thinking> and </system_thinking>. "
    + "This is the third-person analysis of how to portray the role.\n"
    + "2. Role-play Response: The response include the role's thought, speech and action. "
    + "Use <role_thinking> your thought </role_thinking> for thoughts (invisible to others) and "
    + "<role_action> your action </role_action> for actions (visible to others). "
    + "These three elements (thought, speech and action) can appear multiple times and be freely interleaved.\n"
    + "(all thinking is invisible to others)"

  /** The inputs of build_character_info other than the speakers. */
  datatype Sources = Sources(
    bookName: String, datasets: map<String, String>, convKeyCharacters: seq<KeyCharacter>,
    plotKeyCharacters: seq<KeyCharacter>, scenario: String, summary: String, topic: String)

  function InfoFor(c: String, speaking: seq<String>, src: Sources): CharacterInfo {
    var descriptions := FieldMap(src.plotKeyCharacters, Description);
    var motivations := FieldMap(src.convKeyCharacters, Motivation);
    var experiences := FieldMap(src.plotKeyCharacters, Experience);
    CharacterInfo(
      src.bookName, c, OwnProfile(c, src.datasets, descriptions), src.summary, src.scenario, src.topic,
      if c in motivations then motivations[c] else "",
      if c in experiences then experiences[c] else "",
      if c in descriptions then descriptions[c] else "",
      OtherProfilesOf(speaking, c, src.datasets, descriptions),
      OutputFormat)
  }

  /**
   * build_character_info: one record per speaker except Environment, which
   * never appears as anyone's other character either, nor does a character
   * appear among its own others.
   */
  method BuildCharacterInfo(speaking: seq<String>, src: Sources) returns (info: map<String, CharacterInfo>)
    ensures forall c :: c in info <==> c in speaking && c != Environment
    ensures forall c :: c in info ==> info[c] == InfoFor(c, speaking, src)
    ensures forall c :: c in info ==> Environment !in KeysOf(info[c].others) && c !in KeysOf(info[c].others)
  {
    var descriptions := FieldMap(src.plotKeyCharacters, Description);
    var motivations := FieldMap(src.convKeyCharacters, Motivation);
    var experiences := FieldMap(src.plotKeyCharacters, Experience);
    info := map[];
    for i := 0 to |speaking|
      invariant forall c :: c in info <==> c in speaking[..i] && c != Environment
      invariant forall c :: c in info ==> info[c] == InfoFor(c, speaking, src)
    {
      var c := speaking[i];
      if c == Environment {
        continue;
      }
      var profile := "";
      if c in src.datasets {
        profile := src.datasets[c];
      }
      if profile == "" && c in descriptions {
        profile := descriptions[c];
      }
      var others := BuildOtherProfiles(speaking, c, src.datasets, descriptions);
      info := info[c := CharacterInfo(
        src.bookName, c, profile, src.summary, src.scenario, src.topic,
        if c in motivations then motivations[c] else "",
        if c in experiences then experiences[c] else "",
        if c in descriptions then descriptions[c] else "",
        others, OutputFormat)];
    }
    assert speaking[..|speaking|] == speaking;
    forall c | c in info ensures Environment !in KeysOf(info[c].others) && c !in KeysOf(info[c].others) {
      OtherProfilesSpec(speaking, c, src.datasets, descriptions);
    }
  }

  // ------------------------------------------------------- system prompt

  /** One other character's line of the prompt. */
  function OtherLine(name: String, profile: String): String {
    "\n" + name + ": " + profile + "\n"
  }

  /** The line shown for one item: none for the character itself or an empty profile. */
  function ShownLine(item: (String, String), character: String): String {
    if item.0 != character && item.1 != "" then OtherLine(item.0, item.1) else ""
  }

  /** The other-characters text get_character_prompt accumulates, over a prefix of the items. */
  function OthersText(others: Items, character: String): String {
    if others == [] then ""
    else OthersText(others[..|others| - 1], character) + ShownLine(others[|others| - 1], character)
  }

  /** The section about the other characters is left out exactly when none of them has a profile to show. */
  lemma {:induction false} OthersTextEmpty(others: Items, character: String)
    ensures OthersText(others, character) == "" <==>
      forall i :: 0 <= i < |others| ==> others[i].0 == character || others[i].1 == ""
  {
    if others != [] {
      var n := |others| - 1;
      OthersTextEmpty(others[..n], character);
      assert forall i :: 0 <= i < n ==> others[..n][i] == others[i];
      var prefix := OthersText(others[..n], character);
      var line := ShownLine(others[n], character);
      assert OthersText(others, character) == prefix + line;
      if others[n].0 != character && others[n].1 != "" {
        assert |line| > 0;
      } else {
        assert prefix + line == prefix;
      }
    }
  }

  function Opening(info: CharacterInfo): String {
    "You are " + info.character + " from " + info.bookName + ".\n\n"
  }

  function ProfileSection(info: CharacterInfo): String {
    "===" + info.character + "'s Profile===\n" + info.profile + "\n\n"
  }

  function ScenarioSection(info: CharacterInfo): String {
    "===Current Scenario===\n" + info.scenario + "\n\n"
  }

  function OthersSection(othersText: String): String {
    "===Information about the other Characters===\n" + othersText + "\n\n"
  }

  function MotivationSection(info: CharacterInfo): String {
    "===Your Inner Thoughts===\n" + info.motivation + "\n\n"
  }

  function RequirementsSection(): String {
    "===Requirements===\n" + OutputFormat + "\n\n"
  }

  /**
   * get_character_prompt once the other-characters text is known: the
   * opening, profile and scenario, then the other characters, inner
   * thoughts and requirements only when there is something to say. The
   * background it is given does not appear in the prompt.
   */
  function PromptText(info: CharacterInfo, othersText: String, includeRequirements: bool): String {
    Opening(info) + PromptBody(info, othersText, includeRequirements)
  }

  function PromptBody(info: CharacterInfo, othersText: String, includeRequirements: bool): String {
    ProfileSection(info) + ScenarioSection(info)
    + (if othersText != "" then OthersSection(othersText) else "")
    + (if info.motivation != "" then MotivationSection(info) else "")
    + (if includeRequirements then RequirementsSection() else "")
  }

  lemma ConcatStartsWith(a: String, b: String)
    ensures StartsWith(a + b, a)
  {
    assert (a + b)[..|a|] == a;
  }

  function CharacterPrompt(info: CharacterInfo, includeRequirements: bool): String {
    PromptText(info, OthersText(info.others, info.character), includeRequirements)
  }

  /** The loop of get_character_prompt that collects one line per other character with a profile. */
  method BuildOthersText(profiles: seq<(String, String)>, character: String) returns (others: String)
    ensures others == OthersText(profiles, character)
  {
    others := "";
    for i := 0 to |profiles|
      invariant others == OthersText(profiles[..i], character)
    {
      assert profiles[..i + 1][..i] == profiles[..i];
      var (name, profile) := profiles[i];
      if name != character && profile != "" {
        others := others + OtherLine(name, profile);
      }
    }
    assert profiles[..|profiles|] == profiles;
  }

  /** get_character_prompt: the other-characters text, then the sections in order. */
  method GetCharacterPrompt(info: CharacterInfo, includeRequirements: bool) returns (prompt: String)
    ensures prompt == CharacterPrompt(info, includeRequirements)
    ensures StartsWith(prompt, Opening(info))
  {
    var others := BuildOthersText(info.others, info.character);
    var body := ProfileSection(info) + ScenarioSection(info);
    ghost var base := body;
    if others != "" {
      body := body + OthersSection(others);
    }
    ghost var withOthers := body;
    if info.motivation != "" {
      body := body + MotivationSection(info);
    }
    ghost var withMotivation := body;
    if includeRequirements {
      body := body + RequirementsSection();
    }
    SectionsAppended(base, OthersSection(others), MotivationSection(info), RequirementsSection(),
                     others != "", info.motivation != "", includeRequirements, withOthers, withMotivation, body);
    prompt := Opening(info) + body;
    PromptAssembled(info, others, includeRequirements, body);
    ConcatStartsWith(Opening(info), body);
  }

  lemma PromptAssembled(info: CharacterInfo, othersText: String, includeRequirements: bool, body: String)
    requires othersText == OthersText(info.others, info.character)
    requires body == PromptBody(info, othersText, includeRequirements)
    ensures Opening(info) + body == CharacterPrompt(info, includeRequirements)
  {
  }

  /** Appending the optional sections one by one gives the sections in order. */
  lemma SectionsAppended(base: String, o: String, m: String, q: String, co: bool, cm: bool, cq: bool,
                         b1: String, b2: String, b3: String)
    requires b1 == if co then base + o else base
    requires b2 == if cm then b1 + m else b1
    requires b3 == if cq then b2 + q else b2
    ensures b3 == base + (if co then o else "") + (if cm then m else "") + (if cq then q else "")
  {
  }

  // ---------------------------------------------------- training samples

  /** A ShareGPT message with the original indices it covers (none for the system prompt). */
  datatype ShareMsg = ShareMsg(role: Role, content: String, originIds: Option<seq<nat>>)

  /** The three roles a sample uses ("system", "user", "assistant"). */
  datatype Role = System | User | Assistant

  const ConversationStart: String := "===Conversation Start===\n\n"

  /** The state of the per-character loop: the messages so far and the pending user text. */
  datatype Buffers = Buffers(messages: seq<ShareMsg>, user: String, userIds: seq<nat>)

  /** The pending user text is sent when it has content and is not the bare start marker. */
  predicate Flushable(user: String) {
    !IsBlank(user) && user != ConversationStart
  }

  function FlushUser(b: Buffers): Buffers {
    Buffers(b.messages + [ShareMsg(User, Strip(b.user), Some(b.userIds))], "", [])
  }

  /** The target's own turn, in the standard format, as an assistant message. */
  function Reply(d: Enriched): ShareMsg {
    ShareMsg(Assistant, d.character + ": " + d.standardFormat, Some(d.originIds))
  }

  /** What one turn does to the loop state of `target`'s sample. */
  function Step(b: Buffers, d: Enriched, target: String): Buffers {
    if d.character == target then
      var b1 := if Flushable(b.user) then FlushUser(b) else b;
      Buffers(b1.messages + [Reply(d)], b1.user, b1.userIds)
    else
      Buffers(b.messages, b.user + d.character + ": " + d.withoutThink + "\n\n", b.userIds + d.originIds)
  }

  function Fold(ds: seq<Enriched>, target: String, prompt: String): Buffers {
    if ds == [] then Buffers([ShareMsg(System, prompt, None)], ConversationStart, [])
    else Step(Fold(ds[..|ds| - 1], target, prompt), ds[|ds| - 1], target)
  }

  /** The sample of `target`: the loop state, with pending user text flushed after a non-user message. */
  function Sample(ds: seq<Enriched>, target: String, prompt: String): seq<ShareMsg> {
    Finish(Fold(ds, target, prompt))
  }

  /** The closing flush of the pending user text, only after a non-user message. */
  function Finish(b: Buffers): seq<ShareMsg> {
    if Flushable(b.user) && b.messages != [] && b.messages[|b.messages| - 1].role != User then FlushUser(b).messages
    else b.messages
  }

  /** The loop body of build_training_samples_sharegpt for one target character. */
  method SampleFor(ds: seq<Enriched>, target: String, prompt: String) returns (messages: seq<ShareMsg>)
    ensures messages == Sample(ds, target, prompt)
  {
    messages := [ShareMsg(System, prompt, None)];
    var userBuffer := ConversationStart;
    var userIds: seq<nat> := [];
    for i := 0 to |ds|
      invariant Buffers(messages, userBuffer, userIds) == Fold(ds[..i], target, prompt)
    {
      ghost var b := Buffers(messages, userBuffer, userIds);
      var d := ds[i];
      if d.character == target {
        if !IsBlank(userBuffer) && userBuffer != ConversationStart {
          messages := messages + [ShareMsg(User, Strip(userBuffer), Some(userIds))];
          userBuffer := "";
          userIds := [];
        }
        messages := messages + [ShareMsg(Assistant, d.character + ": " + d.standardFormat, Some(d.originIds))];
      } else {
        userBuffer := userBuffer + d.character + ": " + d.withoutThink + "\n\n";
        userIds := userIds + d.originIds;
      }
      assert Buffers(messages, userBuffer, userIds) == Step(b, d, target);
      FoldSnoc(ds, i, target, prompt);
    }
    ghost var b := Buffers(messages, userBuffer, userIds);
    FoldAll(ds, target, prompt);
    FinishCases(b);
    if !IsBlank(userBuffer) && userBuffer != ConversationStart {
      if messages != [] && messages[|messages| - 1].role != User {
        messages := messages + [ShareMsg(User, Strip(userBuffer), Some(userIds))];
      }
    }
  }

  lemma FinishCases(b: Buffers)
    ensures !IsBlank(b.user) && b.user != ConversationStart && b.messages != [] && b.messages[|b.messages| - 1].role != User ==>
      Finish(b) == b.messages + [ShareMsg(User, Strip(b.user), Some(b.userIds))]
    ensures !(!IsBlank(b.user) && b.user != ConversationStart && b.messages != [] && b.messages[|b.messages| - 1].role != User) ==>
      Finish(b) == b.messages
  {
  }

  lemma FoldSnoc(ds: seq<Enriched>, i: nat, target: String, prompt: String)
    requires i < |ds|
    ensures Fold(ds[..i + 1], target, prompt) == Step(Fold(ds[..i], target, prompt), ds[i], target)
  {
    assert ds[..i + 1][..i] == ds[..i];
  }

  lemma FoldAll(ds: seq<Enriched>, target: String, prompt: String)
    ensures Fold(ds[..|ds|], target, prompt) == Fold(ds, target, prompt)
  {
    assert ds[..|ds|] == ds;
  }

  /** The assistant messages of a list, in order. */
  function Assistants(msgs: seq<ShareMsg>): seq<ShareMsg> {
    if msgs == [] then []
    else Assistants(msgs[..|msgs| - 1]) + (if msgs[|msgs| - 1].role == Assistant then [msgs[|msgs| - 1]] else [])
  }

  /** The target's own turns, as replies, in order. */
  function Replies(ds: seq<Enriched>, target: String): seq<ShareMsg> {
    if ds == [] then []
    else Replies(ds[..|ds| - 1], target) + (if ds[|ds| - 1].character == target then [Reply(ds[|ds| - 1])] else [])
  }

  lemma AssistantsSnoc(msgs: seq<ShareMsg>, m: ShareMsg)
    ensures Assistants(msgs + [m]) == Assistants(msgs) + (if m.role == Assistant then [m] else [])
  {
    assert (msgs + [m])[..|msgs|] == msgs;
  }

  /** The origin indices of a message list, in order. */
  function MsgIds(msgs: seq<ShareMsg>): seq<nat> {
    if msgs == [] then []
    else MsgIds(msgs[..|msgs| - 1]) + (match msgs[|msgs| - 1].originIds case Some(ids) => ids case None => [])
  }

  lemma MsgIdsSnoc(msgs: seq<ShareMsg>, m: ShareMsg)
    ensures MsgIds(msgs + [m]) == MsgIds(msgs) + (match m.originIds case Some(ids) => ids case None => [])
  {
    assert (msgs + [m])[..|msgs|] == msgs;
  }

  /** The origin indices of the enriched turns, in order. */
  function TurnIds(ds: seq<Enriched>): seq<nat> {
    if ds == [] then [] else TurnIds(ds[..|ds| - 1]) + ds[|ds| - 1].originIds
  }

  /**
   * The shape of a message list the loop keeps: the system prompt first and
   * only there, no two user messages in a row, and the last message never a
   * user message.
   */
  predicate Shaped(msgs: seq<ShareMsg>, prompt: String) {
    && |msgs| >= 1
    && msgs[0] == ShareMsg(System, prompt, None)
    && (forall k :: 1 <= k < |msgs| ==> msgs[k].role != System)
    && (forall k :: 0 <= k < |msgs| - 1 ==> !(msgs[k].role == User && msgs[k + 1].role == User))
    && msgs[|msgs| - 1].role != User
  }

  /** Pending user text that carries indices is always flushable. */
  predicate Pending(b: Buffers) {
    && (Flushable(b.user) || b.userIds == [])
    && (b.user == ConversationStart || b.user == "" || ':' in b.user)
  }

  lemma ColonFlushable(u: String)
    requires ':' in u
    ensures Flushable(u)
  {
    var k :| 0 <= k < |u| && u[k] == ':';
    assert !IsSpace(u[k]);
    assert ':' !in ConversationStart;
  }

  lemma {:induction false} FoldShaped(ds: seq<Enriched>, target: String, prompt: String)
    ensures Shaped(Fold(ds, target, prompt).messages, prompt)
  {
    if ds != [] {
      var n := |ds| - 1;
      var d := ds[n];
      var b := Fold(ds[..n], target, prompt);
      FoldShaped(ds[..n], target, prompt);
      assert Fold(ds, target, prompt) == Step(b, d, target);
      StepShaped(b, d, target, prompt);
    }
  }

  lemma StepShaped(b: Buffers, d: Enriched, target: String, prompt: String)
    requires Shaped(b.messages, prompt)
    ensures Shaped(Step(b, d, target).messages, prompt)
  {
    if d.character == target {
      if Flushable(b.user) {
        var u := ShareMsg(User, Strip(b.user), Some(b.userIds));
        ShapedUserReply(b.messages, u, Reply(d), prompt);
        assert Step(b, d, target).messages == b.messages + [u] + [Reply(d)];
      } else {
        ShapedReply(b.messages, Reply(d), prompt);
      }
    }
  }

  lemma ShapedReply(msgs: seq<ShareMsg>, r: ShareMsg, prompt: String)
    requires Shaped(msgs, prompt) && r.role == Assistant
    ensures Shaped(msgs + [r], prompt)
  {
    var m := msgs + [r];
    assert forall k :: 0 <= k < |msgs| ==> m[k] == msgs[k];
  }

  lemma ShapedUserReply(msgs: seq<ShareMsg>, u: ShareMsg, r: ShareMsg, prompt: String)
    requires Shaped(msgs, prompt) && u.role == User && r.role == Assistant
    ensures Shaped(msgs + [u] + [r], prompt)
  {
    var m := msgs + [u] + [r];
    assert forall k :: 0 <= k < |msgs| ==> m[k] == msgs[k];
    assert m[|msgs|] == u && m[|msgs| + 1] == r;
  }

  lemma {:induction false} FoldPending(ds: seq<Enriched>, target: String, prompt: String)
    ensures Pending(Fold(ds, target, prompt))
  {
    if ds != [] {
      var n := |ds| - 1;
      var d := ds[n];
      FoldPending(ds[..n], target, prompt);
      if d.character != target {
        var b := Fold(ds[..n], target, prompt);
        var u := b.user + d.character + ": " + d.withoutThink + "\n\n";
        assert u[|b.user| + |d.character|] == ':';
        ColonFlushable(u);
      }
    }
  }

  /** The assistant messages of the loop state are the target's replies so far. */
  lemma {:induction false} FoldReplies(ds: seq<Enriched>, target: String, prompt: String)
    ensures Assistants(Fold(ds, target, prompt).messages) == Replies(ds, target)
  {
    if ds == [] {
      AssistantsSnoc([], ShareMsg(System, prompt, None));
    } else {
      var n := |ds| - 1;
      var d := ds[n];
      var b := Fold(ds[..n], target, prompt);
      FoldReplies(ds[..n], target, prompt);
      if d.character == target {
        var b1 := if Flushable(b.user) then FlushUser(b) else b;
        if Flushable(b.user) {
          AssistantsSnoc(b.messages, ShareMsg(User, Strip(b.user), Some(b.userIds)));
        }
        AssistantsSnoc(b1.messages, Reply(d));
      }
    }
  }

  /** The indices of the messages and of the pending user text together are those of the turns so far. */
  lemma {:induction false} FoldIds(ds: seq<Enriched>, target: String, prompt: String)
    ensures MsgIds(Fold(ds, target, prompt).messages) + Fold(ds, target, prompt).userIds == TurnIds(ds)
  {
    if ds == [] {
      MsgIdsSnoc([], ShareMsg(System, prompt, None));
    } else {
      var n := |ds| - 1;
      var d := ds[n];
      var b := Fold(ds[..n], target, prompt);
      FoldIds(ds[..n], target, prompt);
      FoldPending(ds[..n], target, prompt);
      StepIds(b, d, target);
      assert TurnIds(ds) == TurnIds(ds[..n]) + d.originIds;
    }
  }

  /** One turn appends its indices to those of the messages and the pending user text. */
  lemma StepIds(b: Buffers, d: Enriched, target: String)
    requires Pending(b)
    ensures MsgIds(Step(b, d, target).messages) + Step(b, d, target).userIds
         == MsgIds(b.messages) + b.userIds + d.originIds
  {
    if d.character == target {
      var b1 := if Flushable(b.user) then FlushUser(b) else b;
      if Flushable(b.user) {
        MsgIdsSnoc(b.messages, ShareMsg(User, Strip(b.user), Some(b.userIds)));
      }
      MsgIdsSnoc(b1.messages, Reply(d));
    }
  }

  /**
   * Each sample opens with the system prompt and never has two user
   * messages in a row; the final flush always happens when there is text
   * to flush, because the loop never ends on a user message.
   */
  lemma SampleShape(ds: seq<Enriched>, target: String, prompt: String)
    ensures |Sample(ds, target, prompt)| >= 1
    ensures Sample(ds, target, prompt)[0] == ShareMsg(System, prompt, None)
    ensures forall k :: 1 <= k < |Sample(ds, target, prompt)| ==> Sample(ds, target, prompt)[k].role != System
    ensures forall k :: 0 <= k < |Sample(ds, target, prompt)| - 1 ==>
      !(Sample(ds, target, prompt)[k].role == User && Sample(ds, target, prompt)[k + 1].role == User)
    ensures Flushable(Fold(ds, target, prompt).user) ==> |Sample(ds, target, prompt)| == |Fold(ds, target, prompt).messages| + 1
  {
    FoldShaped(ds, target, prompt);
    FinishShape(Fold(ds, target, prompt), prompt);
  }

  lemma FinishShape(b: Buffers, prompt: String)
    requires Shaped(b.messages, prompt)
    ensures var r := Finish(b);
      && |r| >= 1 && r[0] == ShareMsg(System, prompt, None)
      && (Flushable(b.user) ==> |r| == |b.messages| + 1)
    ensures forall k :: 1 <= k < |Finish(b)| ==> Finish(b)[k].role != System
    ensures forall k :: 0 <= k < |Finish(b)| - 1 ==> !(Finish(b)[k].role == User && Finish(b)[k + 1].role == User)
  {
    if Flushable(b.user) {
      var msgs := b.messages;
      var r := msgs + [ShareMsg(User, Strip(b.user), Some(b.userIds))];
      assert Finish(b) == r;
      forall k | 0 <= k < |r| - 1 ensures !(r[k].role == User && r[k + 1].role == User) {
        if k + 1 < |msgs| {
          assert r[k] == msgs[k] && r[k + 1] == msgs[k + 1];
        } else {
          assert r[k] == msgs[|msgs| - 1];
        }
      }
      forall k | 1 <= k < |r| ensures r[k].role != System {
        if k < |msgs| {
          assert r[k] == msgs[k];
        }
      }
    }
  }

  /**
   * The assistant messages of a sample are the target's own turns in order,
   * and its origin indices are those of all the turns, each once, in order.
   */
  lemma SampleContents(ds: seq<Enriched>, target: String, prompt: String)
    ensures Assistants(Sample(ds, target, prompt)) == Replies(ds, target)
    ensures MsgIds(Sample(ds, target, prompt)) == TurnIds(ds)
  {
    FoldShaped(ds, target, prompt);
    FoldPending(ds, target, prompt);
    FoldReplies(ds, target, prompt);
    FoldIds(ds, target, prompt);
    var b := Fold(ds, target, prompt);
    if Flushable(b.user) {
      var u := ShareMsg(User, Strip(b.user), Some(b.userIds));
      AssistantsSnoc(b.messages, u);
      MsgIdsSnoc(b.messages, u);
    } else {
      assert MsgIds(b.messages) + [] == MsgIds(b.messages);
    }
  }

  function CharactersOf(ds: seq<Enriched>): (r: seq<String>)
    ensures |r| == |ds| && forall i :: 0 <= i < |ds| ==> r[i] == ds[i].character
  {
    seq(|ds|, i requires 0 <= i < |ds| => ds[i].character)
  }

  /** The names of `cs` other than `x`, in order. */
  function Without(cs: seq<String>, x: String): (r: seq<String>)
    ensures forall c :: c in r <==> c in cs && c != x
  {
    if cs == [] then []
    else (if cs[0] != x then [cs[0]] else []) + Without(cs[1..], x)
  }

  /**
   * build_training_samples_sharegpt: one sample per speaking character
   * other than Environment that has a character record.
   */
  method BuildTrainingSamplesSharegpt(ds: seq<Enriched>, info: map<String, CharacterInfo>)
    returns (samples: map<String, seq<ShareMsg>>)
    ensures forall c :: c in samples <==> c != Environment && c in info && c != "" && c in CharactersOf(ds)
    ensures forall c :: c in samples ==> samples[c] == Sample(ds, c, CharacterPrompt(info[c], true))
  {
    var all := GetSpeakingCharacters(CharactersOf(ds));
    SpeakingCharactersSpec(CharactersOf(ds));
    var speaking := Without(all, Environment);
    samples := map[];
    for i := 0 to |speaking|
      invariant Built(samples, ds, info, speaking[..i])
    {
      var target := speaking[i];
      assert speaking[..i + 1] == speaking[..i] + [target];
      BuiltStep(samples, ds, info, speaking[..i], target);
      if target !in info {
        continue;
      }
      var prompt := GetCharacterPrompt(info[target], true);
      var messages := SampleFor(ds, target, prompt);
      samples := samples[target := messages];
    }
    assert speaking[..|speaking|] == speaking;
  }

  /** The samples built for the characters `seen`: one for each that has a record, under the prompt of its record. */
  ghost predicate Built(samples: map<String, seq<ShareMsg>>, ds: seq<Enriched>, info: map<String, CharacterInfo>, seen: seq<String>) {
    && (forall c :: c in samples <==> c in seen && c in info)
    && (forall c :: c in samples ==> samples[c] == Sample(ds, c, CharacterPrompt(info[c], true)))
  }

  lemma BuiltStep(samples: map<String, seq<ShareMsg>>, ds: seq<Enriched>, info: map<String, CharacterInfo>,
                  seen: seq<String>, target: String)
    requires Built(samples, ds, info, seen)
    ensures target !in info ==> Built(samples, ds, info, seen + [target])
    ensures target in info ==>
      Built(samples[target := Sample(ds, target, CharacterPrompt(info[target], true))], ds, info, seen + [target])
  {
  }
}
