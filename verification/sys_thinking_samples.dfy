// Step 3.1 of the system-thinking pipeline: every assistant reply of every
// character becomes one continuation sample, holding the conversation before
// it, the reply itself and up to two following messages; and the flattened
// chat history the generator is prompted with, where the system prompt loses
// its requirements section.

module SysThinkingSamples {
  import opened Basics
  import opened Text
  import opened Messages
  import SingleTurn
  import FixMerge

  // ------------------------------------------------------- requirements

  /** The markers of the requirements section, tried in this order. */
  const RequirementsMarker: String := "===Requirements==="
  const InstructionsMarker: String := "## Instructions for roleplaying"
  const RequirementsHeading: String := "## Requirements"

  /** The letter case of `marker` does not matter: some occurrence in `s` in any case. */
  predicate ContainsAnyCase(s: String, marker: String) {
    Contains(Lower(s), Lower(marker))
  }

  /**
   * `re.sub(marker + '.*$', '', s, flags=re.DOTALL | re.IGNORECASE)`: the
   * text is cut where the marker first occurs in any letter case.
   */
  function CutMarker(s: String, marker: String): (r: String)
    ensures |r| <= |s| && r == s[..|r|]
    ensures marker != [] ==> !ContainsAnyCase(r, marker)
    ensures !ContainsAnyCase(s, marker) ==> r == s
  {
    match Find(Lower(s), Lower(marker))
    case Some(k) =>
      CutBeforeFirst(s, marker, k);
      s[..k]
    case None => s
  }

  /** What comes before the first occurrence in any case holds no occurrence. */
  lemma CutBeforeFirst(s: String, marker: String, k: nat)
    requires Find(Lower(s), Lower(marker)) == Some(k)
    ensures k <= |s|
    ensures marker != [] ==> !ContainsAnyCase(s[..k], marker)
  {
    assert k + |Lower(marker)| <= |Lower(s)|;
    assert Lower(s[..k]) == Lower(s)[..k];
    if marker != [] {
      FindFirst(Lower(s), Lower(marker), k);
      NothingBeforeFirst(Lower(s), Lower(marker), k);
    }
  }

  /** The text before the first occurrence does not contain the pattern. */
  lemma NothingBeforeFirst(s: String, pat: String, k: nat)
    requires pat != [] && k <= |s| && NoOccurrenceBefore(s, pat, k)
    ensures !Contains(s[..k], pat)
  {
    forall j | 0 <= j
      ensures !OccursAt(s[..k], pat, j)
    {
      if j + |pat| <= k {
        assert !OccursAt(s, pat, j);
        assert s[j..j + |pat|] == s[..k][j..j + |pat|];
      }
    }
    ContainsIff(s[..k], pat);
  }

  /** Lower-casing keeps every piece in its place. */
  lemma LowerOccurs(x: String, y: String, a: nat)
    requires OccursAt(x, y, a)
    ensures OccursAt(Lower(x), Lower(y), a)
  {
    forall i | 0 <= i < |y|
      ensures Lower(x)[a + i] == Lower(y)[i]
    {
      assert x[a + i] == x[a..a + |y|][i];
    }
    assert Lower(x)[a..a + |y|] == Lower(y);
  }

  /** A piece of a text that has no occurrence of the marker has none either. */
  lemma PieceAnyCase(x: String, y: String, a: nat, marker: String)
    requires OccursAt(x, y, a)
    ensures ContainsAnyCase(y, marker) ==> ContainsAnyCase(x, marker)
  {
    var m := Lower(marker);
    if ContainsAnyCase(y, marker) {
      ContainsIff(Lower(y), m);
      var j :| OccursAt(Lower(y), m, j);
      LowerOccurs(x, y, a);
      OccursTrans(Lower(x), Lower(y), m, a, j);
      ContainsIff(Lower(x), m);
    }
  }

  /**
   * `remove_requirements_section`: cut at each of the three markers in turn,
   * then strip. None of the markers is left, in any letter case.
   */
  function RemoveRequirementsSection(content: String): (r: String)
    ensures !ContainsAnyCase(r, RequirementsMarker)
    ensures !ContainsAnyCase(r, InstructionsMarker)
    ensures !ContainsAnyCase(r, RequirementsHeading)
    ensures (!ContainsAnyCase(content, RequirementsMarker) && !ContainsAnyCase(content, InstructionsMarker) &&
             !ContainsAnyCase(content, RequirementsHeading)) ==> r == Strip(content)
  {
    var c1 := CutMarker(content, RequirementsMarker);
    var c2 := CutMarker(c1, InstructionsMarker);
    var c3 := CutMarker(c2, RequirementsHeading);
    PieceAnyCase(c1, c2, 0, RequirementsMarker);
    PieceAnyCase(c1, c3, 0, RequirementsMarker);
    PieceAnyCase(c2, c3, 0, InstructionsMarker);
    StripOccurs(c3);
    PieceAnyCase(c3, Strip(c3), |c3| - |LStrip(c3)|, RequirementsMarker);
    PieceAnyCase(c3, Strip(c3), |c3| - |LStrip(c3)|, InstructionsMarker);
    PieceAnyCase(c3, Strip(c3), |c3| - |LStrip(c3)|, RequirementsHeading);
    Strip(c3)
  }

  /**
   * A system prompt whose head holds no `=` and no `#` keeps exactly that
   * head, stripped, whatever letter case the requirements marker is in.
   */
  lemma RequirementsDropped(head: String, marker: String, rest: String)
    requires '=' !in head && '#' !in head
    requires Lower(marker) == Lower(RequirementsMarker)
    ensures RemoveRequirementsSection(head + marker + rest) == Strip(head)
  {
    var s := head + marker + rest;
    var m := Lower(RequirementsMarker);
    assert m[0] == '=';
    forall j | 0 <= j < |head|
      ensures Lower(s)[j] != '=' && Lower(head)[j] != '#'
    {
      assert s[j] == head[j];
    }
    assert Lower(s)[|head|..|head| + |m|] == Lower(marker);
    NoOccurrenceWithoutHead(Lower(s)[..|head|], Lower(s)[|head|..], m);
    assert Lower(s)[..|head|] + Lower(s)[|head|..] == Lower(s);
    FindFromAt(Lower(s), m, 0, |head|);
    assert CutMarker(s, RequirementsMarker) == head;
    MissingHead(head, InstructionsMarker);
    MissingHead(head, RequirementsHeading);
  }

  /** A text whose lower-cased form lacks the marker's first character does not contain the marker. */
  lemma MissingHead(s: String, marker: String)
    requires marker != [] && LowerChar(marker[0]) !in Lower(s)
    ensures !ContainsAnyCase(s, marker)
  {
    var m := Lower(marker);
    forall j | 0 <= j
      ensures !OccursAt(Lower(s), m, j)
    {
      if j + |m| <= |Lower(s)| {
        assert Lower(s)[j..j + |m|][0] == Lower(s)[j];
      }
    }
    ContainsIff(Lower(s), m);
  }

  // ------------------------------------------------------------- history

  /** One message of the flattened history; messages of any other role add nothing. */
  function Entry(m: Message): String {
    if m.role == "system" then "System: " + RemoveRequirementsSection(m.content) + "\n\n"
    else if m.role == "user" || m.role == "assistant" then m.content + "\n\n"
    else []
  }

  /** The history before the final strip: the entries of the messages, in order. */
  function History(ms: seq<Message>): String {
    if ms == [] then [] else History(ms[..|ms| - 1]) + Entry(ms[|ms| - 1])
  }

  /** `build_chat_history`: accumulate the entries, then strip. The character name is not used. */
  method BuildChatHistory(contextBefore: seq<Message>, aiName: String) returns (history: String)
    ensures history == Strip(History(contextBefore))
  {
    var chatHistory: String := [];
    for i := 0 to |contextBefore|
      invariant chatHistory == History(contextBefore[..i])
    {
      var ctx := contextBefore[i];
      HistorySnoc(contextBefore, i);
      var entry: String := [];
      if ctx.role == "system" {
        var content := RemoveRequirementsSection(ctx.content);
        entry := "System: " + content + "\n\n";
      } else if ctx.role == "user" {
        entry := ctx.content + "\n\n";
      } else if ctx.role == "assistant" {
        entry := ctx.content + "\n\n";
      }
      chatHistory := chatHistory + entry;
    }
    assert contextBefore[..|contextBefore|] == contextBefore;
    history := Strip(chatHistory);
  }

  lemma HistorySnoc(ms: seq<Message>, i: nat)
    requires i < |ms|
    ensures History(ms[..i + 1]) == History(ms[..i]) + Entry(ms[i])
  {
    assert ms[..i + 1][..i] == ms[..i];
  }

  /** The history of a conversation is the histories of its parts, one after the other. */
  lemma {:induction false} HistoryConcat(a: seq<Message>, b: seq<Message>)
    ensures History(a + b) == History(a) + History(b)
    decreases |b|
  {
    if b == [] {
      assert a + b == a;
    } else {
      var n := |b| - 1;
      calc {
        History(a + b);
        { assert (a + b)[..|a + b| - 1] == a + b[..n]; }
        History(a + b[..n]) + Entry(b[n]);
        { HistoryConcat(a, b[..n]); }
        History(a) + History(b[..n]) + Entry(b[n]);
      }
    }
  }

  function Contents(ms: seq<Message>): (r: seq<String>)
    ensures |r| == |ms|
  {
    seq(|ms|, i requires 0 <= i < |ms| => ms[i].content)
  }

  /** A dialogue of user and assistant turns is their contents, each followed by a blank line. */
  lemma {:induction false} DialogueHistory(ms: seq<Message>)
    requires ms != []
    requires forall i :: 0 <= i < |ms| ==> ms[i].role == "user" || ms[i].role == "assistant"
    ensures History(ms) == Join(Contents(ms), "\n\n") + "\n\n"
    decreases |ms|
  {
    var n := |ms| - 1;
    HistoryLast(ms);
    DialogueEntry(ms[n]);
    if n == 0 {
      assert ms[..n] == [];
      assert Contents(ms) == [ms[n].content];
    } else {
      DialogueHistory(ms[..n]);
      ContentsLast(ms);
      JoinAppend(Contents(ms[..n]), ms[n].content, "\n\n");
      AppendBlankLine(Join(Contents(ms[..n]), "\n\n"), ms[n].content, "\n\n");
    }
  }

  lemma HistoryLast(ms: seq<Message>)
    requires ms != []
    ensures History(ms) == History(ms[..|ms| - 1]) + Entry(ms[|ms| - 1])
  {
  }

  lemma DialogueEntry(m: Message)
    requires m.role == "user" || m.role == "assistant"
    ensures Entry(m) == m.content + "\n\n"
  {
  }

  lemma ContentsLast(ms: seq<Message>)
    requires ms != []
    ensures Contents(ms) == Contents(ms[..|ms| - 1]) + [ms[|ms| - 1].content]
  {
  }

  lemma AppendBlankLine(j: String, c: String, sep: String)
    ensures (j + sep) + (c + sep) == j + sep + c + sep
  {
  }

  // ------------------------------------------------------------- samples

  /** One chapter record of the enhanced SFT data, after the `get` defaults. */
  datatype Chapter = Chapter(
    traceIdBase: String,
    bookName: String,
    chapter: String,
    /** the `scenario` field of each conversation entry, when it has one */
    conversation: seq<Option<String>>,
    /** each character's training messages, in the order of the record */
    trainingSamples: seq<(String, seq<Message>)>)

  /** One continuation sample: an assistant reply in its context. */
  datatype Sample = Sample(
    traceId: String,
    originalTraceId: String,
    characterName: String,
    bookName: String,
    chapter: String,
    scenario: String,
    assistantIndex: nat,
    contextBefore: seq<Message>,
    currentAssistant: Message,
    contextAfter: seq<Message>)

  /** The scenario of the first conversation entry, or empty. */
  function Scenario(rec: Chapter): String {
    if rec.conversation == [] then []
    else
      match rec.conversation[0]
      case Some(s) => s
      case None => []
  }

  /** `f"{base}/{name}/{index:04d}"`. */
  function SampleTraceId(base: String, name: String, index: nat): String {
    base + "/" + name + "/" + ZeroPad(index, 4)
  }

  function Min(a: int, b: int): int { if a <= b then a else b }

  /** The sample of the `k`-th assistant reply, found at position `p`. */
  function SampleAt(rec: Chapter, name: String, msgs: seq<Message>, k: nat, p: nat): Sample
    requires p < |msgs|
  {
    Sample(SampleTraceId(rec.traceIdBase, name, k + 1), rec.traceIdBase, name, rec.bookName, rec.chapter,
           Scenario(rec), k + 1, msgs[..p], msgs[p], msgs[p + 1..Min(p + 3, |msgs|)])
  }

  /** The samples of one character, one per assistant reply, in order. */
  function CharacterSamples(rec: Chapter, name: String, msgs: seq<Message>): (r: seq<Sample>)
    ensures |r| == CountRole(msgs, "assistant")
  {
    var pos := SingleTurn.AssistantPositions(msgs);
    seq(|pos|, k requires 0 <= k < |pos| => SampleAt(rec, name, msgs, k, pos[k]))
  }

  function SamplesOf(rec: Chapter, chars: seq<(String, seq<Message>)>): seq<Sample> {
    if chars == [] then []
    else
      var n := |chars| - 1;
      SamplesOf(rec, chars[..n]) + CharacterSamples(rec, chars[n].0, chars[n].1)
  }

  /** The assistant replies of all the characters. */
  function AssistantCount(chars: seq<(String, seq<Message>)>): nat {
    if chars == [] then 0
    else
      var n := |chars| - 1;
      AssistantCount(chars[..n]) + CountRole(chars[n].1, "assistant")
  }

  /** The first loop of a character: the positions of its assistant replies. */
  method AssistantIndices(msgs: seq<Message>) returns (indices: seq<nat>)
    ensures indices == SingleTurn.AssistantPositions(msgs)
  {
    indices := [];
    for i := 0 to |msgs|
      invariant indices == SingleTurn.AssistantPositions(msgs[..i])
    {
      SingleTurn.PositionsSnoc(msgs, i);
      if msgs[i].role == "assistant" {
        indices := indices + [i];
      }
    }
    assert msgs[..|msgs|] == msgs;
  }

  /** The inner loop: the messages after position `p`, stopping once two are taken. */
  method FollowingMessages(msgs: seq<Message>, p: nat) returns (after: seq<Message>)
    requires p < |msgs|
    ensures after == msgs[p + 1..Min(p + 3, |msgs|)]
  {
    after := [];
    var j := p + 1;
    while j < |msgs|
      invariant p + 1 <= j <= |msgs| && j <= p + 3
      invariant after == msgs[p + 1..j]
      invariant |after| < 2
      decreases |msgs| - j
    {
      after := after + [msgs[j]];
      j := j + 1;
      if |after| >= 2 {
        break;
      }
    }
  }

  /** The body of the character loop: one sample per assistant reply, numbered from 1. */
  method ReplySamples(rec: Chapter, scenario: String, charName: String, msgs: seq<Message>) returns (part: seq<Sample>)
    requires scenario == Scenario(rec)
    ensures part == CharacterSamples(rec, charName, msgs)
  {
    var indices := AssistantIndices(msgs);
    ghost var all := CharacterSamples(rec, charName, msgs);
    part := [];
    for idx := 0 to |indices|
      invariant part == all[..idx]
    {
      var asstIdx := indices[idx];
      var after := FollowingMessages(msgs, asstIdx);
      var sample := Sample(SampleTraceId(rec.traceIdBase, charName, idx + 1), rec.traceIdBase, charName,
                           rec.bookName, rec.chapter, scenario, idx + 1, msgs[..asstIdx], msgs[asstIdx], after);
      assert sample == all[idx];
      assert all[..idx + 1] == all[..idx] + [all[idx]];
      part := part + [sample];
    }
    assert all[..|indices|] == all;
  }

  /** `extract_sys_thinking_samples`: walk the characters, then their assistant replies. */
  method ExtractSysThinkingSamples(rec: Chapter) returns (samples: seq<Sample>)
    ensures samples == SamplesOf(rec, rec.trainingSamples)
  {
    samples := [];
    var scenario := Scenario(rec);
    for c := 0 to |rec.trainingSamples|
      invariant samples == SamplesOf(rec, rec.trainingSamples[..c])
    {
      var (charName, msgs) := rec.trainingSamples[c];
      var part := ReplySamples(rec, scenario, charName, msgs);
      assert rec.trainingSamples[..c + 1][..c] == rec.trainingSamples[..c];
      samples := samples + part;
    }
    assert rec.trainingSamples[..|rec.trainingSamples|] == rec.trainingSamples;
  }

  // ---------------------------------------------------------- properties

  /** One sample per assistant reply of every character. */
  lemma {:induction false} SamplesCount(rec: Chapter, chars: seq<(String, seq<Message>)>)
    ensures |SamplesOf(rec, chars)| == AssistantCount(chars)
    decreases |chars|
  {
    if chars != [] {
      SamplesCount(rec, chars[..|chars| - 1]);
    }
  }

  /**
   * The `k`-th sample of a character: its reply is the `k+1`-th assistant
   * message, its context is exactly what precedes it, and what follows is
   * the next two messages, fewer only at the end of the conversation.
   */
  lemma SampleContext(rec: Chapter, name: String, msgs: seq<Message>, k: nat)
    requires k < CountRole(msgs, "assistant")
    ensures var smp := CharacterSamples(rec, name, msgs)[k];
      var p := |smp.contextBefore|;
      p < |msgs| &&
      smp.contextBefore + [smp.currentAssistant] == msgs[..p + 1] &&
      smp.currentAssistant.role == "assistant" &&
      smp.assistantIndex == k + 1 &&
      CountRole(smp.contextBefore, "assistant") == k &&
      |smp.contextAfter| <= 2 &&
      smp.contextAfter == msgs[p + 1..p + 1 + |smp.contextAfter|] &&
      (|smp.contextAfter| == 2 || p + 1 + |smp.contextAfter| == |msgs|)
  {
    var p := SamplePosition(rec, name, msgs, k);
    SampleAtShape(rec, name, msgs, k, p);
  }

  /** The `k`-th sample sits at the `k+1`-th assistant message. */
  lemma SamplePosition(rec: Chapter, name: String, msgs: seq<Message>, k: nat) returns (p: nat)
    requires k < CountRole(msgs, "assistant")
    ensures p < |msgs| && CharacterSamples(rec, name, msgs)[k] == SampleAt(rec, name, msgs, k, p)
    ensures msgs[p].role == "assistant" && CountRole(msgs[..p], "assistant") == k
  {
    var pos := SingleTurn.AssistantPositions(msgs);
    p := pos[k];
    SingleTurn.AssistantPositionsCounted(msgs);
    assert msgs[..p + 1] == msgs[..p] + [msgs[p]];
    CountRoleAppend(msgs[..p], msgs[p], "assistant");
  }

  /** The parts of the sample built at an assistant message `p`. */
  lemma SampleAtShape(rec: Chapter, name: String, msgs: seq<Message>, k: nat, p: nat)
    requires p < |msgs| && msgs[p].role == "assistant" && CountRole(msgs[..p], "assistant") == k
    ensures var smp := SampleAt(rec, name, msgs, k, p);
      |smp.contextBefore| == p &&
      smp.contextBefore + [smp.currentAssistant] == msgs[..p + 1] &&
      smp.currentAssistant.role == "assistant" &&
      smp.assistantIndex == k + 1 &&
      CountRole(smp.contextBefore, "assistant") == k &&
      |smp.contextAfter| <= 2 &&
      smp.contextAfter == msgs[p + 1..p + 1 + |smp.contextAfter|] &&
      (|smp.contextAfter| == 2 || p + 1 + |smp.contextAfter| == |msgs|)
  {
    assert msgs[..p + 1] == msgs[..p] + [msgs[p]];
  }

  /**
   * The trace id, once the generator prefix of step 3.2 is put in front,
   * parses back into the chapter id, the character and the 1-based index.
   */
  lemma TraceIdRoundTrip(rec: Chapter, name: String, msgs: seq<Message>, k: nat)
    requires k < CountRole(msgs, "assistant")
    requires '/' !in rec.traceIdBase && '/' !in name && !Contains(rec.traceIdBase, "sys_gen_")
    ensures FixMerge.ParseTraceId("sys_gen_" + CharacterSamples(rec, name, msgs)[k].traceId)
      == Some(FixMerge.TraceParts(rec.traceIdBase, name, Some(k + 1)))
  {
    var d := ZeroPad(k + 1, 4);
    assert '/' !in d by {
      forall i | 0 <= i < |d|
        ensures d[i] != '/'
      {
        assert IsDigit(d[i]);
      }
    }
    assert CharacterSamples(rec, name, msgs)[k].traceId == SampleTraceId(rec.traceIdBase, name, k + 1);
    Prefixed("sys_gen_", rec.traceIdBase, name, d);
    FixMerge.ParseTraceIdRoundTrip(rec.traceIdBase, name, d);
  }

  lemma Prefixed(g: String, a: String, b: String, c: String)
    ensures g + (a + "/" + b + "/" + c) == g + a + "/" + b + "/" + c
  {
  }

  /** Different replies of one character get different trace ids. */
  lemma TraceIdsDistinct(rec: Chapter, name: String, msgs: seq<Message>, k1: nat, k2: nat)
    requires k1 < k2 < CountRole(msgs, "assistant")
    ensures CharacterSamples(rec, name, msgs)[k1].traceId != CharacterSamples(rec, name, msgs)[k2].traceId
  {
    var head := rec.traceIdBase + "/" + name + "/";
    var d1 := ZeroPad(k1 + 1, 4);
    var d2 := ZeroPad(k2 + 1, 4);
    if |d1| == |d2| {
      assert (head + d1)[|head|..] == d1;
      assert (head + d2)[|head|..] == d2;
      assert DigitsValue(d1) != DigitsValue(d2);
    }
  }
}
