// Turning each character's multi-turn training conversation into one SFT
// record: a trace id made of the chapter id and a sanitised character name,
// and the messages with empty ones dropped, roles normalised and the system
// thinking of the last reply put in front of it.

module SftConvert {
  import opened Basics
  import opened Text
  import opened Messages

  /**
   * A message as stored in the synced training data. `role` is absent when
   * the record has no "role" key; `sysThinking` is "" when the record has no
   * revised system thinking.
   */
  datatype RawMsg = RawMsg(role: Option<String>, content: String, sysThinking: String)

  /** `msg.get('role', '')`. */
  function RoleOf(m: RawMsg): String {
    if m.role.Some? then m.role.value else ""
  }

  /** One line of the SFT output file. */
  datatype SftSample = SftSample(traceId: String, messages: seq<Message>)

  /** What one character's conversation turns into. */
  datatype Outcome = Skipped | Emitted(sample: SftSample) | Failed

  // ------------------------------------------------------------ trace id

  /** Every character that is not a letter or digit becomes '_'. */
  function SafeName(name: String): (r: String)
    ensures |r| == |name|
    ensures forall k :: 0 <= k < |r| ==> IsAlnum(r[k]) || r[k] == '_'
    ensures forall k :: 0 <= k < |r| ==> IsAlnum(name[k]) ==> r[k] == name[k]
  {
    seq(|name|, k requires 0 <= k < |name| => if IsAlnum(name[k]) then name[k] else '_')
  }

  /** Sanitising a sanitised name changes nothing. */
  lemma SafeNameIdempotent(name: String)
    ensures SafeName(SafeName(name)) == SafeName(name)
  {
  }

  function TraceId(base: String, name: String): (r: String)
    ensures StartsWith(r, base + "_")
    ensures |r| == |base| + 1 + |name|
  {
    assert (base + "_" + SafeName(name))[..|base + "_"|] == base + "_";
    base + "_" + SafeName(name)
  }

  /** Two names share a trace id exactly when they agree outside their non-alphanumeric characters. */
  lemma TraceIdCollision(base: String, a: String, b: String)
    ensures TraceId(base, a) == TraceId(base, b) <==>
      |a| == |b| && forall k :: 0 <= k < |a| ==>
        (IsAlnum(a[k]) || IsAlnum(b[k]) ==> a[k] == b[k])
  {
    var p := base + "_";
    if TraceId(base, a) == TraceId(base, b) {
      assert SafeName(a) == TraceId(base, a)[|p|..];
      assert SafeName(b) == TraceId(base, b)[|p|..];
      forall k | 0 <= k < |a| && (IsAlnum(a[k]) || IsAlnum(b[k])) ensures a[k] == b[k] {
        assert SafeName(a)[k] == SafeName(b)[k];
      }
    }
    if |a| == |b| && forall k :: 0 <= k < |a| ==> (IsAlnum(a[k]) || IsAlnum(b[k]) ==> a[k] == b[k]) {
      assert SafeName(a) == SafeName(b);
    }
  }

  // ----------------------------------------------------- last assistant

  /** The index of the last message whose role is "assistant", or -1. */
  function LastAssistant(msgs: seq<RawMsg>): (r: int)
    ensures -1 <= r < |msgs|
    ensures r >= 0 ==> RoleOf(msgs[r]) == "assistant"
    ensures forall j :: r < j < |msgs| ==> RoleOf(msgs[j]) != "assistant"
  {
    if msgs == [] then -1
    else if RoleOf(msgs[|msgs| - 1]) == "assistant" then |msgs| - 1
    else LastAssistant(msgs[..|msgs| - 1])
  }

  /** The forward scan of convert_to_sft that keeps overwriting `last_assistant_idx`. */
  method FindLastAssistant(msgs: seq<RawMsg>) returns (last: int)
    ensures last == LastAssistant(msgs)
  {
    last := -1;
    for i := 0 to |msgs|
      invariant last == LastAssistant(msgs[..i])
    {
      assert msgs[..i + 1][..i] == msgs[..i];
      if RoleOf(msgs[i]) == "assistant" {
        last := i;
      }
    }
    assert msgs[..|msgs|] == msgs;
  }

  // ------------------------------------------------------------ cleaning

  /** The role mapping: the three chat roles stay, "role_answer" is a reply, everything else is the user. */
  function MapRole(role: String): (r: String)
    ensures r == "system" || r == "user" || r == "assistant"
    ensures r == "system" <==> role == "system"
    ensures r == "assistant" <==> role == "assistant" || role == "role_answer"
  {
    if role == "system" || role == "user" || role == "assistant" then role
    else if role == "user_question" then "user"
    else if role == "role_answer" then "assistant"
    else "user"
  }

  function ThinkingPrefix(sysThinking: String): String {
    "<system_thinking>" + sysThinking + "</system_thinking>"
  }

  /** What the cleaning loop emits for message `i`; `last` is the last assistant index. */
  function CleanAt(m: RawMsg, i: nat, last: int): Option<Message> {
    if m.content == "" then None
    else
      var role := MapRole(RoleOf(m));
      if role == "assistant" && i == last && m.sysThinking != "" then
        Some(Message(role, ThinkingPrefix(m.sysThinking) + m.content, None))
      else Some(Message(role, m.content, None))
  }

  /** The cleaned messages, message by message. */
  function Clean(msgs: seq<RawMsg>, last: int): seq<Message> {
    if msgs == [] then []
    else
      var n := |msgs| - 1;
      var prev := Clean(msgs[..n], last);
      match CleanAt(msgs[n], n, last)
      case None => prev
      case Some(m) => prev + [m]
  }

  /** The cleaning loop of convert_to_sft. */
  method CleanMessages(msgs: seq<RawMsg>, last: int) returns (clean: seq<Message>)
    ensures clean == Clean(msgs, last)
  {
    clean := [];
    for i := 0 to |msgs|
      invariant clean == Clean(msgs[..i], last)
    {
      assert msgs[..i + 1][..i] == msgs[..i];
      var msg := msgs[i];
      var role := RoleOf(msg);
      var content := msg.content;
      if content == [] && content != "===Conversation Start===" {
        continue;
      }
      if role != "system" && role != "user" && role != "assistant" {
        if role == "user_question" {
          role := "user";
        } else if role == "role_answer" {
          role := "assistant";
        } else {
          role := "user";
        }
      }
      if role == "assistant" && i == last {
        var sysThinking := msg.sysThinking;
        if sysThinking != [] {
          content := "<system_thinking>" + sysThinking + "</system_thinking>" + content;
        }
      }
      clean := clean + [Message(role, content, None)];
    }
    assert msgs[..|msgs|] == msgs;
  }

  /** The indices of the messages with non-empty content, in order. */
  function Kept(msgs: seq<RawMsg>): (ks: seq<nat>)
    ensures forall k :: 0 <= k < |ks| ==> ks[k] < |msgs| && msgs[ks[k]].content != ""
    ensures forall a, b :: 0 <= a < b < |ks| ==> ks[a] < ks[b]
    ensures forall i :: 0 <= i < |msgs| && msgs[i].content != "" ==> i in ks
  {
    if msgs == [] then []
    else
      var n := |msgs| - 1;
      var prev := Kept(msgs[..n]);
      assert forall k :: 0 <= k < |prev| ==> msgs[..n][prev[k]] == msgs[prev[k]];
      assert forall i :: 0 <= i < n ==> msgs[..n][i] == msgs[i];
      prev + (if msgs[n].content != "" then [n] else [])
  }

  /**
   * The cleaned messages are the non-empty ones, in order, with their role
   * mapped; every content is the original one except at the last assistant
   * message, which gains the thinking prefix when it has system thinking.
   */
  lemma {:induction false} CleanSpec(msgs: seq<RawMsg>)
    ensures |Clean(msgs, LastAssistant(msgs))| == |Kept(msgs)|
    ensures forall k :: 0 <= k < |Kept(msgs)| ==>
      Clean(msgs, LastAssistant(msgs))[k].role == MapRole(RoleOf(msgs[Kept(msgs)[k]]))
    ensures forall k :: 0 <= k < |Kept(msgs)| ==>
      Clean(msgs, LastAssistant(msgs))[k].content ==
        if Kept(msgs)[k] == LastAssistant(msgs) && msgs[Kept(msgs)[k]].sysThinking != ""
        then ThinkingPrefix(msgs[Kept(msgs)[k]].sysThinking) + msgs[Kept(msgs)[k]].content
        else msgs[Kept(msgs)[k]].content
  {
    CleanKept(msgs, LastAssistant(msgs));
  }

  /** Cleaning keeps exactly the messages with non-empty content. */
  lemma {:induction false} CleanLength(msgs: seq<RawMsg>, last: int)
    ensures |Clean(msgs, last)| == |Kept(msgs)|
  {
    if msgs != [] {
      CleanLength(msgs[..|msgs| - 1], last);
    }
  }

  /** Each cleaned message is what the loop emits for the matching kept message. */
  predicate KeptMatches(msgs: seq<RawMsg>, last: int) {
    |Clean(msgs, last)| == |Kept(msgs)| &&
    forall k :: 0 <= k < |Kept(msgs)| ==>
      CleanAt(msgs[Kept(msgs)[k]], Kept(msgs)[k], last) == Some(Clean(msgs, last)[k])
  }

  /** Cleaning for any fixed `last` that is either -1 or an assistant index, message by message. */
  lemma {:induction false} CleanKept(msgs: seq<RawMsg>, last: int)
    requires last < 0 || (last < |msgs| && RoleOf(msgs[last]) == "assistant")
    ensures KeptMatches(msgs, last)
  {
    if msgs != [] {
      var n := |msgs| - 1;
      var prefix := msgs[..n];
      if last == n {
        CleanKept(prefix, -1);
        CleanLastIrrelevant(prefix, n);
      } else {
        CleanKept(prefix, last);
      }
      CleanKeptStep(msgs, last);
    }
  }

  /** The inductive step of CleanKept. */
  lemma CleanKeptStep(msgs: seq<RawMsg>, last: int)
    requires msgs != []
    requires KeptMatches(msgs[..|msgs| - 1], last)
    ensures KeptMatches(msgs, last)
  {
    var n := |msgs| - 1;
    var prefix := msgs[..n];
    var ks, pk := Kept(msgs), Kept(prefix);
    var cs, pc := Clean(msgs, last), Clean(prefix, last);
    CleanLength(msgs, last);
    forall k | 0 <= k < |ks| ensures CleanAt(msgs[ks[k]], ks[k], last) == Some(cs[k]) {
      if k < |pk| {
        assert ks[k] == pk[k] && cs[k] == pc[k];
        assert prefix[pk[k]] == msgs[pk[k]];
      }
    }
  }

  /** An index beyond the prefix changes nothing in how the prefix is cleaned. */
  lemma {:induction false} CleanLastIrrelevant(msgs: seq<RawMsg>, last: int)
    requires last >= |msgs|
    ensures Clean(msgs, last) == Clean(msgs, -1)
  {
    if msgs != [] {
      CleanLastIrrelevant(msgs[..|msgs| - 1], last);
    }
  }

  /** No cleaned message is empty, and every role is one of the three chat roles. */
  lemma {:induction false} CleanWellFormed(msgs: seq<RawMsg>, last: int)
    ensures forall k :: 0 <= k < |Clean(msgs, last)| ==>
      Clean(msgs, last)[k].content != "" &&
      Clean(msgs, last)[k].role in {"system", "user", "assistant"}
  {
    if msgs != [] {
      CleanWellFormed(msgs[..|msgs| - 1], last);
    }
  }

  /** Only the last assistant message can carry the system-thinking prefix that the cleaning adds. */
  lemma OnlyLastReplyGainsThinking(msgs: seq<RawMsg>, k: nat)
    requires k < |Kept(msgs)| && k < |Clean(msgs, LastAssistant(msgs))|
    requires Clean(msgs, LastAssistant(msgs))[k].content != msgs[Kept(msgs)[k]].content
    ensures Kept(msgs)[k] == LastAssistant(msgs)
    ensures RoleOf(msgs[Kept(msgs)[k]]) == "assistant"
    ensures msgs[Kept(msgs)[k]].sysThinking != ""
  {
    CleanSpec(msgs);
  }

  // ------------------------------------------------------- per character

  /** What convert_to_sft does with one character's conversation. */
  function Convert(base: String, name: String, msgs: seq<RawMsg>): (r: Outcome)
    ensures r.Failed? <==> msgs != [] && msgs[0].role.None?
    ensures r.Emitted? ==> msgs != [] && msgs[0].role == Some("system")
    ensures r.Emitted? ==> r.sample.traceId == TraceId(base, name)
    ensures r.Emitted? ==> r.sample.messages == Clean(msgs, LastAssistant(msgs))
    ensures r.Emitted? <==>
      msgs != [] && msgs[0].role == Some("system") && |Clean(msgs, LastAssistant(msgs))| > 1
  {
    if msgs == [] then Skipped
    else if msgs[0].role.None? then Failed
    else if msgs[0].role.value != "system" then Skipped
    else
      var clean := Clean(msgs, LastAssistant(msgs));
      if |clean| <= 1 then Skipped
      else Emitted(SftSample(TraceId(base, name), clean))
  }

  /** The system prompt is the first SFT message exactly when it is non-empty. */
  lemma EmittedStartsWithSystem(base: String, name: String, msgs: seq<RawMsg>)
    requires Convert(base, name, msgs).Emitted?
    ensures Convert(base, name, msgs).sample.messages[0] == Message("system", msgs[0].content, None)
      <==> msgs[0].content != ""
  {
    CleanKept(msgs, LastAssistant(msgs));
    var ks := Kept(msgs);
    if msgs[0].content != "" {
      assert 0 in ks;
      assert ks[0] == 0;
    }
  }

  /** The body of the per-character loop, up to the record it writes. */
  method ConvertCharacter(base: String, name: String, msgs: seq<RawMsg>) returns (r: Outcome)
    ensures r == Convert(base, name, msgs)
  {
    if msgs == [] {
      return Skipped;
    }
    if msgs[0].role.None? {
      return Failed;
    }
    if msgs[0].role.value != "system" {
      return Skipped;
    }
    var traceId := TraceId(base, name);
    var last := FindLastAssistant(msgs);
    var clean := CleanMessages(msgs, last);
    if |clean| <= 1 {
      return Skipped;
    }
    r := Emitted(SftSample(traceId, clean));
  }

  // ---------------------------------------------------------- per record

  /**
   * The records written for one input line, characters in dictionary order;
   * a failing character ends the line (the exception handler skips the rest).
   */
  function LineSamples(base: String, chars: seq<(String, seq<RawMsg>)>): (r: seq<SftSample>)
    ensures |r| <= |chars|
  {
    if chars == [] then []
    else
      match Convert(base, chars[0].0, chars[0].1)
      case Failed => []
      case Skipped => LineSamples(base, chars[1..])
      case Emitted(s) => [s] + LineSamples(base, chars[1..])
  }

  /** convert_to_sft for one input line. */
  method ConvertLine(base: String, chars: seq<(String, seq<RawMsg>)>) returns (out: seq<SftSample>)
    ensures out == LineSamples(base, chars)
  {
    out := [];
    var i := 0;
    while i < |chars|
      invariant 0 <= i <= |chars|
      invariant out + LineSamples(base, chars[i..]) == LineSamples(base, chars)
    {
      var r := ConvertCharacter(base, chars[i].0, chars[i].1);
      if r.Failed? {
        assert LineSamples(base, chars[i..]) == [];
        return;
      }
      if r.Emitted? {
        out := out + [r.sample];
      }
      i := i + 1;
    }
  }

  /**
   * Every record of a line has at least two messages and a trace id made of
   * the line's chapter id and the name of a character of that line.
   */
  lemma {:induction false} LineSamplesShape(base: String, chars: seq<(String, seq<RawMsg>)>)
    ensures forall k :: 0 <= k < |LineSamples(base, chars)| ==>
      |LineSamples(base, chars)[k].messages| >= 2 &&
      exists j :: 0 <= j < |chars| && LineSamples(base, chars)[k].traceId == TraceId(base, chars[j].0)
  {
    if chars != [] {
      LineSamplesShape(base, chars[1..]);
      var rest := LineSamples(base, chars[1..]);
      forall k | 0 <= k < |rest|
        ensures exists j :: 0 <= j < |chars| && rest[k].traceId == TraceId(base, chars[j].0)
      {
        var j :| 0 <= j < |chars[1..]| && rest[k].traceId == TraceId(base, chars[1..][j].0);
        assert chars[1..][j] == chars[j + 1];
      }
    }
  }
}
