// Splitting a multi-turn SFT conversation into single-turn samples: one
// sample per assistant reply, holding the system prompt and everything up
// to and including that reply.

module SingleTurn {
  import opened Basics
  import opened Text
  import opened Messages

  /** The indices of the assistant messages, in order. */
  function AssistantPositions(msgs: seq<Message>): (pos: seq<nat>)
    ensures |pos| == CountRole(msgs, "assistant")
    ensures forall k :: 0 <= k < |pos| ==> pos[k] < |msgs| && msgs[pos[k]].role == "assistant"
  {
    if msgs == [] then []
    else
      var n := |msgs| - 1;
      var prev := AssistantPositions(msgs[..n]);
      assert forall k :: 0 <= k < |prev| ==> msgs[..n][prev[k]] == msgs[prev[k]];
      prev + (if msgs[n].role == "assistant" then [n] else [])
  }

  /** The positions are increasing and every assistant message is among them. */
  lemma {:induction false} AssistantPositionsOrdered(msgs: seq<Message>)
    ensures forall a, b :: 0 <= a < b < |AssistantPositions(msgs)| ==>
      AssistantPositions(msgs)[a] < AssistantPositions(msgs)[b]
    ensures forall i :: 0 <= i < |msgs| && msgs[i].role == "assistant" ==> i in AssistantPositions(msgs)
  {
    if msgs != [] {
      var n := |msgs| - 1;
      AssistantPositionsOrdered(msgs[..n]);
      assert forall i :: 0 <= i < n ==> msgs[..n][i] == msgs[i];
    }
  }

  /** The prefix ending at the k-th assistant message holds exactly k+1 assistant messages. */
  lemma {:induction false} AssistantPositionsCounted(msgs: seq<Message>)
    ensures forall k :: 0 <= k < |AssistantPositions(msgs)| ==>
      CountRole(msgs[..AssistantPositions(msgs)[k] + 1], "assistant") == k + 1
  {
    if msgs != [] {
      var n := |msgs| - 1;
      var prev := AssistantPositions(msgs[..n]);
      AssistantPositionsCounted(msgs[..n]);
      var pos := AssistantPositions(msgs);
      forall k | 0 <= k < |pos| ensures CountRole(msgs[..pos[k] + 1], "assistant") == k + 1 {
        if k < |prev| {
          assert msgs[..n][..prev[k] + 1] == msgs[..pos[k] + 1];
        } else {
          assert msgs[..pos[k] + 1] == msgs;
        }
      }
    }
  }

  /**
   * The single-turn samples split_to_single_turns promises: none unless the
   * conversation opens with a system message, otherwise one per assistant
   * message, the k-th being the conversation up to the k-th reply.
   */
  function SingleTurns(msgs: seq<Message>): (r: seq<seq<Message>>)
    ensures msgs == [] || msgs[0].role != "system" ==> r == []
    ensures msgs != [] && msgs[0].role == "system" ==> |r| == CountRole(msgs, "assistant")
  {
    if msgs == [] || msgs[0].role != "system" then []
    else
      var pos := AssistantPositions(msgs);
      seq(|pos|, k requires 0 <= k < |pos| => msgs[..pos[k] + 1])
  }

  /** split_to_single_turns: scan the messages and cut a sample at every assistant reply. */
  method SplitToSingleTurns(msgs: seq<Message>) returns (samples: seq<seq<Message>>)
    ensures samples == SingleTurns(msgs)
  {
    if msgs == [] || msgs[0].role != "system" {
      return [];
    }
    var systemMsg := msgs[0];
    samples := [];
    ghost var pos: seq<nat> := [];
    for i := 0 to |msgs|
      invariant pos == AssistantPositions(msgs[..i])
      invariant Cut(msgs, samples, pos)
    {
      PositionsSnoc(msgs, i);
      if msgs[i].role == "assistant" {
        var single := [systemMsg] + msgs[1..i + 1];
        SystemPrefix(msgs, i + 1);
        if single[|single| - 1].role == "assistant" {
          CutSnoc(msgs, samples, pos, i);
          samples := samples + [single];
          pos := pos + [i];
        }
      }
    }
    assert msgs[..|msgs|] == msgs;
    ghost var want := SingleTurns(msgs);
    assert |want| == |pos|;
    forall k | 0 <= k < |want| ensures samples[k] == want[k] {
    }
  }

  /** The samples cut so far: the k-th is the conversation up to position `pos[k]`. */
  ghost predicate Cut(msgs: seq<Message>, samples: seq<seq<Message>>, pos: seq<nat>) {
    |samples| == |pos| &&
    forall k :: 0 <= k < |samples| ==> pos[k] < |msgs| && samples[k] == msgs[..pos[k] + 1]
  }

  lemma CutSnoc(msgs: seq<Message>, samples: seq<seq<Message>>, pos: seq<nat>, i: nat)
    requires Cut(msgs, samples, pos) && i < |msgs|
    ensures Cut(msgs, samples + [msgs[..i + 1]], pos + [i])
  {
    var s', p' := samples + [msgs[..i + 1]], pos + [i];
    forall k | 0 <= k < |s'| ensures p'[k] < |msgs| && s'[k] == msgs[..p'[k] + 1] {
      if k < |samples| {
        assert s'[k] == samples[k] && p'[k] == pos[k];
      }
    }
  }

  /** Re-assembling the system message with the rest gives the plain prefix. */
  lemma SystemPrefix(msgs: seq<Message>, j: nat)
    requires 1 <= j <= |msgs|
    ensures [msgs[0]] + msgs[1..j] == msgs[..j]
  {
  }

  /** The positions of a one-longer prefix extend those of the prefix. */
  lemma PositionsSnoc(msgs: seq<Message>, i: nat)
    requires i < |msgs|
    ensures AssistantPositions(msgs[..i + 1]) ==
      AssistantPositions(msgs[..i]) + (if msgs[i].role == "assistant" then [i] else [])
  {
    assert msgs[..i + 1][..i] == msgs[..i];
  }

  /** Every sample ends with an assistant reply, and each is a proper prefix of the next. */
  lemma SingleTurnsChain(msgs: seq<Message>)
    requires msgs != [] && msgs[0].role == "system"
    ensures forall k :: 0 <= k < |SingleTurns(msgs)| ==>
      SingleTurns(msgs)[k][|SingleTurns(msgs)[k]| - 1].role == "assistant"
    ensures forall k :: 0 <= k < |SingleTurns(msgs)| - 1 ==>
      |SingleTurns(msgs)[k]| < |SingleTurns(msgs)[k + 1]| &&
      SingleTurns(msgs)[k] == SingleTurns(msgs)[k + 1][..|SingleTurns(msgs)[k]|]
  {
    var r: seq<seq<Message>> := SingleTurns(msgs);
    forall k | 0 <= k < |r| ensures r[k][|r[k]| - 1].role == "assistant" {
      SampleEndsInReply(msgs, k);
    }
    forall k | 0 <= k < |r| - 1 ensures |r[k]| < |r[k + 1]| && r[k] == r[k + 1][..|r[k]|] {
      SamplePrefix(msgs, k);
    }
  }

  lemma SampleEndsInReply(msgs: seq<Message>, k: nat)
    requires msgs != [] && msgs[0].role == "system" && k < |SingleTurns(msgs)|
    ensures SingleTurns(msgs)[k][|SingleTurns(msgs)[k]| - 1].role == "assistant"
  {
    SampleAt(msgs, k);
    var p := AssistantPositions(msgs)[k];
    assert SingleTurns(msgs)[k][p] == msgs[p];
  }

  lemma SamplePrefix(msgs: seq<Message>, k: nat)
    requires msgs != [] && msgs[0].role == "system" && k + 1 < |SingleTurns(msgs)|
    ensures |SingleTurns(msgs)[k]| < |SingleTurns(msgs)[k + 1]|
    ensures SingleTurns(msgs)[k] == SingleTurns(msgs)[k + 1][..|SingleTurns(msgs)[k]|]
  {
    AssistantPositionsOrdered(msgs);
    SampleAt(msgs, k);
    SampleAt(msgs, k + 1);
    var pos := AssistantPositions(msgs);
    assert pos[k] < pos[k + 1];
    ShorterPrefix(msgs, pos[k] + 1, pos[k + 1] + 1);
  }

  lemma ShorterPrefix<T>(s: seq<T>, a: nat, b: nat)
    requires a < b <= |s|
    ensures |s[..a]| < |s[..b]| && s[..a] == s[..b][..|s[..a]|]
  {
  }

  /** The k-th sample is the conversation up to the k-th assistant reply. */
  lemma SampleAt(msgs: seq<Message>, k: nat)
    requires msgs != [] && msgs[0].role == "system" && k < |SingleTurns(msgs)|
    ensures k < |AssistantPositions(msgs)|
    ensures SingleTurns(msgs)[k] == msgs[..AssistantPositions(msgs)[k] + 1]
  {
  }

  // ------------------------------------------------------------ records

  /** One line of the single-turn output file. */
  datatype SingleSample = SingleSample(traceId: String, messages: seq<Message>, originalTraceId: String,
                                       turnIndex: nat, historyTurns: int)

  /** `f"{trace_id}_turn_{idx}"`. */
  function TurnTraceId(traceId: String, idx: nat): (r: String)
    ensures StartsWith(r, traceId + "_turn_")
  {
    assert (traceId + "_turn_" + NatToString(idx))[..|traceId + "_turn_"|] == traceId + "_turn_";
    traceId + "_turn_" + NatToString(idx)
  }

  /** Different turns of one conversation get different trace ids. */
  lemma TurnTraceIdInjective(traceId: String, a: nat, b: nat)
    requires TurnTraceId(traceId, a) == TurnTraceId(traceId, b)
    ensures a == b
  {
    var p := traceId + "_turn_";
    assert NatToString(a) == TurnTraceId(traceId, a)[|p|..];
    assert NatToString(b) == TurnTraceId(traceId, b)[|p|..];
    NatToStringRoundTrip(a);
    NatToStringRoundTrip(b);
  }

  /** The records process_file writes for one conversation. */
  function Records(traceId: String, msgs: seq<Message>): (r: seq<SingleSample>)
    ensures |r| == |SingleTurns(msgs)|
  {
    var singles := SingleTurns(msgs);
    seq(|singles|, idx requires 0 <= idx < |singles| =>
      SingleSample(TurnTraceId(traceId, idx), singles[idx], traceId, idx,
                   CountRole(singles[idx], "assistant") - 1))
  }

  /** process_file for one input line: split, then one record per sample. */
  method ProcessConversation(traceId: String, msgs: seq<Message>) returns (records: seq<SingleSample>)
    ensures records == Records(traceId, msgs)
  {
    var singles := SplitToSingleTurns(msgs);
    records := [];
    for idx := 0 to |singles|
      invariant |records| == idx
      invariant forall k :: 0 <= k < idx ==> records[k] == Records(traceId, msgs)[k]
    {
      var historyTurns := CountRole(singles[idx], "assistant") - 1;
      ghost var prev := records;
      records := records + [SingleSample(TurnTraceId(traceId, idx), singles[idx], traceId, idx, historyTurns)];
      forall k | 0 <= k < idx + 1 ensures records[k] == Records(traceId, msgs)[k] {
        if k < idx {
          assert records[k] == prev[k];
        }
      }
    }
  }

  /**
   * The history count of a record equals its turn index: the sample cut at
   * the k-th reply holds k earlier replies.
   */
  lemma HistoryIsTurnIndex(traceId: String, msgs: seq<Message>)
    ensures forall k :: 0 <= k < |Records(traceId, msgs)| ==>
      Records(traceId, msgs)[k].historyTurns == Records(traceId, msgs)[k].turnIndex
  {
    if msgs != [] && msgs[0].role == "system" {
      var pos := AssistantPositions(msgs);
      var r := Records(traceId, msgs);
      AssistantPositionsCounted(msgs);
      forall k | 0 <= k < |r| ensures r[k].historyTurns == r[k].turnIndex {
        assert SingleTurns(msgs)[k] == msgs[..pos[k] + 1];
      }
    }
  }
}
