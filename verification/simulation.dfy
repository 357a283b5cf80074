// The group-conversation simulation of the CoSER benchmark: one agent per
// speaking character plus the environment and the next-speaker predictor
// (NSP), the asymmetric broadcast of each reply, the next-speaker state
// machine, and the judge's score formula.

module Simulation {
  import opened Basics
  import opened Text
  import opened Messages
  import CoserUtils

  const Environment: String := "Environment"
  const Nsp: String := "NSP"
  const EndChat: String := CoserUtils.EndChat

  // ------------------------------------------------------------ agents

  /** The message `update` appends: the name is attached only when it is non-empty. */
  function Entry(role: String, content: String, name: Option<String>): (m: Message)
    ensures m.role == role && m.content == content
    ensures HasName(m) <==> name.Some? && name.value != []
    ensures m.name.Some? ==> m.name == name
  {
    Message(role, content, if name.Some? && name.value != [] then name else None)
  }

  /** One role-playing agent and the chat history it sends to its model. */
  class CharacterAgent {
    const name: String
    const systemPrompt: String
    const modelType: String
    var messages: seq<Message>

    /** The history opens with this agent's system prompt, and holds no other system message. */
    ghost predicate Valid()
      reads this
    {
      |messages| >= 1 && messages[0] == SystemMsg(systemPrompt) && CountRole(messages, "system") == 1
    }

    constructor (name: String, systemPrompt: String, modelType: String)
      ensures this.name == name && this.systemPrompt == systemPrompt && this.modelType == modelType
      ensures messages == [SystemMsg(systemPrompt)]
      ensures Valid()
    {
      this.name := name;
      this.systemPrompt := systemPrompt;
      this.modelType := modelType;
      messages := [SystemMsg(systemPrompt)];
      new;
      assert messages == [] + [SystemMsg(systemPrompt)];
      CountRoleAppend([], SystemMsg(systemPrompt), "system");
    }

    /** Appends exactly one message; a non-system message keeps the history valid. */
    method Update(role: String, content: String, name: Option<String>)
      modifies this
      ensures messages == old(messages) + [Entry(role, content, name)]
      ensures old(Valid()) && role != "system" ==> Valid()
    {
      CountRoleAppend(messages, Entry(role, content, name), "system");
      messages := messages + [Entry(role, content, name)];
    }
  }

  /** No agent object serves two names. */
  ghost predicate Distinct(agents: map<String, CharacterAgent>) {
    forall a, b :: a in agents && b in agents && a != b ==> agents[a] != agents[b]
  }

  /** The agent table: one distinct agent per name, each valid and named after its key. */
  ghost predicate AgentsValid(agents: map<String, CharacterAgent>)
    reads agents.Values
  {
    Distinct(agents) && forall k :: k in agents ==> agents[k].Valid() && agents[k].name == k
  }

  // --------------------------------------------------------- broadcast

  /** What the other agents are shown of a reply: long role thinking normalised,
    * system thinking removed, the speaker's name prefixed, inner thoughts removed. */
  function ForOthers(response: String, actor: String): String {
    CoserUtils.RemoveInnerThoughts(
      CoserUtils.AddSpeakerName(
        CoserUtils.RemoveSystemThinkingOnce(CoserUtils.RemoveLongRoleThinking(response)), actor))
  }

  /** The message agent `k` receives when `actor` replies `response`, of which
    * the other agents see `others`. */
  function Heard(k: String, actor: String, response: String, others: String): (m: Message)
    ensures m.role == (if k == actor then "assistant" else "user")
    ensures m.content == (if k == actor then response else others)
    ensures actor != [] ==> m.name == Some(actor)
  {
    if k == actor then Entry("assistant", response, Some(actor))
    else Entry("user", others, Some(actor))
  }

  /** Agent `k` appends one message; every other agent is left as it was. */
  method Deliver(agents: map<String, CharacterAgent>, k: String, role: String, content: String,
                 name: Option<String>)
    requires AgentsValid(agents) && k in agents && role != "system"
    modifies agents[k]
    ensures AgentsValid(agents)
    ensures agents[k].messages == old(agents[k].messages) + [Entry(role, content, name)]
    ensures forall j :: j in agents && j != k ==> agents[j].messages == old(agents[j].messages)
  {
    agents[k].Update(role, content, name);
    forall j | j in agents && j != k
      ensures agents[j] != agents[k]
    {
    }
  }

  /** Agent `k` of `todo` stores the message `Heard` gives it; every other agent is left as it was. */
  method DeliverHeard(agents: map<String, CharacterAgent>, k: String, actor: String, response: String,
                      others: String, ghost before: map<String, seq<Message>>, ghost todo: set<String>)
    requires AgentsValid(agents) && k in todo && todo <= agents.Keys
    requires Delivered(agents, before, todo, actor, response, others)
    modifies agents[k]
    ensures AgentsValid(agents)
    ensures Delivered(agents, before, todo - {k}, actor, response, others)
  {
    var m := Heard(k, actor, response, others);
    assert m.role != "system" by {
      assert m.role[0] != 's';
    }
    Deliver(agents, k, m.role, m.content, Some(actor));
    forall j | j in agents
      ensures j in before &&
        agents[j].messages == before[j] + (if j in todo - {k} then [] else [Heard(j, actor, response, others)])
    {
      if j != k {
        assert old(agents[j].messages) == before[j] + (if j in todo then [] else [Heard(j, actor, response, others)]);
      }
    }
  }

  /** Every agent outside `todo` holds its earlier history plus what `Heard` gives it; the
    * agents in `todo` still hold their earlier history. */
  ghost predicate Delivered(agents: map<String, CharacterAgent>, before: map<String, seq<Message>>,
                            todo: set<String>, actor: String, response: String, others: String)
    reads agents.Values
  {
    forall k :: k in agents ==>
      k in before && agents[k].messages == before[k] + (if k in todo then [] else [Heard(k, actor, response, others)])
  }

  /** Every agent receives the reply once: the speaker verbatim as assistant,
    * every other agent (the NSP included) the cleaned copy as user. */
  method Broadcast(agents: map<String, CharacterAgent>, actor: String, response: String, others: String)
    requires AgentsValid(agents)
    modifies agents.Values
    ensures forall k :: k in agents ==>
      agents[k].messages == old(agents[k].messages) + [Heard(k, actor, response, others)]
    ensures AgentsValid(agents)
  {
    ghost var before := map k | k in agents :: agents[k].messages;
    var todo := agents.Keys;
    while todo != {}
      invariant todo <= agents.Keys
      invariant AgentsValid(agents)
      invariant Delivered(agents, before, todo, actor, response, others)
      decreases |todo|
    {
      var k :| k in todo;
      DeliverHeard(agents, k, actor, response, others, before, todo);
      RemoveOne(todo, k);
      todo := todo - {k};
    }
  }

  // ------------------------------------------------------ next speaker

  const RandomExcluded: set<String> := {Environment, "Narrator", "narrator"}

  /** The characters random mode may pick: not the current speaker, preferably
    * not the environment or a narrator either. */
  function RandomCandidates(speaking: seq<String>, current: String): (r: seq<String>)
    ensures current !in r
    ensures forall c :: c in r ==> c in speaking
    ensures r == [] <==> forall c :: c in speaking ==> c == current
    ensures (exists c :: c in speaking && c != current && c !in RandomExcluded) ==>
      forall c :: c in r ==> c !in RandomExcluded
  {
    var preferred := Except(speaking, RandomExcluded + {current});
    if preferred != [] then preferred else Except(speaking, {current})
  }

  /** Random mode: a pick from the candidates, or the end of the chat when there are none. */
  method NextSpeakerRandom(speaking: seq<String>, current: String) returns (next: String)
    ensures RandomCandidates(speaking, current) != [] ==> next in RandomCandidates(speaking, current)
    ensures RandomCandidates(speaking, current) == [] ==> next == EndChat
    ensures current != EndChat ==> next != current
  {
    var cands := RandomCandidates(speaking, current);
    if cands != [] {
      assert cands[0] in cands;
      next :| next in cands;
    } else {
      next := EndChat;
    }
  }

  /** The fallback pool of model mode: the major characters and the environment,
    * else every speaking character, always without the current speaker. */
  function FallbackCandidates(speaking: seq<String>, major: seq<String>, current: String): (r: set<String>)
    ensures current !in r
    ensures forall c :: c in r ==> c in major || c == Environment || c in speaking
    ensures r == {} <==>
      current == Environment && (forall c :: c in major ==> c == current) &&
      (forall c :: c in speaking ==> c == current)
  {
    SetMinusEmpty(major + [Environment], current);
    SetMinusEmpty(speaking, current);
    assert Environment in major + [Environment];
    assert forall c :: c in major ==> c in major + [Environment];
    var preferred := (set c | c in major + [Environment]) - {current};
    if preferred != {} then preferred else (set c | c in speaking) - {current}
  }

  /** Model mode: an "<END CHAT>" prediction is honoured from round 5 on; a valid
    * prediction other than the current speaker is adopted; anything else falls back. */
  method ResolveModelNsp(parsed: String, speaking: seq<String>, major: seq<String>,
                         current: String, round: nat) returns (next: String)
    ensures parsed == EndChat && round >= 5 ==> next == EndChat
    ensures !(parsed == EndChat && round >= 5) && parsed in speaking && parsed != current ==>
      next == parsed
    ensures !(parsed == EndChat && round >= 5) && !(parsed in speaking && parsed != current) ==>
      if FallbackCandidates(speaking, major, current) == {} then next == EndChat
      else next in FallbackCandidates(speaking, major, current)
    ensures current != EndChat ==> next != current
  {
    if parsed == EndChat && round >= 5 {
      next := EndChat;
    } else if parsed in speaking && parsed != current {
      next := parsed;
    } else {
      var cands := FallbackCandidates(speaking, major, current);
      if cands != {} {
        var some :| some in cands;
        next := some;
      } else {
        next := EndChat;
      }
    }
  }

  // ------------------------------------------------------- the rounds

  datatype NspMode = RandomMode | ModelMode

  datatype DialogueEntry = DialogueEntry(role: String, content: String, round: nat)

  /** What agent `k` is sent for one transcript entry: a speaker's reply reaches every
    * agent as `Heard`; the NSP's pick is stored by the NSP alone. */
  function Appended(k: String, e: DialogueEntry): (r: seq<Message>)
    ensures |r| <= 1
    ensures e.role != Nsp ==> r == [Heard(k, e.role, e.content, ForOthers(e.content, e.role))]
    ensures e.role == Nsp ==> (r != [] <==> k == Nsp)
  {
    if e.role == Nsp then (if k == Nsp then [Entry("assistant", e.content, None)] else [])
    else [Heard(k, e.role, e.content, ForOthers(e.content, e.role))]
  }

  /** Everything agent `k` is sent over a transcript, in order. */
  function HistoryOf(k: String, dialogue: seq<DialogueEntry>): seq<Message> {
    if dialogue == [] then []
    else HistoryOf(k, dialogue[..|dialogue| - 1]) + Appended(k, dialogue[|dialogue| - 1])
  }

  /** A round adds what its two entries send. */
  lemma HistorySnoc2(k: String, d: seq<DialogueEntry>, a: DialogueEntry, b: DialogueEntry)
    ensures HistoryOf(k, d + [a, b]) == HistoryOf(k, d) + Appended(k, a) + Appended(k, b)
  {
    var d1 := d + [a];
    var d2 := d1 + [b];
    assert d + [a, b] == d2;
    assert d2[..|d2| - 1] == d1 && d2[|d2| - 1] == b;
    assert d1[..|d1| - 1] == d && d1[|d1| - 1] == a;
    var h, x, y := HistoryOf(k, d), Appended(k, a), Appended(k, b);
    assert HistoryOf(k, d1) == h + x;
    assert HistoryOf(k, d2) == (h + x) + y;
  }

  /** `speaking_characters` with the environment appended when it is missing. */
  function WithEnvironment(speaking: seq<String>): (r: seq<String>)
    ensures |r| >= 1 && Environment in r
    ensures forall c :: c in r <==> c in speaking || c == Environment
    ensures Environment in speaking ==> r == speaking
  {
    if Environment in speaking then speaking else speaking + [Environment]
  }

  /** The reply a speaker's turn records: the environment's loses its system thinking. */
  function Shown(actor: String, response: String): String {
    if actor == Environment then CoserUtils.RemoveSystemThinkingOnce(response) else response
  }

  /** One actor's turn: the dialogue entry it records and the speaker after it.
    * `reply(round, actor)` is what the actor's model (or the ground truth) answers. */
  method Act(agents: map<String, CharacterAgent>, actor: String, current: String,
             speaking: seq<String>, major: seq<String>, mode: NspMode, round: nat,
             reply: (nat, String) -> String)
    returns (entry: DialogueEntry, next: String)
    requires AgentsValid(agents) && actor in agents
    modifies agents.Values
    ensures AgentsValid(agents)
    ensures forall k :: k in agents ==> agents[k].messages == old(agents[k].messages) + Appended(k, entry)
    ensures entry.role == actor && entry.round == round
    ensures actor != Nsp ==> entry.content == Shown(actor, reply(round, actor)) && next == current
    ensures actor == Nsp ==>
      (entry.content in speaking || entry.content == EndChat || entry.content == CoserUtils.RandomPick)
    ensures actor == Nsp && mode == RandomMode ==> entry.content == next
    ensures actor == Nsp && current != EndChat ==> next != current
    ensures actor == Nsp ==> next in speaking || next in major || next == Environment || next == EndChat
  {
    if actor == Nsp {
      var content: String;
      if mode == RandomMode {
        next := NextSpeakerRandom(speaking, current);
        content := next;
      } else {
        content := CoserUtils.ParseNspResponse(reply(round, Nsp), speaking, CoserUtils.DefaultNspMaxLength);
        next := ResolveModelNsp(content, speaking, major, current, round);
      }
      Deliver(agents, Nsp, "assistant", content, None);
      entry := DialogueEntry(Nsp, content, round);
    } else {
      var response := Shown(actor, reply(round, actor));
      entry := DialogueEntry(actor, response, round);
      Broadcast(agents, actor, response, ForOthers(response, actor));
      next := current;
    }
  }

  /** One round: the current speaker acts, then the NSP names the next speaker. */
  method PlayRound(agents: map<String, CharacterAgent>, current: String,
                   speaking: seq<String>, major: seq<String>, mode: NspMode, round: nat,
                   reply: (nat, String) -> String,
                   ghost past: seq<DialogueEntry>, ghost base: map<String, seq<Message>>)
    returns (first: DialogueEntry, second: DialogueEntry, next: String)
    requires AgentsValid(agents) && current in agents && Nsp in agents && current != EndChat
    requires Histories(agents, base, past)
    modifies agents.Values
    ensures AgentsValid(agents)
    ensures Histories(agents, base, past + [first, second])
    ensures first.role == current && second.role == Nsp && first.round == round && second.round == round
    ensures current != Nsp ==> first.content == Shown(current, reply(round, current))
    ensures current != Nsp ==> next != current
    ensures next in speaking || next in major || next == Environment || next == EndChat
  {
    var afterFirst;
    first, afterFirst := Act(agents, current, current, speaking, major, mode, round, reply);
    label played:
    second, next := Act(agents, Nsp, afterFirst, speaking, major, mode, round, reply);
    forall k | k in agents
      ensures agents[k].messages == base[k] + HistoryOf(k, past + [first, second])
    {
      assert old(agents[k].messages) == base[k] + HistoryOf(k, past);
      assert old@played(agents[k].messages) == old(agents[k].messages) + Appended(k, first);
      HistorySnoc2(k, past, first, second);
      Regroup(base[k], HistoryOf(k, past), Appended(k, first), Appended(k, second));
    }
  }

  /** Every agent's history is its starting history followed by what the transcript sent it. */
  ghost predicate Histories(agents: map<String, CharacterAgent>, base: map<String, seq<Message>>,
                            dialogue: seq<DialogueEntry>)
    reads agents.Values
  {
    agents.Keys <= base.Keys &&
    forall k {:trigger HistoryOf(k, dialogue)} :: k in agents ==> agents[k].messages == base[k] + HistoryOf(k, dialogue)
  }

  lemma Regroup<T>(b: seq<T>, h: seq<T>, x: seq<T>, y: seq<T>)
    ensures (b + h) + x + y == b + (h + x + y)
  {
  }

  /** One character's agent, its history opened with the conversation-start line. */
  method NewAgent(name: String, systemPrompt: String, modelType: String) returns (a: CharacterAgent)
    ensures fresh(a) && a.Valid() && a.name == name
    ensures a.messages == [SystemMsg(systemPrompt), UserMsg(CoserUtils.ConversationStart)]
  {
    a := new CharacterAgent(name, systemPrompt, modelType);
    a.Update("user", CoserUtils.ConversationStart, None);
  }

  /** Builds one agent per name, each holding its system prompt and the opening user line. */
  method CreateAgents(names: seq<String>, prompt: String -> String, modelType: String -> String)
    returns (agents: map<String, CharacterAgent>)
    ensures forall k :: k in agents ==> fresh(agents[k])
    ensures AgentsValid(agents)
    ensures forall k :: k in agents <==> k in names
    ensures forall k :: k in agents ==>
      agents[k].messages == [SystemMsg(prompt(k)), UserMsg(CoserUtils.ConversationStart)]
  {
    agents := map[];
    var i := 0;
    while i < |names|
      invariant 0 <= i <= |names|
      invariant forall k :: k in agents ==> fresh(agents[k])
      invariant AgentsValid(agents)
      invariant forall k :: k in agents <==> k in names[..i]
      invariant forall k :: k in agents ==>
        agents[k].messages == [SystemMsg(prompt(k)), UserMsg(CoserUtils.ConversationStart)]
    {
      var a := NewAgent(names[i], prompt(names[i]), modelType(names[i]));
      ghost var before := agents;
      assert a !in agents.Values;
      agents := agents[names[i] := a];
      forall k | k in agents
        ensures agents[k].messages == [SystemMsg(prompt(k)), UserMsg(CoserUtils.ConversationStart)]
        ensures agents[k].Valid() && agents[k].name == k
      {
        if k != names[i] {
          assert agents[k] == before[k];
        }
      }
      assert Distinct(agents) by {
        forall x, y | x in agents && y in agents && x != y
          ensures agents[x] != agents[y]
        {
          if x != names[i] && y != names[i] {
            assert agents[x] == before[x] && agents[y] == before[y];
          }
        }
      }
      assert names[..i + 1] == names[..i] + [names[i]];
      i := i + 1;
    }
    assert names[..i] == names;
  }

  /** Round `r` of a transcript: the speaker's entry, then the NSP's, both tagged
    * with `r`; a speaker's entry holds its reply as shown. */
  ghost predicate RoundRecorded(dialogue: seq<DialogueEntry>, r: nat, reply: (nat, String) -> String)
    requires 2 * r + 1 < |dialogue|
  {
    var (a, b) := (dialogue[2 * r], dialogue[2 * r + 1]);
    a.round == r && b.round == r && b.role == Nsp &&
    (a.role != Nsp ==> a.content == Shown(a.role, reply(r, a.role)))
  }

  /** Consecutive rounds have different speakers (unless the first was the NSP itself). */
  ghost predicate SpeakerChanges(dialogue: seq<DialogueEntry>, r: nat)
    requires 2 * r + 2 < |dialogue|
  {
    dialogue[2 * r].role != Nsp ==> dialogue[2 * r + 2].role != dialogue[2 * r].role
  }

  /** A transcript of `rounds` rounds opened by `opener`, whose next speaker is `current`:
    * every round recorded, the speaker changing from round to round. */
  ghost predicate Transcript(dialogue: seq<DialogueEntry>, rounds: nat, current: String, opener: String,
                             reply: (nat, String) -> String)
  {
    |dialogue| == 2 * rounds &&
    (forall r: nat :: r < rounds ==> RoundRecorded(dialogue, r, reply)) &&
    (forall r: nat :: r + 1 < rounds ==> SpeakerChanges(dialogue, r)) &&
    (rounds > 0 && dialogue[2 * rounds - 2].role != Nsp ==> current != dialogue[2 * rounds - 2].role) &&
    (rounds > 0 ==> dialogue[0].role == opener) &&
    (rounds == 0 ==> current == opener)
  }

  /** Appending a well-formed round keeps the transcript well formed. */
  lemma ExtendTranscript(prev: seq<DialogueEntry>, first: DialogueEntry, second: DialogueEntry,
                         rounds: nat, current: String, next: String, opener: String,
                         reply: (nat, String) -> String)
    requires Transcript(prev, rounds, current, opener, reply)
    requires first.role == current && second.role == Nsp && first.round == rounds && second.round == rounds
    requires current != Nsp ==> first.content == Shown(current, reply(rounds, current))
    requires current != Nsp ==> next != current
    ensures Transcript(prev + [first, second], rounds + 1, next, opener, reply)
  {
    var d := prev + [first, second];
    forall r: nat | r < rounds + 1
      ensures RoundRecorded(d, r, reply)
    {
      if r < rounds {
        assert d[2 * r] == prev[2 * r] && d[2 * r + 1] == prev[2 * r + 1];
        assert RoundRecorded(prev, r, reply);
      }
    }
    forall r: nat | r + 1 < rounds + 1
      ensures SpeakerChanges(d, r)
    {
      if r + 1 < rounds {
        assert d[2 * r] == prev[2 * r] && d[2 * r + 2] == prev[2 * r + 2];
        assert SpeakerChanges(prev, r);
      }
    }
    if rounds > 0 {
      assert d[0] == prev[0];
    }
  }

  /** One more round appended to a well-formed transcript. */
  method NextRound(agents: map<String, CharacterAgent>, current: String,
                   speaking: seq<String>, major: seq<String>, mode: NspMode, rounds: nat,
                   reply: (nat, String) -> String,
                   dialogue: seq<DialogueEntry>, ghost base: map<String, seq<Message>>)
    returns (extended: seq<DialogueEntry>, next: String)
    requires AgentsValid(agents) && current in agents && Nsp in agents && current != EndChat
    requires |speaking| >= 1 && Environment in speaking
    requires Histories(agents, base, dialogue) && Transcript(dialogue, rounds, current, speaking[0], reply)
    modifies agents.Values
    ensures AgentsValid(agents)
    ensures Histories(agents, base, extended) && Transcript(extended, rounds + 1, next, speaking[0], reply)
    ensures next in speaking || next in major || next == EndChat
  {
    var first, second;
    first, second, next := PlayRound(agents, current, speaking, major, mode, rounds, reply, dialogue, base);
    ExtendTranscript(dialogue, first, second, rounds, current, next, speaking[0], reply);
    extended := dialogue + [first, second];
  }

  /** The rounds of run_inference_single: up to `maxRounds` rounds, each the current
    * speaker's turn followed by the NSP's; it stops early at "<END CHAT>".
    * `failed` is the lookup of a speaker that has no agent, which raises. */
  method PlayRounds(agents: map<String, CharacterAgent>, speaking: seq<String>, major: seq<String>,
                    mode: NspMode, maxRounds: nat, reply: (nat, String) -> String,
                    ghost base: map<String, seq<Message>>)
    returns (dialogue: seq<DialogueEntry>, rounds: nat, failed: bool)
    requires |speaking| >= 1 && Environment in speaking && AgentsValid(agents) && Nsp in agents
    requires forall c :: c in speaking ==> c in agents
    requires Histories(agents, base, [])
    modifies agents.Values
    ensures AgentsValid(agents)
    ensures Histories(agents, base, dialogue)
    ensures rounds <= maxRounds && |dialogue| == 2 * rounds
    ensures forall r: nat :: r < rounds ==> RoundRecorded(dialogue, r, reply)
    ensures forall r: nat :: r + 1 < rounds ==> SpeakerChanges(dialogue, r)
    ensures rounds > 0 ==> dialogue[0].role == speaking[0]
    ensures failed ==> exists c :: c in major && c !in agents
  {
    dialogue := [];
    rounds := 0;
    var current := speaking[0];
    while rounds < maxRounds && current != EndChat && current in agents
      invariant rounds <= maxRounds
      invariant AgentsValid(agents)
      invariant Histories(agents, base, dialogue)
      invariant current in speaking || current in major || current == EndChat
      invariant Transcript(dialogue, rounds, current, speaking[0], reply)
    {
      dialogue, current := NextRound(agents, current, speaking, major, mode, rounds, reply, dialogue, base);
      rounds := rounds + 1;
    }
    // the loop stops early at "<END CHAT>", and raises on a speaker without an agent
    failed := rounds < maxRounds && current != EndChat;
    if failed {
      assert current in major;
    }
  }

  /** run_inference_single: one agent per speaking character (the environment
    * added when missing) and one for the NSP, then the rounds. */
  method Simulate(speaking0: seq<String>, major: seq<String>, mode: NspMode, maxRounds: nat,
                  prompt: String -> String, modelType: String -> String,
                  reply: (nat, String) -> String)
    returns (dialogue: seq<DialogueEntry>, rounds: nat, failed: bool,
             agents: map<String, CharacterAgent>)
    ensures forall k :: k in agents <==> k in WithEnvironment(speaking0) || k == Nsp
    ensures AgentsValid(agents)
    ensures forall k :: k in agents ==>
      agents[k].messages == [SystemMsg(prompt(k)), UserMsg(CoserUtils.ConversationStart)] + HistoryOf(k, dialogue)
    ensures rounds <= maxRounds && |dialogue| == 2 * rounds
    ensures forall r: nat :: r < rounds ==> RoundRecorded(dialogue, r, reply)
    ensures forall r: nat :: r + 1 < rounds ==> SpeakerChanges(dialogue, r)
    ensures rounds > 0 ==> dialogue[0].role == WithEnvironment(speaking0)[0]
    ensures (forall c :: c in major ==> c in WithEnvironment(speaking0)) ==> !failed
  {
    var speaking := WithEnvironment(speaking0);
    agents := CreateAgents(speaking + [Nsp], prompt, modelType);
    ghost var base := map k | k in agents :: [SystemMsg(prompt(k)), UserMsg(CoserUtils.ConversationStart)];
    assert Histories(agents, base, []) by {
      forall k | k in agents
        ensures agents[k].messages == base[k] + HistoryOf(k, [])
      {
        assert base[k] + [] == base[k];
      }
    }
    dialogue, rounds, failed := PlayRounds(agents, speaking, major, mode, maxRounds, reply, base);
  }

  // ---------------------------------------------------------- scoring

  /** The judge's score for one dimension: 100 minus five points per unit of
    * severity beyond the length allowance of 0.3 per actor round, clamped to [0, 100]. */
  function JudgeScore(totalSeverity: real, actorRounds: int): (score: real)
    ensures 0.0 <= score <= 100.0
    ensures totalSeverity <= 0.3 * actorRounds as real ==> score == 100.0
    ensures totalSeverity >= 0.3 * actorRounds as real + 20.0 ==> score == 0.0
  {
    var raw := 100.0 - (totalSeverity - 0.3 * actorRounds as real) * 5.0;
    var capped := if raw < 100.0 then raw else 100.0;
    if capped > 0.0 then capped else 0.0
  }

  lemma JudgeScoreMonotone(s1: real, s2: real, rounds: int)
    requires s1 <= s2
    ensures JudgeScore(s2, rounds) <= JudgeScore(s1, rounds)
  {
  }

  lemma JudgeScoreRounds(severity: real, r1: int, r2: int)
    requires r1 <= r2
    ensures JudgeScore(severity, r1) <= JudgeScore(severity, r2)
  {
  }

  /** The severity one flaw contributes; `None` when the flaw is not an object,
    * on which `.get` raises. A missing or non-numeric severity contributes nothing;
    * a boolean counts as the integer it is in Python. */
  function FlawSeverity(flaw: Json): (r: Option<real>)
    ensures flaw.JObj? <==> r.Some?
  {
    if !flaw.JObj? then None
    else match Lookup(flaw.members, "severity")
      case Some(JNum(n)) => Some(n)
      case Some(JBool(b)) => Some(if b then 1.0 else 0.0)
      case _ => Some(0.0)
  }

  function TotalSeverity(flaws: seq<Json>): (r: Option<real>)
    ensures r.Some? <==> forall i :: 0 <= i < |flaws| ==> flaws[i].JObj?
  {
    if flaws == [] then Some(0.0)
    else match (FlawSeverity(flaws[0]), TotalSeverity(flaws[1..]))
      case (Some(a), Some(b)) => Some(a + b)
      case _ => None
  }

  datatype EvalOutcome =
    | Scored(result: seq<(String, Json)>, score: real)  // the dimension's object; its "score" becomes `score`
    | Default                                            // {"flaws": [], "score": 50}
    | Raises                                             // an error other than a JSON decoding error

  function OutcomeScore(o: EvalOutcome): Option<real> {
    match o
    case Scored(_, s) => Some(s)
    case Default => Some(50.0)
    case Raises => None
  }

  /** The span `\{[\s\S]*\}` matches: from the first '{' to the last '}' after it. */
  function BraceSpan(s: String): (r: Option<String>)
    ensures r.Some? ==> |r.value| >= 2 && r.value[0] == '{' && r.value[|r.value| - 1] == '}'
    ensures r.Some? ==> Contains(s, r.value)
    ensures r.None? <==> forall i, j :: 0 <= i < j < |s| && s[i] == '{' ==> s[j] != '}'
  {
    match Find(s, "{")
    case None =>
      assert forall i :: 0 <= i < |s| && s[i] == '{' ==> OccursAt(s, "{", i);
      None
    case Some(i) =>
      match LastIndexOf(s, '}')
      case None => None
      case Some(j) =>
        assert forall k :: 0 <= k < i && s[k] == '{' ==> OccursAt(s, "{", k);
        assert OccursAt(s, "{", i);
        if j > i then
          assert OccursAt(s, s[i..j + 1], i);
          Some(s[i..j + 1])
        else None
  }

  /** What `for f in flaws` sums: the severities of an array of flaw objects; iterating
    * an empty object or an empty string sums nothing; any other value raises (`None`). */
  function IterSeverity(flaws: Json): (r: Option<real>)
    ensures r.Some? <==> (flaws.JArr? && forall i :: 0 <= i < |flaws.items| ==> flaws.items[i].JObj?) ||
                         flaws == JObj([]) || flaws == JStr([])
    ensures flaws == JObj([]) || flaws == JStr([]) || flaws == JArr([]) ==> r == Some(0.0)
  {
    match flaws
    case JArr(items) => TotalSeverity(items)
    case JObj(ms) => if ms == [] then Some(0.0) else None
    case JStr(t) => if t == [] then Some(0.0) else None
    case _ => None
  }

  /** `result.get('flaws', [])` summed: a missing list counts as empty. */
  function FlawsTotal(res: seq<(String, Json)>): (r: Option<real>)
    ensures Lookup(res, "flaws").None? ==> r == Some(0.0)
    ensures Lookup(res, "flaws").Some? ==> r == IterSeverity(Lookup(res, "flaws").value)
  {
    match Lookup(res, "flaws")
    case None => Some(0.0)
    case Some(f) => IterSeverity(f)
  }

  /** _parse_eval_response: the score of `dimension` from the judge's reply,
    * decoded with `parse` (json.loads; `None` is a decoding error). */
  function ParseEvalResponse(response: String, dimension: String, actorRounds: int,
                             parse: String -> Option<Json>): (o: EvalOutcome)
    ensures o.Scored? ==> 0.0 <= o.score <= 100.0
    ensures o.Scored? ==> FlawsTotal(o.result).Some? && o.score == JudgeScore(FlawsTotal(o.result).value, actorRounds)
    ensures BraceSpan(response).None? ==> o == Default
    ensures BraceSpan(response).Some? && parse(BraceSpan(response).value).None? ==> o == Default
    ensures forall ms :: BraceSpan(response).Some? && parse(BraceSpan(response).value) == Some(JObj(ms)) ==>
      (Lookup(ms, dimension).None? ==> o == Default) &&
      (Lookup(ms, dimension).Some? && !Lookup(ms, dimension).value.JObj? ==> o == Raises)
    ensures forall ms, res ::
      (BraceSpan(response).Some? && parse(BraceSpan(response).value) == Some(JObj(ms)) &&
       Lookup(ms, dimension) == Some(JObj(res))) ==>
        (o == Raises <==> FlawsTotal(res).None?) && (o.Scored? ==> o.result == res)
  {
    match BraceSpan(response)
    case None => Default
    case Some(span) =>
      match parse(span)
      case None => Default
      case Some(JObj(ms)) =>
        (match Lookup(ms, dimension)
         case None => Default
         case Some(JObj(res)) =>
           (match FlawsTotal(res)
            case Some(total) => Scored(res, JudgeScore(total, actorRounds))
            case None => Raises)
         case Some(_) => Raises)
      case Some(JArr(items)) => if JStr(dimension) in items then Raises else Default
      case Some(JStr(t)) => if Contains(t, dimension) then Raises else Default
      case Some(_) => Raises
  }

  /** A judge that reports no flaws for the dimension awards full marks. */
  lemma NoFlawsFullMarks(response: String, dimension: String, actorRounds: nat,
                         parse: String -> Option<Json>, res: seq<(String, Json)>)
    requires BraceSpan(response).Some?
    requires parse(BraceSpan(response).value) == Some(JObj([(dimension, JObj(res))]))
    requires Lookup(res, "flaws") == None || Lookup(res, "flaws") == Some(JArr([])) ||
             Lookup(res, "flaws") == Some(JObj([])) || Lookup(res, "flaws") == Some(JStr([]))
    ensures ParseEvalResponse(response, dimension, actorRounds, parse) == Scored(res, 100.0)
  {
    assert Lookup([(dimension, JObj(res))], dimension) == Some(JObj(res));
  }

  /** One flaw of severity `v` costs what the formula charges for `v`. */
  lemma OneFlawScore(response: String, dimension: String, actorRounds: nat,
                     parse: String -> Option<Json>, v: real)
    requires BraceSpan(response).Some?
    requires parse(BraceSpan(response).value) ==
      Some(JObj([(dimension, JObj([("flaws", JArr([JObj([("severity", JNum(v))])]))]))]))
    ensures ParseEvalResponse(response, dimension, actorRounds, parse) ==
      Scored([("flaws", JArr([JObj([("severity", JNum(v))])]))], JudgeScore(v, actorRounds))
  {
    var flaw := JObj([("severity", JNum(v))]);
    var res := [("flaws", JArr([flaw]))];
    assert Lookup([(dimension, JObj(res))], dimension) == Some(JObj(res));
    assert Lookup(res, "flaws") == Some(JArr([flaw]));
    assert FlawSeverity(flaw) == Some(v);
    assert TotalSeverity([flaw]) == Some(v + 0.0) by {
      assert [flaw][1..] == [];
    }
  }

  // -------------------------------------------------------- sample ids

  /** get_sample_id: `book-i_p-i_c`, with "unknown", the index and 0 for missing fields. */
  function GetSampleId(book: Option<String>, iP: Option<String>, iC: Option<String>, index: nat): (id: String)
  {
    (if book.Some? then book.value else "unknown") + "-" +
    (if iP.Some? then iP.value else NatToString(index)) + "-" +
    (if iC.Some? then iC.value else "0")
  }

  lemma NoDashInNumber(n: nat)
    ensures '-' !in NatToString(n)
  {
    var d := NatToString(n);
    assert forall k :: 0 <= k < |d| ==> IsDigit(d[k]);
  }

  /** The three fields come back out of an id by splitting at its last two dashes. */
  lemma SampleIdFields(book: Option<String>, iP: Option<String>, iC: Option<String>, index: nat)
    requires iP.Some? ==> '-' !in iP.value
    requires iC.Some? ==> '-' !in iC.value
    ensures RSplit(GetSampleId(book, iP, iC, index), '-', 2) ==
      [if book.Some? then book.value else "unknown",
       if iP.Some? then iP.value else NatToString(index),
       if iC.Some? then iC.value else "0"]
  {
    var b := if book.Some? then book.value else "unknown";
    var p := if iP.Some? then iP.value else NatToString(index);
    var c := if iC.Some? then iC.value else "0";
    NoDashInNumber(index);
    assert '-' !in c by {
      if iC.None? { assert c == ['0']; }
    }
    assert GetSampleId(book, iP, iC, index) == b + "-" + p + "-" + c;
    LastTwoDashes(b, p, c);
  }

  /** Splitting `b-p-c` at its last two dashes, when `p` and `c` hold no dash. */
  lemma LastTwoDashes(b: String, p: String, c: String)
    requires '-' !in p && '-' !in c
    ensures RSplit(b + "-" + p + "-" + c, '-', 2) == [b, p, c]
  {
    assert b + "-" + p + "-" + c == (b + ['-'] + p) + ['-'] + c;
    RSplitLast(b + ['-'] + p, c, '-', 2);
    RSplitLast(b, p, '-', 1);
  }

}
