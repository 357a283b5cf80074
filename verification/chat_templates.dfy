// Chat templates of the evaluated models: template-name aliases, stop tokens,
// the conversion of role-play markup between the HER tags and the CoSER
// brackets, and the prompt renderings (the ChatML and Llama 3 templates and
// the formatter used when no template engine is installed).

module ChatTemplates {
  import opened Basics
  import opened Text
  import opened Messages
  import HerTags

  // ------------------------------------------------------------ template names

  const QwenAliases: set<String> := {"her", "her_with_systhink", "her_without_systhink", "her_nosys", "qwen3", "chatml"}
  const LlamaAliases: set<String> := {"coser", "llama", "llama3.1"}
  const ApiAliases: set<String> := {"api", "default", "openai"}
  /** The names with a template of their own. */
  const TemplateNames: set<String> := {"qwen", "llama3"}

  /** get_template_name: the alias table, then the template names, on the lower-cased name. */
  function TemplateName(name: String): (r: Option<String>)
    ensures r.Some? ==> r.value in TemplateNames
    ensures Lower(name) in QwenAliases ==> r == Some("qwen")
    ensures Lower(name) in LlamaAliases ==> r == Some("llama3")
    ensures Lower(name) in ApiAliases ==> r.None?
    ensures r.Some? <==> Lower(name) in QwenAliases + LlamaAliases + TemplateNames
  {
    var n := Lower(name);
    if n in QwenAliases then Some("qwen")
    else if n in LlamaAliases then Some("llama3")
    else if n in ApiAliases then None
    else if n in TemplateNames then Some(n)
    else None
  }

  lemma LowerIdempotent(s: String)
    ensures Lower(Lower(s)) == Lower(s)
  {
    assert forall i :: 0 <= i < |s| ==> LowerChar(LowerChar(s[i])) == LowerChar(s[i]);
  }

  /** Template names are case-insensitive. */
  lemma TemplateNameCaseInsensitive(name: String)
    ensures TemplateName(Lower(name)) == TemplateName(name)
  {
    LowerIdempotent(name);
  }

  const QwenStopTokens: seq<String> := ["<|im_end|>", "<|endoftext|>"]
  const Llama3StopTokens: seq<String> := ["<|eot_id|>", "<|end_of_text|>"]

  /** get_stop_tokens: the resolved template's stop tokens; none for the API mode or an unknown name. */
  function StopTokens(name: String): (r: seq<String>)
    ensures r == [] <==> TemplateName(name).None?
    ensures TemplateName(name) == Some("qwen") ==> r == QwenStopTokens
    ensures TemplateName(name) == Some("llama3") ==> r == Llama3StopTokens
  {
    match TemplateName(name)
    case None => []
    case Some(t) => if t == "qwen" then QwenStopTokens else Llama3StopTokens
  }

  // --------------------------------------------------------- role-play markup

  datatype RoleplayFormat = Her | Coser

  /** The thinking and action markers of a format, in the order start, end, start, end. */
  function ThinkingStart(f: RoleplayFormat): String { if f == Her then "<role_thinking>" else "[" }
  function ThinkingEnd(f: RoleplayFormat): String { if f == Her then "</role_thinking>" else "]" }
  function ActionStart(f: RoleplayFormat): String { if f == Her then "<role_action>" else "(" }
  function ActionEnd(f: RoleplayFormat): String { if f == Her then "</role_action>" else ")" }

  /** The markup of a format name; an unknown name is read as her. */
  function FormatOf(name: String): (f: RoleplayFormat)
    ensures f == Coser <==> name == "coser"
  {
    if name == "coser" then Coser else Her
  }

  lemma {:induction false} ReplaceSame(s: String, p: String)
    requires p != []
    ensures ReplaceAll(s, p, p) == s
    decreases |s|
  {
    if |s| >= |p| {
      if s[..|p|] == p {
        ReplaceSame(s[|p|..], p);
        assert s == p + s[|p|..];
      } else {
        ReplaceSame(s[1..], p);
        assert s == [s[0]] + s[1..];
      }
    }
  }

  /** Text in which the first character of `p` never occurs has no occurrence of `p`. */
  lemma AbsentLead(s: String, p: String)
    requires p != [] && p[0] !in s
    ensures !Contains(s, p)
  {
  }

  /** The four replacements of a conversion, in order. */
  function Replace4(content: String, src: RoleplayFormat, tgt: RoleplayFormat): String {
    var a := ReplaceAll(content, ThinkingStart(src), ThinkingStart(tgt));
    var b := ReplaceAll(a, ThinkingEnd(src), ThinkingEnd(tgt));
    var c := ReplaceAll(b, ActionStart(src), ActionStart(tgt));
    ReplaceAll(c, ActionEnd(src), ActionEnd(tgt))
  }

  /** The text holds none of the characters a marker of the format can start with. */
  predicate FreeOfMarkers(content: String, f: RoleplayFormat) {
    if f == Her then '<' !in content
    else '[' !in content && ']' !in content && '(' !in content && ')' !in content
  }

  /** convert_roleplay_content: the source format's thinking and action markers replaced,
    * one marker at a time, by the target format's. */
  function ConvertRoleplayContent(content: String, source: String, target: String): (r: String)
    ensures source == target ==> r == content
    ensures FormatOf(source) == FormatOf(target) ==> r == content
    ensures FreeOfMarkers(content, FormatOf(source)) ==> r == content
  {
    if source == target then content
    else
      ConvertUnchanged(content, FormatOf(source), FormatOf(target));
      Replace4(content, FormatOf(source), FormatOf(target))
  }

  /** The four replacements leave text alone when the formats agree, or when the text
    * contains no marker of the source format. */
  lemma ConvertUnchanged(content: String, src: RoleplayFormat, tgt: RoleplayFormat)
    ensures src == tgt || FreeOfMarkers(content, src) ==> Replace4(content, src, tgt) == content
  {
    if src == tgt {
      ReplaceSame(content, ThinkingStart(src));
      ReplaceSame(content, ThinkingEnd(src));
      ReplaceSame(content, ActionStart(src));
      ReplaceSame(content, ActionEnd(src));
    } else if FreeOfMarkers(content, src) {
      AbsentLead(content, ThinkingStart(src));
      AbsentLead(content, ThinkingEnd(src));
      AbsentLead(content, ActionStart(src));
      AbsentLead(content, ActionEnd(src));
    }
  }

  /** From her to coser, each thinking and action tag becomes its bracket; the speech tags stay. */
  lemma HerToCoserBrackets(ps: seq<HerTags.Piece>)
    requires HerTags.Markup(ps)
    ensures ConvertRoleplayContent(HerTags.Her(ps), "her", "coser") ==
      HerTags.RenderWith(ps, {HerTags.OpenThinking, HerTags.CloseThinking, HerTags.OpenAction, HerTags.CloseAction})
  {
    var order := [HerTags.OpenThinking, HerTags.CloseThinking, HerTags.OpenAction, HerTags.CloseAction];
    HerTags.ChainRender(ps, {}, order);
    assert {} + (set t | t in order) ==
      {HerTags.OpenThinking, HerTags.CloseThinking, HerTags.OpenAction, HerTags.CloseAction};
  }

  function Converted(m: Message, source: String, target: String): Message {
    m.(content := ConvertRoleplayContent(m.content, source, target))
  }

  /** apply_roleplay_format: every message keeps its place and role; only its content is converted. */
  method ApplyRoleplayFormat(msgs: seq<Message>, target: String, source: String) returns (r: seq<Message>)
    ensures |r| == |msgs|
    ensures forall i :: 0 <= i < |msgs| ==> r[i].role == msgs[i].role && r[i].name == msgs[i].name
    ensures forall i :: 0 <= i < |msgs| ==> r[i] == Converted(msgs[i], source, target)
    ensures target == source ==> r == msgs
  {
    if target == source {
      return msgs;
    }
    ghost var want := seq(|msgs|, j requires 0 <= j < |msgs| => Converted(msgs[j], source, target));
    r := [];
    var i := 0;
    while i < |msgs|
      invariant 0 <= i <= |msgs|
      invariant r == want[..i]
    {
      PrefixSnoc(want, i);
      r := r + [Converted(msgs[i], source, target)];
      i := i + 1;
    }
    assert want[..i] == want;
  }

  // ----------------------------------------------------------- renderings

  const Bos: String := "<|begin_of_text|>"

  /** The roles every template renders; any other role is skipped. */
  predicate Rendered(role: String) {
    role == "system" || role == "user" || role == "assistant"
  }

  function ChatmlWrap(role: String, content: String): String {
    "<|im_start|>" + role + "\n" + content + "<|im_end|>\n"
  }

  /** One message in the ChatML layout. */
  function ChatmlTurn(m: Message): String {
    if Rendered(m.role) then ChatmlWrap(m.role, m.content) else ""
  }

  function ChatmlBody(msgs: seq<Message>): String {
    if msgs == [] then "" else ChatmlBody(msgs[..|msgs| - 1]) + ChatmlTurn(msgs[|msgs| - 1])
  }

  const ChatmlGenerationPrefix: String := "<|im_start|>assistant\n"

  /** The ChatML template: each turn, then the generation prefix when asked for. */
  function ChatmlRender(msgs: seq<Message>, addGenerationPrompt: bool): String {
    ChatmlBody(msgs) + (if addGenerationPrompt then ChatmlGenerationPrefix else "")
  }

  /** The "qwen" template as written: a user turn is closed by `<|im_end|}`. */
  function QwenTurnAsWritten(m: Message): String {
    if m.role == "user" then "<|im_start|>" + m.role + "\n" + m.content + "<|im_end|}\n" else ChatmlTurn(m)
  }

  function QwenBodyAsWritten(msgs: seq<Message>): String {
    if msgs == [] then "" else QwenBodyAsWritten(msgs[..|msgs| - 1]) + QwenTurnAsWritten(msgs[|msgs| - 1])
  }

  function QwenRenderAsWritten(msgs: seq<Message>, addGenerationPrompt: bool): String {
    QwenBodyAsWritten(msgs) + (if addGenerationPrompt then ChatmlGenerationPrefix else "")
  }

  lemma DifferentEnds(x: String, e1: String, e2: String)
    requires e1 != e2
    ensures x + e1 != x + e2
  {
    if |e1| != |e2| {
      assert |x + e1| != |x + e2|;
    } else {
      var k :| 0 <= k < |e1| && e1[k] != e2[k];
      assert (x + e1)[|x| + k] == e1[k] && (x + e2)[|x| + k] == e2[k];
    }
  }

  /** Every user turn is rendered differently from ChatML: its end marker is `<|im_end|}`. */
  lemma QwenTemplateTypo(m: Message)
    requires m.role == "user"
    ensures QwenRenderAsWritten([m], false) != ChatmlRender([m], false)
  {
    assert [m][..0] == [];
    var x := "<|im_start|>" + m.role + "\n" + m.content;
    var e1: String := "<|im_end|}\n";
    var e2: String := "<|im_end|>\n";
    assert e1[9] != e2[9];
    DifferentEnds(x, e1, e2);
    assert QwenBodyAsWritten([m]) == QwenBodyAsWritten([]) + QwenTurnAsWritten(m);
    assert QwenTurnAsWritten(m) == x + e1;
    assert QwenRenderAsWritten([m], false) == QwenTurnAsWritten(m) + "";
    assert ChatmlBody([m]) == ChatmlBody([]) + ChatmlTurn(m);
    assert ChatmlTurn(m) == x + e2;
    assert ChatmlRender([m], false) == ChatmlTurn(m) + "";
    assert QwenTurnAsWritten(m) + "" == QwenTurnAsWritten(m) && ChatmlTurn(m) + "" == ChatmlTurn(m);
  }

  function Llama3Wrap(role: String, content: String): String {
    "<|start_header_id|>" + role + "<|end_header_id|>\n\n" + content + "<|eot_id|>"
  }

  /** One message in the Llama 3 layout. */
  function Llama3Turn(m: Message): String {
    if Rendered(m.role) then Llama3Wrap(m.role, m.content) else ""
  }

  function Llama3Body(msgs: seq<Message>): String {
    if msgs == [] then "" else Llama3Body(msgs[..|msgs| - 1]) + Llama3Turn(msgs[|msgs| - 1])
  }

  const Llama3GenerationPrefix: String := "<|start_header_id|>assistant<|end_header_id|>\n\n"

  /** The Llama 3 template: the begin-of-text marker, each turn, the generation prefix when asked for. */
  function Llama3Render(msgs: seq<Message>, addGenerationPrompt: bool): (r: String)
    ensures StartsWith(r, Bos)
  {
    Bos + Llama3Body(msgs) + (if addGenerationPrompt then Llama3GenerationPrefix else "")
  }

  // ------------------------------------------------------ fallback formatter

  datatype Template = Qwen | Llama3

  /** The per-role layouts of the fallback formatter; the Llama 3 system layout carries
    * its own begin-of-text marker. */
  function SystemPart(t: Template, content: String): String {
    match t
    case Qwen => ChatmlWrap("system", content)
    case Llama3 => Bos + Llama3Wrap("system", content)
  }

  function UserPart(t: Template, content: String): String {
    match t
    case Qwen => ChatmlWrap("user", content)
    case Llama3 => Llama3Wrap("user", content)
  }

  function AssistantPart(t: Template, content: String): String {
    match t
    case Qwen => ChatmlWrap("assistant", content)
    case Llama3 => Llama3Wrap("assistant", content)
  }

  function GenerationPrefix(t: Template): String {
    match t
    case Qwen => ChatmlGenerationPrefix
    case Llama3 => Llama3GenerationPrefix
  }

  predicate HasSystem(msgs: seq<Message>) {
    CountRole(msgs, "system") > 0
  }

  predicate HasUser(msgs: seq<Message>) {
    CountRole(msgs, "user") > 0
  }

  /** The text the fallback loop has built after the given messages, as written: a user
    * message met before any system message puts a begin-of-text marker in front of
    * everything built so far, however many such user messages there are. */
  function FallbackText(msgs: seq<Message>, t: Template): String {
    if msgs == [] then ""
    else
      var init := msgs[..|msgs| - 1];
      var prev := FallbackText(init, t);
      var m := msgs[|msgs| - 1];
      if m.role == "system" then prev + SystemPart(t, m.content)
      else if m.role == "user" then
        (if t == Llama3 && !HasSystem(init) then Bos + prev else prev) + UserPart(t, m.content)
      else if m.role == "assistant" then prev + AssistantPart(t, m.content)
      else prev
  }

  /** The generation prefix is added only after a non-empty conversation whose last turn
    * is not the assistant's. */
  predicate WantsGeneration(msgs: seq<Message>, addGenerationPrompt: bool) {
    addGenerationPrompt && msgs != [] && msgs[|msgs| - 1].role != "assistant"
  }

  /** The non-template branch of `apply`, as written. */
  method FallbackApply(msgs: seq<Message>, t: Template, addGenerationPrompt: bool) returns (formatted: String)
    ensures formatted == FallbackText(msgs, t) +
      (if WantsGeneration(msgs, addGenerationPrompt) then GenerationPrefix(t) else "")
  {
    formatted := "";
    var hasSystem := false;
    var i := 0;
    while i < |msgs|
      invariant 0 <= i <= |msgs|
      invariant formatted == FallbackText(msgs[..i], t)
      invariant hasSystem <==> HasSystem(msgs[..i])
    {
      var m := msgs[i];
      FallbackSnoc(msgs, i, t);
      if m.role == "system" {
        formatted := formatted + SystemPart(t, m.content);
        hasSystem := true;
      } else if m.role == "user" {
        if !hasSystem && t == Llama3 {
          formatted := Bos + formatted;
        }
        formatted := formatted + UserPart(t, m.content);
      } else if m.role == "assistant" {
        formatted := formatted + AssistantPart(t, m.content);
      }
      i := i + 1;
    }
    assert msgs[..i] == msgs;
    if WantsGeneration(msgs, addGenerationPrompt) {
      formatted := formatted + GenerationPrefix(t);
    }
  }

  /** The fallback text one message further on. */
  lemma FallbackSnoc(msgs: seq<Message>, i: nat, t: Template)
    requires i < |msgs|
    ensures HasSystem(msgs[..i + 1]) <==> HasSystem(msgs[..i]) || msgs[i].role == "system"
    ensures FallbackText(msgs[..i + 1], t) ==
      var prev := FallbackText(msgs[..i], t);
      var m := msgs[i];
      if m.role == "system" then prev + SystemPart(t, m.content)
      else if m.role == "user" then
        (if t == Llama3 && !HasSystem(msgs[..i]) then Bos + prev else prev) + UserPart(t, m.content)
      else if m.role == "assistant" then prev + AssistantPart(t, m.content)
      else prev
  {
    assert msgs[..i + 1][..i] == msgs[..i];
    CountRoleLast(msgs[..i + 1], "system");
  }

  /** Two user turns and no system prompt: the Llama 3 text starts with two begin-of-text markers. */
  lemma FallbackDoubleBos(a: String, b: String)
    ensures StartsWith(FallbackText([UserMsg(a), UserMsg(b)], Llama3), Bos + Bos)
  {
    var two := [UserMsg(a), UserMsg(b)];
    assert two[..1] == [UserMsg(a)] && [UserMsg(a)][..0] == [];
    var one := FallbackText([UserMsg(a)], Llama3);
    assert !HasSystem([]) && !HasSystem([UserMsg(a)]);
    assert FallbackText([], Llama3) == "";
    assert one == Bos + FallbackText([], Llama3) + UserPart(Llama3, a);
    var whole := FallbackText(two, Llama3);
    assert whole == Bos + one + UserPart(Llama3, b);
    assert whole == (Bos + Bos) + (UserPart(Llama3, a) + UserPart(Llama3, b));
  }

  /** The fallback text with the begin-of-text marker put in front once: before the first
    * user turn when no system turn (which carries its own marker) precedes it. */
  function FallbackTextOnce(msgs: seq<Message>, t: Template): String {
    if msgs == [] then ""
    else
      var init := msgs[..|msgs| - 1];
      var prev := FallbackTextOnce(init, t);
      var m := msgs[|msgs| - 1];
      if m.role == "system" then prev + SystemPart(t, m.content)
      else if m.role == "user" then
        (if t == Llama3 && !HasSystem(init) && !HasUser(init) then Bos + prev else prev) + UserPart(t, m.content)
      else if m.role == "assistant" then prev + AssistantPart(t, m.content)
      else prev
  }

  /** Without a system turn, the corrected Llama 3 text of a conversation with a user turn is
    * one begin-of-text marker followed by the turns, as the Llama 3 template renders them. */
  lemma {:induction false} FallbackOnceMatchesTemplate(msgs: seq<Message>)
    requires !HasSystem(msgs)
    ensures HasUser(msgs) ==> FallbackTextOnce(msgs, Llama3) == Bos + Llama3Body(msgs)
    ensures !HasUser(msgs) ==> FallbackTextOnce(msgs, Llama3) == Llama3Body(msgs)
    decreases |msgs|
  {
    if msgs != [] {
      var init := msgs[..|msgs| - 1];
      var m := msgs[|msgs| - 1];
      CountRoleLast(msgs, "system");
      CountRoleLast(msgs, "user");
      OnceLast(msgs);
      Llama3BodyLast(msgs);
      FallbackOnceMatchesTemplate(init);
      OnceStepShape(FallbackTextOnce(msgs, Llama3), FallbackTextOnce(init, Llama3), Llama3Body(init),
        Llama3Body(msgs), Llama3Turn(m), Bos, HasUser(init), m.role == "user", HasUser(msgs));
    }
  }

  /** The induction step of the corrected fallback text, on plain strings: the marker goes in
    * front at the first user turn and stays in front afterwards. */
  lemma OnceStepShape(x: String, prev: String, body: String, body': String, turn: String, bos: String,
                      userBefore: bool, isUser: bool, userAfter: bool)
    requires isUser ==> x == (if !userBefore then bos + prev else prev) + turn
    requires !isUser ==> x == prev + turn
    requires body' == body + turn
    requires userBefore ==> prev == bos + body
    requires !userBefore ==> prev == body
    requires userAfter == (userBefore || isUser)
    ensures userAfter ==> x == bos + body'
    ensures !userAfter ==> x == body'
  {
    if userAfter {
      assert (bos + body) + turn == bos + (body + turn);
    }
  }

  /** One step of the corrected Llama 3 fallback text, for a conversation without a system turn. */
  lemma OnceLast(msgs: seq<Message>)
    requires msgs != [] && msgs[|msgs| - 1].role != "system" && !HasSystem(msgs[..|msgs| - 1])
    ensures msgs[|msgs| - 1].role == "user" ==>
      FallbackTextOnce(msgs, Llama3) ==
        (if !HasUser(msgs[..|msgs| - 1]) then Bos + FallbackTextOnce(msgs[..|msgs| - 1], Llama3)
         else FallbackTextOnce(msgs[..|msgs| - 1], Llama3)) + Llama3Turn(msgs[|msgs| - 1])
    ensures msgs[|msgs| - 1].role != "user" ==>
      FallbackTextOnce(msgs, Llama3) == FallbackTextOnce(msgs[..|msgs| - 1], Llama3) + Llama3Turn(msgs[|msgs| - 1])
  {
    var init := msgs[..|msgs| - 1];
    var m := msgs[|msgs| - 1];
    var prev := FallbackTextOnce(init, Llama3);
    var x := FallbackTextOnce(msgs, Llama3);
    if m.role == "user" {
      var turn := UserPart(Llama3, m.content);
      assert Llama3Turn(m) == turn;
      if HasUser(init) {
        assert x == prev + turn;
      } else {
        var lead := Bos + prev;
        assert x == (if Llama3 == Llama3 && !HasSystem(init) && !HasUser(init) then lead else prev) + turn;
        assert x == lead + turn;
      }
    } else if m.role == "assistant" {
      assert Llama3Turn(m) == AssistantPart(Llama3, m.content);
    } else {
      assert Llama3Turn(m) == "";
      assert x == prev;
      EmptyTail(prev);
    }
  }

  lemma EmptyTail(s: String)
    ensures s + "" == s
  {
  }

  lemma Llama3BodyLast(msgs: seq<Message>)
    requires msgs != []
    ensures Llama3Body(msgs) == Llama3Body(msgs[..|msgs| - 1]) + Llama3Turn(msgs[|msgs| - 1])
  {
  }

  /** For the Qwen layout the fallback text is the ChatML rendering: the two differ only in
    * when the generation prefix is added. */
  lemma {:induction false} QwenFallbackIsChatml(msgs: seq<Message>)
    ensures FallbackText(msgs, Qwen) == ChatmlBody(msgs)
    decreases |msgs|
  {
    if msgs != [] {
      QwenFallbackIsChatml(msgs[..|msgs| - 1]);
    }
  }

  // ------------------------------------------------------------------ apply

  datatype Applied = Unformatted(messages: seq<Message>) | Formatted(text: String)

  function TemplateOf(resolved: String): Template {
    if resolved == "llama3" then Llama3 else Qwen
  }

  /** `apply`, as written: the messages themselves in the API mode; otherwise the template
    * rendering when a template engine is installed (the "qwen" template with its misspelled
    * end marker), else the fallback formatter with its repeated begin-of-text marker. */
  function Apply(msgs: seq<Message>, name: String, addGenerationPrompt: bool, hasTemplateEngine: bool)
    : (r: Applied)
    ensures TemplateName(name).None? <==> r == Unformatted(msgs)
    ensures TemplateName(name).Some? <==> r.Formatted?
    ensures TemplateName(name) == Some("llama3") && hasTemplateEngine ==> StartsWith(r.text, Bos)
    ensures TemplateName(name) == Some("qwen") && !hasTemplateEngine ==>
      r.text == ChatmlBody(msgs) + (if WantsGeneration(msgs, addGenerationPrompt) then ChatmlGenerationPrefix else "")
  {
    match TemplateName(name)
    case None => Unformatted(msgs)
    case Some(resolved) =>
      if hasTemplateEngine then
        if resolved == "qwen" then Formatted(QwenRenderAsWritten(msgs, addGenerationPrompt))
        else Formatted(Llama3Render(msgs, addGenerationPrompt))
      else
        var t := TemplateOf(resolved);
        QwenFallbackIsChatml(msgs);
        Formatted(FallbackText(msgs, t) +
                  (if WantsGeneration(msgs, addGenerationPrompt) then GenerationPrefix(t) else ""))
  }

  /** `apply` as evidently intended: the "qwen" template renders ChatML and the fallback puts
    * the begin-of-text marker in front once. */
  function ApplyIntended(msgs: seq<Message>, name: String, addGenerationPrompt: bool, hasTemplateEngine: bool)
    : (r: Applied)
    ensures TemplateName(name).None? <==> r == Unformatted(msgs)
    ensures TemplateName(name).Some? <==> r.Formatted?
    ensures TemplateName(name) == Some("llama3") && hasTemplateEngine ==> StartsWith(r.text, Bos)
    ensures TemplateName(name) == Some("qwen") ==>
      r.text == ChatmlBody(msgs) + (if (if hasTemplateEngine then addGenerationPrompt
                                        else WantsGeneration(msgs, addGenerationPrompt))
                                    then ChatmlGenerationPrefix else "")
  {
    match TemplateName(name)
    case None => Unformatted(msgs)
    case Some(resolved) =>
      if hasTemplateEngine then
        if resolved == "qwen" then Formatted(ChatmlRender(msgs, addGenerationPrompt))
        else Formatted(Llama3Render(msgs, addGenerationPrompt))
      else
        var t := TemplateOf(resolved);
        QwenFallbackOnce(msgs);
        Formatted(FallbackTextOnce(msgs, t) +
                  (if WantsGeneration(msgs, addGenerationPrompt) then GenerationPrefix(t) else ""))
  }

  /** `apply` gives the intended output except on the two defects: a user turn under the
    * "qwen" template, and a Llama 3 fallback conversation that does not open with its
    * system prompt. */
  lemma ApplyAgrees(msgs: seq<Message>, name: String, addGenerationPrompt: bool, hasTemplateEngine: bool)
    requires TemplateName(name) == Some("qwen") && hasTemplateEngine ==> !HasUser(msgs)
    requires TemplateName(name) == Some("llama3") && !hasTemplateEngine ==>
      msgs != [] && msgs[0].role == "system"
    ensures Apply(msgs, name, addGenerationPrompt, hasTemplateEngine) ==
            ApplyIntended(msgs, name, addGenerationPrompt, hasTemplateEngine)
  {
    if TemplateName(name) == Some("qwen") && hasTemplateEngine {
      QwenNoUserIsChatml(msgs);
    } else if TemplateName(name) == Some("llama3") && !hasTemplateEngine {
      FallbackSystemFirst(msgs, Llama3);
    }
  }

  /** Without a user turn the "qwen" template as written renders ChatML. */
  lemma {:induction false} QwenNoUserIsChatml(msgs: seq<Message>)
    requires !HasUser(msgs)
    ensures QwenBodyAsWritten(msgs) == ChatmlBody(msgs)
    decreases |msgs|
  {
    if msgs != [] {
      CountRoleLast(msgs, "user");
      QwenNoUserIsChatml(msgs[..|msgs| - 1]);
    }
  }

  /** A conversation that opens with a system turn holds one. */
  lemma {:induction false} SystemFirstHasSystem(msgs: seq<Message>)
    requires msgs != [] && msgs[0].role == "system"
    ensures HasSystem(msgs)
    decreases |msgs|
  {
    CountRoleLast(msgs, "system");
    if |msgs| > 1 {
      SystemFirstHasSystem(msgs[..|msgs| - 1]);
    }
  }

  /** When the system prompt comes first the fallback puts no marker in front, so the
    * as-written and the corrected fallback texts agree. */
  lemma {:induction false} FallbackSystemFirst(msgs: seq<Message>, t: Template)
    requires msgs != [] && msgs[0].role == "system"
    ensures FallbackText(msgs, t) == FallbackTextOnce(msgs, t)
    decreases |msgs|
  {
    var init := msgs[..|msgs| - 1];
    if |msgs| > 1 {
      FallbackSystemFirst(init, t);
      SystemFirstHasSystem(init);
    } else {
      assert init == [];
    }
  }

  lemma {:induction false} QwenFallbackOnce(msgs: seq<Message>)
    ensures FallbackTextOnce(msgs, Qwen) == ChatmlBody(msgs)
    decreases |msgs|
  {
    if msgs != [] {
      QwenFallbackOnce(msgs[..|msgs| - 1]);
    }
  }
}
