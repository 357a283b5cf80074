// The text helpers of the CoSER multi-turn benchmark: removing private and
// system thinking, reading the next-speaker predictor's reply, converting
// between the HER tag format and the CoSER bracket format, speaker prefixes,
// the Qwen chat prompt, the model-type guess and the initial message list.

module CoserUtils {
  import opened Basics
  import opened Text
  import opened Patterns
  import opened Messages
  import HerTags

  // --------------------------------------------------------- line cleanup

  function StripEach(lines: seq<String>): (r: seq<String>)
    ensures |r| == |lines|
    ensures forall k :: 0 <= k < |lines| ==> r[k] == Strip(lines[k])
  {
    seq(|lines|, k requires 0 <= k < |lines| => Strip(lines[k]))
  }

  /**
   * Every line stripped, runs of newlines collapsed to one, and the whole
   * text stripped.
   */
  function CleanLines(s: String): String {
    Strip(Sub(Join(StripEach(Split(s, '\n')), "\n"), Run('\n'), Const("\n")))
  }

  // ----------------------------------------------- remove_system_thinking

  const SysOpen: Pat := SysTag(false, false)
  const SysClose: Pat := SysTag(true, false)
  const ThinkOpen: Pat := Lit("<think>")
  const ThoughtOpen: Pat := Lit("<thought>")
  const RoleThinkOpen: Pat := Lit("<role_think>")

  /** Deletes every `open…close` block (lazily, across lines), then cuts the text at the first `open` left. */
  function DropTagged(s: String, open: Pat, close: Pat): String {
    CutAt(Sub(s, Block(open, close, false, false, true), Delete), open)
  }

  /** The tag passes of remove_system_thinking, each applied once, in order. */
  function StripThinkingTags(s: String): String {
    var a := Sub(DropTagged(s, SysOpen, SysClose), SysClose, Delete);
    var b := DropTagged(a, ThinkOpen, Lit("</think>"));
    var c := DropTagged(b, ThoughtOpen, Lit("</thought>"));
    DropTagged(c, RoleThinkOpen, Lit("</role_think>"))
  }

  /** remove_system_thinking exactly as written: one round of the tag passes, then line cleanup. */
  function RemoveSystemThinkingOnce(s: String): String {
    CleanLines(StripThinkingTags(s))
  }

  /** An opener of one of the four private-thinking kinds occurs in the text. */
  predicate HasThinkingOpener(s: String) {
    HasMatch(s, SysOpen) || HasMatch(s, ThinkOpen) || HasMatch(s, ThoughtOpen) || HasMatch(s, RoleThinkOpen)
  }

  /**
   * remove_system_thinking as intended: the round is repeated until no opener
   * of the four kinds is left, so no private-thinking block can survive.
   */
  function RemoveSystemThinking(s: String): (r: String)
    ensures !HasThinkingOpener(r)
    ensures |r| <= |s|
    ensures !HasThinkingOpener(RemoveSystemThinkingOnce(s)) ==> r == RemoveSystemThinkingOnce(s)
    decreases 2 * |s| + (if HasThinkingOpener(s) then 0 else 1)
  {
    RoundShrinks(s);
    var t := RemoveSystemThinkingOnce(s);
    if HasThinkingOpener(t) then RemoveSystemThinking(t) else t
  }

  // --------------------------------------------------- extract_last_speaker

  predicate OccursAtCi(s: String, t: String, i: int) {
    0 <= i && i + |t| <= |s| && Lower(s[i..i + |t|]) == Lower(t)
  }

  /** The group `[^\n\*]+` can start at `f`. */
  predicate NameCharAt(s: String, f: int) {
    0 <= f < |s| && s[f] != '\n' && s[f] != '*'
  }

  /** Where the greedy `[^\n\*]+` starting at `f` stops. */
  function NameEnd(s: String, f: nat): (e: nat)
    requires f <= |s|
    ensures f <= e <= |s|
    ensures forall k :: f <= k < e ==> s[k] != '\n' && s[k] != '*'
    ensures e < |s| ==> s[e] == '\n' || s[e] == '*'
  {
    match FirstIn(s, f, {'\n', '*'})
    case Some(k) => k
    case None => |s|
  }

  /** `\b` at index `i`. */
  predicate WordBoundary(s: String, i: nat)
    requires i <= |s|
  {
    (i > 0 && IsWordChar(s[i - 1])) != (i < |s| && IsWordChar(s[i]))
  }

  // The tail `\s*(?:\*\*|#)?\s*(?:[:\-]|\bis\b)?\s*\*?([^\n\*]+)` is matched
  // by backtracking: each quantifier tries its choices in the order the
  // regex engine does, and the first choice that lets the rest succeed wins.
  // Each function returns where the group starts.

  /** `\*?` then the group. */
  function TryStar(s: String, e: nat): (r: Option<nat>)
    requires e <= |s|
    ensures r.Some? ==> e <= r.value && NameCharAt(s, r.value)
  {
    if e < |s| && s[e] == '*' && NameCharAt(s, e + 1) then Some(e + 1)
    else if NameCharAt(s, e) then Some(e)
    else None
  }

  /** The third `\s*`, trying the blank run `s[d..e]` from longest to empty. */
  function TryBlanks3(s: String, d: nat, e: nat): (r: Option<nat>)
    requires d <= e <= |s|
    ensures r.Some? ==> d <= r.value && NameCharAt(s, r.value)
    decreases e - d
  {
    var r := TryStar(s, e);
    if r.Some? then r
    else if e == d then None
    else TryBlanks3(s, d, e - 1)
  }

  /** `(?:[:\-]|\bis\b)?` at `c`. */
  function TryColon(s: String, c: nat): (r: Option<nat>)
    requires c <= |s|
    ensures r.Some? ==> c <= r.value && NameCharAt(s, r.value)
  {
    var viaPunct :=
      if c < |s| && (s[c] == ':' || s[c] == '-') then TryBlanks3(s, c + 1, SkipSpace(s, c + 1)) else None;
    var viaIs :=
      if WordBoundary(s, c) && OccursAtCi(s, "is", c) && WordBoundary(s, c + 2)
      then TryBlanks3(s, c + 2, SkipSpace(s, c + 2)) else None;
    if viaPunct.Some? then viaPunct
    else if viaIs.Some? then viaIs
    else TryBlanks3(s, c, SkipSpace(s, c))
  }

  /** The second `\s*`. */
  function TryBlanks2(s: String, b: nat, c: nat): (r: Option<nat>)
    requires b <= c <= |s|
    ensures r.Some? ==> b <= r.value && NameCharAt(s, r.value)
    decreases c - b
  {
    var r := TryColon(s, c);
    if r.Some? then r
    else if c == b then None
    else TryBlanks2(s, b, c - 1)
  }

  /** `(?:\*\*|#)?` at `a`. */
  function TryMarkup(s: String, a: nat): (r: Option<nat>)
    requires a <= |s|
    ensures r.Some? ==> a <= r.value && NameCharAt(s, r.value)
  {
    var viaStars := if OccursAt(s, "**", a) then TryBlanks2(s, a + 2, SkipSpace(s, a + 2)) else None;
    var viaHash := if OccursAt(s, "#", a) then TryBlanks2(s, a + 1, SkipSpace(s, a + 1)) else None;
    if viaStars.Some? then viaStars
    else if viaHash.Some? then viaHash
    else TryBlanks2(s, a, SkipSpace(s, a))
  }

  /** The first `\s*` after `Speaker`. */
  function TryBlanks1(s: String, q: nat, a: nat): (r: Option<nat>)
    requires q <= a <= |s|
    ensures r.Some? ==> q <= r.value && NameCharAt(s, r.value)
    decreases a - q
  {
    var r := TryMarkup(s, a);
    if r.Some? then r
    else if a == q then None
    else TryBlanks1(s, q, a - 1)
  }

  /**
   * `(?:\*\*|#)?\s*Next\s+Speaker` (ignoring case) at `p`: where it ends.
   * Each optional or starred part is followed by a character it cannot
   * consume, so only its greedy choice can lead to a match.
   */
  function SpeakerHead(s: String, p: nat): (r: Option<nat>)
    requires p <= |s|
    ensures r.Some? ==> p < r.value <= |s|
  {
    var p1 := if OccursAt(s, "**", p) then p + 2 else if OccursAt(s, "#", p) then p + 1 else p;
    var p2 := SkipSpace(s, p1);
    if OccursAtCi(s, "next", p2) then
      var p3 := SkipSpace(s, p2 + 4);
      if p3 > p2 + 4 && OccursAtCi(s, "speaker", p3) then Some(p3 + 7) else None
    else None
  }

  /** A match starting at `p`: where its group starts. */
  function SpeakerAt(s: String, p: nat): (r: Option<nat>)
    requires p <= |s|
    ensures r.Some? ==> p < r.value && NameCharAt(s, r.value)
  {
    match SpeakerHead(s, p)
    case None => None
    case Some(q) => TryBlanks1(s, q, SkipSpace(s, q))
  }

  /** `re.findall` of the next-speaker pattern from `p`: the groups, left to right. */
  function SpeakerGroups(s: String, p: nat): (r: seq<String>)
    requires p <= |s|
    ensures forall k :: 0 <= k < |r| ==> r[k] != [] && '\n' !in r[k] && '*' !in r[k]
    decreases |s| - p
  {
    if p == |s| then []
    else
      match SpeakerAt(s, p)
      case Some(f) =>
        var e := NameEnd(s, f);
        NameSlice(s, f);
        [s[f..e]] + SpeakerGroups(s, e)
      case None => SpeakerGroups(s, p + 1)
  }

  /** A name captured from a name character on is non-empty and holds no newline or `*`. */
  lemma NameSlice(s: String, f: nat)
    requires NameCharAt(s, f)
    ensures var g := s[f..NameEnd(s, f)]; g != [] && '\n' !in g && '*' !in g
  {
    var e := NameEnd(s, f);
    assert s[f..e][0] == s[f];
    forall k | 0 <= k < e - f ensures s[f..e][k] != '\n' && s[f..e][k] != '*' {
      assert s[f..e][k] == s[f + k];
    }
  }

  const NameTrail: set<char> := {'.', ',', '!', '"', '\''}

  /** The cleaning applied to a captured name. */
  function CleanName(g: String): String {
    ReplaceAll(RStripChars(Strip(g), NameTrail), "*", "")
  }

  /** extract_last_speaker: the last "Next Speaker" match, cleaned; None if none or empty. */
  function ExtractLastSpeaker(response: String): (r: Option<String>)
    ensures r.Some? ==> r.value != [] && '\n' !in r.value && '*' !in r.value
  {
    var groups := SpeakerGroups(response, 0);
    if groups == [] then None
    else
      var name := CleanName(groups[|groups| - 1]);
      CleanNameChars(groups[|groups| - 1]);
      if name == [] then None else Some(name)
  }

  lemma CleanNameChars(g: String)
    requires '\n' !in g && '*' !in g
    ensures '\n' !in CleanName(g) && '*' !in CleanName(g)
  {
    var st := Strip(g);
    StripChars(g);
    var t := RStripChars(st, NameTrail);
    assert forall k :: 0 <= k < |t| ==> t[k] == st[k];
    NoCharNoContains(t, '*');
  }

  lemma NoCharNoContains(t: String, c: char)
    requires c !in t
    ensures !Contains(t, [c])
  {
    assert forall j :: OccursAt(t, [c], j) ==> t[j] == c;
  }

  lemma StripChars(g: String)
    ensures forall c :: c in Strip(g) ==> c in g
  {
    var l := LStrip(g);
    assert forall c :: c in l ==> c in g;
  }

  // ------------------------------------------------------ parse_nsp_response

  const EndChat: String := "<END CHAT>"
  const RandomPick: String := "random"
  const DefaultNspMaxLength: int := 1500

  /** The first valid name that, lower-cased, equals or occurs in `text` lower-cased. */
  function NameIn(text: String, valid: seq<String>): (r: Option<String>)
    ensures r.Some? ==> r.value in valid && NameMatches(text, r.value)
    ensures r.None? ==> forall c :: c in valid ==> !Contains(Lower(text), Lower(c))
  {
    if valid == [] then None
    else if Lower(valid[0]) == Lower(text) || Contains(Lower(text), Lower(valid[0])) then Some(valid[0])
    else
      assert forall j :: OccursAt(Lower(text), Lower(text), j) ==> j == 0;
      NameIn(text, valid[1..])
  }

  /** The first valid name occurring, case-sensitively, in `text`. */
  function NameInExact(text: String, valid: seq<String>): (r: Option<String>)
    ensures r.Some? ==> r.value in valid && Contains(text, r.value)
    ensures r.None? ==> forall c :: c in valid ==> !Contains(text, c)
  {
    if valid == [] then None
    else if Contains(text, valid[0]) then Some(valid[0])
    else NameInExact(text, valid[1..])
  }

  /** Step 1 of parse_nsp_response: what an explicit "Next Speaker" field decides, if anything. */
  function SpeakerField(response: String, valid: seq<String>): (r: Option<String>)
    ensures r.Some? ==> r.value in valid || r.value == EndChat || r.value == RandomPick
  {
    match ExtractLastSpeaker(response)
    case None => None
    case Some(ns) =>
      match NameIn(ns, valid)
      case Some(c) => Some(c)
      case None =>
        if Contains(Lower(ns), "end chat") then Some(EndChat)
        else if Contains(Lower(ns), "random") then Some(RandomPick)
        else None
  }

  /** `**…**` and then `*…*` deleted, within a line. */
  function StripMarkdown(s: String): String {
    Sub(Sub(s, Block(Lit("**"), Lit("**"), false, false, false), Delete),
        Block(Lit("*"), Lit("*"), false, false, false), Delete)
  }

  /** The stripped first line, cut before its first ':'. */
  function FirstLineName(cleaned: String): (r: String)
    ensures ':' !in r && '\n' !in r
  {
    var first := Strip(FirstPiece(Strip(cleaned), '\n'));
    StripChars(FirstPiece(Strip(cleaned), '\n'));
    StripChars(FirstPiece(first, ':'));
    if ':' in first then Strip(FirstPiece(first, ':')) else first
  }

  /** `c.lower() == text.lower() or c.lower() in text.lower()`. */
  predicate NameMatches(text: String, c: String) {
    Lower(c) == Lower(text) || Contains(Lower(text), Lower(c))
  }

  /** parse_nsp_response: a valid character, "<END CHAT>" or "random". */
  function ParseNspResponse(response: String, valid: seq<String>, maxLength: int): (r: String)
    ensures r in valid || r == EndChat || r == RandomPick
    ensures IsBlank(response) || |response| > maxLength ==> r == RandomPick
  {
    if IsBlank(response) || |response| > maxLength then RandomPick
    else
      match SpeakerField(response, valid)
      case Some(r) => r
      case None => NameFromCleaned(StripMarkdown(RemoveSystemThinkingOnce(response)), valid)
  }

  /**
   * Steps 4 to 9 of parse_nsp_response on the cleaned reply: its first line decides, else any
   * valid name in the whole text; a character picked is one the text names.
   */
  function NameFromCleaned(cleaned: String, valid: seq<String>): (r: String)
    ensures r in valid || r == EndChat || r == RandomPick
    ensures r != EndChat && r != RandomPick ==>
      NameMatches(FirstLineName(cleaned), r) || Contains(cleaned, r)
  {
    var first := FirstLineName(cleaned);
    if Contains(Upper(first), EndChat) || Contains(Upper(first), "END CHAT") then EndChat
    else if Contains(Lower(first), "random") then RandomPick
    else
      match NameIn(first, valid)
      case Some(c) => c
      case None =>
        match NameInExact(cleaned, valid)
        case Some(c) => c
        case None => RandomPick
  }

  /**
   * A character the parser picks is one the reply names: in its "Next Speaker" field, or,
   * failing that, on the first line of the reply with thinking and emphasis removed, or
   * anywhere in that cleaned reply.
   */
  lemma ParseNspNamesMentioned(response: String, valid: seq<String>, maxLength: int)
    ensures var r := ParseNspResponse(response, valid, maxLength);
      r != RandomPick && r != EndChat ==>
        r in valid && !IsBlank(response) && |response| <= maxLength &&
        var cleaned := StripMarkdown(RemoveSystemThinkingOnce(response));
        (ExtractLastSpeaker(response).Some? && NameMatches(ExtractLastSpeaker(response).value, r)) ||
        (SpeakerField(response, valid).None? &&
          (NameMatches(FirstLineName(cleaned), r) || Contains(cleaned, r)))
  {
    var r := ParseNspResponse(response, valid, maxLength);
    if !IsBlank(response) && |response| <= maxLength && SpeakerField(response, valid).Some? {
      SpeakerFieldNamed(response, valid);
    }
  }

  /** A character the "Next Speaker" field picks is one the field names. */
  lemma SpeakerFieldNamed(response: String, valid: seq<String>)
    ensures var f := SpeakerField(response, valid);
      f.Some? && f.value != EndChat && f.value != RandomPick ==>
        ExtractLastSpeaker(response).Some? && NameMatches(ExtractLastSpeaker(response).value, f.value)
  {
  }

  // ---------------------------------------------------- remove_inner_thoughts

  /** `\s*open.*?close\s*` deleted across lines, then the text stripped. */
  function DropPadded(s: String, open: Pat, close: Pat): String {
    Strip(Sub(s, Block(open, close, true, true, true), Delete))
  }

  /** `\[.*?\]` deleted, within a line. */
  function DropBrackets(s: String): String {
    Sub(s, Block(Lit("["), Lit("]"), false, false, false), Delete)
  }

  /** remove_inner_thoughts: what another character may see of a reply. */
  function RemoveInnerThoughts(s: String): String {
    var a := DropPadded(s, SysTag(false, true), SysTag(true, true));
    var b := DropPadded(a, RoleTag(false), RoleTag(true));
    var c := DropPadded(b, AnyThinkTag(false), AnyThinkTag(true));
    CleanLines(DropBrackets(c))
  }

  /** None of the three tag families can start where there is no `<`, even after leading blanks. */
  lemma PaddedTagMiss(s: String, open: Pat, close: Pat)
    requires '<' !in s
    requires open.SysTag? || open.RoleTag? || open.AnyThinkTag?
    ensures !HasMatch(s, Block(open, close, true, true, true))
  {
    forall k | 0 <= k <= |s|
      ensures MatchAt(Block(open, close, true, true, true), s, k).None?
    {
      var j := SkipSpace(s, k);
      if j < |s| {
        assert s[j] in s;
      }
      assert MatchAt(open, s, j).None?;
    }
  }

  /**
   * remove_inner_thoughts passes action text in parentheses and plain speech
   * through: a reply with no tag and no square bracket only has its lines
   * cleaned up.
   */
  lemma RemoveInnerThoughtsKeeps(s: String)
    requires '<' !in s && '[' !in s
    ensures RemoveInnerThoughts(s) == CleanLines(Strip(s))
  {
    PaddedTagMiss(s, SysTag(false, true), SysTag(true, true));
    SubDelete(s, Block(SysTag(false, true), SysTag(true, true), true, true, true));
    var a := Strip(s);
    StripChars(s);
    StripIdempotent(s);
    PaddedTagMiss(a, RoleTag(false), RoleTag(true));
    SubDelete(a, Block(RoleTag(false), RoleTag(true), true, true, true));
    PaddedTagMiss(a, AnyThinkTag(false), AnyThinkTag(true));
    SubDelete(a, Block(AnyThinkTag(false), AnyThinkTag(true), true, true, true));
    NoMatchWithout(a, Block(Lit("["), Lit("]"), false, false, false), '[');
    SubDelete(a, Block(Lit("["), Lit("]"), false, false, false));
  }

  // ------------------------------------------------------ format conversion

  /** convert_her_format: HER tags to CoSER brackets, speech tags dropped, stripped. */
  function ConvertHerFormat(s: String): String {
    var a := ReplaceAll(ReplaceAll(s, "<role_thinking>", "["), "</role_thinking>", "]");
    var b := ReplaceAll(ReplaceAll(a, "<role_action>", "("), "</role_action>", ")");
    Strip(ReplaceAll(ReplaceAll(b, "<role_speech>", ""), "</role_speech>", ""))
  }

  /** convert_her_format turns the four thinking and action tags into brackets, drops the speech tags, and strips. */
  lemma ConvertHerFormatBrackets(ps: seq<HerTags.Piece>)
    requires HerTags.Markup(ps)
    ensures ConvertHerFormat(HerTags.Her(ps)) == Strip(HerTags.Bracketed(ps))
  {
    var order := [HerTags.OpenThinking, HerTags.CloseThinking, HerTags.OpenAction,
                  HerTags.CloseAction, HerTags.OpenSpeech, HerTags.CloseSpeech];
    HerTags.ChainRender(ps, {}, order);
    assert {} + (set t | t in order) == HerTags.AllTags;
  }

  function ConvertToCoserFormat(s: String, modelType: String): String {
    if modelType == "her" then ConvertHerFormat(s) else s
  }

  /** remove_long_role_thinking: `<long_role_thinking>x</long_role_thinking>` becomes `<role_thinking>x</role_thinking>`. */
  function RemoveLongRoleThinking(s: String): String {
    Sub(s, Block(Lit("<long_role_thinking>"), Lit("</long_role_thinking>"), false, false, true),
        Wrap("<role_thinking>", "</role_thinking>"))
  }

  /** convert_dialogue_format: CoSER `[x]`/`(x)` to HER tags when the target is her or qwen. */
  function ConvertDialogueFormat(message: String, source: String, target: String): String {
    if source == target then message
    else if target == "her" || target == "qwen" then
      Sub(Sub(message, Group('[', ']', {']'}), Wrap("<role_thinking>", "</role_thinking>")),
          Group('(', ')', {')'}), Wrap("<role_action>", "</role_action>"))
    else message
  }

  /**
   * For the her and qwen targets, convert_dialogue_format writes a CoSER
   * thought `[x]` as a role_thinking block and an action `(y)` as a
   * role_action block, and keeps the text around them.
   */
  lemma ConvertDialogueTags(pre: String, x: String, mid: String, y: String, post: String,
                            source: String, target: String)
    requires source != target && (target == "her" || target == "qwen")
    requires '[' !in pre && '[' !in mid && '[' !in y && '[' !in post && ']' !in x && x != []
    requires '(' !in pre && '(' !in x && '(' !in mid && '(' !in post && ')' !in y && y != []
    ensures ConvertDialogueFormat(pre + "[" + x + "]" + mid + "(" + y + ")" + post, source, target)
         == pre + "<role_thinking>" + x + "</role_thinking>" + mid + "<role_action>" + y + "</role_action>" + post
  {
    var thought, action := Group('[', ']', {']'}), Group('(', ')', {')'});
    var tOpen, tClose := "<role_thinking>", "</role_thinking>";
    var aOpen, aClose := "<role_action>", "</role_action>";
    var post1 := mid + "(" + y + ")" + post;
    var pre2 := pre + tOpen + x + tClose + mid;
    assert '[' !in post1;
    assert '(' !in tOpen + tClose;
    assert '(' !in pre2 by {
      assert pre2 == pre + (tOpen + x + tClose) + mid;
      forall ch | ch in tOpen + x + tClose
        ensures ch != '('
      {
        assert ch in tOpen + tClose || ch in x;
      }
    }
    assert forall k :: 0 <= k < |x| ==> x[k] in x;
    assert forall k :: 0 <= k < |y| ==> y[k] in y;
    calc {
      ConvertDialogueFormat(pre + "[" + x + "]" + mid + "(" + y + ")" + post, source, target);
      { assert pre + "[" + x + "]" + mid + "(" + y + ")" + post == pre + ['['] + x + [']'] + post1; }
      Sub(Sub(pre + ['['] + x + [']'] + post1, thought, Wrap(tOpen, tClose)), action, Wrap(aOpen, aClose));
      { SubOneGroup(pre, x, post1, '[', ']', {']'}, tOpen, tClose); }
      Sub(pre + tOpen + x + tClose + post1, action, Wrap(aOpen, aClose));
      { assert pre + tOpen + x + tClose + post1 == pre2 + ['('] + y + [')'] + post; }
      Sub(pre2 + ['('] + y + [')'] + post, action, Wrap(aOpen, aClose));
      { SubOneGroup(pre2, y, post, '(', ')', {')'}, aOpen, aClose); }
      pre2 + aOpen + y + aClose + post;
    }
  }

  // ------------------------------------------------------- add_speaker_name

  const FullWidthColon: char := '\U{FF1A}'

  /** Some line of the text, stripped, starts with `speaker:` or `speaker：`. */
  predicate HasSpeakerPrefix(dialogue: String, speaker: String) {
    exists line :: line in Split(dialogue, '\n') &&
      (StartsWith(Strip(line), speaker + ":") || StartsWith(Strip(line), speaker + [FullWidthColon]))
  }

  function AddSpeakerName(dialogue: String, speaker: String): (r: String)
    ensures HasSpeakerPrefix(dialogue, speaker) ==> r == dialogue
    ensures !HasSpeakerPrefix(dialogue, speaker) ==> r == speaker + ": " + dialogue
  {
    if HasSpeakerPrefix(dialogue, speaker) then dialogue else speaker + ": " + dialogue
  }

  /**
   * The prefix that add_speaker_name writes is one it recognises, so adding
   * it a second time changes nothing (for a one-line speaker name that does
   * not start with a blank, which `strip` would remove).
   */
  lemma AddSpeakerNameIdempotent(dialogue: String, speaker: String)
    requires '\n' !in speaker
    requires speaker == [] || !IsSpace(speaker[0])
    ensures HasSpeakerPrefix(AddSpeakerName(dialogue, speaker), speaker)
    ensures AddSpeakerName(AddSpeakerName(dialogue, speaker), speaker) == AddSpeakerName(dialogue, speaker)
  {
    if !HasSpeakerPrefix(dialogue, speaker) {
      var head := speaker + ": ";
      var r := head + dialogue;
      assert '\n' !in head;
      SplitHead(head, dialogue, '\n');
      var line := Split(r, '\n')[0];
      SpeakerLineStarts(speaker, Split(dialogue, '\n')[0]);
      assert line in Split(r, '\n');
      assert StartsWith(Strip(line), speaker + ":");
    }
  }

  /** A line that starts with `speaker: ` still starts with `speaker:` once stripped. */
  lemma SpeakerLineStarts(speaker: String, tail: String)
    requires speaker == [] || !IsSpace(speaker[0])
    ensures StartsWith(Strip(speaker + ": " + tail), speaker + ":")
  {
    var line := speaker + ": " + tail;
    assert line[|speaker|] == ':' && !IsSpace(line[0]);
    assert LStrip(line) == line;
    var st := RStrip(line);
    assert Strip(line) == st;
    assert !IsSpace(line[|speaker|]);
    assert |st| > |speaker|;
    assert st[..|speaker| + 1] == line[..|speaker| + 1] == speaker + ":";
  }

  // ---------------------------------------------------------- model type

  function GetModelType(modelName: String): (r: String)
    ensures r in {"coser", "her", "qwen", "llama3", "api"}
  {
    var l := Lower(modelName);
    if Contains(l, "coser") then "coser"
    else if Contains(l, "her") then "her"
    else if Contains(l, "qwen") then "qwen"
    else if Contains(l, "llama") then "llama3"
    else if Contains(l, "gpt") || Contains(l, "claude") || Contains(l, "gemini") then "api"
    else "her"
  }

  // ---------------------------------------------------------- Qwen prompt

  const PrefillTags: seq<String> := ["<system_thinking>", "<system_think>", "<think>", "<role_thinking>"]
  const QwenGenerationPrefix: String := "<|im_start|>assistant\n"

  /** The last message is an assistant prefill that the prompt leaves open. */
  predicate EndsWithPrefill(msgs: seq<Message>) {
    msgs != [] && msgs[|msgs| - 1].role == "assistant" && msgs[|msgs| - 1].content in PrefillTags
  }

  /** A user message's content with `name: ` in front unless it already starts with `name:`. */
  function NamedContent(m: Message): String {
    if HasName(m) && !StartsWith(m.content, m.name.value + ":") then m.name.value + ": " + m.content
    else m.content
  }

  function QwenPart(m: Message, isLast: bool): String {
    if m.role == "system" then "<|im_start|>system\n" + m.content + "<|im_end|>"
    else if m.role == "assistant" then
      if isLast && m.content in PrefillTags then "<|im_start|>assistant\n" + m.content
      else "<|im_start|>assistant\n" + m.content + "<|im_end|>"
    else "<|im_start|>user\n" + NamedContent(m) + "<|im_end|>"
  }

  /** The prompt parts of format_qwen_prompt, in message order. */
  function QwenParts(msgs: seq<Message>): (r: seq<String>)
    ensures |r| == |msgs|
  {
    seq(|msgs|, i requires 0 <= i < |msgs| => QwenPart(msgs[i], i == |msgs| - 1))
  }

  function QwenPrompt(msgs: seq<Message>): String {
    Join(QwenParts(msgs) + (if EndsWithPrefill(msgs) then [] else [QwenGenerationPrefix]), "\n")
  }

  method FormatQwenPrompt(msgs: seq<Message>) returns (prompt: String)
    ensures prompt == QwenPrompt(msgs)
  {
    var parts: seq<String> := [];
    var i := 0;
    while i < |msgs|
      invariant 0 <= i <= |msgs|
      invariant parts == QwenParts(msgs)[..i]
    {
      var m := msgs[i];
      var isLast := i == |msgs| - 1;
      var part: String;
      if m.role == "system" {
        part := "<|im_start|>system\n" + m.content + "<|im_end|>";
      } else if m.role == "assistant" {
        if isLast && m.content in PrefillTags {
          part := "<|im_start|>assistant\n" + m.content;
        } else {
          part := "<|im_start|>assistant\n" + m.content + "<|im_end|>";
        }
      } else {
        var content := m.content;
        if HasName(m) && !StartsWith(content, m.name.value + ":") {
          content := m.name.value + ": " + content;
        }
        part := "<|im_start|>user\n" + content + "<|im_end|>";
      }
      assert part == QwenPart(m, isLast);
      assert QwenParts(msgs)[..i + 1] == QwenParts(msgs)[..i] + [part];
      parts := parts + [part];
      i := i + 1;
    }
    assert parts == QwenParts(msgs);
    if !EndsWithPrefill(msgs) {
      parts := parts + [QwenGenerationPrefix];
    } else {
      assert parts == QwenParts(msgs) + [];
    }
    prompt := Join(parts, "\n");
  }

  // ---------------------------------------------------- initial messages

  datatype Turn = Turn(character: String, message: String)

  const ConversationStart: String := "===Conversation Start===\n\n"

  /** How `character` sees one past turn: its own as assistant, others' as prefixed user text. */
  function SeenTurn(d: Turn, character: String, modelType: String): Message {
    var content := ConvertDialogueFormat(d.message, "coser", modelType);
    if d.character == character then Message("assistant", content, Some(d.character))
    else
      var visible := RemoveInnerThoughts(content);
      var prefixed := if StartsWith(visible, d.character + ":") then visible else d.character + ": " + visible;
      Message("user", prefixed, Some(d.character))
  }

  function SeenTurns(past: seq<Turn>, character: String, modelType: String): (r: seq<Message>)
    ensures |r| == |past|
    ensures forall k :: 0 <= k < |past| ==> r[k] == SeenTurn(past[k], character, modelType)
  {
    seq(|past|, k requires 0 <= k < |past| => SeenTurn(past[k], character, modelType))
  }

  function InitialMessages(dialogues: seq<Turn>, character: String, systemPrompt: String,
                           modelType: String, continueFrom: int): seq<Message>
  {
    [SystemMsg(systemPrompt), UserMsg(ConversationStart)]
      + SeenTurns(PyPrefix(dialogues, continueFrom), character, modelType)
  }

  method BuildInitialMessages(dialogues: seq<Turn>, character: String, systemPrompt: String,
                              modelType: String, continueFrom: int) returns (msgs: seq<Message>)
    ensures msgs == InitialMessages(dialogues, character, systemPrompt, modelType, continueFrom)
  {
    msgs := [SystemMsg(systemPrompt)];
    var past := PyPrefix(dialogues, continueFrom);
    msgs := msgs + [UserMsg(ConversationStart)];
    var i := 0;
    while i < |past|
      invariant 0 <= i <= |past|
      invariant msgs == [SystemMsg(systemPrompt), UserMsg(ConversationStart)]
                        + SeenTurns(past, character, modelType)[..i]
    {
      var m := SeeTurn(past[i], character, modelType);
      ExtendPrefix([SystemMsg(systemPrompt), UserMsg(ConversationStart)], SeenTurns(past, character, modelType), i);
      msgs := msgs + [m];
      i := i + 1;
    }
    assert SeenTurns(past, character, modelType)[..i] == SeenTurns(past, character, modelType);
  }

  /** One past turn as `character` is shown it: the loop body of the history builder. */
  method SeeTurn(d: Turn, character: String, modelType: String) returns (m: Message)
    ensures m == SeenTurn(d, character, modelType)
  {
    var content := ConvertDialogueFormat(d.message, "coser", modelType);
    var role: String;
    if d.character == character {
      role := "assistant";
    } else {
      role := "user";
      content := RemoveInnerThoughts(content);
      if !StartsWith(content, d.character + ":") {
        content := d.character + ": " + content;
      }
    }
    m := Message(role, content, Some(d.character));
  }

  /** A prompt without a prefill ends by opening a fresh assistant turn; one with a prefill
      ends with the prefill tag itself, left open for the model to continue. */
  lemma QwenPromptEnding(msgs: seq<Message>)
    ensures !EndsWithPrefill(msgs) ==> EndsWith(QwenPrompt(msgs), QwenGenerationPrefix)
    ensures EndsWithPrefill(msgs) ==> EndsWith(QwenPrompt(msgs), msgs[|msgs| - 1].content)
  {
    var parts := QwenParts(msgs);
    if !EndsWithPrefill(msgs) {
      if |parts| == 0 {
        assert parts + [QwenGenerationPrefix] == [QwenGenerationPrefix];
      } else {
        JoinAppend(parts, QwenGenerationPrefix, "\n");
      }
    } else {
      var n := |msgs|;
      var last := QwenPart(msgs[n - 1], true);
      assert last == "<|im_start|>assistant\n" + msgs[n - 1].content;
      assert parts == parts[..n - 1] + [last];
      assert parts + [] == parts;
      if n == 1 {
        assert parts == [last];
      } else {
        JoinAppend(parts[..n - 1], last, "\n");
      }
    }
  }

  /** `m` shows turn `d` to `character` the way the simulator promises: named after the speaker,
      an assistant message exactly when the speaker is the character, a user message otherwise,
      and in that case led by the speaker's name. */
  predicate ShownAs(m: Message, d: Turn, character: String) {
    && m.name == Some(d.character)
    && (m.role == "assistant" <==> d.character == character)
    && (m.role == "user" <==> d.character != character)
    && (d.character != character ==> StartsWith(m.content, d.character + ":"))
  }

  lemma SeenTurnShape(d: Turn, character: String, modelType: String)
    ensures ShownAs(SeenTurn(d, character, modelType), d, character)
  {
    if d.character != character {
      var visible := RemoveInnerThoughts(ConvertDialogueFormat(d.message, "coser", modelType));
      if !StartsWith(visible, d.character + ":") {
        NamePrefixStarts(d.character, ": ", visible);
      }
    }
  }

  lemma NamePrefixStarts(name: String, sep: String, rest: String)
    requires sep == ": "
    ensures StartsWith(name + sep + rest, name + ":")
  {
    assert name + ":" == name + sep[..1];
    assert (name + sep + rest)[..|name| + 1] == name + sep[..1];
  }

  /** The opening of every simulated conversation: the system prompt, the start marker, and one
      message per past turn, in order, each shown to the character as `ShownAs` describes. */
  lemma InitialMessagesShape(dialogues: seq<Turn>, character: String, systemPrompt: String,
                             modelType: String, continueFrom: int)
    ensures var r := InitialMessages(dialogues, character, systemPrompt, modelType, continueFrom);
            var past := PyPrefix(dialogues, continueFrom);
            |r| == 2 + |past| && r[0] == SystemMsg(systemPrompt) && r[1] == UserMsg(ConversationStart)
            && forall k :: 0 <= k < |past| ==> ShownAs(r[k + 2], past[k], character)
  {
    var head := [SystemMsg(systemPrompt), UserMsg(ConversationStart)];
    OpeningShape(head, PyPrefix(dialogues, continueFrom), character, modelType);
  }

  lemma OpeningShape(head: seq<Message>, past: seq<Turn>, character: String, modelType: String)
    ensures var r := head + SeenTurns(past, character, modelType);
            |r| == |head| + |past| && r[..|head|] == head
            && forall k :: 0 <= k < |past| ==> ShownAs(r[|head| + k], past[k], character)
  {
    forall k | 0 <= k < |past| {
      SeenTurnShape(past[k], character, modelType);
    }
  }

  // ------------------------------------------------------------- lemmas

  lemma {:induction false} JoinStripEachShorter(parts: seq<String>, sep: String)
    ensures |Join(StripEach(parts), sep)| <= |Join(parts, sep)|
    decreases |parts|
  {
    if |parts| > 1 {
      JoinStripEachShorter(parts[1..], sep);
      assert StripEach(parts)[1..] == StripEach(parts[1..]);
    }
  }

  lemma CleanLinesShrinks(s: String)
    ensures |CleanLines(s)| <= |s|
  {
    JoinSplit(s, '\n');
    JoinStripEachShorter(Split(s, '\n'), "\n");
    var j := Join(StripEach(Split(s, '\n')), "\n");
    SubRunShrinks(j, '\n', 0);
  }

  lemma DropTaggedShrinks(s: String, open: Pat, close: Pat)
    ensures |DropTagged(s, open, close)| <= |s|
    ensures |DropTagged(s, open, close)| == |s| ==> DropTagged(s, open, close) == s
    ensures HasMatch(s, open) ==> |DropTagged(s, open, close)| < |s|
  {
    SubDelete(s, Block(open, close, false, false, true));
  }

  /** One round of the passes never lengthens the text, and shortens it while an opener is left. */
  lemma RoundShrinks(s: String)
    ensures |RemoveSystemThinkingOnce(s)| <= |s|
    ensures HasThinkingOpener(s) ==> |RemoveSystemThinkingOnce(s)| < |s|
  {
    var a0 := DropTagged(s, SysOpen, SysClose);
    DropTaggedShrinks(s, SysOpen, SysClose);
    var a := Sub(a0, SysClose, Delete);
    SubDelete(a0, SysClose);
    var b := DropTagged(a, ThinkOpen, Lit("</think>"));
    DropTaggedShrinks(a, ThinkOpen, Lit("</think>"));
    var c := DropTagged(b, ThoughtOpen, Lit("</thought>"));
    DropTaggedShrinks(b, ThoughtOpen, Lit("</thought>"));
    var d := DropTagged(c, RoleThinkOpen, Lit("</role_think>"));
    DropTaggedShrinks(c, RoleThinkOpen, Lit("</role_think>"));
    assert d == StripThinkingTags(s);
    CleanLinesShrinks(d);
  }

  // ------------------------------------------ one round is not always enough

  /**
   * A `<thought>` block sitting inside the word `<think>`: the thought pass
   * deletes the block and so joins the two halves into a `<think>` opener,
   * which the think pass (already run) does not see again.
   */
  const NestedOpener: String := "<th" + "<thought>" + "</thought>" + "ink>s"

  /** The `<`-headed openers cannot match where there is no `<`. */
  lemma NoOpenerWithoutLt(s: String, k: nat)
    requires k <= |s| && (k < |s| ==> s[k] != '<')
    ensures MatchAt(SysOpen, s, k).None? && MatchAt(SysClose, s, k).None? && MatchAt(ThinkOpen, s, k).None?
    ensures MatchAt(ThoughtOpen, s, k).None? && MatchAt(RoleThinkOpen, s, k).None?
  {
    if k < |s| {
      LitMiss(s, "<think>", k);
      LitMiss(s, "<thought>", k);
      LitMiss(s, "<role_think>", k);
    }
  }

  /** A system-thinking tag cannot match where the name after `<` (or `</`) starts with neither `s` nor a blank. */
  lemma SysTagMiss(s: String, k: nat, closing: bool)
    requires (if closing then k + 2 else k + 1) < |s|
    requires s[if closing then k + 2 else k + 1] != 's' && !IsSpace(s[if closing then k + 2 else k + 1])
    ensures MatchAt(SysTag(closing, false), s, k).None?
  {
    var a := if closing then k + 2 else k + 1;
    assert SkipSpace(s, a) == a;
    if a + 6 <= |s| {
      assert s[a..a + 6][0] == s[a];
    }
  }

  /** A literal cannot match where the text differs from it at offset `d`. */
  lemma LitDiffers(s: String, t: String, k: nat, d: nat)
    requires d < |t| && k + d < |s| && s[k + d] != t[d]
    ensures MatchAt(Lit(t), s, k).None?
  {
    if k + |t| <= |s| {
      assert s[k..k + |t|][d] == s[k + d];
    }
  }

  /** None of the `<` of the sample, at 0, 3 and 12, starts a system-thinking tag or a `<think>`. */
  lemma NestedTagsMiss(k: nat)
    requires k == 0 || k == 3 || k == 12
    ensures MatchAt(SysOpen, NestedOpener, k).None?
    ensures MatchAt(SysClose, NestedOpener, k).None?
    ensures MatchAt(ThinkOpen, NestedOpener, k).None?
  {
    SysTagMiss(NestedOpener, k, false);
    SysTagMiss(NestedOpener, k, true);
    LitDiffers(NestedOpener, "<think>", k, if k == 12 then 1 else 3);
  }

  /** The sample has no other `<`. */
  lemma NestedLt(k: nat)
    requires k < |NestedOpener| && k != 0 && k != 3 && k != 12
    ensures NestedOpener[k] != '<'
  {
    var s := NestedOpener;
    if k < 3 {
      assert s[k] == "<th"[k];
    } else if k < 12 {
      assert s[k] == "<thought>"[k - 3];
    } else if k < 22 {
      assert s[k] == "</thought>"[k - 12];
    } else {
      assert s[k] == "ink>s"[k - 22];
    }
  }

  /** The sample holds no system-thinking tag and no `<think>`. */
  lemma NestedNoOpener(k: nat)
    requires k <= |NestedOpener|
    ensures MatchAt(SysOpen, NestedOpener, k).None?
    ensures MatchAt(SysClose, NestedOpener, k).None?
    ensures MatchAt(ThinkOpen, NestedOpener, k).None?
  {
    if k == 0 || k == 3 || k == 12 {
      NestedTagsMiss(k);
    } else {
      if k < |NestedOpener| {
        NestedLt(k);
      }
      NoOpenerWithoutLt(NestedOpener, k);
    }
  }

  /** A pattern longer than the text, alone or as the opener of a block, never matches. */
  lemma ShortNoMatch(s: String, t: String, close: Pat)
    requires |s| < |t|
    ensures !HasMatch(s, Lit(t)) && !HasMatch(s, Block(Lit(t), close, false, false, true))
  {
    forall k | 0 <= k <= |s|
      ensures MatchAt(Lit(t), s, k).None? && MatchAt(Block(Lit(t), close, false, false, true), s, k).None?
    {
    }
  }

  /** Line cleanup leaves a one-line text with no blank at its ends as it is. */
  lemma CleanLinesKeeps(s: String)
    requires s != [] && '\n' !in s && !IsSpace(s[0]) && !IsSpace(s[|s| - 1])
    ensures CleanLines(s) == s
  {
    JoinSplit(s, '\n');
    var parts := Split(s, '\n');
    assert parts == [s];
    assert Strip(s) == s by {
      assert LStrip(s) == s;
      assert RStrip(s) == s;
    }
    assert StripEach(parts) == [s];
    forall k | 0 <= k <= |s|
      ensures MatchAt(Run('\n'), s, k).None?
    {
      if k < |s| {
        assert s[k] in s;
      }
    }
    SubNoMatch(s, Run('\n'), Const("\n"), 0);
    assert s[0..] == s;
  }

  /** The system-thinking pass finds nothing in the sample. */
  lemma NestedSysPass()
    ensures Sub(DropTagged(NestedOpener, SysOpen, SysClose), SysClose, Delete) == NestedOpener
  {
    var s := NestedOpener;
    var sysBlock := Block(SysOpen, SysClose, false, false, true);
    NestedSysMisses();
    SubDelete(s, sysBlock);
    assert Sub(s, sysBlock, Delete) == s;
    CutNoMatch(s, SysOpen);
    assert DropTagged(s, SysOpen, SysClose) == s;
    SubDelete(s, SysClose);
  }

  /** No system-thinking tag or block matches anywhere in the sample. */
  lemma NestedSysMisses()
    ensures !HasMatch(NestedOpener, SysOpen) && !HasMatch(NestedOpener, SysClose)
    ensures !HasMatch(NestedOpener, Block(SysOpen, SysClose, false, false, true))
  {
    var s := NestedOpener;
    var sysBlock := Block(SysOpen, SysClose, false, false, true);
    forall k | 0 <= k <= |s|
      ensures MatchAt(SysOpen, s, k).None? && MatchAt(SysClose, s, k).None? && MatchAt(sysBlock, s, k).None?
    {
      NestedNoOpener(k);
    }
  }

  /** Neither does the think pass. */
  lemma NestedThinkPass()
    ensures DropTagged(NestedOpener, ThinkOpen, Lit("</think>")) == NestedOpener
  {
    var s := NestedOpener;
    var thinkBlock := Block(ThinkOpen, Lit("</think>"), false, false, true);
    forall k | 0 <= k <= |s|
      ensures MatchAt(ThinkOpen, s, k).None? && MatchAt(thinkBlock, s, k).None?
    {
      NestedNoOpener(k);
    }
    SubDelete(s, thinkBlock);
  }

  /** The thought pass deletes the empty thought block and so joins `<th` and `ink>`. */
  lemma NestedThoughtPass()
    ensures DropTagged(NestedOpener, ThoughtOpen, Lit("</thought>")) == "<th" + "ink>s"
  {
    var pre, o, c, post := "<th", "<thought>", "</thought>", "ink>s";
    assert NestedOpener == pre + o + [] + c + post;
    forall j | 0 <= j < |pre|
      ensures !OccursAt(pre + o, o, j)
    {
      if j == 0 {
        LitDiffers(pre + o, o, 0, 3);
      } else {
        LitDiffers(pre + o, o, j, 0);
      }
    }
    NoOccurrenceWithoutHead(post, [], o);
    assert post + [] == post;
    SubOneBlock(pre, o, [], c, post, false);
    ShortNoMatch(pre + post, o, Lit(c));
  }

  /** The round, pass by pass, for a text the first two passes leave alone. */
  lemma RoundThroughThought(s: String, r: String)
    requires Sub(DropTagged(s, SysOpen, SysClose), SysClose, Delete) == s
    requires DropTagged(s, ThinkOpen, Lit("</think>")) == s
    requires DropTagged(s, ThoughtOpen, Lit("</thought>")) == r
    requires |r| < |"<role_think>"|
    ensures StripThinkingTags(s) == r
  {
    var roleBlock := Block(RoleThinkOpen, Lit("</role_think>"), false, false, true);
    ShortNoMatch(r, "<role_think>", Lit("</role_think>"));
    SubDelete(r, roleBlock);
    CutNoMatch(r, RoleThinkOpen);
  }

  /**
   * One round of the passes, as remove_system_thinking runs them, can leave
   * an opener behind: the thought pass turns the sample into `<think>s`.
   */
  lemma OneRoundLeavesOpener()
    ensures RemoveSystemThinkingOnce(NestedOpener) == "<think>s"
    ensures HasThinkingOpener(RemoveSystemThinkingOnce(NestedOpener))
  {
    NestedSysPass();
    NestedThinkPass();
    NestedThoughtPass();
    RoundThroughThought(NestedOpener, "<th" + "ink>s");
    JoinedOpener("<th" + "ink>s");
  }

  /** What the round leaves is a `<think>` opener that line cleanup keeps. */
  lemma JoinedOpener(r: String)
    requires r == "<th" + "ink>s"
    ensures r == "<think>s"
    ensures CleanLines(r) == r && HasThinkingOpener(r)
  {
    JoinedThinkOpener(r);
    JoinedOneLine(r);
    CleanLinesKeeps(r);
  }

  lemma JoinedOneLine(r: String)
    requires r == "<th" + "ink>s"
    ensures r != [] && '\n' !in r && !IsSpace(r[0]) && !IsSpace(r[|r| - 1])
  {
    assert r == ['<', 't', 'h', 'i', 'n', 'k', '>', 's'];
  }

  lemma JoinedThinkOpener(r: String)
    requires r == "<th" + "ink>s"
    ensures r == "<think>" + "s" && HasThinkingOpener(r)
  {
    LitHitPrefix("<think>", "s");
  }

  // ------------------------------------------- HER markup passes untouched

  /**
   * No opener the tag passes look for starts anywhere in a reply in HER
   * markup; in particular `<role_think>` needs a `>` where `<role_thinking>`
   * goes on with `i`.
   */
  lemma HerNoOpener(ps: seq<HerTags.Piece>, k: nat)
    requires HerTags.Markup(ps) && k <= |HerTags.Her(ps)|
    ensures MatchAt(SysOpen, HerTags.Her(ps), k).None? && MatchAt(SysClose, HerTags.Her(ps), k).None?
    ensures MatchAt(ThinkOpen, HerTags.Her(ps), k).None? && MatchAt(ThoughtOpen, HerTags.Her(ps), k).None?
    ensures MatchAt(RoleThinkOpen, HerTags.Her(ps), k).None?
  {
    var s := HerTags.Her(ps);
    if k < |s| && s[k] == '<' {
      var t := HerTags.LtStartsTag(ps, k);
      HerTags.TagShape(t);
      TagLetters(t);
      TagNotOpener(s, k, HerTags.TagText(t), OpenerPart(t));
    } else {
      NoOpenerWithoutLt(s, k);
    }
  }

  /** Where a tag parts from `<role_think>`: after `<role_` for the other opening tags. */
  function OpenerPart(t: HerTags.Tag): (d: nat)
    ensures d < 12
  {
    if t.OpenThinking? then 11 else if t.OpenAction? || t.OpenSpeech? then 6 else 1
  }

  /** The letters of a tag that none of the five system-thinking openers has there. */
  lemma TagLetters(t: HerTags.Tag)
    ensures |HerTags.TagText(t)| >= 13
    ensures HerTags.TagText(t)[1] != 's' && HerTags.TagText(t)[1] != 't' && !IsSpace(HerTags.TagText(t)[1])
    ensures HerTags.TagText(t)[2] != 's' && !IsSpace(HerTags.TagText(t)[2])
    ensures HerTags.TagText(t)[OpenerPart(t)] != "<role_think>"[OpenerPart(t)]
  {
  }

  /** No system-thinking opener matches where a tag stands. */
  lemma TagNotOpener(s: String, k: nat, tag: String, d: nat)
    requires |tag| >= 13 && OccursAt(s, tag, k)
    requires tag[1] != 's' && tag[1] != 't' && !IsSpace(tag[1]) && tag[2] != 's' && !IsSpace(tag[2])
    requires d < 12 && tag[d] != "<role_think>"[d]
    ensures MatchAt(SysOpen, s, k).None? && MatchAt(SysClose, s, k).None?
    ensures MatchAt(ThinkOpen, s, k).None? && MatchAt(ThoughtOpen, s, k).None?
    ensures MatchAt(RoleThinkOpen, s, k).None?
  {
    assert s[k..k + |tag|] == tag;
    assert s[k + 1] == tag[1] && s[k + 2] == tag[2] && s[k + d] == tag[d];
    SysTagMiss(s, k, false);
    SysTagMiss(s, k, true);
    LitDiffers(s, "<think>", k, 1);
    LitDiffers(s, "<thought>", k, 1);
    LitDiffers(s, "<role_think>", k, d);
  }

  /**
   * Text without an opener or a stray system-thinking closing tag only gets
   * the line cleanup.
   */
  lemma OnceKeeps(s: String)
    requires !HasThinkingOpener(s) && !HasMatch(s, SysClose)
    ensures StripThinkingTags(s) == s
    ensures RemoveSystemThinkingOnce(s) == CleanLines(s)
  {
    NoMatchNowhere(s, SysOpen);
    NoMatchNowhere(s, ThinkOpen);
    NoMatchNowhere(s, ThoughtOpen);
    NoMatchNowhere(s, RoleThinkOpen);
    DropTaggedKeeps(s, SysOpen, SysClose);
    SubDelete(s, SysClose);
    DropTaggedKeeps(s, ThinkOpen, Lit("</think>"));
    DropTaggedKeeps(s, ThoughtOpen, Lit("</thought>"));
    DropTaggedKeeps(s, RoleThinkOpen, Lit("</role_think>"));
  }

  /**
   * A closed `<think>` block is deleted with its tags: when what surrounds it
   * holds no opener, the result is the line cleanup of the text around it.
   */
  lemma OnceDropsThinkBlock(pre: String, body: String, post: String)
    requires !HasMatch(pre + "<think>" + body + "</think>" + post, SysOpen)
    requires !HasMatch(pre + "<think>" + body + "</think>" + post, SysClose)
    requires NoOccurrenceBefore(pre + "<think>", "<think>", |pre|)
    requires NoOccurrenceBefore(body + "</think>", "</think>", |body|)
    requires NoOccurrenceBefore(post, "<think>", |post|)
    requires !HasThinkingOpener(pre + post)
    ensures RemoveSystemThinkingOnce(pre + "<think>" + body + "</think>" + post) == CleanLines(pre + post)
  {
    var s := pre + "<think>" + body + "</think>" + post;
    NoMatchNowhere(s, SysOpen);
    DropTaggedKeeps(s, SysOpen, SysClose);
    SubDelete(s, SysClose);
    ThinkPassDropsBlock(pre, body, post);
    var rest := pre + post;
    NoMatchNowhere(rest, ThoughtOpen);
    NoMatchNowhere(rest, RoleThinkOpen);
    DropTaggedKeeps(rest, ThoughtOpen, Lit("</thought>"));
    DropTaggedKeeps(rest, RoleThinkOpen, Lit("</role_think>"));
  }

  /** The think pass deletes the one closed block and finds no opener after it. */
  lemma ThinkPassDropsBlock(pre: String, body: String, post: String)
    requires NoOccurrenceBefore(pre + "<think>", "<think>", |pre|)
    requires NoOccurrenceBefore(body + "</think>", "</think>", |body|)
    requires NoOccurrenceBefore(post, "<think>", |post|)
    requires !HasMatch(pre + post, ThinkOpen)
    ensures DropTagged(pre + "<think>" + body + "</think>" + post, ThinkOpen, Lit("</think>")) == pre + post
  {
    SubOneBlock(pre, "<think>", body, "</think>", post, false);
    CutNoMatch(pre + post, ThinkOpen);
  }

  /** A pass whose opener matches nowhere leaves the text as it is. */
  lemma DropTaggedKeeps(s: String, open: Pat, close: Pat)
    requires forall k :: 0 <= k <= |s| ==> MatchAt(open, s, k).None?
    ensures DropTagged(s, open, close) == s
  {
    var block := Block(open, close, false, false, true);
    forall k | 0 <= k <= |s|
      ensures MatchAt(block, s, k).None?
    {
      assert MatchAt(open, s, k).None?;
    }
    SubDelete(s, block);
  }

  /**
   * The tag passes of remove_system_thinking leave a reply in HER markup as
   * it is: its role_thinking, role_action and role_speech blocks survive, and
   * only the line cleanup applies.
   */
  lemma HerMarkupKept(ps: seq<HerTags.Piece>)
    requires HerTags.Markup(ps)
    ensures StripThinkingTags(HerTags.Her(ps)) == HerTags.Her(ps)
    ensures RemoveSystemThinkingOnce(HerTags.Her(ps)) == CleanLines(HerTags.Her(ps))
  {
    var s := HerTags.Her(ps);
    forall k | 0 <= k <= |s|
      ensures MatchAt(SysOpen, s, k).None? && MatchAt(SysClose, s, k).None?
      ensures MatchAt(ThinkOpen, s, k).None? && MatchAt(ThoughtOpen, s, k).None?
      ensures MatchAt(RoleThinkOpen, s, k).None?
    {
      HerNoOpener(ps, k);
    }
    DropTaggedKeeps(s, SysOpen, SysClose);
    SubDelete(s, SysClose);
    DropTaggedKeeps(s, ThinkOpen, Lit("</think>"));
    DropTaggedKeeps(s, ThoughtOpen, Lit("</thought>"));
    DropTaggedKeeps(s, RoleThinkOpen, Lit("</role_think>"));
  }
}
