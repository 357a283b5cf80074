// Splitting a model's continuation into its spontaneous thinking and the
// role-play response: by the first closing thinking tag that occurs, else at
// the first "Name: " speaker line, else at the first <role_thinking>, else
// not at all.

module ThinkSplit {
  import opened Basics
  import opened Text

  /** The thinking tags whose closing form can end the thinking. */
  datatype ThinkTag = Thinker | Think | Thinking | Thought

  function TagName(tag: ThinkTag): String {
    match tag
    case Thinker => "thinker"
    case Think => "think"
    case Thinking => "thinking"
    case Thought => "thought"
  }

  /** How the text was split; a tag split is named after its tag. */
  datatype SplitMethod = TagSplit(tag: ThinkTag) | NamePattern | RoleThinkingDirect | NoSplit

  datatype Extracted = Extracted(thinking: String, response: String, how: SplitMethod)

  /** The closing tags, in the order they are tried. */
  const EndTagOrder: seq<ThinkTag> := [Thinker, Think, Thinking, Thought]

  function EndTag(tag: ThinkTag): String {
    "</" + TagName(tag) + ">"
  }

  /** The first tag name at or after position `k` of the list whose closing tag occurs in `text`. */
  function FirstEndTag(text: String, k: nat): (r: Option<nat>)
    requires k <= |EndTagOrder|
    ensures r.Some? ==> k <= r.value < |EndTagOrder| && Contains(text, EndTag(EndTagOrder[r.value]))
    ensures r.Some? ==> forall j :: k <= j < r.value ==> !Contains(text, EndTag(EndTagOrder[j]))
    ensures r.None? ==> forall j :: k <= j < |EndTagOrder| ==> !Contains(text, EndTag(EndTagOrder[j]))
    decreases |EndTagOrder| - k
  {
    if k == |EndTagOrder| then None
    else if Contains(text, EndTag(EndTagOrder[k])) then Some(k)
    else FirstEndTag(text, k + 1)
  }

  /** Dropping an opening `<name>` or `<name ` from the thinking, then stripping again. */
  function DropOpenTag(thinking: String, tag: ThinkTag): (r: String)
    ensures |r| <= |thinking|
    ensures Infix(r, thinking)
  {
    var full := "<" + TagName(tag) + ">";
    var partial := "<" + TagName(tag) + " ";
    if StartsWith(thinking, full) then
      StripSliceInfix(thinking, |full|, |thinking|);
      assert thinking[|full|..|thinking|] == thinking[|full|..];
      Strip(thinking[|full|..])
    else if StartsWith(thinking, partial) then
      StripSliceInfix(thinking, |partial|, |thinking|);
      assert thinking[|partial|..|thinking|] == thinking[|partial|..];
      Strip(thinking[|partial|..])
    else
      assert OccursAt(thinking, thinking, 0);
      thinking
  }

  // ------------------------------------------------------ speaker lines

  function SkipAlpha(s: String, i: nat): (j: nat)
    requires i <= |s|
    ensures i <= j <= |s|
    ensures forall k :: i <= k < j ==> IsAlpha(s[k])
    ensures j == |s| || !IsAlpha(s[j])
    decreases |s| - i
  {
    if i < |s| && IsAlpha(s[i]) then SkipAlpha(s, i + 1) else i
  }

  /** `[A-Z][a-zA-Z]+` at `i`: where the word ends. */
  function WordEnd(s: String, i: nat): (r: Option<nat>)
    requires i <= |s|
    ensures r.Some? ==> i + 2 <= r.value <= |s|
  {
    if i + 1 < |s| && IsUpper(s[i]) && IsAlpha(s[i + 1]) then Some(SkipAlpha(s, i + 2)) else None
  }

  /**
   * `(?: [A-Z][a-zA-Z]+)*` after a word ending at `j`. Letters are taken
   * greedily and a word is only followed by a space or the colon, so the
   * regex never has to give a word back.
   */
  function NameEnd(s: String, j: nat): (r: nat)
    requires j <= |s|
    ensures j <= r <= |s|
    decreases |s| - j
  {
    if j < |s| && s[j] == ' ' && WordEnd(s, j + 1).Some? then NameEnd(s, WordEnd(s, j + 1).value) else j
  }

  /** `\n([A-Z][a-zA-Z]+(?: [A-Z][a-zA-Z]+)*): (<role_thinking>|<role_action>|[^<\n])` matches at `p`. */
  predicate SpeakerLineAt(s: String, p: nat)
    requires p <= |s|
  {
    p < |s| && s[p] == '\n' && WordEnd(s, p + 1).Some? &&
    var e := NameEnd(s, WordEnd(s, p + 1).value);
    OccursAt(s, ": ", e) &&
    var k := e + 2;
    OccursAt(s, "<role_thinking>", k) || OccursAt(s, "<role_action>", k) ||
    (k < |s| && s[k] != '<' && s[k] != '\n')
  }

  /** `re.search` for a speaker line: its first starting position at or after `p`. */
  function FirstSpeakerLine(s: String, p: nat): (r: Option<nat>)
    requires p <= |s|
    ensures r.Some? ==> p <= r.value < |s| && SpeakerLineAt(s, r.value)
    ensures r.Some? ==> forall q :: p <= q < r.value ==> !SpeakerLineAt(s, q)
    ensures r.None? ==> forall q :: p <= q <= |s| ==> !SpeakerLineAt(s, q)
    decreases |s| - p
  {
    if SpeakerLineAt(s, p) then Some(p)
    else if p == |s| then None
    else FirstSpeakerLine(s, p + 1)
  }

  // ------------------------------------------------------------ the split

  /** `text[:pos].strip()`. */
  function Before(t: String, pos: nat): (r: String)
    requires pos <= |t|
    ensures Infix(r, t)
  {
    StripSliceInfix(t, 0, pos);
    assert t[0..pos] == t[..pos];
    Strip(t[..pos])
  }

  /** `text[pos:].strip()`. */
  function After(t: String, pos: nat): (r: String)
    requires pos <= |t|
    ensures Infix(r, t)
  {
    StripSuffixInfix(t, pos);
    Strip(t[pos..])
  }

  /** Thinking before `pos`, response from `pos` on, both stripped. */
  function SplitAt(t: String, pos: nat, m: SplitMethod): (r: Extracted)
    requires pos <= |t|
    ensures Infix(r.thinking, t) && Infix(r.response, t) && r.how == m
  {
    Extracted(Before(t, pos), After(t, pos), m)
  }

  /** The response is what follows the first occurrence of the closing form of `tag`. */
  predicate ResponseAfterTag(t: String, tag: ThinkTag, response: String) {
    Find(t, EndTag(tag)).Some? && response == After(t, Find(t, EndTag(tag)).value + |EndTag(tag)|)
  }

  /** The split at an occurrence `p` of the closing form of `tag`. */
  function TagSplitAt(t: String, tag: ThinkTag, p: nat): (r: Extracted)
    requires p + |EndTag(tag)| <= |t|
    ensures Infix(r.thinking, t) && Infix(r.response, t)
    ensures r.thinking == DropOpenTag(Before(t, p), tag)
    ensures r.response == After(t, p + |EndTag(tag)|) && r.how == TagSplit(tag)
  {
    var thinking := Before(t, p);
    var dropped := DropOpenTag(thinking, tag);
    InfixTrans(t, thinking, dropped);
    Extracted(dropped, After(t, p + |EndTag(tag)|), TagSplit(tag))
  }

  /** Split at the first occurrence of the tag, the response is what follows it. */
  lemma TagSplitFirst(t: String, tag: ThinkTag)
    requires Contains(t, EndTag(tag))
    ensures ResponseAfterTag(t, tag, TagSplitAt(t, tag, Find(t, EndTag(tag)).value).response)
  {
  }

  /** A piece of a piece is a piece. */
  lemma InfixTrans(s: String, t: String, u: String)
    requires Infix(t, s) && Infix(u, t)
    ensures Infix(u, s)
  {
    var a :| OccursAt(s, t, a);
    var b :| OccursAt(t, u, b);
    OccursTrans(s, t, u, a, b);
  }

  /**
   * The split of an already stripped text: the first closing tag in list
   * order wins, then a speaker line, then `<role_thinking>`, else none.
   */
  function SplitStripped(t: String): (r: Extracted)
    ensures r.how.TagSplit? <==> FirstEndTag(t, 0).Some?
    ensures r.how.TagSplit? ==> r.how.tag == EndTagOrder[FirstEndTag(t, 0).value]
    ensures r.how.TagSplit? ==> ResponseAfterTag(t, r.how.tag, r.response)
    ensures r.how.TagSplit? ==>
      var p := Find(t, EndTag(r.how.tag)).value;
      p + |EndTag(r.how.tag)| <= |t| && r == TagSplitAt(t, r.how.tag, p)
    ensures r.how.NamePattern? <==> FirstEndTag(t, 0).None? && FirstSpeakerLine(t, 0).Some?
    ensures r.how.NamePattern? ==> r == SplitAt(t, FirstSpeakerLine(t, 0).value, NamePattern)
    ensures r.how.RoleThinkingDirect? <==>
      FirstEndTag(t, 0).None? && FirstSpeakerLine(t, 0).None? && Find(t, "<role_thinking>").Some?
    ensures r.how.RoleThinkingDirect? ==> r == SplitAt(t, Find(t, "<role_thinking>").value, RoleThinkingDirect)
    ensures r.how.NoSplit? ==> r == Extracted("", t, NoSplit)
  {
    match FirstEndTag(t, 0)
    case Some(k) => SplitTagged(t, EndTagOrder[k])
    case None => SplitUntagged(t)
  }

  /** The split at the first occurrence of the closing form of `tag`. */
  function SplitTagged(t: String, tag: ThinkTag): (r: Extracted)
    requires Contains(t, EndTag(tag))
    ensures r.how == TagSplit(tag) && ResponseAfterTag(t, tag, r.response)
    ensures var p := Find(t, EndTag(tag)).value;
      p + |EndTag(tag)| <= |t| && r == TagSplitAt(t, tag, p)
  {
    TagSplitFirst(t, tag);
    TagSplitAt(t, tag, Find(t, EndTag(tag)).value)
  }

  /** The split when no closing tag occurs: a speaker line, else `<role_thinking>`, else none. */
  function SplitUntagged(t: String): (r: Extracted)
    ensures !r.how.TagSplit?
    ensures r.how.NamePattern? <==> FirstSpeakerLine(t, 0).Some?
    ensures r.how.NamePattern? ==> r == SplitAt(t, FirstSpeakerLine(t, 0).value, NamePattern)
    ensures r.how.RoleThinkingDirect? <==> FirstSpeakerLine(t, 0).None? && Find(t, "<role_thinking>").Some?
    ensures r.how.RoleThinkingDirect? ==> r == SplitAt(t, Find(t, "<role_thinking>").value, RoleThinkingDirect)
    ensures r.how.NoSplit? ==> r == Extracted("", t, NoSplit)
  {
    match FirstSpeakerLine(t, 0)
    case Some(p) => SplitAt(t, p, NamePattern)
    case None =>
      match Find(t, "<role_thinking>")
      case Some(p) => SplitAt(t, p, RoleThinkingDirect)
      case None => Extracted("", t, NoSplit)
  }

  /** extract_thinking_and_response: strip the text, then split it. */
  function ExtractThinking(text: String): Extracted {
    SplitStripped(Strip(text))
  }

  /** Whatever the method, thinking and response are both pieces of the stripped text: nothing is invented. */
  lemma NothingInvented(text: String)
    ensures Infix(ExtractThinking(text).thinking, Strip(text))
    ensures Infix(ExtractThinking(text).response, Strip(text))
  {
    var t := Strip(text);
    var r := SplitStripped(t);
    match FirstEndTag(t, 0)
    case Some(k) =>
      var tag := EndTagOrder[k];
      TagSplitFirst(t, tag);
      assert r == TagSplitAt(t, tag, Find(t, EndTag(tag)).value);
    case None =>
      match FirstSpeakerLine(t, 0)
      case Some(p) =>
        assert r == SplitAt(t, p, NamePattern);
      case None =>
        match Find(t, "<role_thinking>")
        case Some(p) =>
          assert r == SplitAt(t, p, RoleThinkingDirect);
        case None =>
          assert r == Extracted("", t, NoSplit);
          assert OccursAt(t, t, 0);
          assert OccursAt(t, "", 0);
  }

  /** The text is left whole exactly when no split point of any kind is present. */
  lemma NoSplitIff(text: String)
    ensures ExtractThinking(text).how.NoSplit? <==>
      (forall j :: 0 <= j < |EndTagOrder| ==> !Contains(Strip(text), EndTag(EndTagOrder[j]))) &&
      FirstSpeakerLine(Strip(text), 0).None? && !Contains(Strip(text), "<role_thinking>")
  {
    var t := Strip(text);
    if FirstEndTag(t, 0).Some? {
      var k := FirstEndTag(t, 0).value;
      assert Contains(t, EndTag(EndTagOrder[k]));
    }
  }
}
