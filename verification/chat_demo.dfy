// The text clean-up of the interactive chat demo: the model's reply carries
// a `<system_thinking>` block (the reasoning the demo shows apart) followed
// by HER markup, which the demo shows with brackets.

module ChatDemo {
  import opened Basics
  import opened Text
  import opened Patterns
  import opened HerTags

  const SysOpen: String := "<system_thinking>"
  const SysClose: String := "</system_thinking>"

  /** `<system_thinking>.*?</system_thinking>\s*` under DOTALL. */
  const SysBlockPadded: Pat := Block(Lit(SysOpen), Lit(SysClose), false, true, true)

  /** `<system_thinking>(.*?)</system_thinking>` under DOTALL. */
  const SysBlock: Pat := Block(Lit(SysOpen), Lit(SysClose), false, false, true)

  /** `<role_thinking>.*?</role_thinking>` under DOTALL. */
  const ThinkingBlock: Pat := Block(Lit(TagText(OpenThinking)), Lit(TagText(CloseThinking)), false, false, true)

  /** `remove_system_thinking`: drop every system-thinking block and the blanks after it, then strip. */
  function RemoveSystemThinking(text: String): (r: String)
    ensures |r| <= |text|
    ensures HasMatch(text, SysBlockPadded) ==> |r| < |text|
    ensures text == [] ==> r == []
    ensures !HasMatch(text, SysBlockPadded) ==> r == Strip(text)
  {
    if text == [] then text
    else
      SubDelete(text, SysBlockPadded);
      Strip(Sub(text, SysBlockPadded, Delete))
  }

  /** `extract_system_thinking`: the stripped content of the first block, with role tags removed; empty when there is none. */
  function ExtractSystemThinking(text: String): (r: String)
    ensures !HasMatch(text, SysBlock) ==> r == []
    ensures HasMatch(text, SysBlock) ==> |r| + |SysOpen| + |SysClose| <= |text|
  {
    if text == [] then []
    else
      match FirstMatch(text, SysBlock, 0)
      case None => []
      case Some(k) =>
        var h := MatchAt(SysBlock, text, k).value;
        assert h.gStart == k + |SysOpen|;
        assert OccursAt(text, SysClose, h.gEnd);
        var content := Strip(text[h.gStart..h.gEnd]);
        SubDelete(content, RoleWordTag);
        Sub(content, RoleWordTag, Delete)
  }

  /**
   * `format_for_display`: thinking tags become `[`/`]` (or, when thoughts are
   * hidden, each thinking block is deleted), action tags become `(`/`)`,
   * speech tags vanish, and the result is stripped.
   */
  function FormatForDisplay(text: String, showRolethink: bool): String {
    if text == [] then text
    else
      var thought :=
        if showRolethink then ReplaceChain(text, [OpenThinking, CloseThinking])
        else Sub(text, ThinkingBlock, Delete);
      Strip(ReplaceChain(thought, [OpenAction, CloseAction, OpenSpeech, CloseSpeech]))
  }

  // ----------------------------------------------------------- properties

  /**
   * A reply with one system-thinking block loses exactly that block and the
   * blanks after it.
   */
  lemma RemoveSystemThinkingBlock(pre: String, body: String, post: String)
    requires Find(pre + SysOpen, SysOpen) == Some(|pre|)
    requires Find(body + SysClose, SysClose) == Some(|body|)
    requires !Contains(post, SysOpen)
    ensures RemoveSystemThinking(pre + SysOpen + body + SysClose + post) == Strip(pre + LStrip(post))
  {
    var s := pre + SysOpen + body + SysClose + post;
    RemoveNonEmpty(s);
    FindFirst(pre + SysOpen, SysOpen, |pre|);
    FindFirst(body + SysClose, SysClose, |body|);
    NotContained(post, SysOpen);
    SubOneBlock(pre, SysOpen, body, SysClose, post, true);
  }

  lemma RemoveNonEmpty(s: String)
    requires s != []
    ensures RemoveSystemThinking(s) == Strip(Sub(s, SysBlockPadded, Delete))
  {
  }

  /** The extracted thinking is the first block's content, stripped, with role tags removed. */
  lemma ExtractSystemThinkingBlock(pre: String, body: String, post: String)
    requires Find(pre + SysOpen, SysOpen) == Some(|pre|)
    requires Find(body + SysClose, SysClose) == Some(|body|)
    ensures ExtractSystemThinking(pre + SysOpen + body + SysClose + post) == Sub(Strip(body), RoleWordTag, Delete)
  {
    var s := pre + SysOpen + body + SysClose + post;
    FindFirst(pre + SysOpen, SysOpen, |pre|);
    FindFirst(body + SysClose, SysClose, |body|);
    LitBlockFirst(pre, SysOpen, body, SysClose, post, false);
    var h := MatchAt(SysBlock, s, |pre|).value;
    assert s[h.gStart..h.gEnd] == body;
    assert s != [];
    assert ExtractSystemThinking(s) == Sub(Strip(s[h.gStart..h.gEnd]), RoleWordTag, Delete);
  }

  /** Thinking written without markup comes back exactly, stripped. */
  lemma ExtractPlainThinking(pre: String, body: String, post: String)
    requires Find(pre + SysOpen, SysOpen) == Some(|pre|)
    requires '<' !in body
    ensures ExtractSystemThinking(pre + SysOpen + body + SysClose + post) == Strip(body)
  {
    NoOccurrenceWithoutHead(body, SysClose, SysClose);
    assert OccursAt(body + SysClose, SysClose, |body|);
    FindFromAt(body + SysClose, SysClose, 0, |body|);
    ExtractSystemThinkingBlock(pre, body, post);
    var t := Strip(body);
    StripOccurs(body);
    assert '<' !in t by {
      var o := |body| - |LStrip(body)|;
      forall j | 0 <= j < |t|
        ensures t[j] != '<'
      {
        assert t[j] == body[o + j];
      }
    }
    NoMatchWithout(t, RoleWordTag, '<');
    SubDelete(t, RoleWordTag);
  }

  /** Shown with thoughts, a HER reply is its bracket form, stripped. */
  lemma FormatShowsBrackets(ps: seq<Piece>)
    requires Markup(ps)
    ensures FormatForDisplay(Her(ps), true) == Strip(Bracketed(ps))
  {
    if Her(ps) == [] {
      RenderLength(ps, AllTags);
    } else {
      ChainRender(ps, {}, [OpenThinking, CloseThinking]);
      ChainRender(ps, {OpenThinking, CloseThinking}, [OpenAction, CloseAction, OpenSpeech, CloseSpeech]);
      assert {} + (set t | t in [OpenThinking, CloseThinking]) == {OpenThinking, CloseThinking};
      assert {OpenThinking, CloseThinking} + (set t | t in [OpenAction, CloseAction, OpenSpeech, CloseSpeech]) == AllTags;
    }
  }

  /** The markup of a reply with one thought in the middle. */
  lemma ThoughtLayout(before: seq<Piece>, thought: String, after: seq<Piece>)
    ensures Her(before + [Mark(OpenThinking), Plain(thought), Mark(CloseThinking)] + after)
      == Her(before) + TagText(OpenThinking) + thought + TagText(CloseThinking) + Her(after)
  {
    var mid := [Mark(OpenThinking), Plain(thought), Mark(CloseThinking)];
    RenderConcat(before + mid, after, {});
    RenderConcat(before, mid, {});
    ThoughtPieces(thought);
  }

  lemma ThoughtPieces(thought: String)
    ensures Her([Mark(OpenThinking), Plain(thought), Mark(CloseThinking)])
      == TagText(OpenThinking) + thought + TagText(CloseThinking)
  {
    var mid := [Mark(OpenThinking), Plain(thought), Mark(CloseThinking)];
    assert mid[2..][1..] == [];
    assert RenderWith(mid[2..], {}) == TagText(CloseThinking);
    assert mid[1..][1..] == mid[2..];
    assert RenderWith(mid[1..], {}) == thought + TagText(CloseThinking);
  }

  /** Deleting thinking blocks removes the one thought of a reply and nothing else. */
  lemma HideThought(before: seq<Piece>, thought: String, after: seq<Piece>)
    requires Markup(before) && Markup(after) && '<' !in thought
    requires Lacks(before, OpenThinking) && Lacks(after, OpenThinking)
    ensures Sub(Her(before + [Mark(OpenThinking), Plain(thought), Mark(CloseThinking)] + after), ThinkingBlock, Delete)
      == Her(before + after)
  {
    var o := TagText(OpenThinking);
    var c := TagText(CloseThinking);
    ThoughtLayout(before, thought, after);
    NoTagIn(before, {}, OpenThinking, o);
    NoOccurrenceWithoutHead(thought, c, c);
    NoTagIn(after, {}, OpenThinking, []);
    assert Her(after) + [] == Her(after);
    SubOneBlock(Her(before), o, thought, c, Her(after), false);
    RenderConcat(before, after, {});
  }

  /** Without thinking tags, converting action and speech tags gives the full bracket form. */
  lemma ChainWithoutThinking(ps: seq<Piece>)
    requires Markup(ps) && Lacks(ps, OpenThinking) && Lacks(ps, CloseThinking)
    ensures ReplaceChain(Her(ps), [OpenAction, CloseAction, OpenSpeech, CloseSpeech]) == Bracketed(ps)
  {
    var shown := {OpenAction, CloseAction, OpenSpeech, CloseSpeech};
    ChainRender(ps, {}, [OpenAction, CloseAction, OpenSpeech, CloseSpeech]);
    assert {} + (set t | t in [OpenAction, CloseAction, OpenSpeech, CloseSpeech]) == shown;
    RenderIgnores(ps, shown, OpenThinking);
    RenderIgnores(ps, shown + {OpenThinking}, CloseThinking);
    assert shown + {OpenThinking} + {CloseThinking} == AllTags;
  }

  /** Shown without thoughts, a reply with one thought loses it and is otherwise in bracket form. */
  lemma FormatHidesThought(before: seq<Piece>, thought: String, after: seq<Piece>)
    requires Markup(before) && Markup(after) && '<' !in thought
    requires Lacks(before, OpenThinking) && Lacks(after, OpenThinking)
    requires Lacks(before, CloseThinking) && Lacks(after, CloseThinking)
    ensures FormatForDisplay(Her(before + [Mark(OpenThinking), Plain(thought), Mark(CloseThinking)] + after), false)
      == Strip(Bracketed(before + after))
  {
    var s := Her(before + [Mark(OpenThinking), Plain(thought), Mark(CloseThinking)] + after);
    var ps := before + after;
    ThoughtLayout(before, thought, after);
    MarkupConcat(before, after);
    LacksConcat(before, after, OpenThinking);
    LacksConcat(before, after, CloseThinking);
    calc {
      FormatForDisplay(s, false);
      { assert s != []; }
      Strip(ReplaceChain(Sub(s, ThinkingBlock, Delete), [OpenAction, CloseAction, OpenSpeech, CloseSpeech]));
      { HideThought(before, thought, after); }
      Strip(ReplaceChain(Her(ps), [OpenAction, CloseAction, OpenSpeech, CloseSpeech]));
      { ChainWithoutThinking(ps); }
      Strip(Bracketed(ps));
    }
  }
}
