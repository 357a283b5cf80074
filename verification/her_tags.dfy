// The HER role-play markup as a sequence of pieces: plain text and the six
// role tags. The CoSER judge and the chat demo show the same reply with
// brackets instead: thinking in `[..]`, actions in `(..)`, and the speech
// tags dropped. The tag-by-tag `str.replace` chains that do this are
// characterised here once, for every order of the chain.

module HerTags {
  import opened Text

  datatype Tag = OpenThinking | CloseThinking | OpenAction | CloseAction | OpenSpeech | CloseSpeech

  /** The tag as it appears in HER markup. */
  function TagText(t: Tag): String {
    match t
    case OpenThinking => "<role_thinking>"
    case CloseThinking => "</role_thinking>"
    case OpenAction => "<role_action>"
    case CloseAction => "</role_action>"
    case OpenSpeech => "<role_speech>"
    case CloseSpeech => "</role_speech>"
  }

  /** What the bracket form writes for the tag. */
  function Bracket(t: Tag): String {
    match t
    case OpenThinking => "["
    case CloseThinking => "]"
    case OpenAction => "("
    case CloseAction => ")"
    case OpenSpeech => ""
    case CloseSpeech => ""
  }

  /** Every tag opens with `<` and holds no other `<`. */
  lemma TagShape(t: Tag)
    ensures |TagText(t)| >= 13 && TagText(t)[0] == '<'
    ensures forall j :: 0 < j < |TagText(t)| ==> TagText(t)[j] != '<'
    ensures '<' !in Bracket(t)
  {
  }

  /** Where two different tags first part: after `<` (open or close), after `<role_` or after `</role_`. */
  function PartAt(t: Tag, u: Tag): nat {
    if t.OpenThinking? || t.OpenAction? || t.OpenSpeech? then
      if u.OpenThinking? || u.OpenAction? || u.OpenSpeech? then 6 else 1
    else if u.OpenThinking? || u.OpenAction? || u.OpenSpeech? then 1 else 7
  }

  /** Two different tags differ at an index inside both. */
  lemma TagsDiffer(t: Tag, u: Tag)
    requires t != u
    ensures PartAt(t, u) < |TagText(t)| && PartAt(t, u) < |TagText(u)|
    ensures TagText(t)[PartAt(t, u)] != TagText(u)[PartAt(t, u)]
  {
  }

  datatype Piece = Plain(text: String) | Mark(tag: Tag)

  /** The plain text of the pieces holds no `<`, so every `<` belongs to a tag. */
  predicate Markup(ps: seq<Piece>) {
    forall i :: 0 <= i < |ps| && ps[i].Plain? ==> '<' !in ps[i].text
  }

  /** A piece written with the tags in `done` already turned into brackets. */
  function Shown(p: Piece, done: set<Tag>): String {
    match p
    case Plain(x) => x
    case Mark(t) => if t in done then Bracket(t) else TagText(t)
  }

  function RenderWith(ps: seq<Piece>, done: set<Tag>): String {
    if ps == [] then [] else Shown(ps[0], done) + RenderWith(ps[1..], done)
  }

  /** The reply in HER markup. */
  function Her(ps: seq<Piece>): String {
    RenderWith(ps, {})
  }

  const AllTags: set<Tag> := {OpenThinking, CloseThinking, OpenAction, CloseAction, OpenSpeech, CloseSpeech}

  /** The reply in bracket form. */
  function Bracketed(ps: seq<Piece>): String {
    RenderWith(ps, AllTags)
  }

  /** No occurrence of tag `t` starts inside a piece other than an unconverted `Mark(t)`. */
  lemma PieceMiss(p: Piece, done: set<Tag>, t: Tag, rest: String)
    requires !(p == Mark(t) && t !in done) && (p.Plain? ==> '<' !in p.text)
    ensures NoOccurrenceBefore(Shown(p, done) + rest, TagText(t), |Shown(p, done)|)
  {
    var x := Shown(p, done);
    var pat := TagText(t);
    TagShape(t);
    forall j | 0 <= j < |x|
      ensures !OccursAt(x + rest, pat, j)
    {
      if j + |pat| <= |x + rest| {
        var w := (x + rest)[j..j + |pat|];
        assert w[0] == x[j];
        if p.Mark? && p.tag !in done && j == 0 {
          TagsDiffer(p.tag, t);
          var d := PartAt(p.tag, t);
          assert w[d] == x[d];
        } else if p.Mark? {
          TagShape(p.tag);
          assert x[j] != '<';
        } else {
          assert x[j] in p.text;
        }
      }
    }
  }

  lemma MarkupTail(ps: seq<Piece>)
    requires Markup(ps) && ps != []
    ensures Markup(ps[1..]) && (ps[0].Plain? ==> '<' !in ps[0].text)
  {
    forall i | 0 <= i < |ps| - 1 && ps[1..][i].Plain?
      ensures '<' !in ps[1..][i].text
    {
      assert ps[1..][i] == ps[i + 1];
    }
  }

  /** `str.replace` of one more tag by its bracket turns that tag into brackets everywhere, and nothing else changes. */
  lemma {:induction false} ReplaceTag(ps: seq<Piece>, done: set<Tag>, t: Tag)
    requires Markup(ps)
    ensures ReplaceAll(RenderWith(ps, done), TagText(t), Bracket(t)) == RenderWith(ps, done + {t})
    decreases |ps|
  {
    var pat := TagText(t);
    if ps == [] {
      assert |RenderWith(ps, done)| < |pat|;
    } else {
      var x := Shown(ps[0], done);
      var rest := RenderWith(ps[1..], done);
      assert RenderWith(ps, done) == x + rest;
      MarkupTail(ps);
      if ps[0] == Mark(t) && t !in done {
        calc {
          ReplaceAll(x + rest, pat, Bracket(t));
          { ReplaceAllHead(pat, rest, Bracket(t)); }
          Bracket(t) + ReplaceAll(rest, pat, Bracket(t));
          { ReplaceTag(ps[1..], done, t); }
          Bracket(t) + RenderWith(ps[1..], done + {t});
        }
      } else {
        assert ps[0].Plain? ==> '<' !in ps[0].text;
        calc {
          ReplaceAll(x + rest, pat, Bracket(t));
          { PieceMiss(ps[0], done, t, rest);
            ReplaceAllSkip(x, rest, pat, Bracket(t)); }
          x + ReplaceAll(rest, pat, Bracket(t));
          { ReplaceTag(ps[1..], done, t); }
          x + RenderWith(ps[1..], done + {t});
        }
        assert Shown(ps[0], done + {t}) == x;
      }
    }
  }

  /** Brackets are never longer than the tags they replace, so converting never lengthens a reply. */
  lemma {:induction false} RenderLength(ps: seq<Piece>, done: set<Tag>)
    ensures |RenderWith(ps, done)| <= |Her(ps)|
    decreases |ps|
  {
    if ps != [] {
      RenderLength(ps[1..], done);
      if ps[0].Mark? {
        TagShape(ps[0].tag);
      }
    }
  }

  /** A chain of `str.replace` calls, each turning one tag into its bracket. */
  function ReplaceChain(s: String, tags: seq<Tag>): String
    decreases |tags|
  {
    if tags == [] then s else ReplaceChain(ReplaceAll(s, TagText(tags[0]), Bracket(tags[0])), tags[1..])
  }

  /** A chain converts exactly the tags it names, whatever their order. */
  lemma {:induction false} ChainRender(ps: seq<Piece>, done: set<Tag>, tags: seq<Tag>)
    requires Markup(ps)
    ensures ReplaceChain(RenderWith(ps, done), tags) == RenderWith(ps, done + set t | t in tags)
    decreases |tags|
  {
    if tags != [] {
      assert forall t :: t in tags <==> t == tags[0] || t in tags[1..];
      calc {
        ReplaceChain(RenderWith(ps, done), tags);
        ReplaceChain(ReplaceAll(RenderWith(ps, done), TagText(tags[0]), Bracket(tags[0])), tags[1..]);
        { ReplaceTag(ps, done, tags[0]); }
        ReplaceChain(RenderWith(ps, done + {tags[0]}), tags[1..]);
        { ChainRender(ps, done + {tags[0]}, tags[1..]); }
        RenderWith(ps, done + {tags[0]} + set t | t in tags[1..]);
        { assert done + {tags[0]} + (set t | t in tags[1..]) == done + set t | t in tags; }
        RenderWith(ps, done + set t | t in tags);
      }
    } else {
      assert done + (set t | t in tags) == done;
    }
  }

  /** The pieces hold no mark of tag `t`. */
  predicate Lacks(ps: seq<Piece>, t: Tag) {
    forall i :: 0 <= i < |ps| ==> ps[i] != Mark(t)
  }

  /** Where the pieces hold no mark of `t`, no occurrence of `t` starts inside their rendering, whatever follows it. */
  lemma {:induction false} NoTagIn(ps: seq<Piece>, done: set<Tag>, t: Tag, rest: String)
    requires Markup(ps) && Lacks(ps, t)
    ensures NoOccurrenceBefore(RenderWith(ps, done) + rest, TagText(t), |RenderWith(ps, done)|)
    decreases |ps|
  {
    if ps != [] {
      var pat := TagText(t);
      var x := Shown(ps[0], done);
      var tail := RenderWith(ps[1..], done);
      MarkupTail(ps);
      assert Lacks(ps[1..], t) by {
        forall i | 0 <= i < |ps| - 1
          ensures ps[1..][i] != Mark(t)
        {
          assert ps[1..][i] == ps[i + 1];
        }
      }
      NoTagIn(ps[1..], done, t, rest);
      assert ps[0] != Mark(t);
      PieceMiss(ps[0], done, t, tail + rest);
      assert RenderWith(ps, done) + rest == x + (tail + rest);
      forall j | 0 <= j < |x| + |tail|
        ensures !OccursAt(x + (tail + rest), pat, j)
      {
        if j >= |x| {
          OccursShift(x, tail + rest, pat, j - |x|);
        }
      }
    }
  }

  /** Rendering distributes over concatenation of pieces. */
  lemma {:induction false} RenderConcat(a: seq<Piece>, b: seq<Piece>, done: set<Tag>)
    ensures RenderWith(a + b, done) == RenderWith(a, done) + RenderWith(b, done)
    decreases |a|
  {
    if a != [] {
      RenderConcat(a[1..], b, done);
      assert (a + b)[1..] == a[1..] + b;
    } else {
      assert a + b == b;
    }
  }

  /** Converting a tag the pieces never mark changes nothing. */
  lemma {:induction false} RenderIgnores(ps: seq<Piece>, done: set<Tag>, t: Tag)
    requires Lacks(ps, t)
    ensures RenderWith(ps, done + {t}) == RenderWith(ps, done)
    decreases |ps|
  {
    if ps != [] {
      assert ps[0] != Mark(t);
      assert Lacks(ps[1..], t) by {
        forall i | 0 <= i < |ps| - 1
          ensures ps[1..][i] != Mark(t)
        {
          assert ps[1..][i] == ps[i + 1];
        }
      }
      RenderIgnores(ps[1..], done, t);
    }
  }

  lemma MarkupConcat(a: seq<Piece>, b: seq<Piece>)
    requires Markup(a) && Markup(b)
    ensures Markup(a + b)
  {
    forall i | 0 <= i < |a + b| && (a + b)[i].Plain?
      ensures '<' !in (a + b)[i].text
    {
      if i < |a| {
        assert (a + b)[i] == a[i];
      } else {
        assert (a + b)[i] == b[i - |a|];
      }
    }
  }

  lemma LacksConcat(a: seq<Piece>, b: seq<Piece>, t: Tag)
    requires Lacks(a, t) && Lacks(b, t)
    ensures Lacks(a + b, t)
  {
    forall i | 0 <= i < |a + b|
      ensures (a + b)[i] != Mark(t)
    {
      if i < |a| {
        assert (a + b)[i] == a[i];
      } else {
        assert (a + b)[i] == b[i - |a|];
      }
    }
  }

  /** Every `<` of a reply in HER markup starts one of the six tags: the tag returned. */
  lemma {:induction false} LtStartsTag(ps: seq<Piece>, k: nat) returns (t: Tag)
    requires Markup(ps) && k < |Her(ps)| && Her(ps)[k] == '<'
    ensures OccursAt(Her(ps), TagText(t), k)
    decreases |ps|
  {
    var x := Shown(ps[0], {});
    var tail := Her(ps[1..]);
    assert Her(ps) == x + tail;
    MarkupTail(ps);
    if k < |x| {
      assert Her(ps)[k] == x[k] && x[k] in x;
      t := ps[0].tag;
      TagShape(t);
      assert k == 0;
      assert (x + tail)[..|x|] == x;
    } else {
      assert tail[k - |x|] == '<';
      t := LtStartsTag(ps[1..], k - |x|);
      OccursShift(x, tail, TagText(t), k - |x|);
    }
  }
}
