// Shared vocabulary: optional values and the Python string operations the
// pipeline relies on (strip, find, replace, split, join, lower), written
// over `seq<char>`.

module Basics {
  datatype Option<T> = None | Some(value: T)

  /** A decoded JSON value; an object keeps its members in document order. */
  datatype Json =
    | JNull
    | JBool(b: bool)
    | JNum(n: real)
    | JStr(str: seq<char>)
    | JArr(items: seq<Json>)
    | JObj(members: seq<(seq<char>, Json)>)

  /** `obj.get(key)` on a decoded object: a repeated key keeps its last value. */
  function Lookup(members: seq<(seq<char>, Json)>, key: seq<char>): (r: Option<Json>)
    ensures r.Some? <==> exists i :: 0 <= i < |members| && members[i].0 == key
    ensures r.Some? ==> exists i :: 0 <= i < |members| && members[i] == (key, r.value)
  {
    if members == [] then None
    else if members[|members| - 1].0 == key then Some(members[|members| - 1].1)
    else Lookup(members[..|members| - 1], key)
  }

  /** `set(xs) - {x}` is empty exactly when every element of `xs` is `x`. */
  lemma SetMinusEmpty<T>(xs: seq<T>, x: T)
    ensures (set c | c in xs) - {x} == {} <==> forall c :: c in xs ==> c == x
  {
    forall c | c in xs && c != x
      ensures c in (set c | c in xs) - {x}
    {
    }
  }

  /** Taking one member out of a set makes it one smaller. */
  lemma RemoveOne<T>(s: set<T>, x: T)
    requires x in s
    ensures |s - {x}| == |s| - 1
  {
  }

  /** `r` is `xs` with some elements left out, the rest in their order. */
  predicate SubsequenceOf<T(==)>(r: seq<T>, xs: seq<T>)
    decreases |xs|
  {
    if r == [] then true
    else if xs == [] then false
    else (r[0] == xs[0] && SubsequenceOf(r[1..], xs[1..])) || SubsequenceOf(r, xs[1..])
  }

  /** `[x for x in xs if x not in ex]`. */
  function Except<T(!new)>(xs: seq<T>, ex: set<T>): (r: seq<T>)
    ensures |r| <= |xs| && SubsequenceOf(r, xs)
    ensures forall x :: x in r <==> x in xs && x !in ex
    ensures r == [] <==> forall x :: x in xs ==> x in ex
  {
    if xs == [] then []
    else
      var rest := Except(xs[1..], ex);
      if xs[0] in ex then rest
      else
        assert ([xs[0]] + rest)[1..] == rest;
        [xs[0]] + rest
  }
}

module Text {
  import opened Basics

  type String = seq<char>

  /** Python's `str.isspace()` (and the `\s` class of a str regex). */
  predicate IsSpace(c: char) {
    c == ' ' || ('\t' <= c <= '\r') || ('\U{1C}' <= c <= '\U{1F}')
    || c == '\U{85}' || c == '\U{A0}' || c == '\U{1680}'
    || ('\U{2000}' <= c <= '\U{200A}') || c == '\U{2028}' || c == '\U{2029}'
    || c == '\U{202F}' || c == '\U{205F}' || c == '\U{3000}'
  }

  predicate IsDigit(c: char) { '0' <= c <= '9' }
  predicate IsUpper(c: char) { 'A' <= c <= 'Z' }
  predicate IsLower(c: char) { 'a' <= c <= 'z' }
  predicate IsAlpha(c: char) { IsUpper(c) || IsLower(c) }
  predicate IsAlnum(c: char) { IsAlpha(c) || IsDigit(c) }
  /** The `\w` class of a regex. */
  predicate IsWordChar(c: char) { IsAlnum(c) || c == '_' }

  predicate AllDigits(s: String) {
    s != [] && forall i :: 0 <= i < |s| ==> IsDigit(s[i])
  }

  function LowerChar(c: char): char {
    if IsUpper(c) then (c as int + 32) as char else c
  }

  function UpperChar(c: char): char {
    if IsLower(c) then (c as int - 32) as char else c
  }

  function Lower(s: String): (r: String)
    ensures |r| == |s|
    ensures forall i :: 0 <= i < |s| ==> r[i] == LowerChar(s[i])
  {
    seq(|s|, i requires 0 <= i < |s| => LowerChar(s[i]))
  }

  function Upper(s: String): (r: String)
    ensures |r| == |s|
    ensures forall i :: 0 <= i < |s| ==> r[i] == UpperChar(s[i])
  {
    seq(|s|, i requires 0 <= i < |s| => UpperChar(s[i]))
  }

  predicate IsBlank(s: String) {
    forall i :: 0 <= i < |s| ==> IsSpace(s[i])
  }

  // ---------------------------------------------------------------- strip

  function LStrip(s: String): (r: String)
    ensures |r| <= |s|
    ensures r == s[|s| - |r|..]
    ensures r == [] || !IsSpace(r[0])
    ensures forall i :: 0 <= i < |s| - |r| ==> IsSpace(s[i])
  {
    if s != [] && IsSpace(s[0]) then LStrip(s[1..]) else s
  }

  function RStrip(s: String): (r: String)
    ensures |r| <= |s|
    ensures r == s[..|r|]
    ensures r == [] || !IsSpace(r[|r| - 1])
    ensures forall i :: |r| <= i < |s| ==> IsSpace(s[i])
  {
    if s != [] && IsSpace(s[|s| - 1]) then RStrip(s[..|s| - 1]) else s
  }

  /** `str.strip()`: the longest infix that neither starts nor ends with whitespace. */
  function Strip(s: String): (r: String)
    ensures r == [] || (!IsSpace(r[0]) && !IsSpace(r[|r| - 1]))
    ensures |r| <= |s|
    ensures r == [] <==> IsBlank(s)
  {
    var l := LStrip(s);
    var r := RStrip(l);
    assert r != [] ==> r[0] == l[0];
    StripEmptyOnlyIfBlank(s);
    r
  }

  lemma StripEmptyOnlyIfBlank(s: String)
    ensures RStrip(LStrip(s)) == [] ==> IsBlank(s)
  {
    var l := LStrip(s);
    if RStrip(l) == [] {
      // a non-empty `l` starts with a non-space, which RStrip would keep
      assert l == [];
    }
  }

  /** `str.rstrip(chars)` for an explicit character set. */
  function RStripChars(s: String, chars: set<char>): (r: String)
    ensures |r| <= |s|
    ensures r == s[..|r|]
    ensures r == [] || r[|r| - 1] !in chars
    ensures forall i :: |r| <= i < |s| ==> s[i] in chars
  {
    if s != [] && s[|s| - 1] in chars then RStripChars(s[..|s| - 1], chars) else s
  }

  lemma {:induction false} StripIdempotent(s: String)
    ensures Strip(Strip(s)) == Strip(s)
  {
    var r := Strip(s);
    if r != [] {
      assert LStrip(r) == r;
      assert RStrip(r) == r;
    }
  }

  // --------------------------------------------------------- occurrences

  predicate StartsWith(s: String, p: String) {
    |p| <= |s| && s[..|p|] == p
  }

  predicate EndsWith(s: String, p: String) {
    |p| <= |s| && s[|s| - |p|..] == p
  }

  predicate OccursAt(s: String, t: String, i: int) {
    0 <= i && i + |t| <= |s| && s[i..i + |t|] == t
  }

  /** `t` occurs somewhere in `s`. */
  ghost predicate Infix(t: String, s: String) {
    exists i :: OccursAt(s, t, i)
  }

  /** An occurrence inside an occurrence. */
  lemma OccursTrans(s: String, t: String, u: String, a: int, b: int)
    requires OccursAt(s, t, a) && OccursAt(t, u, b)
    ensures OccursAt(s, u, a + b)
  {
    assert forall k :: 0 <= k < |t| ==> s[a + k] == t[k];
    assert forall k :: 0 <= k < |u| ==> t[b + k] == u[k];
    assert s[a + b..a + b + |u|] == u;
  }

  /** `s.strip()` is a piece of `s`. */
  lemma StripOccurs(s: String)
    ensures OccursAt(s, Strip(s), |s| - |LStrip(s)|)
  {
    var l := LStrip(s);
    var r := RStrip(l);
    PrefixOfSuffix(s, l, r);
    assert Strip(s) == r;
  }

  /** A prefix of a suffix occurs where the suffix starts. */
  lemma PrefixOfSuffix(s: String, l: String, r: String)
    requires |l| <= |s| && l == s[|s| - |l|..]
    requires |r| <= |l| && r == l[..|r|]
    ensures OccursAt(s, r, |s| - |l|)
  {
    assert s[|s| - |l|..|s| - |l| + |r|] == l[..|r|];
  }

  /** A stripped slice is a piece of the whole. */
  lemma StripSliceInfix(s: String, a: nat, b: nat)
    requires a <= b <= |s|
    ensures Infix(Strip(s[a..b]), s)
  {
    var t := s[a..b];
    var o := |t| - |LStrip(t)|;
    StripOccurs(t);
    assert OccursAt(s, t, a);
    OccursTrans(s, t, Strip(t), a, o);
    assert OccursAt(s, Strip(t), a + o);
  }

  /** A stripped suffix is a piece of the whole. */
  lemma StripSuffixInfix(s: String, a: nat)
    requires a <= |s|
    ensures Infix(Strip(s[a..]), s)
  {
    var t := s[a..];
    var o := |t| - |LStrip(t)|;
    StripOccurs(t);
    assert OccursAt(s, t, a);
    OccursTrans(s, t, Strip(t), a, o);
    assert OccursAt(s, Strip(t), a + o);
  }

  /** `s.find(t, i)`: the first occurrence of `t` at or after `i`. */
  function FindFrom(s: String, t: String, i: nat): (r: Option<nat>)
    decreases |s| - i
    ensures r.Some? ==> i <= r.value && OccursAt(s, t, r.value)
    ensures r.Some? ==> forall j :: i <= j < r.value ==> !OccursAt(s, t, j)
    ensures r.None? ==> forall j :: i <= j ==> !OccursAt(s, t, j)
  {
    if i + |t| > |s| then None
    else if s[i..i + |t|] == t then Some(i)
    else FindFrom(s, t, i + 1)
  }

  function Find(s: String, t: String): Option<nat> {
    FindFrom(s, t, 0)
  }

  /** Python's `t in s`. */
  predicate Contains(s: String, t: String) {
    Find(s, t).Some?
  }

  lemma ContainsIff(s: String, t: String)
    ensures Contains(s, t) <==> exists j :: OccursAt(s, t, j)
  {
  }

  /** `s.rfind(c)` for a single character. */
  function LastIndexOf(s: String, c: char): (r: Option<nat>)
    ensures r.Some? ==> r.value < |s| && s[r.value] == c
    ensures r.Some? ==> forall j :: r.value < j < |s| ==> s[j] != c
    ensures r.None? ==> c !in s
  {
    if s == [] then None
    else if s[|s| - 1] == c then Some(|s| - 1)
    else LastIndexOf(s[..|s| - 1], c)
  }

  // ------------------------------------------------------------- replace

  /** `s.replace(pat, rep)`: left to right, non-overlapping. */
  function ReplaceAll(s: String, pat: String, rep: String): (r: String)
    requires pat != []
    ensures !Contains(s, pat) ==> r == s
    decreases |s|
  {
    if |s| < |pat| then s
    else if s[..|pat|] == pat then
      assert OccursAt(s, pat, 0);
      rep + ReplaceAll(s[|pat|..], pat, rep)
    else
      assert forall j :: OccursAt(s[1..], pat, j) ==> OccursAt(s, pat, j + 1);
      [s[0]] + ReplaceAll(s[1..], pat, rep)
  }

  lemma ReplaceAllCons(c: char, s: String, pat: String, rep: String)
    requires pat != [] && !StartsWith([c] + s, pat)
    ensures ReplaceAll([c] + s, pat, rep) == [c] + ReplaceAll(s, pat, rep)
  {
    var t := [c] + s;
    assert t[1..] == s;
    if |t| < |pat| {
      assert !Contains(s, pat);
    }
  }

  /** A text that starts with the pattern: the replacement, then the rest replaced. */
  lemma ReplaceAllHead(pat: String, rest: String, rep: String)
    requires pat != []
    ensures ReplaceAll(pat + rest, pat, rep) == rep + ReplaceAll(rest, pat, rep)
  {
    var s := pat + rest;
    assert s[..|pat|] == pat && s[|pat|..] == rest;
  }

  /** No occurrence of `pat` starts before index `n` of `s`. */
  predicate NoOccurrenceBefore(s: String, pat: String, n: nat) {
    forall j :: 0 <= j < n ==> !OccursAt(s, pat, j)
  }

  /** An occurrence inside the second half of `x + t` is an occurrence in `t`. */
  lemma OccursShift(x: String, t: String, pat: String, j: nat)
    ensures OccursAt(x + t, pat, |x| + j) == OccursAt(t, pat, j)
  {
    if j + |pat| <= |t| {
      assert (x + t)[|x| + j..|x| + j + |pat|] == t[j..j + |pat|];
    }
  }

  /** A text without the pattern's first character holds no occurrence of it, whatever follows. */
  lemma NoOccurrenceWithoutHead(x: String, rest: String, pat: String)
    requires pat != [] && pat[0] !in x
    ensures NoOccurrenceBefore(x + rest, pat, |x|)
  {
    forall j | 0 <= j < |x|
      ensures !OccursAt(x + rest, pat, j)
    {
      assert (x + rest)[j] == x[j];
    }
  }

  /**
   * After a tag that differs from `pat` at index `d` and holds `pat[0]` only at its head,
   * and a text without `pat[0]`, no occurrence of `pat` has started yet.
   */
  lemma NoOccurrenceAfterTag(tag: String, x: String, rest: String, pat: String, d: nat)
    requires pat != [] && d < |tag| && d < |pat| && tag[d] != pat[d]
    requires forall k :: 0 < k < |tag| ==> tag[k] != pat[0]
    requires pat[0] !in x
    ensures NoOccurrenceBefore(tag + x + rest, pat, |tag| + |x|)
  {
    var s := tag + x + rest;
    forall j | 0 <= j < |tag| + |x|
      ensures !OccursAt(s, pat, j)
    {
      if j == 0 {
        if |pat| <= |s| {
          assert s[0..|pat|][d] == tag[d];
        }
      } else if j < |tag| {
        assert s[j] == tag[j];
      } else {
        assert s[j] == x[j - |tag|];
      }
    }
  }

  /** No occurrence starting in `a`, and none before `n` in `b`: none before `|a| + n` in `a + b`. */
  lemma NoOccurrenceJoin(a: String, b: String, pat: String, n: nat)
    requires NoOccurrenceBefore(a + b, pat, |a|) && NoOccurrenceBefore(b, pat, n)
    ensures NoOccurrenceBefore(a + b, pat, |a| + n)
  {
    forall j | |a| <= j < |a| + n
      ensures !OccursAt(a + b, pat, j)
    {
      OccursShift(a, b, pat, j - |a|);
    }
  }

  /** Blanks in front of a text that starts with a non-blank are all `lstrip` removes. */
  lemma {:induction false} LStripBlankThen(gap: String, rest: String)
    requires forall k :: 0 <= k < |gap| ==> IsSpace(gap[k])
    requires rest == [] || !IsSpace(rest[0])
    ensures LStrip(gap + rest) == rest
    decreases |gap|
  {
    if gap == [] {
      assert gap + rest == rest;
    } else {
      assert (gap + rest)[1..] == gap[1..] + rest;
      LStripBlankThen(gap[1..], rest);
    }
  }

  /** Nothing occurs before the first occurrence `find` reports. */
  lemma FindFirst(s: String, pat: String, n: nat)
    requires Find(s, pat) == Some(n)
    ensures NoOccurrenceBefore(s, pat, n)
  {
  }

  /** The search reports the first occurrence. */
  lemma {:induction false} FindFromAt(s: String, pat: String, i: nat, n: nat)
    requires i <= n && OccursAt(s, pat, n) && NoOccurrenceBefore(s, pat, n)
    ensures FindFrom(s, pat, i) == Some(n)
    decreases n - i
  {
    if i < n {
      assert !OccursAt(s, pat, i);
      FindFromAt(s, pat, i + 1, n);
    }
  }

  /** A text that does not contain the pattern holds no occurrence of it. */
  lemma NotContained(s: String, pat: String)
    requires !Contains(s, pat)
    ensures NoOccurrenceBefore(s, pat, |s|)
  {
  }

  /** With one character taken off the front, every occurrence moves one place back. */
  lemma NoOccurrenceShift(c: char, t: String, pat: String, n: nat)
    requires pat != [] && NoOccurrenceBefore([c] + t, pat, n + 1)
    ensures NoOccurrenceBefore(t, pat, n) && !StartsWith([c] + t, pat)
  {
    assert !OccursAt([c] + t, pat, 0);
    forall j | 0 <= j < n
      ensures !OccursAt(t, pat, j)
    {
      assert !OccursAt([c] + t, pat, j + 1);
      if j + |pat| <= |t| {
        assert ([c] + t)[j + 1..j + 1 + |pat|] == t[j..j + |pat|];
      }
    }
  }

  /** A prefix in which no occurrence of the pattern starts is copied unchanged. */
  lemma {:induction false} ReplaceAllSkip(x: String, rest: String, pat: String, rep: String)
    requires pat != [] && NoOccurrenceBefore(x + rest, pat, |x|)
    ensures ReplaceAll(x + rest, pat, rep) == x + ReplaceAll(rest, pat, rep)
    decreases |x|
  {
    if x == [] {
      assert x + rest == rest;
    } else {
      var t := x[1..] + rest;
      assert x + rest == [x[0]] + t;
      NoOccurrenceShift(x[0], t, pat, |x| - 1);
      calc {
        ReplaceAll(x + rest, pat, rep);
        ReplaceAll([x[0]] + t, pat, rep);
        { ReplaceAllCons(x[0], t, pat, rep); }
        [x[0]] + ReplaceAll(t, pat, rep);
        { ReplaceAllSkip(x[1..], rest, pat, rep); }
        [x[0]] + (x[1..] + ReplaceAll(rest, pat, rep));
        { assert x == [x[0]] + x[1..]; }
        x + ReplaceAll(rest, pat, rep);
      }
    }
  }

  /**
   * Replacing a tag by a marker character that does not occur in the text,
   * and then the marker by the tag, gives the text back.
   */
  lemma {:induction false} ReplaceRoundTrip(s: String, pat: String, m: char)
    requires pat != [] && m !in s
    ensures ReplaceAll(ReplaceAll(s, pat, [m]), [m], pat) == s
    decreases |s|
  {
    if |s| < |pat| {
      assert forall j :: OccursAt(s, [m], j) ==> s[j] == m;
    } else if s[..|pat|] == pat {
      var rest := s[|pat|..];
      assert forall k :: 0 <= k < |rest| ==> rest[k] == s[|pat| + k];
      ReplaceRoundTrip(rest, pat, m);
      var t := [m] + ReplaceAll(rest, pat, [m]);
      assert t[..1] == [m] && t[1..] == ReplaceAll(rest, pat, [m]);
    } else {
      var rest := s[1..];
      assert s == [s[0]] + rest;
      assert m !in rest;
      ReplaceRoundTrip(rest, pat, m);
      assert s[0] != m;
      ReplaceAllCons(s[0], ReplaceAll(rest, pat, [m]), [m], pat);
    }
  }

  /** `s.replace(c, rep)` for a one-character pattern. */
  function ReplaceChar(s: String, c: char, rep: String): String {
    if s == [] then []
    else Piece(s[0], c, rep) + ReplaceChar(s[1..], c, rep)
  }

  /** Replacing a character the text does not hold changes nothing. */
  lemma {:induction false} ReplaceCharAbsent(s: String, c: char, rep: String)
    requires forall i :: 0 <= i < |s| ==> s[i] != c
    ensures ReplaceChar(s, c, rep) == s
  {
    if s != [] {
      ReplaceCharAbsent(s[1..], c, rep);
      assert s == [s[0]] + s[1..];
    }
  }

  /** What one character of the text becomes. */
  function Piece(x: char, c: char, rep: String): String {
    if x == c then rep else [x]
  }

  lemma ReplaceCharCons(x: char, s: String, c: char, rep: String)
    ensures ReplaceChar([x] + s, c, rep) == Piece(x, c, rep) + ReplaceChar(s, c, rep)
  {
    assert ([x] + s)[1..] == s;
  }

  lemma {:induction false} ReplaceCharConcat(a: String, b: String, c: char, rep: String)
    ensures ReplaceChar(a + b, c, rep) == ReplaceChar(a, c, rep) + ReplaceChar(b, c, rep)
  {
    if a == [] {
      assert a + b == b;
    } else {
      var p, x, y := Piece(a[0], c, rep), ReplaceChar(a[1..], c, rep), ReplaceChar(b, c, rep);
      assert ReplaceChar(a + b, c, rep) == p + ReplaceChar(a[1..] + b, c, rep) by {
        assert a + b == [a[0]] + (a[1..] + b);
        ReplaceCharCons(a[0], a[1..] + b, c, rep);
      }
      ReplaceCharConcat(a[1..], b, c, rep);
      assert ReplaceChar(a, c, rep) == p + x;
      assert p + (x + y) == (p + x) + y;
    }
  }

  /** No character of `s` is in `x`. */
  predicate Avoids(s: String, x: set<char>) {
    forall i :: 0 <= i < |s| ==> s[i] !in x
  }

  lemma AvoidsConcat(a: String, b: String, x: set<char>)
    requires Avoids(a, x) && Avoids(b, x)
    ensures Avoids(a + b, x)
  {
    forall i | 0 <= i < |a + b| ensures (a + b)[i] !in x {
      if i >= |a| {
        assert (a + b)[i] == b[i - |a|];
      }
    }
  }

  /** The characters a replacement can leave behind it avoid `x`, given the text avoided `x` but for `c`. */
  lemma {:induction false} ReplaceCharAvoids(s: String, c: char, rep: String, x: set<char>)
    requires forall i :: 0 <= i < |s| && s[i] != c ==> s[i] !in x
    requires Avoids(rep, x)
    ensures Avoids(ReplaceChar(s, c, rep), x)
  {
    if s != [] {
      ReplaceCharAvoids(s[1..], c, rep, x);
      assert Avoids(Piece(s[0], c, rep), x);
      AvoidsConcat(Piece(s[0], c, rep), ReplaceChar(s[1..], c, rep), x);
    }
  }

  // --------------------------------------------------------- split / join

  /** `sep.join(parts)`. */
  function Join(parts: seq<String>, sep: String): String {
    if |parts| == 0 then []
    else if |parts| == 1 then parts[0]
    else parts[0] + sep + Join(parts[1..], sep)
  }

  /** `s.split(sep)` for a one-character separator. */
  function Split(s: String, sep: char): (r: seq<String>)
    ensures |r| >= 1
    ensures forall k :: 0 <= k < |r| ==> sep !in r[k]
    ensures |r| == 1 <==> sep !in s
    decreases |s|
  {
    if s == [] then [[]]
    else
      var rest := Split(s[1..], sep);
      if s[0] == sep then [[]] + rest
      else [[s[0]] + rest[0]] + rest[1..]
  }

  lemma {:induction false} JoinSplit(s: String, sep: char)
    ensures Join(Split(s, sep), [sep]) == s
    decreases |s|
  {
    if s != [] {
      var rest := Split(s[1..], sep);
      JoinSplit(s[1..], sep);
      if s[0] == sep {
        assert Split(s, sep) == [[]] + rest;
        assert ([[]] + rest)[1..] == rest;
      } else {
        var r := [[s[0]] + rest[0]] + rest[1..];
        assert Split(s, sep) == r;
        if |rest| == 1 {
          assert s == [s[0]] + s[1..];
        } else {
          assert r[1..] == rest[1..];
          assert Join(rest, [sep]) == rest[0] + [sep] + Join(rest[1..], [sep]);
          assert s == [s[0]] + s[1..];
        }
      }
    }
  }

  /** A head without the separator joins the first piece of what follows it. */
  lemma {:induction false} SplitHead(a: String, b: String, sep: char)
    requires sep !in a
    ensures Split(a + b, sep)[0] == a + Split(b, sep)[0]
    decreases |a|
  {
    if a == [] {
      assert a + b == b;
    } else {
      assert (a + b)[1..] == a[1..] + b;
      assert sep !in a[1..] by {
        forall c | c in a[1..]
          ensures c in a
        {
        }
      }
      SplitHead(a[1..], b, sep);
      assert a == [a[0]] + a[1..];
    }
  }

  /** A text without the separator splits into itself alone. */
  lemma {:induction false} SplitNoSep(s: String, sep: char)
    requires sep !in s
    ensures Split(s, sep) == [s]
    decreases |s|
  {
    if s != [] {
      SplitNoSep(s[1..], sep);
      assert [s[0]] + s[1..] == s;
    }
  }

  /** A piece without the separator, then the separator: the piece comes off the front of the split. */
  lemma {:induction false} SplitConcat(a: String, rest: String, sep: char)
    requires sep !in a
    ensures Split(a + [sep] + rest, sep) == [a] + Split(rest, sep)
    decreases |a|
  {
    var s := a + [sep] + rest;
    if a == [] {
      assert s[1..] == rest;
    } else {
      SplitConcat(a[1..], rest, sep);
      assert s[1..] == a[1..] + [sep] + rest;
      assert [a[0]] + a[1..] == a;
    }
  }

  /** Splitting undoes joining, when no part holds the separator. */
  lemma {:induction false} SplitJoin(parts: seq<String>, sep: char)
    requires |parts| >= 1
    requires forall k :: 0 <= k < |parts| ==> sep !in parts[k]
    ensures Split(Join(parts, [sep]), sep) == parts
    decreases |parts|
  {
    if |parts| == 1 {
      SplitNoSep(parts[0], sep);
    } else {
      SplitJoin(parts[1..], sep);
      SplitConcat(parts[0], Join(parts[1..], [sep]), sep);
      assert [parts[0]] + parts[1..] == parts;
    }
  }

  /** `s.split(sep)[0]`: the text before the first `sep`. */
  function FirstPiece(s: String, sep: char): (r: String)
    ensures sep !in r && StartsWith(s, r)
    ensures |r| < |s| ==> s[|r|] == sep
  {
    if s == [] || s[0] == sep then [] else [s[0]] + FirstPiece(s[1..], sep)
  }

  lemma {:induction false} FirstPieceIsSplitHead(s: String, sep: char)
    ensures FirstPiece(s, sep) == Split(s, sep)[0]
    decreases |s|
  {
    if s != [] && s[0] != sep {
      FirstPieceIsSplitHead(s[1..], sep);
    }
  }

  /** `s.rsplit(sep, n)` for a one-character separator. */
  function RSplit(s: String, sep: char, n: nat): (r: seq<String>)
    ensures 1 <= |r| <= n + 1
    ensures forall k :: 1 <= k < |r| ==> sep !in r[k]
    ensures |r| <= n ==> sep !in r[0]
    decreases n
  {
    match LastIndexOf(s, sep)
    case None => [s]
    case Some(k) =>
      if n == 0 then [s]
      else
        assert sep !in s[k + 1..];
        RSplit(s[..k], sep, n - 1) + [s[k + 1..]]
  }

  lemma ConcatAssoc<T>(a: seq<T>, b: seq<T>, c: seq<T>)
    ensures (a + b) + c == a + (b + c)
  {
  }

  lemma PrefixSnoc<T>(s: seq<T>, i: nat)
    requires i < |s|
    ensures s[..i] + [s[i]] == s[..i + 1]
  {
  }

  /** Appending the next element of `s` to `head + s[..i]`. */
  lemma ExtendPrefix<T>(head: seq<T>, s: seq<T>, i: nat)
    requires i < |s|
    ensures (head + s[..i]) + [s[i]] == head + s[..i + 1]
  {
    assert s[..i + 1] == s[..i] + [s[i]];
  }

  lemma RSplitLast(x: String, c: String, sep: char, n: nat)
    requires sep !in c && n > 0
    ensures RSplit(x + [sep] + c, sep, n) == RSplit(x, sep, n - 1) + [c]
  {
    var s := x + [sep] + c;
    assert s[|x|] == sep;
    assert forall j :: |x| < j < |s| ==> s[j] == c[j - |x| - 1];
    assert LastIndexOf(s, sep) == Some(|x|);
    assert s[..|x|] == x && s[|x| + 1..] == c;
  }

  lemma {:induction false} JoinRSplit(s: String, sep: char, n: nat)
    ensures Join(RSplit(s, sep, n), [sep]) == s
    decreases n
  {
    match LastIndexOf(s, sep)
    case None =>
    case Some(k) =>
      if n > 0 {
        var left := RSplit(s[..k], sep, n - 1);
        JoinRSplit(s[..k], sep, n - 1);
        JoinAppend(left, s[k + 1..], [sep]);
        assert s == s[..k] + [sep] + s[k + 1..];
      }
  }

  lemma {:induction false} JoinAppend(parts: seq<String>, last: String, sep: String)
    requires |parts| >= 1
    ensures Join(parts + [last], sep) == Join(parts, sep) + sep + last
    decreases |parts|
  {
    if |parts| == 1 {
      assert (parts + [last])[1..] == [last];
    } else {
      JoinAppend(parts[1..], last, sep);
      assert (parts + [last])[1..] == parts[1..] + [last];
    }
  }

  // ------------------------------------------------------------- numbers

  function DigitChar(d: nat): char
    requires d < 10
  {
    ['0', '1', '2', '3', '4', '5', '6', '7', '8', '9'][d]
  }

  /** `str(n)` for a natural number: its decimal digits, no leading zero. */
  function NatToString(n: nat): (r: String)
    ensures r != [] && AllDigits(r)
    ensures |r| > 1 ==> r[0] != '0'
    decreases n
  {
    if n < 10 then [DigitChar(n)]
    else NatToString(n / 10) + [DigitChar(n % 10)]
  }

  predicate DigitsOnly(s: String) {
    forall i :: 0 <= i < |s| ==> IsDigit(s[i])
  }

  /** The value of a string of decimal digits, as `int(s)` reads it. */
  function DigitsValue(s: String): nat
    requires DigitsOnly(s)
  {
    if s == [] then 0
    else DigitsValue(s[..|s| - 1]) * 10 + ((s[|s| - 1] as int) - ('0' as int))
  }

  lemma {:induction false} NatToStringRoundTrip(n: nat)
    ensures DigitsValue(NatToString(n)) == n
    decreases n
  {
    if n >= 10 {
      NatToStringRoundTrip(n / 10);
      var r := NatToString(n);
      assert r[..|r| - 1] == NatToString(n / 10);
    }
  }

  lemma {:induction false} LeadingZero(t: String)
    requires DigitsOnly(t)
    ensures DigitsValue(['0'] + t) == DigitsValue(t)
    decreases |t|
  {
    if t != [] {
      var u := ['0'] + t;
      assert u[..|u| - 1] == ['0'] + t[..|t| - 1];
      LeadingZero(t[..|t| - 1]);
    }
  }

  function Zeros(k: nat): (r: String)
    ensures |r| == k && DigitsOnly(r)
    ensures forall i :: 0 <= i < k ==> r[i] == '0'
  {
    if k == 0 then [] else ['0'] + Zeros(k - 1)
  }

  lemma {:induction false} LeadingZeros(k: nat, t: String)
    requires DigitsOnly(t)
    ensures DigitsValue(Zeros(k) + t) == DigitsValue(t)
    decreases k
  {
    if k == 0 {
      assert Zeros(k) + t == t;
    } else {
      LeadingZeros(k - 1, t);
      assert Zeros(k) + t == ['0'] + (Zeros(k - 1) + t);
      LeadingZero(Zeros(k - 1) + t);
    }
  }

  /** `f"{n:0{w}d}"`: left-padded with zeros to at least `w` digits. */
  function ZeroPad(n: nat, w: nat): (r: String)
    ensures DigitsOnly(r) && |r| >= w && |r| >= 1
    ensures DigitsValue(r) == n
  {
    var d := NatToString(n);
    NatToStringRoundTrip(n);
    if |d| >= w then d
    else
      LeadingZeros(w - |d|, d);
      Zeros(w - |d|) + d
  }
}
