// File-name normalisation for the character data files: typographic
// characters become ASCII, '!' and '?' go, ';' becomes ',', spaces become
// underscores, runs of underscores collapse, and a `.json` name loses the
// underscores around its base.

module NormalizeFilenames {
  import opened Text

  /** The table of typographic characters and their ASCII stand-ins, in its iteration order. */
  const Replacements: seq<(char, String)> := [
    ('\U{200B}', ""), ('\U{2019}', "'"), ('\U{2018}', "'"), ('\U{201C}', "\""),
    ('\U{201D}', "\""), ('\U{2014}', "-"), ('\U{2013}', "-"), ('\U{2026}', "...")]

  /** The characters the table replaces. */
  const TableChars: set<char> :=
    {'\U{200B}', '\U{2019}', '\U{2018}', '\U{201C}', '\U{201D}', '\U{2014}', '\U{2013}', '\U{2026}'}

  /** The replacements of `t` applied one after the other. */
  function ApplyTable(s: String, t: seq<(char, String)>): String
    decreases |t|
  {
    if t == [] then s
    else ApplyTable(ReplaceChar(s, t[0].0, t[0].1), t[1..])
  }

  lemma {:induction false} ApplyTableConcat(a: String, b: String, t: seq<(char, String)>)
    ensures ApplyTable(a + b, t) == ApplyTable(a, t) + ApplyTable(b, t)
    decreases |t|
  {
    if t != [] {
      ReplaceCharConcat(a, b, t[0].0, t[0].1);
      ApplyTableConcat(ReplaceChar(a, t[0].0, t[0].1), ReplaceChar(b, t[0].0, t[0].1), t[1..]);
    }
  }

  /** A text holding none of the patterns passes the table unchanged. */
  lemma {:induction false} ApplyTableNoop(s: String, t: seq<(char, String)>)
    requires forall i, k :: 0 <= i < |t| && 0 <= k < |s| ==> s[k] != t[i].0
    ensures ApplyTable(s, t) == s
    decreases |t|
  {
    if t != [] {
      ReplaceCharAbsent(s, t[0].0, t[0].1);
      ApplyTableNoop(s, t[1..]);
    }
  }

  /** The entry the table has for `c`, the first one that matches. */
  function Lookup(t: seq<(char, String)>, c: char): String {
    if t == [] then [c] else if t[0].0 == c then t[0].1 else Lookup(t[1..], c)
  }

  /** No stand-in holds a pattern of the table, so no replacement feeds a later one. */
  predicate Sound(t: seq<(char, String)>) {
    forall i, j :: 0 <= i < |t| && 0 <= j < |t| ==> t[i].0 !in t[j].1
  }

  /** In a sound table, one character turns into its entry. */
  lemma {:induction false} ApplyTableOneChar(c: char, t: seq<(char, String)>)
    requires Sound(t)
    ensures ApplyTable([c], t) == Lookup(t, c)
    decreases |t|
  {
    if t != [] {
      assert [c][1..] == [];
      assert Sound(t[1..]);
      if t[0].0 == c {
        assert ReplaceChar([c], t[0].0, t[0].1) == t[0].1;
        ApplyTableNoop(t[0].1, t[1..]);
      } else {
        assert ReplaceChar([c], t[0].0, t[0].1) == [c];
        ApplyTableOneChar(c, t[1..]);
      }
    }
  }

  /** What the table does to one character. */
  function Translate(c: char): String {
    if c == '\U{200B}' then ""
    else if c == '\U{2019}' || c == '\U{2018}' then "'"
    else if c == '\U{201C}' || c == '\U{201D}' then "\""
    else if c == '\U{2014}' || c == '\U{2013}' then "-"
    else if c == '\U{2026}' then "..."
    else [c]
  }

  lemma LookupIsTranslate(c: char)
    ensures Lookup(Replacements, c) == Translate(c)
  {
    var t := Replacements;
    LookupStep(t, 0, c);
    LookupStep(t, 1, c);
    LookupStep(t, 2, c);
    LookupStep(t, 3, c);
    LookupStep(t, 4, c);
    LookupStep(t, 5, c);
    LookupStep(t, 6, c);
    LookupStep(t, 7, c);
    assert t[8..] == [] && t[0..] == t;
  }

  lemma LookupStep(t: seq<(char, String)>, k: nat, c: char)
    requires k < |t|
    ensures Lookup(t[k..], c) == if t[k].0 == c then t[k].1 else Lookup(t[k + 1..], c)
  {
    assert t[k..][1..] == t[k + 1..];
  }

  function TranslateAll(s: String): (r: String)
    ensures Avoids(r, TableChars)
    ensures Avoids(s, TableChars) ==> r == s
  {
    if s == [] then []
    else
      var rest := TranslateAll(s[1..]);
      AvoidsConcat(Translate(s[0]), rest, TableChars);
      assert Avoids(s, TableChars) ==> [s[0]] + s[1..] == s;
      Translate(s[0]) + rest
  }

  /** The table acts character by character: it is the per-character translation. */
  lemma {:induction false} ApplyTableIsTranslate(s: String)
    ensures ApplyTable(s, Replacements) == TranslateAll(s)
  {
    if s == [] {
      ApplyTableNoop(s, Replacements);
    } else {
      assert Sound(Replacements);
      assert s == [s[0]] + s[1..];
      ApplyTableConcat([s[0]], s[1..], Replacements);
      ApplyTableOneChar(s[0], Replacements);
      LookupIsTranslate(s[0]);
      ApplyTableIsTranslate(s[1..]);
    }
  }

  // ---------------------------------------------------------- underscores

  predicate NoDoubleUnderscore(s: String) {
    forall i :: 0 <= i < |s| - 1 ==> !(s[i] == '_' && s[i + 1] == '_')
  }

  /** `re.sub(r'_+', '_', s)`. */
  function CollapseUnderscores(s: String): (r: String)
    ensures NoDoubleUnderscore(r)
    ensures s != [] ==> r != [] && r[0] == s[0] && r[|r| - 1] == s[|s| - 1]
    ensures NoDoubleUnderscore(s) ==> r == s
  {
    if |s| <= 1 then s
    else if s[0] == '_' && s[1] == '_' then CollapseUnderscores(s[1..])
    else
      var rest := CollapseUnderscores(s[1..]);
      assert forall i :: 1 <= i < |s| - 1 ==> s[1..][i - 1] == s[i];
      [s[0]] + rest
  }

  /** The first position at or after `i` that is not an underscore. */
  function SkipUnderscores(s: String, i: nat): (a: nat)
    requires i <= |s|
    ensures i <= a <= |s| && (a == |s| || s[a] != '_')
    ensures forall k :: i <= k < a ==> s[k] == '_'
    decreases |s| - i
  {
    if i < |s| && s[i] == '_' then SkipUnderscores(s, i + 1) else i
  }

  /** The end of `s[a..j]` once its trailing underscores are cut. */
  function BackUnderscores(s: String, a: nat, j: nat): (b: nat)
    requires a <= j <= |s|
    ensures a <= b <= j && (b == a || s[b - 1] != '_')
    ensures forall k :: b <= k < j ==> s[k] == '_'
    decreases j
  {
    if j > a && s[j - 1] == '_' then BackUnderscores(s, a, j - 1) else j
  }

  /** `s.strip('_')`. */
  function StripUnderscores(s: String): (r: String)
    ensures r == [] || (r[0] != '_' && r[|r| - 1] != '_')
    ensures s == [] || (s[0] != '_' && s[|s| - 1] != '_') ==> r == s
  {
    var a := SkipUnderscores(s, 0);
    s[a..BackUnderscores(s, a, |s|)]
  }

  // ------------------------------------------------------------ the name

  /** The characters that never survive normalisation. */
  const Forbidden: set<char> := TableChars + {' ', '!', '?', ';'}

  predicate Clean(s: String) {
    Avoids(s, Forbidden)
  }

  /** Collapsing underscores brings in no new character. */
  lemma {:induction false} CollapseAvoids(s: String, x: set<char>)
    requires Avoids(s, x)
    ensures Avoids(CollapseUnderscores(s), x)
  {
    if |s| > 1 {
      CollapseAvoids(s[1..], x);
      if !(s[0] == '_' && s[1] == '_') {
        AvoidsConcat([s[0]], CollapseUnderscores(s[1..]), x);
      }
    }
  }

  /** Steps 2 to 4: drop '!' and '?', ';' to ',', space to '_'. */
  function Punctuation(s: String): String {
    ReplaceChar(ReplaceChar(ReplaceChar(ReplaceChar(s, '!', ""), '?', ""), ';', ","), ' ', "_")
  }

  /** Step 6: a `.json` name loses the underscores around its base. */
  function TrimJsonBase(s: String): String {
    if EndsWith(s, ".json") then StripUnderscores(s[..|s| - 5]) + ".json" else s
  }

  /** normalize_filename. */
  function Normalized(filename: String): String {
    TrimJsonBase(Collapsed(filename))
  }

  /** normalize_filename, replacing table entry by table entry. */
  method NormalizeFilename(filename: String) returns (name: String)
    ensures name == Normalized(filename)
  {
    name := filename;
    for i := 0 to |Replacements|
      invariant ApplyTable(name, Replacements[i..]) == ApplyTable(filename, Replacements)
    {
      assert Replacements[i..][1..] == Replacements[i + 1..];
      name := ReplaceChar(name, Replacements[i].0, Replacements[i].1);
    }
    assert Replacements[|Replacements|..] == [];
    ghost var translated := name;
    name := ReplaceChar(name, '!', "");
    name := ReplaceChar(name, '?', "");
    name := ReplaceChar(name, ';', ",");
    name := ReplaceChar(name, ' ', "_");
    assert name == Punctuation(translated);
    name := CollapseUnderscores(name);
    assert name == Collapsed(filename);
    if EndsWith(name, ".json") {
      var base := name[..|name| - 5];
      base := StripUnderscores(base);
      name := base + ".json";
    }
  }

  // ---------------------------------------------------------- properties

  lemma PunctuationClean(s: String)
    requires Avoids(s, TableChars)
    ensures Avoids(Punctuation(s), Forbidden)
  {
    ReplaceCharAvoids(s, '!', "", TableChars + {'!'});
    var p1 := ReplaceChar(s, '!', "");
    ReplaceCharAvoids(p1, '?', "", TableChars + {'!', '?'});
    var p2 := ReplaceChar(p1, '?', "");
    ReplaceCharAvoids(p2, ';', ",", TableChars + {'!', '?', ';'});
    var p3 := ReplaceChar(p2, ';', ",");
    ReplaceCharAvoids(p3, ' ', "_", Forbidden);
  }

  /** Steps 1 to 5: clean, and no double underscore. */
  function Collapsed(filename: String): (r: String)
    ensures Clean(r) && NoDoubleUnderscore(r)
  {
    ApplyTableIsTranslate(filename);
    PunctuationClean(ApplyTable(filename, Replacements));
    CollapseAvoids(Punctuation(ApplyTable(filename, Replacements)), Forbidden);
    CollapseUnderscores(Punctuation(ApplyTable(filename, Replacements)))
  }

  /** Trimming the base only removes characters. */
  lemma TrimJsonBaseAvoids(c: String, x: set<char>)
    requires Avoids(c, x) && Avoids(".json", x)
    ensures Avoids(TrimJsonBase(c), x)
  {
    if EndsWith(c, ".json") {
      var b := c[..|c| - 5];
      var i := SkipUnderscores(b, 0);
      var s := StripUnderscores(b);
      assert s == c[i..i + |s|];
      assert Avoids(s, x);
      AvoidsConcat(s, ".json", x);
    }
  }

  /** Trimming the base creates no double underscore. */
  lemma TrimJsonBaseNoDouble(c: String)
    requires NoDoubleUnderscore(c)
    ensures NoDoubleUnderscore(TrimJsonBase(c))
  {
    if EndsWith(c, ".json") {
      var b := c[..|c| - 5];
      var i := SkipUnderscores(b, 0);
      var s := StripUnderscores(b);
      var n := s + ".json";
      assert s == c[i..i + |s|];
      forall k | 0 <= k < |n| - 1 ensures !(n[k] == '_' && n[k + 1] == '_') {
        if k + 1 < |s| {
          assert n[k] == c[i + k] && n[k + 1] == c[i + k + 1];
        }
      }
    }
  }

  /** Trimming twice trims once. */
  lemma TrimJsonBaseIdempotent(c: String)
    ensures TrimJsonBase(TrimJsonBase(c)) == TrimJsonBase(c)
  {
    if EndsWith(c, ".json") {
      var s := StripUnderscores(c[..|c| - 5]);
      var n := s + ".json";
      assert n[|n| - 5..] == ".json";
      assert n[..|n| - 5] == s;
    }
  }

  lemma JsonSuffixClean()
    ensures Avoids(".json", Forbidden)
  {
    var j := ".json";
    assert j == ['.', 'j', 's', 'o', 'n'];
    forall i | 0 <= i < 5 ensures j[i] !in Forbidden {
      assert j[i] in {'.', 'j', 's', 'o', 'n'};
    }
  }

  /** No forbidden character is left in a normalised name. */
  lemma NormalizedClean(filename: String)
    ensures Clean(Normalized(filename))
  {
    JsonSuffixClean();
    TrimJsonBaseAvoids(Collapsed(filename), Forbidden);
  }

  /** No two underscores are adjacent in a normalised name. */
  lemma NormalizedNoDoubleUnderscore(filename: String)
    ensures NoDoubleUnderscore(Normalized(filename))
  {
    TrimJsonBaseNoDouble(Collapsed(filename));
  }

  /** A `.json` name keeps its extension and its base neither starts nor ends with '_'. */
  lemma NormalizedJson(filename: String)
    requires EndsWith(Collapsed(filename), ".json")
    ensures EndsWith(Normalized(filename), ".json")
    ensures var base := Normalized(filename)[..|Normalized(filename)| - 5];
      base == [] || (base[0] != '_' && base[|base| - 1] != '_')
  {
    TrimJsonBaseJson(Collapsed(filename));
  }

  lemma TrimJsonBaseJson(c: String)
    requires EndsWith(c, ".json")
    ensures EndsWith(TrimJsonBase(c), ".json")
    ensures var n := TrimJsonBase(c);
      var base := n[..|n| - 5];
      base == [] || (base[0] != '_' && base[|base| - 1] != '_')
  {
    var b := StripUnderscores(c[..|c| - 5]);
    var n := b + ".json";
    assert TrimJsonBase(c) == n;
    assert n[..|n| - 5] == b;
    assert n[|n| - 5..] == ".json";
  }

  /** A clean name without double underscores passes steps 1 to 5 unchanged. */
  lemma CollapsedFixed(n: String)
    requires Clean(n) && NoDoubleUnderscore(n)
    ensures Collapsed(n) == n
  {
    assert Avoids(n, TableChars);
    ApplyTableIsTranslate(n);
    assert ApplyTable(n, Replacements) == n;
    ReplaceCharAbsent(n, '!', "");
    ReplaceCharAbsent(n, '?', "");
    ReplaceCharAbsent(n, ';', ",");
    ReplaceCharAbsent(n, ' ', "_");
  }

  /** Normalising a normalised name changes nothing. */
  lemma NormalizedIdempotent(filename: String)
    ensures Normalized(Normalized(filename)) == Normalized(filename)
  {
    var n := Normalized(filename);
    NormalizedClean(filename);
    NormalizedNoDoubleUnderscore(filename);
    CollapsedFixed(n);
    TrimJsonBaseIdempotent(Collapsed(filename));
  }
}
