// Holding out the test cases of the evaluation set: a training record is a
// test record when the (i_p, i_c) pair read off its trace id belongs to a
// test case whose book name occurs in the trace id's prefix.

module SplitTrainTest {
  import opened Basics
  import opened Text

  // ------------------------------------------------------ the trace id key

  /** The key read off a trace id: the text before the pair, and the pair. */
  datatype TraceKey = TraceKey(prefix: String, ip: nat, ic: nat)

  /** Parts `i - 1` and `i` are both digit strings. */
  predicate PairAt(parts: seq<String>, i: nat)
    requires 1 <= i < |parts|
  {
    AllDigits(parts[i]) && AllDigits(parts[i - 1])
  }

  /** The largest `i` in `[1, hi]` where a digit pair ends. */
  function RightmostPair(parts: seq<String>, hi: nat): (r: Option<nat>)
    requires hi < |parts|
    ensures r.Some? ==> 1 <= r.value <= hi && PairAt(parts, r.value)
    ensures r.Some? ==> forall j :: r.value < j <= hi ==> !PairAt(parts, j)
    ensures r.None? ==> forall j :: 1 <= j <= hi ==> !PairAt(parts, j)
    decreases hi
  {
    if hi == 0 then None
    else if PairAt(parts, hi) then Some(hi)
    else RightmostPair(parts, hi - 1)
  }

  lemma RightmostSkip(parts: seq<String>, i: nat)
    requires 1 <= i < |parts| && !PairAt(parts, i)
    ensures RightmostPair(parts, i) == RightmostPair(parts, i - 1)
  {
  }

  /** The key of the pair ending at part `i`. */
  function KeyAt(parts: seq<String>, i: nat): TraceKey
    requires 1 <= i < |parts| && PairAt(parts, i)
  {
    TraceKey(Join(parts[..i - 1], "_"), DigitsValue(parts[i - 1]), DigitsValue(parts[i]))
  }

  /** The key of a trace id: the rightmost adjacent pair of digit parts among the last eleven '_'-parts. */
  function KeyOf(traceId: String): Option<TraceKey> {
    KeyOfParts(RSplit(traceId, '_', 10))
  }

  /** The key of the rightmost pair, if there is one. */
  function KeyOfParts(parts: seq<String>): (r: Option<TraceKey>)
    requires |parts| >= 1
    ensures r.None? <==> forall j :: 1 <= j < |parts| ==> !PairAt(parts, j)
  {
    match RightmostPair(parts, |parts| - 1)
    case None => None
    case Some(i) => Some(KeyAt(parts, i))
  }

  /** extract_key_from_trace_id: split off the last eleven '_'-parts, then scan them. */
  method ExtractKeyFromTraceId(traceId: String) returns (r: Option<TraceKey>)
    ensures r == KeyOf(traceId)
  {
    var parts := RSplit(traceId, '_', 10);
    r := ScanForPair(parts);
  }

  /** The scan of extract_key_from_trace_id: from the right, for two digit parts in a row. */
  method ScanForPair(parts: seq<String>) returns (r: Option<TraceKey>)
    requires |parts| >= 1
    ensures r == KeyOfParts(parts)
  {
    var i: nat := |parts| - 1;
    while i > 0
      invariant i < |parts|
      invariant RightmostPair(parts, |parts| - 1) == RightmostPair(parts, i)
    {
      if PairAt(parts, i) {
        var ic := DigitsValue(parts[i]);
        var ip := DigitsValue(parts[i - 1]);
        var prefix := Join(parts[..i - 1], "_");
        return Some(TraceKey(prefix, ip, ic));
      }
      RightmostSkip(parts, i);
      i := i - 1;
    }
    return None;
  }

  /** A trace id of the form `{prefix}_{i_p}_{i_c}_{name}`, with a name that has no '_' and is not a number, gives back its prefix and pair. */
  lemma KeyOfRoundTrip(prefix: String, ip: nat, ic: nat, name: String)
    requires '_' !in name && !AllDigits(name)
    ensures KeyOf(prefix + "_" + NatToString(ip) + "_" + NatToString(ic) + "_" + name) ==
      Some(TraceKey(prefix, ip, ic))
  {
    var a, b := NatToString(ip), NatToString(ic);
    var t := prefix + "_" + a + "_" + b + "_" + name;
    TraceIdParts(prefix, a, b, name);
    var left := RSplit(prefix, '_', 7);
    var parts := RSplit(t, '_', 10);
    assert parts == left + [a, b, name];
    var n := |parts| - 1;
    assert !PairAt(parts, n);
    assert PairAt(parts, n - 1);
    assert parts[..n - 2] == left;
    JoinRSplit(prefix, '_', 7);
    NatToStringRoundTrip(ip);
    NatToStringRoundTrip(ic);
  }

  lemma TraceIdParts(prefix: String, a: String, b: String, name: String)
    requires '_' !in name && AllDigits(a) && AllDigits(b)
    ensures RSplit(prefix + "_" + a + "_" + b + "_" + name, '_', 10) == RSplit(prefix, '_', 7) + [a, b, name]
  {
    assert '_' !in a && '_' !in b;
    assert prefix + "_" + a + "_" + b + "_" + name == (prefix + ['_'] + a + ['_'] + b) + ['_'] + name;
    RSplitLast(prefix + ['_'] + a + ['_'] + b, name, '_', 10);
    assert prefix + ['_'] + a + ['_'] + b == (prefix + ['_'] + a) + ['_'] + b;
    RSplitLast(prefix + ['_'] + a, b, '_', 9);
    RSplitLast(prefix, a, '_', 8);
  }

  // ------------------------------------------------------------ test cases

  /** One entry of the test-set file; an absent field is `None`. */
  datatype TestItem = TestItem(bookName: Option<String>, book: Option<String>, ip: Option<int>, ic: Option<int>)

  /** `(book, i_p, i_c)` with the book's spaces turned into '_'. */
  type TestKey = (String, int, int)

  /** `item.get('book_name', item.get('book', ''))`. */
  function BookOf(item: TestItem): String {
    match item.bookName
    case Some(b) => b
    case None => match item.book case Some(b) => b case None => ""
  }

  /** The key an entry contributes, if it names a book and both indices. */
  function TestKeyOf(item: TestItem): (r: Option<TestKey>)
    ensures r.Some? <==> BookOf(item) != "" && item.ip.Some? && item.ic.Some?
    ensures r.Some? ==> ' ' !in r.value.0 && r.value.1 == item.ip.value && r.value.2 == item.ic.value
  {
    if BookOf(item) != "" && item.ip.Some? && item.ic.Some? then
      var book := ReplaceChar(BookOf(item), ' ', "_");
      ReplaceCharAvoids(BookOf(item), ' ', "_", {' '});
      Some((book, item.ip.value, item.ic.value))
    else None
  }

  /** The set load_test_cases builds. */
  function TestKeys(items: seq<TestItem>): set<TestKey> {
    if items == [] then {}
    else TestKeys(items[..|items| - 1]) + KeySet(items[|items| - 1])
  }

  /** The keys one entry contributes: none or one. */
  function KeySet(item: TestItem): (r: set<TestKey>)
    ensures forall k :: k in r <==> TestKeyOf(item) == Some(k)
  {
    match TestKeyOf(item) case Some(k) => {k} case None => {}
  }

  /** A key is loaded exactly when some entry contributes it. */
  lemma {:induction false} TestKeysSpec(items: seq<TestItem>, k: TestKey)
    ensures k in TestKeys(items) <==> exists i :: 0 <= i < |items| && TestKeyOf(items[i]) == Some(k)
  {
    if items != [] {
      var n := |items| - 1;
      var front := items[..n];
      TestKeysSpec(front, k);
      assert forall i :: 0 <= i < n ==> front[i] == items[i];
      assert TestKeys(items) == TestKeys(front) + KeySet(items[n]);
    }
  }

  /** load_test_cases, entry by entry. */
  method LoadTestCases(items: seq<TestItem>) returns (keys: set<TestKey>)
    ensures keys == TestKeys(items)
  {
    keys := {};
    for i := 0 to |items|
      invariant keys == TestKeys(items[..i])
    {
      assert items[..i + 1][..i] == items[..i];
      assert TestKeys(items[..i + 1]) == TestKeys(items[..i]) + KeySet(items[i]);
      var item := items[i];
      var book := BookOf(item);
      if book != "" && item.ip.Some? && item.ic.Some? {
        keys := keys + {(ReplaceChar(book, ' ', "_"), item.ip.value, item.ic.value)};
      }
      assert keys == TestKeys(items[..i]) + KeySet(items[i]);
    }
    assert items[..|items|] == items;
  }

  // ------------------------------------------------------------ membership

  /** The books of the test cases with the pair `(ip, ic)`. */
  function BooksFor(keys: set<TestKey>, ip: int, ic: int): set<String> {
    set k | k in keys && k.1 == ip && k.2 == ic :: k.0
  }

  /** test_book_ip_ic: the test cases grouped by their pair. */
  function Groups(keys: set<TestKey>): map<(int, int), set<String>> {
    map p | p in (set k | k in keys :: (k.1, k.2)) :: BooksFor(keys, p.0, p.1)
  }

  /** The grouping, one test case at a time. */
  method GroupTestKeys(keys: set<TestKey>) returns (groups: map<(int, int), set<String>>)
    ensures groups == Groups(keys)
  {
    groups := map[];
    var rest := keys;
    while rest != {}
      invariant rest <= keys
      invariant groups == Groups(keys - rest)
      decreases |rest|
    {
      var k :| k in rest;
      var p := (k.1, k.2);
      ghost var done := keys - rest;
      groups := groups[p := (if p in groups then groups[p] else {}) + {k.0}];
      rest := rest - {k};
      assert keys - rest == done + {k};
      GroupsAdd(done, k);
    }
    assert keys - rest == keys;
  }

  lemma GroupsAdd(done: set<TestKey>, k: TestKey)
    ensures Groups(done + {k}) ==
      Groups(done)[(k.1, k.2) := (if (k.1, k.2) in Groups(done) then Groups(done)[(k.1, k.2)] else {}) + {k.0}]
  {
    var p := (k.1, k.2);
    var g, h := Groups(done), Groups(done + {k});
    var m := g[p := (if p in g then g[p] else {}) + {k.0}];
    assert p in (set k' | k' in done + {k} :: (k'.1, k'.2));
    forall q | q in h ensures q in m {
      var k' :| k' in done + {k} && (k'.1, k'.2) == q;
      if k' != k {
        assert q in (set k' | k' in done :: (k'.1, k'.2));
      }
    }
    forall q | q in m ensures q in h {
      if q != p {
        var k' :| k' in done && (k'.1, k'.2) == q;
        assert q in (set k' | k' in done + {k} :: (k'.1, k'.2));
      }
    }
    assert h.Keys == m.Keys;
    forall q | q in h ensures h[q] == m[q] {
      if q == p {
        if p in g {
          assert BooksFor(done + {k}, p.0, p.1) == BooksFor(done, p.0, p.1) + {k.0};
        } else {
          assert BooksFor(done, p.0, p.1) == {} by {
            forall k' | k' in done ensures (k'.1, k'.2) != p {
              assert (k'.1, k'.2) in (set k' | k' in done :: (k'.1, k'.2));
            }
          }
          assert BooksFor(done + {k}, p.0, p.1) == {k.0};
        }
      } else {
        assert BooksFor(done + {k}, q.0, q.1) == BooksFor(done, q.0, q.1);
      }
    }
    assert h == m;
  }

  /** The test rule: the record's pair is grouped and one of its books occurs in the prefix. */
  function IsTest(traceId: String, groups: map<(int, int), set<String>>): bool {
    match KeyOf(traceId)
    case None => false
    case Some(key) =>
      (key.ip, key.ic) in groups && exists b :: b in groups[(key.ip, key.ic)] && Contains(key.prefix, b)
  }

  /** A record is held out exactly when some test case has its pair and a book the prefix contains. */
  lemma IsTestIff(traceId: String, keys: set<TestKey>)
    ensures IsTest(traceId, Groups(keys)) <==>
      KeyOf(traceId).Some? &&
      exists k :: k in keys && k.1 == KeyOf(traceId).value.ip && k.2 == KeyOf(traceId).value.ic &&
        Contains(KeyOf(traceId).value.prefix, k.0)
  {
    if KeyOf(traceId).Some? {
      var key := KeyOf(traceId).value;
      var p := (key.ip, key.ic);
      if exists k :: k in keys && k.1 == key.ip && k.2 == key.ic && Contains(key.prefix, k.0) {
        var k :| k in keys && k.1 == key.ip && k.2 == key.ic && Contains(key.prefix, k.0);
        assert p in (set k | k in keys :: (k.1, k.2));
        assert k.0 in Groups(keys)[p];
      }
      if IsTest(traceId, Groups(keys)) {
        var b :| b in Groups(keys)[p] && Contains(key.prefix, b);
        var k :| k in keys && k.1 == key.ip && k.2 == key.ic && k.0 == b;
      }
    }
  }

  /** The records of one input file split into training and test records, in input order. */
  method ClassifyRecords(traceIds: seq<String>, groups: map<(int, int), set<String>>)
    returns (train: seq<String>, test: seq<String>)
    ensures test == Filter(traceIds, groups, true) && train == Filter(traceIds, groups, false)
  {
    train, test := [], [];
    for i := 0 to |traceIds|
      invariant test == Filter(traceIds[..i], groups, true)
      invariant train == Filter(traceIds[..i], groups, false)
    {
      assert traceIds[..i + 1][..i] == traceIds[..i];
      if IsTest(traceIds[i], groups) {
        test := test + [traceIds[i]];
      } else {
        train := train + [traceIds[i]];
      }
    }
    assert traceIds[..|traceIds|] == traceIds;
  }

  /** The records whose test verdict is `verdict`, in order. */
  function Filter(traceIds: seq<String>, groups: map<(int, int), set<String>>, verdict: bool): seq<String> {
    if traceIds == [] then []
    else
      var n := |traceIds| - 1;
      Filter(traceIds[..n], groups, verdict) + (if IsTest(traceIds[n], groups) == verdict then [traceIds[n]] else [])
  }

  /** A record is in a file exactly when it is among the inputs and its verdict is the file's. */
  lemma {:induction false} FilterSpec(traceIds: seq<String>, groups: map<(int, int), set<String>>, verdict: bool, t: String)
    ensures t in Filter(traceIds, groups, verdict) <==> t in traceIds && IsTest(t, groups) == verdict
  {
    if traceIds != [] {
      var n := |traceIds| - 1;
      FilterSpec(traceIds[..n], groups, verdict, t);
      assert traceIds == traceIds[..n] + [traceIds[n]];
    }
  }

  /** Every record lands in exactly one of the two files. */
  lemma {:induction false} FilterPartition(traceIds: seq<String>, groups: map<(int, int), set<String>>)
    ensures |Filter(traceIds, groups, true)| + |Filter(traceIds, groups, false)| == |traceIds|
  {
    if traceIds != [] {
      FilterPartition(traceIds[..|traceIds| - 1], groups);
    }
  }
}
