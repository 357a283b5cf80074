// Merging the role-thinking enhancement results: pull a JSON object out of
// each model reply by a fixed sequence of attempts, record whether one was
// found, and count the outcomes over all result files.

module MergeExtract {
  import opened Basics
  import opened Text

  // ------------------------------------------------------------ candidates

  /** `re.search(r'```json\s*([\s\S]*?)\s*```')`: the stripped text between the first "```json" and the next "```". */
  function JsonFence(s: String): (r: Option<String>)
    ensures r.Some? ==> Contains(s, "```json")
  {
    match Find(s, "```json")
    case None => None
    case Some(p) =>
      match FindFrom(s, "```", p + 7)
      case None => None
      case Some(q) => Some(Strip(s[p + 7..q]))
  }

  /** `re.search(r'```\s*([\s\S]*?)\s*```')`: the stripped text between the first "```" and the next one. */
  function PlainFence(s: String): (r: Option<String>)
    ensures r.Some? ==> Contains(s, "```")
  {
    match Find(s, "```")
    case None => None
    case Some(p) =>
      match FindFrom(s, "```", p + 3)
      case None => None
      case Some(q) => Some(Strip(s[p + 3..q]))
  }

  /** `re.search(r'\{[\s\S]*\}')`: from the first '{' to the last '}' after it. */
  function WidestBraces(s: String): (r: Option<String>)
    ensures r.Some? ==> |r.value| >= 2 && r.value[0] == '{' && r.value[|r.value| - 1] == '}'
  {
    match Find(s, "{")
    case None => None
    case Some(p) =>
      match LastIndexOf(s, '}')
      case None => None
      case Some(l) =>
        if l > p then
          assert s[p..p + 1] == "{";
          Some(s[p..l + 1])
        else None
  }

  // --------------------------------------------------- the backward scan

  function Delta(c: char): int {
    if c == '}' then 1 else if c == '{' then -1 else 0
  }

  /** Closing minus opening braces in `s[i..last]`, both ends included. */
  function Excess(s: String, i: nat, last: nat): int
    requires i <= last < |s|
    decreases last - i
  {
    Delta(s[i]) + (if i == last then 0 else Excess(s, i + 1, last))
  }

  /**
   * The '{' that balances the '}' at `last`: the largest `i <= last` where
   * the braces of `s[i..last]` cancel out. Every shorter span ending at
   * `last` has more closing than opening braces.
   */
  function MatchingOpen(s: String, last: nat): (r: Option<nat>)
    requires last < |s| && s[last] == '}'
    ensures r.Some? ==> r.value <= last && s[r.value] == '{' && Excess(s, r.value, last) == 0
    ensures r.Some? ==> forall k :: r.value < k <= last ==> Excess(s, k, last) > 0
    ensures r.None? ==> forall k :: 0 <= k <= last ==> Excess(s, k, last) > 0
  {
    OpenFrom(s, last, last)
  }

  /** MatchingOpen, searching downward from `i` once every span starting after `i` has positive excess. */
  function OpenFrom(s: String, last: nat, i: nat): (r: Option<nat>)
    requires i <= last < |s| && s[last] == '}'
    requires forall k :: i < k <= last ==> Excess(s, k, last) > 0
    ensures r.Some? ==> r.value <= i && s[r.value] == '{' && Excess(s, r.value, last) == 0
    ensures r.Some? ==> forall k :: r.value < k <= last ==> Excess(s, k, last) > 0
    ensures r.None? ==> forall k :: 0 <= k <= last ==> Excess(s, k, last) > 0
    decreases i
  {
    if Excess(s, i, last) == 0 then
      ZeroAtOpen(s, i, last);
      Some(i)
    else if i == 0 then
      StaysPositive(s, i, last);
      None
    else
      StaysPositive(s, i, last);
      OpenFrom(s, last, i - 1)
  }

  /** Walking down one character changes the excess by at most one, so it cannot skip zero. */
  lemma StaysPositive(s: String, i: nat, last: nat)
    requires i <= last < |s| && s[last] == '}'
    requires forall k :: i < k <= last ==> Excess(s, k, last) > 0
    requires Excess(s, i, last) != 0
    ensures Excess(s, i, last) > 0
  {
    if i < last {
      assert Excess(s, i + 1, last) > 0;
    }
  }

  /** The excess first reaches zero at an opening brace. */
  lemma ZeroAtOpen(s: String, i: nat, last: nat)
    requires i <= last < |s| && s[last] == '}'
    requires forall k :: i < k <= last ==> Excess(s, k, last) > 0
    requires Excess(s, i, last) == 0
    ensures s[i] == '{'
  {
    if i < last {
      assert Excess(s, i + 1, last) > 0;
    }
  }

  /** The backward brace-count loop from the last '}': where the object it closes begins. */
  method ScanBack(s: String, last: nat) returns (r: Option<nat>)
    requires last < |s| && s[last] == '}'
    ensures r == MatchingOpen(s, last)
  {
    var braceCount := 0;
    var j: nat := last + 1;
    while j > 0
      invariant j <= last + 1
      invariant braceCount == (if j <= last then Excess(s, j, last) else 0)
      invariant forall k :: j <= k <= last ==> Excess(s, k, last) > 0
      invariant j > 0 ==> OpenFrom(s, last, j - 1) == MatchingOpen(s, last)
      decreases j
    {
      var i := j - 1;
      if s[i] == '}' {
        braceCount := braceCount + 1;
      } else if s[i] == '{' {
        braceCount := braceCount - 1;
        if braceCount == 0 {
          assert Excess(s, i, last) == 0;
          return Some(i);
        }
      }
      assert braceCount == Excess(s, i, last);
      StaysPositive(s, i, last);
      j := i;
    }
    r := None;
  }

  /** The span the backward scan hands to the parser. */
  function BackwardSpan(s: String): (r: Option<String>)
    ensures r.Some? ==> |r.value| >= 2 && r.value[0] == '{' && r.value[|r.value| - 1] == '}'
    ensures r.Some? ==> Excess(r.value, 0, |r.value| - 1) == 0
  {
    match LastIndexOf(s, '}')
    case None => None
    case Some(last) =>
      match MatchingOpen(s, last)
      case None => None
      case Some(i) =>
        ExcessSlice(s, i, last);
        Some(s[i..last + 1])
  }

  /** The excess is read off the characters alone. */
  lemma {:induction false} ExcessSlice(s: String, i: nat, last: nat)
    requires i <= last < |s|
    ensures Excess(s[i..last + 1], 0, last - i) == Excess(s, i, last)
    decreases last - i
  {
    if i < last {
      ExcessShift(s[i..last + 1], 1, last - i);
      ExcessSlice(s, i + 1, last);
      assert s[i..last + 1][1..] == s[i + 1..last + 1];
    }
  }

  lemma {:induction false} ExcessShift(t: String, i: nat, last: nat)
    requires 1 <= i <= last < |t|
    ensures Excess(t, i, last) == Excess(t[1..], i - 1, last - 1)
    decreases last - i
  {
    if i < last {
      ExcessShift(t, i + 1, last);
    }
  }

  // ------------------------------------------------------------ attempts

  /** json.loads returns Python's None for the text "null", which counts as no result. */
  function Returned(v: Json): (r: Option<Json>)
    ensures r.None? <==> v == JNull
  {
    if v.JNull? then None else Some(v)
  }

  /** The texts handed to json.loads, in order: the whole reply, the json fence, any fence, the balanced object, the widest braces. */
  function Attempts(text: String): (r: seq<Option<String>>)
    ensures |r| == 5 && r[0] == Some(text)
  {
    [Some(text), JsonFence(text), PlainFence(text), BackwardSpan(text), WidestBraces(text)]
  }

  /** The first attempt that parses decides the result; one that fails to parse falls through to the next. */
  function FirstParsed(cands: seq<Option<String>>, parse: String -> Option<Json>): (r: Option<Json>)
    ensures r.Some? ==> r.value != JNull
  {
    if cands == [] then None
    else if cands[0].Some? && parse(cands[0].value).Some? then Returned(parse(cands[0].value).value)
    else FirstParsed(cands[1..], parse)
  }

  /** An attempt is used exactly when every earlier one is absent or unparsable. */
  predicate Decides(cands: seq<Option<String>>, parse: String -> Option<Json>, k: nat)
    requires k < |cands|
  {
    cands[k].Some? && parse(cands[k].value).Some? &&
    forall j :: 0 <= j < k ==> cands[j].None? || parse(cands[j].value).None?
  }

  lemma {:induction false} FirstParsedSpec(cands: seq<Option<String>>, parse: String -> Option<Json>)
    ensures FirstParsed(cands, parse) == (
      if exists k :: 0 <= k < |cands| && Decides(cands, parse, k)
      then Returned(parse(cands[FirstDecider(cands, parse)].value).value)
      else None)
    decreases |cands|
  {
    if cands != [] {
      FirstParsedSpec(cands[1..], parse);
      if !(cands[0].Some? && parse(cands[0].value).Some?) {
        if exists k :: 0 <= k < |cands| && Decides(cands, parse, k) {
          var k :| 0 <= k < |cands| && Decides(cands, parse, k);
          assert Decides(cands[1..], parse, k - 1);
        }
        if exists k :: 0 <= k < |cands[1..]| && Decides(cands[1..], parse, k) {
          var k :| 0 <= k < |cands[1..]| && Decides(cands[1..], parse, k);
          assert Decides(cands, parse, k + 1);
        }
      } else {
        assert Decides(cands, parse, 0);
      }
    }
  }

  /** The index of the first attempt that parses. */
  function FirstDecider(cands: seq<Option<String>>, parse: String -> Option<Json>): (k: nat)
    requires exists k :: 0 <= k < |cands| && Decides(cands, parse, k)
    ensures k < |cands| && Decides(cands, parse, k)
  {
    if cands[0].Some? && parse(cands[0].value).Some? then 0
    else
      var k :| 0 <= k < |cands| && Decides(cands, parse, k);
      assert Decides(cands[1..], parse, k - 1);
      var j := FirstDecider(cands[1..], parse);
      assert Decides(cands, parse, j + 1);
      j + 1
  }

  /**
   * extract_json_from_response. `parse` stands for json.loads (None when it
   * raises); an empty reply gives None.
   */
  function ExtractJson(text: String, parse: String -> Option<Json>): (r: Option<Json>)
    ensures text == [] ==> r.None?
    ensures parse(text).Some? && text != [] ==> r == Returned(parse(text).value)
    ensures r.Some? ==> r.value != JNull
  {
    if text == [] then None else FirstParsed(Attempts(text), parse)
  }

  // ------------------------------------------------------------ the results

  /** One row of the merged output. */
  datatype Row = Row(traceId: String, modelOutput: Option<String>, enhanced: Option<Json>, status: String, parseSuccess: bool)

  /** process_result_file for one line: a missing status reads "unknown", a missing or empty reply is not parsed. */
  function MakeRow(traceId: String, modelOutput: Option<String>, status: Option<String>, parse: String -> Option<Json>): (r: Row)
    ensures r.parseSuccess <==> r.enhanced.Some?
    ensures r.enhanced.Some? ==> modelOutput.Some? && r.enhanced == ExtractJson(modelOutput.value, parse)
    ensures r.status == (if status.Some? then status.value else "unknown")
  {
    var enhanced := if modelOutput.Some? && modelOutput.value != [] then ExtractJson(modelOutput.value, parse) else None;
    Row(traceId, modelOutput, enhanced, if status.Some? then status.value else "unknown", enhanced.Some?)
  }

  datatype Stats = Stats(total: nat, succeeded: nat, failed: nat, parseSuccess: nat, parseFailed: nat)

  /** The counters after the given rows. */
  function Tally(rows: seq<Row>): Stats {
    if rows == [] then Stats(0, 0, 0, 0, 0)
    else Count(Tally(rows[..|rows| - 1]), rows[|rows| - 1])
  }

  /** One row's contribution to the counters. */
  function Count(st: Stats, row: Row): Stats {
    Stats(st.total + 1,
      st.succeeded + (if row.status == "succeeded" then 1 else 0),
      st.failed + (if row.status == "succeeded" then 0 else 1),
      st.parseSuccess + (if row.parseSuccess then 1 else 0),
      st.parseFailed + (if row.parseSuccess then 0 else 1))
  }

  function CountSucceeded(rows: seq<Row>): nat {
    if rows == [] then 0
    else CountSucceeded(rows[..|rows| - 1]) + (if rows[|rows| - 1].status == "succeeded" then 1 else 0)
  }

  function CountParsed(rows: seq<Row>): nat {
    if rows == [] then 0
    else CountParsed(rows[..|rows| - 1]) + (if rows[|rows| - 1].parseSuccess then 1 else 0)
  }

  /** The counters add up: every row is counted once as succeeded or failed, and once as parsed or not. */
  lemma {:induction false} TallyAddsUp(rows: seq<Row>)
    ensures Tally(rows).total == |rows|
    ensures Tally(rows).succeeded + Tally(rows).failed == |rows|
    ensures Tally(rows).parseSuccess + Tally(rows).parseFailed == |rows|
    ensures Tally(rows).succeeded == CountSucceeded(rows) && Tally(rows).parseSuccess == CountParsed(rows)
  {
    if rows != [] {
      TallyAddsUp(rows[..|rows| - 1]);
    }
  }

  function Flatten(files: seq<seq<Row>>): seq<Row> {
    if files == [] then [] else Flatten(files[..|files| - 1]) + files[|files| - 1]
  }

  lemma {:induction false} TallyAppend(rows: seq<Row>, more: seq<Row>)
    ensures Tally(rows + more) == TallyOn(Tally(rows), more)
    decreases |more|
  {
    if more != [] {
      var n := |more| - 1;
      TallyAppend(rows, more[..n]);
      assert (rows + more)[..|rows + more| - 1] == rows + more[..n];
    } else {
      assert rows + more == rows;
    }
  }

  /** The counters after adding the given rows to `st`. */
  function TallyOn(st: Stats, rows: seq<Row>): Stats {
    if rows == [] then st else Count(TallyOn(st, rows[..|rows| - 1]), rows[|rows| - 1])
  }

  /**
   * merge_and_extract: rows of all files in file order, counted as they are
   * appended. The summary that follows divides by the total, so with no rows
   * the script stops there: `writes` tells whether the outputs are written.
   */
  method MergeAndExtract(files: seq<seq<Row>>) returns (all: seq<Row>, stats: Stats, writes: bool)
    ensures all == Flatten(files) && stats == Tally(all)
    ensures writes <==> all != []
  {
    all := [];
    stats := Stats(0, 0, 0, 0, 0);
    for f := 0 to |files|
      invariant all == Flatten(files[..f]) && stats == Tally(all)
    {
      assert files[..f + 1][..f] == files[..f];
      var results := files[f];
      ghost var before := stats;
      for j := 0 to |results|
        invariant stats == TallyOn(before, results[..j])
      {
        assert results[..j + 1][..j] == results[..j];
        var row := results[j];
        stats := stats.(total := stats.total + 1);
        if row.status == "succeeded" {
          stats := stats.(succeeded := stats.succeeded + 1);
        } else {
          stats := stats.(failed := stats.failed + 1);
        }
        if row.parseSuccess {
          stats := stats.(parseSuccess := stats.parseSuccess + 1);
        } else {
          stats := stats.(parseFailed := stats.parseFailed + 1);
        }
      }
      assert results[..|results|] == results;
      TallyAppend(all, results);
      all := all + results;
    }
    assert files[..|files|] == files;
    TallyAddsUp(all);
    writes := stats.total != 0;
  }
}
