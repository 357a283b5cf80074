// Building the final reward-model datasets: score each judged comparison by
// the judge's principles and per-principle winners, sort the records into
// winner-pattern buckets, and cut each bucket at its limit into an SFT part
// and an RL remainder.

module FilterQuality {
  import opened Basics
  import opened Text
  import Patterns

  // ------------------------------------------------- the fenced JSON block

  /**
   * The backtracking of `\s*\n` inside "```json\s*\n(.*?)\n```": the
   * whitespace run is given back from the right until a newline is left for
   * `\n`, and from each such newline the lazy group runs to the first
   * "\n```" after it. `lo..hi` is the part of the run still to try.
   */
  function GroupAfterNewline(s: String, lo: nat, hi: nat): (r: Option<String>)
    requires lo <= hi <= |s|
    decreases hi - lo
  {
    match Patterns.LastNewlineIn(s, lo, hi)
    case None => None
    case Some(nl) =>
      match FindFrom(s, CloseFence, nl + 1)
      case Some(q) => Some(s[nl + 1..q])
      case None => GroupAfterNewline(s, lo, nl)
  }

  /** The fenced block matches at `p`: its captured group. */
  function FenceAt(s: String, p: nat): (r: Option<String>)
    requires p <= |s|
    ensures r.Some? ==> OccursAt(s, "```json", p)
  {
    if OccursAt(s, "```json", p) then GroupAfterNewline(s, p + 7, Patterns.SkipSpace(s, p + 7))
    else None
  }

  /** `re.search` for the fenced block: the first position at or after `p` where it matches. */
  function FirstFence(s: String, p: nat): (r: Option<nat>)
    requires p <= |s|
    ensures r.Some? ==> p <= r.value <= |s| && FenceAt(s, r.value).Some?
    ensures r.Some? ==> forall k :: p <= k < r.value ==> FenceAt(s, k).None?
    ensures r.None? ==> forall k :: p <= k <= |s| ==> FenceAt(s, k).None?
    decreases |s| - p
  {
    if FenceAt(s, p).Some? then Some(p)
    else if p == |s| then None
    else FirstFence(s, p + 1)
  }

  /**
   * extract_json_from_response: an empty text gives nothing; a fenced block
   * is decoded on its own, with no fallback when that fails; otherwise the
   * whole text is decoded. `parse` stands for `json.loads`, `None` for a
   * decode error.
   */
  function ExtractResponseJson(text: String, parse: String -> Option<Json>): (r: Option<Json>)
    ensures text == [] ==> r.None?
    ensures FirstFence(text, 0).Some? ==> r == parse(FenceAt(text, FirstFence(text, 0).value).value)
    ensures text != [] && FirstFence(text, 0).None? ==> r == parse(text)
  {
    if text == [] then None
    else
      match FirstFence(text, 0)
      case Some(p) => parse(FenceAt(text, p).value)
      case None => parse(text)
  }

  /** A reply with no "```json" at all is decoded whole. */
  lemma NoFenceParsesWhole(text: String, parse: String -> Option<Json>)
    requires text != [] && !Contains(text, "```json")
    ensures ExtractResponseJson(text, parse) == parse(text)
  {
  }

  /** No character of `pre` can start the fence, so the search runs past it. */
  lemma FenceNotIn(s: String, pre: String, k: nat)
    requires '`' !in pre && k < |pre| <= |s| && s[..|pre|] == pre
    ensures FenceAt(s, k).None?
  {
    assert s[k] != '`' by {
      assert s[k] == pre[k];
    }
    if k + 7 <= |s| {
      assert s[k..k + 7][0] == s[k];
    }
  }

  /** The opening and the closing fence of a fenced block with the newlines the regex needs. */
  const OpenFence: String := "```json\n"
  const CloseFence: String := "\n```"

  /** The middle part of a three-part concatenation. */
  lemma PartAt(s: String, x: String, y: String, z: String)
    requires s == x + y + z
    ensures |s| == |x| + |y| + |z| && s[|x|..|x| + |y|] == y
  {
  }

  /** The opening of a fenced reply: the fence at the end of `pre`, then a newline and no further space. */
  lemma FenceOpening(s: String, pre: String, body: String, post: String)
    requires |body| > 0 && !IsSpace(body[0])
    requires s == pre + OpenFence + body + CloseFence + post
    ensures OccursAt(s, "```json", |pre|) && s[|pre| + 7] == '\n'
    ensures Patterns.SkipSpace(s, |pre| + 7) == |pre| + 8
  {
    var a := |pre| + 8;
    PartAt(s, pre, OpenFence, body + CloseFence + post);
    PartAt(s, pre + OpenFence, body, CloseFence + post);
    assert s[|pre|..|pre| + 7] == s[|pre|..a][..7] == "```json";
    assert s[|pre| + 7] == s[|pre|..a][7] == '\n';
    assert s[a] == s[a..a + |body|][0] == body[0];
  }

  /** The body of a fenced reply runs up to the first closing fence. */
  lemma FenceBody(s: String, pre: String, body: String, post: String)
    requires forall k :: !OccursAt(body, CloseFence, k)
    requires s == pre + OpenFence + body + CloseFence + post
    ensures FindFrom(s, CloseFence, |pre| + 8) == Some(|pre| + 8 + |body|)
    ensures s[|pre| + 8..|pre| + 8 + |body|] == body
  {
    var a := |pre| + 8;
    PartAt(s, pre + OpenFence, body, CloseFence + post);
    PartAt(s, pre + OpenFence + body, CloseFence, post);
    assert s[a + |body|] == s[a + |body|..a + |body| + 4][0] == '\n';
    forall t | a <= t < a + |body|
      ensures s[t] == body[t - a]
    {
      assert s[a..a + |body|][t - a] == s[t];
    }
    forall j | a <= j < a + |body|
      ensures !OccursAt(s, CloseFence, j)
    {
      NoCloseAt(s, a, body, j);
    }
    FirstCloseAt(s, a, a + |body|);
  }

  /** A closing fence cannot start inside the body: it would lie in the body or cover the newline after it. */
  lemma NoCloseAt(s: String, a: nat, body: String, j: nat)
    requires a <= j < a + |body| < |s| && s[a + |body|] == '\n'
    requires forall t :: a <= t < a + |body| ==> s[t] == body[t - a]
    requires !OccursAt(body, CloseFence, j - a)
    ensures !OccursAt(s, CloseFence, j)
  {
    if j + 4 <= a + |body| {
      assert body[j - a..j - a + 4] == s[j..j + 4];
    } else if j + 4 <= |s| {
      assert s[j..j + 4][a + |body| - j] == s[a + |body|];
    }
  }

  /** `find` stops at the first occurrence when there is none before it. */
  lemma {:induction false} FirstCloseAt(s: String, i: nat, q: nat)
    requires i <= q && OccursAt(s, CloseFence, q)
    requires forall j :: i <= j < q ==> !OccursAt(s, CloseFence, j)
    ensures FindFrom(s, CloseFence, i) == Some(q)
    decreases q - i
  {
    if i < q {
      FirstCloseAt(s, i + 1, q);
    }
  }

  /** A reply that carries its JSON in a fenced block is decoded from exactly that block. */
  lemma FenceRoundTrip(pre: String, body: String, post: String, parse: String -> Option<Json>)
    requires '`' !in pre
    requires |body| > 0 && !IsSpace(body[0]) && !Contains(body, CloseFence)
    ensures ExtractResponseJson(pre + OpenFence + body + CloseFence + post, parse) == parse(body)
  {
    var s := pre + OpenFence + body + CloseFence + post;
    ContainsIff(body, CloseFence);
    FenceOpening(s, pre, body, post);
    FenceBody(s, pre, body, post);
    var p := |pre|;
    assert s[..p] == pre;
    assert Patterns.LastNewlineIn(s, p + 7, p + 8) == Some(p + 7);
    assert GroupAfterNewline(s, p + 7, p + 8) == Some(body);
    assert FenceAt(s, p) == Some(body);
    forall k | 0 <= k < p
      ensures FenceAt(s, k).None?
    {
      FenceNotIn(s, pre, k);
    }
    assert FirstFence(s, 0) == Some(p) by {
      FirstFenceAt(s, 0, p);
    }
  }

  /** The search finds the first matching position when all earlier ones fail. */
  lemma {:induction false} FirstFenceAt(s: String, i: nat, p: nat)
    requires i <= p <= |s| && FenceAt(s, p).Some?
    requires forall k :: i <= k < p ==> FenceAt(s, k).None?
    ensures FirstFence(s, i) == Some(p)
    decreases p - i
  {
    if i < p {
      FirstFenceAt(s, i + 1, p);
    }
  }

  // ------------------------------------------------ Python values of JSON

  /** Python truthiness of a decoded value. */
  predicate Truthy(j: Json) {
    match j
    case JNull => false
    case JBool(b) => b
    case JNum(n) => n != 0.0
    case JStr(s) => s != []
    case JArr(items) => items != []
    case JObj(members) => members != []
  }

  /** `j.get(key, default)`; `None` when `j` is not a dict (an AttributeError). */
  function Get(j: Json, key: String, default: Json): (r: Option<Json>)
    ensures r.Some? <==> j.JObj?
    ensures r.Some? && (forall i :: 0 <= i < |j.members| ==> j.members[i].0 != key) ==> r.value == default
  {
    match j
    case JObj(members) =>
      (match Lookup(members, key)
       case Some(v) => Some(v)
       case None => Some(default))
    case _ => None
  }

  /** `len(j)`; a dict counts its distinct keys; `None` when `j` has no length (a TypeError). */
  function PyLen(j: Json): (r: Option<nat>)
    ensures r.Some? <==> j.JStr? || j.JArr? || j.JObj?
    ensures r.Some? ==> (r.value == 0 <==> !Truthy(j))
  {
    match j
    case JStr(s) => Some(|s|)
    case JArr(items) => Some(|items|)
    case JObj(members) =>
      var keys := set i | 0 <= i < |members| :: members[i].0;
      if members != [] then
        assert members[0].0 in keys;
        Some(|keys|)
      else
        Some(|keys|)
    case _ => None
  }

  /**
   * The items a `for` loop visits: a list gives its elements; an empty dict
   * or string gives none; a non-empty dict or string gives keys or
   * characters, on which `.get` fails, and anything else is not iterable, so
   * those are `None`.
   */
  function LoopItems(j: Json): (r: Option<seq<Json>>)
    ensures r.Some? ==> j.JArr? || !Truthy(j)
    ensures j.JArr? ==> r == Some(j.items)
  {
    match j
    case JArr(items) => Some(items)
    case JObj(members) => if members == [] then Some([]) else None
    case JStr(s) => if s == [] then Some([]) else None
    case _ => None
  }

  // ------------------------------------------------------- check_quality

  /** Winners counted over the principle comparisons. */
  datatype Winners = Winners(cand1: nat, cand2: nat, tie: nat)

  /** What check_quality returns. */
  datatype Quality = Quality(isHigh: bool, principles: nat, cand1: nat, cand2: nat, tie: nat)

  const NoQuality := Quality(false, 0, 0, 0, 0)

  /** One comparison's winner: a comparison that is not a dict has none to give (an AttributeError). */
  function WinnerOf(comp: Json): Option<Json> {
    Get(comp, "winner", JStr(""))
  }

  /** Counting one winner: only "cand_1", "cand_2" and "tie" are counted. */
  function Bump(w: Winners, winner: Json): Winners {
    if winner == JStr("cand_1") then w.(cand1 := w.cand1 + 1)
    else if winner == JStr("cand_2") then w.(cand2 := w.cand2 + 1)
    else if winner == JStr("tie") then w.(tie := w.tie + 1)
    else w
  }

  /** The winner loop over a prefix of the comparisons; `None` once a comparison is not a dict. */
  function CountWinners(comps: seq<Json>): (r: Option<Winners>)
    ensures r.Some? <==> forall i :: 0 <= i < |comps| ==> comps[i].JObj?
  {
    if comps == [] then Some(Winners(0, 0, 0))
    else
      var front := comps[..|comps| - 1];
      assert forall i :: 0 <= i < |front| ==> front[i] == comps[i];
      match CountWinners(front)
      case None => None
      case Some(w) =>
        match WinnerOf(comps[|comps| - 1])
        case None => None
        case Some(x) => Some(Bump(w, x))
  }

  /** How many comparisons name `name` as their winner: a reference count, one name at a time. */
  function Wins(comps: seq<Json>, name: String): nat {
    if comps == [] then 0
    else Wins(comps[..|comps| - 1], name) + (if WinnerOf(comps[|comps| - 1]) == Some(JStr(name)) then 1 else 0)
  }

  /**
   * The counters are the per-name counts of the winners "cand_1", "cand_2"
   * and "tie"; any other winner is not counted, so they never add up to more
   * than the number of comparisons.
   */
  lemma {:induction false} CountWinnersSpec(comps: seq<Json>)
    requires CountWinners(comps).Some?
    ensures CountWinners(comps).value == Winners(Wins(comps, "cand_1"), Wins(comps, "cand_2"), Wins(comps, "tie"))
    ensures CountWinners(comps).value.cand1 + CountWinners(comps).value.cand2 + CountWinners(comps).value.tie <= |comps|
  {
    if comps != [] {
      var front := comps[..|comps| - 1];
      CountWinnersSpec(front);
    }
  }

  /** A comparison whose winner is none of the three names leaves the counters as they were. */
  lemma OtherWinnerIgnored(comps: seq<Json>, comp: Json)
    requires CountWinners(comps).Some? && comp.JObj?
    requires WinnerOf(comp) !in {Some(JStr("cand_1")), Some(JStr("cand_2")), Some(JStr("tie"))}
    ensures CountWinners(comps + [comp]) == CountWinners(comps)
  {
    assert (comps + [comp])[..|comps|] == comps;
  }

  /** The winner loop. */
  method TallyWinners(comps: seq<Json>) returns (r: Option<Winners>)
    ensures r == CountWinners(comps)
  {
    var w := Winners(0, 0, 0);
    for i := 0 to |comps|
      invariant CountWinners(comps[..i]) == Some(w)
    {
      assert comps[..i + 1][..i] == comps[..i];
      var winner := WinnerOf(comps[i]);
      if winner.None? {
        assert CountWinners(comps[..i + 1]).None?;
        NoneExtends(comps, i + 1);
        return None;
      }
      if winner.value == JStr("cand_1") {
        w := w.(cand1 := w.cand1 + 1);
      } else if winner.value == JStr("cand_2") {
        w := w.(cand2 := w.cand2 + 1);
      } else if winner.value == JStr("tie") {
        w := w.(tie := w.tie + 1);
      }
    }
    assert comps[..|comps|] == comps;
    r := Some(w);
  }

  /** A comparison that is not a dict stops the loop for good. */
  lemma NoneExtends(comps: seq<Json>, n: nat)
    requires n <= |comps| && CountWinners(comps[..n]).None?
    ensures CountWinners(comps).None?
  {
    var i :| 0 <= i < n && !comps[..n][i].JObj?;
    assert comps[i] == comps[..n][i];
  }

  /** How far check_quality gets before its winner loop. */
  datatype Stage =
    | Falsy                                   // a falsy reply, decoded value or result
    | Raised                                  // an exception before the loop
    | Ready(principles: nat, comps: seq<Json>)

  /** `result.get('principle')`, `len` of it, and the comparisons under `analysis`. */
  function ScoreInputs(result: Json): (r: Stage)
    ensures r.Ready? ==> result.JObj?
  {
    match Get(result, "principle", JObj([]))
    case None => Raised
    case Some(principle) =>
      match PyLen(principle)
      case None => Raised
      case Some(n) =>
        match Get(result, "analysis", JObj([]))
        case None => Raised
        case Some(analysis) =>
          match Get(analysis, "principle_comparisons", JArr([]))
          case None => Raised
          case Some(c) =>
            match LoopItems(c)
            case None => Raised
            case Some(items) => Ready(n, items)
  }

  /** Everything check_quality does before counting winners. */
  function Prepare(data: Json, parse: String -> Option<Json>): Stage {
    match Get(data, "response", JStr(""))
    case None => Raised
    case Some(response) =>
      if !Truthy(response) then Falsy
      else if !response.JStr? then Raised
      else
        var decoded := ExtractResponseJson(response.str, parse);
        if decoded.None? || !Truthy(decoded.value) then Falsy
        else
          match Get(decoded.value, "result", JArr([]))
          case None => Raised
          case Some(results) =>
            if !Truthy(results) then Falsy
            else ScoreInputs(if results.JArr? then results.items[0] else results)
  }

  /**
   * check_quality; `None` when it raises (process_line then counts a parse
   * error). A record is high quality exactly when it has at least one
   * principle and both candidates win at least one comparison.
   */
  function QualityOf(data: Json, parse: String -> Option<Json>): (r: Option<Quality>)
    ensures r.Some? ==> (r.value.isHigh <==> r.value.principles >= 1 && r.value.cand1 > 0 && r.value.cand2 > 0)
    ensures Prepare(data, parse).Falsy? ==> r == Some(NoQuality)
    ensures r.Some? && r.value != NoQuality ==> data.JObj?
  {
    match Prepare(data, parse)
    case Falsy => Some(NoQuality)
    case Raised => None
    case Ready(n, comps) =>
      match CountWinners(comps)
      case None => None
      case Some(w) => Some(Quality(n >= 1 && w.cand1 > 0 && w.cand2 > 0, n, w.cand1, w.cand2, w.tie))
  }

  /** A reply that does not decode, or decodes to a result list that is empty, scores nothing. */
  lemma NoQualityCases(data: Json, parse: String -> Option<Json>, text: String)
    requires data.JObj? && Lookup(data.members, "response") == Some(JStr(text)) && text != []
    ensures ExtractResponseJson(text, parse).None? ==> QualityOf(data, parse) == Some(NoQuality)
    ensures ExtractResponseJson(text, parse).Some? && ExtractResponseJson(text, parse).value.JObj? &&
      Lookup(ExtractResponseJson(text, parse).value.members, "result") == Some(JArr([]))
      ==> QualityOf(data, parse) == Some(NoQuality)
  {
  }

  /** check_quality, with its winner loop. */
  method CheckQuality(data: Json, parse: String -> Option<Json>) returns (r: Option<Quality>)
    ensures r == QualityOf(data, parse)
  {
    match Prepare(data, parse)
    case Falsy => r := Some(NoQuality);
    case Raised => r := None;
    case Ready(n, comps) =>
      var w := TallyWinners(comps);
      if w.None? {
        r := None;
      } else {
        var isHigh := n >= 1 && w.value.cand1 > 0 && w.value.cand2 > 0;
        r := Some(Quality(isHigh, n, w.value.cand1, w.value.cand2, w.value.tie));
      }
  }

  // ------------------------------------------------ patterns and buckets

  /** The winner pattern counted in the statistics. */
  datatype Pattern = BothSides | Cand1Only | Cand2Only | TieOnly | NoWinner

  /** The pattern of a record's winner counters: each record has exactly one. */
  function PatternOf(q: Quality): (p: Pattern)
    ensures p == BothSides <==> q.cand1 > 0 && q.cand2 > 0
    ensures p == Cand1Only <==> q.cand1 > 0 && q.cand2 == 0
    ensures p == Cand2Only <==> q.cand1 == 0 && q.cand2 > 0
    ensures p == TieOnly <==> q.cand1 == 0 && q.cand2 == 0 && q.tie > 0
    ensures p == NoWinner <==> q.cand1 == 0 && q.cand2 == 0 && q.tie == 0
  {
    if q.cand1 > 0 && q.cand2 > 0 then BothSides
    else if q.cand1 > 0 && q.cand2 == 0 then Cand1Only
    else if q.cand2 > 0 && q.cand1 == 0 then Cand2Only
    else if q.tie > 0 && q.cand1 == 0 && q.cand2 == 0 then TieOnly
    else NoWinner
  }

  /** The list a scored record is appended to: one per pattern, or the low-quality list. */
  datatype Bucket = Kept(pattern: Pattern) | LowQuality

  /**
   * The bucket of a scored record: with at least three principles its
   * pattern's list, otherwise low quality. The final low-quality branch of
   * the classification can never be taken.
   */
  function BucketOf(q: Quality): (b: Bucket)
    ensures b == LowQuality <==> q.principles < 3
    ensures b.Kept? ==> b.pattern == PatternOf(q)
  {
    if q.principles >= 3 then
      if q.cand1 > 0 && q.cand2 > 0 then Kept(BothSides)
      else if q.cand1 > 0 && q.cand2 == 0 then Kept(Cand1Only)
      else if q.cand2 > 0 && q.cand1 == 0 then Kept(Cand2Only)
      else if q.tie > 0 && q.cand1 == 0 && q.cand2 == 0 then Kept(TieOnly)
      else if q.cand1 == 0 && q.cand2 == 0 && q.tie == 0 then Kept(NoWinner)
      else LowQuality
    else LowQuality
  }

  // ---------------------------------------------------- collecting lines

  /** What process_line hands back for one line. */
  datatype LineResult =
    | Skipped                          // a blank line
    | Errored                          // the line or its scoring raised
    | Scored(data: Json, q: Quality)

  /** process_line: a blank line is skipped; a line that does not decode or whose scoring raises is an error. */
  function ProcessLine(line: String, parse: String -> Option<Json>): (r: LineResult)
    ensures r == Skipped <==> IsBlank(line)
    ensures r.Scored? ==> parse(line) == Some(r.data) && QualityOf(r.data, parse) == Some(r.q)
  {
    if IsBlank(line) then Skipped
    else
      match parse(line)
      case None => Errored
      case Some(data) =>
        match QualityOf(data, parse)
        case None => Errored
        case Some(q) => Scored(data, q)
  }

  /** The statistics kept while collecting. */
  datatype Stats = Stats(total: nat, parseError: nat, principles: map<nat, nat>, patterns: map<Pattern, nat>)

  const NoStats := Stats(0, 0, map[], map[BothSides := 0, Cand1Only := 0, Cand2Only := 0, TieOnly := 0, NoWinner := 0])

  /** `counts.get(key, 0)`. */
  function CountOf<K>(counts: map<K, nat>, key: K): nat {
    if key in counts then counts[key] else 0
  }

  /** Counting one processed line. */
  function Record(st: Stats, r: LineResult): Stats {
    match r
    case Skipped => st
    case Errored => st.(parseError := st.parseError + 1)
    case Scored(_, q) =>
      var p := PatternOf(q);
      Stats(st.total + 1, st.parseError,
            st.principles[q.principles := CountOf(st.principles, q.principles) + 1],
            st.patterns[p := CountOf(st.patterns, p) + 1])
  }

  /** The statistics after the lines `rs`, in order. */
  function StatsOf(rs: seq<LineResult>): Stats {
    if rs == [] then NoStats else Record(StatsOf(rs[..|rs| - 1]), rs[|rs| - 1])
  }

  /** The six lists the scored records are appended to. */
  datatype Lists = Lists(bothSides: seq<Json>, cand1Only: seq<Json>, cand2Only: seq<Json>,
                         tieOnly: seq<Json>, noWinner: seq<Json>, lowQuality: seq<Json>)

  /** Appending a record to the list of bucket `b`. */
  function Append(lists: Lists, b: Bucket, data: Json): Lists {
    match b
    case Kept(BothSides) => lists.(bothSides := lists.bothSides + [data])
    case Kept(Cand1Only) => lists.(cand1Only := lists.cand1Only + [data])
    case Kept(Cand2Only) => lists.(cand2Only := lists.cand2Only + [data])
    case Kept(TieOnly) => lists.(tieOnly := lists.tieOnly + [data])
    case Kept(NoWinner) => lists.(noWinner := lists.noWinner + [data])
    case LowQuality => lists.(lowQuality := lists.lowQuality + [data])
  }

  /** The lists after the lines `rs`, in order. */
  function ListsOf(rs: seq<LineResult>): Lists {
    if rs == [] then Lists([], [], [], [], [], [])
    else
      var last := rs[|rs| - 1];
      if last.Scored? then Append(ListsOf(rs[..|rs| - 1]), BucketOf(last.q), last.data)
      else ListsOf(rs[..|rs| - 1])
  }

  /** The list of bucket `b`. */
  function ListOf(lists: Lists, b: Bucket): seq<Json> {
    match b
    case Kept(BothSides) => lists.bothSides
    case Kept(Cand1Only) => lists.cand1Only
    case Kept(Cand2Only) => lists.cand2Only
    case Kept(TieOnly) => lists.tieOnly
    case Kept(NoWinner) => lists.noWinner
    case LowQuality => lists.lowQuality
  }

  /** How many of the lines were scored. */
  function ScoredCount(rs: seq<LineResult>): nat {
    if rs == [] then 0 else ScoredCount(rs[..|rs| - 1]) + (if rs[|rs| - 1].Scored? then 1 else 0)
  }

  /** How many of the lines raised. */
  function ErrorCount(rs: seq<LineResult>): nat {
    if rs == [] then 0 else ErrorCount(rs[..|rs| - 1]) + (if rs[|rs| - 1].Errored? then 1 else 0)
  }

  /** The sum of the five pattern counters. */
  function PatternTotal(patterns: map<Pattern, nat>): nat {
    CountOf(patterns, BothSides) + CountOf(patterns, Cand1Only) + CountOf(patterns, Cand2Only)
    + CountOf(patterns, TieOnly) + CountOf(patterns, NoWinner)
  }

  /** The sizes of the six lists. */
  function ListsSize(l: Lists): nat {
    |l.bothSides| + |l.cand1Only| + |l.cand2Only| + |l.tieOnly| + |l.noWinner| + |l.lowQuality|
  }

  /** `total` counts the scored lines and `parse_error` the lines that raised. */
  lemma {:induction false} CountersAddUp(rs: seq<LineResult>)
    ensures StatsOf(rs).total == ScoredCount(rs)
    ensures StatsOf(rs).parseError == ErrorCount(rs)
  {
    if rs != [] {
      CountersAddUp(rs[..|rs| - 1]);
    }
  }

  /** Every scored line is counted under exactly one winner pattern. */
  lemma {:induction false} PatternsAddUp(rs: seq<LineResult>)
    ensures PatternTotal(StatsOf(rs).patterns) == ScoredCount(rs)
  {
    if rs != [] {
      PatternsAddUp(rs[..|rs| - 1]);
      RecordPattern(StatsOf(rs[..|rs| - 1]), rs[|rs| - 1]);
    }
  }

  /** Counting one line adds one to exactly one pattern counter when the line was scored. */
  lemma RecordPattern(st: Stats, r: LineResult)
    ensures PatternTotal(Record(st, r).patterns) == PatternTotal(st.patterns) + (if r.Scored? then 1 else 0)
  {
    if r.Scored? {
      var p := PatternOf(r.q);
      var m := st.patterns[p := CountOf(st.patterns, p) + 1];
      assert forall x :: x != p ==> CountOf(m, x) == CountOf(st.patterns, x);
      assert CountOf(m, p) == CountOf(st.patterns, p) + 1;
    }
  }

  /** Every scored line lands in exactly one of the six lists. */
  lemma {:induction false} BucketsAddUp(rs: seq<LineResult>)
    ensures ListsSize(ListsOf(rs)) == ScoredCount(rs)
  {
    if rs != [] {
      BucketsAddUp(rs[..|rs| - 1]);
    }
  }

  /** The principle distribution has a key exactly for each principle count that was scored. */
  lemma {:induction false} PrincipleKeys(rs: seq<LineResult>, n: nat)
    ensures n in StatsOf(rs).principles <==> exists i :: 0 <= i < |rs| && rs[i].Scored? && rs[i].q.principles == n
  {
    if rs != [] {
      var front := rs[..|rs| - 1];
      PrincipleKeys(front, n);
      assert forall i :: 0 <= i < |front| ==> front[i] == rs[i];
      if n in StatsOf(front).principles {
        var i :| 0 <= i < |front| && front[i].Scored? && front[i].q.principles == n;
        assert rs[i] == front[i];
      }
    }
  }

  /**
   * A record is in the list of bucket `b` exactly when some scored line
   * carries it and falls into `b`.
   */
  lemma {:induction false} ListsMembers(rs: seq<LineResult>, b: Bucket, d: Json)
    ensures d in ListOf(ListsOf(rs), b) <==> exists i :: 0 <= i < |rs| && rs[i].Scored? && rs[i].data == d && BucketOf(rs[i].q) == b
  {
    if rs != [] {
      var front := rs[..|rs| - 1];
      ListsMembers(front, b, d);
      assert forall i :: 0 <= i < |front| ==> front[i] == rs[i];
      if d in ListOf(ListsOf(front), b) {
        var i :| 0 <= i < |front| && front[i].Scored? && front[i].data == d && BucketOf(front[i].q) == b;
        assert rs[i] == front[i];
      }
    }
  }

  /** The collecting loop over the processed lines. */
  method Collect(results: seq<LineResult>) returns (stats: Stats, lists: Lists)
    ensures stats == StatsOf(results) && lists == ListsOf(results)
  {
    stats := NoStats;
    lists := Lists([], [], [], [], [], []);
    for i := 0 to |results|
      invariant stats == StatsOf(results[..i]) && lists == ListsOf(results[..i])
    {
      assert results[..i + 1][..i] == results[..i];
      match results[i]
      case Skipped =>
      case Errored =>
        stats := stats.(parseError := stats.parseError + 1);
      case Scored(data, q) =>
        stats := stats.(total := stats.total + 1);
        stats := stats.(principles := stats.principles[q.principles := CountOf(stats.principles, q.principles) + 1]);
        var p: Pattern;
        if q.cand1 > 0 && q.cand2 > 0 {
          p := BothSides;
        } else if q.cand1 > 0 && q.cand2 == 0 {
          p := Cand1Only;
        } else if q.cand2 > 0 && q.cand1 == 0 {
          p := Cand2Only;
        } else if q.tie > 0 && q.cand1 == 0 && q.cand2 == 0 {
          p := TieOnly;
        } else {
          p := NoWinner;
        }
        stats := stats.(patterns := stats.patterns[p := CountOf(stats.patterns, p) + 1]);
        if q.principles >= 3 {
          if q.cand1 > 0 && q.cand2 > 0 {
            lists := lists.(bothSides := lists.bothSides + [data]);
          } else if q.cand1 > 0 && q.cand2 == 0 {
            lists := lists.(cand1Only := lists.cand1Only + [data]);
          } else if q.cand2 > 0 && q.cand1 == 0 {
            lists := lists.(cand2Only := lists.cand2Only + [data]);
          } else if q.tie > 0 && q.cand1 == 0 && q.cand2 == 0 {
            lists := lists.(tieOnly := lists.tieOnly + [data]);
          } else if q.cand1 == 0 && q.cand2 == 0 && q.tie == 0 {
            lists := lists.(noWinner := lists.noWinner + [data]);
          } else {
            lists := lists.(lowQuality := lists.lowQuality + [data]);
          }
        } else {
          lists := lists.(lowQuality := lists.lowQuality + [data]);
        }
    }
    assert results[..|results|] == results;
  }

  // ------------------------------------------------------- the splits

  /** A record value occurs at most once. */
  ghost predicate Distinct(xs: seq<Json>) {
    forall x :: multiset(xs)[x] <= 1
  }

  /** `random.sample(data, k)`: `k` of the records, none taken more often than it occurs. */
  predicate IsSample(s: seq<Json>, data: seq<Json>, k: nat) {
    |s| == k && multiset(s) <= multiset(data)
  }

  /** `[d for d in data if d not in chosen]`: records are compared by value. */
  function Unchosen(data: seq<Json>, chosen: seq<Json>): (r: seq<Json>)
    ensures forall d :: d in r <==> d in data && d !in chosen
    ensures multiset(r) <= multiset(data)
  {
    ExceptSub(data, set d | d in chosen);
    Except(data, set d | d in chosen)
  }

  /** What `Except` keeps is part of what it was given. */
  lemma {:induction false} ExceptSub(xs: seq<Json>, ex: set<Json>)
    ensures multiset(Except(xs, ex)) <= multiset(xs)
  {
    if xs != [] {
      ExceptSub(xs[1..], ex);
      assert xs == [xs[0]] + xs[1..];
    }
  }

  /** `random.sample`; the generator is not modelled, so any sample may come out. */
  method Sample(data: seq<Json>, k: nat) returns (s: seq<Json>)
    requires k <= |data|
    ensures IsSample(s, data, k)
  {
    assert data == data[..k] + data[k..];
    assert IsSample(data[..k], data, k);
    s :| IsSample(s, data, k);
  }

  /**
   * Sampling from distinct records and keeping the unchosen ones splits
   * them: every record ends up on exactly one side.
   */
  lemma SampleSplits(data: seq<Json>, chosen: seq<Json>)
    requires Distinct(data) && multiset(chosen) <= multiset(data)
    ensures multiset(chosen) + multiset(Unchosen(data, chosen)) == multiset(data)
    ensures |chosen| + |Unchosen(data, chosen)| == |data|
  {
    var rest := Unchosen(data, chosen);
    forall x
      ensures multiset(chosen)[x] + multiset(rest)[x] == multiset(data)[x]
    {
      if x in chosen {
        assert x !in rest;
      } else {
        assert x in rest <==> x in data;
      }
    }
    assert multiset(chosen) + multiset(rest) == multiset(data);
    assert |multiset(chosen) + multiset(rest)| == |multiset(data)|;
  }

  /** Part of a collection of distinct records is distinct. */
  lemma DistinctPart(xs: seq<Json>, ys: seq<Json>)
    requires Distinct(ys) && multiset(xs) <= multiset(ys)
    ensures Distinct(xs)
  {
    forall x
      ensures multiset(xs)[x] <= 1
    {
      assert multiset(xs)[x] <= multiset(ys)[x];
    }
  }

  /**
   * A pattern bucket cut at its limit: a bucket at or over the limit gives
   * exactly `limit` sampled records to SFT and the unchosen ones to RL; a
   * smaller bucket goes to SFT whole.
   */
  method LimitSplit(data: seq<Json>, limit: nat) returns (sft: seq<Json>, rl: seq<Json>)
    ensures |data| >= limit ==> IsSample(sft, data, limit) && rl == Unchosen(data, sft)
    ensures |data| < limit ==> sft == data && rl == []
    ensures Distinct(data) ==> multiset(sft) + multiset(rl) == multiset(data)
  {
    if |data| >= limit {
      sft := Sample(data, limit);
      rl := Unchosen(data, sft);
      if Distinct(data) {
        SampleSplits(data, sft);
      }
    } else {
      sft := data;
      rl := [];
    }
  }

  /**
   * The tie-only bucket: a few records for the test set first, then some
   * for RL, the rest for SFT; when there are too few, the test set is
   * served first and nothing goes to RL.
   */
  method TieSplit(tie: seq<Json>, forTest: nat, forRl: nat) returns (test: seq<Json>, rl: seq<Json>, sft: seq<Json>)
    ensures |tie| >= forTest ==> |test| == forTest
    ensures |tie| < forTest ==> test == tie && rl == [] && sft == []
    ensures |tie| >= forTest + forRl ==> |rl| <= forRl
    ensures |tie| < forTest + forRl ==> rl == []
    ensures |tie| >= forTest ==> IsSample(test, tie, forTest)
    ensures |tie| >= forTest + forRl && |Unchosen(tie, test)| >= forRl ==>
      IsSample(rl, Unchosen(tie, test), forRl) && sft == Unchosen(Unchosen(tie, test), rl)
    ensures |tie| >= forTest + forRl && |Unchosen(tie, test)| < forRl ==> rl == Unchosen(tie, test) && sft == []
    ensures forTest <= |tie| < forTest + forRl ==> sft == Unchosen(tie, test)
    ensures Distinct(tie) ==> multiset(test) + multiset(rl) + multiset(sft) == multiset(tie)
  {
    if |tie| >= forTest + forRl {
      test := Sample(tie, forTest);
      var remaining := Unchosen(tie, test);
      if |remaining| >= forRl {
        rl := Sample(remaining, forRl);
        sft := Unchosen(remaining, rl);
      } else {
        rl := remaining;
        sft := [];
      }
      if Distinct(tie) {
        SampleSplits(tie, test);
        DistinctPart(remaining, tie);
        if |remaining| >= forRl {
          SampleSplits(remaining, rl);
        }
        SplitTwice(tie, test, remaining, rl, sft);
      }
    } else if |tie| >= forTest {
      test := Sample(tie, forTest);
      sft := Unchosen(tie, test);
      rl := [];
      if Distinct(tie) {
        SampleSplits(tie, test);
      }
    } else {
      test := tie;
      sft := [];
      rl := [];
    }
  }

  /** A part of a split that is split again: the three pieces make up the whole. */
  lemma SplitTwice(all: seq<Json>, a: seq<Json>, rest: seq<Json>, b: seq<Json>, c: seq<Json>)
    requires multiset(a) + multiset(rest) == multiset(all)
    requires multiset(b) + multiset(c) == multiset(rest)
    ensures multiset(a) + multiset(b) + multiset(c) == multiset(all)
  {
  }

  /** The number of test records drawn from the RL candidates. */
  const TestFromRl: nat := 195

  /**
   * The test set: `TestFromRl` records drawn from the RL candidates plus the
   * tie-only test records, the unchosen candidates staying for RL; with too
   * few candidates all of them go to the test set and none to RL.
   */
  method TestSplit(candidates: seq<Json>, tieTest: seq<Json>) returns (rl: seq<Json>, test: seq<Json>)
    ensures |candidates| >= TestFromRl ==> |test| == TestFromRl + |tieTest|
    ensures |candidates| >= TestFromRl ==> test[TestFromRl..] == tieTest && rl == Unchosen(candidates, test[..TestFromRl])
    ensures |candidates| < TestFromRl ==> test == candidates + tieTest && rl == []
    ensures Distinct(candidates) ==> multiset(rl) + multiset(test) == multiset(candidates) + multiset(tieTest)
  {
    if |candidates| >= TestFromRl {
      var fromRl := Sample(candidates, TestFromRl);
      rl := Unchosen(candidates, fromRl);
      test := fromRl + tieTest;
      assert test[..TestFromRl] == fromRl && test[TestFromRl..] == tieTest;
      if Distinct(candidates) {
        SampleSplits(candidates, fromRl);
      }
    } else {
      test := candidates + tieTest;
      rl := [];
    }
  }

  /** The limits of the pattern buckets and of the tie-only parts. */
  datatype Limits = Limits(cand1Only: nat, cand2Only: nat, bothSides: nat, tieForRl: nat, tieForTest: nat)

  const DefaultLimits := Limits(10000, 10000, 20000, 50, 5)

  /** The five kept lists, in the order they are written to the SFT file. */
  function KeptRecords(lists: Lists): seq<Json> {
    lists.bothSides + lists.cand1Only + lists.cand2Only + lists.tieOnly + lists.noWinner
  }

  /**
   * Step 2 of building the datasets: each bucket is cut at its limit. The
   * SFT part opens with the both-sides share and closes with every
   * no-winner record; the RL candidates and the tie-only test records are
   * what the test split works on.
   */
  method SplitBuckets(lists: Lists, limits: Limits) returns (sft: seq<Json>, candidates: seq<Json>, tieTest: seq<Json>)
    ensures Distinct(KeptRecords(lists)) ==>
      multiset(sft) + multiset(candidates) + multiset(tieTest) == multiset(KeptRecords(lists))
    ensures |lists.noWinner| <= |sft| && sft[|sft| - |lists.noWinner|..] == lists.noWinner
    ensures |lists.bothSides| < limits.bothSides ==> |lists.bothSides| <= |sft| && sft[..|lists.bothSides|] == lists.bothSides
    ensures |lists.tieOnly| >= limits.tieForTest ==> IsSample(tieTest, lists.tieOnly, limits.tieForTest)
    ensures |lists.tieOnly| < limits.tieForTest ==> tieTest == lists.tieOnly
    ensures Distinct(lists.bothSides) && |lists.bothSides| >= limits.bothSides + TestFromRl ==> |candidates| >= TestFromRl
  {
    var bothSft, bothRl := LimitSplit(lists.bothSides, limits.bothSides);
    var cand1Sft, cand1Rl := LimitSplit(lists.cand1Only, limits.cand1Only);
    var cand2Sft, cand2Rl := LimitSplit(lists.cand2Only, limits.cand2Only);
    var tieRl, tieSft;
    tieTest, tieRl, tieSft := TieSplit(lists.tieOnly, limits.tieForTest, limits.tieForRl);
    candidates := bothRl + cand1Rl + cand2Rl + tieRl;
    sft := bothSft + cand1Sft + cand2Sft + tieSft + lists.noWinner;
    SftLayout(bothSft, cand1Sft, cand2Sft, tieSft, lists.noWinner);
    if Distinct(lists.bothSides) && |lists.bothSides| >= limits.bothSides {
      SampleSplits(lists.bothSides, bothSft);
    }
    if Distinct(KeptRecords(lists)) {
      KeptDistinct(lists);
      Recombine(lists, bothSft, bothRl, cand1Sft, cand1Rl, cand2Sft, cand2Rl, tieTest, tieRl, tieSft);
    }
  }

  /**
   * The three datasets built from the collected lists. Low-quality records
   * go to none of them; when the kept records are distinct, each of them
   * goes to exactly one dataset. The no-winner records close the SFT set, a
   * both-sides bucket under its limit opens it whole; the test set holds at
   * most `TestFromRl` RL candidates followed by the tie-only test records.
   */
  method BuildDatasets(lists: Lists, limits: Limits) returns (sft: seq<Json>, rl: seq<Json>, test: seq<Json>)
    ensures Distinct(KeptRecords(lists)) ==> multiset(sft) + multiset(rl) + multiset(test) == multiset(KeptRecords(lists))
    ensures |lists.noWinner| <= |sft| && sft[|sft| - |lists.noWinner|..] == lists.noWinner
    ensures |lists.bothSides| < limits.bothSides ==> |lists.bothSides| <= |sft| && sft[..|lists.bothSides|] == lists.bothSides
    ensures |test| <= TestFromRl + limits.tieForTest
    ensures |lists.tieOnly| >= limits.tieForTest ==>
      limits.tieForTest <= |test| && IsSample(test[|test| - limits.tieForTest..], lists.tieOnly, limits.tieForTest)
    ensures |lists.tieOnly| < limits.tieForTest ==>
      |lists.tieOnly| <= |test| && test[|test| - |lists.tieOnly|..] == lists.tieOnly
    ensures (|lists.tieOnly| >= limits.tieForTest && Distinct(lists.bothSides) &&
             |lists.bothSides| >= limits.bothSides + TestFromRl) ==> |test| == TestFromRl + limits.tieForTest
  {
    var candidates, tieTest;
    sft, candidates, tieTest := SplitBuckets(lists, limits);
    rl, test := TestSplit(candidates, tieTest);
    TestEndsWith(candidates, tieTest, test);
    if Distinct(KeptRecords(lists)) {
      assert multiset(candidates) <= multiset(KeptRecords(lists));
      DistinctPart(candidates, KeptRecords(lists));
      Regroup(multiset(sft), multiset(candidates), multiset(tieTest), multiset(rl), multiset(test));
    }
  }

  /** The SFT set opens with its first part and closes with its last. */
  lemma SftLayout(first: seq<Json>, b: seq<Json>, c: seq<Json>, d: seq<Json>, last: seq<Json>)
    ensures var s := first + b + c + d + last;
      |first| <= |s| && s[..|first|] == first && |last| <= |s| && s[|s| - |last|..] == last
  {
    var s := first + b + c + d + last;
    assert s == first + (b + c + d + last);
  }

  /** The test set ends with the tie-only test records, after at most `TestFromRl` candidates. */
  lemma TestEndsWith(candidates: seq<Json>, tieTest: seq<Json>, test: seq<Json>)
    requires |candidates| >= TestFromRl ==> |test| == TestFromRl + |tieTest| && test[TestFromRl..] == tieTest
    requires |candidates| < TestFromRl ==> test == candidates + tieTest
    ensures |tieTest| <= |test| <= TestFromRl + |tieTest| && test[|test| - |tieTest|..] == tieTest
  {
    if |candidates| < TestFromRl {
      assert test[|candidates|..] == tieTest;
    }
  }

  /** Multiset arithmetic for the last step: the test split only moves records between RL and test. */
  lemma Regroup(sft: multiset<Json>, candidates: multiset<Json>, tieTest: multiset<Json>, rl: multiset<Json>, test: multiset<Json>)
    requires rl + test == candidates + tieTest
    ensures sft + rl + test == sft + candidates + tieTest
  {
    forall x
      ensures (sft + rl + test)[x] == (sft + candidates + tieTest)[x]
    {
      assert (rl + test)[x] == (candidates + tieTest)[x];
    }
  }

  /** The pieces the kept lists are split into make up the kept records and the RL candidates. */
  lemma Recombine(lists: Lists, bothSft: seq<Json>, bothRl: seq<Json>, cand1Sft: seq<Json>, cand1Rl: seq<Json>,
                  cand2Sft: seq<Json>, cand2Rl: seq<Json>, tieTest: seq<Json>, tieRl: seq<Json>, tieSft: seq<Json>)
    requires multiset(bothSft) + multiset(bothRl) == multiset(lists.bothSides)
    requires multiset(cand1Sft) + multiset(cand1Rl) == multiset(lists.cand1Only)
    requires multiset(cand2Sft) + multiset(cand2Rl) == multiset(lists.cand2Only)
    requires multiset(tieTest) + multiset(tieRl) + multiset(tieSft) == multiset(lists.tieOnly)
    ensures multiset(bothRl + cand1Rl + cand2Rl + tieRl) <= multiset(KeptRecords(lists))
    ensures multiset(bothSft + cand1Sft + cand2Sft + tieSft + lists.noWinner)
      + multiset(bothRl + cand1Rl + cand2Rl + tieRl) + multiset(tieTest) == multiset(KeptRecords(lists))
  {
  }

  /** Each kept list of distinct kept records is distinct. */
  lemma KeptDistinct(lists: Lists)
    requires Distinct(KeptRecords(lists))
    ensures Distinct(lists.bothSides) && Distinct(lists.cand1Only) && Distinct(lists.cand2Only)
    ensures Distinct(lists.tieOnly) && Distinct(lists.noWinner)
  {
    var k := KeptRecords(lists);
    assert multiset(k) == multiset(lists.bothSides) + multiset(lists.cand1Only) + multiset(lists.cand2Only)
      + multiset(lists.tieOnly) + multiset(lists.noWinner);
    DistinctPart(lists.bothSides, k);
    DistinctPart(lists.cand1Only, k);
    DistinctPart(lists.cand2Only, k);
    DistinctPart(lists.tieOnly, k);
    DistinctPart(lists.noWinner, k);
  }
}
