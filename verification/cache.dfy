// The multi-turn benchmark base: the cache manager's two indexes (sample id
// to cache file name, in insertion order) over the cache directories, the
// incremental inference and evaluation passes that consult them, and the
// score summary.

module BenchmarkBase {
  import opened Basics
  import opened Text

  datatype InferenceResult = InferenceResult(
    sampleId: String, modelName: String, dialogue: seq<Json>, status: String, error: Option<String>)

  datatype EvaluationResult = EvaluationResult(
    sampleId: String, inference: InferenceResult, scores: map<String, real>)

  /** What running one sample gives: a result, or the text of the exception it raised. */
  datatype Outcome = Completed(result: InferenceResult) | Raised(message: String)

  /** A Python dict's keys in insertion order: every key exactly once. */
  ghost predicate KeyOrder<V>(order: seq<String>, index: map<String, V>) {
    (forall i, j :: 0 <= i < j < |order| ==> order[i] != order[j]) &&
    (forall k :: k in index <==> k in order)
  }

  function CacheFileName(sampleId: String): (name: String)
    ensures EndsWith(name, ".json") && StartsWith(name, sampleId)
  {
    sampleId + ".json"
  }

  lemma CacheFileNameInjective(a: String, b: String)
    requires CacheFileName(a) == CacheFileName(b)
    ensures a == b
  {
    assert a == CacheFileName(a)[..|a|];
  }

  lemma {:induction false} DistinctCard<T>(xs: seq<T>)
    requires forall i, j :: 0 <= i < j < |xs| ==> xs[i] != xs[j]
    ensures |set x | x in xs| == |xs|
    decreases |xs|
  {
    if xs != [] {
      var init := xs[..|xs| - 1];
      DistinctCard(init);
      assert (set x | x in xs) == (set x | x in init) + {xs[|xs| - 1]};
      assert xs[|xs| - 1] !in (set x | x in init);
    }
  }

  datatype CacheStats = CacheStats(totalInference: nat, totalEval: nat, pendingEval: nat)

  /** The evaluation half of a cache: its index (in insertion order) and its directory. */
  datatype EvalStore = EvalStore(index: map<String, String>, order: seq<String>,
                                 files: map<String, Option<EvaluationResult>>)

  /** get_eval_cache: none when the id is not indexed, its file is missing, or it does not load. */
  function StoreLookup(s: EvalStore, sampleId: String): (r: Option<EvaluationResult>)
    ensures r.Some? <==> (sampleId in s.index && s.index[sampleId] in s.files &&
                          s.files[s.index[sampleId]].Some?)
    ensures r.Some? ==> s.files[s.index[sampleId]] == r
  {
    if sampleId !in s.index then None
    else if s.index[sampleId] !in s.files then None
    else s.files[s.index[sampleId]]
  }

  /** save_eval_cache: writes `{id}.json` and indexes it. */
  function StoreSave(s: EvalStore, e: EvaluationResult): (r: EvalStore)
    ensures KeyOrder(s.order, s.index) ==> KeyOrder(r.order, r.index)
    ensures r.index.Keys == s.index.Keys + {e.sampleId}
    ensures StoreLookup(r, e.sampleId) == Some(e)
    ensures forall k :: k in s.index && k != e.sampleId ==> r.index[k] == s.index[k]
  {
    EvalStore(s.index[e.sampleId := CacheFileName(e.sampleId)],
              if e.sampleId in s.index then s.order else s.order + [e.sampleId],
              s.files[CacheFileName(e.sampleId) := Some(e)])
  }


  /** The cache of one benchmark and model. The directories are maps from file name
    * to decoded content, `None` marking a file that does not load. */
  class CacheManager {
    var inferenceIndex: map<String, String>
    var inferenceOrder: seq<String>
    var evalIndex: map<String, String>
    var evalOrder: seq<String>
    var inferenceFiles: map<String, Option<InferenceResult>>
    var evalFiles: map<String, Option<EvaluationResult>>

    ghost predicate Valid()
      reads this
    {
      KeyOrder(inferenceOrder, inferenceIndex) && KeyOrder(evalOrder, evalIndex)
    }

    /** The indexes as loaded from disk (an unreadable index file loads as empty). */
    constructor (inferenceIndex: map<String, String>, inferenceOrder: seq<String>,
                 evalIndex: map<String, String>, evalOrder: seq<String>,
                 inferenceFiles: map<String, Option<InferenceResult>>,
                 evalFiles: map<String, Option<EvaluationResult>>)
      requires KeyOrder(inferenceOrder, inferenceIndex) && KeyOrder(evalOrder, evalIndex)
      ensures this.inferenceIndex == inferenceIndex && this.inferenceOrder == inferenceOrder
      ensures this.evalIndex == evalIndex && this.evalOrder == evalOrder
      ensures this.inferenceFiles == inferenceFiles && this.evalFiles == evalFiles
      ensures Valid()
    {
      this.inferenceIndex := inferenceIndex;
      this.inferenceOrder := inferenceOrder;
      this.evalIndex := evalIndex;
      this.evalOrder := evalOrder;
      this.inferenceFiles := inferenceFiles;
      this.evalFiles := evalFiles;
    }

    predicate HasInferenceCache(sampleId: String)
      reads this
    {
      sampleId in inferenceIndex
    }

    predicate HasEvalCache(sampleId: String)
      reads this
    {
      sampleId in evalIndex
    }

    /** The cached result: none when the id is not indexed, its file is missing, or it does not load. */
    function GetInferenceCache(sampleId: String): (r: Option<InferenceResult>)
      reads this
      ensures r.Some? <==> (sampleId in inferenceIndex && inferenceIndex[sampleId] in inferenceFiles &&
                            inferenceFiles[inferenceIndex[sampleId]].Some?)
      ensures r.Some? ==> inferenceFiles[inferenceIndex[sampleId]] == r
    {
      if sampleId !in inferenceIndex then None
      else if inferenceIndex[sampleId] !in inferenceFiles then None
      else inferenceFiles[inferenceIndex[sampleId]]
    }

    /** The evaluation half of this cache. */
    function EvalStoreOf(): (s: EvalStore)
      reads this
      ensures s.index == evalIndex && s.order == evalOrder && s.files == evalFiles
    {
      EvalStore(evalIndex, evalOrder, evalFiles)
    }

    function GetEvalCache(sampleId: String): (r: Option<EvaluationResult>)
      reads this
      ensures r.Some? <==> (sampleId in evalIndex && evalIndex[sampleId] in evalFiles &&
                            evalFiles[evalIndex[sampleId]].Some?)
      ensures r.Some? ==> evalFiles[evalIndex[sampleId]] == r
    {
      StoreLookup(EvalStoreOf(), sampleId)
    }

    /** Writes `{id}.json` and indexes it; every other index entry stays as it was,
      * and reading the id back gives the result just saved. */
    method SaveInferenceCache(result: InferenceResult)
      requires Valid()
      modifies this
      ensures Valid()
      ensures inferenceIndex == old(inferenceIndex)[result.sampleId := CacheFileName(result.sampleId)]
      ensures inferenceOrder == if result.sampleId in old(inferenceIndex) then old(inferenceOrder)
                                else old(inferenceOrder) + [result.sampleId]
      ensures inferenceFiles == old(inferenceFiles)[CacheFileName(result.sampleId) := Some(result)]
      ensures evalIndex == old(evalIndex) && evalOrder == old(evalOrder) && evalFiles == old(evalFiles)
      ensures forall k :: k != result.sampleId ==>
        (k in inferenceIndex <==> k in old(inferenceIndex)) &&
        (k in inferenceIndex ==> inferenceIndex[k] == old(inferenceIndex)[k])
      ensures GetInferenceCache(result.sampleId) == Some(result)
    {
      var name := CacheFileName(result.sampleId);
      inferenceFiles := inferenceFiles[name := Some(result)];
      if result.sampleId !in inferenceIndex {
        inferenceOrder := inferenceOrder + [result.sampleId];
      }
      inferenceIndex := inferenceIndex[result.sampleId := name];
    }

    method SaveEvalCache(result: EvaluationResult)
      requires Valid()
      modifies this
      ensures Valid()
      ensures evalIndex == old(evalIndex)[result.sampleId := CacheFileName(result.sampleId)]
      ensures evalOrder == if result.sampleId in old(evalIndex) then old(evalOrder)
                           else old(evalOrder) + [result.sampleId]
      ensures evalFiles == old(evalFiles)[CacheFileName(result.sampleId) := Some(result)]
      ensures inferenceIndex == old(inferenceIndex) && inferenceOrder == old(inferenceOrder)
      ensures inferenceFiles == old(inferenceFiles)
      ensures forall k :: k != result.sampleId ==>
        (k in evalIndex <==> k in old(evalIndex)) &&
        (k in evalIndex ==> evalIndex[k] == old(evalIndex)[k])
      ensures GetEvalCache(result.sampleId) == Some(result)
      ensures EvalStoreOf() == StoreSave(old(EvalStoreOf()), result)
    {
      var name := CacheFileName(result.sampleId);
      evalFiles := evalFiles[name := Some(result)];
      if result.sampleId !in evalIndex {
        evalOrder := evalOrder + [result.sampleId];
      }
      evalIndex := evalIndex[result.sampleId := name];
    }

    /** The results that load, for the given ids in order. */
    function Loaded(ids: seq<String>): (r: seq<InferenceResult>)
      reads this
      ensures |r| <= |ids|
      ensures forall i :: 0 <= i < |ids| && GetInferenceCache(ids[i]).Some? ==>
        GetInferenceCache(ids[i]).value in r
    {
      if ids == [] then []
      else
        var init := Loaded(ids[..|ids| - 1]);
        var last := ids[|ids| - 1];
        assert forall i :: 0 <= i < |ids| - 1 ==> ids[i] == ids[..|ids| - 1][i];
        init + (match GetInferenceCache(last) case Some(x) => [x] case None => [])
    }

    /** get_all_inference_results: every indexed result that loads, in index order. */
    method GetAllInferenceResults() returns (results: seq<InferenceResult>)
      ensures results == Loaded(inferenceOrder)
    {
      results := [];
      var i := 0;
      while i < |inferenceOrder|
        invariant 0 <= i <= |inferenceOrder|
        invariant results == Loaded(inferenceOrder[..i])
      {
        assert inferenceOrder[..i + 1][..i] == inferenceOrder[..i];
        var cached := GetInferenceCache(inferenceOrder[i]);
        if cached.Some? {
          results := results + [cached.value];
        }
        i := i + 1;
      }
      assert inferenceOrder[..i] == inferenceOrder;
    }

    /** get_pending_inference_samples: in input order, exactly the ids not indexed. */
    function PendingInference(allIds: seq<String>): (r: seq<String>)
      reads this
      ensures SubsequenceOf(r, allIds)
      ensures forall id :: id in r <==> id in allIds && !HasInferenceCache(id)
    {
      Except(allIds, inferenceIndex.Keys)
    }

    /** get_pending_eval_samples: the inferred ids, in index order, that have no evaluation. */
    function PendingEval(): (r: seq<String>)
      reads this
      requires Valid()
      ensures SubsequenceOf(r, inferenceOrder) && |r| <= |inferenceIndex|
      ensures forall id :: id in r <==> HasInferenceCache(id) && !HasEvalCache(id)
    {
      DistinctCard(inferenceOrder);
      assert (set x | x in inferenceOrder) == inferenceIndex.Keys;
      Except(inferenceOrder, evalIndex.Keys)
    }

    function GetStats(): (s: CacheStats)
      reads this
      requires Valid()
      ensures s.pendingEval <= s.totalInference
    {
      CacheStats(|inferenceIndex|, |evalIndex|, |PendingEval()|)
    }
  }

  // --------------------------------------------------------- inference pass

  /** The record a processed sample leaves: the run's result under the sample's id and
    * the model's name, or a failed record carrying the exception's text. */
  function FreshResult(sampleId: String, modelName: String, o: Outcome): (r: InferenceResult)
    ensures r.sampleId == sampleId && r.modelName == modelName
    ensures o.Raised? ==> r.status == "failed" && r.dialogue == [] && r.error == Some(o.message)
    ensures o.Completed? ==> (r.dialogue == o.result.dialogue && r.status == o.result.status &&
                              r.error == o.result.error)
  {
    match o
    case Completed(res) => res.(sampleId := sampleId, modelName := modelName)
    case Raised(msg) => InferenceResult(sampleId, modelName, [], "failed", Some(msg))
  }

  /** The records of the first `n` samples that are pending, in sample order. */
  function Processed(ids: seq<String>, pending: seq<String>, modelName: String,
                     run: nat -> Outcome, n: nat): (r: seq<InferenceResult>)
    requires n <= |ids|
    ensures |r| <= n
    ensures forall j :: 0 <= j < |r| ==> r[j].modelName == modelName && r[j].sampleId in pending
  {
    if n == 0 then []
    else
      Processed(ids, pending, modelName, run, n - 1) +
      (if ids[n - 1] in pending then [FreshResult(ids[n - 1], modelName, run(n - 1))] else [])
  }

  /** The cached records of the samples that are not pending, in sample order. */
  function CachedOf(cache: CacheManager, ids: seq<String>, pending: seq<String>): (r: seq<InferenceResult>)
    reads cache
    ensures |r| <= |ids|
  {
    if ids == [] then []
    else
      var last := ids[|ids| - 1];
      CachedOf(cache, ids[..|ids| - 1], pending) +
      (if last !in pending && cache.GetInferenceCache(last).Some? then [cache.GetInferenceCache(last).value]
       else [])
  }

  /** The first pass of run_inference: the cached results of the samples that are not pending. */
  method CollectCached(cache: CacheManager, ids: seq<String>, pending: seq<String>)
    returns (results: seq<InferenceResult>)
    ensures results == CachedOf(cache, ids, pending)
  {
    results := [];
    var i := 0;
    while i < |ids|
      invariant 0 <= i <= |ids|
      invariant results == CachedOf(cache, ids[..i], pending)
    {
      assert ids[..i + 1][..i] == ids[..i];
      if ids[i] !in pending {
        var cached := cache.GetInferenceCache(ids[i]);
        if cached.Some? {
          results := results + [cached.value];
        }
      }
      i := i + 1;
    }
    assert ids[..i] == ids;
  }

  /** The second pass of run_inference: runs every pending sample, saving its record
    * when caching is on. */
  method ProcessPending(cache: CacheManager, ids: seq<String>, pending: seq<String>, modelName: String,
                        enableCache: bool, run: nat -> Outcome)
    returns (records: seq<InferenceResult>)
    requires cache.Valid()
    modifies cache
    ensures cache.Valid()
    ensures records == Processed(ids, pending, modelName, run, |ids|)
    ensures enableCache ==> forall i :: 0 <= i < |ids| && ids[i] in pending ==> cache.HasInferenceCache(ids[i])
    ensures forall k :: k in old(cache.inferenceIndex) ==> cache.HasInferenceCache(k)
    ensures !enableCache ==> cache.inferenceIndex == old(cache.inferenceIndex)
  {
    records := [];
    var i := 0;
    while i < |ids|
      invariant 0 <= i <= |ids|
      invariant cache.Valid()
      invariant records == Processed(ids, pending, modelName, run, i)
      invariant enableCache ==> forall j :: 0 <= j < i && ids[j] in pending ==> cache.HasInferenceCache(ids[j])
      invariant forall k :: k in old(cache.inferenceIndex) ==> cache.HasInferenceCache(k)
      invariant !enableCache ==> cache.inferenceIndex == old(cache.inferenceIndex)
    {
      if ids[i] in pending {
        var record := FreshResult(ids[i], modelName, run(i));
        if enableCache {
          cache.SaveInferenceCache(record);
        }
        records := records + [record];
      }
      i := i + 1;
    }
  }

  /** run_inference: the cached results of the samples already done, then one record per
    * pending sample (all samples when the cache is skipped), each saved when caching is on.
    * `run(i)` is the simulation of sample `i`. */
  method RunInference(cache: CacheManager, ids: seq<String>, modelName: String,
                      skipCache: bool, enableCache: bool, run: nat -> Outcome)
    returns (results: seq<InferenceResult>)
    requires cache.Valid()
    modifies cache
    ensures cache.Valid()
    ensures var pending := if skipCache then ids else old(cache.PendingInference(ids));
      results == old(CachedOf(cache, ids, pending)) + Processed(ids, pending, modelName, run, |ids|)
    ensures var pending := if skipCache then ids else old(cache.PendingInference(ids));
      enableCache ==> forall i :: 0 <= i < |ids| && ids[i] in pending ==> cache.HasInferenceCache(ids[i])
    ensures forall k :: k in old(cache.inferenceIndex) ==> cache.HasInferenceCache(k)
    ensures !enableCache ==> cache.inferenceIndex == old(cache.inferenceIndex)
  {
    var pending := if skipCache then ids else cache.PendingInference(ids);
    var cached := CollectCached(cache, ids, pending);
    var records := ProcessPending(cache, ids, pending, modelName, enableCache, run);
    results := cached + records;
  }

  // -------------------------------------------------------- evaluation pass

  /** The number of records whose status is not "failed". */
  function CountNotFailed(rs: seq<InferenceResult>): (n: nat)
    ensures n <= |rs|
  {
    if rs == [] then 0
    else CountNotFailed(rs[..|rs| - 1]) + (if rs[|rs| - 1].status == "failed" then 0 else 1)
  }

  /** The evaluations of the records that did not fail, the cache not consulted; an
    * evaluation that raises leaves nothing. */
  function Evaluated(rs: seq<InferenceResult>, evaluate: InferenceResult -> Option<EvaluationResult>)
    : (r: seq<EvaluationResult>)
    ensures |r| <= CountNotFailed(rs)
    ensures (forall x :: evaluate(x).Some?) ==> |r| == CountNotFailed(rs)
  {
    if rs == [] then []
    else
      var last := rs[|rs| - 1];
      Evaluated(rs[..|rs| - 1], evaluate) +
      (if last.status != "failed" && evaluate(last).Some? then [evaluate(last).value] else [])
  }

  /** The evaluations a pass has produced so far, and the evaluation store it has left. */
  datatype EvalPass = EvalPass(evals: seq<EvaluationResult>, store: EvalStore)

  /** One record of run_evaluation: a failed record is skipped; unless the cache is skipped,
    * an evaluation that loads from the store is reused; otherwise the record is evaluated,
    * the evaluation saved when caching is on, and an evaluation that raises leaves nothing. */
  function EvalStep(s: EvalStore, r: InferenceResult, skipCache: bool, enableCache: bool,
                    evaluate: InferenceResult -> Option<EvaluationResult>): (p: EvalPass)
    ensures |p.evals| <= 1 && (r.status == "failed" ==> p == EvalPass([], s))
    ensures !skipCache && r.status != "failed" && StoreLookup(s, r.sampleId).Some? ==>
      p == EvalPass([StoreLookup(s, r.sampleId).value], s)
    ensures (skipCache || StoreLookup(s, r.sampleId).None?) && r.status != "failed" ==>
      p.evals == (if evaluate(r).Some? then [evaluate(r).value] else []) &&
      p.store == (if enableCache && evaluate(r).Some? then StoreSave(s, evaluate(r).value) else s)
  {
    if r.status == "failed" then EvalPass([], s)
    else if !skipCache && StoreLookup(s, r.sampleId).Some? then EvalPass([StoreLookup(s, r.sampleId).value], s)
    else
      match evaluate(r)
      case None => EvalPass([], s)
      case Some(e) => EvalPass([e], if enableCache then StoreSave(s, e) else s)
  }

  /** The loop of run_evaluation over `rs`, from the store `s`. */
  function EvalRun(rs: seq<InferenceResult>, s: EvalStore, skipCache: bool, enableCache: bool,
                   evaluate: InferenceResult -> Option<EvaluationResult>): EvalPass
  {
    if rs == [] then EvalPass([], s)
    else
      var before := EvalRun(rs[..|rs| - 1], s, skipCache, enableCache, evaluate);
      var step := EvalStep(before.store, rs[|rs| - 1], skipCache, enableCache, evaluate);
      EvalPass(before.evals + step.evals, step.store)
  }

  /** At most one evaluation per record that did not fail. */
  lemma {:induction false} EvalRunBound(rs: seq<InferenceResult>, s: EvalStore, skipCache: bool,
                                        enableCache: bool, evaluate: InferenceResult -> Option<EvaluationResult>)
    ensures |EvalRun(rs, s, skipCache, enableCache, evaluate).evals| <= CountNotFailed(rs)
    decreases |rs|
  {
    if rs != [] {
      EvalRunBound(rs[..|rs| - 1], s, skipCache, enableCache, evaluate);
    }
  }

  /** With the cache skipped, every record that did not fail is evaluated afresh. */
  lemma {:induction false} EvalRunSkipCache(rs: seq<InferenceResult>, s: EvalStore, enableCache: bool,
                                            evaluate: InferenceResult -> Option<EvaluationResult>)
    ensures EvalRun(rs, s, true, enableCache, evaluate).evals == Evaluated(rs, evaluate)
    decreases |rs|
  {
    if rs != [] {
      EvalRunSkipCache(rs[..|rs| - 1], s, enableCache, evaluate);
    }
  }

  /** With caching off the store is never written. */
  lemma {:induction false} EvalRunReadOnly(rs: seq<InferenceResult>, s: EvalStore, skipCache: bool,
                                           evaluate: InferenceResult -> Option<EvaluationResult>)
    ensures EvalRun(rs, s, skipCache, false, evaluate).store == s
    decreases |rs|
  {
    if rs != [] {
      EvalRunReadOnly(rs[..|rs| - 1], s, skipCache, evaluate);
    }
  }

  /** When every record that did not fail already has an evaluation that loads, the pass
    * evaluates nothing: it returns the cached evaluations, in record order, and writes nothing. */
  lemma {:induction false} EvalRunAllCached(rs: seq<InferenceResult>, s: EvalStore, enableCache: bool,
                                            evaluate: InferenceResult -> Option<EvaluationResult>)
    requires forall i :: 0 <= i < |rs| && rs[i].status != "failed" ==> StoreLookup(s, rs[i].sampleId).Some?
    ensures EvalRun(rs, s, false, enableCache, evaluate) ==
      EvalPass(Evaluated(rs, (r: InferenceResult) => StoreLookup(s, r.sampleId)), s)
    decreases |rs|
  {
    if rs != [] {
      var init := rs[..|rs| - 1];
      assert forall i :: 0 <= i < |init| ==> init[i] == rs[i];
      EvalRunAllCached(init, s, enableCache, evaluate);
    }
  }

  /** The store's index only grows, and keeps its insertion order well formed. */
  lemma {:induction false} EvalRunGrows(rs: seq<InferenceResult>, s: EvalStore, skipCache: bool,
                                        enableCache: bool, evaluate: InferenceResult -> Option<EvaluationResult>)
    ensures s.index.Keys <= EvalRun(rs, s, skipCache, enableCache, evaluate).store.index.Keys
    ensures KeyOrder(s.order, s.index) ==>
      KeyOrder(EvalRun(rs, s, skipCache, enableCache, evaluate).store.order,
               EvalRun(rs, s, skipCache, enableCache, evaluate).store.index)
    decreases |rs|
  {
    if rs != [] {
      EvalRunGrows(rs[..|rs| - 1], s, skipCache, enableCache, evaluate);
    }
  }

  /** With caching on, each record that did not fail and whose evaluation carries its id
    * ends up in the evaluation index. */
  lemma {:induction false} EvalRunIndexes(rs: seq<InferenceResult>, s: EvalStore, skipCache: bool,
                                          evaluate: InferenceResult -> Option<EvaluationResult>)
    ensures forall i :: (0 <= i < |rs| && rs[i].status != "failed" && evaluate(rs[i]).Some? &&
                         evaluate(rs[i]).value.sampleId == rs[i].sampleId) ==>
      rs[i].sampleId in EvalRun(rs, s, skipCache, true, evaluate).store.index
    decreases |rs|
  {
    if rs != [] {
      var init := rs[..|rs| - 1];
      var last := rs[|rs| - 1];
      var before := EvalRun(init, s, skipCache, true, evaluate);
      var after := EvalRun(rs, s, skipCache, true, evaluate);
      EvalRunIndexes(init, s, skipCache, evaluate);
      assert before.store.index.Keys <= after.store.index.Keys;
      forall i | 0 <= i < |rs| && rs[i].status != "failed" && evaluate(rs[i]).Some? &&
          evaluate(rs[i]).value.sampleId == rs[i].sampleId
        ensures rs[i].sampleId in after.store.index
      {
        if i < |init| {
          assert rs[i] == init[i];
        }
      }
    }
  }

  /** The body of run_evaluation's loop for one record: exactly `EvalStep`. */
  method EvaluateOne(cache: CacheManager, r: InferenceResult, skipCache: bool, enableCache: bool,
                     evaluate: InferenceResult -> Option<EvaluationResult>)
    returns (out: seq<EvaluationResult>)
    requires cache.Valid()
    modifies cache
    ensures cache.Valid()
    ensures EvalPass(out, cache.EvalStoreOf()) ==
      EvalStep(old(cache.EvalStoreOf()), r, skipCache, enableCache, evaluate)
    ensures cache.inferenceIndex == old(cache.inferenceIndex) && cache.inferenceOrder == old(cache.inferenceOrder)
    ensures cache.inferenceFiles == old(cache.inferenceFiles)
  {
    out := [];
    if r.status != "failed" {
      var cached: Option<EvaluationResult> := None;
      if !skipCache && cache.HasEvalCache(r.sampleId) {
        cached := cache.GetEvalCache(r.sampleId);
      }
      if cached.Some? {
        out := [cached.value];
      } else {
        var e := evaluate(r);
        if e.Some? {
          if enableCache {
            cache.SaveEvalCache(e.value);
          }
          out := [e.value];
        }
      }
    }
  }

  /** The loop of run_evaluation over the inference records: exactly `EvalRun` from the
    * cache's evaluation store; the inference half of the cache is untouched. */
  method EvaluateRecords(cache: CacheManager, rs: seq<InferenceResult>, skipCache: bool, enableCache: bool,
                         evaluate: InferenceResult -> Option<EvaluationResult>)
    returns (evals: seq<EvaluationResult>)
    requires cache.Valid()
    modifies cache
    ensures cache.Valid()
    ensures EvalPass(evals, cache.EvalStoreOf()) ==
      EvalRun(rs, old(cache.EvalStoreOf()), skipCache, enableCache, evaluate)
    ensures cache.inferenceIndex == old(cache.inferenceIndex) && cache.inferenceOrder == old(cache.inferenceOrder)
    ensures cache.inferenceFiles == old(cache.inferenceFiles)
    ensures |evals| <= CountNotFailed(rs)
    ensures skipCache ==> evals == Evaluated(rs, evaluate)
    ensures !enableCache ==> cache.EvalStoreOf() == old(cache.EvalStoreOf())
  {
    ghost var s0 := cache.EvalStoreOf();
    evals := [];
    var i := 0;
    while i < |rs|
      invariant 0 <= i <= |rs|
      invariant cache.Valid()
      invariant EvalPass(evals, cache.EvalStoreOf()) == EvalRun(rs[..i], s0, skipCache, enableCache, evaluate)
      invariant cache.inferenceIndex == old(cache.inferenceIndex) && cache.inferenceOrder == old(cache.inferenceOrder)
      invariant cache.inferenceFiles == old(cache.inferenceFiles)
    {
      assert rs[..i + 1][..i] == rs[..i];
      var out := EvaluateOne(cache, rs[i], skipCache, enableCache, evaluate);
      evals := evals + out;
      i := i + 1;
    }
    assert rs[..i] == rs;
    EvalRunBound(rs, s0, skipCache, enableCache, evaluate);
    if skipCache {
      EvalRunSkipCache(rs, s0, enableCache, evaluate);
    }
    if !enableCache {
      EvalRunReadOnly(rs, s0, skipCache, evaluate);
    }
  }

  /** run_evaluation: raises when there is nothing to evaluate; otherwise each record that
    * did not fail is answered from the evaluation cache or evaluated (an evaluation that
    * raises is logged and dropped), and the scores are summarised.
    * `results` is None when the records are taken from the inference cache. */
  method RunEvaluation(cache: CacheManager, results: Option<seq<InferenceResult>>,
                       skipCache: bool, enableCache: bool,
                       evaluate: InferenceResult -> Option<EvaluationResult>)
    returns (raised: bool, evals: seq<EvaluationResult>, summary: Summary)
    requires cache.Valid()
    modifies cache
    ensures cache.Valid()
    ensures var rs := if results.Some? then results.value else old(cache.Loaded(cache.inferenceOrder));
      (raised <==> rs == []) &&
      |evals| <= CountNotFailed(rs) &&
      (skipCache ==> evals == Evaluated(rs, evaluate)) &&
      (!raised ==> EvalPass(evals, cache.EvalStoreOf()) ==
                   EvalRun(rs, old(cache.EvalStoreOf()), skipCache, enableCache, evaluate))
    ensures raised ==> evals == [] && cache.EvalStoreOf() == old(cache.EvalStoreOf())
    ensures cache.inferenceIndex == old(cache.inferenceIndex) && cache.inferenceOrder == old(cache.inferenceOrder)
    ensures cache.inferenceFiles == old(cache.inferenceFiles)
    ensures !raised ==> summary == SummaryOf(evals)
  {
    var rs: seq<InferenceResult>;
    if results.Some? {
      rs := results.value;
    } else {
      rs := cache.GetAllInferenceResults();
    }
    evals := [];
    summary := NoResults;
    if rs == [] {
      raised := true;
      return;
    }
    raised := false;
    evals := EvaluateRecords(cache, rs, skipCache, enableCache, evaluate);
    summary := ComputeSummary(evals);
  }

  // ----------------------------------------------------------------- summary

  datatype ScoreStats = ScoreStats(mean: real, min: real, max: real, count: nat)

  datatype Summary = NoResults | Summary(totalSamples: nat, details: map<String, ScoreStats>)

  /** Every score recorded under `key`, in result order. */
  function ScoresFor(evals: seq<EvaluationResult>, key: String): (r: seq<real>)
    ensures |r| <= |evals|
  {
    if evals == [] then []
    else
      var last := evals[|evals| - 1];
      ScoresFor(evals[..|evals| - 1], key) + (if key in last.scores then [last.scores[key]] else [])
  }

  function Sum(xs: seq<real>): real {
    if xs == [] then 0.0 else Sum(xs[..|xs| - 1]) + xs[|xs| - 1]
  }

  function Min(xs: seq<real>): (m: real)
    requires |xs| >= 1
    ensures m in xs && forall x :: x in xs ==> m <= x
  {
    if |xs| == 1 then xs[0]
    else
      var m := Min(xs[..|xs| - 1]);
      assert forall x :: x in xs ==> x in xs[..|xs| - 1] || x == xs[|xs| - 1];
      if xs[|xs| - 1] < m then xs[|xs| - 1] else m
  }

  function Max(xs: seq<real>): (m: real)
    requires |xs| >= 1
    ensures m in xs && forall x :: x in xs ==> x <= m
  {
    if |xs| == 1 then xs[0]
    else
      var m := Max(xs[..|xs| - 1]);
      assert forall x :: x in xs ==> x in xs[..|xs| - 1] || x == xs[|xs| - 1];
      if xs[|xs| - 1] > m then xs[|xs| - 1] else m
  }

  function StatsOf(xs: seq<real>): ScoreStats
    requires |xs| >= 1
  {
    ScoreStats(Sum(xs) / (|xs| as real), Min(xs), Max(xs), |xs|)
  }

  /** The per-key score lists _compute_summary builds: each result appends its scores,
    * a new key starting a new list. */
  function ScoreLists(evals: seq<EvaluationResult>): map<String, seq<real>> {
    if evals == [] then map[]
    else
      var last := evals[|evals| - 1].scores;
      Merged(ScoreLists(evals[..|evals| - 1]), last, last.Keys)
  }

  /** The lists hold, for each key scored at least once and for no other key, every score
    * recorded under it in result order. */
  lemma {:induction false} ScoreListsSpec(evals: seq<EvaluationResult>, k: String)
    ensures k in ScoreLists(evals) <==> |ScoresFor(evals, k)| >= 1
    ensures k in ScoreLists(evals) ==> ScoreLists(evals)[k] == ScoresFor(evals, k)
    decreases |evals|
  {
    if evals != [] {
      ScoreListsSpec(evals[..|evals| - 1], k);
    }
  }

  /** _compute_summary: the sample count, and per score key the mean, minimum,
    * maximum and number of the scores recorded; an error entry when there are none. */
  function SummaryOf(evals: seq<EvaluationResult>): Summary {
    if evals == [] then NoResults
    else
      var lists := ScoreLists(evals);
      assert forall k :: k in lists ==> |lists[k]| >= 1 by {
        forall k | k in lists { ScoreListsSpec(evals, k); }
      }
      Summary(|evals|, map k | k in lists :: StatsOf(lists[k]))
  }

  lemma {:induction false} SumBounds(xs: seq<real>, lo: real, hi: real)
    requires forall i :: 0 <= i < |xs| ==> lo <= xs[i] <= hi
    ensures (|xs| as real) * lo <= Sum(xs) <= (|xs| as real) * hi
    decreases |xs|
  {
    if xs != [] {
      var init := xs[..|xs| - 1];
      assert forall i :: 0 <= i < |init| ==> init[i] == xs[i];
      SumBounds(init, lo, hi);
      var m := |init| as real;
      assert (|xs| as real) * lo == m * lo + lo;
      assert (|xs| as real) * hi == m * hi + hi;
    }
  }

  /** The mean of a non-empty list lies between its minimum and its maximum. */
  lemma StatsBounds(xs: seq<real>)
    requires |xs| >= 1
    ensures StatsOf(xs).min <= StatsOf(xs).mean <= StatsOf(xs).max
  {
    assert forall i :: 0 <= i < |xs| ==> xs[i] in xs;
    SumBounds(xs, Min(xs), Max(xs));
    MeanBounds(Sum(xs), |xs| as real, Min(xs), Max(xs));
  }

  lemma MeanBounds(total: real, n: real, lo: real, hi: real)
    requires n > 0.0 && n * lo <= total <= n * hi
    ensures lo <= total / n <= hi
  {
    var mean := total / n;
    assert (mean - lo) * n == total - n * lo;
    assert (hi - mean) * n == n * hi - total;
  }

  /** Each key's mean lies between its minimum and maximum, and it was scored at least once
    * and at most once per sample. */
  lemma SummaryBounds(evals: seq<EvaluationResult>)
    requires evals != []
    ensures forall k :: k in SummaryOf(evals).details ==>
      var st := SummaryOf(evals).details[k];
      st.min <= st.mean <= st.max && 1 <= st.count <= SummaryOf(evals).totalSamples
  {
    forall k | k in SummaryOf(evals).details
      ensures var st := SummaryOf(evals).details[k];
        st.min <= st.mean <= st.max && 1 <= st.count <= SummaryOf(evals).totalSamples
    {
      ScoreListsSpec(evals, k);
      StatsBounds(ScoreLists(evals)[k]);
    }
  }

  /** The per-key lists once the scores of the keys in `done` have been appended. */
  function Merged(all: map<String, seq<real>>, scores: map<String, real>, done: set<String>): map<String, seq<real>>
    requires done <= scores.Keys
  {
    map k | k in all.Keys + done ::
      (if k in all then all[k] else []) + (if k in done then [scores[k]] else [])
  }

  lemma MergedStep(all: map<String, seq<real>>, scores: map<String, real>, done: set<String>, k: String)
    requires done <= scores.Keys && k in scores && k !in done
    ensures var m := Merged(all, scores, done);
      Merged(all, scores, done + {k}) == m[k := (if k in m then m[k] else []) + [scores[k]]]
  {
    var m := Merged(all, scores, done);
    var lhs := Merged(all, scores, done + {k});
    var rhs := m[k := (if k in m then m[k] else []) + [scores[k]]];
    assert lhs.Keys == rhs.Keys;
    forall j | j in lhs
      ensures lhs[j] == rhs[j]
    {
      if j != k {
        assert j in m;
      }
    }
  }

  lemma MergedNone(all: map<String, seq<real>>, scores: map<String, real>)
    ensures Merged(all, scores, {}) == all
  {
    var m := Merged(all, scores, {});
    assert m.Keys == all.Keys;
    forall k | k in all
      ensures m[k] == all[k]
    {
      assert all[k] + [] == all[k];
    }
  }

  /** Appends one result's scores to the per-key lists, a new key starting a new list. */
  method AddScores(all: map<String, seq<real>>, scores: map<String, real>)
    returns (next: map<String, seq<real>>)
    ensures next == Merged(all, scores, scores.Keys)
  {
    next := all;
    var todo := scores.Keys;
    MergedNone(all, scores);
    DoneGrows(scores.Keys, todo, "");
    while todo != {}
      invariant todo <= scores.Keys
      invariant next == Merged(all, scores, scores.Keys - todo)
      decreases |todo|
    {
      var k :| k in todo;
      MergedStep(all, scores, scores.Keys - todo, k);
      next := next[k := (if k in next then next[k] else []) + [scores[k]]];
      DoneGrows(scores.Keys, todo, k);
      todo := todo - {k};
    }
    DoneGrows(scores.Keys, {}, "");
  }

  /** Taking `k` off the keys still to do adds it to those done; with nothing to do, all are done. */
  lemma DoneGrows<T>(keys: set<T>, todo: set<T>, k: T)
    requires todo <= keys
    ensures k in todo ==> keys - (todo - {k}) == (keys - todo) + {k}
    ensures keys - {} == keys && keys - keys == {}
  {
  }

  /** _compute_summary, building the per-key score lists one result at a time. */
  method ComputeSummary(evals: seq<EvaluationResult>) returns (summary: Summary)
    ensures summary == SummaryOf(evals)
  {
    if evals == [] {
      return NoResults;
    }
    var all: map<String, seq<real>> := map[];
    var i := 0;
    while i < |evals|
      invariant 0 <= i <= |evals|
      invariant all == ScoreLists(evals[..i])
    {
      assert evals[..i + 1][..i] == evals[..i];
      all := AddScores(all, evals[i].scores);
      i := i + 1;
    }
    assert evals[..i] == evals;
    assert forall k :: k in all ==> |all[k]| >= 1 by {
      forall k | k in all { ScoreListsSpec(evals, k); }
    }
    summary := Summary(|evals|, map k | k in all :: StatsOf(all[k]));
  }
}
