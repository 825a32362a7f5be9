/** cli.py, `run_ingestion` lines 176-239: the village list, the resume seed, the override
    rules, the villages scheduled, and the records emitted. The villages are processed one
    after another. */
module Ingestion {
  import opened Wrappers
  import opened Seqs
  import opened Text
  import opened Model
  import opened Resume
  import opened OverrideLoader
  import RegionIdLoader
  import opened Search

  /** The file name that switches to failed-only mode. */
  const FAILED_REGIONS: string := "failed_regions.csv"

  /** `s.endswith(suffix)`. */
  predicate EndsWith(s: string, suffix: string)
  {
    |suffix| <= |s| && s[|s| - |suffix|..] == suffix
  }

  /** Failed-only mode: the regions path names a `failed_regions.csv`. */
  predicate FailedMode(regionsPath: string)
  {
    EndsWith(regionsPath, FAILED_REGIONS)
  }

  /** Where `xs[:limit]` ends: Python's slice bound, counted from the end when negative and
      clamped to the list. */
  function SliceEnd(limit: int, length: nat): (e: nat)
    ensures e <= length
    ensures 0 <= limit <= length ==> e == limit
    ensures limit > length ==> e == length
    ensures limit < 0 && -limit <= length ==> e == length + limit
    ensures limit < 0 && -limit > length ==> e == 0
  {
    if limit >= 0 then (if limit < length then limit else length)
    else if length + limit > 0 then length + limit
    else 0
  }

  /** `villages[:limit]` when a limit is given. */
  function Limit<T>(xs: seq<T>, limit: Option<int>): (r: seq<T>)
    ensures |r| <= |xs| && r == xs[..|r|]
    ensures limit.None? ==> r == xs
    ensures limit.Some? && 0 <= limit.value <= |xs| ==> |r| == limit.value
  {
    match limit
    case None => xs
    case Some(n) => xs[..SliceEnd(n, |xs|)]
  }

  /** What a run reads. `regionRows` are the parsed rows of the regions file and
      `failedVillages` what `load_failed_villages` returns (ingest/failed_loader.py is not
      part of this model); `outputExists` and `outputLines` are the output file as the run
      finds it, `decode` is `json.loads`; `overrideRows` are the parsed rows of the override
      file. */
  datatype Run = Run(
    regionsPath: string,
    regionRows: seq<RegionIdLoader.Row>,
    failedVillages: seq<Village>,
    limit: Option<int>,
    outputExists: bool,
    outputLines: seq<string>,
    decode: Decoder,
    overridePath: Option<string>,
    overrideRows: seq<OverrideLoader.Row>,
    enableOverrides: bool)

  /** The villages of a run, before the resume filter. */
  function SourceVillages(run: Run): seq<Village>
  {
    var all := if FailedMode(run.regionsPath) then run.failedVillages else RegionIdLoader.Villages(run.regionRows);
    Limit(all, run.limit)
  }

  /** The codes already processed: resume reads the output file unless the run is in
      failed-only mode. */
  function Seed(run: Run): set<string>
  {
    if FailedMode(run.regionsPath) || !run.outputExists then {}
    else SeenCodes(run.outputLines, run.decode)
  }

  /** The override rules: loaded only when overrides are enabled and a path is given. */
  function RulesOf(run: Run): Result<Rules, LoadError>
  {
    if run.enableOverrides && PathGiven(run.overridePath) then RulesFrom(run.overrideRows)
    else Success(map[])
  }

  /** The resume filter for one village. */
  function Pending(seed: set<string>): Village -> Option<Village>
  {
    (v: Village) => if v.villageCode in seed then None else Some(v)
  }

  /** The villages not yet processed, in order. */
  function Unseen(villages: seq<Village>, seed: set<string>): seq<Village>
  {
    FilterMap(villages, Pending(seed))
  }

  /** The villages a run processes. */
  function Scheduled(run: Run): seq<Village>
  {
    Unseen(SourceVillages(run), Seed(run))
  }

  /** `process_village` with the run's rules, as a function of the village. */
  function Resolver(rules: Rules, enableOverrides: bool, env: Env): Village -> Option<Record>
  {
    v => Resolve(v, rules, enableOverrides, env).record
  }

  /** The village codes of some records. */
  function Codes(records: seq<Record>): set<string>
  {
    set r | r in records :: r.villageCode
  }

  /** The emit loop: every record found whose village code is neither in the seed nor
      already emitted. */
  function Emit(results: seq<Option<Record>>, seed: set<string>): (records: seq<Record>)
    ensures |records| <= |results|
    decreases |results|
  {
    if results == [] then []
    else
      var prev := Emit(results[..|results| - 1], seed);
      match results[|results| - 1]
      case None => prev
      case Some(r) => if r.villageCode in seed || r.villageCode in Codes(prev) then prev else prev + [r]
  }

  /** The records a run emits, or the error that aborts it while loading the override rules. */
  function Ingestion(run: Run, env: Env): Result<seq<Record>, LoadError>
  {
    match RulesOf(run)
    case Failure(e) => Failure(e)
    case Success(rules) => Success(Emit(MapSeq(Scheduled(run), Resolver(rules, run.enableOverrides, env)), Seed(run)))
  }

  /** The output file's lines before the run. */
  function PriorLines(run: Run): seq<string>
  {
    if run.outputExists then run.outputLines else []
  }

  lemma CodesAppend(records: seq<Record>, r: Record)
    ensures Codes(records + [r]) == Codes(records) + {r.villageCode}
  {
    assert forall x :: x in records + [r] <==> x in records || x == r;
  }

  /** The resume filter loop (lines 213-218). */
  method ScheduleVillages(villages: seq<Village>, seen: set<string>) returns (tasks: seq<Village>)
    ensures tasks == Unseen(villages, seen)
  {
    tasks := [];
    for i := 0 to |villages|
      invariant tasks == Unseen(villages[..i], seen)
    {
      assert villages[..i + 1][..i] == villages[..i];
      var v := villages[i];
      if v.villageCode in seen {
        continue;
      }
      tasks := tasks + [v];
    }
    assert villages[..|villages|] == villages;
  }

  /** One task: `process_village`, keeping its result. */
  method ProcessTask(v: Village, rules: Rules, enableOverrides: bool, env: Env) returns (record: Option<Record>)
    ensures record == Resolver(rules, enableOverrides, env)(v)
  {
    var requests;
    record, requests := ProcessVillage(v, rules, enableOverrides, env);
  }

  /** The tasks and their gathered results (lines 219-230), one village at a time. */
  method ProcessAll(tasks: seq<Village>, rules: Rules, enableOverrides: bool, env: Env)
    returns (results: seq<Option<Record>>)
    ensures results == MapSeq(tasks, Resolver(rules, enableOverrides, env))
  {
    results := [];
    for i := 0 to |tasks|
      invariant results == MapSeq(tasks[..i], Resolver(rules, enableOverrides, env))
    {
      MapSeqStep(tasks, Resolver(rules, enableOverrides, env), i);
      var record := ProcessTask(tasks[i], rules, enableOverrides, env);
      results := results + [record];
    }
    assert tasks[..|tasks|] == tasks;
  }

  /** The record dedup loop (lines 232-236); `seen` ends as the seed and every emitted code. */
  method EmitRecords(results: seq<Option<Record>>, seed: set<string>) returns (records: seq<Record>, seen: set<string>)
    ensures records == Emit(results, seed)
    ensures seen == seed + Codes(records)
  {
    records := [];
    seen := seed;
    for i := 0 to |results|
      invariant records == Emit(results[..i], seed)
      invariant seen == seed + Codes(records)
    {
      assert results[..i + 1][..i] == results[..i];
      var r := results[i];
      if r.Some? && r.value.villageCode !in seen {
        CodesAppend(records, r.value);
        records := records + [r.value];
        seen := seen + {r.value.villageCode};
      }
    }
    assert results[..|results|] == results;
  }

  /** `run_ingestion`: the records emitted, or the override-loading error that aborts the run,
      and the output file's lines afterwards. */
  method RunIngestion(run: Run, env: Env, encode: Record -> string)
    returns (r: Result<seq<Record>, LoadError>, written: seq<string>)
    requires !FailedMode(run.regionsPath) && run.outputExists ==> Decodable(run.outputLines, run.decode)
    ensures r == Ingestion(run, env)
    ensures written == PriorLines(run) + (if r.Success? then MapSeq(r.value, encode) else [])
  {
    var villages: seq<Village>;
    if EndsWith(run.regionsPath, FAILED_REGIONS) {
      villages := run.failedVillages;
    } else {
      villages := RegionIdLoader.LoadVillagesFromRegionId(run.regionRows);
    }
    if run.limit.Some? {
      villages := villages[..SliceEnd(run.limit.value, |villages|)];
    }
    assert villages == SourceVillages(run);
    var useResume := !EndsWith(run.regionsPath, FAILED_REGIONS);
    var seen: set<string> := {};
    if useResume {
      seen := LoadSeenVillageCodes(run.outputExists, run.outputLines, run.decode);
    }
    assert seen == Seed(run);
    var rules: Rules := map[];
    if run.enableOverrides && PathGiven(run.overridePath) {
      var loaded := LoadOverrideRules(run.overridePath, run.overrideRows);
      if loaded.Failure? {
        return Failure(loaded.error), PriorLines(run);
      }
      rules := loaded.value;
    }
    assert RulesOf(run) == Success(rules);
    var tasks := ScheduleVillages(villages, seen);
    var results := ProcessAll(tasks, rules, run.enableOverrides, env);
    var records;
    records, seen := EmitRecords(results, seen);
    written := PriorLines(run) + MapSeq(records, encode);
    r := Success(records);
  }

  /** No emitted code was in the seed, and no two emitted records share a village code. */
  lemma {:induction false} EmitFreshAndDistinct(results: seq<Option<Record>>, seed: set<string>)
    ensures forall t :: 0 <= t < |Emit(results, seed)| ==> Emit(results, seed)[t].villageCode !in seed
    ensures forall s, t :: 0 <= s < t < |Emit(results, seed)| ==>
              Emit(results, seed)[s].villageCode != Emit(results, seed)[t].villageCode
    decreases |results|
  {
    if results != [] {
      var init := results[..|results| - 1];
      var prev := Emit(init, seed);
      var records := Emit(results, seed);
      EmitFreshAndDistinct(init, seed);
      if records != prev {
        var r := results[|results| - 1].value;
        assert records == prev + [r] && r.villageCode !in seed && r.villageCode !in Codes(prev);
        forall s, t | 0 <= s < t < |records| ensures records[s].villageCode != records[t].villageCode {
          if t == |prev| {
            assert records[s] == prev[s] && prev[s] in prev;
          } else {
            assert records[s] == prev[s] && records[t] == prev[t];
          }
        }
      }
    }
  }

  /** One step of the emit loop: the emitted codes only grow, and a record found at the last
      position has its code in the seed or among the emitted ones afterwards. */
  lemma EmitStep(results: seq<Option<Record>>, seed: set<string>)
    requires results != []
    ensures Codes(Emit(results[..|results| - 1], seed)) <= Codes(Emit(results, seed))
    ensures results[|results| - 1].Some? ==>
              results[|results| - 1].value.villageCode in seed + Codes(Emit(results, seed))
  {
    var prev := Emit(results[..|results| - 1], seed);
    if Emit(results, seed) != prev {
      CodesAppend(prev, results[|results| - 1].value);
    }
  }

  /** No found record is lost unless its village was seeded or already emitted: the code of
      every record found is in the seed or among the emitted codes. */
  lemma {:induction false} EmitCoversResults(results: seq<Option<Record>>, seed: set<string>, i: nat)
    requires i < |results| && results[i].Some?
    ensures results[i].value.villageCode in seed + Codes(Emit(results, seed))
    decreases |results|
  {
    var n := |results| - 1;
    EmitStep(results, seed);
    if i < n {
      var init := results[..n];
      assert results[i] == init[i];
      EmitCoversResults(init, seed, i);
    }
  }

  /** The emitted records are found records, in the order they were found: `idx[t]` is the
      result record `t` comes from. */
  lemma {:induction false} EmitFollowsResults(results: seq<Option<Record>>, seed: set<string>) returns (idx: seq<nat>)
    ensures |idx| == |Emit(results, seed)| && Increasing(idx)
    ensures forall t :: 0 <= t < |idx| ==> idx[t] < |results| && results[idx[t]] == Some(Emit(results, seed)[t])
    decreases |results|
  {
    if results == [] {
      return [];
    }
    var n := |results| - 1;
    var init := results[..n];
    var prevIdx := EmitFollowsResults(init, seed);
    var prev := Emit(init, seed);
    var records := Emit(results, seed);
    forall t | 0 <= t < |prevIdx| ensures results[prevIdx[t]] == Some(prev[t]) {
      assert results[prevIdx[t]] == init[prevIdx[t]];
    }
    if records == prev {
      idx := prevIdx;
    } else {
      idx := prevIdx + [n];
      assert records == prev + [results[n].value];
      forall t | 0 <= t < |idx| ensures idx[t] < |results| && results[idx[t]] == Some(records[t]) {
        if t < |prevIdx| {
          assert idx[t] == prevIdx[t] && records[t] == prev[t];
        }
      }
    }
  }

  /** The villages scheduled are exactly the run's villages whose code is not in the seed, in
      order: `idx[t]` is where scheduled village `t` stands in the village list. */
  lemma ScheduledAreUnseen(run: Run) returns (idx: seq<nat>)
    ensures |idx| == |Scheduled(run)| && Increasing(idx)
    ensures forall t :: 0 <= t < |idx| ==>
              && idx[t] < |SourceVillages(run)| && Scheduled(run)[t] == SourceVillages(run)[idx[t]]
              && Scheduled(run)[t].villageCode !in Seed(run)
    ensures forall i :: 0 <= i < |SourceVillages(run)| && SourceVillages(run)[i].villageCode !in Seed(run) ==>
              exists t :: 0 <= t < |idx| && idx[t] == i
  {
    idx := FilterMapIndices(SourceVillages(run), Pending(Seed(run)));
  }

  /** In failed-only mode resume is off: the seed is empty and every village is scheduled. */
  lemma FailedModeDisablesResume(run: Run)
    requires FailedMode(run.regionsPath)
    ensures Seed(run) == {}
    ensures Scheduled(run) == Limit(run.failedVillages, run.limit)
  {
    UnseenNothing(Limit(run.failedVillages, run.limit));
  }

  /** With an empty seed nothing is filtered out. */
  lemma {:induction false} UnseenNothing(villages: seq<Village>)
    ensures Unseen(villages, {}) == villages
    decreases |villages|
  {
    if villages != [] {
      var init := villages[..|villages| - 1];
      UnseenNothing(init);
      assert init + [villages[|villages| - 1]] == villages;
    }
  }

  /** Every emitted record is the result of some task. */
  lemma EmittedFromTasks(tasks: seq<Village>, process: Village -> Option<Record>, seed: set<string>, t: nat)
    requires t < |Emit(MapSeq(tasks, process), seed)|
    ensures exists i :: 0 <= i < |tasks| && process(tasks[i]) == Some(Emit(MapSeq(tasks, process), seed)[t])
  {
    var idx := EmitFollowsResults(MapSeq(tasks, process), seed);
    MapSeqAt(tasks, process, idx[t]);
  }

  /** Every record a run emits is the result of a scheduled village; no two share a
      village code, and none was in the seed. */
  lemma EmittedRecords(run: Run, env: Env)
    requires RulesOf(run).Success?
    ensures forall t :: 0 <= t < |Ingestion(run, env).value| ==>
              exists i :: 0 <= i < |Scheduled(run)| &&
                Resolver(RulesOf(run).value, run.enableOverrides, env)(Scheduled(run)[i]) == Some(Ingestion(run, env).value[t])
    ensures forall t :: 0 <= t < |Ingestion(run, env).value| ==> Ingestion(run, env).value[t].villageCode !in Seed(run)
    ensures forall s, t :: 0 <= s < t < |Ingestion(run, env).value| ==>
              Ingestion(run, env).value[s].villageCode != Ingestion(run, env).value[t].villageCode
  {
    var process := Resolver(RulesOf(run).value, run.enableOverrides, env);
    assert Ingestion(run, env).value == Emit(MapSeq(Scheduled(run), process), Seed(run));
    EmittedFromAllTasks(Scheduled(run), process, Seed(run));
  }

  /** The emitted results of any tasks are task results, fresh and pairwise distinct in code. */
  lemma EmittedFromAllTasks(tasks: seq<Village>, process: Village -> Option<Record>, seed: set<string>)
    ensures forall t :: 0 <= t < |Emit(MapSeq(tasks, process), seed)| ==>
              exists i :: 0 <= i < |tasks| && process(tasks[i]) == Some(Emit(MapSeq(tasks, process), seed)[t])
    ensures forall t :: 0 <= t < |Emit(MapSeq(tasks, process), seed)| ==> Emit(MapSeq(tasks, process), seed)[t].villageCode !in seed
    ensures forall s, t :: 0 <= s < t < |Emit(MapSeq(tasks, process), seed)| ==>
              Emit(MapSeq(tasks, process), seed)[s].villageCode != Emit(MapSeq(tasks, process), seed)[t].villageCode
  {
    var records := Emit(MapSeq(tasks, process), seed);
    EmitFreshAndDistinct(MapSeq(tasks, process), seed);
    forall t | 0 <= t < |records|
      ensures exists i :: 0 <= i < |tasks| && process(tasks[i]) == Some(records[t])
    {
      EmittedFromTasks(tasks, process, seed, t);
    }
  }

  /** Lines that each encode their record's code are read back as exactly those codes. */
  lemma {:induction false} EncodedCodes(records: seq<Record>, encode: Record -> string, decode: Decoder)
    requires forall t :: 0 <= t < |records| ==>
               && records[t].villageCode != "" && Strip(encode(records[t])) != ""
               && decode(Strip(encode(records[t]))) == Object(Some(records[t].villageCode))
    ensures SeenCodes(MapSeq(records, encode), decode) == Codes(records)
    decreases |records|
  {
    if records != [] {
      var n := |records| - 1;
      var init := records[..n];
      var line := encode(records[n]);
      assert forall t :: 0 <= t < n ==> init[t] == records[t];
      EncodedCodes(init, encode, decode);
      SeenCodesAppend(MapSeq(init, encode), [line], decode);
      assert [line][..0] == [];
      assert SeenCodes([line], decode) == {records[n].villageCode};
      CodesAppend(init, records[n]);
      assert init + [records[n]] == records;
    }
  }

  /** Outside failed-only mode every scheduled village has a non-empty code: it is a
      loaded village. */
  lemma ScheduledCodesNonEmpty(run: Run)
    requires !FailedMode(run.regionsPath)
    ensures forall i :: 0 <= i < |Scheduled(run)| ==> Scheduled(run)[i].villageCode != ""
  {
    var all := RegionIdLoader.Villages(run.regionRows);
    var idx := ScheduledAreUnseen(run);
    var rowIdx := RegionIdLoader.VillagesFollowRows(run.regionRows);
    forall i | 0 <= i < |Scheduled(run)| ensures Scheduled(run)[i].villageCode != "" {
      assert SourceVillages(run)[idx[i]] == all[idx[i]];
      assert RegionIdLoader.Complete(all[idx[i]]);
    }
  }

  /** Outside failed-only mode every emitted record carries a non-empty village code: it
      is the code of a scheduled village. */
  lemma EmittedCodesNonEmpty(run: Run, env: Env)
    requires !FailedMode(run.regionsPath) && RulesOf(run).Success?
    ensures forall t :: 0 <= t < |Ingestion(run, env).value| ==> Ingestion(run, env).value[t].villageCode != ""
  {
    var rules := RulesOf(run).value;
    var process := Resolver(rules, run.enableOverrides, env);
    ScheduledCodesNonEmpty(run);
    forall v | process(v).Some? ensures process(v).value.villageCode == v.villageCode {
      ResolvedRecord(v, rules, run.enableOverrides, env);
    }
    EmittedCodesFromTasks(Scheduled(run), process, Seed(run));
  }

  /** When every task has a non-empty code and every result carries its task's code, every
      emitted record has a non-empty code. */
  lemma EmittedCodesFromTasks(tasks: seq<Village>, process: Village -> Option<Record>, seed: set<string>)
    requires forall i :: 0 <= i < |tasks| ==> tasks[i].villageCode != ""
    requires forall v :: process(v).Some? ==> process(v).value.villageCode == v.villageCode
    ensures forall t :: 0 <= t < |Emit(MapSeq(tasks, process), seed)| ==> Emit(MapSeq(tasks, process), seed)[t].villageCode != ""
  {
    var records := Emit(MapSeq(tasks, process), seed);
    forall t | 0 <= t < |records| ensures records[t].villageCode != "" {
      EmittedFromTasks(tasks, process, seed, t);
    }
  }

  /** A later run on the same output resumes past the records written: its seed is this
      run's seed together with their codes, provided `json.dumps` writes lines that
      `json.loads` reads back with the record's code and every code is non-empty (as
      `EmittedCodesNonEmpty` shows for the records a run emits outside failed-only mode). */
  lemma ResumeAfterRun(run: Run, records: seq<Record>, encode: Record -> string)
    requires !FailedMode(run.regionsPath)
    requires forall t :: 0 <= t < |records| ==>
               && records[t].villageCode != "" && Strip(encode(records[t])) != ""
               && run.decode(Strip(encode(records[t]))) == Object(Some(records[t].villageCode))
    ensures Seed(run.(outputExists := true, outputLines := PriorLines(run) + MapSeq(records, encode)))
            == Seed(run) + Codes(records)
  {
    EncodedCodes(records, encode, run.decode);
    SeenCodesAppend(PriorLines(run), MapSeq(records, encode), run.decode);
  }
}
