/** ndvi.py, the scene loop of the main program and the skip rule of
    `download_and_plot_scene`: scenes are visited in search order, a scene already
    listed under `data/` is skipped, three exception classes are caught per scene
    and any other one ends the batch. */
module NdviBatch {
  import opened Base
  import opened NdviCalc
  import opened PlUtils

  /** A search-result feature as the loop reads it: `feature['id']` and
      `feature['properties']['acquired']` (None: the key is absent and reading it raises KeyError). */
  datatype Feature = Feature(id: Option<string>, acquired: Option<string>)

  /** The classes named by `except (ConnectionError, KeyError, ValueError)`. The error classes
      have no hierarchy, so an exception of a subclass (requests' ConnectTimeout or SSLError,
      JSONDecodeError) appears in a step's outcome as the caught class it derives from. */
  predicate Caught(e: Error) { e == ConnectionError || e == KeyError || e == ValueError }

  /** The processing of one scene, beyond the skip rule (assets lookup, clip, download,
      decode, plots, saves): how it ends, and whether it leaves the scene's directory under `data/`. */
  datatype StepOutcome = StepOutcome(outcome: Outcome, createsDir: bool)

  /** The loop's state: the `failed` list, the ids handed to processing (in order), the names
      listed under `data/`, and the exception that ended the batch, if any. */
  datatype BatchState = BatchState(failed: seq<Feature>, invoked: seq<string>, dataDir: set<string>, aborted: Option<Error>)

  /** The `except` block: record the failure and print the feature's date, which itself
      raises KeyError when the feature has none; an uncaught class ends the batch. */
  function Handle(st: BatchState, f: Feature, e: Error): BatchState
  {
    if !Caught(e) then st.(aborted := Some(e))
    else
      var st' := st.(failed := st.failed + [f]);
      if f.acquired.None? then st'.(aborted := Some(KeyError)) else st'
  }

  /** One iteration: `scene_id = feature['id']`, the skip test at line 97, the read of the
      acquisition date at line 98, then the processing step. */
  function Visit(st: BatchState, f: Feature, process: Feature -> StepOutcome): BatchState
  {
    match f.id
    case None => Handle(st, f, KeyError)
    case Some(id) =>
      if id in st.dataDir then st
      else if f.acquired.None? then Handle(st, f, KeyError)
      else
        var out := process(f);
        var st' := st.(invoked := st.invoked + [id],
                       dataDir := if out.createsDir then st.dataDir + {id} else st.dataDir);
        match out.outcome
        case Pass => st'
        case Fail(e) => Handle(st', f, e)
  }

  /** The state after the loop has gone over `features` (or stopped on an uncaught error). */
  function Batch(features: seq<Feature>, dataDir: set<string>, process: Feature -> StepOutcome): BatchState
    decreases |features|
  {
    if |features| == 0 then BatchState([], [], dataDir, None)
    else
      var st := Batch(features[..|features| - 1], dataDir, process);
      if st.aborted.Some? then st else Visit(st, features[|features| - 1], process)
  }

  /** Once the loop has stopped, later features change nothing. */
  lemma {:induction false} AbortPersists(features: seq<Feature>, j: nat, dataDir: set<string>, process: Feature -> StepOutcome)
    requires j <= |features| && Batch(features[..j], dataDir, process).aborted.Some?
    ensures Batch(features, dataDir, process) == Batch(features[..j], dataDir, process)
    decreases |features| - j
  {
    if j < |features| {
      assert features[..j + 1][..j] == features[..j];
      AbortPersists(features, j + 1, dataDir, process);
    } else {
      assert features[..j] == features;
    }
  }

  /** The loop at lines 236-245, with the `failed` list appended in place. */
  method DownloadScenes(features: seq<Feature>, dataDir: set<string>, process: Feature -> StepOutcome)
    returns (failed: seq<Feature>, invoked: seq<string>, dataDir': set<string>, aborted: Option<Error>)
    ensures BatchState(failed, invoked, dataDir', aborted) == Batch(features, dataDir, process)
  {
    failed, invoked, dataDir', aborted := [], [], dataDir, None;
    for i := 0 to |features|
      invariant Batch(features[..i], dataDir, process) == BatchState(failed, invoked, dataDir', None)
    {
      var feature := features[i];
      assert features[..i + 1][..i] == features[..i];
      var error: Option<Error> := None;
      if feature.id.None? {
        error := Some(KeyError);
      } else if feature.id.value !in dataDir' {
        if feature.acquired.None? {
          error := Some(KeyError);
        } else {
          var out := process(feature);
          invoked := invoked + [feature.id.value];
          if out.createsDir {
            dataDir' := dataDir' + {feature.id.value};
          }
          if out.outcome.Fail? {
            error := Some(out.outcome.error);
          }
        }
      }
      if error.Some? {
        if !Caught(error.value) {
          aborted := error;
          AbortPersists(features, i + 1, dataDir, process);
          return;
        }
        failed := failed + [feature];
        if feature.acquired.None? {
          aborted := Some(KeyError);
          AbortPersists(features, i + 1, dataDir, process);
          return;
        }
      }
    }
    assert features[..|features|] == features;
  }

  /** The names under `data/` only grow, and every id handed to processing was new there. */
  lemma {:induction false} BatchGrows(features: seq<Feature>, dataDir: set<string>, process: Feature -> StepOutcome)
    ensures dataDir <= Batch(features, dataDir, process).dataDir
    ensures forall k :: 0 <= k < |Batch(features, dataDir, process).invoked| ==>
      Batch(features, dataDir, process).invoked[k] !in dataDir
    decreases |features|
  {
    if |features| > 0 {
      BatchGrows(features[..|features| - 1], dataDir, process);
    }
  }

  predicate HasId(f: Feature, dataDir: set<string>) { f.id.Some? && f.id.value in dataDir }

  /** Skip rule: when every scene id is already listed under `data/`, nothing is processed,
      nothing fails and the listing is left as it was. */
  lemma {:induction false} AllPresentSkipped(features: seq<Feature>, dataDir: set<string>, process: Feature -> StepOutcome)
    requires forall k :: 0 <= k < |features| ==> HasId(features[k], dataDir)
    ensures Batch(features, dataDir, process) == BatchState([], [], dataDir, None)
    decreases |features|
  {
    if |features| > 0 {
      AllPresentSkipped(features[..|features| - 1], dataDir, process);
    }
  }

  /** After a run that was not stopped, every visited scene whose processing leaves its
      directory behind is listed: its id is in the final listing. */
  lemma {:induction false} CompletedScenesListed(features: seq<Feature>, dataDir: set<string>, process: Feature -> StepOutcome)
    requires Batch(features, dataDir, process).aborted.None?
    requires forall k :: 0 <= k < |features| ==> features[k].id.Some? && process(features[k]).createsDir
    ensures forall k :: 0 <= k < |features| ==> HasId(features[k], Batch(features, dataDir, process).dataDir)
    decreases |features|
  {
    if |features| > 0 {
      var init := features[..|features| - 1];
      assert Batch(init, dataDir, process).aborted.None?;
      CompletedScenesListed(init, dataDir, process);
      var st := Batch(init, dataDir, process);
      assert st.dataDir <= Batch(features, dataDir, process).dataDir;
      forall k | 0 <= k < |features| ensures HasId(features[k], Batch(features, dataDir, process).dataDir) {
        if k < |init| { assert features[k] == init[k]; }
      }
    }
  }

  /** Re-running is a no-op: after a completed run in which each processed scene left its
      directory, a second run over the same features processes nothing. */
  lemma ReRunIsNoOp(features: seq<Feature>, dataDir: set<string>, process: Feature -> StepOutcome)
    requires Batch(features, dataDir, process).aborted.None?
    requires forall k :: 0 <= k < |features| ==> features[k].id.Some? && process(features[k]).createsDir
    ensures var after := Batch(features, dataDir, process).dataDir;
      Batch(features, after, process) == BatchState([], [], after, None)
  {
    CompletedScenesListed(features, dataDir, process);
    AllPresentSkipped(features, Batch(features, dataDir, process).dataDir, process);
  }

  predicate DistinctIds(features: seq<Feature>)
  {
    forall a, b :: 0 <= a < b < |features| && features[a].id.Some? && features[b].id.Some? ==>
      features[a].id.value != features[b].id.value
  }

  /** The features whose processing raises, in search order. */
  function FailedSteps(features: seq<Feature>, process: Feature -> StepOutcome): seq<Feature>
    decreases |features|
  {
    if |features| == 0 then []
    else
      var last := features[|features| - 1];
      FailedSteps(features[..|features| - 1], process) + (if process(last).outcome.Fail? then [last] else [])
  }

  function Ids(features: seq<Feature>): seq<string>
    requires forall k :: 0 <= k < |features| ==> features[k].id.Some?
  {
    seq(|features|, k requires 0 <= k < |features| => features[k].id.value)
  }

  /** Failure isolation: when every scene is new, has an id and a date, and every error its
      processing raises is of a caught class, the loop visits every scene in order, and
      `failed` is exactly the scenes that raised, in order. */
  lemma {:induction false} FailureIsolation(features: seq<Feature>, dataDir: set<string>, process: Feature -> StepOutcome)
    requires forall k :: 0 <= k < |features| ==> features[k].id.Some? && features[k].id.value !in dataDir
    requires forall k :: 0 <= k < |features| ==> features[k].acquired.Some?
    requires DistinctIds(features)
    requires forall k :: 0 <= k < |features| ==> process(features[k]).outcome.Fail? ==> Caught(process(features[k]).outcome.error)
    ensures var st := Batch(features, dataDir, process);
      && st.aborted.None?
      && st.invoked == Ids(features)
      && st.failed == FailedSteps(features, process)
      && forall x :: x in st.dataDir ==> x in dataDir || x in Ids(features)
    decreases |features|
  {
    if |features| > 0 {
      var init, last := features[..|features| - 1], features[|features| - 1];
      assert forall k :: 0 <= k < |init| ==> init[k] == features[k];
      FailureIsolation(init, dataDir, process);
      var st := Batch(init, dataDir, process);
      assert forall k :: 0 <= k < |init| ==> init[k].id.value != last.id.value;
      assert last.id.value !in Ids(init);
      VisitNew(st, last, process);
      assert Ids(features) == Ids(init) + [last.id.value];
    }
  }

  /** A new scene with an id and a date whose errors are all caught: it is processed, and
      recorded as failed exactly when its processing raises. */
  lemma VisitNew(st: BatchState, f: Feature, process: Feature -> StepOutcome)
    requires st.aborted.None? && f.id.Some? && f.id.value !in st.dataDir && f.acquired.Some?
    requires process(f).outcome.Fail? ==> Caught(process(f).outcome.error)
    ensures Visit(st, f, process) ==
      BatchState(st.failed + (if process(f).outcome.Fail? then [f] else []), st.invoked + [f.id.value],
                 if process(f).createsDir then st.dataDir + {f.id.value} else st.dataDir, None)
  {
  }

  /** An error of any other class stops the loop at that scene: later scenes are never processed. */
  lemma UncaughtStops(features: seq<Feature>, k: nat, dataDir: set<string>, process: Feature -> StepOutcome)
    requires k < |features|
    requires Batch(features[..k], dataDir, process).aborted.None?
    requires features[k].id.Some? && features[k].acquired.Some?
    requires features[k].id.value !in Batch(features[..k], dataDir, process).dataDir
    requires process(features[k]).outcome.Fail? && !Caught(process(features[k]).outcome.error)
    ensures Batch(features, dataDir, process).aborted == Some(process(features[k]).outcome.error)
    ensures Batch(features, dataDir, process).invoked == Batch(features[..k], dataDir, process).invoked + [features[k].id.value]
  {
    assert features[..k + 1][..k] == features[..k];
    AbortPersists(features, k + 1, dataDir, process);
  }

  /** Every exception raised by the modelled part of `calculate_ndvi` (a coefficient that is not
      a number, a missing band 3 or 4) is of a class the loop catches. The exceptions of the
      XML and raster reads, which are inputs of the model, are not covered. */
  lemma NdviErrorsCaught(raster: Grid<RawPixel>, nodes: seq<BandNode>)
    requires NdviOf(raster, nodes).Err?
    ensures Caught(NdviOf(raster, nodes).error)
  {
    CoefficientsErrorIff(nodes);
  }

  /** A clip job that succeeds with an empty result list raises IndexError inside the scene's
      processing; that class is not caught, so the batch stops at that scene. */
  lemma EmptyClipResultsStop(features: seq<Feature>, k: nat, dataDir: set<string>, process: Feature -> StepOutcome,
                             resp: Json, links: map<string, Json>)
    requires k < |features|
    requires Batch(features[..k], dataDir, process).aborted.None?
    requires features[k].id.Some? && features[k].acquired.Some?
    requires features[k].id.value !in Batch(features[..k], dataDir, process).dataDir
    requires Get(resp, "_links") == Ok(JObj(links)) && "results" in links && links["results"] == JArr([])
    requires process(features[k]).outcome == Fail(ClipResult(resp).error)
    ensures Batch(features, dataDir, process).aborted == Some(IndexError)
  {
    EmptyResultsIndexError(resp, links);
    UncaughtStops(features, k, dataDir, process);
  }

  /** Three scenes, the second raising ConnectionError: the first and third are processed,
      the second is in `failed`, and the batch is not stopped. */
  lemma ThreeSceneScenario(dataDir: set<string>)
    requires "a" !in dataDir && "b" !in dataDir && "c" !in dataDir
    ensures var fs := [Feature(Some("a"), Some("t1")), Feature(Some("b"), Some("t2")), Feature(Some("c"), Some("t3"))];
      var process := (f: Feature) => if f.id == Some("b") then StepOutcome(Fail(ConnectionError), true)
                                     else StepOutcome(Pass, true);
      Batch(fs, dataDir, process) == BatchState([fs[1]], ["a", "b", "c"], dataDir + {"a", "b", "c"}, None)
  {
    var fs := [Feature(Some("a"), Some("t1")), Feature(Some("b"), Some("t2")), Feature(Some("c"), Some("t3"))];
    var process := (f: Feature) => if f.id == Some("b") then StepOutcome(Fail(ConnectionError), true)
                                   else StepOutcome(Pass, true);
    assert fs[..2][..1] == fs[..1] && fs[..1][..0] == [] && fs[..3] == fs && fs[..3][..2] == fs[..2];
    assert Batch(fs[..1], dataDir, process) == BatchState([], ["a"], dataDir + {"a"}, None);
    assert Batch(fs[..2], dataDir, process) == BatchState([fs[1]], ["a", "b"], dataDir + {"a"} + {"b"}, None);
    assert dataDir + {"a"} + {"b"} + {"c"} == dataDir + {"a", "b", "c"};
  }

  /** The same batch with the second scene raising a class outside the `except` tuple (an
      IndexError, say): the batch stops there and the third scene is never processed. */
  lemma UncaughtScenario(dataDir: set<string>)
    requires "a" !in dataDir && "b" !in dataDir && "c" !in dataDir
    ensures var fs := [Feature(Some("a"), Some("t1")), Feature(Some("b"), Some("t2")), Feature(Some("c"), Some("t3"))];
      var process := (f: Feature) => if f.id == Some("b") then StepOutcome(Fail(IndexError), true)
                                     else StepOutcome(Pass, true);
      Batch(fs, dataDir, process) == BatchState([], ["a", "b"], dataDir + {"a", "b"}, Some(IndexError))
  {
    var fs := [Feature(Some("a"), Some("t1")), Feature(Some("b"), Some("t2")), Feature(Some("c"), Some("t3"))];
    var process := (f: Feature) => if f.id == Some("b") then StepOutcome(Fail(IndexError), true)
                                   else StepOutcome(Pass, true);
    assert fs[..2][..1] == fs[..1] && fs[..1][..0] == [] && fs[..3] == fs && fs[..3][..2] == fs[..2];
    assert Batch(fs[..1], dataDir, process) == BatchState([], ["a"], dataDir + {"a"}, None);
    assert dataDir + {"a"} + {"b"} == dataDir + {"a", "b"};
  }

  /** A feature without an acquisition date that has to be processed stops the batch: the read at
      line 98 raises KeyError, and the handler's own read of the date raises again. */
  lemma MissingDateStops(f: Feature, dataDir: set<string>, process: Feature -> StepOutcome)
    requires f.id.Some? && f.id.value !in dataDir && f.acquired.None?
    ensures Batch([f], dataDir, process) == BatchState([f], [], dataDir, Some(KeyError))
  {
    assert [f][..0] == [];
  }
}
