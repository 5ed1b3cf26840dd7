/**
  The run-group aggregators `trainmerge` and `trainclean`: collect the jobs
  whose `mode` tag is in a given set, group them by their `run` tag (the tag's
  text, in order of first occurrence), and build one aggregate job per run.
*/
module RunGroups {
  import opened Wrappers
  import opened Jobs
  import Text
  import Stages

  /** `trainmerge` collects training outputs; `trainclean` also collects merged ones. */
  const MergeModes: set<string> := {"ana"}
  const CleanModes: set<string> := {"ana", "anamrg"}

  /**
    Every tag the grouping pass reads is present: each job's `mode`, and the
    `run` of each job whose mode is collected. Otherwise the pass raises.
  */
  predicate TagsPresent(js: seq<Job>, modes: set<string>) {
    forall k :: 0 <= k < |js| ==> "mode" in js[k].tags && (js[k].tags["mode"] in modes ==> "run" in js[k].tags)
  }

  /** A job the aggregator groups. */
  predicate Picked(j: Job, modes: set<string>) {
    "mode" in j.tags && j.tags["mode"] in modes && "run" in j.tags
  }

  /** The distinct run keys of the picked jobs, in the order they first occur. */
  function Keys(js: seq<Job>, modes: set<string>): seq<string> {
    if js == [] then [] else
      var ks := Keys(js[..|js| - 1], modes);
      var j := js[|js| - 1];
      if Picked(j, modes) && j.tags["run"] !in ks then ks + [j.tags["run"]] else ks
  }

  /** The picked jobs with run key `key`, in input order. */
  function Members(js: seq<Job>, modes: set<string>, key: string): seq<Job> {
    if js == [] then [] else
      var ms := Members(js[..|js| - 1], modes, key);
      var j := js[|js| - 1];
      if Picked(j, modes) && j.tags["run"] == key then ms + [j] else ms
  }

  /** The aggregate job of one run key: the members' names as edges and the key re-padded to six digits as its run tag. */
  function AggregateJob(ctx: Stages.Ctx, kind: Kind, js: seq<Job>, modes: set<string>, key: string, id: nat): Result<Job, Fault> {
    match Text.ParseInt(key)
    case None => Err(ValueError)
    case Some(run) =>
      Ok(Fresh(ctx.workflow, kind, id).(antecedents := NamesOf(Members(js, modes, key)),
                                        tags := map["run" := Stages.RunTag(run)], cmd := Generated, phase := ctx.phase))
  }

  function AggregateBuild(ctx: Stages.Ctx, kind: Kind, js: seq<Job>, modes: set<string>): (string, nat) -> Result<Job, Fault> {
    (key: string, id: nat) => AggregateJob(ctx, kind, js, modes, key, id)
  }

  /** What an aggregator builds: nothing when a tag is missing, else one job per run key until a key fails to parse. */
  function Aggregate(ctx: Stages.Ctx, kind: Kind, js: seq<Job>, modes: set<string>, id: nat): Built {
    if !TagsPresent(js, modes) then Built([], Some(TagNotFound))
    else Emit(AggregateBuild(ctx, kind, js, modes), Keys(js, modes), id)
  }

  /** The jobs `trainmerge` builds. */
  function MergeByRun(ctx: Stages.Ctx, js: seq<Job>, id: nat): Built {
    Aggregate(ctx, TrainMerge, js, MergeModes, id)
  }

  /** The jobs `trainclean` builds. */
  function CleanByRun(ctx: Stages.Ctx, js: seq<Job>, id: nat): Built {
    Aggregate(ctx, TrainCleanup, js, CleanModes, id)
  }

  /**
    The keys are distinct, and a text is a key exactly when some picked job
    carries it as its run tag.
  */
  lemma {:induction false} KeysSpec(js: seq<Job>, modes: set<string>)
    ensures forall a, b :: 0 <= a < b < |Keys(js, modes)| ==> Keys(js, modes)[a] != Keys(js, modes)[b]
    ensures forall key :: key in Keys(js, modes) <==>
              exists k :: 0 <= k < |js| && Picked(js[k], modes) && js[k].tags["run"] == key
  {
    if js != [] {
      var js' := js[..|js| - 1];
      KeysSpec(js', modes);
      forall key ensures key in Keys(js, modes) <==> exists k :: 0 <= k < |js| && Picked(js[k], modes) && js[k].tags["run"] == key {
        if key in Keys(js', modes) {
          var k :| 0 <= k < |js'| && Picked(js'[k], modes) && js'[k].tags["run"] == key;
          assert js[k] == js'[k];
        }
        if exists k :: 0 <= k < |js| && Picked(js[k], modes) && js[k].tags["run"] == key {
          var k :| 0 <= k < |js| && Picked(js[k], modes) && js[k].tags["run"] == key;
          if k < |js'| {
            assert js'[k] == js[k];
          }
        }
      }
    }
  }

  /** A text that is no run key has an empty group. */
  lemma {:induction false} MembersOfNonKey(js: seq<Job>, modes: set<string>, key: string)
    requires key !in Keys(js, modes)
    ensures Members(js, modes, key) == []
  {
    if js != [] {
      MembersOfNonKey(js[..|js| - 1], modes, key);
    }
  }

  /** The tags, keys and groups of `js[..k + 1]` in terms of those of `js[..k]` and the job `js[k]`. */
  lemma CollectStep(js: seq<Job>, modes: set<string>, k: nat)
    requires k < |js|
    ensures TagsPresent(js[..k + 1], modes) <==>
              TagsPresent(js[..k], modes) && "mode" in js[k].tags && (js[k].tags["mode"] in modes ==> "run" in js[k].tags)
    ensures Keys(js[..k + 1], modes)
            == if Picked(js[k], modes) && js[k].tags["run"] !in Keys(js[..k], modes)
               then Keys(js[..k], modes) + [js[k].tags["run"]] else Keys(js[..k], modes)
    ensures forall key :: Members(js[..k + 1], modes, key)
                          == Members(js[..k], modes, key) + (if Picked(js[k], modes) && js[k].tags["run"] == key then [js[k]] else [])
  {
    assert js[..k + 1][..k] == js[..k];
    assert js[..k + 1][k] == js[k];
  }

  /**
    The first loop of `trainmerge` and `trainclean`: the `runs` dictionary of
    the picked jobs by run tag, with its keys in insertion order. A job
    without a `mode` tag, or a picked one without a `run` tag, raises.
  */
  method CollectRuns(js: seq<Job>, modes: set<string>) returns (keys: seq<string>, runs: map<string, seq<Job>>, fault: Option<Fault>)
    ensures fault.None? <==> TagsPresent(js, modes)
    ensures fault.Some? ==> fault == Some(TagNotFound)
    ensures fault.None? ==> keys == Keys(js, modes)
    ensures fault.None? ==> forall key :: key in runs <==> key in keys
    ensures fault.None? ==> forall key :: key in runs ==> runs[key] == Members(js, modes, key)
  {
    keys, runs := [], map[];
    var k := 0;
    while k < |js|
      invariant k <= |js|
      invariant TagsPresent(js[..k], modes)
      invariant keys == Keys(js[..k], modes)
      invariant forall key :: key in runs <==> key in keys
      invariant forall key :: key in runs ==> runs[key] == Members(js[..k], modes, key)
    {
      var j := js[k];
      CollectStep(js, modes, k);
      if "mode" !in j.tags {
        return keys, runs, Some(TagNotFound);
      }
      if j.tags["mode"] in modes {
        if "run" !in j.tags {
          return keys, runs, Some(TagNotFound);
        }
        var key := j.tags["run"];
        if key !in runs {
          MembersOfNonKey(js[..k], modes, key);
          runs := runs[key := []];
          keys := keys + [key];
        }
        runs := runs[key := runs[key] + [j]];
      }
      k := k + 1;
    }
    assert js[..k] == js;
    fault := None;
  }

  /** The index of the first picked job with run key `key`, or -1 when there is none. */
  function FirstAt(js: seq<Job>, modes: set<string>, key: string): (r: int)
    ensures -1 <= r < |js|
    ensures r >= 0 ==> Picked(js[r], modes) && js[r].tags["run"] == key
    ensures forall h :: 0 <= h < |js| && (r < 0 || h < r) ==> !(Picked(js[h], modes) && js[h].tags["run"] == key)
  {
    if js == [] then -1 else
      var r := FirstAt(js[..|js| - 1], modes, key);
      var j := js[|js| - 1];
      if r >= 0 then r
      else if Picked(j, modes) && j.tags["run"] == key then |js| - 1
      else -1
  }

  /** The keys come in order of first occurrence. */
  lemma {:induction false} KeysFirstOccurrence(js: seq<Job>, modes: set<string>)
    ensures forall a :: 0 <= a < |Keys(js, modes)| ==> FirstAt(js, modes, Keys(js, modes)[a]) >= 0
    ensures forall a, b :: 0 <= a < b < |Keys(js, modes)| ==>
              FirstAt(js, modes, Keys(js, modes)[a]) < FirstAt(js, modes, Keys(js, modes)[b])
  {
    if js != [] {
      var js' := js[..|js| - 1];
      var ks' := Keys(js', modes);
      var ks := Keys(js, modes);
      KeysFirstOccurrence(js', modes);
      // Keys already met in the prefix keep their first index.
      forall a | 0 <= a < |ks'| ensures FirstAt(js, modes, ks'[a]) == FirstAt(js', modes, ks'[a]) {
      }
      if ks != ks' {
        // The last job brought a new key: it first occurs at the last index.
        var key := js[|js| - 1].tags["run"];
        assert ks == ks' + [key];
        KeysSpec(js', modes);
        assert FirstAt(js, modes, key) == |js| - 1;
        assert forall a :: 0 <= a < |ks| - 1 ==> ks[a] == ks'[a];
      }
    }
  }

  /** A job is a member of a key's group exactly when it is a picked input with that run tag. */
  lemma {:induction false} MembersSpec(js: seq<Job>, modes: set<string>, key: string)
    ensures forall j :: j in Members(js, modes, key) <==> j in js && Picked(j, modes) && j.tags["run"] == key
    ensures |Members(js, modes, key)| <= |js|
  {
    if js != [] {
      var js' := js[..|js| - 1];
      MembersSpec(js', modes, key);
      assert js == js' + [js[|js| - 1]];
    }
  }

  /** Every key's group is nonempty, and every picked job lies in the group of its own key. */
  lemma GroupsCoverPicked(js: seq<Job>, modes: set<string>)
    ensures forall key :: key in Keys(js, modes) ==> Members(js, modes, key) != []
    ensures forall k :: 0 <= k < |js| && Picked(js[k], modes) ==>
              js[k].tags["run"] in Keys(js, modes) && js[k] in Members(js, modes, js[k].tags["run"])
  {
    KeysSpec(js, modes);
    forall key | key in Keys(js, modes) ensures Members(js, modes, key) != [] {
      MembersSpec(js, modes, key);
      var k :| 0 <= k < |js| && Picked(js[k], modes) && js[k].tags["run"] == key;
      assert js[k] in Members(js, modes, key);
    }
    forall k | 0 <= k < |js| && Picked(js[k], modes) ensures js[k] in Members(js, modes, js[k].tags["run"]) {
      MembersSpec(js, modes, js[k].tags["run"]);
    }
  }

  /**
    A missing tag raises before any job is built. Otherwise there is one
    aggregate job per run key, in key order, until a key that does not read
    as an integer raises ValueError; each job's edges name its group's
    members, and its run tag reads back as the key's number.
  */
  lemma AggregateShape(ctx: Stages.Ctx, kind: Kind, js: seq<Job>, modes: set<string>, id: nat)
    ensures !TagsPresent(js, modes) ==> Aggregate(ctx, kind, js, modes, id) == Built([], Some(TagNotFound))
    ensures TagsPresent(js, modes) && (forall k :: 0 <= k < |Keys(js, modes)| ==> Text.ParseInt(Keys(js, modes)[k]).Some?) ==>
              Aggregate(ctx, kind, js, modes, id).fault == None && |Aggregate(ctx, kind, js, modes, id).jobs| == |Keys(js, modes)|
    ensures TagsPresent(js, modes) && Aggregate(ctx, kind, js, modes, id).fault.Some? ==>
              Aggregate(ctx, kind, js, modes, id).fault == Some(ValueError)
              && Text.ParseInt(Keys(js, modes)[|Aggregate(ctx, kind, js, modes, id).jobs|]) == None
    ensures forall k :: 0 <= k < |Aggregate(ctx, kind, js, modes, id).jobs| ==>
              var j := Aggregate(ctx, kind, js, modes, id).jobs[k];
              var key := Keys(js, modes)[k];
              j.kind == kind && j.name.serial == id + k
              && j.antecedents == NamesOf(Members(js, modes, key))
              && "run" in j.tags && Text.ParseInt(j.tags["run"]) == Text.ParseInt(key)
  {
    if TagsPresent(js, modes) {
      var ks := Keys(js, modes);
      assert Aggregate(ctx, kind, js, modes, id) == Emit(AggregateBuild(ctx, kind, js, modes), ks, id);
      AggregateOverKeys(ctx, kind, js, modes, ks, id);
    }
  }

  /** Emission over any list of run keys: one job per key until a key that is not a number. */
  lemma AggregateOverKeys(ctx: Stages.Ctx, kind: Kind, js: seq<Job>, modes: set<string>, ks: seq<string>, id: nat)
    ensures (forall k :: 0 <= k < |ks| ==> Text.ParseInt(ks[k]).Some?) ==>
              Emit(AggregateBuild(ctx, kind, js, modes), ks, id).fault == None
    ensures Emit(AggregateBuild(ctx, kind, js, modes), ks, id).fault.Some? ==>
              Emit(AggregateBuild(ctx, kind, js, modes), ks, id).fault == Some(ValueError)
              && Text.ParseInt(ks[|Emit(AggregateBuild(ctx, kind, js, modes), ks, id).jobs|]) == None
    ensures forall k :: 0 <= k < |Emit(AggregateBuild(ctx, kind, js, modes), ks, id).jobs| ==>
              var j := Emit(AggregateBuild(ctx, kind, js, modes), ks, id).jobs[k];
              j.kind == kind && j.name.serial == id + k
              && j.antecedents == NamesOf(Members(js, modes, ks[k]))
              && "run" in j.tags && Text.ParseInt(j.tags["run"]) == Text.ParseInt(ks[k])
  {
    var r := Emit(AggregateBuild(ctx, kind, js, modes), ks, id);
    EmitSpec(AggregateBuild(ctx, kind, js, modes), ks, id);
    if r.fault.Some? {
      AggregateJobReadsBack(ctx, kind, js, modes, ks[|r.jobs|], id + |r.jobs|);
    }
    forall k | 0 <= k < |r.jobs|
      ensures r.jobs[k].kind == kind && r.jobs[k].name.serial == id + k
      ensures r.jobs[k].antecedents == NamesOf(Members(js, modes, ks[k]))
      ensures "run" in r.jobs[k].tags && Text.ParseInt(r.jobs[k].tags["run"]) == Text.ParseInt(ks[k])
    {
      AggregateJobReadsBack(ctx, kind, js, modes, ks[k], id + k);
    }
  }

  lemma AggregateJobReadsBack(ctx: Stages.Ctx, kind: Kind, js: seq<Job>, modes: set<string>, key: string, id: nat)
    ensures AggregateBuild(ctx, kind, js, modes)(key, id).Ok? <==> Text.ParseInt(key).Some?
    ensures AggregateBuild(ctx, kind, js, modes)(key, id).Err? ==> AggregateBuild(ctx, kind, js, modes)(key, id).error == ValueError
    ensures AggregateBuild(ctx, kind, js, modes)(key, id).Ok? ==>
              var j := AggregateBuild(ctx, kind, js, modes)(key, id).value;
              j.kind == kind && j.name.serial == id && j.antecedents == NamesOf(Members(js, modes, key))
              && "run" in j.tags && Text.ParseInt(j.tags["run"]) == Text.ParseInt(key)
  {
    if Text.ParseInt(key).Some? {
      Text.PadRoundTrip(Text.ParseInt(key).value, 6);
    }
  }

  /** A job that does not belong to a collected mode changes neither the keys nor any group. */
  lemma IgnoredJob(js: seq<Job>, j: Job, modes: set<string>, key: string)
    requires !Picked(j, modes)
    ensures Keys(js + [j], modes) == Keys(js, modes)
    ensures Members(js + [j], modes, key) == Members(js, modes, key)
  {
    assert (js + [j])[..|js + [j]| - 1] == js;
  }
}
