/**
  The CLAS12 workflow object: the runs it accepts, the jobs it holds, and the
  stage builders that append jobs to it. Each builder walks its inputs the way
  the workflow does, step by step, and is proved to produce exactly the jobs
  described for that stage in module Stages (or RunGroups), so the properties
  proved there hold of what the workflow records.
*/
module Workflow {
  import opened Wrappers
  import opened Jobs
  import opened Batching
  import Text
  import Stages
  import RunGroups

  /** A stage size from the configuration; the builders divide by or compare against it. */
  type Size = n: int | n >= 1 witness 1

  /** The configuration entries the workflow consults. */
  datatype Config = Config(
    rcdbstrict: bool,
    logDir: Option<string>,
    reconSize: Size,
    trainSize: Size,
    mergeSize: Size,
    decDir: string)

  /** An argument of `addRun`: a Python `int`, or any other type. */
  datatype RunArg = Int(n: int) | NonInt

  /** What `addJob` accepts: one job, or a (possibly nested) list of them. */
  datatype JobTree = One(job: Job) | Many(items: seq<JobTree>)

  /** The jobs of a tree, left to right. */
  function Leaves(t: JobTree): seq<Job>
    decreases t
  {
    match t
    case One(j) => [j]
    case Many(ts) => LeavesOf(ts)
  }

  function LeavesOf(ts: seq<JobTree>): seq<Job>
    decreases ts
  {
    if ts == [] then [] else LeavesOf(ts[..|ts| - 1]) + Leaves(ts[|ts| - 1])
  }

  /** A flat list of jobs, as the builders pass it to `addJob`. */
  function Singles(js: seq<Job>): (r: seq<JobTree>)
    ensures |r| == |js| && forall k :: 0 <= k < |js| ==> r[k] == One(js[k])
  {
    seq(|js|, k requires 0 <= k < |js| => One(js[k]))
  }

  lemma {:induction false} LeavesOfSingles(js: seq<Job>)
    ensures LeavesOf(Singles(js)) == js
    decreases |js|
  {
    if js != [] {
      var js' := js[..|js| - 1];
      assert Singles(js)[..|js| - 1] == Singles(js');
      LeavesOfSingles(js');
    }
  }

  /** A run comment marks the run as junk when it contains "junk" in any letter case. */
  predicate Junk(comment: string) {
    Text.Find(Text.Lower(comment), "junk") >= 0
  }

  /** The run's database comment marks it as junk. */
  predicate JunkRun(userComment: int -> string, run: int) {
    Junk(userComment(run))
  }

  predicate NoDup(s: seq<int>) {
    forall a, b :: 0 <= a < b < |s| ==> s[a] != s[b]
  }

  /** `job.addInputData(x)` for each path `x` in turn. */
  method AddInputData(j: Job, paths: seq<string>) returns (r: Job)
    ensures r == j.(inputs := j.inputs + Files(paths))
  {
    r := j;
    var k := 0;
    while k < |paths|
      invariant 0 <= k <= |paths|
      invariant r == j.(inputs := j.inputs + Files(paths[..k]))
    {
      assert Files(paths[..k + 1]) == Files(paths[..k]) + [File(paths[k])];
      r := r.(inputs := r.inputs + [File(paths[k])]);
      k := k + 1;
    }
    assert paths[..k] == paths;
  }

  /**
    The state a `reconclara` pass keeps between inputs: the open group is
    `s[st..i]`, `inps` its expanded paths and `ants` its job-typed inputs.
  */
  ghost predicate ReconPending(reconSize: int, s: seq<Artifact>, st: nat, i: nat, inps: seq<string>, ants: seq<Job>) {
    st <= i <= |s| && inps == Expand(s[st..i]) && ants == UpstreamJobs(s[st..i])
    && Open(s[st..i], Stages.ReconFull(reconSize))
  }

  /** Taking the next input into the open group. */
  lemma ReconTake(reconSize: int, s: seq<Artifact>, st: nat, i: nat, inps: seq<string>, ants: seq<Job>)
    requires ReconPending(reconSize, s, st, i, inps, ants) && i < |s|
    ensures Minimal(s[st..i + 1], Stages.ReconFull(reconSize))
    ensures Expand(s[st..i + 1]) == inps + Units(s[i])
    ensures UpstreamJobs(s[st..i + 1]) == ants + (if s[i].Upstream? then [s[i].job] else [])
    ensures Stages.ReconFull(reconSize)(s[st..i + 1]) == (|inps + Units(s[i])| >= reconSize)
  {
    OpenStep(s, Stages.ReconFull(reconSize), st, i);
    ExpandStep(s, st, i);
  }

  /** An input that leaves the group short of `reconSize` keeps it open. */
  lemma ReconKeep(reconSize: int, s: seq<Artifact>, st: nat, i: nat, i': nat, inps: seq<string>, ants: seq<Job>)
    requires st <= i < |s| && Minimal(s[st..i + 1], Stages.ReconFull(reconSize)) && i' == i + 1
    requires inps == Expand(s[st..i + 1]) && ants == UpstreamJobs(s[st..i + 1]) && |inps| < reconSize
    ensures ReconPending(reconSize, s, st, i', inps, ants)
  {
  }

  /**
    Closing the group `s[st..i + 1]` with its job: what is built so far
    followed by `reconclara` over the inputs not yet consumed stays the same.
  */
  lemma ReconClose(ctx: Stages.Ctx, reconSize: int, s: seq<Artifact>, st: nat, i: nat, id: nat, built: seq<Job>, job: Job)
    requires st <= i < |s| && Minimal(s[st..i + 1], Stages.ReconFull(reconSize))
    requires i + 1 < |s| ==> |Expand(s[st..i + 1])| >= reconSize
    requires job == Stages.Gathered(ctx, Recon, s[st..i + 1], id)
    ensures After(built, Stages.ReconClara(ctx, reconSize, s[st..], id))
            == After(built + [job], Stages.ReconClara(ctx, reconSize, s[i + 1..], id + 1))
    ensures ReconPending(reconSize, s, i + 1, i + 1, [], [])
  {
    assert i + 1 < |s| ==> Stages.ReconFull(reconSize)(s[st..i + 1]);
    GroupNext(Stages.GatherBuild(ctx, Recon), s, Stages.ReconFull(reconSize), st, i + 1, id);
    AfterAfter(built, [job], Stages.ReconClara(ctx, reconSize, s[i + 1..], id + 1));
    OpenEmpty(s, Stages.ReconFull(reconSize), i + 1);
  }

  /** `ReconClose`, stated over the loop's next state `i'`, `st'`, `id'`, `built'`. */
  lemma ReconNext(ctx: Stages.Ctx, reconSize: int, s: seq<Artifact>, st: nat, i: nat, i': nat, id: nat, built: seq<Job>, job: Job,
                  st': nat, id': nat, built': seq<Job>)
    requires st <= i < |s| && Minimal(s[st..i + 1], Stages.ReconFull(reconSize))
    requires i + 1 < |s| ==> |Expand(s[st..i + 1])| >= reconSize
    requires job == Stages.Gathered(ctx, Recon, s[st..i + 1], id)
    requires i' == i + 1 && st' == i' && id' == id + 1 && built' == built + [job]
    ensures After(built, Stages.ReconClara(ctx, reconSize, s[st..], id))
            == After(built', Stages.ReconClara(ctx, reconSize, s[st'..], id'))
    ensures ReconPending(reconSize, s, st', i', [], [])
  {
    ReconClose(ctx, reconSize, s, st, i, id, built, job);
  }

  /** The `train` flush test on the group `g == s[st..i + 1]`, `w` the weight of the input just added. */
  lemma TrainTest(trainSize: int, reconSize: int, s: seq<Artifact>, st: nat, i: nat, g: seq<Artifact>, w: int)
    requires st <= i < |s| && g == s[st..i + 1] && w == Stages.Weight(s[i], reconSize)
    ensures Stages.TrainFull(trainSize, reconSize)(g) == (|g| * w >= trainSize)
  {
    assert g[|g| - 1] == s[i];
  }

  /** A `train` group closed at input `i`: emission continues after it with the next id. */
  lemma TrainClose(ctx: Stages.Ctx, trainSize: int, reconSize: int, s: seq<Artifact>, st: nat, i: nat, g: seq<Artifact>, w: int,
                   id: nat, built: seq<Job>, job: Job, i': nat, st': nat, id': nat, built': seq<Job>)
    requires st <= i < |s| && g == s[st..i + 1] && Batching.Minimal(g, Stages.TrainFull(trainSize, reconSize))
    requires w == Stages.Weight(s[i], reconSize) && (|g| * w >= trainSize || i >= |s| - 1)
    requires Stages.TrainJob(ctx, g, id) == Ok(job)
    requires i' == i + 1 && st' == i' && id' == id + 1 && built' == built + [job]
    ensures After(built, Emit(Stages.TrainBuild(ctx), Groups(s[st..], Stages.TrainFull(trainSize, reconSize)), id))
            == After(built', Emit(Stages.TrainBuild(ctx), Groups(s[st'..], Stages.TrainFull(trainSize, reconSize)), id'))
  {
    TrainTest(trainSize, reconSize, s, st, i, g, w);
    GroupClose(Stages.TrainBuild(ctx), s, Stages.TrainFull(trainSize, reconSize), st, i + 1, id, built, job, st', id', built');
  }

  class CLAS12Workflow {
    const name: string
    const cfg: Config
    /** The run-condition database's user comment of a run. */
    const userComment: int -> string
    /** Where job logs go: the configured log directory joined with the workflow name, if one is configured. */
    const logDir: Option<string>

    /** The runs handed to the base workflow's `addRun`, in order. */
    var runs: seq<int>
    /** The runs quarantined as junk. */
    var ignored: seq<int>
    /** The workflow's jobs, in the order they were added. */
    var jobs: seq<Job>
    /** The serial number the job factory gives the next job it creates. */
    var nextId: nat
    /** The directories created on the workflow's behalf, in order. */
    var dirs: seq<string>

    /**
      The workflow's standing facts: no run is quarantined twice, only junk
      runs under strict database checking are quarantined, no junk run
      reaches the base workflow under strict checking, and every job carries
      the workflow's log directory.
    */
    predicate Valid()
      reads this`runs, this`ignored, this`jobs
    {
      NoDup(ignored)
      && (!cfg.rcdbstrict ==> ignored == [])
      && (forall k :: 0 <= k < |ignored| ==> JunkRun(userComment, ignored[k]))
      && (cfg.rcdbstrict ==> forall k :: 0 <= k < |runs| ==> !JunkRun(userComment, runs[k]))
      && (forall k :: 0 <= k < |jobs| ==> jobs[k].logDir == logDir)
    }

    /** The run lists and the created directories are as before. */
    twostate predicate Kept()
      reads this
    {
      runs == old(runs) && ignored == old(ignored) && dirs == old(dirs)
    }

    constructor (name: string, cfg: Config, userComment: int -> string, firstId: nat)
      ensures this.name == name && this.cfg == cfg && this.userComment == userComment
      ensures logDir == if cfg.logDir.Some? then Some(cfg.logDir.value + "/" + name) else None
      ensures dirs == if cfg.logDir.Some? then [cfg.logDir.value + "/" + name] else []
      ensures runs == [] && ignored == [] && jobs == [] && nextId == firstId
      ensures Valid()
    {
      this.name := name;
      this.cfg := cfg;
      this.userComment := userComment;
      runs := [];
      jobs := [];
      nextId := firstId;
      if cfg.logDir.Some? {
        var d := cfg.logDir.value + "/" + name;
        logDir := Some(d);
        dirs := [d];
      } else {
        logDir := None;
        dirs := [];
      }
      ignored := [];
    }

    /**
      Accepting a run: a non-integer is ignored; under strict database
      checking a junk run is quarantined (once) instead of accepted; any other
      run is handed to the base workflow.
    */
    method AddRun(run: RunArg)
      requires Valid()
      modifies this
      ensures Valid()
      ensures run.NonInt? ==> runs == old(runs) && ignored == old(ignored)
      ensures run.Int? && cfg.rcdbstrict && JunkRun(userComment, run.n) ==>
                runs == old(runs) && ignored == if run.n in old(ignored) then old(ignored) else old(ignored) + [run.n]
      ensures run.Int? && !(cfg.rcdbstrict && JunkRun(userComment, run.n)) ==>
                runs == old(runs) + [run.n] && ignored == old(ignored)
      ensures jobs == old(jobs) && nextId == old(nextId) && dirs == old(dirs)
    {
      if !run.Int? {
        return;
      }
      if cfg.rcdbstrict {
        var c := userComment(run.n);
        if Text.Find(Text.Lower(c), "junk") >= 0 {
          if run.n !in ignored {
            ignored := ignored + [run.n];
          }
          return;
        }
      }
      runs := runs + [run.n];
    }

    /** Adding a job or a nested list of jobs: every job, left to right, stamped with the log directory. */
    method AddJob(t: JobTree)
      requires Valid()
      modifies this
      ensures Valid()
      ensures jobs == old(jobs) + Stamp(logDir, Leaves(t))
      ensures nextId == old(nextId) && Kept()
      decreases t
    {
      match t
      case One(j) =>
        jobs := jobs + [j.(logDir := logDir)];
      case Many(ts) =>
        var i := 0;
        while i < |ts|
          invariant 0 <= i <= |ts|
          invariant Valid()
          invariant jobs == old(jobs) + Stamp(logDir, LeavesOf(ts[..i]))
          invariant nextId == old(nextId) && Kept()
        {
          assert ts[..i + 1][..i] == ts[..i];
          StampAppend(logDir, LeavesOf(ts[..i]), Leaves(ts[i]));
          AddJob(ts[i]);
          i := i + 1;
        }
        assert ts[..i] == ts;
    }

    /** `addJob` of a flat list: the jobs in order, stamped. */
    method AddJobs(js: seq<Job>)
      requires Valid()
      modifies this
      ensures Valid()
      ensures jobs == old(jobs) + Stamp(logDir, js)
      ensures nextId == old(nextId) && Kept()
    {
      LeavesOfSingles(js);
      AddJob(Many(Singles(js)));
    }

    /** The job factory: a fresh job of the given class, with the next serial number. */
    method NewJob(kind: Kind) returns (j: Job)
      requires Valid()
      modifies this
      ensures Valid()
      ensures j == Fresh(name, kind, old(nextId)) && nextId == old(nextId) + 1
      ensures jobs == old(jobs) && Kept()
    {
      j := Fresh(name, kind, nextId);
      nextId := nextId + 1;
    }

    /**
      The job `reconclara` and `histo` build for a group: a fresh job of the
      given class with the phase set, an edge per job-typed input named, its
      expanded inputs added and its command generated.
    */
    method Gather(kind: Kind, phase: int, ghost g: seq<Artifact>, inps: seq<string>, ants: seq<Job>) returns (job: Job)
      requires Valid() && inps == Expand(g) && ants == UpstreamJobs(g)
      modifies this
      ensures Valid()
      ensures job == Stages.Gathered(Stages.Ctx(name, phase), kind, g, old(nextId))
      ensures nextId == old(nextId) + 1 && jobs == old(jobs) && Kept()
    {
      job := NewJob(kind);
      job := job.(phase := phase);
      if |ants| > 0 {
        job := job.(antecedents := job.antecedents + NamesOf(ants));
      }
      job := AddInputData(job, inps);
      job := job.(cmd := Generated);
    }

    /**
      One pass of the `reconclara` loop: input `ii` joins the open group
      `inputs[st..ii]`, which is closed into a job once its expanded paths
      reach `reconSize` or the last input is taken.
    */
    method ReconStep(phase: int, inputs: seq<Artifact>, ii: nat, inps: seq<string>, ants: seq<Job>, built: seq<Job>,
                     ghost st: nat, ghost id: nat)
      returns (ii': nat, inps': seq<string>, ants': seq<Job>, built': seq<Job>, ghost st': nat, ghost id': nat)
      requires Valid() && ii < |inputs| && nextId == id
      requires ReconPending(cfg.reconSize, inputs, st, ii, inps, ants)
      modifies this
      ensures ii' == ii + 1 && (st' < ii' ==> ii' < |inputs|)
      ensures ReconPending(cfg.reconSize, inputs, st', ii', inps', ants')
      ensures After(built, Stages.ReconClara(Stages.Ctx(name, phase), cfg.reconSize, inputs[st..], id))
              == After(built', Stages.ReconClara(Stages.Ctx(name, phase), cfg.reconSize, inputs[st'..], id'))
      ensures Valid() && jobs == old(jobs) && nextId == id' && id' - id == |built'| - |built| && Kept()
    {
      var inp := inputs[ii];
      ii' := ii + 1;
      ReconTake(cfg.reconSize, inputs, st, ii, inps, ants);
      ants', inps' := ants, inps;
      if inp.Upstream? {
        ants' := ants' + [inp.job];
      }
      inps' := inps' + Units(inp);
      if |inps'| >= cfg.reconSize || ii >= |inputs| - 1 {
        var job := Gather(Recon, phase, inputs[st..ii + 1], inps', ants');
        built' := built + [job];
        inps', ants' := [], [];
        st', id' := ii + 1, id + 1;
        ReconNext(Stages.Ctx(name, phase), cfg.reconSize, inputs, st, ii, ii', id, built, job, st', id', built');
      } else {
        ReconKeep(cfg.reconSize, inputs, st, ii, ii', inps', ants');
        built', st', id' := built, st, id;
      }
    }

    /** `reconclara`: one reconstruction job per group of inputs whose expanded paths reach `reconSize`. */
    method ReconClara(phase: int, inputs: seq<Artifact>) returns (out: seq<Job>)
      requires Valid()
      modifies this
      ensures Valid()
      ensures Stages.ReconClara(Stages.Ctx(name, phase), cfg.reconSize, inputs, old(nextId)).fault == None
      ensures out == Stamp(logDir, Stages.ReconClara(Stages.Ctx(name, phase), cfg.reconSize, inputs, old(nextId)).jobs)
      ensures jobs == old(jobs) + out && nextId == old(nextId) + |out| && Kept()
    {
      ghost var ctx := Stages.Ctx(name, phase);
      ghost var id0: nat := nextId;
      ghost var st: nat := 0;
      var inps: seq<string> := [];
      var ants: seq<Job> := [];
      var built: seq<Job> := [];
      OpenEmpty(inputs, Stages.ReconFull(cfg.reconSize), 0);
      GroupsStart(Stages.GatherBuild(ctx, Recon), inputs, Stages.ReconFull(cfg.reconSize), id0);
      ghost var id: nat := id0;
      var ii := 0;
      while ii < |inputs|
        invariant ii <= |inputs| && (st < ii ==> ii < |inputs|)
        invariant ReconPending(cfg.reconSize, inputs, st, ii, inps, ants)
        invariant Stages.ReconClara(ctx, cfg.reconSize, inputs, id0)
                  == After(built, Stages.ReconClara(ctx, cfg.reconSize, inputs[st..], id))
        invariant Valid() && jobs == old(jobs) && nextId == id && id == id0 + |built| && Kept()
      {
        ii, inps, ants, built, st, id := ReconStep(phase, inputs, ii, inps, ants, built, st, id);
      }
      GroupsEnd(Stages.GatherBuild(ctx, Recon), inputs, Stages.ReconFull(cfg.reconSize), st, id, built);
      AddJobs(built);
      out := Stamp(logDir, built);
    }

    /** `histo`: one histogram job over all the inputs, for no input too. */
    method Histo(phase: int, inputs: seq<Artifact>) returns (out: seq<Job>)
      requires Valid()
      modifies this
      ensures Valid()
      ensures out == Stamp(logDir, [Stages.HistoJob(Stages.Ctx(name, phase), inputs, old(nextId))])
      ensures jobs == old(jobs) + out && nextId == old(nextId) + 1 && Kept()
    {
      var inps: seq<string> := [];
      var ants: seq<Job> := [];
      var ii := 0;
      while ii < |inputs|
        invariant ii <= |inputs|
        invariant inps == Expand(inputs[..ii]) && ants == UpstreamJobs(inputs[..ii])
        invariant Valid() && jobs == old(jobs) && nextId == old(nextId) && Kept()
      {
        var inp := inputs[ii];
        ExpandPrefix(inputs, ii);
        if inp.Upstream? {
          ants := ants + [inp.job];
          inps := inps + inp.job.outputs;
        } else {
          inps := inps + [inp.path];
        }
        ii := ii + 1;
      }
      assert inputs[..ii] == inputs;
      var job := Gather(Kind.Histo, phase, inputs, inps, ants);
      AddJobs([job]);
      out := Stamp(logDir, [job]);
    }

    /** One `decode` job: the input file, or the upstream job's first output with its name as the edge. */
    method DecodeOne(phase: int, inp: Artifact) returns (r: Result<Job, Fault>)
      requires Valid()
      modifies this
      ensures Valid()
      ensures r == Stages.DecodeJob(Stages.Ctx(name, phase), inp, old(nextId))
      ensures nextId == old(nextId) + 1 && jobs == old(jobs) && Kept()
    {
      var job := NewJob(Decoding);
      job := job.(phase := phase);
      if inp.Upstream? {
        if |inp.job.outputs| == 0 {
          return Err(IndexError);
        }
        job := job.(inputs := job.inputs + [File(inp.job.outputs[0])]);
        job := job.(antecedents := job.antecedents + [Named(inp.job.name)]);
        assert job.inputs == [File(inp.job.outputs[0])] && job.antecedents == [Named(inp.job.name)];
      } else {
        job := job.(inputs := job.inputs + [File(inp.path)]);
        assert job.inputs == [File(inp.path)];
      }
      job := job.(cmd := Generated);
      r := Ok(job);
    }

    /**
      `decode`: one job per input, each added as it is built. An exception
      ends the pass; the jobs added before it stay.
    */
    method Decode(phase: int, inputs: seq<Artifact>) returns (out: seq<Job>, fault: Option<Fault>)
      requires Valid()
      modifies this
      ensures Valid()
      ensures fault == Stages.DecodeStage(Stages.Ctx(name, phase), inputs, old(nextId)).fault
      ensures out == Stamp(logDir, Stages.DecodeStage(Stages.Ctx(name, phase), inputs, old(nextId)).jobs)
      ensures jobs == old(jobs) + out && nextId == old(nextId) + |out| + (if fault.Some? then 1 else 0) && Kept()
    {
      ghost var ctx := Stages.Ctx(name, phase);
      ghost var id0: nat := nextId;
      ghost var id: nat := id0;
      var built: seq<Job> := [];
      assert inputs[0..] == inputs;
      var ii := 0;
      while ii < |inputs|
        invariant ii <= |inputs|
        invariant Stages.DecodeStage(ctx, inputs, id0) == After(built, Emit(Stages.DecodeBuild(ctx), inputs[ii..], id))
        invariant Valid() && jobs == old(jobs) + Stamp(logDir, built) && nextId == id && id == id0 + |built| && Kept()
      {
        ghost var (i0, id1, built0) := (ii, id, built);
        var r := DecodeOne(phase, inputs[ii]);
        if r.Err? {
          EmitFail(Stages.DecodeBuild(ctx), inputs, i0, id1, built0, r.error);
          fault := Some(r.error);
          out := Stamp(logDir, built);
          return;
        }
        var job := r.value;
        AddJobs([job]);
        built := built + [job];
        StampExtend(logDir, old(jobs), built0, [job]);
        ii, id := ii + 1, id + 1;
        EmitAdvance(Stages.DecodeBuild(ctx), inputs, i0, id1, built0, job, ii, id, built);
      }
      EmitEnd(Stages.DecodeBuild(ctx), inputs, id, built);
      fault := None;
      out := Stamp(logDir, built);
    }

    /**
      The `train` job of a group: with a job-typed first element, every
      element's outputs become inputs and its name an edge, and a file among
      them raises AttributeError; otherwise the group is the input list.
    */
    method TrainOne(phase: int, g: seq<Artifact>) returns (r: Result<Job, Fault>)
      requires Valid() && g != []
      modifies this
      ensures Valid()
      ensures r == Stages.TrainJob(Stages.Ctx(name, phase), g, old(nextId))
      ensures nextId == old(nextId) + 1 && jobs == old(jobs) && Kept()
    {
      var job := NewJob(Kind.Train);
      job := job.(phase := phase);
      ghost var j0 := job;
      if g[0].Upstream? {
        var k := 0;
        while k < |g|
          invariant k <= |g| && forall m :: 0 <= m < k ==> g[m].Upstream?
          invariant job == j0.(inputs := Files(Expand(g[..k])), antecedents := UpstreamNames(g[..k]))
          invariant Valid() && nextId == old(nextId) + 1 && jobs == old(jobs) && Kept()
        {
          if !g[k].Upstream? {
            return Err(AttributeError);
          }
          ExpandPrefix(g, k);
          FilesAppend(Expand(g[..k]), g[k].job.outputs);
          NamesAppend(UpstreamJobs(g[..k]), [g[k].job]);
          job := job.(inputs := job.inputs + Files(g[k].job.outputs));
          job := job.(antecedents := job.antecedents + [Named(g[k].job.name)]);
          k := k + 1;
        }
        assert g[..k] == g;
      } else {
        job := job.(inputs := job.inputs + g);
        assert job.inputs == g;
      }
      job := job.(cmd := Generated);
      r := Ok(job);
    }

    /** The flush of `train`: the closed group `g == inputs[st..i']` is built and added. */
    method TrainEmit(phase: int, inputs: seq<Artifact>, ghost st: nat, ii: nat, ghost i': nat, g: seq<Artifact>, ghost w: int,
                     built: seq<Job>, ghost id: nat)
      returns (built': seq<Job>, fault: Option<Fault>, ghost id': nat, ghost added: seq<Job>)
      requires Valid() && nextId == id && st <= ii < |inputs| && i' == ii + 1
      requires g == inputs[st..ii + 1] && Minimal(g, Stages.TrainFull(cfg.trainSize, cfg.reconSize))
      requires w == Stages.Weight(inputs[ii], cfg.reconSize) && (|g| * w >= cfg.trainSize || ii >= |inputs| - 1)
      modifies this
      ensures built' == built + added && (fault.Some? ==> added == [])
      ensures fault.None? ==>
                After(built, Emit(Stages.TrainBuild(Stages.Ctx(name, phase)), Groups(inputs[st..], Stages.TrainFull(cfg.trainSize, cfg.reconSize)), id))
                == After(built', Emit(Stages.TrainBuild(Stages.Ctx(name, phase)), Groups(inputs[i'..], Stages.TrainFull(cfg.trainSize, cfg.reconSize)), id'))
      ensures fault.Some? ==>
                After(built, Emit(Stages.TrainBuild(Stages.Ctx(name, phase)), Groups(inputs[st..], Stages.TrainFull(cfg.trainSize, cfg.reconSize)), id))
                == Built(built', fault)
      ensures Valid() && jobs == old(jobs) + Stamp(logDir, added) && Kept()
      ensures nextId == id' && id' == id + 1 && (fault.None? ==> |added| == 1)
    {
      ghost var ctx := Stages.Ctx(name, phase);
      var r := TrainOne(phase, g);
      if r.Err? {
        TrainTest(cfg.trainSize, cfg.reconSize, inputs, st, ii, g, w);
        GroupCloseFail(Stages.TrainBuild(ctx), inputs, Stages.TrainFull(cfg.trainSize, cfg.reconSize), st, i', id, built, r.error);
        built', fault, id', added := built, Some(r.error), id + 1, [];
        return;
      }
      var job := r.value;
      AddJobs([job]);
      built', added := built + [job], [job];
      id', fault := id + 1, None;
      TrainClose(ctx, cfg.trainSize, cfg.reconSize, inputs, st, ii, g, w, id, built, job, i', i', id', built');
    }

    /**
      One input of `train`: it joins the open group, which is built and added
      once its length times the input's weight reaches `trainSize`, or at the
      last input.
    */
    method TrainStep(phase: int, inputs: seq<Artifact>, ii: nat, inps: seq<Artifact>, built: seq<Job>, ghost st: nat, ghost id: nat)
      returns (ii': nat, inps': seq<Artifact>, built': seq<Job>, fault: Option<Fault>, ghost st': nat, ghost id': nat, ghost added: seq<Job>)
      requires Valid() && st <= ii < |inputs| && nextId == id
      requires inps == inputs[st..ii] && Open(inps, Stages.TrainFull(cfg.trainSize, cfg.reconSize))
      modifies this
      ensures ii' == ii + 1 && st' <= ii' && (fault.None? && st' < ii' ==> ii' < |inputs|)
      ensures fault.None? ==> inps' == inputs[st'..ii'] && Open(inps', Stages.TrainFull(cfg.trainSize, cfg.reconSize))
      ensures built' == built + added && (fault.Some? ==> added == [])
      ensures fault.None? ==>
                After(built, Emit(Stages.TrainBuild(Stages.Ctx(name, phase)), Groups(inputs[st..], Stages.TrainFull(cfg.trainSize, cfg.reconSize)), id))
                == After(built', Emit(Stages.TrainBuild(Stages.Ctx(name, phase)), Groups(inputs[st'..], Stages.TrainFull(cfg.trainSize, cfg.reconSize)), id'))
      ensures fault.Some? ==>
                After(built, Emit(Stages.TrainBuild(Stages.Ctx(name, phase)), Groups(inputs[st..], Stages.TrainFull(cfg.trainSize, cfg.reconSize)), id))
                == Built(built', fault)
      ensures Valid() && jobs == old(jobs) + Stamp(logDir, added) && Kept()
      ensures nextId == id' && (fault.None? ==> id' == id + |added|) && (fault.Some? ==> id' == id + 1)
    {
      ghost var ctx := Stages.Ctx(name, phase);
      var inp := inputs[ii];
      ii' := ii + 1;
      OpenTake(inputs, Stages.TrainFull(cfg.trainSize, cfg.reconSize), st, ii, inps);
      inps' := inps + [inp];
      var w := 1;
      if inp.Upstream? {
        w := cfg.reconSize;
      }
      assert w == Stages.Weight(inp, cfg.reconSize);
      TrainTest(cfg.trainSize, cfg.reconSize, inputs, st, ii, inps', w);
      if |inps'| * w >= cfg.trainSize || ii >= |inputs| - 1 {
        built', fault, id', added := TrainEmit(phase, inputs, st, ii, ii', inps', w, built, id);
        st' := if fault.None? then ii' else st;
        if fault.None? {
          inps' := [];
          OpenEmpty(inputs, Stages.TrainFull(cfg.trainSize, cfg.reconSize), ii');
        }
      } else {
        OpenKeep(inputs, Stages.TrainFull(cfg.trainSize, cfg.reconSize), st, ii, ii', inps');
        built', fault, st', id', added := built, None, st, id, [];
      }
    }

    /**
      `train`: groups close once their length times the weight of the input
      just added reaches `trainSize` (a job weighs `reconSize`, a file 1), or
      at the last input; each job is added as it is built. An exception ends
      the pass; the jobs added before it stay.
    */
    method Train(phase: int, inputs: seq<Artifact>) returns (out: seq<Job>, fault: Option<Fault>)
      requires Valid()
      modifies this
      ensures Valid()
      ensures fault == Stages.TrainStage(Stages.Ctx(name, phase), cfg.trainSize, cfg.reconSize, inputs, old(nextId)).fault
      ensures out == Stamp(logDir, Stages.TrainStage(Stages.Ctx(name, phase), cfg.trainSize, cfg.reconSize, inputs, old(nextId)).jobs)
      ensures jobs == old(jobs) + out && nextId == old(nextId) + |out| + (if fault.Some? then 1 else 0) && Kept()
    {
      ghost var ctx := Stages.Ctx(name, phase);
      ghost var id0: nat := nextId;
      ghost var id: nat := id0;
      ghost var st: nat := 0;
      var inps: seq<Artifact> := [];
      var built: seq<Job> := [];
      OpenEmpty(inputs, Stages.TrainFull(cfg.trainSize, cfg.reconSize), 0);
      assert inputs[0..] == inputs;
      var ii := 0;
      while ii < |inputs|
        invariant st <= ii <= |inputs| && (st < ii ==> ii < |inputs|)
        invariant inps == inputs[st..ii] && Open(inps, Stages.TrainFull(cfg.trainSize, cfg.reconSize))
        invariant Stages.TrainStage(ctx, cfg.trainSize, cfg.reconSize, inputs, id0)
                  == After(built, Emit(Stages.TrainBuild(ctx), Groups(inputs[st..], Stages.TrainFull(cfg.trainSize, cfg.reconSize)), id))
        invariant Valid() && jobs == old(jobs) + Stamp(logDir, built) && nextId == id && id == id0 + |built| && Kept()
      {
        ghost var built0 := built;
        ghost var added: seq<Job>;
        var f: Option<Fault>;
        ii, inps, built, f, st, id, added := TrainStep(phase, inputs, ii, inps, built, st, id);
        StampExtend(logDir, old(jobs), built0, added);
        if f.Some? {
          fault := f;
          out := Stamp(logDir, built);
          return;
        }
      }
      GroupsEnd(Stages.TrainBuild(ctx), inputs, Stages.TrainFull(cfg.trainSize, cfg.reconSize), st, id, built);
      fault := None;
      out := Stamp(logDir, built);
    }

    /** The job `merge` builds for one group (a job-typed first element selects first outputs and object edges). */
    method MergeOne(phase: int, g: seq<Artifact>) returns (r: Result<Job, Fault>)
      requires Valid() && g != []
      modifies this
      ensures Valid()
      ensures r == Stages.MergeJob(Stages.Ctx(name, phase), g, old(nextId))
      ensures nextId == old(nextId) + 1 && jobs == old(jobs) && Kept()
    {
      var job := NewJob(Merging);
      job := job.(phase := phase);
      if g[0].Upstream? {
        var hs := Stages.Heads(g);
        if hs.Err? {
          return Err(hs.error);
        }
        job := job.(inputs := job.inputs + Files(hs.value));
        job := job.(antecedents := job.antecedents + ObjectsOf(UpstreamJobs(g)));
        assert job.inputs == Files(hs.value) && job.antecedents == ObjectsOf(UpstreamJobs(g));
      } else {
        job := job.(inputs := job.inputs + g);
        assert job.inputs == g;
      }
      r := Ok(job);
    }

    /** The job `decodemerge` builds for one group: a job-typed first element raises NotImplementedError. */
    method DecodeMergeOne(phase: int, g: seq<Artifact>) returns (r: Result<Job, Fault>)
      requires Valid() && g != []
      modifies this
      ensures Valid()
      ensures r == Stages.DecodeMergeJob(Stages.Ctx(name, phase), g, old(nextId))
      ensures nextId == old(nextId) + 1 && jobs == old(jobs) && Kept()
    {
      var job := NewJob(DecodeAndMerge);
      job := job.(phase := phase);
      if g[0].Upstream? {
        return Err(NotImplementedError);
      }
      job := job.(inputs := job.inputs + g);
      assert job.inputs == g;
      r := Ok(job);
    }

    /** The flush of `merge` or `decodemerge`: the closed group `g == inputs[st..i']` is built and added. */
    method MergeEmit(kind: Kind, phase: int, inputs: seq<Artifact>, ghost st: nat, ghost ii: nat, ghost i': nat, g: seq<Artifact>,
                     built: seq<Job>, ghost id: nat)
      returns (built': seq<Job>, fault: Option<Fault>, ghost id': nat, ghost added: seq<Job>)
      requires Valid() && nextId == id && st <= ii < |inputs| && i' == ii + 1 && (kind == Merging || kind == DecodeAndMerge)
      requires g == inputs[st..ii + 1] && Minimal(g, AtLeast(cfg.mergeSize)) && (|g| >= cfg.mergeSize || ii >= |inputs| - 1)
      modifies this
      ensures built' == built + added && (fault.Some? ==> added == [])
      ensures fault.None? ==>
                After(built, Emit(Stages.MergingBuild(Stages.Ctx(name, phase), kind), Groups(inputs[st..], AtLeast(cfg.mergeSize)), id))
                == After(built', Emit(Stages.MergingBuild(Stages.Ctx(name, phase), kind), Groups(inputs[i'..], AtLeast(cfg.mergeSize)), id'))
      ensures fault.Some? ==>
                After(built, Emit(Stages.MergingBuild(Stages.Ctx(name, phase), kind), Groups(inputs[st..], AtLeast(cfg.mergeSize)), id))
                == Built(built', fault)
      ensures Valid() && jobs == old(jobs) + Stamp(logDir, added) && Kept()
      ensures nextId == id' && id' == id + 1 && (fault.None? ==> |added| == 1)
    {
      ghost var build := Stages.MergingBuild(Stages.Ctx(name, phase), kind);
      var r;
      if kind == Merging {
        r := MergeOne(phase, g);
      } else {
        r := DecodeMergeOne(phase, g);
      }
      assert r == build(g, id);
      if r.Err? {
        GroupCloseAtFail(build, inputs, AtLeast(cfg.mergeSize), st, ii, g, id, built, r.error);
        built', fault, id', added := built, Some(r.error), id + 1, [];
        return;
      }
      var job := r.value;
      AddJobs([job]);
      built', added := built + [job], [job];
      id', fault := id + 1, None;
      GroupCloseAt(build, inputs, AtLeast(cfg.mergeSize), st, ii, g, id, built, job, i', i', id', built');
    }

    /** One input of `merge` or `decodemerge`: it joins the open group, which is flushed at `mergeSize` inputs or at the last input. */
    method MergeStep(kind: Kind, phase: int, inputs: seq<Artifact>, ii: nat, inps: seq<Artifact>, built: seq<Job>, ghost st: nat, ghost id: nat)
      returns (ii': nat, inps': seq<Artifact>, built': seq<Job>, fault: Option<Fault>, ghost st': nat, ghost id': nat, ghost added: seq<Job>)
      requires Valid() && st <= ii < |inputs| && nextId == id && (kind == Merging || kind == DecodeAndMerge)
      requires inps == inputs[st..ii] && Open(inps, AtLeast(cfg.mergeSize))
      modifies this
      ensures ii' == ii + 1 && st' <= ii' && (fault.None? && st' < ii' ==> ii' < |inputs|)
      ensures fault.None? ==> inps' == inputs[st'..ii'] && Open(inps', AtLeast(cfg.mergeSize))
      ensures built' == built + added && (fault.Some? ==> added == [])
      ensures fault.None? ==>
                After(built, Emit(Stages.MergingBuild(Stages.Ctx(name, phase), kind), Groups(inputs[st..], AtLeast(cfg.mergeSize)), id))
                == After(built', Emit(Stages.MergingBuild(Stages.Ctx(name, phase), kind), Groups(inputs[st'..], AtLeast(cfg.mergeSize)), id'))
      ensures fault.Some? ==>
                After(built, Emit(Stages.MergingBuild(Stages.Ctx(name, phase), kind), Groups(inputs[st..], AtLeast(cfg.mergeSize)), id))
                == Built(built', fault)
      ensures Valid() && jobs == old(jobs) + Stamp(logDir, added) && Kept()
      ensures nextId == id' && (fault.None? ==> id' == id + |added|) && (fault.Some? ==> id' == id + 1)
    {
      var inp := inputs[ii];
      ii' := ii + 1;
      OpenTake(inputs, AtLeast(cfg.mergeSize), st, ii, inps);
      inps' := inps + [inp];
      if |inps'| >= cfg.mergeSize || ii >= |inputs| - 1 {
        built', fault, id', added := MergeEmit(kind, phase, inputs, st, ii, ii', inps', built, id);
        st' := if fault.None? then ii' else st;
        if fault.None? {
          inps' := [];
          OpenEmpty(inputs, AtLeast(cfg.mergeSize), ii');
        }
      } else {
        OpenKeep(inputs, AtLeast(cfg.mergeSize), st, ii, ii', inps');
        built', fault, st', id', added := built, None, st, id, [];
      }
    }

    /** The batching loop shared by `merge` and `decodemerge`; each job is added as it is built. */
    method MergeLoop(kind: Kind, phase: int, inputs: seq<Artifact>) returns (out: seq<Job>, fault: Option<Fault>)
      requires Valid() && (kind == Merging || kind == DecodeAndMerge)
      modifies this
      ensures Valid()
      ensures fault == Emit(Stages.MergingBuild(Stages.Ctx(name, phase), kind), Groups(inputs, AtLeast(cfg.mergeSize)), old(nextId)).fault
      ensures out == Stamp(logDir, Emit(Stages.MergingBuild(Stages.Ctx(name, phase), kind), Groups(inputs, AtLeast(cfg.mergeSize)), old(nextId)).jobs)
      ensures jobs == old(jobs) + out && nextId == old(nextId) + |out| + (if fault.Some? then 1 else 0) && Kept()
    {
      ghost var build := Stages.MergingBuild(Stages.Ctx(name, phase), kind);
      ghost var id0: nat := nextId;
      ghost var id: nat := id0;
      ghost var st: nat := 0;
      var inps: seq<Artifact> := [];
      var built: seq<Job> := [];
      OpenEmpty(inputs, AtLeast(cfg.mergeSize), 0);
      assert inputs[0..] == inputs;
      var ii := 0;
      while ii < |inputs|
        invariant st <= ii <= |inputs| && (st < ii ==> ii < |inputs|)
        invariant inps == inputs[st..ii] && Open(inps, AtLeast(cfg.mergeSize))
        invariant Emit(build, Groups(inputs, AtLeast(cfg.mergeSize)), id0)
                  == After(built, Emit(build, Groups(inputs[st..], AtLeast(cfg.mergeSize)), id))
        invariant Valid() && jobs == old(jobs) + Stamp(logDir, built) && nextId == id && id == id0 + |built| && Kept()
      {
        ghost var built0 := built;
        ghost var added: seq<Job>;
        var f: Option<Fault>;
        ii, inps, built, f, st, id, added := MergeStep(kind, phase, inputs, ii, inps, built, st, id);
        StampExtend(logDir, old(jobs), built0, added);
        if f.Some? {
          fault := f;
          out := Stamp(logDir, built);
          return;
        }
      }
      GroupsEnd(build, inputs, AtLeast(cfg.mergeSize), st, id, built);
      fault := None;
      out := Stamp(logDir, built);
    }

    /** `merge`: one merging job per `mergeSize` inputs, the last taking what remains. */
    method Merge(phase: int, inputs: seq<Artifact>) returns (out: seq<Job>, fault: Option<Fault>)
      requires Valid()
      modifies this
      ensures Valid()
      ensures fault == Stages.MergeStage(Stages.Ctx(name, phase), cfg.mergeSize, inputs, old(nextId)).fault
      ensures out == Stamp(logDir, Stages.MergeStage(Stages.Ctx(name, phase), cfg.mergeSize, inputs, old(nextId)).jobs)
      ensures jobs == old(jobs) + out && nextId == old(nextId) + |out| + (if fault.Some? then 1 else 0) && Kept()
    {
      out, fault := MergeLoop(Merging, phase, inputs);
    }

    /** `decodemerge`: one decode-and-merge job per `mergeSize` file inputs; a job-typed group raises NotImplementedError. */
    method DecodeMerge(phase: int, inputs: seq<Artifact>) returns (out: seq<Job>, fault: Option<Fault>)
      requires Valid()
      modifies this
      ensures Valid()
      ensures fault == Stages.DecodeMergeStage(Stages.Ctx(name, phase), cfg.mergeSize, inputs, old(nextId)).fault
      ensures out == Stamp(logDir, Stages.DecodeMergeStage(Stages.Ctx(name, phase), cfg.mergeSize, inputs, old(nextId)).jobs)
      ensures jobs == old(jobs) + out && nextId == old(nextId) + |out| + (if fault.Some? then 1 else 0) && Kept()
    {
      out, fault := MergeLoop(DecodeAndMerge, phase, inputs);
    }

    /** The aggregate job of one run: an edge per member name, then the run tag re-read as an integer and padded to six digits. */
    method AggregateOne(kind: Kind, phase: int, ghost js: seq<Job>, ghost modes: set<string>, key: string, ms: seq<Job>)
      returns (r: Result<Job, Fault>)
      requires Valid() && ms == RunGroups.Members(js, modes, key)
      modifies this
      ensures Valid()
      ensures r == RunGroups.AggregateJob(Stages.Ctx(name, phase), kind, js, modes, key, old(nextId))
      ensures nextId == old(nextId) + 1 && jobs == old(jobs) && Kept()
    {
      var job := NewJob(kind);
      var m := 0;
      while m < |ms|
        invariant m <= |ms| && job == Fresh(name, kind, old(nextId)).(antecedents := NamesOf(ms[..m]))
        invariant Valid() && nextId == old(nextId) + 1 && jobs == old(jobs) && Kept()
      {
        job := job.(antecedents := job.antecedents + [Named(ms[m].name)]);
        assert NamesOf(ms[..m + 1]) == NamesOf(ms[..m]) + [Named(ms[m].name)];
        m := m + 1;
      }
      assert ms[..m] == ms;
      var run := Text.ParseInt(key);
      if run.None? {
        return Err(ValueError);
      }
      job := job.(tags := job.tags["run" := Stages.RunTag(run.value)]);
      job := job.(cmd := Generated);
      job := job.(phase := phase);
      assert job.tags == map["run" := Stages.RunTag(run.value)];
      r := Ok(job);
    }

    /** The shared body of `trainmerge` and `trainclean`: collect the runs, then one job per run, each added as it is built. */
    method AggregateRuns(kind: Kind, modes: set<string>, phase: int, js: seq<Job>) returns (out: seq<Job>, fault: Option<Fault>)
      requires Valid()
      modifies this
      ensures Valid()
      ensures fault == RunGroups.Aggregate(Stages.Ctx(name, phase), kind, js, modes, old(nextId)).fault
      ensures out == Stamp(logDir, RunGroups.Aggregate(Stages.Ctx(name, phase), kind, js, modes, old(nextId)).jobs)
      ensures jobs == old(jobs) + out && nextId == old(nextId) + |out| + (if fault == Some(ValueError) then 1 else 0) && Kept()
    {
      var keys, runs, f := RunGroups.CollectRuns(js, modes);
      if f.Some? {
        return [], f;
      }
      ghost var ctx := Stages.Ctx(name, phase);
      ghost var build := RunGroups.AggregateBuild(ctx, kind, js, modes);
      ghost var id0: nat := nextId;
      ghost var id: nat := id0;
      var built: seq<Job> := [];
      assert RunGroups.Aggregate(ctx, kind, js, modes, id0) == Emit(build, keys, id0);
      assert keys[0..] == keys && [] + Emit(build, keys, id0).jobs == Emit(build, keys, id0).jobs;
      var ii := 0;
      while ii < |keys|
        invariant ii <= |keys|
        invariant RunGroups.Aggregate(ctx, kind, js, modes, id0) == After(built, Emit(build, keys[ii..], id))
        invariant Valid() && jobs == old(jobs) + Stamp(logDir, built) && nextId == id && id == id0 + |built| && Kept()
      {
        ghost var (i0, id1, built0) := (ii, id, built);
        var r := AggregateOne(kind, phase, js, modes, keys[ii], runs[keys[ii]]);
        if r.Err? {
          EmitFail(build, keys, i0, id1, built0, r.error);
          fault := Some(r.error);
          out := Stamp(logDir, built);
          return;
        }
        var job := r.value;
        AddJobs([job]);
        built := built + [job];
        StampExtend(logDir, old(jobs), built0, [job]);
        ii, id := ii + 1, id + 1;
        EmitAdvance(build, keys, i0, id1, built0, job, ii, id, built);
      }
      EmitEnd(build, keys, id, built);
      fault := None;
      out := Stamp(logDir, built);
    }

    /** `trainmerge`: one merge job per run of the `ana`-mode jobs. */
    method TrainMerge(phase: int, js: seq<Job>) returns (out: seq<Job>, fault: Option<Fault>)
      requires Valid()
      modifies this
      ensures Valid()
      ensures fault == RunGroups.MergeByRun(Stages.Ctx(name, phase), js, old(nextId)).fault
      ensures out == Stamp(logDir, RunGroups.MergeByRun(Stages.Ctx(name, phase), js, old(nextId)).jobs)
      ensures jobs == old(jobs) + out && nextId == old(nextId) + |out| + (if fault == Some(ValueError) then 1 else 0) && Kept()
    {
      out, fault := AggregateRuns(Kind.TrainMerge, RunGroups.MergeModes, phase, js);
    }

    /** `trainclean`: one cleanup job per run of the `ana`- and `anamrg`-mode jobs. */
    method TrainClean(phase: int, js: seq<Job>) returns (out: seq<Job>, fault: Option<Fault>)
      requires Valid()
      modifies this
      ensures Valid()
      ensures fault == RunGroups.CleanByRun(Stages.Ctx(name, phase), js, old(nextId)).fault
      ensures out == Stamp(logDir, RunGroups.CleanByRun(Stages.Ctx(name, phase), js, old(nextId)).jobs)
      ensures jobs == old(jobs) + out && nextId == old(nextId) + |out| + (if fault == Some(ValueError) then 1 else 0) && Kept()
    {
      out, fault := AggregateRuns(TrainCleanup, RunGroups.CleanModes, phase, js);
    }

    /** One job of `jput` hands over its files: to a new archive job when there is none or the last holds more than 30. */
    method JputStep(phase: int, ret: seq<Job>, ghost bs: seq<seq<string>>, c: seq<string>, ghost id0: nat)
      returns (ret': seq<Job>, ghost bs': seq<seq<string>>)
      requires Valid() && nextId == id0 + |ret| && Stages.Archives(Stages.Ctx(name, phase), ret, bs, id0)
      modifies this
      ensures bs' == Stages.Handed(bs, c) && Stages.Archives(Stages.Ctx(name, phase), ret', bs', id0)
      ensures Valid() && jobs == old(jobs) && nextId == id0 + |ret'| && Kept()
    {
      ghost var ctx := Stages.Ctx(name, phase);
      ghost var b1 := bs;
      var r1 := ret;
      var opening := |ret| == 0 || |ret[|ret| - 1].jputfiles| > Stages.JputLimit;
      assert opening == (bs == [] || |bs[|bs| - 1]| > Stages.JputLimit) by {
        if ret != [] {
          assert ret[|ret| - 1].jputfiles == bs[|bs| - 1];
        }
      }
      if opening {
        var j := NewJob(Kind.Jput);
        j := j.(phase := phase);
        Stages.ArchivesOpen(ctx, ret, bs, id0, j);
        r1 := ret + [j];
        b1 := bs + [[]];
      }
      var last := r1[|r1| - 1];
      ret' := r1[..|r1| - 1] + [last.(jputfiles := last.jputfiles + c)];
      bs' := b1[..|b1| - 1] + [b1[|b1| - 1] + c];
      Stages.HandedLast(bs, c, opening, b1, bs');
      Stages.ArchivesFill(ctx, r1, b1, id0, c, ret', bs');
    }

    /**
      `jput`: archive jobs for the files the given jobs hand over (`files`
      stands for what `addJputs` collects from a job). A new archive job is
      opened for the first job and whenever the current one holds more than
      30 files; a trailing one without files is dropped, after it took its
      serial number.
    */
    method Jput(phase: int, js: seq<Job>, files: Job -> seq<string>) returns (out: seq<Job>)
      requires Valid()
      modifies this
      ensures Valid()
      ensures out == Stamp(logDir, Stages.JputStage(Stages.Ctx(name, phase), js, files, old(nextId)))
      ensures jobs == old(jobs) + out && nextId == old(nextId) + |Stages.Bundles(js, files)| && Kept()
    {
      ghost var ctx := Stages.Ctx(name, phase);
      ghost var id0: nat := nextId;
      var ret: seq<Job> := [];
      ghost var bs: seq<seq<string>> := [];
      var k := 0;
      while k < |js|
        invariant k <= |js| && bs == Stages.Bundles(js[..k], files) && Stages.Archives(ctx, ret, bs, id0)
        invariant Valid() && jobs == old(jobs) && nextId == id0 + |ret| && Kept()
      {
        Stages.BundlesStep(js, files, k);
        ret, bs := JputStep(phase, ret, bs, files(js[k]), id0);
        k := k + 1;
      }
      assert js[..k] == js;
      ghost var d := Stages.DropEmptyLast(bs);
      if |ret| > 0 && |ret[|ret| - 1].jputfiles| == 0 {
        assert bs[|bs| - 1] == ret[|ret| - 1].jputfiles == [];
        ret := ret[..|ret| - 1];
        assert d == bs[..|bs| - 1];
      } else {
        assert |bs| > 0 ==> bs[|bs| - 1] == ret[|ret| - 1].jputfiles != [];
        assert d == bs;
      }
      assert Stages.Archives(ctx, ret, d, id0);
      Stages.JputJobsOf(ctx, ret, d, id0);
      AddJobs(ret);
      out := Stamp(logDir, ret);
    }

    /**
      The delete job of a nonempty block: memory, time `60 + 3n` seconds,
      disk, run, file range and mode. The parser runs on the first path and
      then on the last, after the job's serial number is taken; a rejected
      path raises.
    */
    method DeleteOne(phase: int, block: seq<string>, runFile: string -> Option<Stages.RunFile>) returns (r: Result<Job, Fault>)
      requires Valid() && block != []
      modifies this
      ensures Valid()
      ensures r == Stages.DeleteJob(Stages.Ctx(name, phase), block, old(nextId), runFile)
      ensures nextId == old(nextId) + 1 && jobs == old(jobs) && Kept()
    {
      var job := NewJob(Plain);
      job := job.(phase := phase);
      job := job.(ram := Some("512MB"));
      job := job.(time := Some(Stages.TimeString(Stages.DeleteSeconds(|block|))));
      job := job.(disk := Some("100MB"));
      var first := runFile(block[0]);
      if first.None? {
        return Err(MalformedFilename);
      }
      job := job.(tags := job.tags["run" := Stages.RunTag(first.value.runNumber)]);
      var f1 := first.value.fileNumber;
      var last := runFile(block[|block| - 1]);
      if last.None? {
        return Err(MalformedFilename);
      }
      var f2 := last.value.fileNumber;
      job := job.(tags := job.tags["file" := Stages.FileRange(f1, f2)]);
      job := job.(tags := job.tags["mode" := "delete"]);
      job := job.(cmd := Shell);
      assert job.tags == Stages.DeleteTags(first.value.runNumber, Stages.FileRange(f1, f2));
      r := Ok(job);
    }

    /**
      One pass of `delete`'s outer loop: a block taken from the files and its
      job built and added; or the exception the block raises, with nothing
      added.
    */
    method DeleteStep(phase: int, runFile: string -> Option<Stages.RunFile>, files: seq<string>, built: seq<Job>,
                      ghost id: nat, ghost jobs0: seq<Job>)
      returns (files': seq<string>, built': seq<Job>, ghost id': nat, fault: Option<Fault>)
      requires Valid() && |files| > 0 && nextId == id && jobs == jobs0 + Stamp(logDir, built)
      modifies this
      ensures fault.None? ==>
                After(built, Emit(Stages.DeleteBuild(Stages.Ctx(name, phase), runFile), Groups(files, AtLeast(Stages.BlockSize)), id))
                == After(built', Emit(Stages.DeleteBuild(Stages.Ctx(name, phase), runFile), Groups(files', AtLeast(Stages.BlockSize)), id'))
      ensures fault.Some? ==>
                After(built, Emit(Stages.DeleteBuild(Stages.Ctx(name, phase), runFile), Groups(files, AtLeast(Stages.BlockSize)), id))
                == Built(built, fault)
      ensures Valid() && jobs == jobs0 + Stamp(logDir, built') && nextId == id + 1 && id' == id + 1 && Kept()
      ensures if fault.Some? then built' == built else |built'| == |built| + 1
      ensures |files'| < |files|
    {
      ghost var build := Stages.DeleteBuild(Stages.Ctx(name, phase), runFile);
      var block;
      block, files' := TakeBlock(files, Stages.BlockSize);
      AtMostMinimal(block, Stages.BlockSize);
      var r := DeleteOne(phase, block, runFile);
      id' := id + 1;
      if r.Err? {
        GroupFail(build, files, AtLeast(Stages.BlockSize), |block|, id, built, r.error);
        return files', built, id', Some(r.error);
      }
      var job := r.value;
      AddJobs([job]);
      built' := built + [job];
      StampExtend(logDir, jobs0, built, [job]);
      GroupAdvance(build, files, AtLeast(Stages.BlockSize), |block|, id, built, job, files', id', built');
      fault := None;
    }

    /**
      `delete`: one job per block of at most 200 files, each added as it is
      built. A path the parser rejects ends the pass; the jobs added before
      it stay.
    */
    method Delete(phase: int, deletes: seq<string>, runFile: string -> Option<Stages.RunFile>) returns (out: seq<Job>, fault: Option<Fault>)
      requires Valid()
      modifies this
      ensures Valid()
      ensures fault == Stages.DeleteStage(Stages.Ctx(name, phase), deletes, old(nextId), runFile).fault
      ensures out == Stamp(logDir, Stages.DeleteStage(Stages.Ctx(name, phase), deletes, old(nextId), runFile).jobs)
      ensures jobs == old(jobs) + out && nextId == old(nextId) + |out| + (if fault.Some? then 1 else 0) && Kept()
    {
      ghost var build := Stages.DeleteBuild(Stages.Ctx(name, phase), runFile);
      ghost var id0: nat := nextId;
      ghost var id: nat := id0;
      var built: seq<Job> := [];
      var files := deletes;
      assert [] + Emit(build, Groups(files, AtLeast(Stages.BlockSize)), id0).jobs == Emit(build, Groups(files, AtLeast(Stages.BlockSize)), id0).jobs;
      while |files| > 0
        invariant Stages.DeleteStage(Stages.Ctx(name, phase), deletes, id0, runFile)
                  == After(built, Emit(build, Groups(files, AtLeast(Stages.BlockSize)), id))
        invariant Valid() && jobs == old(jobs) + Stamp(logDir, built) && nextId == id && id == id0 + |built| && Kept()
        decreases |files|
      {
        var f;
        files, built, id, f := DeleteStep(phase, runFile, files, built, id, old(jobs));
        if f.Some? {
          fault := f;
          out := Stamp(logDir, built);
          return;
        }
      }
      assert built + [] == built;
      fault := None;
      out := Stamp(logDir, built);
    }

    /**
      The move job of a nonempty block: memory, time `600 + 60n` seconds, disk,
      run, mode and destination tags; the target directory is the decoding
      directory joined with the run tag read back as an integer, it is
      created, and each file's new path is recorded as an output, in order.
      A first path the parser rejects raises before any directory is created.
    */
    method MoveOne(phase: int, block: seq<string>, runFile: string -> Option<Stages.RunFile>) returns (r: Result<Job, Fault>)
      requires Valid() && block != []
      modifies this
      ensures Valid()
      ensures r == Stages.MoveJob(Stages.Ctx(name, phase), cfg.decDir, block, old(nextId), runFile)
      ensures r.Ok? ==> dirs == old(dirs) + [Stages.MoveDir(cfg.decDir, runFile(block[0]).value.runNumber)]
      ensures r.Err? ==> dirs == old(dirs)
      ensures nextId == old(nextId) + 1 && jobs == old(jobs) && runs == old(runs) && ignored == old(ignored)
    {
      var job := NewJob(Plain);
      job := job.(phase := phase);
      job := job.(ram := Some("512MB"));
      job := job.(time := Some(Stages.TimeString(Stages.MoveSeconds(|block|))));
      job := job.(disk := Some("100MB"));
      var first := runFile(block[0]);
      if first.None? {
        return Err(MalformedFilename);
      }
      var run := first.value.runNumber;
      job := job.(tags := job.tags["run" := Stages.RunTag(run)]);
      job := job.(tags := job.tags["mode" := "move"]);
      job := job.(tags := job.tags["outDir" := cfg.decDir]);
      Text.PadRoundTrip(run, 6);
      var outDir := cfg.decDir + "/" + Text.ZeroPad(Text.ParseInt(job.tags["run"]).value, 6);
      dirs := dirs + [outDir];
      job := job.(cmd := Shell);
      ghost var j0 := job;
      var m := 0;
      while m < |block|
        invariant m <= |block| && job == j0.(outputs := job.outputs) && job.outputs == Stages.MovedPaths(outDir, block[..m])
        invariant Valid() && nextId == old(nextId) + 1 && jobs == old(jobs) && runs == old(runs) && ignored == old(ignored)
        invariant dirs == old(dirs) + [outDir]
      {
        var m' := m + 1;
        Stages.MovedPathsStep(outDir, block, m, m');
        job := job.(outputs := job.outputs + [Stages.MovedPath(outDir, block[m])]);
        m := m';
      }
      assert block[..m] == block;
      assert job.tags == Stages.MoveTags(run, cfg.decDir);
      r := Ok(job);
    }

    /**
      One pass of `move`'s outer loop: a block taken from the files, its job
      built and added, its directory created; or the exception the block
      raises, with nothing added.
    */
    method MoveStep(phase: int, runFile: string -> Option<Stages.RunFile>, files: seq<string>, built: seq<Job>,
                    ghost id: nat, ghost jobs0: seq<Job>)
      returns (files': seq<string>, built': seq<Job>, ghost id': nat, fault: Option<Fault>)
      requires Valid() && |files| > 0 && nextId == id && jobs == jobs0 + Stamp(logDir, built)
      modifies this
      ensures fault.None? ==>
                After(built, Emit(Stages.MoveBuild(Stages.Ctx(name, phase), cfg.decDir, runFile), Groups(files, AtLeast(Stages.BlockSize)), id))
                == After(built', Emit(Stages.MoveBuild(Stages.Ctx(name, phase), cfg.decDir, runFile), Groups(files', AtLeast(Stages.BlockSize)), id'))
      ensures fault.None? ==>
                old(dirs) + Stages.MoveDirs(cfg.decDir, Groups(files, AtLeast(Stages.BlockSize)), runFile)
                == dirs + Stages.MoveDirs(cfg.decDir, Groups(files', AtLeast(Stages.BlockSize)), runFile)
      ensures fault.Some? ==>
                After(built, Emit(Stages.MoveBuild(Stages.Ctx(name, phase), cfg.decDir, runFile), Groups(files, AtLeast(Stages.BlockSize)), id))
                == Built(built, fault)
      ensures fault.Some? ==>
                old(dirs) + Stages.MoveDirs(cfg.decDir, Groups(files, AtLeast(Stages.BlockSize)), runFile) == dirs
      ensures Valid() && jobs == jobs0 + Stamp(logDir, built') && nextId == id + 1 && id' == id + 1
      ensures if fault.Some? then built' == built else |built'| == |built| + 1
      ensures |files'| < |files| && runs == old(runs) && ignored == old(ignored)
    {
      ghost var dirs0 := dirs;
      var block;
      block, files' := TakeBlock(files, Stages.BlockSize);
      var r := MoveOne(phase, block, runFile);
      id' := id + 1;
      if r.Err? {
        Stages.MoveStop(Stages.Ctx(name, phase), cfg.decDir, runFile, files, block, id, built, r.error, dirs0);
        return files', built, id', Some(r.error);
      }
      var job := r.value;
      AddJobs([job]);
      built' := built + [job];
      StampExtend(logDir, jobs0, built, [job]);
      Stages.MoveAdvance(Stages.Ctx(name, phase), cfg.decDir, runFile, files, block, files', job, id, built, built', dirs0, dirs);
      fault := None;
    }

    /**
      `move`: one job per block of at most 200 files, each with its target
      directory created, each added as it is built. A path the parser
      rejects ends the pass; the jobs added and directories created before
      it stay.
    */
    method Move(phase: int, moves: seq<string>, runFile: string -> Option<Stages.RunFile>) returns (out: seq<Job>, fault: Option<Fault>)
      requires Valid()
      modifies this
      ensures Valid()
      ensures fault == Stages.MoveStage(Stages.Ctx(name, phase), cfg.decDir, moves, old(nextId), runFile).fault
      ensures out == Stamp(logDir, Stages.MoveStage(Stages.Ctx(name, phase), cfg.decDir, moves, old(nextId), runFile).jobs)
      ensures jobs == old(jobs) + out && nextId == old(nextId) + |out| + (if fault.Some? then 1 else 0)
      ensures dirs == old(dirs) + Stages.MoveDirs(cfg.decDir, Groups(moves, AtLeast(Stages.BlockSize)), runFile)
      ensures runs == old(runs) && ignored == old(ignored)
    {
      ghost var build := Stages.MoveBuild(Stages.Ctx(name, phase), cfg.decDir, runFile);
      ghost var id0: nat := nextId;
      ghost var id: nat := id0;
      var built: seq<Job> := [];
      var files := moves;
      assert [] + Emit(build, Groups(files, AtLeast(Stages.BlockSize)), id0).jobs == Emit(build, Groups(files, AtLeast(Stages.BlockSize)), id0).jobs;
      while |files| > 0
        invariant Stages.MoveStage(Stages.Ctx(name, phase), cfg.decDir, moves, id0, runFile)
                  == After(built, Emit(build, Groups(files, AtLeast(Stages.BlockSize)), id))
        invariant old(dirs) + Stages.MoveDirs(cfg.decDir, Groups(moves, AtLeast(Stages.BlockSize)), runFile)
                  == dirs + Stages.MoveDirs(cfg.decDir, Groups(files, AtLeast(Stages.BlockSize)), runFile)
        invariant Valid() && jobs == old(jobs) + Stamp(logDir, built) && nextId == id && id == id0 + |built|
        invariant runs == old(runs) && ignored == old(ignored)
        decreases |files|
      {
        var f;
        files, built, id, f := MoveStep(phase, runFile, files, built, id, old(jobs));
        if f.Some? {
          fault := f;
          out := Stamp(logDir, built);
          return;
        }
      }
      assert built + [] == built && dirs + [] == dirs;
      fault := None;
      out := Stamp(logDir, built);
    }
  }
}
