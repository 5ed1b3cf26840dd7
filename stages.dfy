/**
  What each stage builder of the workflow produces, as functions of its
  inputs: how the inputs are cut into groups and which job each group
  becomes. The workflow's methods are proved to produce exactly these jobs;
  the lemmas here state what the jobs then are.
*/
module Stages {
  import opened Wrappers
  import opened Jobs
  import opened Batching
  import Text

  /** What every job of one builder call shares: the workflow's name (for the job factory) and the phase. */
  datatype Ctx = Ctx(workflow: string, phase: int)

  // ------------------------------------------------------------ reconclara, histo

  /** A reconstruction or histogram job over a group: the expanded inputs, one name edge per job-typed input. */
  function Gathered(ctx: Ctx, kind: Kind, g: seq<Artifact>, id: nat): Job {
    Fresh(ctx.workflow, kind, id).(phase := ctx.phase, antecedents := UpstreamNames(g),
                                   inputs := Files(Expand(g)), cmd := Generated)
  }

  function GatherBuild(ctx: Ctx, kind: Kind): (seq<Artifact>, nat) -> Result<Job, Fault> {
    (g: seq<Artifact>, id: nat) => Ok(Gathered(ctx, kind, g, id))
  }

  /** `reconclara` closes a group once its expanded input list holds `reconSize` paths. */
  function ReconFull(reconSize: int): seq<Artifact> -> bool {
    g => |Expand(g)| >= reconSize
  }

  function ReconGroups(reconSize: int, inputs: seq<Artifact>): seq<seq<Artifact>> {
    Groups(inputs, ReconFull(reconSize))
  }

  /** The jobs `reconclara` builds, serial numbers from `id` on. */
  function ReconClara(ctx: Ctx, reconSize: int, inputs: seq<Artifact>, id: nat): Built {
    Emit(GatherBuild(ctx, Recon), ReconGroups(reconSize, inputs), id)
  }

  /** The one job `histo` builds. */
  function HistoJob(ctx: Ctx, inputs: seq<Artifact>, id: nat): Job {
    Gathered(ctx, Histo, inputs, id)
  }

  /** Over consecutive groups, gathered jobs together consume the expanded inputs and carry the job-typed inputs' names, in order. */
  lemma {:induction false} GatheredConcat(ctx: Ctx, kind: Kind, gs: seq<seq<Artifact>>, id: nat)
    ensures Emit(GatherBuild(ctx, kind), gs, id).fault == None
    ensures InputsOf(Emit(GatherBuild(ctx, kind), gs, id).jobs) == Files(Expand(Concat(gs)))
    ensures AntecedentsOf(Emit(GatherBuild(ctx, kind), gs, id).jobs) == UpstreamNames(Concat(gs))
    decreases |gs|
  {
    if gs != [] {
      var b := GatherBuild(ctx, kind);
      var j := Gathered(ctx, kind, gs[0], id);
      var rest := Emit(b, gs[1..], id + 1);
      GatheredConcat(ctx, kind, gs[1..], id + 1);
      var js := Emit(b, gs, id).jobs;
      assert js == [j] + rest.jobs;
      assert js[1..] == rest.jobs;
      ExpandAppend(gs[0], Concat(gs[1..]));
      UpstreamAppend(gs[0], Concat(gs[1..]));
      FilesAppend(Expand(gs[0]), Expand(Concat(gs[1..])));
      NamesAppend(UpstreamJobs(gs[0]), UpstreamJobs(Concat(gs[1..])));
    }
  }

  /**
    `reconclara` never raises and emits one job per group; a group closes
    exactly when its expanded inputs reach `reconSize`, or at the last input;
    together the jobs consume every input, jobs replaced by their outputs, in
    order, and each job's edges are the names of its group's job-typed inputs.
  */
  lemma ReconClaraShape(ctx: Ctx, reconSize: int, inputs: seq<Artifact>, id: nat)
    ensures ReconClara(ctx, reconSize, inputs, id).fault == None
    ensures |ReconClara(ctx, reconSize, inputs, id).jobs| == |ReconGroups(reconSize, inputs)|
    ensures inputs == [] <==> ReconClara(ctx, reconSize, inputs, id).jobs == []
    ensures Concat(ReconGroups(reconSize, inputs)) == inputs
    ensures forall i :: 0 <= i < |ReconGroups(reconSize, inputs)| - 1 ==> |Expand(ReconGroups(reconSize, inputs)[i])| >= reconSize
    ensures forall i, m :: 0 <= i < |ReconGroups(reconSize, inputs)| && 0 < m < |ReconGroups(reconSize, inputs)[i]| ==>
              |Expand(ReconGroups(reconSize, inputs)[i][..m])| < reconSize
    ensures InputsOf(ReconClara(ctx, reconSize, inputs, id).jobs) == Files(Expand(inputs))
    ensures AntecedentsOf(ReconClara(ctx, reconSize, inputs, id).jobs) == UpstreamNames(inputs)
    ensures forall k :: 0 <= k < |ReconClara(ctx, reconSize, inputs, id).jobs| ==>
              ReconClara(ctx, reconSize, inputs, id).jobs[k].antecedents == UpstreamNames(ReconGroups(reconSize, inputs)[k])
  {
    var gs: seq<seq<Artifact>> := ReconGroups(reconSize, inputs);
    GroupsPartition(inputs, ReconFull(reconSize));
    GatheredConcat(ctx, Recon, gs, id);
    EmitSpec(GatherBuild(ctx, Recon), gs, id);
    forall i, m | 0 <= i < |gs| && 0 < m < |gs[i]| ensures |Expand(gs[i][..m])| < reconSize {
      assert !ReconFull(reconSize)(gs[i][..m]);
    }
  }

  /**
    The one `histo` job gathers what `reconclara` spreads over its jobs: the
    same inputs and the same edges, in order. A path is an input exactly when
    some input file is it or some upstream job declares it; a name is an edge
    exactly when some input is a job of that name; there is at most one edge
    per input, and one per input exactly when every input is a job.
  */
  lemma HistoShape(ctx: Ctx, reconSize: int, inputs: seq<Artifact>, id: nat, id': nat)
    ensures HistoJob(ctx, inputs, id).inputs == InputsOf(ReconClara(ctx, reconSize, inputs, id').jobs)
    ensures HistoJob(ctx, inputs, id).antecedents == AntecedentsOf(ReconClara(ctx, reconSize, inputs, id').jobs)
    ensures forall p :: File(p) in HistoJob(ctx, inputs, id).inputs <==>
              exists m :: 0 <= m < |inputs| && p in Units(inputs[m])
    ensures forall a :: a in HistoJob(ctx, inputs, id).antecedents <==>
              exists m :: 0 <= m < |inputs| && inputs[m].Upstream? && a == Named(inputs[m].job.name)
    ensures |HistoJob(ctx, inputs, id).antecedents| <= |inputs|
    ensures |HistoJob(ctx, inputs, id).antecedents| == |inputs| <==> forall m :: 0 <= m < |inputs| ==> inputs[m].Upstream?
  {
    ReconClaraShape(ctx, reconSize, inputs, id');
    UpstreamCount(inputs);
    ExpandedFiles(inputs);
    UpstreamNamed(inputs);
  }

  /** A path is among a group's expanded input files exactly when some element contributes it. */
  lemma ExpandedFiles(g: seq<Artifact>)
    ensures forall p :: File(p) in Files(Expand(g)) <==> exists m :: 0 <= m < |g| && p in Units(g[m])
  {
    forall p ensures File(p) in Files(Expand(g)) <==> exists m :: 0 <= m < |g| && p in Units(g[m]) {
      ExpandMember(g, p);
      assert File(p) in Files(Expand(g)) <==> p in Expand(g);
    }
  }

  /** An edge names a group's job-typed element exactly when some element is a job of that name. */
  lemma UpstreamNamed(g: seq<Artifact>)
    ensures forall a :: a in UpstreamNames(g) <==> exists m :: 0 <= m < |g| && g[m].Upstream? && a == Named(g[m].job.name)
  {
    var ups := UpstreamJobs(g);
    var ns := UpstreamNames(g);
    forall a ensures a in ns <==> exists m :: 0 <= m < |g| && g[m].Upstream? && a == Named(g[m].job.name) {
      if a in ns {
        var k :| 0 <= k < |ups| && a == ns[k];
        UpstreamMember(g, ups[k]);
        var m :| 0 <= m < |g| && g[m] == Upstream(ups[k]);
        assert g[m].Upstream? && a == Named(g[m].job.name);
      }
      if exists m :: 0 <= m < |g| && g[m].Upstream? && a == Named(g[m].job.name) {
        var m :| 0 <= m < |g| && g[m].Upstream? && a == Named(g[m].job.name);
        UpstreamMember(g, g[m].job);
        var k :| 0 <= k < |ups| && ups[k] == g[m].job;
        assert ns[k] == a;
      }
    }
  }

  // ------------------------------------------------------------ train

  /** The unit weight of an input in `train`: an upstream job stands for `reconSize` files. */
  function Weight(a: Artifact, reconSize: int): int {
    if a.Upstream? then reconSize else 1
  }

  /**
    `train` closes a group when `len(group) >= trainSize / w` with `w` the
    weight of the input just added; for positive integers this is
    `len(group) * w >= trainSize`.
  */
  function TrainFull(trainSize: int, reconSize: int): seq<Artifact> -> bool {
    g => |g| > 0 && |g| * Weight(g[|g| - 1], reconSize) >= trainSize
  }

  /**
    The train flush test is the source's true-division comparison
    `len(group) >= trainSize / w`, for a positive `reconSize`.
  */
  lemma TrainFullIsDivision(trainSize: int, reconSize: int, g: seq<Artifact>)
    requires reconSize >= 1 && g != []
    ensures TrainFull(trainSize, reconSize)(g) <==>
              (|g| as real) >= (trainSize as real) / (Weight(g[|g| - 1], reconSize) as real)
  {
    DivisionTest(|g|, trainSize, Weight(g[|g| - 1], reconSize));
  }

  /** For a positive divisor `w`, `n >= t / w` in true division is `n * w >= t`. */
  lemma DivisionTest(n: int, t: int, w: int)
    requires w >= 1
    ensures (n as real) >= (t as real) / (w as real) <==> n * w >= t
  {
    var q := (t as real) / (w as real);
    assert q * (w as real) == t as real;
    assert (n * w) as real == (n as real) * (w as real);
    if (n as real) >= q {
      assert (n as real) * (w as real) >= q * (w as real);
    } else {
      assert (n as real) * (w as real) < q * (w as real);
    }
  }

  function TrainGroups(trainSize: int, reconSize: int, inputs: seq<Artifact>): seq<seq<Artifact>> {
    Groups(inputs, TrainFull(trainSize, reconSize))
  }

  /**
    The train job of a group. The branch is chosen by the group's first
    element: a job-typed first element makes every element's outputs inputs
    and every element's name an edge (a file among them raises
    AttributeError); otherwise the group itself is the input list.
  */
  function TrainJob(ctx: Ctx, g: seq<Artifact>, id: nat): Result<Job, Fault> {
    var j := Fresh(ctx.workflow, Train, id).(phase := ctx.phase);
    if g != [] && g[0].Upstream? then
      if forall k :: 0 <= k < |g| ==> g[k].Upstream? then
        Ok(j.(inputs := Files(Expand(g)), antecedents := UpstreamNames(g), cmd := Generated))
      else Err(AttributeError)
    else Ok(j.(inputs := g, cmd := Generated))
  }

  function TrainBuild(ctx: Ctx): (seq<Artifact>, nat) -> Result<Job, Fault> {
    (g: seq<Artifact>, id: nat) => TrainJob(ctx, g, id)
  }

  /** The jobs `train` builds. */
  function TrainStage(ctx: Ctx, trainSize: int, reconSize: int, inputs: seq<Artifact>, id: nat): Built {
    Emit(TrainBuild(ctx), TrainGroups(trainSize, reconSize, inputs), id)
  }

  /** A group closes when its length times the weight of its last input reaches `trainSize`, or at the last input. */
  lemma TrainFlush(trainSize: int, reconSize: int, inputs: seq<Artifact>)
    ensures Concat(TrainGroups(trainSize, reconSize, inputs)) == inputs
    ensures forall i :: 0 <= i < |TrainGroups(trainSize, reconSize, inputs)| - 1 ==>
              var g := TrainGroups(trainSize, reconSize, inputs)[i];
              |g| > 0 && |g| * Weight(g[|g| - 1], reconSize) >= trainSize
    ensures forall i, m :: 0 <= i < |TrainGroups(trainSize, reconSize, inputs)| && 0 <= m < |TrainGroups(trainSize, reconSize, inputs)[i]| - 1 ==>
              (m + 1) * Weight(TrainGroups(trainSize, reconSize, inputs)[i][m], reconSize) < trainSize
  {
    var gs: seq<seq<Artifact>> := TrainGroups(trainSize, reconSize, inputs);
    GroupsPartition(inputs, TrainFull(trainSize, reconSize));
    forall i, m | 0 <= i < |gs| && 0 <= m < |gs[i]| - 1 ensures (m + 1) * Weight(gs[i][m], reconSize) < trainSize {
      assert !TrainFull(trainSize, reconSize)(gs[i][..m + 1]);
    }
  }

  predicate IsFile(a: Artifact) {
    a.File?
  }

  predicate IsUpstream(a: Artifact) {
    a.Upstream?
  }

  /** A group of files is the input list of its train job, which has no edge. */
  lemma TrainJobOfFiles(ctx: Ctx, g: seq<Artifact>, id: nat)
    requires forall m :: 0 <= m < |g| ==> IsFile(g[m])
    ensures TrainJob(ctx, g, id) == Ok(Fresh(ctx.workflow, Train, id).(phase := ctx.phase, inputs := g, cmd := Generated))
  {
    if g != [] {
      assert IsFile(g[0]);
    }
  }

  /** A group of upstream jobs gives a train job over their outputs whose edges name the group's jobs, in order. */
  lemma TrainJobOfJobs(ctx: Ctx, g: seq<Artifact>, id: nat)
    requires forall m :: 0 <= m < |g| ==> IsUpstream(g[m])
    ensures TrainBuild(ctx)(g, id).Ok?
    ensures TrainBuild(ctx)(g, id).value.inputs == Files(Expand(g))
    ensures TrainBuild(ctx)(g, id).value.antecedents == UpstreamNames(g)
    ensures |TrainBuild(ctx)(g, id).value.antecedents| == |g|
    ensures forall m :: 0 <= m < |g| ==> TrainBuild(ctx)(g, id).value.antecedents[m] == Named(g[m].job.name)
  {
    AllUpstream(g);
  }

  lemma SegmentOfFiles(trainSize: nat, reconSize: int, x: seq<Artifact>)
    requires trainSize >= 1
    requires x != [] && IsFile(x[|x| - 1])
    ensures TrainFull(trainSize, reconSize)(x) == AtLeast(trainSize)(x)
  {
  }

  /** On file inputs only, the train cut is a cut into blocks of `trainSize`. */
  lemma TrainCutOnFiles(trainSize: nat, reconSize: int, inputs: seq<Artifact>)
    requires trainSize >= 1
    requires forall k :: 0 <= k < |inputs| ==> IsFile(inputs[k])
    ensures TrainGroups(trainSize, reconSize, inputs) == Groups(inputs, AtLeast(trainSize))
  {
    forall i, j | 0 <= i < j <= |inputs|
      ensures TrainFull(trainSize, reconSize)(inputs[i..j]) == AtLeast(trainSize)(inputs[i..j])
    {
      assert inputs[i..j][j - i - 1] == inputs[j - 1];
      assert IsFile(inputs[j - 1]);
      SegmentOfFiles(trainSize, reconSize, inputs[i..j]);
    }
    GroupsCongruent(inputs, TrainFull(trainSize, reconSize), AtLeast(trainSize));
    assert TrainGroups(trainSize, reconSize, inputs) == Groups(inputs, TrainFull(trainSize, reconSize));
  }

  /** A segment ending in an upstream job is full exactly when its length times `reconSize` reaches `trainSize`. */
  lemma TrainFullAtJob(trainSize: int, reconSize: int, x: seq<Artifact>)
    requires x != [] && IsUpstream(x[|x| - 1])
    ensures TrainFull(trainSize, reconSize)(x) == (|x| * reconSize >= trainSize)
  {
  }

  /** `c` is the least number of upstream jobs whose weight reaches `trainSize`. */
  predicate LeastCount(trainSize: int, reconSize: nat, c: nat) {
    reconSize >= 1 && c >= 1 && (c - 1) * reconSize < trainSize <= c * reconSize
  }

  lemma SegmentOfJobs(trainSize: int, reconSize: nat, c: nat, x: seq<Artifact>)
    requires LeastCount(trainSize, reconSize, c)
    requires x != [] && IsUpstream(x[|x| - 1])
    ensures TrainFull(trainSize, reconSize)(x) == AtLeast(c)(x)
  {
    TrainFullAtJob(trainSize, reconSize, x);
    CountTimesWeight(|x|, c, reconSize, trainSize);
  }

  lemma SliceOfJobs(trainSize: int, reconSize: nat, c: nat, inputs: seq<Artifact>, i: nat, j: nat)
    requires LeastCount(trainSize, reconSize, c)
    requires i < j <= |inputs| && IsUpstream(inputs[j - 1])
    ensures TrainFull(trainSize, reconSize)(inputs[i..j]) == AtLeast(c)(inputs[i..j])
  {
    assert inputs[i..j][j - i - 1] == inputs[j - 1];
    SegmentOfJobs(trainSize, reconSize, c, inputs[i..j]);
  }

  /** On upstream jobs only, the train cut is a cut into blocks of `c` jobs. */
  lemma TrainCutOnJobs(trainSize: int, reconSize: nat, c: nat, inputs: seq<Artifact>)
    requires LeastCount(trainSize, reconSize, c)
    requires forall k :: 0 <= k < |inputs| ==> IsUpstream(inputs[k])
    ensures TrainGroups(trainSize, reconSize, inputs) == Groups(inputs, AtLeast(c))
  {
    forall i, j | 0 <= i < j <= |inputs|
      ensures TrainFull(trainSize, reconSize)(inputs[i..j]) == AtLeast(c)(inputs[i..j])
    {
      SliceOfJobs(trainSize, reconSize, c, inputs, i, j);
    }
    GroupsCongruent(inputs, TrainFull(trainSize, reconSize), AtLeast(c));
    assert TrainGroups(trainSize, reconSize, inputs) == Groups(inputs, TrainFull(trainSize, reconSize));
  }

  /** Train jobs over groups of files: never raising, each taking its group as inputs and no edge. */
  lemma TrainOverFileGroups(ctx: Ctx, gs: seq<seq<Artifact>>, id: nat)
    requires forall i, m :: 0 <= i < |gs| && 0 <= m < |gs[i]| ==> IsFile(gs[i][m])
    ensures Emit(TrainBuild(ctx), gs, id).fault == None
    ensures forall k :: 0 <= k < |Emit(TrainBuild(ctx), gs, id).jobs| ==>
              Emit(TrainBuild(ctx), gs, id).jobs[k].inputs == gs[k] && Emit(TrainBuild(ctx), gs, id).jobs[k].antecedents == []
  {
    var r := Emit(TrainBuild(ctx), gs, id);
    forall k | 0 <= k < |gs| ensures TrainBuild(ctx)(gs[k], id + k).Ok? {
      TrainJobOfFiles(ctx, gs[k], id + k);
    }
    EmitAllOk(TrainBuild(ctx), gs, id);
    EmitSpec(TrainBuild(ctx), gs, id);
    forall k | 0 <= k < |r.jobs| ensures r.jobs[k].inputs == gs[k] && r.jobs[k].antecedents == [] {
      TrainJobOfFiles(ctx, gs[k], id + k);
    }
  }

  /** Train jobs over groups of upstream jobs: never raising, each taking its group's outputs and naming its group's jobs as edges. */
  lemma TrainOverJobGroups(ctx: Ctx, gs: seq<seq<Artifact>>, id: nat)
    requires forall i, m :: 0 <= i < |gs| && 0 <= m < |gs[i]| ==> IsUpstream(gs[i][m])
    ensures Emit(TrainBuild(ctx), gs, id).fault == None
    ensures forall k :: 0 <= k < |Emit(TrainBuild(ctx), gs, id).jobs| ==>
              Emit(TrainBuild(ctx), gs, id).jobs[k].inputs == Files(Expand(gs[k]))
              && Emit(TrainBuild(ctx), gs, id).jobs[k].antecedents == UpstreamNames(gs[k])
              && |Emit(TrainBuild(ctx), gs, id).jobs[k].antecedents| == |gs[k]|
  {
    var r := Emit(TrainBuild(ctx), gs, id);
    forall k | 0 <= k < |gs| ensures TrainBuild(ctx)(gs[k], id + k).Ok? {
      TrainJobOfJobs(ctx, gs[k], id + k);
    }
    EmitAllOk(TrainBuild(ctx), gs, id);
    EmitSpec(TrainBuild(ctx), gs, id);
    forall k | 0 <= k < |r.jobs|
      ensures r.jobs[k].inputs == Files(Expand(gs[k])) && r.jobs[k].antecedents == UpstreamNames(gs[k]) && |r.jobs[k].antecedents| == |gs[k]|
    {
      TrainJobOfJobs(ctx, gs[k], id + k);
    }
  }

  /** With file inputs only, `train` cuts blocks of `trainSize` files, each job taking its block as inputs and no edge. */
  lemma TrainOnFiles(ctx: Ctx, trainSize: nat, reconSize: int, inputs: seq<Artifact>, id: nat)
    requires trainSize >= 1
    requires forall k :: 0 <= k < |inputs| ==> inputs[k].File?
    ensures Sizes(TrainGroups(trainSize, reconSize, inputs)) == ChunkSizes(|inputs|, trainSize)
    ensures TrainStage(ctx, trainSize, reconSize, inputs, id).fault == None
    ensures forall k :: 0 <= k < |TrainStage(ctx, trainSize, reconSize, inputs, id).jobs| ==>
              TrainStage(ctx, trainSize, reconSize, inputs, id).jobs[k].inputs == TrainGroups(trainSize, reconSize, inputs)[k]
              && TrainStage(ctx, trainSize, reconSize, inputs, id).jobs[k].antecedents == []
  {
    assert forall k :: 0 <= k < |inputs| ==> IsFile(inputs[k]);
    TrainCutOnFiles(trainSize, reconSize, inputs);
    FixedChunks(inputs, trainSize);
    GroupsKeep(inputs, TrainFull(trainSize, reconSize), IsFile);
    TrainOverFileGroups(ctx, TrainGroups(trainSize, reconSize, inputs), id);
  }

  /**
    With job inputs only and `c` the least count with `c * reconSize >= trainSize`,
    `train` cuts blocks of `c` jobs; every job takes its block's outputs and
    names its block's jobs, in order, as edges.
  */
  lemma TrainOnJobs(ctx: Ctx, trainSize: int, reconSize: nat, c: nat, inputs: seq<Artifact>, id: nat)
    requires LeastCount(trainSize, reconSize, c)
    requires forall k :: 0 <= k < |inputs| ==> inputs[k].Upstream?
    ensures Sizes(TrainGroups(trainSize, reconSize, inputs)) == ChunkSizes(|inputs|, c)
    ensures TrainStage(ctx, trainSize, reconSize, inputs, id).fault == None
    ensures forall k :: 0 <= k < |TrainStage(ctx, trainSize, reconSize, inputs, id).jobs| ==>
              TrainStage(ctx, trainSize, reconSize, inputs, id).jobs[k].inputs == Files(Expand(TrainGroups(trainSize, reconSize, inputs)[k]))
              && TrainStage(ctx, trainSize, reconSize, inputs, id).jobs[k].antecedents == UpstreamNames(TrainGroups(trainSize, reconSize, inputs)[k])
              && |TrainStage(ctx, trainSize, reconSize, inputs, id).jobs[k].antecedents| == |TrainGroups(trainSize, reconSize, inputs)[k]|
  {
    assert forall k :: 0 <= k < |inputs| ==> IsUpstream(inputs[k]);
    TrainCutOnJobs(trainSize, reconSize, c, inputs);
    FixedChunks(inputs, c);
    GroupsKeep(inputs, TrainFull(trainSize, reconSize), IsUpstream);
    TrainOverJobGroups(ctx, TrainGroups(trainSize, reconSize, inputs), id);
  }

  lemma CountTimesWeight(n: nat, c: nat, w: nat, t: int)
    requires w >= 1 && c >= 1 && (c - 1) * w < t <= c * w
    ensures n * w >= t <==> n >= c
  {
    if n >= c {
      MulMono(c, n, w);
    } else {
      MulMono(n, c - 1, w);
    }
  }

  lemma MulMono(a: nat, b: nat, w: nat)
    requires a <= b
    ensures a * w <= b * w
  {
    assert b * w == a * w + (b - a) * w;
  }

  /** Five upstream jobs with `reconSize` 2 and `trainSize` 8 give groups of 4 and 1, with 4 and 1 edges. */
  lemma TrainFiveJobs(ctx: Ctx, inputs: seq<Artifact>, id: nat)
    requires |inputs| == 5 && forall k :: 0 <= k < 5 ==> inputs[k].Upstream?
    ensures Sizes(TrainGroups(8, 2, inputs)) == [4, 1]
    ensures |TrainStage(ctx, 8, 2, inputs, id).jobs| == 2
    ensures |TrainStage(ctx, 8, 2, inputs, id).jobs[0].antecedents| == 4
    ensures |TrainStage(ctx, 8, 2, inputs, id).jobs[1].antecedents| == 1
  {
    var gs := TrainGroups(8, 2, inputs);
    var js := TrainStage(ctx, 8, 2, inputs, id).jobs;
    assert LeastCount(8, 2, 4);
    TrainOnJobs(ctx, 8, 2, 4, inputs, id);
    assert Sizes(gs) == [4, 1] by {
      assert ChunkSizes(5, 4) == [4, 1];
    }
    assert |gs| == 2 && |gs[0]| == 4 && |gs[1]| == 1;
    assert |js| == 2;
    assert |js[0].antecedents| == |gs[0]| && |js[1].antecedents| == |gs[1]|;
  }

  // ------------------------------------------------------------ merge, decodemerge

  /** `[x.outputData[0] for x in group]`: a file raises AttributeError, a job without outputs IndexError. */
  function Heads(g: seq<Artifact>): (r: Result<seq<string>, Fault>)
    ensures r.Ok? ==> |r.value| == |g|
    ensures r.Ok? ==> forall k :: 0 <= k < |g| ==> g[k].Upstream? && |g[k].job.outputs| > 0 && r.value[k] == g[k].job.outputs[0]
    ensures r.Err? ==>
              exists k ::
                0 <= k < |g| && (g[k].File? || g[k].job.outputs == [])
                && (forall m :: 0 <= m < k ==> g[m].Upstream? && g[m].job.outputs != [])
                && r.error == (if g[k].File? then AttributeError else IndexError)
  {
    if g == [] then Ok([])
    else match g[0]
      case File(_) => Err(AttributeError)
      case Upstream(j) =>
        if j.outputs == [] then Err(IndexError)
        else match Heads(g[1..])
          case Err(e) =>
            assert forall m :: 0 <= m < |g| - 1 ==> g[1..][m] == g[m + 1];
            Err(e)
          case Ok(hs) => Ok([j.outputs[0]] + hs)
  }

  /** The merge job of a group: a job-typed first element makes first outputs the inputs and the upstream job objects the edges. */
  function MergeJob(ctx: Ctx, g: seq<Artifact>, id: nat): Result<Job, Fault> {
    var j := Fresh(ctx.workflow, Merging, id).(phase := ctx.phase);
    if g != [] && g[0].Upstream? then
      match Heads(g)
      case Err(e) => Err(e)
      case Ok(hs) => Ok(j.(inputs := Files(hs), antecedents := ObjectsOf(UpstreamJobs(g))))
    else Ok(j.(inputs := g))
  }

  function MergeBuild(ctx: Ctx): (seq<Artifact>, nat) -> Result<Job, Fault> {
    (g: seq<Artifact>, id: nat) => MergeJob(ctx, g, id)
  }

  /** The jobs `merge` builds. */
  function MergeStage(ctx: Ctx, mergeSize: int, inputs: seq<Artifact>, id: nat): Built {
    Emit(MergeBuild(ctx), Groups(inputs, AtLeast(mergeSize)), id)
  }

  /** The decode-and-merge job of a group: job-typed groups are not implemented. */
  function DecodeMergeJob(ctx: Ctx, g: seq<Artifact>, id: nat): Result<Job, Fault> {
    if g != [] && g[0].Upstream? then Err(NotImplementedError)
    else Ok(Fresh(ctx.workflow, DecodeAndMerge, id).(phase := ctx.phase, inputs := g))
  }

  function DecodeMergeBuild(ctx: Ctx): (seq<Artifact>, nat) -> Result<Job, Fault> {
    (g: seq<Artifact>, id: nat) => DecodeMergeJob(ctx, g, id)
  }

  /** The jobs `decodemerge` builds. */
  function DecodeMergeStage(ctx: Ctx, mergeSize: int, inputs: seq<Artifact>, id: nat): Built {
    Emit(DecodeMergeBuild(ctx), Groups(inputs, AtLeast(mergeSize)), id)
  }

  /** The group builder of `merge` (kind `Merging`) or `decodemerge` (kind `DecodeAndMerge`). */
  function MergingBuild(ctx: Ctx, kind: Kind): (seq<Artifact>, nat) -> Result<Job, Fault> {
    if kind == DecodeAndMerge then DecodeMergeBuild(ctx) else MergeBuild(ctx)
  }

  /**
    `merge` and `decodemerge` cut consecutive groups of `mergeSize`, the last
    holding the remaining 1..`mergeSize`; empty input gives no group.
  */
  lemma MergeGroupsShape(mergeSize: nat, inputs: seq<Artifact>)
    requires mergeSize >= 1
    ensures Concat(Groups(inputs, AtLeast(mergeSize))) == inputs
    ensures Sizes(Groups(inputs, AtLeast(mergeSize))) == ChunkSizes(|inputs|, mergeSize)
    ensures forall i :: 0 <= i < |Groups(inputs, AtLeast(mergeSize))| - 1 ==> |Groups(inputs, AtLeast(mergeSize))[i]| == mergeSize
    ensures inputs != [] ==> 1 <= |Groups(inputs, AtLeast(mergeSize))[|Groups(inputs, AtLeast(mergeSize))| - 1]| <= mergeSize
    ensures inputs == [] <==> Groups(inputs, AtLeast(mergeSize)) == []
  {
    var gs: seq<seq<Artifact>> := Groups(inputs, AtLeast(mergeSize));
    GroupsPartition(inputs, AtLeast(mergeSize));
    FixedChunks(inputs, mergeSize);
    ChunkSizesShape(|inputs|, mergeSize);
    assert forall i :: 0 <= i < |gs| ==> Sizes(gs)[i] == |gs[i]|;
  }

  /** An upstream job that declares at least one output. */
  predicate HasOutputs(a: Artifact) {
    a.Upstream? && a.job.outputs != []
  }

  /** A nonempty group of upstream jobs that all declare outputs. */
  predicate JobGroup(g: seq<Artifact>) {
    g != [] && forall m :: 0 <= m < |g| ==> HasOutputs(g[m])
  }

  /** A group of upstream jobs with outputs gives a merge job over their first outputs, with the job objects as edges. */
  lemma MergeJobOfJobs(ctx: Ctx, g: seq<Artifact>, id: nat)
    requires JobGroup(g)
    ensures Heads(g).Ok? && MergeBuild(ctx)(g, id).Ok?
    ensures MergeBuild(ctx)(g, id).value.inputs == Files(Heads(g).value)
    ensures MergeBuild(ctx)(g, id).value.antecedents == ObjectsOf(UpstreamJobs(g))
    ensures |MergeBuild(ctx)(g, id).value.antecedents| == |g|
    ensures forall m :: 0 <= m < |g| ==> MergeBuild(ctx)(g, id).value.antecedents[m] == Object(g[m].job)
  {
    assert HasOutputs(g[0]);
    assert forall m :: 0 <= m < |g| ==> g[m].Upstream?;
    AllUpstream(g);
  }

  /** Merge jobs over groups of upstream jobs with outputs: never raising, each group's job objects as edges, in order. */
  lemma MergeOverJobGroups(ctx: Ctx, gs: seq<seq<Artifact>>, id: nat)
    requires forall i :: 0 <= i < |gs| ==> JobGroup(gs[i])
    ensures Emit(MergeBuild(ctx), gs, id).fault == None
    ensures forall k :: 0 <= k < |Emit(MergeBuild(ctx), gs, id).jobs| ==>
              Heads(gs[k]).Ok?
              && Emit(MergeBuild(ctx), gs, id).jobs[k].inputs == Files(Heads(gs[k]).value)
              && Emit(MergeBuild(ctx), gs, id).jobs[k].antecedents == ObjectsOf(UpstreamJobs(gs[k]))
              && |Emit(MergeBuild(ctx), gs, id).jobs[k].antecedents| == |gs[k]|
  {
    var r := Emit(MergeBuild(ctx), gs, id);
    forall k | 0 <= k < |gs| ensures MergeBuild(ctx)(gs[k], id + k).Ok? {
      MergeJobOfJobs(ctx, gs[k], id + k);
    }
    EmitAllOk(MergeBuild(ctx), gs, id);
    EmitSpec(MergeBuild(ctx), gs, id);
    forall k | 0 <= k < |r.jobs|
      ensures Heads(gs[k]).Ok? && r.jobs[k].inputs == Files(Heads(gs[k]).value)
              && r.jobs[k].antecedents == ObjectsOf(UpstreamJobs(gs[k])) && |r.jobs[k].antecedents| == |gs[k]|
    {
      MergeJobOfJobs(ctx, gs[k], id + k);
    }
  }

  /**
    `merge` over upstream jobs that all declare outputs never raises; each
    job takes the first output of every job of its group (see `Heads`) and
    records those job objects, in order, as edges.
  */
  lemma MergeOfJobs(ctx: Ctx, mergeSize: nat, inputs: seq<Artifact>, id: nat)
    requires mergeSize >= 1
    requires forall k :: 0 <= k < |inputs| ==> inputs[k].Upstream? && inputs[k].job.outputs != []
    ensures MergeStage(ctx, mergeSize, inputs, id).fault == None
    ensures |MergeStage(ctx, mergeSize, inputs, id).jobs| == |Groups(inputs, AtLeast(mergeSize))|
    ensures forall k :: 0 <= k < |MergeStage(ctx, mergeSize, inputs, id).jobs| ==>
              Heads(Groups(inputs, AtLeast(mergeSize))[k]).Ok?
              && MergeStage(ctx, mergeSize, inputs, id).jobs[k].inputs == Files(Heads(Groups(inputs, AtLeast(mergeSize))[k]).value)
              && MergeStage(ctx, mergeSize, inputs, id).jobs[k].antecedents == ObjectsOf(UpstreamJobs(Groups(inputs, AtLeast(mergeSize))[k]))
              && |MergeStage(ctx, mergeSize, inputs, id).jobs[k].antecedents| == |Groups(inputs, AtLeast(mergeSize))[k]|
  {
    assert forall k :: 0 <= k < |inputs| ==> HasOutputs(inputs[k]);
    GroupsKeep(inputs, AtLeast(mergeSize), HasOutputs);
    GroupsPartition(inputs, AtLeast(mergeSize));
    var gs := Groups(inputs, AtLeast(mergeSize));
    forall i | 0 <= i < |gs| ensures JobGroup(gs[i]) {
      assert gs[i] != [];
    }
    MergeOverJobGroups(ctx, Groups(inputs, AtLeast(mergeSize)), id);
  }

  /**
    `decodemerge` raises NotImplementedError at the first group that starts
    with a job, keeping the jobs of the groups before it; over files only it
    never raises and each job takes its group as inputs.
  */
  lemma DecodeMergeShape(ctx: Ctx, mergeSize: nat, inputs: seq<Artifact>, id: nat)
    requires mergeSize >= 1
    ensures DecodeMergeStage(ctx, mergeSize, inputs, id).fault.Some? ==>
              DecodeMergeStage(ctx, mergeSize, inputs, id).fault == Some(NotImplementedError)
              && Groups(inputs, AtLeast(mergeSize))[|DecodeMergeStage(ctx, mergeSize, inputs, id).jobs|] != []
              && Groups(inputs, AtLeast(mergeSize))[|DecodeMergeStage(ctx, mergeSize, inputs, id).jobs|][0].Upstream?
    ensures (forall k :: 0 <= k < |inputs| ==> inputs[k].File?) ==>
              DecodeMergeStage(ctx, mergeSize, inputs, id).fault == None
    ensures forall k :: 0 <= k < |DecodeMergeStage(ctx, mergeSize, inputs, id).jobs| ==>
              DecodeMergeStage(ctx, mergeSize, inputs, id).jobs[k].inputs == Groups(inputs, AtLeast(mergeSize))[k]
    ensures |inputs| > 0 && inputs[0].Upstream? ==>
              DecodeMergeStage(ctx, mergeSize, inputs, id) == Built([], Some(NotImplementedError))
  {
    var gs := Groups(inputs, AtLeast(mergeSize));
    EmitSpec(DecodeMergeBuild(ctx), gs, id);
    if forall k :: 0 <= k < |inputs| ==> inputs[k].File? {
      assert forall k :: 0 <= k < |inputs| ==> IsFile(inputs[k]);
      GroupsKeep(inputs, AtLeast(mergeSize), IsFile);
      forall k | 0 <= k < |gs| ensures DecodeMergeBuild(ctx)(gs[k], id + k).Ok? {
        if gs[k] != [] {
          assert IsFile(gs[k][0]);
        }
      }
    }
    if |inputs| > 0 && inputs[0].Upstream? {
      GroupsPartition(inputs, AtLeast(mergeSize));
      assert gs[0][0] == inputs[0] by {
        assert Concat(gs) == gs[0] + Concat(gs[1..]);
      }
    }
  }

  // ------------------------------------------------------------ decode

  /** The decode job of one input: a job-typed input contributes its first output and one name edge. */
  function DecodeJob(ctx: Ctx, a: Artifact, id: nat): Result<Job, Fault> {
    var j := Fresh(ctx.workflow, Decoding, id).(phase := ctx.phase, cmd := Generated);
    match a
    case File(p) => Ok(j.(inputs := [File(p)]))
    case Upstream(u) =>
      if u.outputs == [] then Err(IndexError)
      else Ok(j.(inputs := [File(u.outputs[0])], antecedents := [Named(u.name)]))
  }

  function DecodeBuild(ctx: Ctx): (Artifact, nat) -> Result<Job, Fault> {
    (a: Artifact, id: nat) => DecodeJob(ctx, a, id)
  }

  /** The jobs `decode` builds. */
  function DecodeStage(ctx: Ctx, inputs: seq<Artifact>, id: nat): Built {
    Emit(DecodeBuild(ctx), inputs, id)
  }

  /**
    `decode` emits one job per input, in input order, until an upstream job
    without outputs raises IndexError; it raises exactly when such an input
    exists. A job-typed input contributes only its first output and exactly one
    edge, its name; a file contributes itself and no edge.
  */
  lemma DecodeShape(ctx: Ctx, inputs: seq<Artifact>, id: nat)
    ensures DecodeStage(ctx, inputs, id).fault.None? <==>
              forall k :: 0 <= k < |inputs| ==> inputs[k].File? || inputs[k].job.outputs != []
    ensures DecodeStage(ctx, inputs, id).fault.None? ==> |DecodeStage(ctx, inputs, id).jobs| == |inputs|
    ensures DecodeStage(ctx, inputs, id).fault.Some? ==> DecodeStage(ctx, inputs, id).fault == Some(IndexError)
    ensures forall k :: 0 <= k < |DecodeStage(ctx, inputs, id).jobs| ==>
              var j := DecodeStage(ctx, inputs, id).jobs[k];
              j.name.serial == id + k &&
              match inputs[k]
              case File(p) => j.inputs == [File(p)] && j.antecedents == []
              case Upstream(u) => u.outputs != [] && j.inputs == [File(u.outputs[0])] && j.antecedents == [Named(u.name)]
  {
    var r := DecodeStage(ctx, inputs, id);
    EmitSpec(DecodeBuild(ctx), inputs, id);
    if r.fault.None? {
      forall k | 0 <= k < |inputs| ensures inputs[k].File? || inputs[k].job.outputs != [] {
        assert DecodeBuild(ctx)(inputs[k], id + k).Ok?;
      }
    }
  }

  // ------------------------------------------------------------ delete, move

  /** What the external file-name parser yields for one path. */
  datatype RunFile = RunFile(runNumber: int, fileNumber: int)

  /** Both `delete` and `move` take files in blocks of at most 200. */
  const BlockSize: nat := 200

  /** The job's run tag as `setRun` records it: the run number zero-padded to six digits. */
  function RunTag(run: int): string {
    Text.ZeroPad(run, 6)
  }

  function DeleteSeconds(n: nat): nat {
    60 + 3 * n
  }

  function MoveSeconds(n: nat): nat {
    600 + 60 * n
  }

  /** A time request as given to `setTime`: `'%ds' % seconds`. */
  function TimeString(seconds: nat): string {
    Text.Decimal(seconds) + "s"
  }

  /** The `file` tag of a delete job: `'%.5d-%.5d'` of the first and last file numbers. */
  function FileRange(first: int, last: int): string {
    Text.ZeroPad(first, 5) + "-" + Text.ZeroPad(last, 5)
  }

  /** The tags of a delete job: the run, the file range and the mode. */
  function DeleteTags(run: int, range: string): (t: map<string, string>)
    ensures "run" in t && t["run"] == RunTag(run)
    ensures "file" in t && t["file"] == range && "mode" in t && t["mode"] == "delete"
  {
    map["run" := RunTag(run), "file" := range, "mode" := "delete"]
  }

  /** The tags of a move job: the run, the mode and the target directory. */
  function MoveTags(run: int, decDir: string): (t: map<string, string>)
    ensures "run" in t && t["run"] == RunTag(run)
    ensures "mode" in t && t["mode"] == "move" && "outDir" in t && t["outDir"] == decDir
  {
    map["run" := RunTag(run), "mode" := "move", "outDir" := decDir]
  }

  /** The paths of a block the delete job parses, its first and last, are well formed. */
  predicate DeleteParses(block: seq<string>, runFile: string -> Option<RunFile>) {
    block == [] || (runFile(block[0]).Some? && runFile(block[|block| - 1]).Some?)
  }

  /** The path of a block the move job parses, its first, is well formed. */
  predicate MoveParses(block: seq<string>, runFile: string -> Option<RunFile>) {
    block == [] || runFile(block[0]).Some?
  }

  /**
    The delete job of a block of file paths; a first or last path the parser
    rejects raises, after the job's serial number is taken.
  */
  function DeleteJob(ctx: Ctx, block: seq<string>, id: nat, runFile: string -> Option<RunFile>): Result<Job, Fault> {
    if block == [] then Err(IndexError)
    else if !DeleteParses(block, runFile) then Err(MalformedFilename)
    else
      var first := runFile(block[0]).value;
      var last := runFile(block[|block| - 1]).value;
      Ok(Fresh(ctx.workflow, Plain, id).(
        phase := ctx.phase, ram := Some("512MB"), time := Some(TimeString(DeleteSeconds(|block|))), disk := Some("100MB"),
        tags := DeleteTags(first.runNumber, FileRange(first.fileNumber, last.fileNumber)),
        cmd := Shell))
  }

  function DeleteBuild(ctx: Ctx, runFile: string -> Option<RunFile>): (seq<string>, nat) -> Result<Job, Fault> {
    (b: seq<string>, id: nat) => DeleteJob(ctx, b, id, runFile)
  }

  /** The jobs `delete` builds. */
  function DeleteStage(ctx: Ctx, files: seq<string>, id: nat, runFile: string -> Option<RunFile>): Built {
    Emit(DeleteBuild(ctx, runFile), Groups(files, AtLeast(BlockSize)), id)
  }

  /** The directory `move` sends a block to: the decoding directory joined with the six-digit run number. */
  function MoveDir(decDir: string, run: int): string {
    decDir + "/" + Text.ZeroPad(run, 6)
  }

  /** Where `move` puts one file: the target directory joined with the file's base name. */
  function MovedPath(outDir: string, file: string): string {
    outDir + "/" + Text.Basename(file)
  }

  /** The new locations of moved files, in order. */
  function MovedPaths(outDir: string, block: seq<string>): (r: seq<string>)
    ensures |r| == |block|
  {
    if block == [] then [] else MovedPaths(outDir, block[..|block| - 1]) + [MovedPath(outDir, block[|block| - 1])]
  }

  /** The k-th new location is that of the k-th file. */
  lemma {:induction false} MovedPathsAt(outDir: string, block: seq<string>, k: nat)
    requires k < |block|
    ensures MovedPaths(outDir, block)[k] == MovedPath(outDir, block[k])
    decreases |block|
  {
    if k < |block| - 1 {
      var init := block[..|block| - 1];
      MovedPathsAt(outDir, init, k);
      assert init[k] == block[k];
    }
  }

  /**
    The move job of a block of file paths; a first path the parser rejects
    raises, after the job's serial number is taken.
  */
  function MoveJob(ctx: Ctx, decDir: string, block: seq<string>, id: nat, runFile: string -> Option<RunFile>): Result<Job, Fault> {
    if block == [] then Err(IndexError)
    else if !MoveParses(block, runFile) then Err(MalformedFilename)
    else
      var run := runFile(block[0]).value.runNumber;
      Ok(Fresh(ctx.workflow, Plain, id).(
        phase := ctx.phase, ram := Some("512MB"), time := Some(TimeString(MoveSeconds(|block|))), disk := Some("100MB"),
        tags := MoveTags(run, decDir),
        cmd := Shell, outputs := MovedPaths(MoveDir(decDir, run), block)))
  }

  function MoveBuild(ctx: Ctx, decDir: string, runFile: string -> Option<RunFile>): (seq<string>, nat) -> Result<Job, Fault> {
    (b: seq<string>, id: nat) => MoveJob(ctx, decDir, b, id, runFile)
  }

  /** The jobs `move` builds. */
  function MoveStage(ctx: Ctx, decDir: string, files: seq<string>, id: nat, runFile: string -> Option<RunFile>): Built {
    Emit(MoveBuild(ctx, decDir, runFile), Groups(files, AtLeast(BlockSize)), id)
  }

  /** One more file of a block moved adds its new path at the end. */
  lemma MovedPathsStep(outDir: string, block: seq<string>, m: nat, m': nat)
    requires m < |block| && m' == m + 1
    ensures MovedPaths(outDir, block[..m']) == MovedPaths(outDir, block[..m]) + [MovedPath(outDir, block[m])]
  {
    assert block[..m'][..m] == block[..m];
  }

  /**
    The directories `move` asks the file-system helper to create, one per
    block, in order, up to the first block whose job cannot be built: that
    block raises before its directory is created.
  */
  function MoveDirs(decDir: string, blocks: seq<seq<string>>, runFile: string -> Option<RunFile>): (r: seq<string>)
    ensures |r| <= |blocks|
  {
    if blocks == [] || blocks[0] == [] || runFile(blocks[0][0]).None? then []
    else [MoveDir(decDir, runFile(blocks[0][0]).value.runNumber)] + MoveDirs(decDir, blocks[1..], runFile)
  }

  /** The block `rest[..k]` taken from what is left adds its directory, and the rest of the directories follow. */
  lemma MoveDirsNext(decDir: string, runFile: string -> Option<RunFile>, rest: seq<string>, k: nat, done: seq<string>,
                     rest': seq<string>, done': seq<string>)
    requires 0 < k <= |rest| && (k < |rest| ==> k == BlockSize) && k <= BlockSize && runFile(rest[0]).Some?
    requires rest' == rest[k..] && done' == done + [MoveDir(decDir, runFile(rest[0]).value.runNumber)]
    ensures done + MoveDirs(decDir, Groups(rest, AtLeast(BlockSize)), runFile) == done' + MoveDirs(decDir, Groups(rest', AtLeast(BlockSize)), runFile)
  {
    FirstBlock(rest, BlockSize, k);
    MoveDirsCons(decDir, Groups(rest, AtLeast(BlockSize)), runFile);
    SeqAssoc(done, [MoveDir(decDir, runFile(rest[0]).value.runNumber)], MoveDirs(decDir, Groups(rest', AtLeast(BlockSize)), runFile));
  }

  /** One block of `move` built and its directory created: what is emitted and created so far plus what the rest gives is unchanged. */
  lemma MoveAdvance(ctx: Ctx, decDir: string, runFile: string -> Option<RunFile>, files: seq<string>, block: seq<string>,
                    files': seq<string>, job: Job, id: nat, built: seq<Job>, built': seq<Job>, dirs0: seq<string>, dirs1: seq<string>)
    requires |files| > 0 && |block| == (if |files| < BlockSize then |files| else BlockSize)
    requires block == files[..|block|] && files' == files[|block|..]
    requires MoveJob(ctx, decDir, block, id, runFile) == Ok(job) && built' == built + [job]
    requires dirs1 == dirs0 + [MoveDir(decDir, runFile(block[0]).value.runNumber)]
    ensures After(built, Emit(MoveBuild(ctx, decDir, runFile), Groups(files, AtLeast(BlockSize)), id))
            == After(built', Emit(MoveBuild(ctx, decDir, runFile), Groups(files', AtLeast(BlockSize)), id + 1))
    ensures dirs0 + MoveDirs(decDir, Groups(files, AtLeast(BlockSize)), runFile)
            == dirs1 + MoveDirs(decDir, Groups(files', AtLeast(BlockSize)), runFile)
  {
    AtMostMinimal(block, BlockSize);
    assert MoveBuild(ctx, decDir, runFile)(files[..|block|], id) == Ok(job);
    GroupAdvance(MoveBuild(ctx, decDir, runFile), files, AtLeast(BlockSize), |block|, id, built, job, files', id + 1, built');
    assert block[0] == files[0];
    MoveDirsNext(decDir, runFile, files, |block|, dirs0, files', dirs1);
  }

  /** The first block of what is left raises `e`: emission ends with the jobs done and that exception, and no further directory is created. */
  lemma MoveStop(ctx: Ctx, decDir: string, runFile: string -> Option<RunFile>, files: seq<string>, block: seq<string>,
                 id: nat, built: seq<Job>, e: Fault, dirs0: seq<string>)
    requires |files| > 0 && |block| == (if |files| < BlockSize then |files| else BlockSize)
    requires block == files[..|block|]
    requires MoveJob(ctx, decDir, block, id, runFile) == Err(e)
    ensures After(built, Emit(MoveBuild(ctx, decDir, runFile), Groups(files, AtLeast(BlockSize)), id)) == Built(built, Some(e))
    ensures dirs0 + MoveDirs(decDir, Groups(files, AtLeast(BlockSize)), runFile) == dirs0
  {
    AtMostMinimal(block, BlockSize);
    assert MoveBuild(ctx, decDir, runFile)(files[..|block|], id) == Err(e);
    GroupFail(MoveBuild(ctx, decDir, runFile), files, AtLeast(BlockSize), |block|, id, built, e);
    FirstBlock(files, BlockSize, |block|);
    assert block[0] == files[0];
    assert dirs0 + [] == dirs0;
  }

  /** The directory of the first block comes first when its first path parses. */
  lemma MoveDirsCons(decDir: string, blocks: seq<seq<string>>, runFile: string -> Option<RunFile>)
    requires blocks != [] && blocks[0] != [] && runFile(blocks[0][0]).Some?
    ensures MoveDirs(decDir, blocks, runFile) == [MoveDir(decDir, runFile(blocks[0][0]).value.runNumber)] + MoveDirs(decDir, blocks[1..], runFile)
  {
  }

  /** Concatenation regroups. */
  lemma SeqAssoc<T>(a: seq<T>, b: seq<T>, c: seq<T>)
    ensures a + (b + c) == (a + b) + c
  {
  }

  /**
    `delete` raises only when the parser rejects a path: it builds a job for
    every block exactly when each block's first and last paths parse, and
    otherwise stops at the first block where one does not, with
    `MalformedFilename`.
  */
  lemma DeleteFailsOnParse(ctx: Ctx, files: seq<string>, id: nat, runFile: string -> Option<RunFile>)
    ensures DeleteStage(ctx, files, id, runFile).fault.None? <==>
              forall k :: 0 <= k < |Groups(files, AtLeast(BlockSize))| ==> DeleteParses(Groups(files, AtLeast(BlockSize))[k], runFile)
    ensures DeleteStage(ctx, files, id, runFile).fault.Some? ==>
              DeleteStage(ctx, files, id, runFile).fault == Some(MalformedFilename)
              && !DeleteParses(Groups(files, AtLeast(BlockSize))[|DeleteStage(ctx, files, id, runFile).jobs|], runFile)
  {
    var gs := Groups(files, AtLeast(BlockSize));
    var r := DeleteStage(ctx, files, id, runFile);
    GroupsPartition(files, AtLeast(BlockSize));
    EmitSpec(DeleteBuild(ctx, runFile), gs, id);
    if r.fault.None? {
      forall k | 0 <= k < |gs| ensures DeleteParses(gs[k], runFile) {
        assert DeleteBuild(ctx, runFile)(gs[k], id + k).Ok?;
      }
    } else {
      assert DeleteBuild(ctx, runFile)(gs[|r.jobs|], id + |r.jobs|) == Err(r.fault.value);
      assert gs[|r.jobs|] != [];
    }
  }

  /**
    `move` raises only when the parser rejects a path: it builds a job for
    every block exactly when each block's first path parses, and otherwise
    stops at the first block where it does not, with `MalformedFilename`;
    it creates one directory per job it builds.
  */
  lemma MoveFailsOnParse(ctx: Ctx, decDir: string, files: seq<string>, id: nat, runFile: string -> Option<RunFile>)
    ensures MoveStage(ctx, decDir, files, id, runFile).fault.None? <==>
              forall k :: 0 <= k < |Groups(files, AtLeast(BlockSize))| ==> MoveParses(Groups(files, AtLeast(BlockSize))[k], runFile)
    ensures MoveStage(ctx, decDir, files, id, runFile).fault.Some? ==>
              MoveStage(ctx, decDir, files, id, runFile).fault == Some(MalformedFilename)
              && !MoveParses(Groups(files, AtLeast(BlockSize))[|MoveStage(ctx, decDir, files, id, runFile).jobs|], runFile)
    ensures |MoveDirs(decDir, Groups(files, AtLeast(BlockSize)), runFile)| == |MoveStage(ctx, decDir, files, id, runFile).jobs|
  {
    var gs := Groups(files, AtLeast(BlockSize));
    var r := MoveStage(ctx, decDir, files, id, runFile);
    GroupsPartition(files, AtLeast(BlockSize));
    EmitSpec(MoveBuild(ctx, decDir, runFile), gs, id);
    if r.fault.None? {
      forall k | 0 <= k < |gs| ensures MoveParses(gs[k], runFile) {
        assert MoveBuild(ctx, decDir, runFile)(gs[k], id + k).Ok?;
      }
    } else {
      assert MoveBuild(ctx, decDir, runFile)(gs[|r.jobs|], id + |r.jobs|) == Err(r.fault.value);
      assert gs[|r.jobs|] != [];
    }
    MoveDirsPerJob(ctx, decDir, gs, id, runFile);
  }

  /** Over nonempty blocks, `move` creates a directory exactly for each block whose job it builds. */
  lemma {:induction false} MoveDirsPerJob(ctx: Ctx, decDir: string, gs: seq<seq<string>>, id: nat, runFile: string -> Option<RunFile>)
    requires forall k :: 0 <= k < |gs| ==> gs[k] != []
    ensures |MoveDirs(decDir, gs, runFile)| == |Emit(MoveBuild(ctx, decDir, runFile), gs, id).jobs|
    decreases |gs|
  {
    if gs != [] && runFile(gs[0][0]).Some? {
      assert MoveBuild(ctx, decDir, runFile)(gs[0], id).Ok?;
      assert forall k :: 0 <= k < |gs[1..]| ==> gs[1..][k] == gs[k + 1];
      MoveDirsPerJob(ctx, decDir, gs[1..], id + 1, runFile);
    }
  }

  /** When the parser accepts every path, `delete` and `move` never raise and over the same files build the same number of jobs. */
  lemma BlocksNeverFail(ctx: Ctx, decDir: string, files: seq<string>, id: nat, runFile: string -> Option<RunFile>)
    requires forall k :: 0 <= k < |files| ==> runFile(files[k]).Some?
    ensures DeleteStage(ctx, files, id, runFile).fault == None
    ensures MoveStage(ctx, decDir, files, id, runFile).fault == None
    ensures |DeleteStage(ctx, files, id, runFile).jobs| == |MoveStage(ctx, decDir, files, id, runFile).jobs|
              == |ChunkSizes(|files|, BlockSize)|
  {
    var gs: seq<seq<string>> := Groups(files, AtLeast(BlockSize));
    GroupsPartition(files, AtLeast(BlockSize));
    GroupsKeep(files, AtLeast(BlockSize), (f: string) => runFile(f).Some?);
    forall k | 0 <= k < |gs| ensures DeleteParses(gs[k], runFile) && MoveParses(gs[k], runFile) {
      assert runFile(gs[k][0]).Some? && runFile(gs[k][|gs[k]| - 1]).Some?;
    }
    DeleteFailsOnParse(ctx, files, id, runFile);
    MoveFailsOnParse(ctx, decDir, files, id, runFile);
    FixedChunks(files, BlockSize);
    assert |Sizes(gs)| == |gs|;
  }

  /** The seconds a time string encodes. */
  function TimeSeconds(t: string): Option<int> {
    if |t| > 0 && t[|t| - 1] == 's' then Text.ParseInt(t[..|t| - 1]) else None
  }

  lemma TimeRoundTrip(seconds: nat)
    ensures TimeSeconds(TimeString(seconds)) == Some(seconds)
  {
    var t := TimeString(seconds);
    assert t[..|t| - 1] == Text.Decimal(seconds);
    Text.PadRoundTrip(seconds, 0);
  }

  /**
    A delete or move job is built for a nonempty block exactly when the
    paths it parses are accepted, and its time reads back as 60+3n and
    600+60n seconds for a block of n files.
  */
  lemma BlockTime(ctx: Ctx, decDir: string, b: seq<string>, id: nat, runFile: string -> Option<RunFile>)
    requires b != []
    ensures DeleteJob(ctx, b, id, runFile).Ok? <==> runFile(b[0]).Some? && runFile(b[|b| - 1]).Some?
    ensures MoveJob(ctx, decDir, b, id, runFile).Ok? <==> runFile(b[0]).Some?
    ensures DeleteJob(ctx, b, id, runFile).Ok? ==>
              DeleteJob(ctx, b, id, runFile).value.time.Some?
              && TimeSeconds(DeleteJob(ctx, b, id, runFile).value.time.value) == Some(60 + 3 * |b|)
    ensures MoveJob(ctx, decDir, b, id, runFile).Ok? ==>
              MoveJob(ctx, decDir, b, id, runFile).value.time.Some?
              && TimeSeconds(MoveJob(ctx, decDir, b, id, runFile).value.time.value) == Some(600 + 60 * |b|)
  {
    TimeRoundTrip(DeleteSeconds(|b|));
    TimeRoundTrip(MoveSeconds(|b|));
  }

  /** For file numbers below 100000 the `file` tag is the two five-digit numbers around a '-', and reads back. */
  lemma FileRangeReadsBack(first: nat, last: nat)
    requires first < 100000 && last < 100000
    ensures |FileRange(first, last)| == 11 && FileRange(first, last)[5] == '-'
    ensures Text.ParseInt(FileRange(first, last)[..5]) == Some(first)
    ensures Text.ParseInt(FileRange(first, last)[6..]) == Some(last)
  {
    Text.DigitsBelow(first, 5, 100000);
    Text.DigitsBelow(last, 5, 100000);
    var a := Text.ZeroPad(first, 5);
    var b := Text.ZeroPad(last, 5);
    assert |a| == 5 && |b| == 5;
    assert FileRange(first, last)[..5] == a;
    assert FileRange(first, last)[6..] == b;
    Text.PadRoundTrip(first, 5);
    Text.PadRoundTrip(last, 5);
  }

  /** Each moved file's new path is the run's directory, '/', and the file's base name, which has no '/'. */
  lemma MovedUnderRunDir(ctx: Ctx, decDir: string, block: seq<string>, id: nat, runFile: string -> Option<RunFile>)
    requires block != []
    ensures MoveJob(ctx, decDir, block, id, runFile).Ok? ==>
              |MoveJob(ctx, decDir, block, id, runFile).value.outputs| == |block|
              && forall k :: 0 <= k < |block| ==>
                   MoveJob(ctx, decDir, block, id, runFile).value.outputs[k]
                     == MoveDir(decDir, runFile(block[0]).value.runNumber) + "/" + Text.Basename(block[k])
                   && '/' !in Text.Basename(block[k])
  {
    if runFile(block[0]).Some? {
      var outDir := MoveDir(decDir, runFile(block[0]).value.runNumber);
      forall k | 0 <= k < |block|
        ensures MoveJob(ctx, decDir, block, id, runFile).value.outputs[k] == outDir + "/" + Text.Basename(block[k])
      {
        MovedPathsAt(outDir, block, k);
      }
    }
  }

  /** The run tag of a delete or move job, when it is built, reads back as the run number of the block's first file. */
  lemma RunTagReadsBack(ctx: Ctx, decDir: string, block: seq<string>, id: nat, runFile: string -> Option<RunFile>)
    requires block != []
    ensures DeleteJob(ctx, block, id, runFile).Ok? ==>
              Text.ParseInt(DeleteJob(ctx, block, id, runFile).value.tags["run"]) == Some(runFile(block[0]).value.runNumber)
    ensures MoveJob(ctx, decDir, block, id, runFile).Ok? ==>
              Text.ParseInt(MoveJob(ctx, decDir, block, id, runFile).value.tags["run"]) == Some(runFile(block[0]).value.runNumber)
  {
    if runFile(block[0]).Some? {
      Text.PadRoundTrip(runFile(block[0]).value.runNumber, 6);
    }
  }

  // ------------------------------------------------------------ jput

  /** More than this many files in the current archive job start a new one. */
  const JputLimit: nat := 30

  /**
    The file lists of the archive jobs `jput` opens, in order: a new one is
    opened for the first job and whenever the current one holds more than 30
    files; each job's files go into the current one.
  */
  function Bundles(js: seq<Job>, files: Job -> seq<string>): seq<seq<string>> {
    if js == [] then [] else Handed(Bundles(js[..|js| - 1], files), files(js[|js| - 1]))
  }

  /** The file lists after one more job hands over the files `c`. */
  function Handed(b: seq<seq<string>>, c: seq<string>): seq<seq<string>> {
    if b == [] || |b[|b| - 1]| > JputLimit then b + [c]
    else b[..|b| - 1] + [b[|b| - 1] + c]
  }

  /** All the files the jobs hand over, in order. */
  function Collected(js: seq<Job>, files: Job -> seq<string>): seq<string> {
    if js == [] then [] else Collected(js[..|js| - 1], files) + files(js[|js| - 1])
  }

  /** The trailing archive job is dropped when it holds no file. */
  function DropEmptyLast(bs: seq<seq<string>>): seq<seq<string>> {
    if |bs| > 0 && bs[|bs| - 1] == [] then bs[..|bs| - 1] else bs
  }

  /** An archive job holding `files`. */
  function JputJob(ctx: Ctx, files: seq<string>, id: nat): (j: Job)
    ensures j.kind == Jput && j.name.serial == id && j.jputfiles == files
  {
    Fresh(ctx.workflow, Jput, id).(phase := ctx.phase, jputfiles := files)
  }

  /** One archive job per file list, serial numbers from `id` on. */
  function JputJobs(ctx: Ctx, bs: seq<seq<string>>, id: nat): (r: seq<Job>)
    ensures |r| == |bs| && forall k :: 0 <= k < |bs| ==> r[k] == JputJob(ctx, bs[k], id + k)
  {
    seq(|bs|, k requires 0 <= k < |bs| => JputJob(ctx, bs[k], id + k))
  }

  /** `r` holds one archive job per file list of `bs`, serial numbers from `id` on. */
  predicate Archives(ctx: Ctx, r: seq<Job>, bs: seq<seq<string>>, id: nat) {
    |r| == |bs| && forall i :: 0 <= i < |r| ==> r[i] == JputJob(ctx, bs[i], id + i)
  }

  /** A list of jobs that agrees with `JputJobs` at every index is that list. */
  lemma JputJobsOf(ctx: Ctx, r: seq<Job>, bs: seq<seq<string>>, id: nat)
    requires Archives(ctx, r, bs, id)
    ensures r == JputJobs(ctx, bs, id)
  {
  }

  /** Opening a new archive job, with the next serial number, adds an empty file list. */
  lemma ArchivesOpen(ctx: Ctx, r: seq<Job>, bs: seq<seq<string>>, id: nat, j: Job)
    requires Archives(ctx, r, bs, id) && j == JputJob(ctx, [], id + |r|)
    ensures Archives(ctx, r + [j], bs + [[]], id)
  {
  }

  /** The file lists after `c` is handed over, computed as `jput` does: open an empty list when needed, then extend the last. */
  lemma HandedLast(bs: seq<seq<string>>, c: seq<string>, opening: bool, b1: seq<seq<string>>, bs': seq<seq<string>>)
    requires opening == (bs == [] || |bs[|bs| - 1]| > JputLimit)
    requires b1 == if opening then bs + [[]] else bs
    requires bs' == b1[..|b1| - 1] + [b1[|b1| - 1] + c]
    ensures bs' == Handed(bs, c)
  {
    if opening {
      assert b1[..|b1| - 1] == bs && b1[|b1| - 1] + c == c;
    }
  }

  /** Handing files to the last archive job extends the last file list. */
  lemma ArchivesFill(ctx: Ctx, r: seq<Job>, bs: seq<seq<string>>, id: nat, c: seq<string>, r': seq<Job>, bs': seq<seq<string>>)
    requires Archives(ctx, r, bs, id) && r != []
    requires r' == r[..|r| - 1] + [r[|r| - 1].(jputfiles := r[|r| - 1].jputfiles + c)]
    requires bs' == bs[..|bs| - 1] + [bs[|bs| - 1] + c]
    ensures Archives(ctx, r', bs', id)
  {
    forall i | 0 <= i < |r'|
      ensures r'[i] == JputJob(ctx, bs'[i], id + i)
    {
      if i < |r| - 1 {
        assert r'[i] == r[i] && bs'[i] == bs[i];
      }
    }
  }

  /** The file lists of `js[..k + 1]`: the files of `js[k]` open a new list or extend the last one. */
  lemma BundlesStep(js: seq<Job>, files: Job -> seq<string>, k: nat)
    requires k < |js|
    ensures Bundles(js[..k + 1], files) == Handed(Bundles(js[..k], files), files(js[k]))
  {
    assert js[..k + 1][..k] == js[..k];
    assert js[..k + 1][k] == js[k];
  }

  /** The jobs `jput` returns. */
  function JputStage(ctx: Ctx, js: seq<Job>, files: Job -> seq<string>, id: nat): seq<Job> {
    JputJobs(ctx, DropEmptyLast(Bundles(js, files)), id)
  }

  /** The archive jobs hold the handed-over files, in order. */
  lemma {:induction false} BundlesConcat(js: seq<Job>, files: Job -> seq<string>)
    ensures Concat(Bundles(js, files)) == Collected(js, files)
  {
    if js != [] {
      var js' := js[..|js| - 1];
      BundlesConcat(js', files);
      var b, c := Bundles(js', files), files(js[|js| - 1]);
      if b == [] || |b[|b| - 1]| > JputLimit {
        ConcatSnoc(b, c);
      } else {
        ConcatInit(b);
        ConcatSnoc(b[..|b| - 1], b[|b| - 1]);
        ConcatExtend(b[..|b| - 1], b[|b| - 1], c);
      }
    }
  }

  /**
    Every archive job but the last holds more than 30 files; there is one
    for nonempty input at least, and never more than there are jobs.
  */
  lemma {:induction false} BundlesFull(js: seq<Job>, files: Job -> seq<string>)
    ensures forall i :: 0 <= i < |Bundles(js, files)| - 1 ==> |Bundles(js, files)[i]| > JputLimit
    ensures |Bundles(js, files)| <= |js|
    ensures js == [] <==> Bundles(js, files) == []
  {
    if js != [] {
      var js' := js[..|js| - 1];
      var b := Bundles(js', files);
      BundlesFull(js', files);
    }
  }

  /**
    `jput` returns nothing for no input, never ends with an archive job
    without files, fills every job but the last beyond 30 files, and together
    its jobs archive all handed-over files in order.
  */
  lemma JputShape(ctx: Ctx, js: seq<Job>, files: Job -> seq<string>, id: nat)
    ensures js == [] ==> JputStage(ctx, js, files, id) == []
    ensures |JputStage(ctx, js, files, id)| > 0 ==> JputStage(ctx, js, files, id)[|JputStage(ctx, js, files, id)| - 1].jputfiles != []
    ensures forall i :: 0 <= i < |JputStage(ctx, js, files, id)| - 1 ==> |JputStage(ctx, js, files, id)[i].jputfiles| > JputLimit
    ensures Concat(DropEmptyLast(Bundles(js, files))) == Collected(js, files)
  {
    var bs := Bundles(js, files);
    BundlesConcat(js, files);
    BundlesFull(js, files);
    var d := DropEmptyLast(bs);
    if |bs| > 0 && bs[|bs| - 1] == [] {
      assert bs == d + [[]];
      ConcatAppend(d, [[]]);
      var none: seq<seq<string>> := [[]];
      assert Concat(none) == [];
      if |d| > 0 {
        assert |d[|d| - 1]| > JputLimit;
      }
    }
  }
}
