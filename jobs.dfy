/**
  The job graph's vertices and the artifacts flowing between stages.
  A stage input is either a raw file path or an upstream job; a job carries
  its inputs, declared outputs, antecedent edges and string tags.
*/
module Jobs {
  import opened Wrappers
  import Batching

  /** A job's name: the workflow it belongs to and the serial number the job factory gave it. */
  datatype JobName = JobName(workflow: string, serial: nat)

  /** The job classes of the job factory, one per stage flavour; `Plain` is the generic job. */
  datatype Kind = Decoding | DecodeAndMerge | Merging | Recon | Histo | Train | TrainMerge | TrainCleanup | Jput | Plain

  /** Whether a command was set: by the factory from the job's inputs (`setCmd()`), or as an explicit shell string. */
  datatype Cmd = NoCmd | Generated | Shell

  /**
    The Python exceptions the builders can raise; `MalformedFilename` is the
    file-name parser rejecting a path.
  */
  datatype Fault = AttributeError | IndexError | NotImplementedError | ValueError | TagNotFound | MalformedFilename

  /** A stage input: a file path, or a previously built job. */
  datatype Artifact = File(path: string) | Upstream(job: Job)

  /** An antecedent edge: most builders record the upstream job's name, `merge` the job object itself. */
  datatype Antecedent = Named(name: JobName) | Object(job: Job)

  datatype Job = Job(
    name: JobName,
    kind: Kind,
    phase: int,
    inputs: seq<Artifact>,
    outputs: seq<string>,
    antecedents: seq<Antecedent>,
    tags: map<string, string>,
    ram: Option<string>,
    time: Option<string>,
    disk: Option<string>,
    cmd: Cmd,
    logDir: Option<string>,
    jputfiles: seq<string>)

  /** A job as the factory hands it out, before the builder fills it in. */
  function Fresh(workflow: string, kind: Kind, serial: nat): (j: Job)
    ensures j.name == JobName(workflow, serial) && j.kind == kind
    ensures j.inputs == [] && j.outputs == [] && j.antecedents == [] && j.tags == map[]
  {
    Job(JobName(workflow, serial), kind, 0, [], [], [], map[], None, None, None, NoCmd, None, [])
  }

  /** The paths consuming one artifact contributes: the file itself, or the job's declared outputs. */
  function Units(a: Artifact): seq<string> {
    match a
    case File(p) => [p]
    case Upstream(j) => j.outputs
  }

  /** The expanded input list of a group: each job replaced by its `outputData`, in order. */
  function Expand(g: seq<Artifact>): seq<string> {
    if g == [] then [] else Expand(g[..|g| - 1]) + Units(g[|g| - 1])
  }

  /** The job-typed elements of a group, in order. */
  function UpstreamJobs(g: seq<Artifact>): seq<Job> {
    if g == [] then []
    else UpstreamJobs(g[..|g| - 1]) + (if g[|g| - 1].Upstream? then [g[|g| - 1].job] else [])
  }

  /** Name edges to the given jobs, in order. */
  function NamesOf(js: seq<Job>): (r: seq<Antecedent>)
    ensures |r| == |js| && forall k :: 0 <= k < |js| ==> r[k] == Named(js[k].name)
  {
    seq(|js|, k requires 0 <= k < |js| => Named(js[k].name))
  }

  /** Object edges to the given jobs, in order. */
  function ObjectsOf(js: seq<Job>): (r: seq<Antecedent>)
    ensures |r| == |js| && forall k :: 0 <= k < |js| ==> r[k] == Object(js[k])
  {
    seq(|js|, k requires 0 <= k < |js| => Object(js[k]))
  }

  /** Name edges to the job-typed elements of a group. */
  function UpstreamNames(g: seq<Artifact>): seq<Antecedent> {
    NamesOf(UpstreamJobs(g))
  }

  /** Paths handed to `addInputData`, as file artifacts. */
  function Files(ps: seq<string>): (r: seq<Artifact>)
    ensures |r| == |ps| && forall k :: 0 <= k < |ps| ==> r[k] == File(ps[k])
  {
    seq(|ps|, k requires 0 <= k < |ps| => File(ps[k]))
  }

  lemma {:induction false} ExpandAppend(a: seq<Artifact>, b: seq<Artifact>)
    ensures Expand(a + b) == Expand(a) + Expand(b)
    decreases |b|
  {
    if b == [] {
      assert a + b == a;
    } else {
      var b', x := b[..|b| - 1], b[|b| - 1];
      assert (a + b)[..|a + b| - 1] == a + b' && (a + b)[|a + b| - 1] == x;
      assert Expand(a + b) == Expand(a + b') + Units(x);
      ExpandAppend(a, b');
      assert Expand(b) == Expand(b') + Units(x);
      assert Expand(a) + Expand(b') + Units(x) == Expand(a) + (Expand(b') + Units(x));
    }
  }

  lemma {:induction false} UpstreamAppend(a: seq<Artifact>, b: seq<Artifact>)
    ensures UpstreamJobs(a + b) == UpstreamJobs(a) + UpstreamJobs(b)
    decreases |b|
  {
    if b == [] {
      assert a + b == a;
    } else {
      var b' := b[..|b| - 1];
      assert (a + b)[..|a + b| - 1] == a + b';
      UpstreamAppend(a, b');
    }
  }

  lemma ExpandSnoc(g: seq<Artifact>, a: Artifact)
    ensures Expand(g + [a]) == Expand(g) + Units(a)
    ensures UpstreamJobs(g + [a]) == UpstreamJobs(g) + (if a.Upstream? then [a.job] else [])
  {
    assert (g + [a])[..|g|] == g;
  }

  /** The group `s[st..i]` extended by the next input. */
  lemma ExpandStep(s: seq<Artifact>, st: nat, i: nat)
    requires st <= i < |s|
    ensures Expand(s[st..i + 1]) == Expand(s[st..i]) + Units(s[i])
    ensures UpstreamJobs(s[st..i + 1]) == UpstreamJobs(s[st..i]) + (if s[i].Upstream? then [s[i].job] else [])
  {
    assert s[st..i + 1] == s[st..i] + [s[i]];
    ExpandSnoc(s[st..i], s[i]);
  }

  /** The prefix `s[..i]` extended by the next input. */
  lemma ExpandPrefix(s: seq<Artifact>, i: nat)
    requires i < |s|
    ensures Expand(s[..i + 1]) == Expand(s[..i]) + Units(s[i])
    ensures UpstreamJobs(s[..i + 1]) == UpstreamJobs(s[..i]) + (if s[i].Upstream? then [s[i].job] else [])
  {
    assert s[..i + 1] == s[..i] + [s[i]];
    ExpandSnoc(s[..i], s[i]);
  }

  lemma FilesAppend(a: seq<string>, b: seq<string>)
    ensures Files(a + b) == Files(a) + Files(b)
  {
  }

  lemma NamesAppend(a: seq<Job>, b: seq<Job>)
    ensures NamesOf(a + b) == NamesOf(a) + NamesOf(b)
  {
  }

  /** A group whose elements are all jobs expands to their outputs and lists every one of them. */
  lemma {:induction false} AllUpstream(g: seq<Artifact>)
    requires forall k :: 0 <= k < |g| ==> g[k].Upstream?
    ensures |UpstreamJobs(g)| == |g|
    ensures forall k :: 0 <= k < |g| ==> UpstreamJobs(g)[k] == g[k].job
  {
    if g != [] {
      AllUpstream(g[..|g| - 1]);
    }
  }

  /** A group of files only expands to its own paths and has no job-typed element. */
  lemma {:induction false} AllFiles(g: seq<Artifact>)
    requires forall k :: 0 <= k < |g| ==> g[k].File?
    ensures Files(Expand(g)) == g
    ensures UpstreamJobs(g) == []
  {
    if g != [] {
      var g' := g[..|g| - 1];
      AllFiles(g');
      FilesAppend(Expand(g'), [g[|g| - 1].path]);
      assert g == g' + [g[|g| - 1]];
    }
  }

  /** A path is among a group's expanded inputs exactly when some element contributes it. */
  lemma {:induction false} ExpandMember(g: seq<Artifact>, p: string)
    ensures p in Expand(g) <==> exists m :: 0 <= m < |g| && p in Units(g[m])
    decreases |g|
  {
    if g != [] {
      var g' := g[..|g| - 1];
      ExpandMember(g', p);
      if p in Expand(g') {
        var m :| 0 <= m < |g'| && p in Units(g'[m]);
        assert g[m] == g'[m];
      }
      if exists m :: 0 <= m < |g| && p in Units(g[m]) {
        var m :| 0 <= m < |g| && p in Units(g[m]);
        if m < |g| - 1 {
          assert g'[m] == g[m];
        }
      }
    }
  }

  /** A job is among a group's job-typed elements exactly when some element is that job. */
  lemma {:induction false} UpstreamMember(g: seq<Artifact>, j: Job)
    ensures j in UpstreamJobs(g) <==> exists m :: 0 <= m < |g| && g[m] == Upstream(j)
    decreases |g|
  {
    if g != [] {
      var g' := g[..|g| - 1];
      UpstreamMember(g', j);
      if j in UpstreamJobs(g') {
        var m :| 0 <= m < |g'| && g'[m] == Upstream(j);
        assert g[m] == g'[m];
      }
      if exists m :: 0 <= m < |g| && g[m] == Upstream(j) {
        var m :| 0 <= m < |g| && g[m] == Upstream(j);
        if m < |g| - 1 {
          assert g'[m] == g[m];
        }
      }
    }
  }

  /** A group has at most as many job-typed elements as elements, and as many exactly when all are jobs. */
  lemma {:induction false} UpstreamCount(g: seq<Artifact>)
    ensures |UpstreamJobs(g)| <= |g|
    ensures |UpstreamJobs(g)| == |g| <==> forall m :: 0 <= m < |g| ==> g[m].Upstream?
    decreases |g|
  {
    if g != [] {
      var g' := g[..|g| - 1];
      UpstreamCount(g');
      assert forall m :: 0 <= m < |g'| ==> g'[m] == g[m];
    }
  }

  /** The inputs of a list of jobs, concatenated in order. */
  function InputsOf(js: seq<Job>): seq<Artifact> {
    if js == [] then [] else js[0].inputs + InputsOf(js[1..])
  }

  /** The antecedents of a list of jobs, concatenated in order. */
  function AntecedentsOf(js: seq<Job>): seq<Antecedent> {
    if js == [] then [] else js[0].antecedents + AntecedentsOf(js[1..])
  }

  /** The jobs as `addJob` leaves them: each stamped with the workflow's log directory. */
  function Stamp(logDir: Option<string>, js: seq<Job>): (r: seq<Job>)
    ensures |r| == |js|
  {
    seq(|js|, k requires 0 <= k < |js| => js[k].(logDir := logDir))
  }

  /** Stamping a list is stamping its parts. */
  lemma StampAppend(logDir: Option<string>, a: seq<Job>, b: seq<Job>)
    ensures Stamp(logDir, a + b) == Stamp(logDir, a) + Stamp(logDir, b)
  {
    assert forall k :: 0 <= k < |a + b| ==> Stamp(logDir, a + b)[k] == (Stamp(logDir, a) + Stamp(logDir, b))[k];
  }

  /** Stamped jobs added after stamped jobs: the stamped concatenation added. */
  lemma StampExtend(logDir: Option<string>, base: seq<Job>, built: seq<Job>, more: seq<Job>)
    ensures base + Stamp(logDir, built) + Stamp(logDir, more) == base + Stamp(logDir, built + more)
  {
    StampAppend(logDir, built, more);
    assert base + Stamp(logDir, built) + Stamp(logDir, more) == base + (Stamp(logDir, built) + Stamp(logDir, more));
  }

  /** What a builder produced: the jobs it completed and the exception, if one was raised. */
  datatype Built = Built(jobs: seq<Job>, fault: Option<Fault>)

  /** Jobs completed before a continuation. */
  function After(done: seq<Job>, b: Built): Built {
    Built(done + b.jobs, b.fault)
  }

  /**
    Building one job per group in order, each with the next serial number,
    until a group's construction raises: the jobs before the failing group
    are kept, and the exception is reported.
  */
  function Emit<G>(build: (G, nat) -> Result<Job, Fault>, gs: seq<G>, id: nat): (r: Built)
    ensures |r.jobs| <= |gs| && (r.fault.None? ==> |r.jobs| == |gs|) && (r.fault.Some? ==> |r.jobs| < |gs|)
    decreases |gs|
  {
    if gs == [] then Built([], None)
    else match build(gs[0], id)
      case Err(e) => Built([], Some(e))
      case Ok(j) =>
        var rest := Emit(build, gs[1..], id + 1);
        Built([j] + rest.jobs, rest.fault)
  }

  /**
    Emission keeps a prefix of the groups: job `k` is what group `k` builds
    with serial number `id + k`; when it stopped, the next group's
    construction raised the reported exception.
  */
  lemma {:induction false} EmitSpec<G>(build: (G, nat) -> Result<Job, Fault>, gs: seq<G>, id: nat)
    ensures forall k :: 0 <= k < |Emit(build, gs, id).jobs| ==> build(gs[k], id + k) == Ok(Emit(build, gs, id).jobs[k])
    ensures Emit(build, gs, id).fault.Some? ==>
              build(gs[|Emit(build, gs, id).jobs|], id + |Emit(build, gs, id).jobs|) == Err(Emit(build, gs, id).fault.value)
    decreases |gs|
  {
    if gs != [] && build(gs[0], id).Ok? {
      var r := Emit(build, gs, id);
      var rest := Emit(build, gs[1..], id + 1);
      EmitSpec(build, gs[1..], id + 1);
      assert r.jobs == [build(gs[0], id).value] + rest.jobs;
      forall k | 0 <= k < |r.jobs| ensures build(gs[k], id + k) == Ok(r.jobs[k]) {
        if k > 0 {
          assert build(gs[1..][k - 1], id + 1 + (k - 1)) == Ok(rest.jobs[k - 1]);
        }
      }
    }
  }

  /** When every group builds, emission never stops early. */
  lemma {:induction false} EmitAllOk<G>(build: (G, nat) -> Result<Job, Fault>, gs: seq<G>, id: nat)
    requires forall k :: 0 <= k < |gs| ==> build(gs[k], id + k).Ok?
    ensures Emit(build, gs, id).fault == None && |Emit(build, gs, id).jobs| == |gs|
    decreases |gs|
  {
    if gs != [] {
      assert build(gs[0], id + 0).Ok?;
      forall k | 0 <= k < |gs[1..]| ensures build(gs[1..][k], id + 1 + k).Ok? {
        assert build(gs[k + 1], id + (k + 1)).Ok?;
      }
      EmitAllOk(build, gs[1..], id + 1);
    }
  }

  /** Emitting for one more group after the ones done. */
  lemma EmitStep<G>(build: (G, nat) -> Result<Job, Fault>, gs: seq<G>, id: nat)
    requires |gs| > 0
    ensures build(gs[0], id).Ok? ==> Emit(build, gs, id) == After([build(gs[0], id).value], Emit(build, gs[1..], id + 1))
    ensures build(gs[0], id).Err? ==> Emit(build, gs, id) == Built([], Some(build(gs[0], id).error))
  {
  }

  /** Jobs completed in two stretches are completed in order. */
  lemma AfterAfter(a: seq<Job>, b: seq<Job>, r: Built)
    ensures After(a, After(b, r)) == After(a + b, r)
  {
  }

  // A builder loop keeps the equation
  //   Emit(build, all, id0) == After(built, Emit(build, rest, id0 + |built|)):
  // what it has built, followed by what the inputs it has not yet consumed
  // emit. The lemmas below advance `rest` by one input or one group.

  /** Emitting from input `i` on: the job for input `i`, then the rest; or the exception input `i` raises. */
  lemma EmitNext<G>(build: (G, nat) -> Result<Job, Fault>, gs: seq<G>, i: nat, id: nat)
    requires i < |gs|
    ensures build(gs[i], id).Ok? ==> Emit(build, gs[i..], id) == After([build(gs[i], id).value], Emit(build, gs[i + 1..], id + 1))
    ensures build(gs[i], id).Err? ==> Emit(build, gs[i..], id) == Built([], Some(build(gs[i], id).error))
  {
    assert gs[i..][0] == gs[i] && gs[i..][1..] == gs[i + 1..];
    EmitStep(build, gs[i..], id);
  }

  /** Nothing is left to emit once every input is consumed. */
  lemma EmitEnd<G>(build: (G, nat) -> Result<Job, Fault>, gs: seq<G>, id: nat, built: seq<Job>)
    ensures After(built, Emit(build, gs[|gs|..], id)) == Built(built, None)
  {
    assert gs[|gs|..] == [];
    assert built + [] == built;
  }

  /**
    Input `i` builds job `j`: `j` joins the jobs done and emission goes on
    from input `i'` with serial number `id'`, the loop's next state.
  */
  lemma EmitAdvance<G>(build: (G, nat) -> Result<Job, Fault>, gs: seq<G>, i: nat, id: nat, built: seq<Job>, j: Job,
                       i': nat, id': nat, built': seq<Job>)
    requires i < |gs| && build(gs[i], id) == Ok(j)
    requires i' == i + 1 && id' == id + 1 && built' == built + [j]
    ensures After(built, Emit(build, gs[i..], id)) == After(built', Emit(build, gs[i'..], id'))
  {
    EmitNext(build, gs, i, id);
    AfterAfter(built, [j], Emit(build, gs[i + 1..], id + 1));
  }

  /** Input `i` raises `e`: emission ends with the jobs done and that exception. */
  lemma EmitFail<G>(build: (G, nat) -> Result<Job, Fault>, gs: seq<G>, i: nat, id: nat, built: seq<Job>, e: Fault)
    requires i < |gs| && build(gs[i], id) == Err(e)
    ensures After(built, Emit(build, gs[i..], id)) == Built(built, Some(e))
  {
    EmitNext(build, gs, i, id);
    assert built + [] == built;
  }

  /**
    Closing the group `s[st..e]` (minimal, and full unless it reaches the
    end): the groups from `st` on are that group and then the groups from
    `e` on, so emission from `st` is its job and then emission from `e`, or
    the exception its construction raises.
  */
  lemma GroupNext<T>(build: (seq<T>, nat) -> Result<Job, Fault>, s: seq<T>, full: seq<T> -> bool,
                     st: nat, e: nat, id: nat)
    requires st < e <= |s|
    requires Batching.Minimal(s[st..e], full) && (e < |s| ==> full(s[st..e]))
    ensures Batching.Groups(s[st..], full) == [s[st..e]] + Batching.Groups(s[e..], full)
    ensures build(s[st..e], id).Ok? ==>
              Emit(build, Batching.Groups(s[st..], full), id)
              == After([build(s[st..e], id).value], Emit(build, Batching.Groups(s[e..], full), id + 1))
    ensures build(s[st..e], id).Err? ==>
              Emit(build, Batching.Groups(s[st..], full), id) == Built([], Some(build(s[st..e], id).error))
  {
    var g := s[st..e];
    assert s[st..] == g + s[e..];
    Batching.FirstGroup(g, s[e..], full);
    var gs := [g] + Batching.Groups(s[e..], full);
    assert gs[0] == g && gs[1..] == Batching.Groups(s[e..], full);
    EmitStep(build, gs, id);
  }

  /**
    Closing the group `s[st..e]` with job `j`: `j` joins the jobs done and
    emission goes on over the groups from `st'`, the loop's next state.
  */
  lemma GroupClose<T>(build: (seq<T>, nat) -> Result<Job, Fault>, s: seq<T>, full: seq<T> -> bool, st: nat, e: nat,
                      id: nat, built: seq<Job>, j: Job, st': nat, id': nat, built': seq<Job>)
    requires st < e <= |s| && Batching.Minimal(s[st..e], full) && (e < |s| ==> full(s[st..e]))
    requires build(s[st..e], id) == Ok(j)
    requires st' == e && id' == id + 1 && built' == built + [j]
    ensures After(built, Emit(build, Batching.Groups(s[st..], full), id)) == After(built', Emit(build, Batching.Groups(s[st'..], full), id'))
  {
    GroupNext(build, s, full, st, e, id);
    AfterAfter(built, [j], Emit(build, Batching.Groups(s[e..], full), id + 1));
  }

  /** The group `s[st..e]` raises `f`: emission ends with the jobs done and that exception. */
  lemma GroupCloseFail<T>(build: (seq<T>, nat) -> Result<Job, Fault>, s: seq<T>, full: seq<T> -> bool, st: nat, e: nat,
                          id: nat, built: seq<Job>, f: Fault)
    requires st < e <= |s| && Batching.Minimal(s[st..e], full) && (e < |s| ==> full(s[st..e]))
    requires build(s[st..e], id) == Err(f)
    ensures After(built, Emit(build, Batching.Groups(s[st..], full), id)) == Built(built, Some(f))
  {
    GroupNext(build, s, full, st, e, id);
    assert built + [] == built;
  }

  /** `GroupClose` for the group `g == s[st..i + 1]` closed at input `i`, with the next state `i'`, `st'`, `id'`, `built'`. */
  lemma GroupCloseAt<T>(build: (seq<T>, nat) -> Result<Job, Fault>, s: seq<T>, full: seq<T> -> bool, st: nat, i: nat, g: seq<T>,
                        id: nat, built: seq<Job>, j: Job, i': nat, st': nat, id': nat, built': seq<Job>)
    requires st <= i < |s| && g == s[st..i + 1] && Batching.Minimal(g, full) && (i < |s| - 1 ==> full(g))
    requires build(g, id) == Ok(j)
    requires i' == i + 1 && st' == i' && id' == id + 1 && built' == built + [j]
    ensures After(built, Emit(build, Batching.Groups(s[st..], full), id)) == After(built', Emit(build, Batching.Groups(s[st'..], full), id'))
  {
    GroupClose(build, s, full, st, i + 1, id, built, j, st', id', built');
  }

  /** `GroupCloseFail` for the group `g == s[st..i + 1]` closed at input `i`. */
  lemma GroupCloseAtFail<T>(build: (seq<T>, nat) -> Result<Job, Fault>, s: seq<T>, full: seq<T> -> bool, st: nat, i: nat, g: seq<T>,
                            id: nat, built: seq<Job>, f: Fault)
    requires st <= i < |s| && g == s[st..i + 1] && Batching.Minimal(g, full) && (i < |s| - 1 ==> full(g))
    requires build(g, id) == Err(f)
    ensures After(built, Emit(build, Batching.Groups(s[st..], full), id)) == Built(built, Some(f))
  {
    GroupCloseFail(build, s, full, st, i + 1, id, built, f);
  }

  /**
    Closing the first group `rest[..k]` of what is left with job `j`: `j`
    joins the jobs done and emission goes on over `rest'`, the remainder.
  */
  lemma GroupAdvance<T>(build: (seq<T>, nat) -> Result<Job, Fault>, rest: seq<T>, full: seq<T> -> bool, k: nat,
                        id: nat, built: seq<Job>, j: Job, rest': seq<T>, id': nat, built': seq<Job>)
    requires 0 < k <= |rest| && Batching.Minimal(rest[..k], full) && (k < |rest| ==> full(rest[..k]))
    requires build(rest[..k], id) == Ok(j)
    requires rest' == rest[k..] && id' == id + 1 && built' == built + [j]
    ensures After(built, Emit(build, Batching.Groups(rest, full), id)) == After(built', Emit(build, Batching.Groups(rest', full), id'))
  {
    assert rest[0..k] == rest[..k] && rest[0..] == rest;
    GroupNext(build, rest, full, 0, k, id);
    AfterAfter(built, [j], Emit(build, Batching.Groups(rest[k..], full), id + 1));
  }

  /** The first group `rest[..k]` of what is left raises `e`: emission ends with the jobs done and that exception. */
  lemma GroupFail<T>(build: (seq<T>, nat) -> Result<Job, Fault>, rest: seq<T>, full: seq<T> -> bool, k: nat,
                     id: nat, built: seq<Job>, e: Fault)
    requires 0 < k <= |rest| && Batching.Minimal(rest[..k], full) && (k < |rest| ==> full(rest[..k]))
    requires build(rest[..k], id) == Err(e)
    ensures After(built, Emit(build, Batching.Groups(rest, full), id)) == Built(built, Some(e))
  {
    assert rest[0..k] == rest[..k] && rest[0..] == rest;
    GroupNext(build, rest, full, 0, k, id);
    assert built + [] == built;
  }

  /** A batching loop that has consumed its whole input has nothing left to emit. */
  lemma GroupsEnd<T>(build: (seq<T>, nat) -> Result<Job, Fault>, s: seq<T>, full: seq<T> -> bool, e: nat, id: nat, built: seq<Job>)
    requires e == |s|
    ensures After(built, Emit(build, Batching.Groups(s[e..], full), id)) == Built(built, None)
  {
    assert s[e..] == [];
    assert built + [] == built;
  }

  /** A batching loop starts with all of its input ahead of it. */
  lemma GroupsStart<T>(build: (seq<T>, nat) -> Result<Job, Fault>, s: seq<T>, full: seq<T> -> bool, id: nat)
    ensures Emit(build, Batching.Groups(s, full), id) == After([], Emit(build, Batching.Groups(s[0..], full), id))
  {
    assert s[0..] == s;
  }
}
