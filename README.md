# CLAS12 workflow builder and CLARA log reader, modelled in Dafny

The CLAS12 workflow tools turn a list of run numbers and input files into a
batch workflow: a directed graph of farm jobs (decoding, merging,
reconstruction, histogramming, analysis trains, archiving, deletion, moves)
whose edges ("antecedents") say which job must finish before another starts.
The `CLAS12Workflow` object holds the accepted runs, the quarantined ("junk")
runs and the jobs added so far. Each stage builder walks its inputs in order,
cuts them into groups by a stage-specific rule, builds one job per group from
the job factory, and adds each job to the workflow.

The second component is the CLARA log reader. It scans a reconstruction log
line by line. Each line that mentions one of eleven tags is split into
whitespace-separated tokens, and the token count decides which field of the
log record the line may update: thread count, number of files, events,
directories, output prefix, cached input files, start and end time, the two
timing figures, and the database-error bit.

The Dafny project is organised as follows.

- `wrappers.dfy`: `Option` and `Result`.
- `text.dfy`: the Python string operations the code relies on: `find`,
  `lower`, `strip`, `split`, `basename`, `'%d'` and `'%.Nd'` formatting, and
  `int()`.
- `jobs.dfy`: jobs, artifacts (a file or an upstream job) and antecedent edges.
  `Emit` builds one job per group with consecutive serial numbers and stops at
  the first exception, keeping the jobs built before it.
- `batching.dfy`: the greedy grouping rule shared by the builders. `Groups(s, full)`
  closes the current group as soon as `full` holds of it or the input ends.
- `stages.dfy`: for each builder, the jobs it produces as a function of its
  inputs, and lemmas about them.
- `rungroups.dfy`: the same for `trainmerge` and `trainclean`, which group
  jobs by their `run` tag.
- `workflow.dfy`: the workflow as a class. It has `runs`, `ignored`, `jobs`,
  the job factory's serial counter `nextId`, and the directories created
  (`dirs`). Its methods walk their inputs with loops and are proved to add
  exactly the jobs the corresponding `Stages`/`RunGroups` function describes.
- `clara.dfy`: the log reader. `ParseLine` and `ParseLines` are the
  specification. The class `ClaraLog` holds the record's fields and updates
  them in place; `Parse` and `Feed` are proved against `ParseLine` and
  `ParseLines`.

Three behaviours of the code are worth knowing when reading the model:

- `trainclean` groups only the jobs whose `mode` tag is `ana` or `anamrg`;
  jobs of any other mode, such as decode jobs, are not among its antecedents.
- A builder that raises part-way keeps the jobs it has already added to the
  workflow. `decode`, `train`, `merge`, `decodemerge`, `trainmerge` and
  `trainclean` all add each job as soon as it is built.
- `merge` records the upstream job objects themselves as antecedents, where
  every other builder records their names.

## Model

| member | source | states |
|---|---|---|
| Workflow.CLAS12Workflow.constructor | lib/clas12/CLAS12Workflow.py:12-40 | no runs, no quarantined runs, no jobs; when a log directory is configured, the log directory is it joined with the workflow name, and that directory is the one created |
| Workflow.CLAS12Workflow.AddRun | lib/clas12/CLAS12Workflow.py:26-35 | a non-integer changes nothing; under strict checking a run whose comment contains "junk" in any case is quarantined, at most once, and not accepted; any other integer run is appended to the accepted runs; Valid (no junk run accepted under strict checking, only junk runs quarantined, no duplicates) is kept |
| Workflow.CLAS12Workflow.AddJob | lib/clas12/CLAS12Workflow.py:42-47 | a job, or a nested list of jobs flattened left to right, is appended, each job given the workflow's log directory |
| Workflow.CLAS12Workflow.AddJobs | lib/clas12/CLAS12Workflow.py:42-47 | a flat list of jobs is appended in order, each stamped with the log directory |
| Workflow.CLAS12Workflow.NewJob | lib/clas12/CLAS12Workflow.py:62 | the factory hands out a fresh job of the requested class with the next serial number |
| Workflow.CLAS12Workflow.Gather | lib/clas12/CLAS12Workflow.py:62-67 | the job for a group has the phase set, one name edge per job-typed input, the expanded inputs as input data, and a generated command |
| Workflow.CLAS12Workflow.ReconStep | lib/clas12/CLAS12Workflow.py:55-69 | one input joins the open group; the group is closed into a job exactly when its expanded paths reach `reconSize` or at the last input; the jobs built so far followed by what the remaining inputs produce stay equal to the stage's result |
| Workflow.CLAS12Workflow.ReconClara | lib/clas12/CLAS12Workflow.py:53-71 | never raises; returns and appends exactly `Stages.ReconClara` of the inputs, stamped; one serial number per job |
| Workflow.CLAS12Workflow.Histo | lib/clas12/CLAS12Workflow.py:73-90 | appends exactly one job, also for empty input, which is `Stages.HistoJob` of all inputs |
| Workflow.CLAS12Workflow.DecodeOne | lib/clas12/CLAS12Workflow.py:210-217 | the decode job of one input, or IndexError for an upstream job without outputs, equals `Stages.DecodeJob` |
| Workflow.CLAS12Workflow.Decode | lib/clas12/CLAS12Workflow.py:207-220 | the jobs appended and the exception reported are those of `Stages.DecodeStage`; jobs built before an exception stay in the workflow |
| Workflow.CLAS12Workflow.TrainOne | lib/clas12/CLAS12Workflow.py:105-113 | the train job of a group equals `Stages.TrainJob`: with a job-typed first element every element's outputs are inputs and its name an edge, and a file among them raises AttributeError; otherwise the group itself is the input list |
| Workflow.CLAS12Workflow.TrainEmit | lib/clas12/CLAS12Workflow.py:104-116 | a closed group is built and appended, or its exception ends the pass with the jobs built so far |
| Workflow.CLAS12Workflow.TrainStep | lib/clas12/CLAS12Workflow.py:99-116 | one input of the train loop keeps the loop's equation with `Stages.TrainStage` |
| Workflow.CLAS12Workflow.Train | lib/clas12/CLAS12Workflow.py:97-117 | the jobs appended and the exception reported are those of `Stages.TrainStage` |
| Workflow.CLAS12Workflow.MergeOne | lib/clas12/CLAS12Workflow.py:232-238 | the merge job of a group equals `Stages.MergeJob`: first outputs and job-object edges for a job-typed group, the group itself otherwise |
| Workflow.CLAS12Workflow.DecodeMergeOne | lib/clas12/CLAS12Workflow.py:190-197 | the decode-and-merge job of a group equals `Stages.DecodeMergeJob`: a job-typed group raises NotImplementedError |
| Workflow.CLAS12Workflow.MergeEmit | lib/clas12/CLAS12Workflow.py:231-241 | a group closed at `mergeSize` inputs or at the last input is built and appended, or its exception ends the pass |
| Workflow.CLAS12Workflow.MergeStep | lib/clas12/CLAS12Workflow.py:229-241 | one input of the merge loop keeps the loop's equation with the stage's result |
| Workflow.CLAS12Workflow.MergeLoop | lib/clas12/CLAS12Workflow.py:227-242 | the jobs appended and the exception reported are those of emitting the merge or decode-and-merge job per group of `mergeSize` |
| Workflow.CLAS12Workflow.Merge | lib/clas12/CLAS12Workflow.py:227-242 | the jobs appended and the exception reported are those of `Stages.MergeStage` |
| Workflow.CLAS12Workflow.DecodeMerge | lib/clas12/CLAS12Workflow.py:185-201 | the jobs appended and the exception reported are those of `Stages.DecodeMergeStage` |
| Workflow.CLAS12Workflow.AggregateOne | lib/clas12/CLAS12Workflow.py:132-139 | the aggregate job of one run key equals `RunGroups.AggregateJob`: member names as edges, then the key read with `int()` (ValueError when it is not a number) and padded to six digits |
| Workflow.CLAS12Workflow.AggregateRuns | lib/clas12/CLAS12Workflow.py:123-140 | the jobs appended and the exception reported are those of `RunGroups.Aggregate` |
| Workflow.CLAS12Workflow.TrainMerge | lib/clas12/CLAS12Workflow.py:123-140 | the jobs appended and the exception reported are those of `RunGroups.MergeByRun` (mode `ana`) |
| Workflow.CLAS12Workflow.TrainClean | lib/clas12/CLAS12Workflow.py:146-163 | the jobs appended and the exception reported are those of `RunGroups.CleanByRun` (modes `ana` and `anamrg`) |
| Workflow.CLAS12Workflow.JputStep | lib/clas12/CLAS12Workflow.py:170-175 | one job's files go into a new archive job when there is none or the last holds more than 30 files, else into the last one; the archive jobs stay those of `Stages.Handed` |
| Workflow.CLAS12Workflow.Jput | lib/clas12/CLAS12Workflow.py:168-179 | returns and appends exactly `Stages.JputStage`; a serial number is used for every archive job opened, including a dropped empty last one |
| Workflow.CLAS12Workflow.DeleteOne | lib/clas12/CLAS12Workflow.py:256-267 | the delete job of a nonempty block equals `Stages.DeleteJob`, or `MalformedFilename` when the parser rejects the first or the last path; the serial number is taken either way |
| Workflow.CLAS12Workflow.DeleteStep | lib/clas12/CLAS12Workflow.py:251-269 | one block is taken and its job appended, keeping the loop's equation for the jobs; or the block raises, nothing is appended, and emission ends with that exception |
| Workflow.CLAS12Workflow.Delete | lib/clas12/CLAS12Workflow.py:248-270 | appends exactly the jobs of `Stages.DeleteStage`, one per block of at most 200, and reports its exception; the serial counter advances once more when a block raises |
| Workflow.CLAS12Workflow.MoveOne | lib/clas12/CLAS12Workflow.py:284-299 | the move job of a nonempty block equals `Stages.MoveJob`, and the run's target directory is created; when the parser rejects the first path it raises `MalformedFilename` and creates no directory |
| Workflow.CLAS12Workflow.MoveStep | lib/clas12/CLAS12Workflow.py:279-300 | one block is taken, its job appended and its directory created, keeping the loop's equations for jobs and directories; or the block raises, nothing is appended or created, and emission ends with that exception |
| Workflow.CLAS12Workflow.Move | lib/clas12/CLAS12Workflow.py:276-301 | appends exactly the jobs of `Stages.MoveStage` and reports its exception; creates `Stages.MoveDirs`, one directory per block up to the block that raises, in order |
| Batching.TakeBlock | lib/clas12/CLAS12Workflow.py:252-254 | the inner `pop(0)` loop takes the first `min(n, len)` elements, in order, and leaves the rest |
| Batching.GroupsPartition | lib/clas12/CLAS12Workflow.py:61-69 | the groups are nonempty, concatenate back to the input, every group but the last is full, and no proper prefix of a group is full |
| Batching.GroupsOfCuts | lib/clas12/CLAS12Workflow.py:61-69 | any cut into minimal groups, all full except the last, is the grouping, so the grouping is unique |
| Batching.FixedChunks | lib/clas12/CLAS12Workflow.py:231 | with the test "at least n", the group sizes are n, n, ..., then the remainder |
| Batching.ChunkSizesShape | lib/clas12/CLAS12Workflow.py:231 | every block but the last has n elements, the last 1..n, and there are ceil(m/n) of them |
| Jobs.EmitSpec | lib/clas12/CLAS12Workflow.py:209-219 | job k is what group k builds with serial `id + k`; when emission stopped, the next group's construction raised the reported exception |
| Jobs.ExpandAppend | lib/clas12/CLAS12Workflow.py:56-60 | expanding a concatenation of inputs concatenates the expansions |
| Jobs.StampAppend | lib/clas12/CLAS12Workflow.py:43-46 | adding a list of jobs stamps each part alike |
| Stages.GatheredConcat | lib/clas12/CLAS12Workflow.py:53-71 | over consecutive groups, the gathered jobs never raise, together consume the expanded inputs in order, and carry the names of the job-typed inputs in order |
| Stages.ReconClaraShape | lib/clas12/CLAS12Workflow.py:53-71 | never raises; one job per group; no job for no input; the groups partition the inputs; a group closes exactly when its expanded inputs reach `reconSize`, or at the end; the jobs consume every expanded input in order, and each job's edges are the names of its group's job-typed inputs |
| Stages.HistoShape | lib/clas12/CLAS12Workflow.py:73-90 | the single histogram job has the same inputs and edges, in order, as all of `reconclara`'s jobs over the same inputs together; a path is an input exactly when an input file is it or an upstream job declares it; a name is an edge exactly when some input is a job of that name; at most one edge per input, and one per input exactly when every input is a job |
| Stages.TrainFullIsDivision | lib/clas12/CLAS12Workflow.py:99-104 | for a positive `reconSize`, the flush test `TrainFull` holds exactly when the group's length is at least `trainSize` divided, in true division, by the weight of the input just added |
| Stages.TrainFlush | lib/clas12/CLAS12Workflow.py:99-104 | the train groups partition the inputs; each group but the last is full, and no earlier prefix of a group met the flush test |
| Stages.TrainJobOfJobs | lib/clas12/CLAS12Workflow.py:107-110 | a group of upstream jobs gives a job over their outputs whose edges are the names of the group's jobs, in order: edge m names job m |
| Stages.TrainCutOnFiles | lib/clas12/CLAS12Workflow.py:101-104 | on files only, train groups are blocks of `trainSize` |
| Stages.TrainCutOnJobs | lib/clas12/CLAS12Workflow.py:101-104 | on upstream jobs only, train groups are blocks of c, the least count with `c * reconSize >= trainSize` |
| Stages.TrainOverFileGroups | lib/clas12/CLAS12Workflow.py:105-115 | train jobs over file groups never raise and take their group as inputs, with no edge |
| Stages.TrainOverJobGroups | lib/clas12/CLAS12Workflow.py:105-115 | train jobs over groups of upstream jobs never raise; each takes its group's outputs, and its edges are the names of its group's jobs, in order |
| Stages.TrainOnFiles | lib/clas12/CLAS12Workflow.py:97-117 | with file inputs only, blocks of `trainSize` files; no exception; each job's inputs are its block, with no edge |
| Stages.TrainOnJobs | lib/clas12/CLAS12Workflow.py:97-117 | with job inputs only, blocks of c jobs; no exception; each job takes its block's outputs, and its edges are the names of its block's jobs, in order |
| Stages.TrainFiveJobs | lib/clas12/CLAS12Workflow.py:97-117 | five upstream jobs with `reconSize` 2 and `trainSize` 8 give groups of 4 and 1, with 4 and 1 edges |
| Stages.Heads | lib/clas12/CLAS12Workflow.py:235 | `[x.outputData[0] for x in inps]` succeeds exactly with every element a job with outputs, and yields those first outputs in order; otherwise the first element that is a file raises AttributeError, or the first job without outputs raises IndexError, whichever comes first |
| Stages.MergeGroupsShape | lib/clas12/CLAS12Workflow.py:229-231 | groups of `mergeSize` partition the inputs, the last holding 1..`mergeSize`; no group for no input |
| Stages.MergeJobOfJobs | lib/clas12/CLAS12Workflow.py:234-236 | a group of upstream jobs with outputs gives a merge job over their first outputs, with the job objects as edges: edge m is job m |
| Stages.MergeOverJobGroups | lib/clas12/CLAS12Workflow.py:232-240 | merge jobs over groups of jobs with outputs never raise; each takes its group's first outputs, and its edges are its group's job objects, in order |
| Stages.MergeOfJobs | lib/clas12/CLAS12Workflow.py:227-242 | `merge` over upstream jobs that all have outputs never raises; each job takes its group's first outputs, and its edges are its group's job objects, in order |
| Stages.DecodeMergeShape | lib/clas12/CLAS12Workflow.py:185-201 | an exception is NotImplementedError, raised at a group that starts with a job; file inputs never raise; each job's inputs are its group; a first input that is a job raises before any job is built |
| Stages.DecodeShape | lib/clas12/CLAS12Workflow.py:207-220 | no exception exactly when no input is a job without outputs; then one job per input; job k has serial `id + k`, a file as its only input and no edge, or the job's first output and one name edge |
| Stages.DeleteFailsOnParse | lib/clas12/CLAS12Workflow.py:251-263 | `delete` builds every block's job exactly when each block's first and last paths parse; otherwise it stops at the first block where one does not, with `MalformedFilename` |
| Stages.MoveFailsOnParse | lib/clas12/CLAS12Workflow.py:279-293 | `move` builds every block's job exactly when each block's first path parses; otherwise it stops at the first block where it does not, with `MalformedFilename`; it creates one directory per job built |
| Stages.BlocksNeverFail | lib/clas12/CLAS12Workflow.py:251-255 | when the parser accepts every path, `delete` and `move` never raise, and over the same files they build the same number of jobs, one per block of at most 200 |
| Stages.TimeRoundTrip | lib/clas12/CLAS12Workflow.py:259 | `'%ds'` of a number of seconds reads back as that number |
| Stages.BlockTime | lib/clas12/CLAS12Workflow.py:259-287 | a delete job is built exactly when the block's first and last paths parse, a move job exactly when its first does; they request 60 + 3n and 600 + 60n seconds for a block of n files |
| Stages.FileRangeReadsBack | lib/clas12/CLAS12Workflow.py:262-264 | for file numbers below 100000, the `file` tag is two five-digit numbers around '-', each reading back |
| Stages.RunTagReadsBack | lib/clas12/CLAS12Workflow.py:289-292 | the six-digit run tag of a built delete or move job reads back with `int()` as the first file's run number |
| Stages.MovedPathsAt | lib/clas12/CLAS12Workflow.py:297-298 | the k-th output of a move job is the target directory joined with the k-th file's base name |
| Stages.MovedUnderRunDir | lib/clas12/CLAS12Workflow.py:292-298 | every output of a built move job is the run's directory, '/', and the file's base name, which contains no '/' |
| Stages.MoveDirsNext | lib/clas12/CLAS12Workflow.py:292-293 | the block taken from what is left, when its first path parses, adds its run's directory, then the remaining blocks' directories follow |
| Stages.HandedLast | lib/clas12/CLAS12Workflow.py:171-175 | opening an empty archive job when there is none or the last holds more than 30 files, then adding the files to the last one, gives `Handed` |
| Stages.BundlesConcat | lib/clas12/CLAS12Workflow.py:170-175 | the archive jobs together hold all handed-over files in order |
| Stages.BundlesFull | lib/clas12/CLAS12Workflow.py:171 | every archive job but the last holds more than 30 files; there are at most as many as jobs, and none exactly for no jobs |
| Stages.JputShape | lib/clas12/CLAS12Workflow.py:168-179 | no archive job for no input; the last archive job is never empty; every other one holds more than 30 files; together they archive all handed-over files in order |
| RunGroups.CollectRuns | lib/clas12/CLAS12Workflow.py:124-129 | with `getTag` taken to fail on a missing tag (see Left out), fails exactly when a job lacks `mode`, or a collected job lacks `run`; otherwise the dictionary's keys, in insertion order, are `Keys`, and each entry is that run's members |
| RunGroups.KeysSpec | lib/clas12/CLAS12Workflow.py:125-129 | the run keys are distinct, and a text is a key exactly when some collected job has it as its run tag |
| RunGroups.KeysFirstOccurrence | lib/clas12/CLAS12Workflow.py:127-131 | the keys come in the order of their first occurrence among the jobs |
| RunGroups.MembersSpec | lib/clas12/CLAS12Workflow.py:127-129 | a job is in a run's group exactly when it is a collected input with that run tag |
| RunGroups.GroupsCoverPicked | lib/clas12/CLAS12Workflow.py:125-131 | every key's group is nonempty, and every collected job lies in its own key's group |
| RunGroups.AggregateJobReadsBack | lib/clas12/CLAS12Workflow.py:132-136 | an aggregate job is built exactly when the key reads as an integer, else ValueError; its edges name the run's members, and its run tag reads back as the key's number |
| RunGroups.AggregateOverKeys | lib/clas12/CLAS12Workflow.py:131-139 | one job per key in key order until a key that is not a number raises ValueError |
| RunGroups.AggregateShape | lib/clas12/CLAS12Workflow.py:123-140 | a failing `getTag` (see Left out) ends the pass before any job; otherwise one job per run key, in key order, until a non-numeric key raises ValueError; job k has serial `id + k`, the members' names as edges, and a run tag reading back as the key |
| Text.FindSpec | lib/ClaraLog.py:100 | `s.find(t)` is the least index where `t` occurs, and -1 exactly when it does not occur |
| Text.PadRoundTrip | lib/clas12/CLAS12Workflow.py:292 | `int('%.<w>d' % n) == n` |
| Text.StripContains | lib/ClaraLog.py:105 | what occurs in the stripped line occurs in the line |
| Text.TokenContained | lib/ClaraLog.py:105-106 | every token of the stripped line occurs in the line |
| ClaraLogs.TokenTag | lib/ClaraLog.py:97-104 | a line with a tag as one of its tokens passes the tag filter |
| ClaraLogs.ThreadsLine | lib/ClaraLog.py:107-113 | only the thread count can change, and only from unset to the parsed token; an exit leaves the record unchanged and names both differing counts |
| ClaraLogs.FourTokens | lib/ClaraLog.py:114-122 | only the end time and the directories can change; a directory changes only to token 3 |
| ClaraLogs.FiveTokens | lib/ClaraLog.py:123-133 | only the file count, start time and output prefix can change; the count and start time are written once; the prefix becomes token 4 |
| ClaraLogs.SixTokens | lib/ClaraLog.py:134-136 | the input files are unchanged or gain the base name of token 3 at the end |
| ClaraLogs.EightTokens | lib/ClaraLog.py:137-142 | only the average time can change, and only while unset |
| ClaraLogs.SixteenTokens | lib/ClaraLog.py:143-153 | only the event count (from token 3) and the event time can change, each only while unset |
| ClaraLogs.Dispatch | lib/ClaraLog.py:106-155 | each field changes only on a line of its own token count and, for write-once fields, only while unset; the input files gain at most one base name; the DB bit is set only on an undispatched token count with a refused connection |
| ClaraLogs.ParseLine | lib/ClaraLog.py:96-155 | a line without a tag changes nothing; otherwise the per-field guarantees of `Dispatch`, stated over the line's tokens |
| ClaraLogs.ThreadsLineEffect | lib/ClaraLog.py:107-113 | `Threads = N` records N when unset, exits naming N and the recorded count when they differ, and changes nothing when equal |
| ClaraLogs.FilesCountLine | lib/ClaraLog.py:124-128 | a five-token `Number of files` line records N only while no count is recorded |
| ClaraLogs.NumberIn | lib/ClaraLog.py:97-104 | a line containing text that starts with `Number` passes the tag filter |
| ClaraLogs.PrefixLine | lib/ClaraLog.py:123-133 | a five-token line containing `Output file prefix` anywhere, about neither file count nor start time, sets the prefix to token 4 |
| ClaraLogs.TagIn | lib/ClaraLog.py:97-104 | a line containing, anywhere, text that starts with a tag passes the tag filter |
| ClaraLogs.CachedLine | lib/ClaraLog.py:134-136 | a six-token line ending `is cached` appends the base name of token 3, which contains no '/' |
| ClaraLogs.InputDirLine | lib/ClaraLog.py:119-120 | a four-token line starting `Input directory`, not a shutdown line, sets the input directory to token 3 |
| ClaraLogs.OutputDirLine | lib/ClaraLog.py:121-122 | a four-token line starting `Output directory`, not a shutdown line, sets the output directory to token 3 |
| ClaraLogs.OutputDirTokens | lib/ClaraLog.py:118-122 | on the tokens: a line starting `Output directory` cannot take the `Input directory` branch, so it sets the output directory to token 3 |
| ClaraLogs.InputTagged | lib/ClaraLog.py:97-104 | a line starting `Input directory` passes the tag filter |
| ClaraLogs.OutputTagged | lib/ClaraLog.py:97-104 | a line starting `Output directory` passes the tag filter |
| ClaraLogs.PrefixTag | lib/ClaraLog.py:97-104 | a stripped line starting with text that starts with a tag passes the filter |
| ClaraLogs.EventsLine | lib/ClaraLog.py:144-148 | a sixteen-token `TOTAL ... events total` line records token 3 as the event count only while none is recorded |
| ClaraLogs.DbLine | lib/ClaraLog.py:154-155 | a tagged line of an undispatched token count reporting too many database connections sets the DB bit |
| ClaraLogs.ParseLines | lib/ClaraLog.py:38-45 | over many lines, the input files only grow, write-once counts and thread count once set stay, only the DB bit is added to the errors, and an exit names a differing count |
| ClaraLogs.UntaggedLines | lib/ClaraLog.py:97-104 | lines without a tag leave the record unchanged |
| ClaraLogs.CachedInOrder | lib/ClaraLog.py:134-136 | after lines read to the end, the input files are the earlier ones followed by every announced cached file, in order |
| ClaraLogs.CachedStep | lib/ClaraLog.py:134-136 | one line adds its announced cached file, if any, to the input files |
| ClaraLogs.NotCached | lib/ClaraLog.py:134-136 | a line that is not a cached-file line leaves the input files alone |
| ClaraLogs.StopsAtFailure | lib/ClaraLog.py:109-113 | after a line that exits or raises, later lines change nothing |
| ClaraLogs.ClaraLog.constructor | lib/ClaraLog.py:16-25 | a record before any line: counters at -1, nothing found, no last line |
| ClaraLogs.ClaraLog.HasTag | lib/ClaraLog.py:97-104 | the tag loop answers exactly whether the line contains one of the tags |
| ClaraLogs.ClaraLog.Parse | lib/ClaraLog.py:96-155 | the record after `parse(x)` and the outcome are `ParseLine` of the record before |
| ClaraLogs.ClaraLog.ReadThreads | lib/ClaraLog.py:107-113 | the in-place update equals `ThreadsLine` |
| ClaraLogs.ClaraLog.ReadFour | lib/ClaraLog.py:114-122 | the in-place update equals `FourTokens` |
| ClaraLogs.ClaraLog.ReadFive | lib/ClaraLog.py:123-133 | the in-place update equals `FiveTokens` |
| ClaraLogs.ClaraLog.ReadCached | lib/ClaraLog.py:134-136 | the in-place update equals `SixTokens` |
| ClaraLogs.ClaraLog.ReadEight | lib/ClaraLog.py:137-142 | the in-place update equals `EightTokens` |
| ClaraLogs.ClaraLog.ReadSixteen | lib/ClaraLog.py:143-153 | the in-place update equals `SixteenTokens` |
| ClaraLogs.ClaraLog.Feed | lib/ClaraLog.py:38-45 | the lines are read in turn until one ends abnormally; the record and outcome are `ParseLines` of the lines, and the last non-blank line is remembered |

## Left out

- File-system and process effects are not modelled. `ChefUtil.mkdir` becomes
  the `dirs` list, and job log directories become a field of each job.
- The run-condition database is not modelled. The user comment of a run is a
  parameter (`userComment`).
- `SwifWorkflow`, `SwifJob` and the `CLAS12Jobs` job classes are not part of
  this model. A job is a value with the fields the builders set. `setCmd()`
  is recorded only as "a generated command"; explicit shell command strings
  are recorded only as "a shell command".
- `getJobName` is not part of this model. A job's name is the workflow name
  and the serial number the factory gave it.
- `setRun` is not part of this model. It is taken to record the run number as
  a six-digit zero-padded `run` tag.
- The initial values of `JobSpecs` fields are not part of this model. They
  are taken to be the ones `ClaraLog` compares against: unset, or -1.
- Workflow.CLAS12Workflow.constructor: `addRuns`, `findFiles` and the
  `-<run>x<count>` suffix added to the name are not modelled. They depend on
  the base workflow class.
- `reconutil` is not modelled. It raises NotImplementedError on entry.
- `RunFile` is not part of this model. It is a parameter `runFile` that maps
  a path to its run and file number, or to nothing when the path is malformed;
  the model reports that as the fault `MalformedFilename`. The parser runs
  after the job's serial number is taken, so a rejected path still uses one.
- `CLAS12Workflow.py` does not import `RunFile`, so as written `delete` and
  `move` raise NameError at their first block, after that job's serial
  number is taken. The model takes the name to be bound to the file-name
  parser. A parser that rejects every path gives the same outcome, with
  `MalformedFilename` in place of NameError.
- `addJputs` is not part of this model. It is a parameter giving the files a
  job hands over.
- Jobs are values, so aliasing between job objects is not captured. In the
  source, `merge` and `decodemerge` share upstream job objects as
  antecedents, and the builders mutate job objects after creating them.
- ClaraLogs: `float()` and the timestamp parser are parameters (`toFloat`,
  `toTimestamp`). Floating-point values are reals.
- ClaraLogs: the diagnostic output written to the terminal is dropped.
- ClaraLogs: the log is read as Python 2 byte strings, so `strip()` and
  `split()` treat exactly space, tab, newline, vertical tab, form feed and
  carriage return as whitespace (`Text.IsSpace`).
- Text.Lower: folds only 'A'..'Z'. Python 3's `str.lower()` also folds
  other letters, such as the Kelvin sign to 'k', so a comment whose "junk"
  appears only after such a folding is not recognised.
- Workflow.CLAS12Workflow.AddRun: inherits the ASCII-only folding of
  `Text.Lower` when it looks for "junk" in a run's comment.
- Workflow.Config: `reconSize`, `trainSize` and `mergeSize` are assumed to be
  at least 1. The source reads them unchecked; with a size of 0 or less,
  `merge` and `reconclara` close a group at every input, and `train` with a
  `reconSize` of 0 raises ZeroDivisionError at its first job-typed input,
  after the jobs built before it. These cases are not modelled.
- RunGroups.CollectRuns: `SwifJob.getTag` is not part of this model. It is
  taken to raise when the job has no such tag; the model reports that as the
  fault `TagNotFound`, before any job is built.
- Text.ParseInt: `int()` is modelled on ASCII digits with an optional sign.
  Surrounding whitespace and underscores are rejected, though Python accepts
  them.
- ClaraLogs.ClaraLog.constructor: the setup around the reading loop is not
  modelled: log size, host and slurm id lookup, the HUGE bit, attaching the
  farm-out log, and parsing the last line into error bits. These depend on
  the file system and other log tools.
- `getClaraHostname`, `findOutputFiles`, `attachFarmout` and
  `stringToTimestamp` are not modelled. They depend on regular expressions,
  dates and the file system.
