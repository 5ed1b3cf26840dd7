/**
  The CLARA reconstruction log reader: each log line that mentions one of a
  fixed set of tags is split into whitespace-separated tokens, and the token
  count selects which field of the log record the line may update. Most
  fields are written once ("first write wins"); cached input files are
  collected in order; a conflicting thread count aborts the reader.

  Floating-point and timestamp values are not interpreted here: the conversions
  `float(...)` and the timestamp parser are parameters of the log object.
*/
module ClaraLogs {
  import opened Wrappers
  import Text

  /** The substrings of which a line must contain one to be examined at all. */
  const LogTags: seq<string> :=
    ["Number", "Threads", "TOTAL", "Total", "Average", "Start time", "shutdown DPE", "Exception", "Input", "Output", " is cached"]

  /** The error bit set when the database refused a connection. */
  const DbBit: string := "DB"

  /** A point in time, as the timestamp parser yields it. */
  datatype Timestamp = Timestamp(seconds: int)

  /** How handling one line ended: normally, by the process exiting on a thread-count conflict, or by a failed number conversion. */
  datatype Outcome = Parsed | Exited(found: int, recorded: int) | ValueError

  /** The fields of the log record that the line parser reads and writes. */
  datatype Fields = Fields(
    threads: Option<int>,
    nfiles: int,
    events: int,
    inputdir: Option<string>,
    outputdir: Option<string>,
    outputprefix: Option<string>,
    inputfiles: seq<string>,
    starttime: Option<Timestamp>,
    endtime: Option<Timestamp>,
    t1: real,
    t2: real,
    errors: set<string>)

  /** The fields and the outcome after a line, or after several. */
  datatype Step = Step(outcome: Outcome, fields: Fields)

  /** The record before any line is read: counters at -1, nothing found yet. */
  const Initial: Fields := Fields(None, -1, -1, None, None, None, [], None, None, -1.0, -1.0, {})

  /** The line mentions one of the tags. */
  predicate Keeper(x: string) {
    exists i :: 0 <= i < |LogTags| && Text.Contains(x, LogTags[i])
  }

  /** The tokens of a line: the stripped line split at whitespace. */
  function Tokens(x: string): seq<string> {
    Text.Split(Text.Strip(x))
  }

  /** Every token of a line occurs in it, so a line with a tag as a token is examined. */
  lemma TokenTag(x: string, i: nat, t: nat)
    requires i < |Tokens(x)| && t < |LogTags| && Tokens(x)[i] == LogTags[t]
    ensures Keeper(x)
  {
    Text.TokenContained(x, i);
  }

  // ------------------------------------------------------------ one line

  /** `Threads = N`: record N if no count is recorded; a different N exits. */
  function ThreadsLine(f: Fields, cols: seq<string>): (r: Step)
    requires |cols| == 3
    ensures r.fields == f.(threads := r.fields.threads)
    ensures r.fields.threads != f.threads ==> f.threads.None? && r.fields.threads == Text.ParseInt(cols[2])
    ensures r.outcome.Exited? ==>
              r.fields == f && f.threads == Some(r.outcome.recorded) && r.outcome.found != r.outcome.recorded
              && Text.ParseInt(cols[2]) == Some(r.outcome.found)
  {
    if cols[0] == "Threads" && cols[1] == "=" then
      match Text.ParseInt(cols[2])
      case None => Step(ValueError, f)
      case Some(n) =>
        if f.threads.None? then Step(Parsed, f.(threads := Some(n)))
        else if f.threads.value != n then Step(Exited(n, f.threads.value), f)
        else Step(Parsed, f)
    else Step(Parsed, f)
  }

  /** Four tokens: the shutdown time, or the input or output directory. */
  function FourTokens(f: Fields, y: string, cols: seq<string>, toTimestamp: string -> Option<Timestamp>): (r: Step)
    requires |cols| == 4
    ensures r.outcome == Parsed
    ensures r.fields == f.(endtime := r.fields.endtime, inputdir := r.fields.inputdir, outputdir := r.fields.outputdir)
    ensures r.fields.inputdir != f.inputdir ==> r.fields.inputdir == Some(cols[3])
    ensures r.fields.outputdir != f.outputdir ==> r.fields.outputdir == Some(cols[3])
  {
    if Text.Find(y, "shutdown DPE") > 0 then Step(Parsed, f.(endtime := toTimestamp(y)))
    else if Text.Find(y, "Input directory") == 0 then Step(Parsed, f.(inputdir := Some(cols[3])))
    else if Text.Find(y, "Output directory") == 0 then Step(Parsed, f.(outputdir := Some(cols[3])))
    else Step(Parsed, f)
  }

  /** Five tokens: the number of files (first write wins), the start time (likewise) or the output prefix. */
  function FiveTokens(f: Fields, y: string, cols: seq<string>, toTimestamp: string -> Option<Timestamp>): (r: Step)
    requires |cols| == 5
    ensures !r.outcome.Exited?
    ensures r.fields == f.(nfiles := r.fields.nfiles, starttime := r.fields.starttime, outputprefix := r.fields.outputprefix)
    ensures r.fields.nfiles != f.nfiles ==> f.nfiles < 0 && Text.ParseInt(cols[4]) == Some(r.fields.nfiles)
    ensures r.fields.starttime != f.starttime ==> f.starttime.None?
    ensures r.fields.outputprefix != f.outputprefix ==> r.fields.outputprefix == Some(cols[4])
  {
    if Text.Contains(y, "Number of files") then
      if f.nfiles < 0 then
        match Text.ParseInt(cols[4])
        case None => Step(ValueError, f)
        case Some(n) => Step(Parsed, f.(nfiles := n))
      else Step(Parsed, f)
    else if Text.Find(y, "Start time") == 0 then
      if f.starttime.None? then Step(Parsed, f.(starttime := toTimestamp(y))) else Step(Parsed, f)
    else if Text.Contains(y, "Output file prefix") then Step(Parsed, f.(outputprefix := Some(cols[4])))
    else Step(Parsed, f)
  }

  /** The file named in an `... <path> is cached` line: the last '/'-component of the path. */
  function CachedName(cols: seq<string>): string
    requires |cols| == 6
  {
    Text.Basename(cols[3])
  }

  /** Six tokens ending `is cached`: the file's base name joins the input files. */
  function SixTokens(f: Fields, cols: seq<string>): (r: Step)
    requires |cols| == 6
    ensures r.outcome == Parsed
    ensures r.fields == f || r.fields == f.(inputfiles := f.inputfiles + [CachedName(cols)])
  {
    if cols[4] == "is" && cols[5] == "cached" then Step(Parsed, f.(inputfiles := f.inputfiles + [CachedName(cols)]))
    else Step(Parsed, f)
  }

  /** Eight tokens `. . Average processing time . x .`: the average time, first write wins. */
  function EightTokens(f: Fields, cols: seq<string>, toFloat: string -> Option<real>): (r: Step)
    requires |cols| == 8
    ensures !r.outcome.Exited?
    ensures r.fields == f.(t2 := r.fields.t2)
    ensures r.fields.t2 != f.t2 ==> f.t2 < 0.0
  {
    if cols[2] == "Average" && cols[3] == "processing" && cols[4] == "time" && f.t2 < 0.0 then
      match toFloat(cols[6])
      case None => Step(ValueError, f)
      case Some(v) => Step(Parsed, f.(t2 := v))
    else Step(Parsed, f)
  }

  /**
    Sixteen tokens of the `TOTAL` summary: the event count from token 3 and
    the event time from token 14, each first write wins, in that order.
  */
  function SixteenTokens(f: Fields, cols: seq<string>, toFloat: string -> Option<real>): (r: Step)
    requires |cols| == 16
    ensures !r.outcome.Exited?
    ensures r.fields == f.(events := r.fields.events, t1 := r.fields.t1)
    ensures r.fields.events != f.events ==> f.events < 0 && Text.ParseInt(cols[3]) == Some(r.fields.events)
    ensures r.fields.t1 != f.t1 ==> f.t1 < 0.0
  {
    var counted :=
      if cols[2] == "TOTAL" && cols[4] == "events" && cols[5] == "total" && f.events < 0 then
        match Text.ParseInt(cols[3])
        case None => Step(ValueError, f)
        case Some(n) => Step(Parsed, f.(events := n))
      else Step(Parsed, f);
    if counted.outcome != Parsed then counted
    else
      var g := counted.fields;
      if cols[2] == "TOTAL" && cols[11] == "event" && cols[12] == "time" && g.t1 < 0.0 then
        match toFloat(cols[14])
        case None => Step(ValueError, g)
        case Some(v) => Step(Parsed, g.(t1 := v))
      else Step(Parsed, g)
  }

  /** A database refusal: the line names the JDBC driver and, past its start, too many connections. */
  predicate DbRefusal(y: string) {
    Text.Contains(y, "com.mysql.jdbc") && Text.Find(y, "Too many connections") > 0
  }

  /** The token counts that select a field; any other count is checked for a database refusal. */
  predicate Dispatched(n: nat) {
    n == 3 || n == 4 || n == 5 || n == 6 || n == 8 || n == 16
  }

  /** The effect of a tagged line, given the stripped line and its tokens. */
  function Dispatch(f: Fields, y: string, cols: seq<string>, toFloat: string -> Option<real>, toTimestamp: string -> Option<Timestamp>): (r: Step)
    ensures r.fields.threads != f.threads ==>
              f.threads.None? && |cols| == 3 && r.fields.threads == Text.ParseInt(cols[2])
    ensures r.outcome.Exited? ==>
              r.fields == f && f.threads == Some(r.outcome.recorded) && r.outcome.found != r.outcome.recorded
              && |cols| == 3 && Text.ParseInt(cols[2]) == Some(r.outcome.found)
    ensures r.fields.nfiles != f.nfiles ==>
              f.nfiles < 0 && |cols| == 5 && Text.ParseInt(cols[4]) == Some(r.fields.nfiles)
    ensures r.fields.events != f.events ==>
              f.events < 0 && |cols| == 16 && Text.ParseInt(cols[3]) == Some(r.fields.events)
    ensures r.fields.inputdir != f.inputdir ==> |cols| == 4 && r.fields.inputdir == Some(cols[3])
    ensures r.fields.outputdir != f.outputdir ==> |cols| == 4 && r.fields.outputdir == Some(cols[3])
    ensures r.fields.outputprefix != f.outputprefix ==> |cols| == 5 && r.fields.outputprefix == Some(cols[4])
    ensures r.fields.starttime != f.starttime ==> f.starttime.None? && |cols| == 5
    ensures r.fields.endtime != f.endtime ==> |cols| == 4
    ensures r.fields.t1 != f.t1 ==> f.t1 < 0.0 && |cols| == 16
    ensures r.fields.t2 != f.t2 ==> f.t2 < 0.0 && |cols| == 8
    ensures r.fields.inputfiles == f.inputfiles
            || (|cols| == 6 && r.fields.inputfiles == f.inputfiles + [CachedName(cols)])
    ensures r.fields.errors == f.errors
            || (r.fields.errors == f.errors + {DbBit} && !Dispatched(|cols|) && DbRefusal(y))
  {
    if |cols| == 3 then ThreadsLine(f, cols)
    else if |cols| == 4 then FourTokens(f, y, cols, toTimestamp)
    else if |cols| == 5 then FiveTokens(f, y, cols, toTimestamp)
    else if |cols| == 6 then SixTokens(f, cols)
    else if |cols| == 8 then EightTokens(f, cols, toFloat)
    else if |cols| == 16 then SixteenTokens(f, cols, toFloat)
    else if DbRefusal(y) then Step(Parsed, f.(errors := f.errors + {DbBit}))
    else Step(Parsed, f)
  }

  /**
    The effect of one log line on the record. A line without a tag changes
    nothing. Otherwise each field can change only on a line of its token
    count, and the write-once fields only while unset; the input files only
    grow, by one base name; the database bit is set only on lines of an
    undispatched token count that report a refused connection.
  */
  function ParseLine(f: Fields, x: string, toFloat: string -> Option<real>, toTimestamp: string -> Option<Timestamp>): (r: Step)
    ensures !Keeper(x) ==> r == Step(Parsed, f)
    ensures r.fields.threads != f.threads ==>
              f.threads.None? && |Tokens(x)| == 3 && r.fields.threads == Text.ParseInt(Tokens(x)[2])
    ensures r.outcome.Exited? ==>
              r.fields == f && f.threads == Some(r.outcome.recorded) && r.outcome.found != r.outcome.recorded
              && |Tokens(x)| == 3 && Text.ParseInt(Tokens(x)[2]) == Some(r.outcome.found)
    ensures r.fields.nfiles != f.nfiles ==>
              f.nfiles < 0 && |Tokens(x)| == 5 && Text.ParseInt(Tokens(x)[4]) == Some(r.fields.nfiles)
    ensures r.fields.events != f.events ==>
              f.events < 0 && |Tokens(x)| == 16 && Text.ParseInt(Tokens(x)[3]) == Some(r.fields.events)
    ensures r.fields.inputdir != f.inputdir ==> |Tokens(x)| == 4 && r.fields.inputdir == Some(Tokens(x)[3])
    ensures r.fields.outputdir != f.outputdir ==> |Tokens(x)| == 4 && r.fields.outputdir == Some(Tokens(x)[3])
    ensures r.fields.outputprefix != f.outputprefix ==> |Tokens(x)| == 5 && r.fields.outputprefix == Some(Tokens(x)[4])
    ensures r.fields.starttime != f.starttime ==> f.starttime.None? && |Tokens(x)| == 5
    ensures r.fields.endtime != f.endtime ==> |Tokens(x)| == 4
    ensures r.fields.t1 != f.t1 ==> f.t1 < 0.0 && |Tokens(x)| == 16
    ensures r.fields.t2 != f.t2 ==> f.t2 < 0.0 && |Tokens(x)| == 8
    ensures r.fields.inputfiles == f.inputfiles
            || (|Tokens(x)| == 6 && r.fields.inputfiles == f.inputfiles + [CachedName(Tokens(x))])
    ensures r.fields.errors == f.errors
            || (r.fields.errors == f.errors + {DbBit} && !Dispatched(|Tokens(x)|) && DbRefusal(Text.Strip(x)))
  {
    if !Keeper(x) then Step(Parsed, f)
    else Dispatch(f, Text.Strip(x), Tokens(x), toFloat, toTimestamp)
  }

  /** A tagged line has the effect that its stripped text and its tokens select. */
  lemma TaggedLine(f: Fields, x: string, tf: string -> Option<real>, tt: string -> Option<Timestamp>)
    requires Keeper(x)
    ensures ParseLine(f, x, tf, tt) == Dispatch(f, Text.Strip(x), Tokens(x), tf, tt)
  {
  }

  /** A `Threads = N` line records N when no count is recorded, and exits naming both counts when a different one is. */
  lemma ThreadsLineEffect(f: Fields, x: string, n: int, tf: string -> Option<real>, tt: string -> Option<Timestamp>)
    requires |Tokens(x)| == 3 && Tokens(x)[0] == "Threads" && Tokens(x)[1] == "=" && Text.ParseInt(Tokens(x)[2]) == Some(n)
    ensures f.threads.None? ==> ParseLine(f, x, tf, tt) == Step(Parsed, f.(threads := Some(n)))
    ensures f.threads.Some? && f.threads.value != n ==> ParseLine(f, x, tf, tt) == Step(Exited(n, f.threads.value), f)
    ensures f.threads == Some(n) ==> ParseLine(f, x, tf, tt) == Step(Parsed, f)
  {
    TokenTag(x, 0, 1);
    TaggedLine(f, x, tf, tt);
    ThreadsTokens(f, Text.Strip(x), Tokens(x), n, tf, tt);
  }

  lemma ThreadsTokens(f: Fields, y: string, cols: seq<string>, n: int, tf: string -> Option<real>, tt: string -> Option<Timestamp>)
    requires |cols| == 3 && cols[0] == "Threads" && cols[1] == "=" && Text.ParseInt(cols[2]) == Some(n)
    ensures Dispatch(f, y, cols, tf, tt) ==
              if f.threads.None? then Step(Parsed, f.(threads := Some(n)))
              else if f.threads.value != n then Step(Exited(n, f.threads.value), f)
              else Step(Parsed, f)
  {
  }

  /** A `... Number of files ... N` line of five tokens records N only while no count is recorded. */
  lemma FilesCountLine(f: Fields, x: string, n: int, tf: string -> Option<real>, tt: string -> Option<Timestamp>)
    requires |Tokens(x)| == 5 && Text.Contains(Text.Strip(x), "Number of files") && Text.ParseInt(Tokens(x)[4]) == Some(n)
    ensures ParseLine(f, x, tf, tt) == Step(Parsed, if f.nfiles < 0 then f.(nfiles := n) else f)
  {
    Text.StripContains(x, "Number of files");
    NumberIn(x, "Number of files");
    TaggedLine(f, x, tf, tt);
    FilesCountTokens(f, Text.Strip(x), Tokens(x), n, tf, tt);
  }

  lemma FilesCountTokens(f: Fields, y: string, cols: seq<string>, n: int, tf: string -> Option<real>, tt: string -> Option<Timestamp>)
    requires |cols| == 5 && Text.Contains(y, "Number of files") && Text.ParseInt(cols[4]) == Some(n)
    ensures Dispatch(f, y, cols, tf, tt) == Step(Parsed, if f.nfiles < 0 then f.(nfiles := n) else f)
  {
  }

  /** Any text beginning with `Number` makes a line that contains it a tagged line. */
  lemma NumberIn(x: string, s: string)
    requires Text.Contains(x, s) && |s| >= 6 && s[..6] == "Number"
    ensures Keeper(x)
  {
    Text.FindSpec(x, s);
    Text.FindSpec(x, "Number");
    var k := Text.Find(x, s);
    assert "Number" <= x[k..] by {
      assert s[..6] <= s;
    }
    assert Text.Find(x, "Number") >= 0;
    assert Text.Contains(x, LogTags[0]);
  }

  /** Text starting with tag `t`, anywhere in a line, makes it a tagged line. */
  lemma TagIn(x: string, s: string, t: nat)
    requires t < |LogTags| && Text.Contains(x, s) && LogTags[t] <= s
    ensures Keeper(x)
  {
    Text.FindSpec(x, s);
    Text.FindSpec(x, LogTags[t]);
    var k := Text.Find(x, s);
    assert LogTags[t] <= x[k..] by {
      assert LogTags[t] == s[..|LogTags[t]|] == x[k..][..|LogTags[t]|];
    }
    assert Text.Find(x, LogTags[t]) >= 0;
  }

  /** A line whose stripped text contains `Output file prefix` is a tagged line. */
  lemma PrefixTagged(x: string)
    requires Text.Contains(Text.Strip(x), "Output file prefix")
    ensures Keeper(x)
  {
    Text.StripContains(x, "Output file prefix");
    assert LogTags[9] <= "Output file prefix";
    TagIn(x, "Output file prefix", 9);
  }

  /**
    A five-token line containing `Output file prefix`, about neither the
    number of files nor a start time, sets the prefix to token 4.
  */
  lemma PrefixLine(f: Fields, x: string, tf: string -> Option<real>, tt: string -> Option<Timestamp>)
    requires |Tokens(x)| == 5 && !Text.Contains(Text.Strip(x), "Number of files")
    requires Text.Find(Text.Strip(x), "Start time") != 0 && Text.Contains(Text.Strip(x), "Output file prefix")
    ensures ParseLine(f, x, tf, tt) == Step(Parsed, f.(outputprefix := Some(Tokens(x)[4])))
  {
    PrefixTagged(x);
    TaggedLine(f, x, tf, tt);
    PrefixTokens(f, Text.Strip(x), Tokens(x), tf, tt);
  }

  lemma PrefixTokens(f: Fields, y: string, cols: seq<string>, tf: string -> Option<real>, tt: string -> Option<Timestamp>)
    requires |cols| == 5 && !Text.Contains(y, "Number of files")
    requires Text.Find(y, "Start time") != 0 && Text.Contains(y, "Output file prefix")
    ensures Dispatch(f, y, cols, tf, tt) == Step(Parsed, f.(outputprefix := Some(cols[4])))
  {
  }

  /** A six-token line ending `is cached` appends the base name of token 3 to the input files. */
  lemma CachedLine(f: Fields, x: string, tf: string -> Option<real>, tt: string -> Option<Timestamp>)
    requires Keeper(x) && |Tokens(x)| == 6 && Tokens(x)[4] == "is" && Tokens(x)[5] == "cached"
    ensures ParseLine(f, x, tf, tt) == Step(Parsed, f.(inputfiles := f.inputfiles + [Text.Basename(Tokens(x)[3])]))
    ensures '/' !in ParseLine(f, x, tf, tt).fields.inputfiles[|f.inputfiles|]
  {
    TaggedLine(f, x, tf, tt);
    CachedTokens(f, Text.Strip(x), Tokens(x), tf, tt);
  }

  lemma CachedTokens(f: Fields, y: string, cols: seq<string>, tf: string -> Option<real>, tt: string -> Option<Timestamp>)
    requires |cols| == 6 && cols[4] == "is" && cols[5] == "cached"
    ensures Dispatch(f, y, cols, tf, tt) == Step(Parsed, f.(inputfiles := f.inputfiles + [Text.Basename(cols[3])]))
  {
  }

  /** A four-token line starting `Input directory`, and not about a shutdown, sets the input directory to token 3. */
  lemma InputDirLine(f: Fields, x: string, tf: string -> Option<real>, tt: string -> Option<Timestamp>)
    requires |Tokens(x)| == 4 && Text.Find(Text.Strip(x), "shutdown DPE") <= 0
    requires Text.Find(Text.Strip(x), "Input directory") == 0
    ensures ParseLine(f, x, tf, tt) == Step(Parsed, f.(inputdir := Some(Tokens(x)[3])))
  {
    InputTagged(x);
    TaggedLine(f, x, tf, tt);
    InputDirTokens(f, Text.Strip(x), Tokens(x), tf, tt);
  }

  lemma InputDirTokens(f: Fields, y: string, cols: seq<string>, tf: string -> Option<real>, tt: string -> Option<Timestamp>)
    requires |cols| == 4 && Text.Find(y, "shutdown DPE") <= 0 && Text.Find(y, "Input directory") == 0
    ensures Dispatch(f, y, cols, tf, tt) == Step(Parsed, f.(inputdir := Some(cols[3])))
  {
  }

  /** A four-token line starting `Output directory`, and not about a shutdown, sets the output directory to token 3. */
  lemma OutputDirLine(f: Fields, x: string, tf: string -> Option<real>, tt: string -> Option<Timestamp>)
    requires |Tokens(x)| == 4 && Text.Find(Text.Strip(x), "shutdown DPE") <= 0
    requires Text.Find(Text.Strip(x), "Output directory") == 0
    ensures ParseLine(f, x, tf, tt) == Step(Parsed, f.(outputdir := Some(Tokens(x)[3])))
  {
    OutputTagged(x);
    TaggedLine(f, x, tf, tt);
    OutputDirTokens(f, Text.Strip(x), Tokens(x), tf, tt);
  }

  lemma OutputDirTokens(f: Fields, y: string, cols: seq<string>, tf: string -> Option<real>, tt: string -> Option<Timestamp>)
    requires |cols| == 4 && Text.Find(y, "shutdown DPE") <= 0 && Text.Find(y, "Output directory") == 0
    ensures Dispatch(f, y, cols, tf, tt) == Step(Parsed, f.(outputdir := Some(cols[3])))
  {
    assert Text.Find(y, "Input directory") != 0 by {
      Text.FindSpec(y, "Output directory");
      Text.FindSpec(y, "Input directory");
      assert "Output directory"[0] == y[0..][0] != "Input directory"[0];
    }
  }

  /** A stripped line starting `Input directory` is a tagged line. */
  lemma InputTagged(x: string)
    requires Text.Find(Text.Strip(x), "Input directory") == 0
    ensures Keeper(x)
  {
    assert LogTags[8] <= "Input directory";
    PrefixTag(x, "Input directory", 8);
  }

  /** A stripped line starting `Output directory` is a tagged line. */
  lemma OutputTagged(x: string)
    requires Text.Find(Text.Strip(x), "Output directory") == 0
    ensures Keeper(x)
  {
    assert LogTags[9] <= "Output directory";
    PrefixTag(x, "Output directory", 9);
  }

  /** A stripped line starting with `s`, which starts with tag `t`, is a tagged line. */
  lemma PrefixTag(x: string, s: string, t: nat)
    requires t < |LogTags| && Text.Find(Text.Strip(x), s) == 0 && LogTags[t] <= s
    ensures Keeper(x)
  {
    var y := Text.Strip(x);
    Text.FindSpec(y, s);
    Text.FindSpec(y, LogTags[t]);
    assert LogTags[t] <= y[0..];
    assert Text.Contains(y, LogTags[t]);
    Text.StripContains(x, LogTags[t]);
  }

  /** A sixteen-token `TOTAL ... events total` line records token 3 as the event count only while none is recorded. */
  lemma EventsLine(f: Fields, x: string, n: int, tf: string -> Option<real>, tt: string -> Option<Timestamp>)
    requires |Tokens(x)| == 16 && Tokens(x)[2] == "TOTAL" && Tokens(x)[4] == "events" && Tokens(x)[5] == "total"
    requires Text.ParseInt(Tokens(x)[3]) == Some(n)
    ensures f.events < 0 ==> ParseLine(f, x, tf, tt).fields.events == n
    ensures f.events >= 0 ==> ParseLine(f, x, tf, tt).fields.events == f.events
  {
    TokenTag(x, 2, 2);
    TaggedLine(f, x, tf, tt);
    EventsTokens(f, Text.Strip(x), Tokens(x), n, tf, tt);
  }

  lemma EventsTokens(f: Fields, y: string, cols: seq<string>, n: int, tf: string -> Option<real>, tt: string -> Option<Timestamp>)
    requires |cols| == 16 && cols[2] == "TOTAL" && cols[4] == "events" && cols[5] == "total"
    requires Text.ParseInt(cols[3]) == Some(n)
    ensures Dispatch(f, y, cols, tf, tt).fields.events == if f.events < 0 then n else f.events
  {
  }

  /** A tagged line of an undispatched token count that reports a refused database connection sets the DB bit. */
  lemma DbLine(f: Fields, x: string, tf: string -> Option<real>, tt: string -> Option<Timestamp>)
    requires Keeper(x) && !Dispatched(|Tokens(x)|) && DbRefusal(Text.Strip(x))
    ensures ParseLine(f, x, tf, tt) == Step(Parsed, f.(errors := f.errors + {DbBit}))
  {
    TaggedLine(f, x, tf, tt);
  }

  // ------------------------------------------------------------ several lines

  /** The lines read in turn until one ends abnormally; the record and outcome after them. */
  function ParseLines(f: Fields, lines: seq<string>, tf: string -> Option<real>, tt: string -> Option<Timestamp>): (r: Step)
    ensures f.inputfiles <= r.fields.inputfiles
    ensures f.nfiles >= 0 ==> r.fields.nfiles == f.nfiles
    ensures f.events >= 0 ==> r.fields.events == f.events
    ensures f.threads.Some? ==> r.fields.threads == f.threads
    ensures r.fields.errors - f.errors <= {DbBit}
    ensures r.outcome.Exited? ==> r.fields.threads == Some(r.outcome.recorded) && r.outcome.found != r.outcome.recorded
    decreases |lines|
  {
    if lines == [] then Step(Parsed, f)
    else
      var before := ParseLines(f, lines[..|lines| - 1], tf, tt);
      if before.outcome != Parsed then before
      else ParseLine(before.fields, lines[|lines| - 1], tf, tt)
  }

  /** A tagged six-token line ending `is cached`. */
  predicate IsCached(x: string) {
    Keeper(x) && |Tokens(x)| == 6 && Tokens(x)[4] == "is" && Tokens(x)[5] == "cached"
  }

  /** The base name a line announces as cached: one name, or none. */
  function Announced(x: string): seq<string> {
    if IsCached(x) then [CachedName(Tokens(x))] else []
  }

  /** The base names the cached-file lines announce, in order. */
  function CachedNames(lines: seq<string>): seq<string> {
    if lines == [] then [] else CachedNames(lines[..|lines| - 1]) + Announced(lines[|lines| - 1])
  }

  /** Lines without a tag leave the record unchanged. */
  lemma {:induction false} UntaggedLines(f: Fields, lines: seq<string>, tf: string -> Option<real>, tt: string -> Option<Timestamp>)
    requires forall k :: 0 <= k < |lines| ==> !Keeper(lines[k])
    ensures ParseLines(f, lines, tf, tt) == Step(Parsed, f)
    decreases |lines|
  {
    if lines != [] {
      UntaggedLines(f, lines[..|lines| - 1], tf, tt);
    }
  }

  /** After lines read to their end, the input files are the earlier ones followed by every announced cached file, in order. */
  lemma {:induction false} CachedInOrder(f: Fields, lines: seq<string>, tf: string -> Option<real>, tt: string -> Option<Timestamp>)
    requires ParseLines(f, lines, tf, tt).outcome == Parsed
    ensures ParseLines(f, lines, tf, tt).fields.inputfiles == f.inputfiles + CachedNames(lines)
    decreases |lines|
  {
    if lines != [] {
      var init := lines[..|lines| - 1];
      var x := lines[|lines| - 1];
      var before := ParseLines(f, init, tf, tt).fields;
      LastLine(f, lines, tf, tt);
      CachedInOrder(f, init, tf, tt);
      CachedStep(before, x, tf, tt);
      assert CachedNames(lines) == CachedNames(init) + Announced(x);
      AppendThrough(f.inputfiles, before.inputfiles, CachedNames(init), Announced(x),
                    ParseLines(f, lines, tf, tt).fields.inputfiles, CachedNames(lines));
    }
  }

  /** `after` extends `a` by `names` when `before` extends it by `earlier` and `after` extends `before` by `more`. */
  lemma AppendThrough(a: seq<string>, before: seq<string>, earlier: seq<string>, more: seq<string>, after: seq<string>, names: seq<string>)
    requires before == a + earlier && after == before + more && names == earlier + more
    ensures after == a + names
  {
  }

  /** Lines read to their end were read to the end of all but the last, and then the last was read. */
  lemma LastLine(f: Fields, lines: seq<string>, tf: string -> Option<real>, tt: string -> Option<Timestamp>)
    requires lines != [] && ParseLines(f, lines, tf, tt).outcome == Parsed
    ensures ParseLines(f, lines[..|lines| - 1], tf, tt).outcome == Parsed
    ensures ParseLines(f, lines, tf, tt) == ParseLine(ParseLines(f, lines[..|lines| - 1], tf, tt).fields, lines[|lines| - 1], tf, tt)
  {
  }

  /** One line adds its cached file, if it announces one, to the input files. */
  lemma CachedStep(f: Fields, x: string, tf: string -> Option<real>, tt: string -> Option<Timestamp>)
    ensures ParseLine(f, x, tf, tt).fields.inputfiles == f.inputfiles + Announced(x)
  {
    if IsCached(x) {
      CachedLine(f, x, tf, tt);
    } else {
      NotCached(f, x, tf, tt);
    }
  }

  /** A line that is not a cached-file line leaves the input files alone. */
  lemma NotCached(f: Fields, x: string, tf: string -> Option<real>, tt: string -> Option<Timestamp>)
    requires !IsCached(x)
    ensures ParseLine(f, x, tf, tt).fields.inputfiles == f.inputfiles
  {
  }

  /** Reading stops at the first abnormal line: later lines change nothing. */
  lemma {:induction false} StopsAtFailure(f: Fields, lines: seq<string>, k: nat, tf: string -> Option<real>, tt: string -> Option<Timestamp>)
    requires k <= |lines| && ParseLines(f, lines[..k], tf, tt).outcome != Parsed
    ensures ParseLines(f, lines, tf, tt) == ParseLines(f, lines[..k], tf, tt)
    decreases |lines| - k
  {
    if k < |lines| {
      assert lines[..|lines| - 1][..k] == lines[..k];
      StopsAtFailure(f, lines[..|lines| - 1], k, tf, tt);
    } else {
      assert lines[..k] == lines;
    }
  }

  /** The last line with something besides whitespace, stripped; `last` when there is none. */
  function LastNonBlank(last: Option<string>, lines: seq<string>): Option<string> {
    if lines == [] then last
    else if Text.Strip(lines[|lines| - 1]) != [] then Some(Text.Strip(lines[|lines| - 1]))
    else LastNonBlank(last, lines[..|lines| - 1])
  }

  /** Reading one more line: the record and outcome after it. */
  lemma ParseLinesSnoc(f: Fields, last: Option<string>, lines: seq<string>, k: nat, tf: string -> Option<real>, tt: string -> Option<Timestamp>)
    requires k < |lines| && ParseLines(f, lines[..k], tf, tt).outcome == Parsed
    ensures ParseLines(f, lines[..k + 1], tf, tt) == ParseLine(ParseLines(f, lines[..k], tf, tt).fields, lines[k], tf, tt)
    ensures LastNonBlank(last, lines[..k + 1]) ==
              if Text.Strip(lines[k]) != [] then Some(Text.Strip(lines[k])) else LastNonBlank(last, lines[..k])
  {
    assert lines[..k + 1][..k] == lines[..k];
  }

  /** A CLARA log record as the reader fills it in, line by line. */
  class ClaraLog {
    /** Python's `float()` on a token: the value, or None where it raises. */
    const toFloat: string -> Option<real>
    /** The timestamp found in a line, if any. */
    const toTimestamp: string -> Option<Timestamp>

    var threads: Option<int>
    var nfiles: int
    var events: int
    var inputdir: Option<string>
    var outputdir: Option<string>
    var outputprefix: Option<string>
    var inputfiles: seq<string>
    var starttime: Option<Timestamp>
    var endtime: Option<Timestamp>
    var t1: real
    var t2: real
    var errors: set<string>
    /** The last line read that was not blank, stripped. */
    var lastline: Option<string>

    /** The record's fields as one value. */
    function State(): Fields
      reads this
    {
      Fields(threads, nfiles, events, inputdir, outputdir, outputprefix, inputfiles, starttime, endtime, t1, t2, errors)
    }

    /** A record before any line is read. */
    constructor (toFloat: string -> Option<real>, toTimestamp: string -> Option<Timestamp>)
      ensures this.toFloat == toFloat && this.toTimestamp == toTimestamp
      ensures State() == Initial && lastline == None
    {
      this.toFloat := toFloat;
      this.toTimestamp := toTimestamp;
      threads, nfiles, events := None, -1, -1;
      inputdir, outputdir, outputprefix := None, None, None;
      inputfiles := [];
      starttime, endtime := None, None;
      t1, t2 := -1.0, -1.0;
      errors := {};
      lastline := None;
    }

    /** Whether the line contains one of the tags: the tags are tried in order until one is found. */
    static method HasTag(x: string) returns (keeper: bool)
      ensures keeper == Keeper(x)
    {
      keeper := false;
      var i := 0;
      while i < |LogTags|
        invariant i <= |LogTags|
        invariant !exists t :: 0 <= t < i && Text.Contains(x, LogTags[t])
      {
        if Text.Find(x, LogTags[i]) >= 0 {
          keeper := true;
          return;
        }
        i := i + 1;
      }
    }

    /** Reads one log line into the record; the outcome says whether reading may go on. */
    method Parse(x: string) returns (outcome: Outcome)
      modifies this
      ensures Step(outcome, State()) == ParseLine(old(State()), x, toFloat, toTimestamp)
      ensures lastline == old(lastline)
    {
      var keeper := HasTag(x);
      if !keeper {
        return Parsed;
      }
      var y := Text.Strip(x);
      var cols := Text.Split(y);
      TaggedLine(State(), x, toFloat, toTimestamp);
      outcome := Parsed;
      if |cols| == 3 {
        outcome := ReadThreads(cols);
      } else if |cols| == 4 {
        ReadFour(y, cols);
      } else if |cols| == 5 {
        outcome := ReadFive(y, cols);
      } else if |cols| == 6 {
        ReadCached(cols);
      } else if |cols| == 8 {
        outcome := ReadEight(cols);
      } else if |cols| == 16 {
        outcome := ReadSixteen(cols);
      } else if Text.Find(y, "com.mysql.jdbc") >= 0 && Text.Find(y, "Too many connections") > 0 {
        errors := errors + {DbBit};
      }
    }

    /** A three-token line: the thread count. */
    method ReadThreads(cols: seq<string>) returns (outcome: Outcome)
      requires |cols| == 3
      modifies this
      ensures Step(outcome, State()) == ThreadsLine(old(State()), cols)
      ensures lastline == old(lastline)
    {
      outcome := Parsed;
      if cols[0] == "Threads" && cols[1] == "=" {
        var n := Text.ParseInt(cols[2]);
        if n.None? {
          return ValueError;
        }
        if threads.None? {
          threads := n;
        } else if threads.value != n.value {
          return Exited(n.value, threads.value);
        }
      }
    }

    /** A four-token line: the shutdown time or a directory. */
    method ReadFour(y: string, cols: seq<string>)
      requires |cols| == 4
      modifies this
      ensures Step(Parsed, State()) == FourTokens(old(State()), y, cols, toTimestamp)
      ensures lastline == old(lastline)
    {
      if Text.Find(y, "shutdown DPE") > 0 {
        endtime := toTimestamp(y);
      } else if Text.Find(y, "Input directory") == 0 {
        inputdir := Some(cols[3]);
      } else if Text.Find(y, "Output directory") == 0 {
        outputdir := Some(cols[3]);
      }
    }

    /** A five-token line: the number of files, the start time or the output prefix. */
    method ReadFive(y: string, cols: seq<string>) returns (outcome: Outcome)
      requires |cols| == 5
      modifies this
      ensures Step(outcome, State()) == FiveTokens(old(State()), y, cols, toTimestamp)
      ensures lastline == old(lastline)
    {
      outcome := Parsed;
      if Text.Find(y, "Number of files") >= 0 {
        if nfiles < 0 {
          var n := Text.ParseInt(cols[4]);
          if n.None? {
            return ValueError;
          }
          nfiles := n.value;
        }
      } else if Text.Find(y, "Start time") == 0 {
        if starttime.None? {
          starttime := toTimestamp(y);
        }
      } else if Text.Find(y, "Output file prefix") >= 0 {
        outputprefix := Some(cols[4]);
      }
    }

    /** A six-token line: a cached input file. */
    method ReadCached(cols: seq<string>)
      requires |cols| == 6
      modifies this
      ensures Step(Parsed, State()) == SixTokens(old(State()), cols)
      ensures lastline == old(lastline)
    {
      if cols[4] == "is" && cols[5] == "cached" {
        inputfiles := inputfiles + [Text.Basename(cols[3])];
      }
    }

    /** An eight-token line: the average processing time. */
    method ReadEight(cols: seq<string>) returns (outcome: Outcome)
      requires |cols| == 8
      modifies this
      ensures Step(outcome, State()) == EightTokens(old(State()), cols, toFloat)
      ensures lastline == old(lastline)
    {
      outcome := Parsed;
      if cols[2] == "Average" && cols[3] == "processing" && cols[4] == "time" {
        if t2 < 0.0 {
          var v := toFloat(cols[6]);
          if v.None? {
            return ValueError;
          }
          t2 := v.value;
        }
      }
    }

    /** A sixteen-token line: the event count, then the event time. */
    method ReadSixteen(cols: seq<string>) returns (outcome: Outcome)
      requires |cols| == 16
      modifies this
      ensures Step(outcome, State()) == SixteenTokens(old(State()), cols, toFloat)
      ensures lastline == old(lastline)
    {
      outcome := Parsed;
      if cols[2] == "TOTAL" && cols[4] == "events" && cols[5] == "total" {
        if events < 0 {
          var n := Text.ParseInt(cols[3]);
          if n.None? {
            return ValueError;
          }
          events := n.value;
        }
      }
      if cols[2] == "TOTAL" && cols[11] == "event" && cols[12] == "time" {
        if t1 < 0.0 {
          var v := toFloat(cols[14]);
          if v.None? {
            return ValueError;
          }
          t1 := v.value;
        }
      }
    }

    /**
      The reading loop: each line in turn, remembering the last one that is
      not blank, until the lines run out or one ends abnormally. `read` is
      the number of lines taken.
    */
    method Feed(lines: seq<string>) returns (outcome: Outcome, read: nat)
      modifies this
      ensures read <= |lines| && (outcome.Parsed? ==> read == |lines|)
      ensures Step(outcome, State()) == ParseLines(old(State()), lines, toFloat, toTimestamp)
      ensures Step(outcome, State()) == ParseLines(old(State()), lines[..read], toFloat, toTimestamp)
      ensures lastline == LastNonBlank(old(lastline), lines[..read])
    {
      ghost var f0 := State();
      outcome, read := Parsed, 0;
      while read < |lines|
        invariant read <= |lines| && outcome == Parsed
        invariant Step(Parsed, State()) == ParseLines(f0, lines[..read], toFloat, toTimestamp)
        invariant lastline == LastNonBlank(old(lastline), lines[..read])
      {
        var line := lines[read];
        ParseLinesSnoc(f0, old(lastline), lines, read, toFloat, toTimestamp);
        var stripped := Text.Strip(line);
        if stripped != [] {
          lastline := Some(stripped);
        }
        outcome := Parse(line);
        read := read + 1;
        if outcome != Parsed {
          StopsAtFailure(f0, lines, read, toFloat, toTimestamp);
          return;
        }
      }
      assert lines[..read] == lines;
    }
  }
}
