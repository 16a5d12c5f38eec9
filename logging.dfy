/** One logging call and the state behind it: the pieces of the header line (timestamp, file,
    scope, trace-id bracket, elapsed time), the JSON record of cluster mode, the module-wide
    line counter that silences the console in cluster mode, and the logger object with its
    chaining setters. */
module Logging {
  import opened Wrappers
  import opened Text
  import opened Values
  import opened Mode
  import opened Format
  import opened CallSite

  /** Console lines cluster mode prints before it only writes the file. */
  const K8ConsoleMaxLine: nat := 200

  // ---------------------------------------------------------------------------
  // The pieces of the header

  /** The timestamp: the long template in cluster mode, the compact one otherwise, painted
      gray outside plain mode. */
  function Timestamp(e: Env, c: Collaborators, d: DateFields): (r: string)
    ensures IsK8Env(e) ==> r == ClusterStamp(d)
    ensures !IsK8Env(e) && IsProdEnv(e) ==> r == CompactStamp(d)
    ensures !IsPlain(e) ==> r == c.paint(Gray, CompactStamp(d))
  {
    FormatCluster(d);
    FormatCompact(d);
    var currentTime :=
      if IsK8Env(e) then FormatDate(ClusterTemplate, d) else FormatDate(CompactTemplate, d);
    if IsPlain(e) then currentTime else c.paint(Gray, currentTime)
  }

  /** The file shown: the name set with `setFileName` when it is not empty, otherwise the
      shortened path, painted red outside plain mode. */
  function FileLabel(e: Env, c: Collaborators, fileName: Option<string>, path: string): (r: string)
    ensures Truthy(fileName) ==> r == fileName.value
    ensures !Truthy(fileName) && IsPlain(e) ==> r == path
    ensures !Truthy(fileName) && !IsPlain(e) ==> r == c.paint(Red, path)
  {
    if Truthy(fileName) then fileName.value
    else if IsPlain(e) then path
    else c.paint(Red, path)
  }

  /** The name space as string concatenation shows it: an absent one reads `null`. */
  function NameText(nameSpace: Option<string>): string {
    nameSpace.GetOr("null")
  }

  /** The scope: the bracketed name space in plain mode, even when there is none; outside
      plain mode the bracketed name space painted yellow, or nothing when it is empty or
      absent. */
  function Scope(e: Env, c: Collaborators, nameSpace: Option<string>): (r: string)
    ensures IsPlain(e) ==> r == "【" + NameText(nameSpace) + "】"
    ensures !IsPlain(e) && Truthy(nameSpace) ==> r == c.paint(Yellow, "【" + nameSpace.value + "】")
    ensures !IsPlain(e) && !Truthy(nameSpace) ==> r == ""
  {
    if IsPlain(e) then "【" + NameText(nameSpace) + "】"
    else if Truthy(nameSpace) then c.paint(Yellow, "【" + NameText(nameSpace) + "】")
    else ""
  }

  /** `logger.traceId || ''`. */
  function TraceText(traceId: Option<string>): string {
    traceId.GetOr("")
  }

  /** The trace-id bracket: nothing for an empty id, the id in square brackets otherwise. */
  function TraceBracket(trace: string): (r: string)
    ensures r == "" <==> trace == ""
    ensures trace != "" ==> |r| == |trace| + 2 && r[0] == '[' && r[1..|r| - 1] == trace && r[|r| - 1] == ']'
  {
    if |trace| > 0 then "[" + trace + "]" else ""
  }

  /** What a call has computed once the frame is parsed and the arguments are rendered. */
  datatype Parts = Parts(timestamp: string, file: string, scope: string, trace: string, content: string)

  /** The header line: timestamp, a space, file, scope, trace bracket and elapsed time. */
  function Header(p: Parts, elapsed: int): (r: string)
    ensures |r| == |p.timestamp| + 1 + |p.file| + |p.scope| + |TraceBracket(p.trace)| + |IntToString(elapsed)| + 4
  {
    (p.timestamp + " " + p.file) + (p.scope + TraceBracket(p.trace)) + ("[" + IntToString(elapsed) + "ms]")
  }

  /** The three pieces of `x + y + z` can be sliced back out. */
  lemma Pieces(x: string, y: string, z: string)
    ensures (x + y + z)[..|x|] == x
    ensures (x + y + z)[|x|..|x| + |y|] == y
    ensures (x + y + z)[|x| + |y|..] == z
  {
  }

  /** The header can be read back: it starts with the timestamp and a space, the file comes
      next, and it ends with the elapsed milliseconds in brackets. */
  lemma HeaderFields(p: Parts, elapsed: int)
    ensures var h := Header(p, elapsed); var n := |p.timestamp|;
      && h[..n] == p.timestamp && h[n] == ' ' && h[n + 1..n + 1 + |p.file|] == p.file
      && h[|h| - |IntToString(elapsed)| - 4..] == "[" + IntToString(elapsed) + "ms]"
  {
    var front := p.timestamp + " " + p.file;
    var mid := p.scope + TraceBracket(p.trace);
    var tail := "[" + IntToString(elapsed) + "ms]";
    Pieces(front, mid, tail);
    Pieces(p.timestamp, " ", p.file);
  }

  /** A non-empty trace id shows in the header in square brackets; an empty one leaves the
      scope followed directly by the elapsed time. */
  lemma HeaderShowsTrace(p: Parts, elapsed: int)
    ensures p.trace != "" ==> Contains(Header(p, elapsed), "[" + p.trace + "]")
    ensures p.trace == "" ==>
      Header(p, elapsed) == (p.timestamp + " " + p.file) + p.scope + ("[" + IntToString(elapsed) + "ms]")
  {
    var front := p.timestamp + " " + p.file;
    var mid := p.scope + TraceBracket(p.trace);
    var tail := "[" + IntToString(elapsed) + "ms]";
    if p.trace != "" {
      var h := Header(p, elapsed);
      var b := "[" + p.trace + "]";
      Pieces(front, mid, tail);
      assert mid[|p.scope|..] == b;
      assert h[|front| + |p.scope|..|front| + |p.scope| + |b|] == b;
      assert OccursAt(h, b, |front| + |p.scope|);
    } else {
      assert mid == p.scope;
    }
  }

  /** The scope shows in the header right after the file. */
  lemma HeaderShowsScope(p: Parts, elapsed: int)
    ensures OccursAt(Header(p, elapsed), p.scope, |p.timestamp| + 1 + |p.file|)
  {
  }

  /** For a non-negative elapsed time the header's last field reads back as that time. */
  lemma HeaderElapsed(p: Parts, elapsed: int)
    requires elapsed >= 0
    ensures var h := Header(p, elapsed); var t := IntToString(elapsed);
      |t| + 4 <= |h| && AllDigits(h[|h| - |t| - 3..|h| - 3]) && ParseDigits(h[|h| - |t| - 3..|h| - 3]) == elapsed
  {
    var h := Header(p, elapsed);
    var t := IntToString(elapsed);
    HeaderFields(p, elapsed);
    assert h[|h| - |t| - 3..|h| - 3] == ("[" + t + "ms]")[1..|t| + 1];
    assert ("[" + t + "ms]")[1..|t| + 1] == t;
    ParseNatToString(elapsed);
  }

  // ---------------------------------------------------------------------------
  // The cluster-mode record and the module-wide counter

  /** An environment variable as an object property holds it: unset is `undefined`. */
  function EnvValue(x: Option<string>): Value {
    match x
    case Some(s) => Str(s)
    case None => Undefined
  }

  /** The object cluster mode serialises: service name, timestamp, file, scope, trace id,
      `env` and content, in that order. */
  function Record(e: Env, p: Parts): (r: Value)
    ensures r.Object? && |r.props| == 7
    ensures forall i :: 0 <= i < 7 ==>
      r.props[i].key == ["serviceName", "timestamp", "file", "scope", "traceId", "env", "content"][i]
    ensures r.props[0].value == EnvValue(e.serviceName) && r.props[5].value == EnvValue(e.env)
    ensures r.props[1].value == Str(p.timestamp) && r.props[2].value == Str(p.file)
    ensures r.props[3].value == Str(p.scope) && r.props[4].value == Str(p.trace)
    ensures r.props[6].value == Str(p.content)
  {
    Object([
      Property("serviceName", EnvValue(e.serviceName)),
      Property("timestamp", Str(p.timestamp)),
      Property("file", Str(p.file)),
      Property("scope", Str(p.scope)),
      Property("traceId", Str(p.trace)),
      Property("env", EnvValue(e.env)),
      Property("content", Str(p.content))])
  }

  /** A write to the file named by joining `LOG_PATH` and `LOG_FILE_NAME`: created when it did
      not exist, appended to otherwise. */
  datatype FileWrite = FileWrite(dir: string, name: string, create: bool, text: string)

  /** An opaque handle on the function given to `setLog`. */
  datatype LogFunction = LogFunction(id: nat)

  /** Where the header and content go: `console.log`, or the function given to `setLog`. */
  datatype Target = ConsoleLog | Mock(f: LogFunction)

  /** How a call ends: it threw (caught and traced, nothing printed), it was silenced by the
      cluster-mode limit, or it printed a header and the content. */
  datatype Outcome = Failed | Silent | Printed(target: Target, header: string, content: string)

  /** The state the module keeps across all loggers. */
  class ModuleState {
    /** Lines written in cluster mode so far. */
    var logCounter: nat

    constructor()
      ensures logCounter == 0
    {
      logCounter := 0;
    }
  }

  // ---------------------------------------------------------------------------
  // The logger

  /** A logger made by the factory: its name space, fixed when it is made, and the settings
      its setters change. */
  class Logger {
    const nameSpace: Option<string>
    var traceId: Option<string>
    var mockLog: Option<LogFunction>
    var strMaxLen: Option<int>
    var fileName: Option<string>

    /** The factory: a logger for `nameSpace` (absent stands for the default `null`), with
        nothing set. */
    constructor(nameSpace: Option<string>)
      ensures this.nameSpace == nameSpace
      ensures traceId.None? && mockLog.None? && strMaxLen.None? && fileName.None?
    {
      this.nameSpace := nameSpace;
      traceId := None;
      mockLog := None;
      strMaxLen := None;
      fileName := None;
    }

    /** `setId(traceId)`: stores the trace id and returns the logger. */
    method SetId(id: Option<string>) returns (self: Logger)
      modifies this
      ensures self == this && traceId == id
      ensures mockLog == old(mockLog) && strMaxLen == old(strMaxLen) && fileName == old(fileName)
    {
      traceId := id;
      self := this;
    }

    /** `setLog(log)`: stores the output function and returns the logger. */
    method SetLog(log: Option<LogFunction>) returns (self: Logger)
      modifies this
      ensures self == this && mockLog == log
      ensures traceId == old(traceId) && strMaxLen == old(strMaxLen) && fileName == old(fileName)
    {
      mockLog := log;
      self := this;
    }

    /** `setMaxLength(length = 512)` (also called `setLength`): stores the limit, 512 when
        none is given, and returns the logger. */
    method SetMaxLength(length: Option<int>) returns (self: Logger)
      modifies this
      ensures self == this && strMaxLen == Some(length.GetOr(DefaultMaxLength))
      ensures traceId == old(traceId) && mockLog == old(mockLog) && fileName == old(fileName)
    {
      strMaxLen := Some(length.GetOr(DefaultMaxLength));
      self := this;
    }

    /** `setFileName(fileName = '')` (also called `setName`): stores the name, empty when none
        is given, and returns the logger. */
    method SetFileName(name: Option<string>) returns (self: Logger)
      modifies this
      ensures self == this && fileName == Some(name.GetOr(""))
      ensures traceId == old(traceId) && mockLog == old(mockLog) && strMaxLen == old(strMaxLen)
    {
      fileName := Some(name.GetOr(""));
      self := this;
    }

    /** The pieces a call computes before it writes anything, from the frame line of its
        caller and its arguments; `None` when the frame matches neither pattern or an
        argument cannot be turned into text, where the source throws. */
    function Prepare(e: Env, c: Collaborators, d: DateFields, frame: string, args: seq<Value>): (r: Option<Parts>)
      reads this
      ensures r.None? <==> MatchedPath(frame).None? || Content(e, c, strMaxLen, args).None?
      ensures r.Some? ==> r.value.content == Content(e, c, strMaxLen, args).value
      ensures r.Some? ==> r.value.scope == Scope(e, c, nameSpace) && r.value.timestamp == Timestamp(e, c, d)
      ensures r.Some? && Truthy(fileName) ==> r.value.file == fileName.value
      ensures r.Some? && !Truthy(fileName) && IsPlain(e) ==> r.value.file == ShortPath(MatchedPath(frame).value)
      ensures r.Some? ==> r.value.file == FileLabel(e, c, fileName, ShortPath(MatchedPath(frame).value))
      ensures r.Some? ==> r.value.trace == TraceText(traceId)
    {
      match (MatchedPath(frame), Content(e, c, strMaxLen, args))
      case (Some(path), Some(content)) =>
        Some(Parts(Timestamp(e, c, d), FileLabel(e, c, fileName, ShortPath(path)),
                   Scope(e, c, nameSpace), TraceText(traceId), content))
      case _ => None
    }

    /** Where this logger prints. */
    function Sink(): (r: Target)
      reads this
      ensures r.Mock? <==> mockLog.Some?
      ensures r.Mock? ==> r.f == mockLog.value
    {
      if mockLog.Some? then Mock(mockLog.value) else ConsoleLog
    }

    /** One call of the logger. The frame line of the caller, the date fields, the elapsed
        milliseconds and whether the cluster file exists (and, if not, whether creating it
        succeeds) are given. A call that throws changes nothing. In cluster mode a
        successful call writes the record and counts one line, and prints only while the
        count is at most 200; in the other modes it prints and counts nothing. */
    method Log(m: ModuleState, e: Env, c: Collaborators, d: DateFields, elapsed: int,
               frame: string, fileExists: bool, createOk: bool, args: seq<Value>)
      returns (out: Outcome, write: Option<FileWrite>)
      modifies m
      ensures Prepare(e, c, d, frame, args).None? ==>
        out == Failed && write.None? && m.logCounter == old(m.logCounter)
      ensures IsK8Env(e) && !fileExists && !createOk ==>
        out == Failed && write.None? && m.logCounter == old(m.logCounter)
      ensures !IsK8Env(e) ==> write.None? && m.logCounter == old(m.logCounter)
      ensures var p := Prepare(e, c, d, frame, args);
        IsK8Env(e) && p.Some? && (fileExists || createOk) ==>
          && m.logCounter == old(m.logCounter) + 1
          && write == Some(FileWrite(e.logPath.value, e.logFileName.value, !fileExists,
                                     Stringify(e, c, Record(e, p.value)) + "\n"))
          && (out == Silent <==> m.logCounter > K8ConsoleMaxLine)
      ensures out.Printed? ==> var p := Prepare(e, c, d, frame, args);
        p.Some? && out == Printed(Sink(), Header(p.value, elapsed), p.value.content)
      ensures var p := Prepare(e, c, d, frame, args);
        p.Some? && (!IsK8Env(e) || ((fileExists || createOk) && m.logCounter <= K8ConsoleMaxLine)) ==>
          out == Printed(Sink(), Header(p.value, elapsed), p.value.content)
    {
      var p := Prepare(e, c, d, frame, args);
      if p.None? {
        return Failed, None;
      }
      write := None;
      if IsK8Env(e) {
        var text := Stringify(e, c, Record(e, p.value)) + "\n";
        if !fileExists && !createOk {
          return Failed, None;
        }
        write := Some(FileWrite(e.logPath.value, e.logFileName.value, !fileExists, text));
        m.logCounter := m.logCounter + 1;
        if m.logCounter > K8ConsoleMaxLine {
          return Silent, write;
        }
      }
      out := Printed(Sink(), Header(p.value, elapsed), p.value.content);
    }

    /** What a printed header shows of this logger: the trace id set with `setId`, in
        square brackets, when it is not empty, and in plain mode the bracketed name space. */
    lemma PreparedHeaderShows(e: Env, c: Collaborators, d: DateFields, frame: string,
                              args: seq<Value>, elapsed: int)
      requires Prepare(e, c, d, frame, args).Some?
      ensures TraceText(traceId) != "" ==>
        Contains(Header(Prepare(e, c, d, frame, args).value, elapsed), "[" + TraceText(traceId) + "]")
      ensures IsPlain(e) ==>
        Contains(Header(Prepare(e, c, d, frame, args).value, elapsed), "【" + NameText(nameSpace) + "】")
    {
      var p := Prepare(e, c, d, frame, args).value;
      HeaderShowsTrace(p, elapsed);
      HeaderShowsScope(p, elapsed);
    }
  }

  /** In cluster mode the record is serialised by the compact serialiser and names the same
      timestamp the header starts with. */
  lemma RecordInClusterMode(e: Env, c: Collaborators, p: Parts, elapsed: int)
    requires IsK8Env(e)
    ensures Stringify(e, c, Record(e, p)) == c.safeStringify(Record(e, p))
    ensures Record(e, p).props[1].value.s == Header(p, elapsed)[..|p.timestamp|]
  {
    HeaderFields(p, elapsed);
  }

  /** A cluster-mode header starts with the long date layout; a production header with the
      compact one. */
  lemma HeaderTimestamp(e: Env, c: Collaborators, d: DateFields, p: Parts, elapsed: int)
    requires p.timestamp == Timestamp(e, c, d)
    ensures IsK8Env(e) ==> ClusterStamp(d) <= Header(p, elapsed)
    ensures !IsK8Env(e) && IsProdEnv(e) ==> CompactStamp(d) <= Header(p, elapsed)
  {
    HeaderFields(p, elapsed);
  }
}
