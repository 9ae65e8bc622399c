/** `hobject` (baseobj.py): a wrapper that attaches one append-mode log
    file to the process-wide logger named `mylogger` each time it is
    constructed, and logs a message under a level given by name.

    The logger registry of Python's `logging` is process-wide: every
    `getLogger('mylogger')` returns the same object. Here that object is a
    `Logger` handed to each construction, and the log files it writes are
    part of its state, each file being the sequence of lines written to it.
    A line is reduced to its level and message. */
module BaseObj {
  import opened Wrappers
  import opened PyText

  /** The five levels `log` accepts. */
  datatype Level = Critical | Error | Warning | Info | Debug

  /** The name of each level, the key of `dict_level`. */
  function LevelName(l: Level): string {
    match l
    case Critical => "CRITICAL"
    case Error => "ERROR"
    case Warning => "WARNING"
    case Info => "INFO"
    case Debug => "DEBUG"
  }

  /** The numeric value `logging` gives each level. */
  function Severity(l: Level): nat {
    match l
    case Critical => 50
    case Error => 40
    case Warning => 30
    case Info => 20
    case Debug => 10
  }

  /** `logging.NOTSET`, the level of a logger nobody has set. */
  const NotSet: nat := 0

  /** `logging.WARNING`: what a logger at `NotSet` inherits from the root. */
  const RootLevel: nat := 30

  /** One line of a log file: the level it was logged at and the message. */
  datatype LogLine = LogLine(level: Level, msg: string)

  /** The lookup `log` makes: `str(level).upper()` among the keys of
      `dict_level`, which are the five level names. */
  function ParseLevel(level: string): (r: Option<Level>)
    ensures r.Some? ==> Upper(level) == LevelName(r.value)
    ensures r.None? ==> forall l: Level :: Upper(level) != LevelName(l)
  {
    var key := Upper(level);
    if key == LevelName(Critical) then Some(Critical)
    else if key == LevelName(Error) then Some(Error)
    else if key == LevelName(Warning) then Some(Warning)
    else if key == LevelName(Info) then Some(Info)
    else if key == LevelName(Debug) then Some(Debug)
    else None
  }

  /** The lower-case form of an ASCII capital. */
  function LowerChar(c: char): (d: char)
    requires 'A' <= c <= 'Z'
    ensures 'a' <= d <= 'z' && UpperChar(d) == c
  {
    (c as int + 32) as char
  }

  /** Every level name is spelled in ASCII capitals. */
  predicate Capitals(s: string) {
    forall i :: 0 <= i < |s| ==> 'A' <= s[i] <= 'Z'
  }

  /** A level name is accepted in any mix of cases: a name that has, at
      each position, the level name's capital or its lower-case form
      selects that level. */
  lemma ParseLevelIgnoresCase(s: string, l: Level)
    requires |s| == |LevelName(l)|
    requires forall i :: 0 <= i < |s| ==> s[i] == LevelName(l)[i] || s[i] == LowerChar(LevelName(l)[i])
    ensures ParseLevel(s) == Some(l)
  {
    var name := LevelName(l);
    assert Capitals(name);
    assert Upper(s) == name by {
      forall i | 0 <= i < |s| ensures Upper(s)[i] == name[i] {
        assert UpperChar(name[i]) == name[i];
      }
    }
  }

  /** The levels the tests and the demonstration use: lower-case names are
      accepted, and `FATAL`, though Python's `logging` knows it, is not. */
  lemma ParseLevelExamples()
    ensures ParseLevel("critical") == Some(Critical)
    ensures ParseLevel("debug") == Some(Debug)
    ensures ParseLevel("error") == Some(Error)
    ensures ParseLevel("Warning") == Some(Warning)
    ensures ParseLevel("FATAL") == None
  {
    assert Upper("critical") == "CRITICAL";
    assert Upper("debug") == "DEBUG";
    assert Upper("error") == "ERROR";
    assert Upper("Warning") == "WARNING";
    assert Upper("FATAL") == "FATAL";
  }

  /** The file used when no log name is given. */
  const DefaultLogFile: string := "./hobject.log"

  /** `logname if logname else './hobject.log'`: a missing or empty name
      means the default file. */
  function LogFileName(logname: Option<string>): (f: string)
    ensures f != ""
    ensures logname.None? || logname.value == "" ==> f == DefaultLogFile
    ensures logname.Some? && logname.value != "" ==> f == logname.value
  {
    if logname.Some? && logname.value != "" then logname.value else DefaultLogFile
  }

  /** Opening `f` in append mode: the file is created empty if it does not
      exist, and keeps its contents if it does. */
  function Opened(files: map<string, seq<LogLine>>, f: string): (r: map<string, seq<LogLine>>)
    ensures r.Keys == files.Keys + {f}
    ensures f in files ==> r == files
    ensures f !in files ==> r[f] == []
  {
    if f in files then files else files[f := []]
  }

  /** The files after one record went through the handlers `hs` in order:
      each handler appends the line to its file. */
  function Deliver(files: map<string, seq<LogLine>>, hs: seq<string>, line: LogLine): (r: map<string, seq<LogLine>>)
    requires forall i :: 0 <= i < |hs| ==> hs[i] in files
    ensures r.Keys == files.Keys
  {
    if hs == [] then files
    else
      var before := Deliver(files, hs[..|hs| - 1], line);
      var h := hs[|hs| - 1];
      before[h := before[h] + [line]]
  }

  /** How many of the handlers `hs` write to `f`. */
  function CountOf(hs: seq<string>, f: string): nat {
    if hs == [] then 0
    else CountOf(hs[..|hs| - 1], f) + (if hs[|hs| - 1] == f then 1 else 0)
  }

  /** `line` repeated `n` times. */
  function Repeat(line: LogLine, n: nat): (r: seq<LogLine>)
    ensures |r| == n
    ensures forall i :: 0 <= i < n ==> r[i] == line
  {
    seq(n, _ => line)
  }

  /** One record reaches every file once per handler attached to it: the
      earlier contents stay in front, and nothing else changes. */
  lemma {:induction false} DeliverAppends(files: map<string, seq<LogLine>>, hs: seq<string>, line: LogLine, f: string)
    requires forall i :: 0 <= i < |hs| ==> hs[i] in files
    requires f in files
    ensures Deliver(files, hs, line)[f] == files[f] + Repeat(line, CountOf(hs, f))
  {
    if hs != [] {
      DeliverAppends(files, hs[..|hs| - 1], line, f);
      var n := CountOf(hs[..|hs| - 1], f);
      if hs[|hs| - 1] == f {
        assert Repeat(line, n) + [line] == Repeat(line, n + 1);
      }
    }
  }

  /** A handler list made of `n` handlers on one file `f`: the state after
      `n` constructions with the same log name. */
  lemma {:induction false} CountOfRepeated(f: string, n: nat)
    ensures CountOf(seq(n, _ => f), f) == n
  {
    if n > 0 {
      CountOfRepeated(f, n - 1);
      assert seq(n, _ => f)[..n - 1] == seq(n - 1, _ => f);
    }
  }

  /** After `n` constructions with the same log file, one message is
      written to that file `n` times. */
  lemma DuplicatedLines(files: map<string, seq<LogLine>>, f: string, n: nat, line: LogLine)
    requires f in files
    ensures Deliver(files, seq(n, _ => f), line)[f] == files[f] + Repeat(line, n)
  {
    DeliverAppends(files, seq(n, _ => f), line, f);
    CountOfRepeated(f, n);
  }

  /** The shared logger `logging.getLogger(name)`, with the files its
      handlers write. */
  class Logger {
    const name: string
    /** The level set by `setLevel`, `NotSet` until then. */
    var level: nat
    /** The file of each attached `FileHandler`, in attachment order. */
    var handlers: seq<string>
    /** The contents of the log files, as lines. */
    var files: map<string, seq<LogLine>>

    /** Every handler's file has been opened. */
    ghost predicate Valid()
      reads this
    {
      forall i :: 0 <= i < |handlers| ==> handlers[i] in files
    }

    /** The level below which records are dropped. */
    function EffectiveLevel(): nat
      reads this
    {
      if level == NotSet then RootLevel else level
    }

    /** The first `getLogger(name)` of the process, over the files that
        exist at that time. */
    constructor(name: string, files: map<string, seq<LogLine>>)
      ensures Valid()
      ensures this.name == name && level == NotSet && handlers == [] && this.files == files
    {
      this.name := name;
      level := NotSet;
      handlers := [];
      this.files := files;
    }

    /** `setLevel(l)`. */
    method SetLevel(l: nat)
      modifies this
      ensures level == l
      ensures handlers == old(handlers) && files == old(files)
    {
      level := l;
    }

    /** `addHandler(logging.FileHandler(filename=f, mode='a'))`: the handler
        opens `f` for appending, and is added after the ones there. */
    method AddFileHandler(f: string)
      requires Valid()
      modifies this
      ensures Valid()
      ensures handlers == old(handlers) + [f]
      ensures files == Opened(old(files), f)
      ensures level == old(level)
    {
      files := Opened(files, f);
      handlers := handlers + [f];
    }

    /** Logging `msg` at level `l`: when the level passes, each handler in
        turn appends the line to its file. */
    method Emit(l: Level, msg: string)
      requires Valid()
      modifies this
      ensures Valid()
      ensures handlers == old(handlers) && level == old(level)
      ensures Severity(l) >= EffectiveLevel() ==> files == Deliver(old(files), handlers, LogLine(l, msg))
      ensures Severity(l) < EffectiveLevel() ==> files == old(files)
    {
      if Severity(l) >= EffectiveLevel() {
        var i := 0;
        while i < |handlers|
          invariant 0 <= i <= |handlers|
          invariant handlers == old(handlers) && level == old(level)
          invariant files.Keys == old(files).Keys
          invariant files == Deliver(old(files), handlers[..i], LogLine(l, msg))
        {
          assert handlers[..i + 1][..i] == handlers[..i];
          var h := handlers[i];
          files := files[h := files[h] + [LogLine(l, msg)]];
          i := i + 1;
        }
        assert handlers[..|handlers|] == handlers;
      }
    }
  }

  /** What `log` ends in: the message logged, or the assertion on the level
      name failing. */
  datatype LogOutcome = Logged | UnsupportedLevel(level: string)

  /** `hobject`. */
  class HObject {
    /** `self.mylogger`: the shared logger. */
    const mylogger: Logger

    /** `hobject(logname)`: sets the shared logger to DEBUG and attaches one
        more append-mode handler on `logname`, or on `./hobject.log` when no
        name is given. */
    constructor(shared: Logger, logname: Option<string>)
      requires shared.name == "mylogger" && shared.Valid()
      modifies shared
      ensures mylogger == shared && shared.Valid()
      ensures shared.level == Severity(Debug)
      ensures shared.handlers == old(shared.handlers) + [LogFileName(logname)]
      ensures shared.files == Opened(old(shared.files), LogFileName(logname))
    {
      mylogger := shared;
      new;
      shared.SetLevel(Severity(Debug));
      var logFname := LogFileName(logname);
      shared.AddFileHandler(logFname);
    }

    /** `log(msg, level)`: an unknown level name fails and writes nothing;
        a known one, in any case, logs `msg` at that level through every
        handler of the shared logger when the logger's level lets it pass,
        and is dropped otherwise. Once a construction has set the logger to
        DEBUG, every known level passes. */
    method Log(msg: string, level: string) returns (outcome: LogOutcome)
      requires mylogger.Valid()
      modifies mylogger
      ensures mylogger.Valid()
      ensures mylogger.handlers == old(mylogger.handlers) && mylogger.level == old(mylogger.level)
      ensures ParseLevel(level).None? ==> outcome == UnsupportedLevel(level) && mylogger.files == old(mylogger.files)
      ensures ParseLevel(level).Some? ==> outcome == Logged
      ensures ParseLevel(level).Some? && Severity(ParseLevel(level).value) >= mylogger.EffectiveLevel() ==>
        mylogger.files == Deliver(old(mylogger.files), mylogger.handlers, LogLine(ParseLevel(level).value, msg))
      ensures ParseLevel(level).Some? && Severity(ParseLevel(level).value) < mylogger.EffectiveLevel() ==>
        mylogger.files == old(mylogger.files)
      ensures ParseLevel(level).Some? && mylogger.level == Severity(Debug) ==>
        mylogger.files == Deliver(old(mylogger.files), mylogger.handlers, LogLine(ParseLevel(level).value, msg))
    {
      var l := ParseLevel(level);
      if l.None? {
        return UnsupportedLevel(level);
      }
      mylogger.Emit(l.value, msg);
      outcome := Logged;
    }
  }

  /** `n` constructions of `hobject` with the same log name on a logger
      nobody has used, then one `log` call through the last object: as
      every construction attached one more handler on the same file, a
      known level writes the line `n` times after what the file held. */
  method LogAfterConstructions(files: map<string, seq<LogLine>>, logname: Option<string>, n: nat, msg: string, level: string)
    returns (outcome: LogOutcome, contents: seq<LogLine>)
    requires n >= 1
    ensures var f := LogFileName(logname);
      var before := if f in files then files[f] else [];
      && (ParseLevel(level).None? ==> outcome == UnsupportedLevel(level) && contents == before)
      && (ParseLevel(level).Some? ==>
            outcome == Logged && contents == before + Repeat(LogLine(ParseLevel(level).value, msg), n))
  {
    var f := LogFileName(logname);
    var logger := new Logger("mylogger", files);
    var hobj := new HObject(logger, logname);
    var i := 1;
    while i < n
      invariant 1 <= i <= n
      invariant logger.Valid() && hobj.mylogger == logger
      invariant logger.handlers == seq(i, _ => f) && logger.level == Severity(Debug)
      invariant logger.files == Opened(files, f)
    {
      hobj := new HObject(logger, logname);
      assert seq(i, _ => f) + [f] == seq(i + 1, _ => f);
      i := i + 1;
    }
    outcome := hobj.Log(msg, level);
    if ParseLevel(level).Some? {
      DuplicatedLines(Opened(files, f), f, n, LogLine(ParseLevel(level).value, msg));
    }
    contents := logger.files[f];
  }

  /** What the test's file removal can raise. */
  datatype OsError = FileNotFound(path: string)

  /** The body of the test's `obj_init` after the removal: construct the
      first `hobject` of the process on `logname` and log each (message,
      level) pair in turn. The file then holds one line per pair, in order,
      each carrying its message at the level named. */
  method ConstructAndLog(files: map<string, seq<LogLine>>, logname: string, msgs: seq<(string, string)>)
    returns (contents: seq<LogLine>)
    requires logname !in files && logname != ""
    requires forall i :: 0 <= i < |msgs| ==> ParseLevel(msgs[i].1).Some?
    ensures |contents| == |msgs|
    ensures forall i :: 0 <= i < |msgs| ==> contents[i] == LogLine(ParseLevel(msgs[i].1).value, msgs[i].0)
  {
    var logger := new Logger("mylogger", files);
    var hobj := new HObject(logger, Some(logname));
    var i := 0;
    while i < |msgs|
      invariant 0 <= i <= |msgs|
      invariant logger.Valid() && hobj.mylogger == logger
      invariant logger.handlers == [logname] && logger.level == Severity(Debug)
      invariant logname in logger.files && |logger.files[logname]| == i
      invariant forall j :: 0 <= j < i ==> logger.files[logname][j] == LogLine(ParseLevel(msgs[j].1).value, msgs[j].0)
    {
      var _ := hobj.Log(msgs[i].0, msgs[i].1);
      assert [logname][..0] == [];
      i := i + 1;
    }
    contents := logger.files[logname];
  }

  /** The test's `obj_init`: remove the log file, then construct and log.
      When the file does not exist, `os.remove` raises before any object is
      built. */
  method ObjInit(files: map<string, seq<LogLine>>, logname: string, msgs: seq<(string, string)>)
    returns (r: Result<seq<LogLine>, OsError>)
    requires logname != ""
    requires forall i :: 0 <= i < |msgs| ==> ParseLevel(msgs[i].1).Some?
    ensures logname !in files <==> r == Err(FileNotFound(logname))
    ensures r.Ok? ==> |r.value| == |msgs|
    ensures r.Ok? ==> forall i :: 0 <= i < |msgs| ==> r.value[i] == LogLine(ParseLevel(msgs[i].1).value, msgs[i].0)
  {
    if logname !in files {
      return Err(FileNotFound(logname));
    }
    var contents := ConstructAndLog(files - {logname}, logname, msgs);
    r := Ok(contents);
  }
}
