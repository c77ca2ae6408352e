/**
 * `get_logger`: configures the shared logger with a context filter that
 * stamps a host name and a job name on every record, a syslog handler aimed
 * at the Papertrail destination, and a handler writing to standard output.
 */
module Papertrail {
  import opened Wrappers
  import opened Strings
  import opened Destination

  /** The line layout of the syslog handler's formatter. */
  const LogFormat := "%(asctime)s %(hostname)s %(jobname)s: [%(levelname)s] %(message)s"
  /** The `strftime` layout of its timestamp. */
  const DateFormat := "%b %d %H:%M:%S"
  /** The host name used when the caller gives none. */
  const LocalHostname := "salesforce-local"

  /** The `logging` module's numeric levels. */
  const NOTSET := 0
  const DEBUG := 10

  /** The record attributes the context filter sets. */
  const HostnameAttribute := "hostname"
  const JobnameAttribute := "jobname"

  /**
   * `s.replace(" ", "")`: only U+0020 is removed, so tabs and newlines stay,
   * and an empty or all-space name becomes "".
   */
  function RemoveSpaces(s: string): (r: string)
    ensures ' ' !in r
    ensures |r| <= |s|
  {
    Without(s, ' ')
  }

  /** Sanitising is idempotent, and changes nothing exactly when there is no space. */
  lemma RemoveSpacesIdempotent(s: string)
    ensures RemoveSpaces(RemoveSpaces(s)) == RemoveSpaces(s)
    ensures RemoveSpaces(s) == s <==> ' ' !in s
  {
    WithoutIdempotent(s, ' ');
    WithoutIdentity(s, ' ');
  }

  /** Sanitising can leave nothing: the result is "" exactly when the name is all spaces. */
  lemma RemoveSpacesEmpty(s: string)
    ensures RemoveSpaces(s) == "" <==> forall i :: 0 <= i < |s| ==> s[i] == ' '
  {
    WithoutEmpty(s, ' ');
  }

  /** Interior spaces go: `"my job"` becomes `"myjob"`. */
  lemma RemoveSpacesInterior()
    ensures RemoveSpaces("my job") == "myjob"
  {
    assert "my job"[1..] == "y job" && "y job"[1..] == " job" && " job"[1..] == "job";
    assert "job"[1..] == "ob" && "ob"[1..] == "b" && "b"[1..] == "";
  }

  /** Other whitespace stays: a tab is kept. */
  lemma RemoveSpacesKeepsTab()
    ensures RemoveSpaces("a\tb") == "a\tb"
  {
    WithoutIdentity("a\tb", ' ');
  }

  /** The text `LogFormat` produces for a record, given its already formatted timestamp. */
  function Render(asctime: string, hostname: string, jobname: string, levelname: string, message: string): (line: string)
    ensures |line| == |asctime| + |hostname| + |jobname| + |levelname| + |message| + 7
    ensures asctime <= line
    ensures line[|line| - |message|..] == message
  {
    asctime + " " + hostname + " " + jobname + ": [" + levelname + "] " + message
  }

  /** A rendered line is its five parts with a space between consecutive ones. */
  lemma RenderAsSpaceSeparated(asctime: string, hostname: string, jobname: string, levelname: string, message: string)
    ensures Render(asctime, hostname, jobname, levelname, message)
      == asctime + [' '] + (hostname + [' '] + ((jobname + ":") + [' '] + (("[" + levelname + "]") + [' '] + message)))
  {
  }

  /**
   * Splitting a rendered line on spaces gives the timestamp's fields, then the
   * host name, the job name with its colon and the bracketed level as single
   * fields, then the message's fields, provided those three have no space.
   */
  lemma RenderFields(asctime: string, hostname: string, jobname: string, levelname: string, message: string)
    requires ' ' !in hostname && ' ' !in jobname && ' ' !in levelname
    ensures Split(Render(asctime, hostname, jobname, levelname, message), ' ')
      == Split(asctime, ' ') + [hostname, jobname + ":", "[" + levelname + "]"] + Split(message, ' ')
  {
    var job, level := jobname + ":", "[" + levelname + "]";
    var tail3 := level + [' '] + message;
    var tail2 := job + [' '] + tail3;
    var tail1 := hostname + [' '] + tail2;
    RenderAsSpaceSeparated(asctime, hostname, jobname, levelname, message);
    SplitLeadingField(level, message, ' ');
    SplitLeadingField(job, tail3, ' ');
    SplitLeadingField(hostname, tail2, ' ');
    SplitAround(asctime, tail1, ' ');
    calc {
      Split(tail1, ' ');
      [hostname] + ([job] + ([level] + Split(message, ' ')));
      [hostname, job, level] + Split(message, ' ');
    }
  }

  /** With sanitised names, the host name and the job name are each one space-split field. */
  lemma SanitisedNamesAreSingleFields(asctime: string, hostname: string, jobname: string, levelname: string, message: string)
    requires ' ' !in levelname
    ensures var fields, n := Split(Render(asctime, RemoveSpaces(hostname), RemoveSpaces(jobname), levelname, message), ' '),
                            |Split(asctime, ' ')|;
      |fields| > n + 1 && fields[n] == RemoveSpaces(hostname) && fields[n + 1] == RemoveSpaces(jobname) + ":"
  {
    RenderFields(asctime, RemoveSpaces(hostname), RemoveSpaces(jobname), levelname, message);
  }

  /** The rendering of an example record. */
  lemma RenderExample()
    ensures Render("Jan 05 14:03:22", LocalHostname, "testjob", "INFO", "hello")
      == "Jan 05 14:03:22 salesforce-local testjob: [INFO] hello"
  {
    var head := "Jan 05 14:03:22" + " " + LocalHostname;
    assert head == "Jan 05 14:03:22 salesforce-local";
    var job := head + " " + "testjob" + ": [";
    assert job == "Jan 05 14:03:22 salesforce-local testjob: [";
    assert job + "INFO" + "] " + "hello" == "Jan 05 14:03:22 salesforce-local testjob: [INFO] hello";
  }

  /** A log event; `attributes` is its attribute dictionary. */
  class LogRecord {
    var attributes: map<string, string>

    constructor (attributes: map<string, string>)
      ensures this.attributes == attributes
    {
      this.attributes := attributes;
    }
  }

  /** `PapertrailContextFilter`: holds the sanitised names and stamps them on records. */
  class ContextFilter {
    const hostname: string
    const jobname: string

    /** The stored names hold no space. */
    ghost predicate Valid() {
      ' ' !in hostname && ' ' !in jobname
    }

    constructor (hostname: string, jobname: string)
      ensures Valid()
      ensures this.hostname == RemoveSpaces(hostname)
      ensures this.jobname == RemoveSpaces(jobname)
    {
      this.hostname := RemoveSpaces(hostname);
      this.jobname := RemoveSpaces(jobname);
    }

    /**
     * `filter(record)`: overwrites the record's host name and job name, leaves
     * every other attribute alone, and never drops the record.
     */
    method Filter(record: LogRecord) returns (keep: bool)
      requires Valid()
      modifies record
      ensures keep
      ensures record.attributes == old(record.attributes)[HostnameAttribute := hostname][JobnameAttribute := jobname]
      ensures ' ' !in record.attributes[HostnameAttribute] && ' ' !in record.attributes[JobnameAttribute]
    {
      record.attributes := record.attributes[HostnameAttribute := hostname];
      record.attributes := record.attributes[JobnameAttribute := jobname];
      keep := true;
    }
  }

  /** Where a handler sends records: the syslog socket, or standard output. */
  datatype Sink = SyslogSink(address: Value, port: int) | StdoutSink

  /** A `logging.Formatter` with its line and date layouts. */
  datatype Formatter = Formatter(format: string, dateFormat: string)

  /** A `logging.Handler`: its sink, its level and its optional formatter. */
  class Handler {
    const sink: Sink
    var level: int
    var formatter: Option<Formatter>

    constructor (sink: Sink)
      ensures this.sink == sink && level == NOTSET && formatter == None
    {
      this.sink := sink;
      level := NOTSET;
      formatter := None;
    }

    method SetLevel(level: int)
      modifies this
      ensures this.level == level && formatter == old(formatter)
    {
      this.level := level;
    }

    method SetFormatter(formatter: Formatter)
      modifies this
      ensures this.formatter == Some(formatter) && level == old(level)
    {
      this.formatter := Some(formatter);
    }
  }

  /**
   * The named logger `get_logger` configures. Python's `logging.getLogger`
   * hands every call the same object, so configuration accumulates on it.
   */
  class Logger {
    var level: int
    var filters: seq<ContextFilter>
    var handlers: seq<Handler>

    constructor ()
      ensures level == NOTSET && filters == [] && handlers == []
    {
      level := NOTSET;
      filters := [];
      handlers := [];
    }

    method SetLevel(level: int)
      modifies this
      ensures this.level == level && filters == old(filters) && handlers == old(handlers)
    {
      this.level := level;
    }

    /** Appends `f` unless that very object is already attached. */
    method AddFilter(f: ContextFilter)
      modifies this
      ensures filters == if f in old(filters) then old(filters) else old(filters) + [f]
      ensures level == old(level) && handlers == old(handlers)
    {
      if f !in filters {
        filters := filters + [f];
      }
    }

    /** Appends `h` unless that very object is already attached. */
    method AddHandler(h: Handler)
      modifies this
      ensures handlers == if h in old(handlers) then old(handlers) else old(handlers) + [h]
      ensures level == old(level) && filters == old(filters)
    {
      if h !in handlers {
        handlers := handlers + [h];
      }
    }
  }

  /** Why `SysLogHandler(address=(host, port))` fails while it opens its socket. */
  datatype SocketFailure =
    | HostNotString    // `getaddrinfo` accepts only a string or `None` as host (TypeError)
    | NetworkError     // an exception from `getaddrinfo` or the socket for this (host, port): an OSError,
                       // or e.g. a UnicodeError for a host name IDNA cannot encode

  /**
   * Whether constructing the syslog handler for `(host, port)` succeeds:
   * `None` on success, else the failure. `networkOk` says whether
   * `getaddrinfo` and the socket succeed for this host and port. That
   * depends on the network and the platform, and the port's range is checked
   * there (if at all), so it is an input here; the port is passed on
   * unchecked.
   */
  function OpenSyslog(host: Value, port: int, networkOk: bool): (f: Option<SocketFailure>)
    ensures f == None <==> !host.Int? && networkOk
    ensures host.Int? ==> f == Some(HostNotString)
    ensures !host.Int? && !networkOk ==> f == Some(NetworkError)
  {
    if host.Int? then Some(HostNotString)
    else if !networkOk then Some(NetworkError)
    else None
  }

  /** The port is not range-checked here: where the platform accepts port 70000, the handler is created. */
  lemma UncheckedPortExample()
    ensures OpenSyslog(Str("logs.example.com"), 70000, true) == None
  {
  }

  /** How a `get_logger` call ends: configured, or with the exception that escaped it. */
  datatype Configuration =
    | Configured(host: Value, port: int)
    | ResolutionFailed(resolution: Resolution)
    | SyslogFailed(socketFailure: SocketFailure)

  /**
   * `get_logger(jobname, hostname)` on the shared `logger`, with the
   * environment, the `logging_secrets` module and the network's behaviour as
   * inputs. The level and the new filter are applied before the destination
   * is resolved and before the syslog socket is opened, so a failure at
   * either step leaves them in place with no handler added. On success one
   * syslog handler with the Papertrail formatter and one standard-output
   * handler at DEBUG without a formatter are appended, in that order, after
   * whatever earlier calls attached.
   */
  method GetLogger(logger: Logger, env: Environment, secrets: Secrets, networkOk: bool,
                   jobname: string, hostname: string := LocalHostname)
    returns (outcome: Configuration)
    modifies logger
    ensures var r := Resolve(env, secrets);
      && (!r.Resolved? <==> outcome == ResolutionFailed(r))
      && (outcome.SyslogFailed? <==> r.Resolved? && OpenSyslog(r.host, r.port, networkOk).Some?)
      && (outcome.SyslogFailed? ==> r.Resolved? && OpenSyslog(r.host, r.port, networkOk) == Some(outcome.socketFailure))
      && (outcome.Configured? <==> r.Resolved? && OpenSyslog(r.host, r.port, networkOk) == None)
      && (outcome.Configured? ==> outcome.host == r.host && outcome.port == r.port)
    ensures logger.level == DEBUG
    ensures |logger.filters| == |old(logger.filters)| + 1
    ensures logger.filters[..|old(logger.filters)|] == old(logger.filters)
    ensures var f := logger.filters[|old(logger.filters)|];
      fresh(f) && f.Valid() && f.hostname == RemoveSpaces(hostname) && f.jobname == RemoveSpaces(jobname)
    ensures !outcome.Configured? ==> logger.handlers == old(logger.handlers)
    ensures outcome.Configured? ==>
      && |logger.handlers| == |old(logger.handlers)| + 2
      && logger.handlers[..|old(logger.handlers)|] == old(logger.handlers)
      && var syslog, local := logger.handlers[|old(logger.handlers)|], logger.handlers[|old(logger.handlers)| + 1];
      && fresh(syslog) && fresh(local) && syslog != local
      && syslog.sink == SyslogSink(outcome.host, outcome.port) && syslog.level == NOTSET
      && syslog.formatter == Some(Formatter(LogFormat, DateFormat))
      && local.sink == StdoutSink && local.level == DEBUG && local.formatter == None
  {
    logger.SetLevel(DEBUG);
    var filter := new ContextFilter(hostname, jobname);
    logger.AddFilter(filter);
    var r := Resolve(env, secrets);
    if !r.Resolved? {
      return ResolutionFailed(r);
    }
    var socketFailure := OpenSyslog(r.host, r.port, networkOk);
    if socketFailure.Some? {
      return SyslogFailed(socketFailure.value);
    }
    var syslog := new Handler(SyslogSink(r.host, r.port));
    syslog.SetFormatter(Formatter(LogFormat, DateFormat));
    logger.AddHandler(syslog);
    var local := new Handler(StdoutSink);
    local.SetLevel(DEBUG);
    logger.AddHandler(local);
    outcome := Configured(r.host, r.port);
  }
}
