/**
 * ping-test.py, the older variant: one host probed with three fixed qos
 * classes in parallel worker processes, collected by the parent.
 *
 * Its ping() fails on every non-zero exit status, and its do_ping() posts
 * whatever ping() returned, None included, so a failed probe stops the
 * experiment.
 */
module PingTest {
  import opened Wrappers
  import opened Text
  import opened PingOutput
  import opened Fanin
  import PingExp

  // ---------------------------------------------------------------------------
  // ping()
  // ---------------------------------------------------------------------------

  /** What ping() returns, when the tool behaves as exec says for each argument vector. */
  function Probe(exec: seq<string> -> ProbeRun, host: string, qos: int, intervalMs: int, count: int, flood: bool)
    : Option<PingResult>
  {
    match exec(ProbeArgs(ProbeSettings(host, qos, intervalMs, count, flood)))
    case LaunchFailed => None
    case Exited(lines, status) => if status != 0 then None else Some(ParseLines(lines))
  }

  /** ping(): build the argument vector, run the tool, parse its output; any exit status but 0 is a failure. */
  method Ping(exec: seq<string> -> ProbeRun, host: string, qos: int, intervalMs: int, count: int, flood: bool)
    returns (r: Option<PingResult>)
    ensures r == Probe(exec, host, qos, intervalMs, count, flood)
    ensures var run := exec(ProbeArgs(ProbeSettings(host, qos, intervalMs, count, flood)));
            (r.None? <==> run.LaunchFailed? || run.status != 0) &&
            (r.Some? ==> r.value == ParseLines(run.stdout))
  {
    var run := exec(ProbeArgs(ProbeSettings(host, qos, intervalMs, count, flood)));
    if run.LaunchFailed? {
      return None;
    }
    var result := ParseOutput(run.stdout);
    if run.status != 0 {
      return None;
    }
    return Some(result);
  }

  /**
   * The two ping() functions agree except on the exit status: where the
   * tool could not start, exited with 0 or with 2 or more, ping-exp.py gives
   * what ping-test.py gives; on status 1 ping-exp.py keeps the parse with a
   * zero rtt summary and on a negative status (a signal) it keeps the parse
   * as is, where ping-test.py gives None.
   */
  lemma {:induction false} ProbeVersions(exec: seq<string> -> ProbeRun, host: string, qos: int, intervalMs: int, count: int, flood: bool)
    ensures var run := exec(ProbeArgs(ProbeSettings(host, qos, intervalMs, count, flood)));
            var older := Probe(exec, host, qos, intervalMs, count, flood);
            var newer := PingExp.Probe(exec, host, IntToString(qos), intervalMs, count, flood);
            && (run.LaunchFailed? || run.status == 0 || run.status >= 2 ==> newer == Ok(older))
            && (run.Exited? && run.status == 1 ==>
                  older.None? && newer == Ok(Some(ParseLines(run.stdout).(rttSummary := Some(ZeroRtt)))))
            && (run.Exited? && run.status < 0 ==> older.None? && newer == Ok(Some(ParseLines(run.stdout))))
  {
    ParseIntToString(qos);
  }

  // ---------------------------------------------------------------------------
  // The experiment
  // ---------------------------------------------------------------------------

  /** The arguments one worker is started with. */
  datatype Config = Config(id: string, host: string, qos: int, intervalMs: int, count: int)

  /** The three experiments: their ids and qos values, in the order they are set up. */
  const QosClasses: seq<(string, int)> := [("Default", 0), ("High priority", 16), ("Low priority", 8)]

  /** The three configurations: the same host, interval and count, one per qos class. */
  method BuildConfigs(host: string, intervalMs: int, count: int) returns (configs: seq<Config>)
    ensures |configs| == |QosClasses| == 3
    ensures forall k :: 0 <= k < 3 ==>
              configs[k] == Config(QosClasses[k].0, host, QosClasses[k].1, intervalMs, count)
  {
    configs := [];
    configs := configs + [Config("Default", host, 0, intervalMs, count)];
    configs := configs + [Config("High priority", host, 16, intervalMs, count)];
    configs := configs + [Config("Low priority", host, 8, intervalMs, count)];
  }

  /** One worker: the configuration it was started with and what its call to ping() gave. */
  datatype Worker = Worker(config: Config, probed: Option<PingResult>)

  /** The three workers, each with what ping() gives for its qos class. */
  function Workers(exec: seq<string> -> ProbeRun, host: string, intervalMs: int, count: int): seq<Worker>
  {
    seq(3, k requires 0 <= k < 3 =>
      Worker(Config(QosClasses[k].0, host, QosClasses[k].1, intervalMs, count),
             Probe(exec, host, QosClasses[k].1, intervalMs, count, false)))
  }

  /** do_ping(): the worker posts (experiment_id, result), whether or not the probe succeeded. */
  function DoPing(w: Worker): (posted: seq<Message<PingResult>>)
    ensures |posted| == 1 && posted[0].id == w.config.id && posted[0].result == w.probed
  {
    [Message(w.config.id, w.probed)]
  }

  /** Everything the workers put on the queue, worker by worker. */
  function Posted(ws: seq<Worker>): seq<Message<PingResult>>
  {
    if ws == [] then [] else DoPing(ws[0]) + Posted(ws[1..])
  }

  /** What experiment() returns: the filed results with the host, count and interval (time stamps left out). */
  datatype ExperimentResults = ExperimentResults(experiments: map<string, PingResult>, host: string, pingCount: int, pingIntervalMs: int)

  function Experiment(host: string, count: int, intervalMs: int, inbox: seq<Message<PingResult>>): Outcome<ExperimentResults>
  {
    match Collected(|QosClasses|, inbox)
    case Aborted(id) => Aborted(id)
    case Blocked => Blocked
    case Completed(m) => Completed(ExperimentResults(m, host, count, intervalMs))
  }

  /** experiment(): three workers, then three receives from the queue. */
  method RunExperiment(host: string, count: int, intervalMs: int, inbox: seq<Message<PingResult>>)
    returns (outcome: Outcome<ExperimentResults>)
    ensures outcome == Experiment(host, count, intervalMs, inbox)
  {
    var configs := BuildConfigs(host, intervalMs, count);
    var collected := Collect(|configs|, inbox);
    match collected {
      case Aborted(id) => outcome := Aborted(id);
      case Blocked => outcome := Blocked;
      case Completed(experiments) => outcome := Completed(ExperimentResults(experiments, host, count, intervalMs));
    }
  }

  /** Each worker posts exactly one message, in worker order. */
  lemma {:induction false} PostedOnePerWorker(ws: seq<Worker>)
    ensures |Posted(ws)| == |ws|
    ensures forall k :: 0 <= k < |ws| ==> Posted(ws)[k] == Message(ws[k].config.id, ws[k].probed)
  {
    if ws != [] {
      PostedOnePerWorker(ws[1..]);
      var p := Posted(ws);
      assert p == DoPing(ws[0]) + Posted(ws[1..]);
      forall k | 0 <= k < |ws| ensures p[k] == Message(ws[k].config.id, ws[k].probed) {
        if k > 0 {
          assert p[k] == Posted(ws[1..])[k - 1] && ws[1..][k - 1] == ws[k];
        }
      }
    }
  }

  /** The workers of an experiment: the three qos classes in order, each with its own probe. */
  lemma {:induction false} WorkersOfClasses(exec: seq<string> -> ProbeRun, host: string, intervalMs: int, count: int)
    ensures var ws := Workers(exec, host, intervalMs, count);
            |ws| == 3 &&
            ws[0].config.id == "Default" && ws[1].config.id == "High priority" && ws[2].config.id == "Low priority" &&
            forall k :: 0 <= k < 3 ==>
              ws[k].config.host == host && ws[k].config.qos == QosClasses[k].1 &&
              ws[k].probed == Probe(exec, host, QosClasses[k].1, intervalMs, count, false)
  {
    var ws := Workers(exec, host, intervalMs, count);
    assert ws[0].config.id == QosClasses[0].0;
    assert ws[1].config.id == QosClasses[1].0;
    assert ws[2].config.id == QosClasses[2].0;
  }

  /** The ids of the three experiments. */
  const ClassIds: set<string> := {"Default", "High priority", "Low priority"}

  /**
   * When all three probes succeed and the queue delivers the three messages
   * in any order, the experiment completes with one result per qos class,
   * each the one its worker's probe gave, and records host, count and interval.
   */
  lemma {:induction false} ExperimentCompletes(host: string, count: int, intervalMs: int, ws: seq<Worker>,
                                               inbox: seq<Message<PingResult>>)
    requires |ws| == 3 && ws[0].config.id == "Default" && ws[1].config.id == "High priority" && ws[2].config.id == "Low priority"
    requires forall k :: 0 <= k < 3 ==> ws[k].probed.Some?
    requires multiset(inbox) == multiset(Posted(ws))
    ensures Experiment(host, count, intervalMs, inbox).Completed?
    ensures var r := Experiment(host, count, intervalMs, inbox).value;
            && r.experiments.Keys == ClassIds
            && r.host == host && r.pingCount == count && r.pingIntervalMs == intervalMs
            && forall k :: 0 <= k < 3 ==> r.experiments[ws[k].config.id] == ws[k].probed.value
  {
    var posted := Posted(ws);
    PostedOnePerWorker(ws);
    assert AllSucceeded(posted) by {
      forall k | 0 <= k < |posted| ensures posted[k].result.Some? {
        assert posted[k].result == ws[k].probed;
      }
    }
    assert Ids(posted) == ClassIds by {
      assert posted[0].id == "Default" && posted[1].id == "High priority" && posted[2].id == "Low priority";
    }
    CollectedAllSucceed(3, inbox, posted);
    var m := Collected(3, inbox).value;
    forall k | 0 <= k < 3 ensures m[ws[k].config.id] == ws[k].probed.value {
      var id := ws[k].config.id;
      assert id in m;
      assert Message(id, Some(m[id])) in posted;
      var j :| 0 <= j < 3 && posted[j] == Message(id, Some(m[id]));
      assert ws[j].config.id == id;
      assert j == k;
    }
  }

  /**
   * experiment(host, ...) on the three workers it starts: when the probe of
   * every qos class succeeds, any arrival order completes with the three
   * class names as keys, each holding what ping() gave for that class's qos.
   */
  lemma {:induction false} ClassesExperimentCompletes(exec: seq<string> -> ProbeRun, host: string, count: int,
                                                      intervalMs: int, inbox: seq<Message<PingResult>>)
    requires forall k :: 0 <= k < 3 ==> Probe(exec, host, QosClasses[k].1, intervalMs, count, false).Some?
    requires multiset(inbox) == multiset(Posted(Workers(exec, host, intervalMs, count)))
    ensures Experiment(host, count, intervalMs, inbox).Completed?
    ensures var r := Experiment(host, count, intervalMs, inbox).value;
            && r.experiments.Keys == ClassIds
            && r.host == host && r.pingCount == count && r.pingIntervalMs == intervalMs
            && forall k :: 0 <= k < 3 ==>
                 r.experiments[QosClasses[k].0] == Probe(exec, host, QosClasses[k].1, intervalMs, count, false).value
  {
    var ws := Workers(exec, host, intervalMs, count);
    WorkersOfClasses(exec, host, intervalMs, count);
    assert forall k :: 0 <= k < 3 ==> ws[k].config.id == QosClasses[k].0;
    ExperimentCompletes(host, count, intervalMs, ws, inbox);
  }

  /**
   * When some probe fails and the queue delivers the three messages in any
   * order, the experiment stops at a failed experiment: SystemExit, no results.
   */
  lemma {:induction false} ExperimentAborts(host: string, count: int, intervalMs: int, ws: seq<Worker>,
                                            inbox: seq<Message<PingResult>>)
    requires |ws| == 3
    requires exists k :: 0 <= k < 3 && ws[k].probed.None?
    requires multiset(inbox) == multiset(Posted(ws))
    ensures Experiment(host, count, intervalMs, inbox).Aborted?
    ensures exists k :: 0 <= k < 3 && ws[k].config.id == Experiment(host, count, intervalMs, inbox).failed && ws[k].probed.None?
  {
    var posted := Posted(ws);
    PostedOnePerWorker(ws);
    var k :| 0 <= k < 3 && ws[k].probed.None?;
    assert posted[k].result.None?;
    CollectedSomeFail(3, inbox, posted);
    var failed := Collected(3, inbox).failed;
    var j :| 0 <= j < |posted| && posted[j] == Message(failed, None);
    assert ws[j].config.id == failed && ws[j].probed.None?;
  }

  // ---------------------------------------------------------------------------
  // The command line
  // ---------------------------------------------------------------------------

  /** The options getopt accepts with 'h:w:r:c:i:o:l'; it rejects any other, so the assert(False) branch is unreachable. */
  datatype Opt =
    | WriteFile(path: string)
    | ReadFile(path: string)
    | PingCount(arg: string)
    | PingInterval(arg: string)
    | HostOpt(arg: string)
    | ImageFile(path: string)
    | LineGraph

  /** The variables the option loop sets. */
  datatype Settings = Settings(pingCount: int, pingIntervalMs: int, host: Option<string>, lineGraph: bool,
                               writeFile: bool, readFile: bool, file: Option<string>, imageFile: Option<string>)

  /** 400 probes, 0.2 s apart, no host, scatter plot, no file, no image file. */
  const Defaults := Settings(400, 200, None, false, false, false, None, None)

  /**
   * One pass of the option loop. readInterval stands for float() of the
   * -i argument and its conversion to milliseconds, which is not part of
   * this model.
   */
  function ApplyOption(s: Settings, o: Opt, readInterval: string -> Option<int>): Result<Settings, PingExp.Stop>
  {
    match o
    case WriteFile(path) => Ok(s.(writeFile := true, file := Some(path)))
    case ReadFile(path) => Ok(s.(readFile := true, file := Some(path)))
    case PingCount(a) =>
      (match ParseInt(a)
       case None => Err(PingExp.Raised("ValueError"))
       case Some(n) => Ok(s.(pingCount := n)))
    case PingInterval(a) =>
      (match readInterval(a)
       case None => Err(PingExp.Raised("ValueError"))
       case Some(ms) => Ok(s.(pingIntervalMs := ms)))
    case HostOpt(a) => Ok(s.(host := Some(a)))
    case ImageFile(path) => Ok(s.(imageFile := Some(path)))
    case LineGraph => Ok(s.(lineGraph := true))
  }

  /** The settings after the whole option loop, or how it stopped. */
  function Options(opts: seq<Opt>, readInterval: string -> Option<int>): Result<Settings, PingExp.Stop>
  {
    if opts == [] then Ok(Defaults)
    else
      match Options(opts[..|opts| - 1], readInterval)
      case Err(e) => Err(e)
      case Ok(s) => ApplyOption(s, opts[|opts| - 1], readInterval)
  }

  /** The option loop of the main program. */
  method ReadOptions(opts: seq<Opt>, readInterval: string -> Option<int>) returns (r: Result<Settings, PingExp.Stop>)
    ensures r == Options(opts, readInterval)
  {
    var pingCount, pingIntervalMs, host := 400, 200, None;
    var lineGraph, writeFile, readFile := false, false, false;
    var file, imageFile := None, None;
    for i := 0 to |opts|
      invariant Options(opts[..i], readInterval) ==
                Ok(Settings(pingCount, pingIntervalMs, host, lineGraph, writeFile, readFile, file, imageFile))
    {
      OptionsStep(opts, i, readInterval);
      match opts[i] {
        case WriteFile(path) =>
          writeFile, file := true, Some(path);
        case ReadFile(path) =>
          readFile, file := true, Some(path);
        case PingCount(a) =>
          var n := ParseInt(a);
          if n.None? {
            OptionsStopped(opts, i + 1, readInterval);
            return Err(PingExp.Raised("ValueError"));
          }
          pingCount := n.value;
        case PingInterval(a) =>
          var ms := readInterval(a);
          if ms.None? {
            OptionsStopped(opts, i + 1, readInterval);
            return Err(PingExp.Raised("ValueError"));
          }
          pingIntervalMs := ms.value;
        case HostOpt(a) =>
          host := Some(a);
        case ImageFile(path) =>
          imageFile := Some(path);
        case LineGraph =>
          lineGraph := true;
      }
    }
    assert opts[..|opts|] == opts;
    return Ok(Settings(pingCount, pingIntervalMs, host, lineGraph, writeFile, readFile, file, imageFile));
  }

  lemma {:induction false} OptionsStep(opts: seq<Opt>, i: nat, readInterval: string -> Option<int>)
    requires i < |opts|
    ensures Options(opts[..i + 1], readInterval) ==
            match Options(opts[..i], readInterval)
            case Err(e) => Err(e)
            case Ok(s) => ApplyOption(s, opts[i], readInterval)
  {
    assert opts[..i + 1][..i] == opts[..i];
  }

  /** Once the loop has stopped, the later options do not matter. */
  lemma {:induction false} OptionsStopped(opts: seq<Opt>, i: nat, readInterval: string -> Option<int>)
    requires i <= |opts| && Options(opts[..i], readInterval).Err?
    ensures Options(opts, readInterval) == Options(opts[..i], readInterval)
    decreases |opts| - i
  {
    if i == |opts| {
      assert opts[..i] == opts;
    } else {
      OptionsStep(opts, i, readInterval);
      OptionsStopped(opts, i + 1, readInterval);
    }
  }

  /** One pass sets the host exactly for -h, to its argument. */
  lemma {:induction false} ApplyOptionHost(s: Settings, o: Opt, readInterval: string -> Option<int>)
    requires ApplyOption(s, o, readInterval).Ok?
    ensures ApplyOption(s, o, readInterval).value.host == if o.HostOpt? then Some(o.arg) else s.host
  {
  }

  /** After the loop the host is the argument of the last -h, and absent when no -h was passed. */
  lemma {:induction false} OptionsHost(opts: seq<Opt>, readInterval: string -> Option<int>)
    requires Options(opts, readInterval).Ok?
    ensures var host := Options(opts, readInterval).value.host;
            && (host.None? <==> forall k :: 0 <= k < |opts| ==> !opts[k].HostOpt?)
            && (host.Some? ==> exists k :: 0 <= k < |opts| && opts[k] == HostOpt(host.value) &&
                                           forall j :: k < j < |opts| ==> !opts[j].HostOpt?)
  {
    if opts != [] {
      var init, o := opts[..|opts| - 1], opts[|opts| - 1];
      OptionsHost(init, readInterval);
      var s := Options(init, readInterval).value;
      assert Options(opts, readInterval) == ApplyOption(s, o, readInterval);
      ApplyOptionHost(s, o, readInterval);
      assert forall k :: 0 <= k < |init| ==> init[k] == opts[k];
      if o.HostOpt? {
        assert opts[|opts| - 1] == HostOpt(o.arg);
      } else if s.host.Some? {
        var k :| 0 <= k < |init| && init[k] == HostOpt(s.host.value) && forall j :: k < j < |init| ==> !init[j].HostOpt?;
        assert opts[k] == HostOpt(s.host.value) && forall j :: k < j < |opts| ==> !opts[j].HostOpt?;
      }
    }
  }

  // ---------------------------------------------------------------------------
  // Modes
  // ---------------------------------------------------------------------------

  /** `if host:` in Python: a host was given and it is not the empty string. */
  predicate HostGiven(host: Option<string>)
  {
    host.Some? && host.value != []
  }

  /** The three mode checks after the option loop, in their order. */
  function CheckModes(s: Settings): (r: Result<PingExp.Source, PingExp.Stop>)
    ensures r.Ok? <==> !(s.writeFile && s.readFile) && (s.readFile <==> !HostGiven(s.host))
    ensures r.Ok? ==> (r.value == PingExp.FromFile <==> s.readFile)
    ensures r.Err? ==> r.error.UsageError?
  {
    if s.writeFile && s.readFile then Err(PingExp.UsageError("Error: -r and -w cannot be used together."))
    else if s.readFile && HostGiven(s.host) then Err(PingExp.UsageError("Error: -h and -r cannot be used together."))
    else if !s.readFile && !HostGiven(s.host) then Err(PingExp.UsageError("Error: Must pass one of -h or -r."))
    else Ok(if s.readFile then PingExp.FromFile else PingExp.FromExperiment)
  }
}
