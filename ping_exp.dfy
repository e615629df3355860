/**
 * ping-exp.py: one probe per target given with -t ID,HOST,TOS, run in
 * parallel worker processes, collected by the parent.
 *
 * ping() here reads exit status 1 ("no reply, but the tool ran") as a
 * result whose rtt summary is all zeros, and fails only from status 2 on.
 * Its qos is the third field of the target as typed, so int(qos) may raise
 * ValueError.
 */
module PingExp {
  import opened Wrappers
  import opened Text
  import opened PingOutput
  import opened Fanin

  // ---------------------------------------------------------------------------
  // ping()
  // ---------------------------------------------------------------------------

  /** ping() raised: int(qos) could not read the qos field. */
  datatype ProbeError = QosValueError

  /** What ping() returns, when the tool behaves as exec says for each argument vector. */
  function Probe(exec: seq<string> -> ProbeRun, host: string, qos: string, intervalMs: int, count: int, flood: bool)
    : Result<Option<PingResult>, ProbeError>
  {
    match ParseInt(qos)
    case None => Err(QosValueError)
    case Some(q) =>
      match exec(ProbeArgs(ProbeSettings(host, q, intervalMs, count, flood)))
      case LaunchFailed => Ok(None)
      case Exited(lines, status) =>
        if status >= 2 then Ok(None)
        else if status == 1 then Ok(Some(ParseLines(lines).(rttSummary := Some(ZeroRtt))))
        else Ok(Some(ParseLines(lines)))
  }

  /**
   * ping(): build the argument vector, run the tool, parse its output, and
   * read its exit status: 2 or more is a failure, 1 keeps the replies and
   * the summary but zeroes the rtt summary, anything else keeps the parse.
   */
  method Ping(exec: seq<string> -> ProbeRun, host: string, qos: string, intervalMs: int, count: int, flood: bool)
    returns (r: Result<Option<PingResult>, ProbeError>)
    ensures r == Probe(exec, host, qos, intervalMs, count, flood)
    ensures r.Err? <==> ParseInt(qos).None?
    ensures ParseInt(qos).Some? ==>
              var run := exec(ProbeArgs(ProbeSettings(host, ParseInt(qos).value, intervalMs, count, flood)));
              (r == Ok(None) <==> run.LaunchFailed? || run.status >= 2) &&
              (run.Exited? && run.status == 1 ==>
                 r == Ok(Some(PingResult(ParseLines(run.stdout).responses, ParseLines(run.stdout).summary, Some(ZeroRtt))))) &&
              (run.Exited? && run.status < 1 ==> r == Ok(Some(ParseLines(run.stdout))))
  {
    var q := ParseInt(qos);
    if q.None? {
      return Err(QosValueError);
    }
    var args := ProbeArgs(ProbeSettings(host, q.value, intervalMs, count, flood));
    var run := exec(args);
    if run.LaunchFailed? {
      return Ok(None);
    }
    var result := ParseOutput(run.stdout);
    var ret := run.status;
    if ret >= 2 {
      return Ok(None);
    } else if ret == 1 {
      result := result.(rttSummary := Some(ZeroRtt));
    }
    return Ok(Some(result));
  }

  // ---------------------------------------------------------------------------
  // The experiment
  // ---------------------------------------------------------------------------

  /** A -t argument: experiment id, host, and the qos field as typed. */
  datatype Target = Target(id: string, host: string, qos: string)

  /** The arguments one worker is started with. */
  datatype Config = Config(id: string, host: string, qos: string, intervalMs: int, count: int)

  function ConfigFor(t: Target, intervalMs: int, count: int): Config
  {
    Config(t.id, t.host, t.qos, intervalMs, count)
  }

  function Configs(targets: seq<Target>, intervalMs: int, count: int): seq<Config>
  {
    seq(|targets|, k requires 0 <= k < |targets| => ConfigFor(targets[k], intervalMs, count))
  }

  /** One configuration per target, in target order, sharing the interval and the count. */
  method BuildConfigs(targets: seq<Target>, intervalMs: int, count: int) returns (configs: seq<Config>)
    ensures |configs| == |targets|
    ensures forall k :: 0 <= k < |targets| ==>
              configs[k].id == targets[k].id && configs[k].host == targets[k].host && configs[k].qos == targets[k].qos &&
              configs[k].intervalMs == intervalMs && configs[k].count == count
  {
    configs := [];
    for i := 0 to |targets|
      invariant configs == Configs(targets[..i], intervalMs, count)
    {
      configs := configs + [Config(targets[i].id, targets[i].host, targets[i].qos, intervalMs, count)];
    }
    assert targets[..|targets|] == targets;
  }

  /** What a worker stores: ping()'s result with 'host' and 'qos' added. */
  datatype ProbeRecord = ProbeRecord(result: PingResult, host: string, qos: string)

  /** What ping() gave a worker: a ValueError, None, or a parsed result. */
  type Probed = Result<Option<PingResult>, ProbeError>

  /** One worker: the configuration it was started with and what its call to ping() gave. */
  datatype Worker = Worker(config: Config, probed: Probed)

  predicate Succeeded(w: Worker)
  {
    w.probed.Ok? && w.probed.value.Some?
  }

  /** The workers of one experiment: one per target, in order, each with what ping() gives for its configuration. */
  function Workers(exec: seq<string> -> ProbeRun, targets: seq<Target>, intervalMs: int, count: int): seq<Worker>
  {
    seq(|targets|, k requires 0 <= k < |targets| =>
      Worker(ConfigFor(targets[k], intervalMs, count),
             Probe(exec, targets[k].host, targets[k].qos, intervalMs, count, false)))
  }

  /**
   * do_ping() as written: it stores 'host' and 'qos' into what ping()
   * returned before posting, which raises TypeError when ping() returned
   * None, so a failed probe posts nothing; a ValueError inside ping() kills
   * the worker as well.
   */
  function DoPing(w: Worker): (posted: seq<Message<ProbeRecord>>)
    ensures |posted| <= 1 && AllSucceeded(posted)
    ensures posted != [] <==> Succeeded(w)
    ensures posted != [] ==>
              && posted[0].id == w.config.id
              && w.probed == Ok(Some(posted[0].result.value.result))
              && posted[0].result.value.host == w.config.host
              && posted[0].result.value.qos == w.config.qos
  {
    match w.probed
    case Ok(Some(r)) => [Message(w.config.id, Some(ProbeRecord(r, w.config.host, w.config.qos)))]
    case _ => []
  }

  /** do_ping() as evidently intended: a probe that returned None is reported as (id, None). */
  function DoPingFixed(w: Worker): (posted: seq<Message<ProbeRecord>>)
    ensures |posted| <= 1
    ensures posted != [] <==> w.probed.Ok?
    ensures posted != [] ==> posted[0].id == w.config.id && (posted[0].result.None? <==> !Succeeded(w))
    ensures Succeeded(w) ==> posted == DoPing(w)
  {
    match w.probed
    case Ok(Some(r)) => [Message(w.config.id, Some(ProbeRecord(r, w.config.host, w.config.qos)))]
    case Ok(None) => [Message(w.config.id, None)]
    case Err(_) => []
  }

  /** Everything the workers put on the queue, worker by worker. */
  function Posted(ws: seq<Worker>, fixed: bool): seq<Message<ProbeRecord>>
  {
    if ws == [] then []
    else (if fixed then DoPingFixed(ws[0]) else DoPing(ws[0])) + Posted(ws[1..], fixed)
  }

  /** What experiment() returns: the filed results with the count and interval (the time stamps are left out). */
  datatype ExperimentResults = ExperimentResults(experiments: map<string, ProbeRecord>, pingCount: int, pingIntervalMs: int)

  function Experiment(count: int, intervalMs: int, targets: seq<Target>, inbox: seq<Message<ProbeRecord>>)
    : Outcome<ExperimentResults>
  {
    match Collected(|targets|, inbox)
    case Aborted(id) => Aborted(id)
    case Blocked => Blocked
    case Completed(m) => Completed(ExperimentResults(m, count, intervalMs))
  }

  /** experiment(): one worker per configuration, then len(experiments) receives from the queue. */
  method RunExperiment(count: int, intervalMs: int, targets: seq<Target>, inbox: seq<Message<ProbeRecord>>)
    returns (outcome: Outcome<ExperimentResults>)
    ensures outcome == Experiment(count, intervalMs, targets, inbox)
  {
    var configs := BuildConfigs(targets, intervalMs, count);
    var collected := Collect(|configs|, inbox);
    match collected {
      case Aborted(id) => outcome := Aborted(id);
      case Blocked => outcome := Blocked;
      case Completed(experiments) => outcome := Completed(ExperimentResults(experiments, count, intervalMs));
    }
  }

  // ---------------------------------------------------------------------------
  // What the workers post
  // ---------------------------------------------------------------------------

  /** The message comes from a worker with its id, and says what that worker's probe gave. */
  predicate FromWorker(ws: seq<Worker>, m: Message<ProbeRecord>)
  {
    exists k :: 0 <= k < |ws| && ws[k].config.id == m.id &&
      match m.result
      case None => ws[k].probed == Ok(None)
      case Some(rec) => ws[k].probed == Ok(Some(rec.result)) && rec.host == ws[k].config.host && rec.qos == ws[k].config.qos
  }

  lemma {:induction false} PostedFromWorkers(ws: seq<Worker>, fixed: bool)
    ensures forall m :: m in Posted(ws, fixed) ==> FromWorker(ws, m)
  {
    if ws != [] {
      var rest := ws[1..];
      PostedFromWorkers(rest, fixed);
      forall m | m in Posted(ws, fixed) ensures FromWorker(ws, m) {
        if m in Posted(rest, fixed) {
          var k :| 0 <= k < |rest| && rest[k].config.id == m.id &&
            match m.result
            case None => rest[k].probed == Ok(None)
            case Some(rec) => rest[k].probed == Ok(Some(rec.result)) && rec.host == rest[k].config.host && rec.qos == rest[k].config.qos;
          assert rest[k] == ws[k + 1];
        }
      }
    }
  }

  lemma {:induction false} IdsCons(m: Message<ProbeRecord>, ms: seq<Message<ProbeRecord>>)
    ensures Ids([m] + ms) == {m.id} + Ids(ms)
  {
    var p := [m] + ms;
    forall id | id in Ids(p) ensures id in {m.id} + Ids(ms) {
      var k :| 0 <= k < |p| && p[k].id == id;
      if k > 0 {
        assert ms[k - 1] == p[k];
      }
    }
    assert p[0].id == m.id;
    forall id | id in Ids(ms) ensures id in Ids(p) {
      var k :| 0 <= k < |ms| && ms[k].id == id;
      assert p[k + 1] == ms[k];
    }
  }

  /** The ids of the workers. */
  function WorkerIds(ws: seq<Worker>): set<string>
  {
    set k | 0 <= k < |ws| :: ws[k].config.id
  }

  lemma {:induction false} WorkerIdsCons(ws: seq<Worker>)
    requires ws != []
    ensures WorkerIds(ws) == {ws[0].config.id} + WorkerIds(ws[1..])
  {
    var rest := ws[1..];
    forall k | 0 <= k < |ws| ensures ws[k].config.id in {ws[0].config.id} + WorkerIds(rest) {
      if k > 0 {
        assert rest[k - 1] == ws[k];
      }
    }
    forall k | 0 <= k < |rest| ensures rest[k].config.id in WorkerIds(ws) {
      assert ws[k + 1] == rest[k];
    }
  }

  /** When every probe succeeds, each worker posts exactly one successful message under its id. */
  lemma {:induction false} PostedAllSucceed(ws: seq<Worker>, fixed: bool)
    requires forall k :: 0 <= k < |ws| ==> Succeeded(ws[k])
    ensures |Posted(ws, fixed)| == |ws| && AllSucceeded(Posted(ws, fixed))
    ensures Ids(Posted(ws, fixed)) == WorkerIds(ws)
  {
    if ws != [] {
      var rest := ws[1..];
      assert forall k :: 0 <= k < |rest| ==> rest[k] == ws[k + 1];
      PostedAllSucceed(rest, fixed);
      var p, q := Posted(ws, fixed), Posted(rest, fixed);
      var head := if fixed then DoPingFixed(ws[0]) else DoPing(ws[0]);
      assert p == [head[0]] + q && head[0].id == ws[0].config.id;
      IdsCons(head[0], q);
      WorkerIdsCons(ws);
    }
  }

  /** As written, no worker ever posts a failure, and a failed probe posts nothing at all. */
  lemma {:induction false} PostedAsWritten(ws: seq<Worker>)
    ensures AllSucceeded(Posted(ws, false))
    ensures |Posted(ws, false)| <= |ws|
    ensures (exists k :: 0 <= k < |ws| && !Succeeded(ws[k])) ==> |Posted(ws, false)| < |ws|
  {
    if ws != [] {
      var rest := ws[1..];
      PostedAsWritten(rest);
      if exists k :: 0 <= k < |ws| && !Succeeded(ws[k]) {
        var k :| 0 <= k < |ws| && !Succeeded(ws[k]);
        if k > 0 {
          assert rest[k - 1] == ws[k];
        }
      }
    }
  }

  /** Corrected, every worker whose ping() returns posts exactly one message, a failure as None. */
  lemma {:induction false} PostedFixed(ws: seq<Worker>)
    ensures |Posted(ws, true)| <= |ws|
    ensures (forall k :: 0 <= k < |ws| ==> ws[k].probed.Ok?) ==> |Posted(ws, true)| == |ws|
    ensures (exists k :: 0 <= k < |ws| && ws[k].probed == Ok(None)) ==> !AllSucceeded(Posted(ws, true))
  {
    if ws != [] {
      var rest := ws[1..];
      assert forall k :: 0 <= k < |rest| ==> rest[k] == ws[k + 1];
      PostedFixed(rest);
      var p, q := Posted(ws, true), Posted(rest, true);
      assert p == DoPingFixed(ws[0]) + q;
      if exists k :: 0 <= k < |ws| && ws[k].probed == Ok(None) {
        var k :| 0 <= k < |ws| && ws[k].probed == Ok(None);
        if k > 0 && ws[0].probed != Ok(None) {
          assert rest[k - 1] == ws[k];
          var j :| 0 <= j < |q| && q[j].result.None?;
          assert p[|p| - |q| + j] == q[j];
        } else {
          assert p[0].result.None?;
        }
      }
    }
  }

  // ---------------------------------------------------------------------------
  // What the experiment gives
  // ---------------------------------------------------------------------------

  /** The workers of Workers(...) are one per target, in order, under the targets' ids. */
  lemma {:induction false} WorkersOfTargets(exec: seq<string> -> ProbeRun, targets: seq<Target>, intervalMs: int, count: int)
    ensures var ws := Workers(exec, targets, intervalMs, count);
            |ws| == |targets| &&
            WorkerIds(ws) == (set k | 0 <= k < |targets| :: targets[k].id) &&
            forall k :: 0 <= k < |ws| ==>
              ws[k].config == ConfigFor(targets[k], intervalMs, count) &&
              ws[k].probed == Probe(exec, targets[k].host, targets[k].qos, intervalMs, count, false)
  {
    var ws := Workers(exec, targets, intervalMs, count);
    assert forall k :: 0 <= k < |targets| ==> ws[k].config.id == targets[k].id;
  }

  /**
   * When every probe succeeds, the experiment completes, whatever order the
   * messages arrive in: one entry per worker id, each holding the result of
   * a probe of a worker with that id, together with the count and interval.
   */
  lemma {:induction false} ExperimentCompletes(count: int, intervalMs: int, targets: seq<Target>, ws: seq<Worker>,
                            inbox: seq<Message<ProbeRecord>>)
    requires |ws| == |targets|
    requires forall k :: 0 <= k < |ws| ==> Succeeded(ws[k])
    requires multiset(inbox) == multiset(Posted(ws, false))
    ensures Experiment(count, intervalMs, targets, inbox).Completed?
    ensures var results := Experiment(count, intervalMs, targets, inbox).value;
            results.pingCount == count && results.pingIntervalMs == intervalMs &&
            results.experiments.Keys == WorkerIds(ws) &&
            forall id :: id in results.experiments ==> FromWorker(ws, Message(id, Some(results.experiments[id])))
  {
    PostedAllSucceed(ws, false);
    PostedFromWorkers(ws, false);
    CollectedAllSucceed(|targets|, inbox, Posted(ws, false));
  }

  /**
   * experiment() on the workers it starts for the targets: when the probe
   * of every target succeeds, any arrival order completes with one entry
   * per target id, each holding the result, host and qos of a target with
   * that id.
   */
  lemma {:induction false} TargetsExperimentCompletes(exec: seq<string> -> ProbeRun, count: int, intervalMs: int,
                                                      targets: seq<Target>, inbox: seq<Message<ProbeRecord>>)
    requires forall k :: 0 <= k < |targets| ==>
               var p := Probe(exec, targets[k].host, targets[k].qos, intervalMs, count, false);
               p.Ok? && p.value.Some?
    requires multiset(inbox) == multiset(Posted(Workers(exec, targets, intervalMs, count), false))
    ensures Experiment(count, intervalMs, targets, inbox).Completed?
    ensures var results := Experiment(count, intervalMs, targets, inbox).value;
            && results.pingCount == count && results.pingIntervalMs == intervalMs
            && results.experiments.Keys == (set k | 0 <= k < |targets| :: targets[k].id)
            && forall id :: id in results.experiments ==>
                 exists k :: 0 <= k < |targets| && targets[k].id == id &&
                   Probe(exec, targets[k].host, targets[k].qos, intervalMs, count, false) ==
                     Ok(Some(results.experiments[id].result)) &&
                   results.experiments[id].host == targets[k].host && results.experiments[id].qos == targets[k].qos
  {
    var ws := Workers(exec, targets, intervalMs, count);
    WorkersOfTargets(exec, targets, intervalMs, count);
    ExperimentCompletes(count, intervalMs, targets, ws, inbox);
    var results := Experiment(count, intervalMs, targets, inbox).value;
    forall id | id in results.experiments
      ensures exists k :: 0 <= k < |targets| && targets[k].id == id &&
                Probe(exec, targets[k].host, targets[k].qos, intervalMs, count, false) ==
                  Ok(Some(results.experiments[id].result)) &&
                results.experiments[id].host == targets[k].host && results.experiments[id].qos == targets[k].qos
    {
      assert FromWorker(ws, Message(id, Some(results.experiments[id])));
    }
  }

  /**
   * As written, a single failed probe leaves the parent waiting forever:
   * the failing worker posts nothing, so one of the len(targets) receives
   * never returns.
   */
  lemma {:induction false} FailedProbeBlocks(count: int, intervalMs: int, targets: seq<Target>, ws: seq<Worker>,
                          inbox: seq<Message<ProbeRecord>>)
    requires |ws| == |targets|
    requires exists k :: 0 <= k < |ws| && !Succeeded(ws[k])
    requires multiset(inbox) == multiset(Posted(ws, false))
    ensures Experiment(count, intervalMs, targets, inbox) == Blocked
  {
    PostedAsWritten(ws);
    CollectedTooFew(|targets|, inbox, Posted(ws, false));
  }

  /** As written, the "No results" exit of the receive loop can never be taken. */
  lemma {:induction false} AbortUnreachable(count: int, intervalMs: int, targets: seq<Target>, ws: seq<Worker>,
                         inbox: seq<Message<ProbeRecord>>)
    requires multiset(inbox) == multiset(Posted(ws, false))
    ensures !Experiment(count, intervalMs, targets, inbox).Aborted?
  {
    PostedAsWritten(ws);
    var posted := Posted(ws, false);
    var received := inbox[..if |targets| < |inbox| then |targets| else |inbox|];
    forall k | 0 <= k < |received| ensures received[k].result.Some? {
      assert received[k] == inbox[k];
      assert inbox[k] in multiset(posted);
    }
  }

  /**
   * With do_ping() corrected, a probe that returns None stops the
   * experiment at a worker whose probe returned None, whatever order the
   * messages arrive in, and even when other workers died of int(qos)'s
   * ValueError and posted nothing.
   */
  lemma {:induction false} FixedExperimentAborts(count: int, intervalMs: int, targets: seq<Target>, ws: seq<Worker>,
                              inbox: seq<Message<ProbeRecord>>)
    requires |ws| == |targets|
    requires exists k :: 0 <= k < |ws| && ws[k].probed == Ok(None)
    requires multiset(inbox) == multiset(Posted(ws, true))
    ensures Experiment(count, intervalMs, targets, inbox).Aborted?
    ensures exists k :: 0 <= k < |ws| && ws[k].config.id == Experiment(count, intervalMs, targets, inbox).failed &&
                        ws[k].probed == Ok(None)
  {
    PostedFixed(ws);
    PostedFromWorkers(ws, true);
    CollectedSomeFail(|targets|, inbox, Posted(ws, true));
    var failed := Collected(|targets|, inbox).failed;
    assert FromWorker(ws, Message(failed, None));
  }

  // ---------------------------------------------------------------------------
  // The command line
  // ---------------------------------------------------------------------------

  /**
   * One option as getopt returns it for the option string "t:w:r:c:i:o:l":
   * getopt itself rejects every other option, so the loop's final
   * assert(False) branch is never reached.
   */
  datatype Opt =
    | WriteFile(path: string)      // -w
    | ReadFile(path: string)       // -r
    | PingCount(arg: string)       // -c
    | PingInterval(arg: string)    // -i
    | TargetOpt(arg: string)       // -t
    | ImageFile(path: string)      // -o
    | LineGraph                    // -l

  /** How the program stops before doing anything: a usage error (SystemExit) or an uncaught exception. */
  datatype Stop = UsageError(message: string) | Raised(exception: string)

  /** The variables the option loop sets; the interval is in milliseconds. */
  datatype Settings = Settings(pingCount: int, pingIntervalMs: int, targets: seq<Target>, lineGraph: bool,
                               writeFile: bool, readFile: bool, file: Option<string>, imageFile: Option<string>)

  /** 400 probes, 0.2 s apart, no targets, bar graph, no file, no image file. */
  const Defaults := Settings(400, 200, [], false, false, false, None, None)

  function StripTarget(t: Target): Target
  {
    Target(Strip(t.id), Strip(t.host), Strip(t.qos))
  }

  function RStripTarget(t: Target): Target
  {
    Target(RStrip(t.id), RStrip(t.host), RStrip(t.qos))
  }

  /** [f(t) for t in ts] */
  function MapTargets(f: Target -> Target, ts: seq<Target>): seq<Target>
  {
    seq(|ts|, k requires 0 <= k < |ts| => f(ts[k]))
  }

  function StripAll(ts: seq<Target>): seq<Target>
  {
    MapTargets(StripTarget, ts)
  }

  function RStripAll(ts: seq<Target>): seq<Target>
  {
    MapTargets(RStripTarget, ts)
  }

  /** The fields of a -t argument: exactly three, separated by commas. */
  function TargetFields(a: string): Option<Target>
  {
    var parts := Split(a, ',');
    if |parts| != 3 then None else Some(Target(parts[0], parts[1], parts[2]))
  }

  /** The -t branch: append the fields, then strip() every field of every target, then rstrip() every field. */
  function AppendTarget(targets: seq<Target>, a: string): Option<seq<Target>>
  {
    match TargetFields(a)
    case None => None
    case Some(t) => Some(RStripAll(StripAll(targets + [t])))
  }

  /**
   * One turn of the option loop. int() of a bad count and float() of a bad
   * interval raise ValueError; readInterval is float() followed by the
   * conversion to milliseconds, which is not part of this model.
   */
  function ApplyOption(s: Settings, o: Opt, readInterval: string -> Option<int>): Result<Settings, Stop>
  {
    match o
    case WriteFile(path) => Ok(s.(writeFile := true, file := Some(path)))
    case ReadFile(path) => Ok(s.(readFile := true, file := Some(path)))
    case PingCount(a) =>
      (match ParseInt(a)
       case None => Err(Raised("ValueError"))
       case Some(n) => Ok(s.(pingCount := n)))
    case PingInterval(a) =>
      (match readInterval(a)
       case None => Err(Raised("ValueError"))
       case Some(ms) => Ok(s.(pingIntervalMs := ms)))
    case TargetOpt(a) =>
      (match AppendTarget(s.targets, a)
       case None => Err(UsageError("Error: Invalid target format."))
       case Some(ts) => Ok(s.(targets := ts)))
    case ImageFile(path) => Ok(s.(imageFile := Some(path)))
    case LineGraph => Ok(s.(lineGraph := true))
  }

  /** The settings after the whole option loop, or how it stopped. */
  function Options(opts: seq<Opt>, readInterval: string -> Option<int>): Result<Settings, Stop>
  {
    if opts == [] then Ok(Defaults)
    else
      match Options(opts[..|opts| - 1], readInterval)
      case Err(e) => Err(e)
      case Ok(s) => ApplyOption(s, opts[|opts| - 1], readInterval)
  }

  /** The option loop of the main program. */
  method ReadOptions(opts: seq<Opt>, readInterval: string -> Option<int>) returns (r: Result<Settings, Stop>)
    ensures r == Options(opts, readInterval)
  {
    var pingCount, pingIntervalMs, targets := 400, 200, [];
    var lineGraph, writeFile, readFile := false, false, false;
    var file, imageFile := None, None;
    for i := 0 to |opts|
      invariant Options(opts[..i], readInterval) ==
                Ok(Settings(pingCount, pingIntervalMs, targets, lineGraph, writeFile, readFile, file, imageFile))
    {
      OptionsStep(opts, i, readInterval);
      match opts[i] {
        case WriteFile(path) =>
          writeFile, file := true, Some(path);
        case ReadFile(path) =>
          readFile, file := true, Some(path);
        case PingCount(a) =>
          var n := ParseInt(a);
          if n.None? {
            OptionsStopped(opts, i + 1, readInterval);
            return Err(Raised("ValueError"));
          }
          pingCount := n.value;
        case PingInterval(a) =>
          var ms := readInterval(a);
          if ms.None? {
            OptionsStopped(opts, i + 1, readInterval);
            return Err(Raised("ValueError"));
          }
          pingIntervalMs := ms.value;
        case TargetOpt(a) =>
          var targetInfo := Split(a, ',');
          if |targetInfo| != 3 {
            OptionsStopped(opts, i + 1, readInterval);
            return Err(UsageError("Error: Invalid target format."));
          }
          targets := targets + [Target(targetInfo[0], targetInfo[1], targetInfo[2])];
          targets := StripAll(targets);
          targets := RStripAll(targets);
        case ImageFile(path) =>
          imageFile := Some(path);
        case LineGraph =>
          lineGraph := true;
      }
    }
    assert opts[..|opts|] == opts;
    return Ok(Settings(pingCount, pingIntervalMs, targets, lineGraph, writeFile, readFile, file, imageFile));
  }

  lemma {:induction false} OptionsStep(opts: seq<Opt>, i: nat, readInterval: string -> Option<int>)
    requires i < |opts|
    ensures Options(opts[..i + 1], readInterval) ==
            match Options(opts[..i], readInterval)
            case Err(e) => Err(e)
            case Ok(s) => ApplyOption(s, opts[i], readInterval)
  {
    assert opts[..i + 1][..i] == opts[..i];
  }

  /** Once the loop has stopped, the later options do not matter. */
  lemma {:induction false} OptionsStopped(opts: seq<Opt>, i: nat, readInterval: string -> Option<int>)
    requires i <= |opts| && Options(opts[..i], readInterval).Err?
    ensures Options(opts, readInterval) == Options(opts[..i], readInterval)
    decreases |opts| - i
  {
    if i == |opts| {
      assert opts[..i] == opts;
    } else {
      OptionsStep(opts, i, readInterval);
      OptionsStopped(opts, i + 1, readInterval);
    }
  }

  // ---------------------------------------------------------------------------
  // What the option loop accepts and leaves
  // ---------------------------------------------------------------------------

  /** An option the loop accepts: its argument reads where one is read. */
  predicate Accepted(o: Opt, readInterval: string -> Option<int>)
  {
    match o
    case PingCount(a) => ParseInt(a).Some?
    case PingInterval(a) => readInterval(a).Some?
    case TargetOpt(a) => |Split(a, ',')| == 3
    case _ => true
  }

  /** One option is accepted exactly when its argument reads. */
  lemma {:induction false} ApplyOptionAccepted(s: Settings, o: Opt, readInterval: string -> Option<int>)
    ensures ApplyOption(s, o, readInterval).Ok? <==> Accepted(o, readInterval)
  {
  }

  /** The program gets past the option loop exactly when every option is accepted. */
  lemma {:induction false} OptionsAccepted(opts: seq<Opt>, readInterval: string -> Option<int>)
    ensures Options(opts, readInterval).Ok? <==> forall k :: 0 <= k < |opts| ==> Accepted(opts[k], readInterval)
  {
    if opts != [] {
      var init, o := opts[..|opts| - 1], opts[|opts| - 1];
      OptionsAccepted(init, readInterval);
      if Options(init, readInterval).Ok? {
        ApplyOptionAccepted(Options(init, readInterval).value, o, readInterval);
      }
      assert forall k :: 0 <= k < |init| ==> init[k] == opts[k];
    }
  }

  /** The arguments of the -t options, in order. */
  function TargetArgs(opts: seq<Opt>): seq<string>
  {
    if opts == [] then []
    else TargetArgs(opts[..|opts| - 1]) + (if opts[|opts| - 1].TargetOpt? then [opts[|opts| - 1].arg] else [])
  }

  predicate TargetStripped(t: Target)
  {
    Stripped(t.id) && Stripped(t.host) && Stripped(t.qos)
  }

  lemma {:induction false} RestripStripped(t: Target)
    requires TargetStripped(t)
    ensures RStripTarget(StripTarget(t)) == t
  {
    StrippedIsFixed(t.id);
    StrippedIsFixed(t.host);
    StrippedIsFixed(t.qos);
  }

  lemma {:induction false} RestripNew(t: Target)
    ensures RStripTarget(StripTarget(t)) == StripTarget(t) && TargetStripped(StripTarget(t))
  {
    StripIdempotent(t.id);
    StripIdempotent(t.host);
    StripIdempotent(t.qos);
    StripSpec(t.id);
    StripSpec(t.host);
    StripSpec(t.qos);
  }

  /** Two passes over a list with one more element leave the old elements alone when the passes fix them. */
  lemma {:induction false} MapTwiceAppend(f: Target -> Target, g: Target -> Target, ts: seq<Target>, t: Target)
    requires forall k :: 0 <= k < |ts| ==> g(f(ts[k])) == ts[k]
    ensures MapTargets(g, MapTargets(f, ts + [t])) == ts + [g(f(t))]
  {
    var all := ts + [t];
    var result := MapTargets(g, MapTargets(f, all));
    var expected := ts + [g(f(t))];
    forall k | 0 <= k < |all| ensures result[k] == expected[k] {
      if k < |ts| {
        assert all[k] == ts[k];
      }
    }
  }

  /** Re-stripping targets that are already stripped changes nothing, so a new target is only stripped itself. */
  lemma {:induction false} RestripAppend(targets: seq<Target>, t: Target)
    requires forall k :: 0 <= k < |targets| ==> TargetStripped(targets[k])
    ensures RStripAll(StripAll(targets + [t])) == targets + [StripTarget(t)]
  {
    forall k | 0 <= k < |targets| ensures RStripTarget(StripTarget(targets[k])) == targets[k] {
      RestripStripped(targets[k]);
    }
    MapTwiceAppend(StripTarget, RStripTarget, targets, t);
    RestripNew(t);
  }

  /** Each accepted -t appends exactly one target: its three fields, stripped. */
  lemma {:induction false} AppendTargetAdds(targets: seq<Target>, a: string)
    requires forall k :: 0 <= k < |targets| ==> TargetStripped(targets[k])
    requires TargetFields(a).Some?
    ensures AppendTarget(targets, a) == Some(targets + [StripTarget(TargetFields(a).value)])
    ensures TargetStripped(StripTarget(TargetFields(a).value))
  {
    RestripAppend(targets, TargetFields(a).value);
    RestripNew(TargetFields(a).value);
  }

  /** Target t is what the -t argument a reads as: its three fields, stripped. */
  predicate TargetOf(t: Target, a: string)
  {
    TargetFields(a).Some? && t == StripTarget(TargetFields(a).value) && TargetStripped(t)
  }

  /** The targets read from the -t arguments args, in order. */
  predicate TargetsOf(ts: seq<Target>, args: seq<string>)
  {
    |ts| == |args| && forall k :: 0 <= k < |ts| ==> TargetOf(ts[k], args[k])
  }

  /** A relation that holds position by position still does after one more pair. */
  lemma {:induction false} PairwiseAppend(rel: (Target, string) -> bool, ts: seq<Target>, args: seq<string>, t: Target, a: string)
    requires |ts| == |args| && forall k :: 0 <= k < |ts| ==> rel(ts[k], args[k])
    requires rel(t, a)
    ensures forall k :: 0 <= k < |ts| + 1 ==> rel((ts + [t])[k], (args + [a])[k])
  {
    forall k | 0 <= k < |ts| + 1 ensures rel((ts + [t])[k], (args + [a])[k]) {
      if k < |ts| {
        assert (ts + [t])[k] == ts[k] && (args + [a])[k] == args[k];
      }
    }
  }

  lemma {:induction false} TargetsOfAppend(ts: seq<Target>, args: seq<string>, a: string)
    requires TargetsOf(ts, args) && TargetFields(a).Some?
    ensures TargetsOf(ts + [StripTarget(TargetFields(a).value)], args + [a])
  {
    var t := StripTarget(TargetFields(a).value);
    assert TargetOf(t, a) by {
      RestripNew(TargetFields(a).value);
    }
    PairwiseAppend(TargetOf, ts, args, t, a);
  }

  /** One accepted option: -t appends its stripped target, every other option leaves the targets alone. */
  lemma {:induction false} ApplyOptionTargets(s: Settings, o: Opt, readInterval: string -> Option<int>)
    requires ApplyOption(s, o, readInterval).Ok?
    requires forall k :: 0 <= k < |s.targets| ==> TargetStripped(s.targets[k])
    ensures o.TargetOpt? ==>
              && TargetFields(o.arg).Some?
              && ApplyOption(s, o, readInterval).value.targets == s.targets + [StripTarget(TargetFields(o.arg).value)]
    ensures !o.TargetOpt? ==> ApplyOption(s, o, readInterval).value.targets == s.targets
  {
    if o.TargetOpt? {
      AppendTargetAdds(s.targets, o.arg);
    }
  }

  /** After the loop, the targets are the -t arguments in order, each split into its three fields and stripped. */
  lemma {:induction false} OptionsTargets(opts: seq<Opt>, readInterval: string -> Option<int>)
    requires Options(opts, readInterval).Ok?
    ensures TargetsOf(Options(opts, readInterval).value.targets, TargetArgs(opts))
  {
    if opts != [] {
      var init, o := opts[..|opts| - 1], opts[|opts| - 1];
      OptionsTargets(init, readInterval);
      var s := Options(init, readInterval).value;
      assert Options(opts, readInterval) == ApplyOption(s, o, readInterval);
      ApplyOptionTargets(s, o, readInterval);
      if o.TargetOpt? {
        assert TargetArgs(opts) == TargetArgs(init) + [o.arg];
        TargetsOfAppend(s.targets, TargetArgs(init), o.arg);
      } else {
        assert TargetArgs(opts) == TargetArgs(init) + [];
        assert TargetArgs(init) + [] == TargetArgs(init);
      }
    }
  }

  /** One accepted option sets the write (read) flag exactly when it is -w (-r) or the flag was set. */
  lemma {:induction false} ApplyOptionFlags(s: Settings, o: Opt, readInterval: string -> Option<int>)
    requires ApplyOption(s, o, readInterval).Ok?
    ensures ApplyOption(s, o, readInterval).value.writeFile == (s.writeFile || o.WriteFile?)
    ensures ApplyOption(s, o, readInterval).value.readFile == (s.readFile || o.ReadFile?)
  {
  }

  /** After the loop, -w (-r) was passed exactly when the write (read) flag is set. */
  lemma {:induction false} OptionsFlags(opts: seq<Opt>, readInterval: string -> Option<int>)
    requires Options(opts, readInterval).Ok?
    ensures Options(opts, readInterval).value.writeFile <==> exists k :: 0 <= k < |opts| && opts[k].WriteFile?
    ensures Options(opts, readInterval).value.readFile <==> exists k :: 0 <= k < |opts| && opts[k].ReadFile?
  {
    if opts != [] {
      var init, o := opts[..|opts| - 1], opts[|opts| - 1];
      OptionsFlags(init, readInterval);
      var s := Options(init, readInterval).value;
      assert Options(opts, readInterval) == ApplyOption(s, o, readInterval);
      ApplyOptionFlags(s, o, readInterval);
      assert forall k :: 0 <= k < |init| ==> init[k] == opts[k];
    }
  }

  /** Three stripped, comma-free fields joined with commas read back as the same target. */
  lemma {:induction false} TargetRoundTrip(t: Target)
    requires TargetStripped(t)
    requires ',' !in t.id && ',' !in t.host && ',' !in t.qos
    ensures TargetFields(Join([t.id, t.host, t.qos], ',')) == Some(t)
    ensures AppendTarget([], Join([t.id, t.host, t.qos], ',')) == Some([t])
  {
    var a := Join([t.id, t.host, t.qos], ',');
    assert TargetFields(a) == Some(t) by {
      SplitJoin([t.id, t.host, t.qos], ',');
    }
    assert StripTarget(t) == t by {
      StrippedIsFixed(t.id);
      StrippedIsFixed(t.host);
      StrippedIsFixed(t.qos);
    }
    AppendTargetAdds([], a);
    assert [] + [StripTarget(t)] == [t];
  }

  // ---------------------------------------------------------------------------
  // Modes
  // ---------------------------------------------------------------------------

  /** Where the results come from. */
  datatype Source = FromFile | FromExperiment

  /** The three mode checks after the option loop, in their order. */
  function CheckModes(s: Settings): (r: Result<Source, Stop>)
    ensures r.Ok? <==> !(s.writeFile && s.readFile) && (s.readFile <==> s.targets == [])
    ensures r.Ok? ==> (r.value == FromFile <==> s.readFile)
    ensures r.Err? ==> r.error.UsageError?
  {
    if s.writeFile && s.readFile then Err(UsageError("Error: -r and -w cannot be used together."))
    else if s.readFile && s.targets != [] then Err(UsageError("Error: -t and -r cannot be used together."))
    else if !s.readFile && s.targets == [] then Err(UsageError("Error: Must pass one of -t or -r."))
    else Ok(if s.readFile then FromFile else FromExperiment)
  }
}
