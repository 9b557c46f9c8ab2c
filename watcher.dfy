/**
 * The watcher layer of the monitor: a checker paired with the alerts that read
 * its result (`MultiWatcher`), the closed set of watcher kinds (`WatcherEnum`)
 * and its configuration mirror (`WatcherConfiguration`).
 *
 * The checker and alert capabilities are Rust traits with one implementation
 * per watcher kind. Here an implementation is a value (`CheckerImpl`,
 * `AlertImpl`) whose fields are the trait's functions, passed to the
 * operations that use them. The machine state a check reads (`System`) and the
 * reporter (`ActiveAlert -> Result<()>`) are parameters of a run.
 */
module Watcher {
  import opened Wrappers
  import DS = DiskSpace
  import Mem = Memory

  /** The advisory polling interval a checker reports, in whole time units. */
  type Duration = nat

  /** The state of the machine at the moment a checker observes it. */
  type System

  /** A fired alert, ready to be handed to the reporter. */
  datatype ActiveAlert = ActiveAlert(message: string)

  /**
   * An implementation of the checker capability: how a checker of type K is
   * built from its configuration C, the period it advises, and the
   * observation (of type R, or an error) it makes of the machine.
   */
  datatype CheckerImpl<!C, !K, R> = CheckerImpl(
    build: C -> K,
    period: K -> Duration,
    check: (K, System) -> Result<R>)

  /**
   * An implementation of the alert capability for alerts of type A, bound to
   * the checker implementation whose results they read.
   */
  datatype AlertImpl<!C, !K, !R, !A> = AlertImpl(
    checker: CheckerImpl<C, K, R>,
    isTriggered: (A, R) -> Option<ActiveAlert>)

  /**
   * The reporter, seen through its answers: what it answers to the n-th call
   * of a cycle (counting from 0) when handed that alert. A reporter whose
   * answers depend on its own state is covered, as that state is fixed by
   * the calls made before.
   */
  type Reporter = (nat, ActiveAlert) -> Result<()>

  /** One call of the reporter: the alert handed to it and what it answered. */
  datatype Delivery = Delivery(alert: ActiveAlert, outcome: Result<()>)

  /** A log line of a cycle: a firing alert (info level) or a reporter failure (warning level). */
  datatype LogEvent = FiringAlert(alert: ActiveAlert) | ReporterFailed(error: Error)

  /** Everything one run cycle produces: its result, the reporter calls in order, and the log. */
  datatype Trace = Trace(result: Result<()>, deliveries: seq<Delivery>, log: seq<LogEvent>)

  // ---------------------------------------------------------------------------
  // The specification of one cycle
  // ---------------------------------------------------------------------------

  function Fired(o: Option<ActiveAlert>): seq<ActiveAlert>
  {
    match o
    case Some(a) => [a]
    case None => []
  }

  /** The alerts that fire against `res`, in the order of `alerts`. */
  function Triggered<A, R>(isTriggered: (A, R) -> Option<ActiveAlert>, alerts: seq<A>, res: R): seq<ActiveAlert>
    decreases |alerts|
  {
    if alerts == [] then []
    else
      var n := |alerts| - 1;
      Triggered(isTriggered, alerts[..n], res) + Fired(isTriggered(alerts[n], res))
  }

  /**
   * The positions in `alerts` of the alerts that fire against `res`: each
   * firing position exactly once, in increasing order, and no other.
   */
  ghost function FiringIndices<A, R>(isTriggered: (A, R) -> Option<ActiveAlert>, alerts: seq<A>, res: R): (ix: seq<nat>)
    ensures forall j :: 0 <= j < |ix| ==> ix[j] < |alerts|
    ensures forall j, k :: 0 <= j < k < |ix| ==> ix[j] < ix[k]
    ensures forall i :: 0 <= i < |alerts| ==> (i in ix <==> isTriggered(alerts[i], res).Some?)
    decreases |alerts|
  {
    if alerts == [] then []
    else
      var n := |alerts| - 1;
      var front := FiringIndices(isTriggered, alerts[..n], res);
      assert forall i :: 0 <= i < n ==> alerts[..n][i] == alerts[i];
      front + (if isTriggered(alerts[n], res).Some? then [n] else [])
  }

  /** Hands each fired alert to the reporter in turn, recording what it answered. */
  function Deliveries(report: Reporter, fired: seq<ActiveAlert>): (deliveries: seq<Delivery>)
    ensures |deliveries| == |fired|
    ensures forall j :: 0 <= j < |fired| ==> deliveries[j] == Delivery(fired[j], report(j, fired[j]))
    decreases |fired|
  {
    if fired == [] then []
    else
      var n := |fired| - 1;
      Deliveries(report, fired[..n]) + [Delivery(fired[n], report(n, fired[n]))]
  }

  /** The log lines of one delivery: the firing alert, then the reporter's error if it failed. */
  function Logged(d: Delivery): seq<LogEvent>
  {
    [FiringAlert(d.alert)] + match d.outcome
                             case Ok(_) => []
                             case Err(e) => [ReporterFailed(e)]
  }

  /** The log of a sequence of deliveries. */
  function LogOf(deliveries: seq<Delivery>): seq<LogEvent>
    decreases |deliveries|
  {
    if deliveries == [] then []
    else
      var n := |deliveries| - 1;
      LogOf(deliveries[..n]) + Logged(deliveries[n])
  }

  /** The alerts handed to the reporter. */
  function AlertsOf(deliveries: seq<Delivery>): seq<ActiveAlert>
    decreases |deliveries|
  {
    if deliveries == [] then []
    else
      var n := |deliveries| - 1;
      AlertsOf(deliveries[..n]) + [deliveries[n].alert]
  }

  /** The errors the reporter answered, in order. */
  function Failures(deliveries: seq<Delivery>): seq<Error>
    decreases |deliveries|
  {
    if deliveries == [] then []
    else
      var n := |deliveries| - 1;
      Failures(deliveries[..n]) + match deliveries[n].outcome
                                  case Ok(_) => []
                                  case Err(e) => [e]
  }

  /** The alerts named by the info lines of a log. */
  function Firings(log: seq<LogEvent>): seq<ActiveAlert>
    decreases |log|
  {
    if log == [] then []
    else
      var n := |log| - 1;
      Firings(log[..n]) + match log[n]
                          case FiringAlert(a) => [a]
                          case ReporterFailed(_) => []
  }

  /** The errors named by the warning lines of a log. */
  function Warnings(log: seq<LogEvent>): seq<Error>
    decreases |log|
  {
    if log == [] then []
    else
      var n := |log| - 1;
      Warnings(log[..n]) + match log[n]
                           case FiringAlert(_) => []
                           case ReporterFailed(e) => [e]
  }

  /** Evaluating one more alert adds its alert, if it fires, at the end. */
  lemma TriggeredStep<A, R>(isTriggered: (A, R) -> Option<ActiveAlert>, alerts: seq<A>, i: nat, res: R)
    requires i < |alerts|
    ensures isTriggered(alerts[i], res).None? ==> Triggered(isTriggered, alerts[..i + 1], res) == Triggered(isTriggered, alerts[..i], res)
    ensures isTriggered(alerts[i], res).Some? ==>
              Triggered(isTriggered, alerts[..i + 1], res) == Triggered(isTriggered, alerts[..i], res) + [isTriggered(alerts[i], res).value]
  {
    assert alerts[..i + 1][..i] == alerts[..i];
  }

  /** One more fired alert adds one reporter call, numbered after the earlier ones, at the end. */
  lemma DeliveriesStep(report: Reporter, fired: seq<ActiveAlert>, a: ActiveAlert)
    ensures Deliveries(report, fired + [a]) == Deliveries(report, fired) + [Delivery(a, report(|fired|, a))]
  {
  }

  /** One more delivery adds its info line, then its warning line if the reporter failed, at the end of the log. */
  lemma LogStep(deliveries: seq<Delivery>, d: Delivery)
    ensures LogOf(deliveries + [d]) == LogOf(deliveries) + Logged(d)
    ensures d.outcome.Ok? ==> LogOf(deliveries + [d]) == LogOf(deliveries) + [FiringAlert(d.alert)]
    ensures d.outcome.Err? ==> LogOf(deliveries + [d]) == LogOf(deliveries) + [FiringAlert(d.alert)] + [ReporterFailed(d.outcome.error)]
  {
  }

  // ---------------------------------------------------------------------------
  // MultiWatcher: one checker and the alerts that read its result
  // ---------------------------------------------------------------------------

  /** The parsed configuration of a MultiWatcher: the checker's configuration and the alerts. */
  datatype SerializedMultiWatcher<C, A> = SerializedMultiWatcher(configuration: C, alerts: seq<A>)

  datatype MultiWatcher<K, A> = MultiWatcher(checker: K, alerts: seq<A>)
  {
    /** Builds the checker from the carried configuration and keeps the alerts. */
    static function New<C, R>(impl: CheckerImpl<C, K, R>, serialized: SerializedMultiWatcher<C, A>): (w: MultiWatcher<K, A>)
      ensures w.Period(impl) == impl.period(impl.build(serialized.configuration))
      ensures w.alerts == serialized.alerts
    {
      MultiWatcher(impl.build(serialized.configuration), serialized.alerts)
    }

    /** The checker's advisory period. */
    function Period<C, R>(impl: CheckerImpl<C, K, R>): Duration
    {
      impl.period(checker)
    }

    /**
     * What one cycle does: a failed check ends the cycle with its error and
     * nothing reported; otherwise every alert that fires is reported in
     * order, and the cycle succeeds whatever the reporter answered.
     */
    ghost function RunTrace<C, R>(impl: AlertImpl<C, K, R, A>, sys: System, report: Reporter): Trace
    {
      match impl.checker.check(checker, sys)
      case Err(e) => Trace(Err(e), [], [])
      case Ok(res) =>
        var deliveries := Deliveries(report, Triggered(impl.isTriggered, alerts, res));
        Trace(Ok(()), deliveries, LogOf(deliveries))
    }

    /** One check cycle: check once, then evaluate every alert and report those that fire. */
    method Run<C, R>(impl: AlertImpl<C, K, R, A>, sys: System, report: Reporter)
      returns (result: Result<()>, deliveries: seq<Delivery>, log: seq<LogEvent>)
      ensures impl.checker.check(checker, sys).Err? ==>
                result == Err(impl.checker.check(checker, sys).error) && deliveries == [] && log == []
      ensures impl.checker.check(checker, sys).Ok? ==> result == Ok(())
      ensures Trace(result, deliveries, log) == RunTrace(impl, sys, report)
    {
      var observed := impl.checker.check(checker, sys);
      if observed.Err? {
        return Err(observed.error), [], [];
      }
      deliveries, log := ReportFiring(impl.isTriggered, alerts, observed.value, report);
      result := Ok(());
    }
  }

  /**
   * The iterator chain of a cycle: evaluates each alert in order against
   * `res` and, for each that fires, logs it and hands it to the reporter,
   * logging the reporter's error if there is one and going on regardless.
   */
  method ReportFiring<A, R>(isTriggered: (A, R) -> Option<ActiveAlert>, alerts: seq<A>, res: R, report: Reporter)
    returns (deliveries: seq<Delivery>, log: seq<LogEvent>)
    ensures deliveries == Deliveries(report, Triggered(isTriggered, alerts, res))
    ensures log == LogOf(deliveries)
  {
    deliveries, log := [], [];
    ghost var sent: seq<ActiveAlert> := [];
    var i := 0;
    while i < |alerts|
      invariant i <= |alerts|
      invariant sent == Triggered(isTriggered, alerts[..i], res)
      invariant deliveries == Deliveries(report, sent) && |deliveries| == |sent|
      invariant log == LogOf(deliveries)
    {
      TriggeredStep(isTriggered, alerts, i, res);
      var fired := isTriggered(alerts[i], res);
      if fired.Some? {
        var alert := fired.value;
        log := log + [FiringAlert(alert)];
        var outcome := report(|deliveries|, alert);
        DeliveriesStep(report, sent, alert);
        LogStep(deliveries, Delivery(alert, outcome));
        deliveries := deliveries + [Delivery(alert, outcome)];
        sent := sent + [alert];
        if outcome.Err? {
          log := log + [ReporterFailed(outcome.error)];
        }
      }
      i := i + 1;
    }
    assert alerts[..i] == alerts;
  }

  // ---------------------------------------------------------------------------
  // Properties of a cycle
  // ---------------------------------------------------------------------------

  /** Firing is decided alert by alert: the alerts of a concatenation fire as those of its parts. */
  lemma {:induction false} TriggeredConcat<A, R>(isTriggered: (A, R) -> Option<ActiveAlert>, front: seq<A>, back: seq<A>, res: R)
    ensures Triggered(isTriggered, front + back, res) == Triggered(isTriggered, front, res) + Triggered(isTriggered, back, res)
    decreases |back|
  {
    if back == [] {
      assert front + back == front;
    } else {
      var n := |back| - 1;
      assert (front + back)[..|front + back| - 1] == front + back[..n];
      TriggeredConcat(isTriggered, front, back[..n], res);
    }
  }

  /** The j-th fired alert is the one produced by the alert at the j-th firing position. */
  lemma {:induction false} TriggeredAt<A, R>(isTriggered: (A, R) -> Option<ActiveAlert>, alerts: seq<A>, res: R)
    ensures |Triggered(isTriggered, alerts, res)| == |FiringIndices(isTriggered, alerts, res)|
    ensures forall j :: 0 <= j < |FiringIndices(isTriggered, alerts, res)| ==>
              isTriggered(alerts[FiringIndices(isTriggered, alerts, res)[j]], res) == Some(Triggered(isTriggered, alerts, res)[j])
    decreases |alerts|
  {
    if alerts != [] {
      var n := |alerts| - 1;
      TriggeredAt(isTriggered, alerts[..n], res);
      var front := FiringIndices(isTriggered, alerts[..n], res);
      forall j | 0 <= j < |front| ensures alerts[..n][front[j]] == alerts[front[j]] {}
    }
  }

  /**
   * When the check succeeds, the reporter is called exactly once for each
   * alert that fires, with the alert it produced, in the order of the alerts,
   * and the cycle succeeds, whatever the reporter answers.
   */
  lemma ReportsFiringAlertsInOrder<C, K, R, A>(impl: AlertImpl<C, K, R, A>, w: MultiWatcher<K, A>, sys: System, report: Reporter)
    requires impl.checker.check(w.checker, sys).Ok?
    ensures var res := impl.checker.check(w.checker, sys).value;
            var t := w.RunTrace(impl, sys, report);
            var ix := FiringIndices(impl.isTriggered, w.alerts, res);
            && t.result == Ok(())
            && |t.deliveries| == |ix|
            && forall j :: 0 <= j < |ix| ==>
                 && impl.isTriggered(w.alerts[ix[j]], res) == Some(t.deliveries[j].alert)
                 && t.deliveries[j].outcome == report(j, t.deliveries[j].alert)
  {
    var res := impl.checker.check(w.checker, sys).value;
    var fired := Triggered(impl.isTriggered, w.alerts, res);
    TriggeredAt(impl.isTriggered, w.alerts, res);
  }

  /** No alert fires when none of them is triggered. */
  lemma {:induction false} NothingTriggered<A, R>(isTriggered: (A, R) -> Option<ActiveAlert>, alerts: seq<A>, res: R)
    requires forall i :: 0 <= i < |alerts| ==> isTriggered(alerts[i], res).None?
    ensures Triggered(isTriggered, alerts, res) == []
    decreases |alerts|
  {
    if alerts != [] {
      var n := |alerts| - 1;
      assert forall i :: 0 <= i < n ==> alerts[..n][i] == alerts[i];
      NothingTriggered(isTriggered, alerts[..n], res);
    }
  }

  /** When the check succeeds and no alert fires, nothing is reported or logged and the cycle succeeds. */
  lemma QuietCycle<C, K, R, A>(impl: AlertImpl<C, K, R, A>, w: MultiWatcher<K, A>, sys: System, report: Reporter)
    requires impl.checker.check(w.checker, sys).Ok?
    requires forall i :: 0 <= i < |w.alerts| ==> impl.isTriggered(w.alerts[i], impl.checker.check(w.checker, sys).value).None?
    ensures w.RunTrace(impl, sys, report) == Trace(Ok(()), [], [])
  {
    NothingTriggered(impl.isTriggered, w.alerts, impl.checker.check(w.checker, sys).value);
  }

  /** When only the alert at position k is triggered, its alert is the only one that fires. */
  lemma {:induction false} OnlyOneTriggered<A, R>(isTriggered: (A, R) -> Option<ActiveAlert>, alerts: seq<A>, res: R, k: nat, a: ActiveAlert)
    requires k < |alerts| && isTriggered(alerts[k], res) == Some(a)
    requires forall i :: 0 <= i < |alerts| && i != k ==> isTriggered(alerts[i], res).None?
    ensures Triggered(isTriggered, alerts, res) == [a]
    decreases |alerts|
  {
    var n := |alerts| - 1;
    assert forall i :: 0 <= i < n ==> alerts[..n][i] == alerts[i];
    if k == n {
      NothingTriggered(isTriggered, alerts[..n], res);
    } else {
      OnlyOneTriggered(isTriggered, alerts[..n], res, k, a);
    }
  }

  /** When the check succeeds and only the alert at position k fires, it is the one reporter call. */
  lemma SingleFiringCycle<C, K, R, A>(impl: AlertImpl<C, K, R, A>, w: MultiWatcher<K, A>, sys: System, report: Reporter, k: nat, a: ActiveAlert)
    requires impl.checker.check(w.checker, sys).Ok?
    requires k < |w.alerts| && impl.isTriggered(w.alerts[k], impl.checker.check(w.checker, sys).value) == Some(a)
    requires forall i :: 0 <= i < |w.alerts| && i != k ==> impl.isTriggered(w.alerts[i], impl.checker.check(w.checker, sys).value).None?
    ensures w.RunTrace(impl, sys, report).result == Ok(())
    ensures w.RunTrace(impl, sys, report).deliveries == [Delivery(a, report(0, a))]
  {
    OnlyOneTriggered(impl.isTriggered, w.alerts, impl.checker.check(w.checker, sys).value, k, a);
    assert [a][..0] == [];
  }

  /** The reporter is handed exactly the fired alerts, whatever it answers. */
  lemma {:induction false} AlertsOfDeliveries(report: Reporter, fired: seq<ActiveAlert>)
    ensures AlertsOf(Deliveries(report, fired)) == fired
    decreases |fired|
  {
    if fired != [] {
      var n := |fired| - 1;
      var front := Deliveries(report, fired[..n]);
      AlertsOfDeliveries(report, fired[..n]);
      assert (front + [Delivery(fired[n], report(n, fired[n]))])[..|front|] == front;
    }
  }

  /**
   * Delivery is best-effort: the alerts handed to the reporter, and the
   * cycle's result, are the same whatever any reporter call answers, so a
   * failed delivery never stops later ones.
   */
  lemma DeliveryIsBestEffort<C, K, R, A>(impl: AlertImpl<C, K, R, A>, w: MultiWatcher<K, A>, sys: System,
                                          report1: Reporter, report2: Reporter)
    ensures w.RunTrace(impl, sys, report1).result == w.RunTrace(impl, sys, report2).result
    ensures AlertsOf(w.RunTrace(impl, sys, report1).deliveries) == AlertsOf(w.RunTrace(impl, sys, report2).deliveries)
    ensures impl.checker.check(w.checker, sys).Ok? ==>
              AlertsOf(w.RunTrace(impl, sys, report1).deliveries) == Triggered(impl.isTriggered, w.alerts, impl.checker.check(w.checker, sys).value)
  {
    if impl.checker.check(w.checker, sys).Ok? {
      var fired := Triggered(impl.isTriggered, w.alerts, impl.checker.check(w.checker, sys).value);
      AlertsOfDeliveries(report1, fired);
      AlertsOfDeliveries(report2, fired);
    }
  }

  /** The two reporters answer alike to each call of a cycle in which `fired` are handed to them. */
  ghost predicate AgreeOn(report1: Reporter, report2: Reporter, fired: seq<ActiveAlert>)
  {
    forall j :: 0 <= j < |fired| ==> report1(j, fired[j]) == report2(j, fired[j])
  }

  /** Reporters that answer alike to each call produce the same deliveries. */
  lemma {:induction false} DeliveriesAgree(report1: Reporter, report2: Reporter, fired: seq<ActiveAlert>)
    requires AgreeOn(report1, report2, fired)
    ensures Deliveries(report1, fired) == Deliveries(report2, fired)
    decreases |fired|
  {
    if fired != [] {
      var n := |fired| - 1;
      assert forall j :: 0 <= j < n ==> fired[..n][j] == fired[j];
      DeliveriesAgree(report1, report2, fired[..n]);
    }
  }

  /**
   * A cycle keeps no state: two cycles whose checks observe the same result,
   * with reporters that answer alike for the alerts that fire, produce the
   * same trace.
   */
  lemma RunIsStateless<C, K, R, A>(impl: AlertImpl<C, K, R, A>, w: MultiWatcher<K, A>, sys1: System, sys2: System,
                                    report1: Reporter, report2: Reporter)
    requires impl.checker.check(w.checker, sys1) == impl.checker.check(w.checker, sys2)
    requires impl.checker.check(w.checker, sys1).Ok? ==> AgreeOn(report1, report2,
               Triggered(impl.isTriggered, w.alerts, impl.checker.check(w.checker, sys1).value))
    ensures w.RunTrace(impl, sys1, report1) == w.RunTrace(impl, sys2, report2)
  {
    if impl.checker.check(w.checker, sys1).Ok? {
      DeliveriesAgree(report1, report2, Triggered(impl.isTriggered, w.alerts, impl.checker.check(w.checker, sys1).value));
    }
  }

  /** Reading info and warning lines distributes over concatenation of logs. */
  lemma {:induction false} FiringsConcat(front: seq<LogEvent>, back: seq<LogEvent>)
    ensures Firings(front + back) == Firings(front) + Firings(back)
    ensures Warnings(front + back) == Warnings(front) + Warnings(back)
    decreases |back|
  {
    if back == [] {
      assert front + back == front;
    } else {
      var n := |back| - 1;
      assert (front + back)[..|front + back| - 1] == front + back[..n];
      FiringsConcat(front, back[..n]);
    }
  }

  /**
   * The log names every alert handed to the reporter, in order, on an info
   * line, and every error the reporter answered, in order, on a warning line.
   */
  lemma {:induction false} LogRecordsDeliveries(deliveries: seq<Delivery>)
    ensures Firings(LogOf(deliveries)) == AlertsOf(deliveries)
    ensures Warnings(LogOf(deliveries)) == Failures(deliveries)
    decreases |deliveries|
  {
    if deliveries != [] {
      var n := |deliveries| - 1;
      LogRecordsDeliveries(deliveries[..n]);
      FiringsConcat(LogOf(deliveries[..n]), Logged(deliveries[n]));
      var entry := Logged(deliveries[n]);
      assert entry[..1] == [FiringAlert(deliveries[n].alert)];
      FiringsConcat([], [FiringAlert(deliveries[n].alert)]);
      assert [] + [FiringAlert(deliveries[n].alert)] == [FiringAlert(deliveries[n].alert)];
    }
  }

  // ---------------------------------------------------------------------------
  // WatcherEnum and WatcherConfiguration: the closed set of watcher kinds
  // ---------------------------------------------------------------------------

  /** The capability implementations of the two watcher kinds. */
  datatype Plugins = Plugins(
    diskSpace: AlertImpl<DS.Configuration, DS.Checker, DS.CheckResult, DS.Alert>,
    memory: AlertImpl<Mem.Configuration, Mem.Checker, Mem.CheckResult, Mem.Alert>)

  /** The variant tag of a WatcherEnum or a WatcherConfiguration. */
  datatype Variant = DiskSpaceVariant | MemoryVariant

  datatype WatcherEnum =
    | DiskSpace(diskSpace: MultiWatcher<DS.Checker, DS.Alert>)
    | Memory(memory: MultiWatcher<Mem.Checker, Mem.Alert>)
  {
    function Discriminant(): Variant
    {
      match this
      case DiskSpace(_) => DiskSpaceVariant
      case Memory(_) => MemoryVariant
    }

    /** The period of the active variant's watcher. */
    function Period(p: Plugins): (d: Duration)
      ensures DiskSpace? ==> d == p.diskSpace.checker.period(diskSpace.checker)
      ensures Memory? ==> d == p.memory.checker.period(memory.checker)
    {
      match this
      case DiskSpace(d) => d.Period(p.diskSpace.checker)
      case Memory(m) => m.Period(p.memory.checker)
    }

    /** What a cycle of the active variant's watcher does. */
    ghost function RunTrace(p: Plugins, sys: System, report: Reporter): Trace
    {
      match this
      case DiskSpace(d) => d.RunTrace(p.diskSpace, sys, report)
      case Memory(m) => m.RunTrace(p.memory, sys, report)
    }

    /** Runs one cycle of the active variant's watcher. */
    method Run(p: Plugins, sys: System, report: Reporter)
      returns (result: Result<()>, deliveries: seq<Delivery>, log: seq<LogEvent>)
      ensures Trace(result, deliveries, log) == RunTrace(p, sys, report)
    {
      match this
      case DiskSpace(d) =>
        result, deliveries, log := d.Run(p.diskSpace, sys, report);
      case Memory(m) =>
        result, deliveries, log := m.Run(p.memory, sys, report);
    }
  }

  /** The parsed configuration of one watcher, one variant per watcher kind. */
  datatype WatcherConfiguration =
    | DiskSpace(diskSpace: SerializedMultiWatcher<DS.Configuration, DS.Alert>)
    | Memory(memory: SerializedMultiWatcher<Mem.Configuration, Mem.Alert>)
  {
    function Discriminant(): Variant
    {
      match this
      case DiskSpace(_) => DiskSpaceVariant
      case Memory(_) => MemoryVariant
    }

    /** Converts variant for variant, building the watcher from the carried configuration. */
    function Into(p: Plugins): (w: WatcherEnum)
      ensures w.Discriminant() == Discriminant()
      ensures DiskSpace? <==> w.DiskSpace?
    {
      match this
      case DiskSpace(d) => WatcherEnum.DiskSpace(MultiWatcher.New(p.diskSpace.checker, d))
      case Memory(m) => WatcherEnum.Memory(MultiWatcher.New(p.memory.checker, m))
    }

    /** Equality by variant only: the configuration and alerts carried are ignored. */
    function Eq(other: WatcherConfiguration): (equal: bool)
      ensures equal <==> (DiskSpace? && other.DiskSpace?) || (Memory? && other.Memory?)
    {
      Discriminant() == other.Discriminant()
    }

    /** Feeds the variant tag, and nothing else, to a hasher whose state is of type H. */
    function Hash<H>(state: H, write: (H, Variant) -> H): (h: H)
      ensures h == write(state, if DiskSpace? then DiskSpaceVariant else MemoryVariant)
    {
      write(state, Discriminant())
    }
  }

  /** Equality on configurations is an equivalence relation, so a lawful `Eq`. */
  lemma EqIsEquivalence()
    ensures forall a: WatcherConfiguration :: a.Eq(a)
    ensures forall a: WatcherConfiguration, b: WatcherConfiguration :: a.Eq(b) == b.Eq(a)
    ensures forall a: WatcherConfiguration, b: WatcherConfiguration, c: WatcherConfiguration :: a.Eq(b) && b.Eq(c) ==> a.Eq(c)
  {
  }

  /** Two configurations of one kind are equal whatever they carry; configurations of different kinds never are. */
  lemma EqIgnoresContents(d1: SerializedMultiWatcher<DS.Configuration, DS.Alert>,
                          d2: SerializedMultiWatcher<DS.Configuration, DS.Alert>,
                          m1: SerializedMultiWatcher<Mem.Configuration, Mem.Alert>,
                          m2: SerializedMultiWatcher<Mem.Configuration, Mem.Alert>)
    ensures WatcherConfiguration.DiskSpace(d1).Eq(WatcherConfiguration.DiskSpace(d2))
    ensures WatcherConfiguration.Memory(m1).Eq(WatcherConfiguration.Memory(m2))
    ensures !WatcherConfiguration.DiskSpace(d1).Eq(WatcherConfiguration.Memory(m1))
    ensures !WatcherConfiguration.Memory(m1).Eq(WatcherConfiguration.DiskSpace(d1))
  {
  }

  /** Equal configurations hash identically, for every hasher state and hashing step. */
  lemma EqualConfigurationsHashEqually<H>(a: WatcherConfiguration, b: WatcherConfiguration, state: H, write: (H, Variant) -> H)
    requires a.Eq(b)
    ensures a.Hash(state, write) == b.Hash(state, write)
  {
  }

  /** The watcher converted from a configuration advises the period of the checker built from the carried configuration. */
  lemma IntoPeriod(c: WatcherConfiguration, p: Plugins)
    ensures c.Into(p).Period(p) == match c
                                   case DiskSpace(d) => p.diskSpace.checker.period(p.diskSpace.checker.build(d.configuration))
                                   case Memory(m) => p.memory.checker.period(p.memory.checker.build(m.configuration))
  {
  }

  /** The watcher converted from a configuration runs the carried alerts against the checker built from the carried configuration. */
  lemma IntoRun(c: WatcherConfiguration, p: Plugins, sys: System, report: Reporter)
    ensures c.Into(p).RunTrace(p, sys, report) == match c
      case DiskSpace(d) => MultiWatcher(p.diskSpace.checker.build(d.configuration), d.alerts).RunTrace(p.diskSpace, sys, report)
      case Memory(m) => MultiWatcher(p.memory.checker.build(m.configuration), m.alerts).RunTrace(p.memory, sys, report)
  {
  }
}
