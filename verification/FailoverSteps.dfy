/** Backup failover with timer firing split from locking. `Stop` on a timer that has already
    fired does nothing and its result is ignored, so a callback can still be waiting for the
    mutex, or be between clearing its handle and calling out, while reports come in. */
module FailoverSteps {
  import opened Options
  import Failover

  datatype Phase =
    | Pending
    | Stopped
    | Fired     // the callback waits for the mutex
    | Cleared   // it has set its timer field to nil; next: connectBackup or disconnectBackup
    | Done

  datatype Timer = Timer(connect: bool, due: int, phase: Phase)

  /** Timers and backup clients are numbered as they are made. */
  datatype State = State(
    now: int,
    seenGreen: bool,
    connectTimer: Option<nat>,
    disconnectTimer: Option<nat>,
    timers: seq<Timer>,
    dialled: nat,
    closed: set<nat>,
    backup: Option<nat>,
    up: bool,
    since: int,   // when the last change between up and down was reported
    history: seq<Failover.Event>)

  datatype Action = Wait(d: nat) | Up | Down | Fire(timer: nat) | Lock(timer: nat) | Call(timer: nat)

  const START := State(0, false, None, None, [], 0, {}, None, false, 0, [])

  /** time.Timer.Stop: too late once the timer has fired. */
  function StopTimer(timers: seq<Timer>, handle: Option<nat>): seq<Timer> {
    if handle.Some? && handle.value < |timers| && timers[handle.value].phase.Pending?
    then timers[handle.value := timers[handle.value].(phase := Stopped)]
    else timers
  }

  function Report(s: State, up: bool): State {
    s.(up := up, since := if s.up == up then s.since else s.now, history := s.history + [Failover.Event(up, s.now)])
  }

  function OnUp(s: State): State {
    var t := Report(s, true).(timers := StopTimer(s.timers, s.connectTimer), connectTimer := None);
    if !t.seenGreen then t.(seenGreen := true)
    else if t.disconnectTimer.Some? then t
    else t.(disconnectTimer := Some(|t.timers|),
            timers := t.timers + [Timer(false, t.now + Failover.DEBOUNCE, Pending)])
  }

  function OnDown(s: State): State {
    var t := Report(s, false).(timers := StopTimer(s.timers, s.disconnectTimer), disconnectTimer := None);
    if !t.seenGreen || t.connectTimer.Some? then t
    else t.(connectTimer := Some(|t.timers|), timers := t.timers + [Timer(true, t.now + Failover.DEBOUNCE, Pending)])
  }

  predicate Is(s: State, k: nat, phase: Phase) { k < |s.timers| && s.timers[k].phase == phase }

  predicate Enabled(s: State, a: Action) {
    match a
    case Fire(k) => Is(s, k, Pending) && s.timers[k].due <= s.now
    case Lock(k) => Is(s, k, Fired)
    case Call(k) => Is(s, k, Cleared)
    case _ => true
  }

  function At(s: State, k: nat, phase: Phase): State
    requires k < |s.timers|
  {
    s.(timers := s.timers[k := s.timers[k].(phase := phase)])
  }

  function Apply(s: State, a: Action): State
    requires Enabled(s, a)
  {
    match a
    case Wait(d) => s.(now := s.now + d)
    case Up => OnUp(s)
    case Down => OnDown(s)
    case Fire(k) => At(s, k, Fired)
    case Lock(k) =>
      // whatever the field holds by now, the callback clears it
      if s.timers[k].connect then At(s, k, Cleared).(connectTimer := None)
      else At(s, k, Cleared).(disconnectTimer := None)
    case Call(k) =>
      var t := At(s, k, Done);
      if s.timers[k].connect then
        if s.backup.Some? then t else t.(backup := Some(s.dialled), dialled := s.dialled + 1)
      else
        if s.backup.None? then t else t.(backup := None, closed := s.closed + {s.backup.value})
  }

  ghost predicate Next(s: State, t: State) { exists a :: Enabled(s, a) && t == Apply(s, a) }

  ghost predicate IsRun(run: seq<State>) {
    |run| > 0 && run[0] == START && forall i :: 0 < i < |run| ==> Next(run[i - 1], run[i])
  }

  /** The clients not yet closed. */
  predicate IsOpen(s: State, client: nat) { client < s.dialled && client !in s.closed }

  ghost predicate ClientsOk(s: State) {
    && (forall client: nat :: IsOpen(s, client) <==> s.backup == Some(client))
    && (forall client :: client in s.closed ==> client < s.dialled)
    && |s.closed| + (if s.backup.Some? then 1 else 0) == s.dialled
  }

  lemma DialKeepsClients(s: State, t: State)
    requires ClientsOk(s) && s.backup.None?
    requires t.backup == Some(s.dialled) && t.dialled == s.dialled + 1 && t.closed == s.closed
    ensures ClientsOk(t)
  {
    forall client: nat ensures IsOpen(t, client) <==> t.backup == Some(client) {
      assert IsOpen(s, client) <==> s.backup == Some(client);
    }
  }

  lemma CloseKeepsClients(s: State, t: State)
    requires ClientsOk(s) && s.backup.Some?
    requires t.backup == None && t.dialled == s.dialled && t.closed == s.closed + {s.backup.value}
    ensures ClientsOk(t)
  {
    assert IsOpen(s, s.backup.value);
    forall client: nat ensures !IsOpen(t, client) {
      assert IsOpen(s, client) <==> s.backup == Some(client);
    }
  }

  lemma SameClients(s: State, t: State)
    requires ClientsOk(s) && t.backup == s.backup && t.dialled == s.dialled && t.closed == s.closed
    ensures ClientsOk(t)
  {
    forall client: nat ensures IsOpen(t, client) <==> t.backup == Some(client) {
      assert IsOpen(s, client) <==> s.backup == Some(client);
    }
  }

  lemma CallKeepsClients(s: State, k: nat)
    requires ClientsOk(s) && Enabled(s, Call(k))
    ensures ClientsOk(Apply(s, Call(k)))
  {
    var t := Apply(s, Call(k));
    if s.timers[k].connect == s.backup.Some? {
      SameClients(s, t);
    } else if s.timers[k].connect {
      DialKeepsClients(s, t);
    } else {
      CloseKeepsClients(s, t);
    }
  }

  lemma OtherKeepsClients(s: State, a: Action)
    requires ClientsOk(s) && Enabled(s, a) && !a.Call?
    ensures ClientsOk(Apply(s, a))
  {
    SameClients(s, Apply(s, a));
  }

  /** However callbacks and reports interleave, there is at most one backup client, it is the
      one the subscriber holds, and every other client dialled so far was closed once. */
  lemma {:induction false} AtMostOneBackupClient(run: seq<State>, i: nat)
    requires IsRun(run) && i < |run|
    ensures ClientsOk(run[i])
  {
    if i > 0 {
      AtMostOneBackupClient(run, i - 1);
      assert Next(run[i - 1], run[i]);
      var a :| Enabled(run[i - 1], a) && run[i] == Apply(run[i - 1], a);
      if a.Call? {
        CallKeepsClients(run[i - 1], a.timer);
      } else {
        OtherKeepsClients(run[i - 1], a);
      }
    }
  }

  lemma Extend(run: seq<State>, a: Action) returns (longer: seq<State>)
    requires IsRun(run) && Enabled(run[|run| - 1], a)
    ensures run <= longer && IsRun(longer) && longer[|longer| - 1] == Apply(run[|run| - 1], a)
  {
    longer := run + [Apply(run[|run| - 1], a)];
    assert Next(run[|run| - 1], longer[|longer| - 1]);
  }

  /** A stale activation: the connect timer fires, the primary comes back before its callback
      gets the mutex, and the backup is dialled although the primary is up. */
  lemma StaleActivation() returns (run: seq<State>)
    ensures IsRun(run)
    ensures run[|run| - 1].up && run[|run| - 1].backup == Some(0)
  {
    run := [START];
    run := Extend(run, Up);
    run := Extend(run, Down);
    run := Extend(run, Wait(Failover.DEBOUNCE));
    run := Extend(run, Fire(0));
    run := Extend(run, Up);
    run := Extend(run, Lock(0));
    run := Extend(run, Call(0));
  }

  /** Clearing the field can orphan a newer timer: the fired disconnect callback sets the field
      to nil after another disconnect timer was stored in it. */
  lemma OrphanedTimer() returns (run: seq<State>)
    ensures IsRun(run)
    ensures var s := run[|run| - 1];
            && s == State(Failover.DEBOUNCE, true, None, None,
                          [Timer(false, Failover.DEBOUNCE, Cleared), Timer(true, 2 * Failover.DEBOUNCE, Stopped),
                           Timer(false, 2 * Failover.DEBOUNCE, Pending)],
                          0, {}, None, true, Failover.DEBOUNCE,
                          [Failover.Event(true, 0), Failover.Event(true, 0), Failover.Event(false, Failover.DEBOUNCE),
                           Failover.Event(true, Failover.DEBOUNCE)])
  {
    run := [START];
    run := Extend(run, Up);
    run := Extend(run, Up);
    run := Extend(run, Wait(Failover.DEBOUNCE));
    run := Extend(run, Fire(0));
    run := Extend(run, Down);
    run := Extend(run, Up);
    run := Extend(run, Lock(0));
  }

  /** The orphan cannot be stopped by the next down report, and hangs up the backup in the
      middle of an outage: in the end the primary has been down for a full debounce without
      interruption, nothing is pending, and there is no backup. */
  lemma OrphanHangsUpBackup() returns (run: seq<State>)
    ensures IsRun(run)
    ensures var s := run[|run| - 1];
            && !s.up && s.now - s.since >= Failover.DEBOUNCE && s.seenGreen && s.backup.None?
            && s.connectTimer.None? && s.disconnectTimer.None?
            && forall k :: 0 <= k < |s.timers| ==> s.timers[k].phase.Done? || s.timers[k].phase.Stopped?
  {
    run := OrphanedTimer();
    run := Extend(run, Call(0));
    run := Extend(run, Down);
    run := Extend(run, Wait(Failover.DEBOUNCE));
    run := Extend(run, Fire(3));
    run := Extend(run, Lock(3));
    run := Extend(run, Call(3));
    run := Extend(run, Fire(2));
    run := Extend(run, Lock(2));
    run := Extend(run, Call(2));
  }

  // ---- When the backup still follows the history ------------------------------------

  predicate Live(t: Timer) { t.phase.Pending? || t.phase.Fired? || t.phase.Cleared? }

  predicate Overdue(t: Timer, now: int) { t.phase.Pending? && t.due <= now }

  /** Its callback is still to run. */
  predicate Running(t: Timer, now: int) { t.phase.Fired? || t.phase.Cleared? || Overdue(t, now) }

  predicate AnyRunning(s: State) { exists i :: 0 <= i < |s.timers| && Running(s.timers[i], s.now) }

  function Handle(s: State, connect: bool): Option<nat> { if connect then s.connectTimer else s.disconnectTimer }

  /** Only timers of one kind are live. One of them at most is pending or fired, and has the
      handle; the others have cleared it. */
  ghost predicate Held(s: State, kind: bool) {
    && (forall i :: 0 <= i < |s.timers| && Live(s.timers[i]) ==>
          s.timers[i].connect == kind && s.history != [] && s.history[|s.history| - 1].up == !kind)
    && (forall i :: 0 <= i < |s.timers| ==>
          ((s.timers[i].phase.Pending? || s.timers[i].phase.Fired?) <==> Handle(s, kind) == Some(i)))
    && (Handle(s, kind).Some? ==> Handle(s, kind).value < |s.timers|)
    && Handle(s, !kind) == None
    && (s.timers != [] ==> s.seenGreen)
  }

  /** When the timer with the handle is due, unless it already was. */
  function PendingDue(s: State, kind: bool): Option<int> {
    var h := Handle(s, kind);
    if h.Some? && h.value < |s.timers| && s.timers[h.value].phase.Pending? && s.now < s.timers[h.value].due
    then Some(s.timers[h.value].due) else None
  }

  /** The machine whose timers fire when they are due, in which every callback still to run has
      run. */
  function View(s: State, kind: bool): Failover.Machine {
    Failover.Machine(s.seenGreen,
                     if kind then PendingDue(s, true) else None, if kind then None else PendingDue(s, false),
                     if AnyRunning(s) then kind else s.backup.Some?)
  }

  ghost predicate Inv(s: State, kind: bool) { Held(s, kind) && Failover.Agrees(View(s, kind), s.history, s.now) }

  function OnReport(s: State, up: bool): State { if up then OnUp(s) else OnDown(s) }

  /** A report that finds a timer of the other kind fired, with its callback still to run, or
      overdue although its callback would change something. */
  predicate Unsafe(s: State, up: bool) {
    exists i :: 0 <= i < |s.timers| && s.timers[i].connect == up
      && (s.timers[i].phase.Fired? || s.timers[i].phase.Cleared?
          || (Overdue(s.timers[i], s.now) && s.backup.Some? != up))
  }

  predicate SafeIn(s: State, a: Action) { (a.Up? ==> !Unsafe(s, true)) && (a.Down? ==> !Unsafe(s, false)) }

  /** Waiting makes the pending timer overdue, or leaves everything as it is. */
  lemma RunningAfterWait(s: State, d: nat, kind: bool)
    requires Held(s, kind)
    ensures var t, due := Apply(s, Wait(d)), PendingDue(s, kind);
            && Held(t, kind)
            && (AnyRunning(t) <==> AnyRunning(s) || (due.Some? && due.value <= t.now))
            && PendingDue(t, kind) == if due.Some? && t.now < due.value then due else None
  {
    var t := Apply(s, Wait(d));
    if i :| 0 <= i < |s.timers| && Running(s.timers[i], s.now) {
      assert Running(t.timers[i], t.now);
    }
    if PendingDue(s, kind).Some? && PendingDue(s, kind).value <= t.now {
      assert Running(t.timers[Handle(s, kind).value], t.now);
    }
    if i :| 0 <= i < |t.timers| && Running(t.timers[i], t.now) && !Running(s.timers[i], s.now) {
      assert Handle(s, kind) == Some(i);
    }
  }

  lemma WaitKeepsInv(s: State, d: nat, kind: bool)
    requires Inv(s, kind)
    ensures Inv(Apply(s, Wait(d)), kind)
  {
    ViewAfterWait(s, d, kind);
    Failover.ElapseAgrees(View(s, kind), s.history, s.now, s.now + d);
  }

  lemma ViewAfterWait(s: State, d: nat, kind: bool)
    requires Held(s, kind)
    ensures Held(Apply(s, Wait(d)), kind)
    ensures View(Apply(s, Wait(d)), kind) == Failover.OnElapse(View(s, kind), s.now + d)
  {
    RunningAfterWait(s, d, kind);
  }

  /** A step of one callback leaves the view as it is. */
  lemma SameView(s: State, t: State, kind: bool)
    requires Inv(s, kind) && Held(t, kind) && t.history == s.history && t.now == s.now && t.seenGreen == s.seenGreen
    requires PendingDue(t, kind) == PendingDue(s, kind)
    requires (if AnyRunning(t) then kind else t.backup.Some?) == if AnyRunning(s) then kind else s.backup.Some?
    ensures Inv(t, kind)
  {
  }

  lemma FireKeepsInv(s: State, k: nat, kind: bool)
    requires Inv(s, kind) && Enabled(s, Fire(k))
    ensures Inv(Apply(s, Fire(k)), kind)
  {
    var t := Apply(s, Fire(k));
    assert Running(s.timers[k], s.now) && Running(t.timers[k], t.now);
    SameView(s, t, kind);
  }

  lemma LockKeepsInv(s: State, k: nat, kind: bool)
    requires Inv(s, kind) && Enabled(s, Lock(k))
    ensures Inv(Apply(s, Lock(k)), kind)
  {
    var t := Apply(s, Lock(k));
    assert Running(s.timers[k], s.now) && Running(t.timers[k], t.now);
    assert Live(s.timers[k]) && Handle(s, kind) == Some(k);
    SameView(s, t, kind);
  }

  lemma CallKeepsHeld(s: State, k: nat, kind: bool)
    requires Held(s, kind) && Enabled(s, Call(k))
    ensures var t := Apply(s, Call(k));
            && Held(t, kind) && t.backup.Some? == kind && PendingDue(t, kind) == PendingDue(s, kind)
            && t.history == s.history && t.now == s.now && t.seenGreen == s.seenGreen
  {
    assert Live(s.timers[k]);
    var t := Apply(s, Call(k));
    assert t.timers == s.timers[k := s.timers[k].(phase := Done)];
  }

  lemma CallKeepsInv(s: State, k: nat, kind: bool)
    requires Inv(s, kind) && Enabled(s, Call(k))
    ensures Inv(Apply(s, Call(k)), kind)
  {
    assert Running(s.timers[k], s.now);
    CallKeepsHeld(s, k, kind);
    SameView(s, Apply(s, Call(k)), kind);
  }

  lemma ReportedHeld(s: State, up: bool)
    requires Held(s, !up)
    ensures var t := Report(s, up);
            Held(t, !up) && PendingDue(t, !up) == PendingDue(s, !up) && (AnyRunning(t) <==> AnyRunning(s))
  {
  }

  /** The report finds the timer of its kind holding the handle, and keeps it. */
  lemma KeptTimerKeepsInv(s: State, up: bool)
    requires Inv(s, !up) && Handle(s, !up).Some?
    ensures Inv(OnReport(s, up), !up)
  {
    var m, h := View(s, !up), s.history;
    var own := Handle(s, !up).value;
    assert OnReport(s, up) == Report(s, up);
    ReportedHeld(s, up);
    assert View(Report(s, up), !up) == m;
    if s.timers[own].phase.Pending? && s.now < s.timers[own].due {
      if up {
        Failover.UpAgrees(m, h, s.now);
      } else {
        Failover.DownAgrees(m, h, s.now);
      }
    } else {
      assert Live(s.timers[own]);
      Failover.RepeatAgrees(m, h, s.now, up);
    }
  }

  /** The machine after a report that finds no timer of its kind pending. */
  function Armed(m: Failover.Machine, up: bool, now: int): Failover.Machine {
    if up then Failover.OnUp(m, now) else Failover.OnDown(m, now)
  }

  lemma ArmedAgrees(m: Failover.Machine, h: seq<Failover.Event>, up: bool, now: int)
    requires Failover.Agrees(m, h, now)
    ensures Failover.Agrees(Armed(m, up, now), h + [Failover.Event(up, now)], now)
  {
    if up {
      Failover.UpAgrees(m, h, now);
    } else {
      Failover.DownAgrees(m, h, now);
    }
  }

  /** There is none, and the primary has been up: the report starts one. */
  lemma NewTimerHeld(s: State, up: bool)
    requires Held(s, !up) && Handle(s, !up).None? && s.seenGreen
    ensures var t := OnReport(s, up);
            && Held(t, !up) && PendingDue(t, !up) == Some(s.now + Failover.DEBOUNCE)
            && (AnyRunning(t) <==> AnyRunning(s)) && t.backup == s.backup && t.seenGreen
            && t.history == s.history + [Failover.Event(up, s.now)] && t.now == s.now
  {
    var t := OnReport(s, up);
    assert t.timers == s.timers + [Timer(!up, s.now + Failover.DEBOUNCE, Pending)];
    if i :| 0 <= i < |s.timers| && Running(s.timers[i], s.now) {
      assert Running(t.timers[i], t.now);
    }
  }

  /** It has not. */
  lemma FirstReportHeld(s: State, up: bool)
    requires Held(s, !up) && !s.seenGreen
    ensures var t := OnReport(s, up);
            && Held(t, !up) && PendingDue(t, !up) == None && !AnyRunning(t) && !AnyRunning(s)
            && t.backup == s.backup && t.seenGreen == up
            && t.history == s.history + [Failover.Event(up, s.now)] && t.now == s.now
  {
    assert s.timers == [];
  }

  lemma SameKindKeepsInv(s: State, up: bool)
    requires Inv(s, !up)
    ensures Inv(OnReport(s, up), !up)
  {
    if Handle(s, !up).Some? {
      KeptTimerKeepsInv(s, up);
    } else {
      if s.seenGreen {
        NewTimerHeld(s, up);
      } else {
        FirstReportHeld(s, up);
      }
      ArmedAgrees(View(s, !up), s.history, up, s.now);
      assert View(OnReport(s, up), !up) == Armed(View(s, !up), up, s.now);
    }
  }

  /** With no callback of the other kind under way the report stops its timer. */
  lemma OtherKindStops(s: State, up: bool)
    requires Held(s, up) && !Unsafe(s, up)
    ensures Held(OnReport(s, up), !up) && !AnyRunning(OnReport(s, up))
    ensures AnyRunning(s) ==> s.backup.Some? == up
    ensures OnReport(s, up).seenGreen == (s.seenGreen || up) && OnReport(s, up).backup == s.backup
    ensures OnReport(s, up).history == s.history + [Failover.Event(up, s.now)] && OnReport(s, up).now == s.now
    ensures PendingDue(OnReport(s, up), !up) == if s.seenGreen then Some(s.now + Failover.DEBOUNCE) else None
  {
    var t := OnReport(s, up);
    if i :| 0 <= i < |s.timers| && Running(s.timers[i], s.now) {
      assert Live(s.timers[i]) && Overdue(s.timers[i], s.now);
    }
    forall i | 0 <= i < |s.timers| ensures !Live(t.timers[i]) {
      if Live(s.timers[i]) {
        assert Handle(s, up) == Some(i);
      }
    }
  }

  lemma OtherKindKeepsInv(s: State, up: bool)
    requires Inv(s, up) && !Unsafe(s, up)
    ensures Inv(OnReport(s, up), !up)
  {
    OtherKindStops(s, up);
    ArmedAgrees(View(s, up), s.history, up, s.now);
    assert View(OnReport(s, up), !up) == Armed(View(s, up), up, s.now);
  }

  lemma SafeReportKeepsInv(s: State, up: bool, kind: bool)
    requires Inv(s, kind) && !Unsafe(s, up)
    ensures Inv(OnReport(s, up), !up)
  {
    if kind == !up {
      SameKindKeepsInv(s, up);
    } else {
      OtherKindKeepsInv(s, up);
    }
  }

  lemma SafeStepKeepsInv(s: State, a: Action, kind: bool) returns (next: bool)
    requires Inv(s, kind) && Enabled(s, a) && SafeIn(s, a)
    ensures Inv(Apply(s, a), next)
  {
    next := kind;
    match a {
      case Wait(d) => WaitKeepsInv(s, d, kind);
      case Fire(k) => FireKeepsInv(s, k, kind);
      case Lock(k) => LockKeepsInv(s, k, kind);
      case Call(k) => CallKeepsInv(s, k, kind);
      case Up =>
        SafeReportKeepsInv(s, true, kind);
        next := false;
      case Down =>
        SafeReportKeepsInv(s, false, kind);
        next := true;
    }
  }

  ghost predicate SafeNext(s: State, t: State) { exists a :: Enabled(s, a) && t == Apply(s, a) && SafeIn(s, a) }

  /** A run in which no report is unsafe. */
  ghost predicate IsSafeRun(run: seq<State>) {
    |run| > 0 && run[0] == START && forall i :: 0 < i < |run| ==> SafeNext(run[i - 1], run[i])
  }

  lemma {:induction false} SafeRunKeepsInv(run: seq<State>, i: nat) returns (kind: bool)
    requires IsSafeRun(run) && i < |run|
    ensures Inv(run[i], kind)
  {
    if i == 0 {
      kind := true;
      NothingAgrees();
    } else {
      kind := SafeRunKeepsInv(run, i - 1);
      assert SafeNext(run[i - 1], run[i]);
      var a :| Enabled(run[i - 1], a) && run[i] == Apply(run[i - 1], a) && SafeIn(run[i - 1], a);
      kind := SafeStepKeepsInv(run[i - 1], a, kind);
    }
  }

  lemma NothingAgrees()
    ensures Inv(START, true)
  {
    Failover.NoBackupBeforeUp([], 0);
  }

  /** In every such run, with firing, locking and calling split and delayed at will: the two
      handles are never both set; when no callback is still to run, the backup is held exactly
      when the history of reports wants it; and a callback still to run will make it so. */
  lemma SafeRunFollowsHistory(run: seq<State>)
    requires IsSafeRun(run)
    ensures var s := run[|run| - 1];
            && !(s.connectTimer.Some? && s.disconnectTimer.Some?)
            && (!AnyRunning(s) ==> (s.backup.Some? <==> Failover.ActiveAt(s.history, s.now)))
            && (forall i :: 0 <= i < |s.timers| && Running(s.timers[i], s.now) ==>
                  (s.timers[i].connect <==> Failover.ActiveAt(s.history, s.now)))
  {
    var s := run[|run| - 1];
    var kind := SafeRunKeepsInv(run, |run| - 1);
    forall i | 0 <= i < |s.timers| && Running(s.timers[i], s.now)
      ensures s.timers[i].connect <==> Failover.ActiveAt(s.history, s.now)
    {
      assert Live(s.timers[i]);
    }
  }

  // ---- An unsafe report can be the last one -----------------------------------------

  ghost predicate QuietNext(s: State, t: State) { exists a :: Enabled(s, a) && !a.Up? && !a.Down? && t == Apply(s, a) }

  /** Timers and callbacks go on without a further report. */
  ghost predicate IsQuietPath(path: seq<State>) {
    |path| > 0 && forall i :: 0 < i < |path| ==> QuietNext(path[i - 1], path[i])
  }

  /** The backup is wrong, and no callback still to run will put it right. */
  ghost predicate StaysWrong(s: State) {
    && (s.backup.Some? <==> !Failover.ActiveAt(s.history, s.now))
    && forall i :: 0 <= i < |s.timers| && Running(s.timers[i], s.now) ==> s.timers[i].connect == s.backup.Some?
  }

  lemma {:induction false} QuietPathKeepsInv(path: seq<State>, i: nat, kind: bool) returns (last: bool)
    requires IsQuietPath(path) && i < |path| && Inv(path[0], kind)
    ensures Inv(path[i], last)
  {
    last := kind;
    if i > 0 {
      last := QuietPathKeepsInv(path, i - 1, kind);
      assert QuietNext(path[i - 1], path[i]);
      var a :| Enabled(path[i - 1], a) && !a.Up? && !a.Down? && path[i] == Apply(path[i - 1], a);
      last := SafeStepKeepsInv(path[i - 1], a, last);
    }
  }

  lemma InvIsNotWrong(s: State, kind: bool)
    requires Inv(s, kind)
    ensures !StaysWrong(s)
  {
    if i :| 0 <= i < |s.timers| && Running(s.timers[i], s.now) {
      assert Live(s.timers[i]);
    }
  }

  lemma QuietStep(path: seq<State>, a: Action) returns (longer: seq<State>)
    requires IsQuietPath(path) && Enabled(path[|path| - 1], a) && !a.Up? && !a.Down?
    ensures IsQuietPath(longer) && longer[0] == path[0] && longer[|longer| - 1] == Apply(path[|path| - 1], a)
  {
    longer := path + [Apply(path[|path| - 1], a)];
    assert QuietNext(path[|path| - 1], longer[|longer| - 1]);
  }

  /** A fired timer runs to the end of its callback; nothing else changes but its handle. */
  lemma RunsOut(path: seq<State>, k: nat) returns (longer: seq<State>)
    requires IsQuietPath(path)
    requires var s := path[|path| - 1]; k < |s.timers| && Running(s.timers[k], s.now)
    ensures IsQuietPath(longer) && longer[0] == path[0]
    ensures var s, t := path[|path| - 1], longer[|longer| - 1];
            && t.timers == s.timers[k := s.timers[k].(phase := Done)]
            && t.backup.Some? == s.timers[k].connect && t.history == s.history && t.now == s.now
  {
    var s := path[|path| - 1];
    longer := path;
    if s.timers[k].phase.Pending? {
      longer := QuietStep(longer, Fire(k));
    }
    if longer[|longer| - 1].timers[k].phase.Fired? {
      longer := QuietStep(longer, Lock(k));
    }
    longer := QuietStep(longer, Call(k));
    assert longer[|longer| - 1].timers == s.timers[k := s.timers[k].(phase := Done)];
  }

  /** The report itself: the callback under way goes on, and a timer of the report's kind starts. */
  lemma ReportStartsTimer(s: State, kind: bool, i: nat)
    requires Held(s, kind) && i < |s.timers| && (s.timers[i].phase.Fired? || s.timers[i].phase.Cleared?)
    ensures var t := OnReport(s, kind);
            && |t.timers| == |s.timers| + 1 && t.timers[i] == s.timers[i] && s.timers[i].connect == kind
            && t.timers[|s.timers|] == Timer(!kind, s.now + Failover.DEBOUNCE, Pending)
            && t.now == s.now && t.history == s.history + [Failover.Event(kind, s.now)]
            && forall j :: 0 <= j < |s.timers| && Live(t.timers[j]) ==> t.timers[j].connect == kind
  {
    assert Live(s.timers[i]);
    var t := OnReport(s, kind);
    forall j | 0 <= j < |s.timers| && Live(t.timers[j]) ensures t.timers[j].connect == kind {
      assert Live(s.timers[j]);
    }
  }

  /** The new timer runs out first, the old callback last. */
  lemma OldCallbackLast(s: State, kind: bool, i: nat) returns (path: seq<State>)
    requires Inv(s, kind) && i < |s.timers| && (s.timers[i].phase.Fired? || s.timers[i].phase.Cleared?)
    ensures IsQuietPath(path) && path[0] == OnReport(s, kind) && StaysWrong(path[|path| - 1])
  {
    assert Live(s.timers[i]);
    ReportStartsTimer(s, kind, i);
    path := [OnReport(s, kind)];
    path := QuietStep(path, Wait(Failover.DEBOUNCE));
    path := RunsOut(path, |s.timers|);
    path := RunsOut(path, i);
    var t := path[|path| - 1];
    FullStretch(s.history, kind, s.now);
    assert forall j :: 0 <= j < |t.timers| && Running(t.timers[j], t.now) ==>
      Live(OnReport(s, kind).timers[j]) && j < |s.timers|;
  }

  /** A new stretch that has lasted decides. */
  lemma FullStretch(h: seq<Failover.Event>, up: bool, now: int)
    requires h != [] && h[|h| - 1].up != up
    ensures Failover.ActiveAt(h + [Failover.Event(up, now)], now + Failover.DEBOUNCE) <==> !up
  {
    var g := h + [Failover.Event(up, now)];
    Failover.LastStartSnoc(h, Failover.Event(up, now));
    Failover.ActiveByLastStretch(g, now + Failover.DEBOUNCE);
  }

  /** An overdue timer is stopped although it should have fired. */
  lemma StoppedTooLate(s: State, kind: bool, i: nat)
    requires Inv(s, kind) && i < |s.timers| && Overdue(s.timers[i], s.now) && s.backup.Some? != kind
    requires forall j :: 0 <= j < |s.timers| ==> !s.timers[j].phase.Fired? && !s.timers[j].phase.Cleared?
    ensures StaysWrong(OnReport(s, kind))
  {
    var t := OnReport(s, kind);
    assert Live(s.timers[i]) && Running(s.timers[i], s.now);
    Failover.ReportKeepsActive(s.history, Failover.Event(kind, s.now));
    forall j | 0 <= j < |t.timers| ensures !Running(t.timers[j], t.now) {
      if j < |s.timers| && Live(s.timers[j]) {
        assert Handle(s, kind) == Some(j);
      }
    }
  }

  lemma UnsafeGoesWrong(s: State, up: bool, kind: bool) returns (path: seq<State>)
    requires Inv(s, kind) && Unsafe(s, up)
    ensures IsQuietPath(path) && path[0] == OnReport(s, up) && StaysWrong(path[|path| - 1])
  {
    var k :| 0 <= k < |s.timers| && s.timers[k].connect == up
      && (s.timers[k].phase.Fired? || s.timers[k].phase.Cleared?
          || (Overdue(s.timers[k], s.now) && s.backup.Some? != up));
    assert Live(s.timers[k]);
    if i :| 0 <= i < |s.timers| && (s.timers[i].phase.Fired? || s.timers[i].phase.Cleared?) {
      path := OldCallbackLast(s, kind, i);
    } else {
      StoppedTooLate(s, kind, k);
      path := [OnReport(s, up)];
    }
  }

  /** The condition is exact: after a safe run, a report can be the last one and leave the backup
      wrong for good if and only if it is unsafe. */
  lemma UnsafeExactly(run: seq<State>, up: bool)
    requires IsSafeRun(run)
    ensures Unsafe(run[|run| - 1], up) <==>
            exists path :: IsQuietPath(path) && path[0] == OnReport(run[|run| - 1], up) && StaysWrong(path[|path| - 1])
  {
    var s := run[|run| - 1];
    var kind := SafeRunKeepsInv(run, |run| - 1);
    if Unsafe(s, up) {
      var path := UnsafeGoesWrong(s, up, kind);
    } else {
      SafeReportKeepsInv(s, up, kind);
      forall path | IsQuietPath(path) && path[0] == OnReport(s, up) ensures !StaysWrong(path[|path| - 1]) {
        var last := QuietPathKeepsInv(path, |path| - 1, !up);
        InvIsNotWrong(path[|path| - 1], last);
      }
    }
  }
}
