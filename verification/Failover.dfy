/** Backup broker failover (internal/mqttbroker): the backup is dialled after the primary has
    been down for a full debounce and hung up after it has been up for one.

    `BackupFailover` is the code's two-timer machine, driven by a clock that fires a timer the
    moment it is due; it is proved to agree at every moment with `ActiveAt`, a statement about
    the history of up and down events that mentions no timer. `FailoverSteps` then lets a
    fired timer wait for the mutex. */
module Failover {
  import opened Options

  const DEBOUNCE := 60_000

  /** One report about the primary: connected or not, and when. */
  datatype Event = Event(up: bool, at: int)

  /** A stretch is a maximal run of equal reports; it starts here. */
  predicate Starts(h: seq<Event>, j: nat)
    requires j < |h|
  {
    j == 0 || h[j - 1].up != h[j].up
  }

  /** When the stretch starting at `j` ended: at the next opposite report, or not yet. */
  function EndOf(h: seq<Event>, j: nat, now: int): int
    requires j < |h|
    decreases |h| - j
  {
    if j + 1 == |h| then now
    else if h[j + 1].up != h[j].up then h[j + 1].at
    else EndOf(h, j + 1, now)
  }

  predicate Lasted(h: seq<Event>, j: nat, now: int)
    requires j < |h|
  {
    Starts(h, j) && EndOf(h, j, now) - h[j].at >= DEBOUNCE
  }

  /** A full debounce of down, after the primary had been up at least once. */
  predicate QualifyingDown(h: seq<Event>, j: nat, now: int)
    requires j < |h|
  {
    !h[j].up && j > 0 && Lasted(h, j, now)
  }

  predicate QualifyingUp(h: seq<Event>, j: nat, now: int)
    requires j < |h|
  {
    h[j].up && Lasted(h, j, now)
  }

  /** The backup is wanted when the last stretch that lasted was a qualifying down one. */
  ghost predicate ActiveAt(h: seq<Event>, now: int) {
    exists j :: 0 <= j < |h| && QualifyingDown(h, j, now)
      && forall k :: j < k < |h| ==> !QualifyingUp(h, k, now)
  }

  ghost predicate Ordered(h: seq<Event>, now: int) {
    && (forall i, j :: 0 <= i <= j < |h| ==> h[i].at <= h[j].at)
    && (forall i :: 0 <= i < |h| ==> h[i].at <= now)
  }

  /** Where the stretch in progress started. */
  function LastStart(h: seq<Event>): (j: nat)
    requires h != []
    ensures j < |h| && Starts(h, j)
    ensures forall i :: j <= i < |h| ==> h[i].up == h[|h| - 1].up
  {
    if |h| == 1 || h[|h| - 2].up != h[|h| - 1].up then |h| - 1
    else
      assert h[..|h| - 1][|h| - 2] == h[|h| - 2];
      LastStart(h[..|h| - 1])
  }

  lemma {:induction false} SameKind(h: seq<Event>, i: nat, k: nat)
    requires i <= k < |h| && forall l :: i < l <= k ==> !Starts(h, l)
    ensures h[k].up == h[i].up
  {
    if i < k {
      SameKind(h, i, k - 1);
      assert !Starts(h, k);
    }
  }

  /** The stretch in progress has no end yet; later stretches do not exist. */
  lemma {:induction false} EndOfLast(h: seq<Event>, j: nat, now: int)
    requires j < |h| && forall i :: j <= i < |h| ==> h[i].up == h[|h| - 1].up
    ensures EndOf(h, j, now) == now
    decreases |h| - j
  {
    if j + 1 < |h| {
      EndOfLast(h, j + 1, now);
    }
  }

  /** Earlier stretches do not depend on what came after them. */
  lemma {:induction false} EndOfPrefix(h: seq<Event>, i: nat, n: nat, now: int)
    requires i < n < |h| && Starts(h, n)
    ensures EndOf(h, i, now) == EndOf(h[..n], i, h[n].at)
    decreases n - i
  {
    if i + 1 < n {
      EndOfPrefix(h, i + 1, n, now);
    }
  }

  lemma EarlierStretches(h: seq<Event>, now: int)
    requires h != []
    ensures var n := LastStart(h);
            forall i :: 0 <= i < n ==>
              && QualifyingDown(h, i, now) == QualifyingDown(h[..n], i, h[n].at)
              && QualifyingUp(h, i, now) == QualifyingUp(h[..n], i, h[n].at)
  {
    var n := LastStart(h);
    forall i | 0 <= i < n
      ensures QualifyingDown(h, i, now) == QualifyingDown(h[..n], i, h[n].at)
      ensures QualifyingUp(h, i, now) == QualifyingUp(h[..n], i, h[n].at)
    {
      EndOfPrefix(h, i, n, now);
    }
  }

  /** The stretch in progress decides once it has lasted; until then the earlier ones do. */
  lemma ActiveByLastStretch(h: seq<Event>, now: int)
    requires h != []
    ensures var n := LastStart(h);
            ActiveAt(h, now) <==>
              if now - h[n].at >= DEBOUNCE then !h[n].up && n > 0 else ActiveAt(h[..n], h[n].at)
  {
    var n := LastStart(h);
    EndOfLast(h, n, now);
    EarlierStretches(h, now);
    assert forall i :: n < i < |h| ==> !Starts(h, i);
    if now - h[n].at >= DEBOUNCE {
      if !h[n].up && n > 0 {
        assert QualifyingDown(h, n, now);
      } else if h[n].up {
        assert QualifyingUp(h, n, now);
      }
    } else {
      if ActiveAt(h, now) {
        var j :| 0 <= j < |h| && QualifyingDown(h, j, now) && forall k :: j < k < |h| ==> !QualifyingUp(h, k, now);
        assert j < n;
        assert QualifyingDown(h[..n], j, h[n].at);
        forall k | j < k < n ensures !QualifyingUp(h[..n], k, h[n].at) {
          assert !QualifyingUp(h, k, now);
        }
      }
      if ActiveAt(h[..n], h[n].at) {
        var j :| 0 <= j < n && QualifyingDown(h[..n], j, h[n].at)
          && forall k :: j < k < n ==> !QualifyingUp(h[..n], k, h[n].at);
        assert QualifyingDown(h, j, now);
        forall k | j < k < |h| ensures !QualifyingUp(h, k, now) {
          assert k < n ==> !QualifyingUp(h[..n], k, h[n].at);
        }
      }
    }
  }

  lemma LastStartSnoc(h: seq<Event>, e: Event)
    ensures LastStart(h + [e]) == if h != [] && h[|h| - 1].up == e.up then LastStart(h) else |h|
  {
    assert (h + [e])[..|h|] == h;
  }

  /** A report by itself changes nothing: only the time that passes after it does. */
  lemma ReportKeepsActive(h: seq<Event>, e: Event)
    requires Ordered(h, e.at)
    ensures ActiveAt(h + [e], e.at) <==> ActiveAt(h, e.at)
  {
    var g := h + [e];
    LastStartSnoc(h, e);
    ActiveByLastStretch(g, e.at);
    var n := LastStart(g);
    if n == |h| {
      assert g[..n] == h;
    } else {
      ActiveByLastStretch(h, e.at);
      assert g[..n] == h[..n] && g[n] == h[n];
    }
  }

  // ---- The machine ------------------------------------------------------------------

  ghost predicate SeenUp(h: seq<Event>) { exists i :: 0 <= i < |h| && h[i].up }

  /** The fields of the machine: whether the primary was ever up, when each pending timer is
      due, and whether the subscriber holds a backup client. */
  datatype Machine = Machine(seenGreen: bool, connectTimer: Option<int>, disconnectTimer: Option<int>, backup: bool)

  function OnUp(m: Machine, now: int): Machine {
    if !m.seenGreen then m.(seenGreen := true, connectTimer := None)
    else m.(connectTimer := None,
            disconnectTimer := if m.disconnectTimer.Some? then m.disconnectTimer else Some(now + DEBOUNCE))
  }

  function OnDown(m: Machine, now: int): Machine {
    if !m.seenGreen then m.(disconnectTimer := None)
    else m.(disconnectTimer := None,
            connectTimer := if m.connectTimer.Some? then m.connectTimer else Some(now + DEBOUNCE))
  }

  predicate Due(timer: Option<int>, now: int) { timer.Some? && timer.value <= now }

  function OnElapse(m: Machine, now: int): Machine {
    if Due(m.connectTimer, now) then m.(connectTimer := None, backup := true)
    else if Due(m.disconnectTimer, now) then m.(disconnectTimer := None, backup := false)
    else m
  }

  /** The pending timer is the one the stretch in progress calls for. Repeats may have re-armed
      a timer after it fired, but never moved a pending one. */
  predicate TimersOk(m: Machine, h: seq<Event>, now: int)
    requires h != []
  {
    var n := LastStart(h);
    var due := h[n].at + DEBOUNCE;
    if h[|h| - 1].up then
      && m.connectTimer.None?
      && (m.disconnectTimer.Some? ==> now < m.disconnectTimer.value && due <= m.disconnectTimer.value)
      && (m.backup && now < due ==> m.disconnectTimer == Some(due))
    else
      && m.disconnectTimer.None?
      && (m.connectTimer.Some? ==> n > 0 && now < m.connectTimer.value && due <= m.connectTimer.value)
      && (n > 0 && now < due ==> m.connectTimer == Some(due))
  }

  ghost predicate Agrees(m: Machine, h: seq<Event>, now: int) {
    && Ordered(h, now)
    && (m.seenGreen <==> SeenUp(h))
    && (m.backup <==> ActiveAt(h, now))
    && (if h == [] then m.connectTimer.None? && m.disconnectTimer.None? else TimersOk(m, h, now))
  }

  lemma UpAgrees(m: Machine, h: seq<Event>, now: int)
    requires Agrees(m, h, now)
    ensures Agrees(OnUp(m, now), h + [Event(true, now)], now)
  {
    var e := Event(true, now);
    ReportKeepsActive(h, e);
    LastStartSnoc(h, e);
    SeenUpSnoc(h, e);
    if !m.seenGreen {
      NoBackupBeforeUp(h, now);
      assert h != [] ==> !h[|h| - 1].up;
    }
  }

  lemma DownAgrees(m: Machine, h: seq<Event>, now: int)
    requires Agrees(m, h, now)
    ensures Agrees(OnDown(m, now), h + [Event(false, now)], now)
  {
    var e := Event(false, now);
    ReportKeepsActive(h, e);
    LastStartSnoc(h, e);
    SeenUpSnoc(h, e);
    DownStretchAfterUp(h + [e]);
  }

  /** A repeated report may also leave a timer that has fired unarmed. */
  lemma RepeatAgrees(m: Machine, h: seq<Event>, now: int, up: bool)
    requires Agrees(m, h, now) && h != [] && h[|h| - 1].up == up
    ensures Agrees(m, h + [Event(up, now)], now)
  {
    var e := Event(up, now);
    ReportKeepsActive(h, e);
    LastStartSnoc(h, e);
    SeenUpSnoc(h, e);
  }

  lemma ElapseAgrees(m: Machine, h: seq<Event>, now: int, later: int)
    requires Agrees(m, h, now) && now <= later
    ensures Agrees(OnElapse(m, later), h, later)
  {
    if h != [] {
      ActiveByLastStretch(h, now);
      ActiveByLastStretch(h, later);
    }
  }

  /** The same for the times alone: what the pending timer and the stretch in progress say. */
  lemma SwitchTimes(m: Machine, h: seq<Event>, now: int, later: int)
    requires h != [] && TimersOk(m, h, now) && now <= later && OnElapse(m, later).backup != m.backup
    requires var n := LastStart(h); now - h[n].at >= DEBOUNCE ==> (m.backup <==> !h[n].up && n > 0)
    ensures var n := LastStart(h);
            && later - h[n].at >= DEBOUNCE && now - h[n].at < DEBOUNCE
            && h[n].up != OnElapse(m, later).backup && (OnElapse(m, later).backup ==> n > 0)
  {
    var n := LastStart(h);
    assert h[n].up == h[|h| - 1].up;
  }

  /** The backup is dialled only in a down stretch that has lasted a full debounce counted from
      its first report, after the primary had been up; and hung up only in an up stretch that
      has lasted as long. Repeated reports count for nothing. */
  lemma SwitchesNeedFullStretch(m: Machine, h: seq<Event>, now: int, later: int)
    requires Agrees(m, h, now) && now <= later && OnElapse(m, later).backup != m.backup
    ensures h != []
    ensures var n := LastStart(h);
            && later - h[n].at >= DEBOUNCE && now - h[n].at < DEBOUNCE
            && (forall i :: n <= i < |h| ==> h[i].up != OnElapse(m, later).backup)
            && (OnElapse(m, later).backup ==> SeenUp(h[..n]))
  {
    assert h != [];
    ActiveByLastStretch(h, now);
    SwitchTimes(m, h, now, later);
    if OnElapse(m, later).backup {
      UpBefore(h);
    }
  }

  /** Before a down stretch that is not the first the primary was up. */
  lemma UpBefore(h: seq<Event>)
    requires h != [] && !h[LastStart(h)].up && LastStart(h) > 0
    ensures SeenUp(h[..LastStart(h)])
  {
    var n := LastStart(h);
    assert h[..n][n - 1] == h[n - 1] && h[n - 1].up;
  }

  /** The two timers are never pending together. */
  lemma OneTimerAtATime(m: Machine, h: seq<Event>, now: int)
    requires Agrees(m, h, now)
    ensures !(m.connectTimer.Some? && m.disconnectTimer.Some?)
  {
  }

  class BackupFailover {
    var seenGreen: bool
    var connectTimer: Option<int>
    var disconnectTimer: Option<int>
    var backup: bool
    var clock: int
    ghost var history: seq<Event>

    function View(): Machine
      reads this
    {
      Machine(seenGreen, connectTimer, disconnectTimer, backup)
    }

    /** At every moment the backup is held exactly when the history of reports wants it. */
    ghost predicate Valid()
      reads this
      ensures Valid() ==> (backup <==> ActiveAt(history, clock)) && !(connectTimer.Some? && disconnectTimer.Some?)
    {
      Agrees(View(), history, clock)
    }

    constructor (now: int)
      ensures Valid() && history == [] && clock == now && !backup
    {
      seenGreen, backup, connectTimer, disconnectTimer := false, false, None, None;
      history, clock := [], now;
    }

    /** activateBackup dials only when there is no client yet. */
    method ActivateBackup()
      modifies this`backup
      ensures backup
    {
      if backup {
        return;
      }
      backup := true;
    }

    method DeactivateBackup()
      modifies this`backup
      ensures !backup
    {
      if !backup {
        return;
      }
      backup := false;
    }

    /** The runtime's part: the clock moves to `now`, and a timer that comes due on the way
        fires and runs its callback to the end. */
    method Elapse(now: int)
      requires Valid() && clock <= now
      modifies this
      ensures Valid() && clock == now && history == old(history) && View() == OnElapse(old(View()), now)
    {
      ElapseAgrees(View(), history, clock, now);
      clock := now;
      if connectTimer.Some? && connectTimer.value <= now {
        connectTimer := None;
        ActivateBackup();
      } else if disconnectTimer.Some? && disconnectTimer.value <= now {
        disconnectTimer := None;
        DeactivateBackup();
      }
    }

    method PrimaryUp()
      requires Valid()
      modifies this
      ensures Valid() && clock == old(clock) && history == old(history) + [Event(true, clock)]
      ensures View() == OnUp(old(View()), clock)
    {
      UpAgrees(View(), history, clock);
      ghost var m := OnUp(View(), clock);
      history := history + [Event(true, clock)];
      if connectTimer.Some? {
        connectTimer := None;
      }
      if !seenGreen {
        seenGreen := true;
        assert View() == m;
        return;
      }
      if disconnectTimer.Some? {
        assert View() == m;
        return;
      }
      disconnectTimer := Some(clock + DEBOUNCE);
      assert View() == m;
    }

    method PrimaryDown()
      requires Valid()
      modifies this
      ensures Valid() && clock == old(clock) && history == old(history) + [Event(false, clock)]
      ensures View() == OnDown(old(View()), clock)
    {
      DownAgrees(View(), history, clock);
      ghost var m := OnDown(View(), clock);
      history := history + [Event(false, clock)];
      if disconnectTimer.Some? {
        disconnectTimer := None;
      }
      if !seenGreen {
        assert View() == m;
        return;
      }
      if connectTimer.Some? {
        assert View() == m;
        return;
      }
      connectTimer := Some(clock + DEBOUNCE);
      assert View() == m;
    }
  }

  /** A down stretch in progress is the first one exactly when the primary was never up. */
  lemma DownStretchAfterUp(h: seq<Event>)
    requires h != [] && !h[|h| - 1].up
    ensures LastStart(h) > 0 <==> SeenUp(h)
  {
    var n := LastStart(h);
    if n > 0 {
      assert h[n - 1].up;
    }
  }

  lemma SeenUpSnoc(h: seq<Event>, e: Event)
    ensures SeenUp(h + [e]) <==> SeenUp(h) || e.up
  {
    if SeenUp(h) {
      var i :| 0 <= i < |h| && h[i].up;
      assert (h + [e])[i].up;
    }
    if e.up {
      assert (h + [e])[|h|].up;
    }
  }

  lemma NoBackupBeforeUp(h: seq<Event>, now: int)
    requires !SeenUp(h)
    ensures !ActiveAt(h, now)
  {
    forall j | 0 <= j < |h| ensures !QualifyingDown(h, j, now) {
      assert !h[j].up && (j > 0 ==> !h[j - 1].up);
    }
  }
}
