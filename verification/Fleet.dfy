/** The fleet: any number of instances, each with a role gate and a goroutine per forwarded
    message, around one shared Redis whose SET NX EX is atomic. One clock is shared by all.

    Roles are not constrained: `OpenGate` and `QueueGate` may happen on any instance at any
    time, so everything proved here holds however many instances believe they are primary. */
module Fleet {
  import opened Gates
  import Direct = Dedup

  /** `cleanStops`: an instance never stops between winning a dedup slot and calling Publish. */
  datatype Config = Config(ttl: int, maxAge: int, maxLen: int, cleanStops: bool)

  datatype Stage =
    | Queued         // in the gate's backlog
    | Dropped        // arrived at a full backlog
    | Evicted        // aged out of the backlog
    | Forwarding     // past the gate's mutex, forward not yet called
    | Checking       // process() is running its topic, schema and metadata checks
    | Discarded      // one of them discarded the copy
    | AtDedup        // next: SET NX
    | Seen(holder: nat) // answered "seen"; the holder is the copy whose claim the slot is
    | MustPublish    // next: Publish
    | Published
    | Killed         // its instance stopped

  /** A message copy, numbered by its arrival at one instance's gate and followed from there
      to the end of its `process` call. `claimed`: SET NX took effect for this copy.
      `answered`: Redis replied to it. `dedupAt` is the time of its SET NX, or of the call for it
      while none ran. `publishes` counts the calls of Publish made for it. */
  datatype Call = Call(inst: nat, id: string, enqueuedAt: int, releasedAt: int, dedupAt: int,
                       claimed: bool, answered: bool, publishes: nat, stage: Stage)

  /** A dedup key. Redis stores the constant 1; the holder is bookkeeping. */
  datatype Slot = Slot(expiry: int, holder: nat)

  datatype Instance = Instance(mode: Mode, backlog: seq<Entry<nat>>)

  /** `late` are the copies whose request is still with a collector after they gave up on it. */
  datatype State = State(now: int, insts: seq<Instance>, calls: seq<Call>, slots: map<string, Slot>, late: set<nat>)

  /** `Lost`: the call returns an error; the command may or may not have run on the server.
      `GaveUp`: the caller's context ended first, and the collector goes on with the request. */
  datatype Reply = Answered | Lost(ran: bool) | GaveUp

  datatype Action =
    | Wait(d: nat)
    | Arrive(inst: nat, id: string)
    | OpenGate(inst: nat)
    | QueueGate(inst: nat)
    | Forward(copy: nat)
    | Check(copy: nat, pass: bool)
    | Dedup(copy: nat, reply: Reply)
    | LateDedup(copy: nat, ran: bool)
    | Publish(copy: nat)
    | Stop(inst: nat)

  function Start(n: nat): State {
    State(0, seq(n, i => Instance(Queueing, [])), [], map[], {})
  }

  // ---- Steps ------------------------------------------------------------------------

  function At(s: State, copy: nat, stage: Stage): State
    requires copy < |s.calls|
  {
    s.(calls := s.calls[copy := s.calls[copy].(stage := stage)])
  }

  /** Drop the expired head of one backlog. */
  function EvictHead(c: Config, s: State, i: nat): State
    requires i < |s.insts|
  {
    var q := s.insts[i].backlog;
    var n := HeadScan(q, s.now, c.maxAge);
    s.(insts := s.insts[i := s.insts[i].(backlog := q[n..])],
       calls := seq(|s.calls|, k requires 0 <= k < |s.calls| =>
         if k in Messages(q[..n]) then s.calls[k].(stage := Evicted) else s.calls[k]))
  }

  function DoArrive(c: Config, s: State, i: nat, id: string): State
    requires i < |s.insts|
  {
    var copy := Call(i, id, s.now, s.now, s.now, false, false, 0, Forwarding);
    if s.insts[i].mode.Open? then s.(calls := s.calls + [copy])
    else
      var e := EvictHead(c, s, i);
      var q := e.insts[i].backlog;
      if |q| >= c.maxLen then e.(calls := e.calls + [copy.(stage := Dropped)])
      else e.(calls := e.calls + [copy.(stage := Queued)],
              insts := e.insts[i := e.insts[i].(backlog := q + [Entry(|e.calls|, s.now)])])
  }

  /** Snapshot the backlog and switch to Open; the forwards come later, one by one. */
  function ReleaseAll(s: State, i: nat): State
    requires i < |s.insts|
  {
    var q := s.insts[i].backlog;
    s.(insts := s.insts[i := Instance(Open, [])],
       calls := seq(|s.calls|, k requires 0 <= k < |s.calls| =>
         if k in Messages(q) then s.calls[k].(stage := Forwarding, releasedAt := s.now) else s.calls[k]))
  }

  function DoPublish(s: State, copy: nat): State
    requires copy < |s.calls|
  {
    s.(calls := s.calls[copy := s.calls[copy].(stage := Published, publishes := s.calls[copy].publishes + 1)])
  }

  predicate SlotHeld(s: State, id: string) { id in s.slots && s.now < s.slots[id].expiry }

  function DoDedup(c: Config, s: State, copy: nat, reply: Reply): State
    requires copy < |s.calls|
  {
    var call := s.calls[copy].(dedupAt := s.now, answered := reply.Answered?);
    if SlotHeld(s, call.id) then
      var stage := if reply.Answered? then Seen(s.slots[call.id].holder) else MustPublish;
      s.(calls := s.calls[copy := call.(stage := stage)])
    else if reply == Lost(true) || reply.Answered? then
      s.(calls := s.calls[copy := call.(stage := MustPublish, claimed := true)],
         slots := s.slots[call.id := Slot(s.now + c.ttl, copy)])
    else
      s.(calls := s.calls[copy := call.(stage := MustPublish)])
  }

  /** The command of a request whose caller gave up, run for nobody. */
  function DoLate(c: Config, s: State, copy: nat, ran: bool): State
    requires copy < |s.calls|
  {
    var call := s.calls[copy];
    var done := s.(late := s.late - {copy});
    if !ran || SlotHeld(s, call.id) then done
    else done.(calls := s.calls[copy := call.(dedupAt := s.now, claimed := true)],
               slots := s.slots[call.id := Slot(s.now + c.ttl, copy)])
  }

  predicate Unfinished(stage: Stage) {
    stage.Forwarding? || stage.Checking? || stage.AtDedup? || stage.MustPublish?
  }

  function DoStop(s: State, i: nat): State
    requires i < |s.insts|
  {
    s.(insts := s.insts[i := Instance(Queueing, [])],
       late := (set k | k in s.late && k < |s.calls| && s.calls[k].inst != i),
       calls := seq(|s.calls|, k requires 0 <= k < |s.calls| =>
         if s.calls[k].inst == i && (s.calls[k].stage.Queued? || Unfinished(s.calls[k].stage))
         then s.calls[k].(stage := Killed) else s.calls[k]))
  }

  predicate Is(s: State, copy: nat, stage: Stage) { copy < |s.calls| && s.calls[copy].stage == stage }

  predicate MidClaim(call: Call) { call.claimed && call.stage.MustPublish? }

  predicate MayStop(c: Config, s: State, i: nat) {
    c.cleanStops ==> forall k :: 0 <= k < |s.calls| && s.calls[k].inst == i ==> !MidClaim(s.calls[k])
  }

  predicate Enabled(c: Config, s: State, a: Action) {
    match a
    case Wait(_) => true
    case Arrive(i, _) => i < |s.insts|
    case OpenGate(i) => i < |s.insts|
    case QueueGate(i) => i < |s.insts|
    case Forward(k) => Is(s, k, Forwarding)
    case Check(k, _) => Is(s, k, Checking)
    case Dedup(k, _) => Is(s, k, AtDedup)
    case LateDedup(k, _) => k in s.late && k < |s.calls|
    case Publish(k) => Is(s, k, MustPublish)
    case Stop(i) => i < |s.insts| && MayStop(c, s, i)
  }

  function Apply(c: Config, s: State, a: Action): State
    requires Enabled(c, s, a)
  {
    match a
    case Wait(d) => s.(now := s.now + d)
    case Arrive(i, id) => DoArrive(c, s, i, id)
    case OpenGate(i) => ReleaseAll(EvictHead(c, s, i), i)
    case QueueGate(i) => s.(insts := s.insts[i := s.insts[i].(mode := Queueing)])
    case Forward(k) => At(s, k, Checking)
    case Check(k, pass) =>
      // an empty id skips dedup and goes straight to Publish
      At(s, k, if !pass then Discarded else if s.calls[k].id == "" then MustPublish else AtDedup)
    case Dedup(k, reply) => DoDedup(c, s, k, reply).(late := if reply.GaveUp? then s.late + {k} else s.late)
    case LateDedup(k, ran) => DoLate(c, s, k, ran)
    case Publish(k) => DoPublish(s, k)
    case Stop(i) => DoStop(s, i)
  }

  ghost predicate Next(c: Config, s: State, t: State) {
    exists a :: Enabled(c, s, a) && t == Apply(c, s, a)
  }

  ghost predicate IsRun(c: Config, run: seq<State>) {
    && |run| > 0 && c.ttl > 0
    && run[0] == Start(|run[0].insts|)
    && forall i :: 0 < i < |run| ==> Next(c, run[i - 1], run[i])
  }

  lemma Extend(c: Config, run: seq<State>, a: Action) returns (longer: seq<State>)
    requires IsRun(c, run) && Enabled(c, run[|run| - 1], a)
    ensures run <= longer && IsRun(c, longer) && longer[|longer| - 1] == Apply(c, run[|run| - 1], a)
  {
    longer := run + [Apply(c, run[|run| - 1], a)];
    assert Next(c, run[|run| - 1], longer[|longer| - 1]);
  }

  // ---- Invariants -------------------------------------------------------------------

  /** The flags of a call agree with how far it has got. */
  predicate StageOk(c: Config, x: Call) {
    && (x.claimed ==> x.id != "" && (x.stage.MustPublish? || x.stage.Published? || (x.stage.Killed? && !c.cleanStops)))
    && (x.answered ==> x.claimed || x.stage.Seen?)
    && (x.stage.Seen? ==> x.answered && !x.claimed)
    && (x.stage.AtDedup? ==> x.id != "")
    && x.publishes == (if x.stage.Published? then 1 else 0)
    && (x.stage.MustPublish? || x.stage.Published? ==> x.id == "" || x.claimed || !x.answered)
  }

  predicate TimesOk(c: Config, now: int, x: Call) {
    && x.enqueuedAt <= x.releasedAt <= now
    && x.dedupAt <= now
    && (x.claimed || x.answered ==> x.releasedAt <= x.dedupAt)
    && (c.maxAge > 0 ==> x.releasedAt - x.enqueuedAt <= c.maxAge)
  }

  /** A claim is covered by the key it set, or by a later claim's. */
  predicate ClaimOk(c: Config, s: State, x: Call) {
    x.claimed ==> x.id in s.slots && x.dedupAt + c.ttl <= s.slots[x.id].expiry
  }

  predicate Covers(c: Config, h: Call, x: Call) {
    h.claimed && h.id == x.id && h.dedupAt <= x.dedupAt < h.dedupAt + c.ttl
  }

  predicate SeenOk(c: Config, s: State, x: Call) {
    x.stage.Seen? ==> x.stage.holder < |s.calls| && Covers(c, s.calls[x.stage.holder], x)
  }

  predicate SlotOk(c: Config, s: State, id: string)
    requires id in s.slots
  {
    var slot := s.slots[id];
    && slot.holder < |s.calls|
    && s.calls[slot.holder].claimed && s.calls[slot.holder].id == id
    && slot.expiry == s.calls[slot.holder].dedupAt + c.ttl
  }

  predicate Backs(s: State, i: nat, e: Entry<nat>) {
    && e.msg < |s.calls|
    && s.calls[e.msg].stage.Queued? && s.calls[e.msg].inst == i && s.calls[e.msg].enqueuedAt == e.at
  }

  ghost predicate BacklogOk(s: State, i: nat)
    requires i < |s.insts|
  {
    var q := s.insts[i].backlog;
    && (forall j :: 0 <= j < |q| ==> Backs(s, i, q[j]))
    && (forall j, l :: 0 <= j < l < |q| ==> q[j].msg < q[l].msg)
    && Sorted(q) && NoneAfter(q, s.now)
  }

  ghost predicate CallsOk(c: Config, s: State) {
    && c.ttl > 0
    && (forall k :: 0 <= k < |s.calls| ==> StageOk(c, s.calls[k]) && TimesOk(c, s.now, s.calls[k]))
    && (forall k :: 0 <= k < |s.calls| ==> ClaimOk(c, s, s.calls[k]) && SeenOk(c, s, s.calls[k]))
    && (forall id :: id in s.slots ==> SlotOk(c, s, id))
  }

  ghost predicate BacklogsOk(s: State) {
    forall i :: 0 <= i < |s.insts| ==> BacklogOk(s, i)
  }

  /** A request whose caller gave up belongs to a copy that went on to Publish. */
  ghost predicate LateOk(s: State) {
    forall k :: k in s.late ==> k < |s.calls| && IsLate(s.calls[k])
  }

  predicate IsLate(x: Call) {
    x.id != "" && !x.claimed && !x.answered && (x.stage.MustPublish? || x.stage.Published?)
  }

  // ---- Steps that leave Redis alone -------------------------------------------------

  /** One call moved on without touching Redis. */
  predicate Moves(c: Config, now: int, x: Call, y: Call) {
    && y == x.(stage := y.stage, releasedAt := y.releasedAt, publishes := y.publishes)
    && StageOk(c, y) && TimesOk(c, now, y)
    && (y.stage.Seen? ==> y.stage == x.stage)
  }

  ghost predicate Relabels(c: Config, s: State, t: State) {
    && s.now <= t.now && t.slots == s.slots && |s.calls| <= |t.calls|
    && (forall k :: 0 <= k < |s.calls| ==> Moves(c, t.now, s.calls[k], t.calls[k]))
    && (forall k :: |s.calls| <= k < |t.calls| ==>
          var x := t.calls[k];
          !x.claimed && !x.stage.Seen? && StageOk(c, x) && TimesOk(c, t.now, x))
  }

  lemma RelabelsKeepsCalls(c: Config, s: State, t: State)
    requires CallsOk(c, s) && Relabels(c, s, t)
    ensures CallsOk(c, t)
  {
    forall k | 0 <= k < |t.calls|
      ensures StageOk(c, t.calls[k]) && TimesOk(c, t.now, t.calls[k])
      ensures ClaimOk(c, t, t.calls[k]) && SeenOk(c, t, t.calls[k])
    {
      if k < |s.calls| {
        assert ClaimOk(c, s, s.calls[k]) && SeenOk(c, s, s.calls[k]);
        assert Moves(c, t.now, s.calls[k], t.calls[k]);
        if t.calls[k].stage.Seen? {
          var h := t.calls[k].stage.holder;
          assert Moves(c, t.now, s.calls[h], t.calls[h]);
        }
      }
    }
    forall id | id in t.slots ensures SlotOk(c, t, id) {
      assert SlotOk(c, s, id);
      var h := s.slots[id].holder;
      assert Moves(c, t.now, s.calls[h], t.calls[h]);
    }
  }

  lemma QueuedMember(s: State, i: nat, q: seq<Entry<nat>>, k: nat)
    requires forall j :: 0 <= j < |q| ==> Backs(s, i, q[j])
    requires k in Messages(q)
    ensures exists j :: 0 <= j < |q| && q[j].msg == k && Backs(s, i, q[j])
  {
    var j :| 0 <= j < |q| && Messages(q)[j] == k;
    assert Backs(s, i, q[j]);
  }

  lemma QueuedElsewhere(s: State, i: nat, q: seq<Entry<nat>>, k: nat)
    requires forall j :: 0 <= j < |q| ==> Backs(s, i, q[j])
    requires k < |s.calls| && s.calls[k].inst != i
    ensures k !in Messages(q)
  {
    forall j | 0 <= j < |q| ensures q[j].msg != k {
      assert Backs(s, i, q[j]);
    }
  }

  lemma EvictHeadRelabels(c: Config, s: State, i: nat)
    requires CallsOk(c, s) && BacklogsOk(s) && i < |s.insts|
    ensures Relabels(c, s, EvictHead(c, s, i))
  {
    var t := EvictHead(c, s, i);
    var q := s.insts[i].backlog;
    var n := HeadScan(q, s.now, c.maxAge);
    assert BacklogOk(s, i);
    forall k | 0 <= k < |s.calls| ensures Moves(c, t.now, s.calls[k], t.calls[k]) {
      assert StageOk(c, s.calls[k]) && TimesOk(c, s.now, s.calls[k]);
      if k in Messages(q[..n]) {
        QueuedMember(s, i, q[..n], k);
      }
    }
  }

  lemma EvictHeadKeepsBacklogs(c: Config, s: State, i: nat)
    requires BacklogsOk(s) && i < |s.insts|
    ensures BacklogsOk(EvictHead(c, s, i))
  {
    var t := EvictHead(c, s, i);
    var q := s.insts[i].backlog;
    var n := HeadScan(q, s.now, c.maxAge);
    assert BacklogOk(s, i);
    forall l | 0 <= l < |s.insts| ensures BacklogOk(t, l) {
      assert BacklogOk(s, l);
      var r := t.insts[l].backlog;
      forall j | 0 <= j < |r| ensures Backs(t, l, r[j]) {
        if l == i {
          assert r[j] == q[n + j] && Backs(s, i, q[n + j]);
          assert r[j].msg !in Messages(q[..n]);
        } else {
          assert Backs(s, l, r[j]);
          QueuedElsewhere(s, i, q[..n], r[j].msg);
        }
      }
    }
  }

  lemma ArriveKeepsInv(c: Config, s: State, i: nat, id: string)
    requires CallsOk(c, s) && BacklogsOk(s) && i < |s.insts|
    ensures CallsOk(c, DoArrive(c, s, i, id)) && BacklogsOk(DoArrive(c, s, i, id))
  {
    var t := DoArrive(c, s, i, id);
    if s.insts[i].mode.Open? {
      AppendKeepsInv(c, s, t);
    } else {
      EvictHeadRelabels(c, s, i);
      EvictHeadKeepsBacklogs(c, s, i);
      var e := EvictHead(c, s, i);
      RelabelsKeepsCalls(c, s, e);
      var e' := e.(calls := t.calls);
      AppendKeepsInv(c, e, e');
      if |e.insts[i].backlog| < c.maxLen {
        forall j | 0 <= j < |e.insts[i].backlog| ensures e.insts[i].backlog[j].msg < |e.calls| {
          assert BacklogOk(e, i);
          assert Backs(e, i, e.insts[i].backlog[j]);
        }
        EnqueueKeepsBacklogs(e', i, Entry(|e.calls|, s.now));
        RelabelsKeepsCalls(c, e', t);
      }
    }
  }

  /** A new call at its arrival stage, nothing else changed. */
  lemma AppendKeepsInv(c: Config, s: State, t: State)
    requires CallsOk(c, s) && BacklogsOk(s)
    requires |t.calls| == |s.calls| + 1 && t == s.(calls := s.calls + [t.calls[|s.calls|]])
    requires var x := t.calls[|s.calls|];
             && (x.stage.Forwarding? || x.stage.Queued? || x.stage.Dropped?)
             && !x.claimed && !x.answered && x.publishes == 0
             && x.enqueuedAt == x.releasedAt == x.dedupAt == s.now
    ensures CallsOk(c, t) && BacklogsOk(t)
  {
    forall k | 0 <= k < |s.calls| ensures Moves(c, t.now, s.calls[k], t.calls[k]) {
      assert StageOk(c, s.calls[k]) && TimesOk(c, s.now, s.calls[k]);
    }
    RelabelsKeepsCalls(c, s, t);
    SameBacklogs(s, t);
  }

  /** Backlogs stand when no queued call was touched. */
  lemma SameBacklogs(s: State, t: State)
    requires BacklogsOk(s) && s.now <= t.now && |s.insts| == |t.insts| && |s.calls| <= |t.calls|
    requires forall i :: 0 <= i < |s.insts| ==> t.insts[i].backlog == s.insts[i].backlog || t.insts[i].backlog == []
    requires forall i :: 0 <= i < |s.insts| && t.insts[i].backlog != [] ==>
      forall k :: 0 <= k < |s.calls| && s.calls[k].stage.Queued? && s.calls[k].inst == i ==> t.calls[k] == s.calls[k]
    ensures BacklogsOk(t)
  {
    forall i | 0 <= i < |t.insts| ensures BacklogOk(t, i) {
      assert BacklogOk(s, i);
      var q := t.insts[i].backlog;
      forall j | 0 <= j < |q| ensures Backs(t, i, q[j]) {
        assert Backs(s, i, q[j]);
      }
    }
  }

  lemma EnqueueKeepsBacklogs(s: State, i: nat, e: Entry<nat>)
    requires BacklogsOk(s) && i < |s.insts| && Backs(s, i, e) && e.msg == |s.calls| - 1 && e.at == s.now
    requires forall j :: 0 <= j < |s.insts[i].backlog| ==> s.insts[i].backlog[j].msg < e.msg
    ensures BacklogsOk(s.(insts := s.insts[i := s.insts[i].(backlog := s.insts[i].backlog + [e])]))
  {
    var t := s.(insts := s.insts[i := s.insts[i].(backlog := s.insts[i].backlog + [e])]);
    forall l | 0 <= l < |t.insts| ensures BacklogOk(t, l) {
      assert BacklogOk(s, l);
      var r := t.insts[l].backlog;
      forall j | 0 <= j < |r| ensures Backs(t, l, r[j]) {
        assert r[j] == e || Backs(s, l, r[j]);
      }
    }
  }

  lemma EvictedBacklogIsFresh(c: Config, s: State, i: nat)
    requires BacklogsOk(s) && i < |s.insts|
    ensures var t := EvictHead(c, s, i);
            forall j :: 0 <= j < |t.insts[i].backlog| ==> !Expired(t.insts[i].backlog[j], s.now, c.maxAge)
  {
    var q := s.insts[i].backlog;
    assert BacklogOk(s, i);
    HeadEvictionIsFullFilter(q, HeadScan(q, s.now, c.maxAge), s.now, c.maxAge);
    forall e | e in Unexpired(q, s.now, c.maxAge) ensures !Expired(e, s.now, c.maxAge) {
      UnexpiredMember(q, e, s.now, c.maxAge);
    }
  }

  lemma ReleaseAllKeepsInv(c: Config, s: State, i: nat)
    requires CallsOk(c, s) && BacklogsOk(s) && i < |s.insts|
    requires forall j :: 0 <= j < |s.insts[i].backlog| ==> !Expired(s.insts[i].backlog[j], s.now, c.maxAge)
    ensures CallsOk(c, ReleaseAll(s, i)) && BacklogsOk(ReleaseAll(s, i))
  {
    var t := ReleaseAll(s, i);
    var q := s.insts[i].backlog;
    assert BacklogOk(s, i);
    forall k | 0 <= k < |s.calls|
      ensures Moves(c, t.now, s.calls[k], t.calls[k])
      ensures s.calls[k].stage.Queued? && s.calls[k].inst != i ==> t.calls[k] == s.calls[k]
    {
      assert StageOk(c, s.calls[k]) && TimesOk(c, s.now, s.calls[k]);
      if k in Messages(q) {
        QueuedMember(s, i, q, k);
      }
    }
    RelabelsKeepsCalls(c, s, t);
    SameBacklogs(s, t);
  }

  lemma StopKeepsInv(c: Config, s: State, i: nat)
    requires CallsOk(c, s) && BacklogsOk(s) && i < |s.insts| && MayStop(c, s, i)
    ensures CallsOk(c, DoStop(s, i)) && BacklogsOk(DoStop(s, i))
  {
    var t := DoStop(s, i);
    forall k | 0 <= k < |s.calls| ensures Moves(c, t.now, s.calls[k], t.calls[k]) {
      assert StageOk(c, s.calls[k]) && TimesOk(c, s.now, s.calls[k]);
    }
    RelabelsKeepsCalls(c, s, t);
    SameBacklogs(s, t);
  }

  /** One call past the gate moves on. */
  lemma StepKeepsInv(c: Config, s: State, copy: nat, y: Call)
    requires CallsOk(c, s) && BacklogsOk(s) && copy < |s.calls|
    requires !s.calls[copy].stage.Queued? && Moves(c, s.now, s.calls[copy], y)
    ensures CallsOk(c, s.(calls := s.calls[copy := y])) && BacklogsOk(s.(calls := s.calls[copy := y]))
  {
    var t := s.(calls := s.calls[copy := y]);
    forall k | 0 <= k < |s.calls| ensures Moves(c, t.now, s.calls[k], t.calls[k]) {
      assert StageOk(c, s.calls[k]) && TimesOk(c, s.now, s.calls[k]);
    }
    RelabelsKeepsCalls(c, s, t);
    SameBacklogs(s, t);
  }

  // ---- The dedup step ---------------------------------------------------------------

  lemma DedupKeepsInv(c: Config, s: State, copy: nat, reply: Reply)
    requires CallsOk(c, s) && BacklogsOk(s) && Is(s, copy, AtDedup)
    ensures CallsOk(c, DoDedup(c, s, copy, reply)) && BacklogsOk(DoDedup(c, s, copy, reply))
  {
    var t := DoDedup(c, s, copy, reply);
    var x := s.calls[copy];
    assert StageOk(c, x) && TimesOk(c, s.now, x);
    if SlotHeld(s, x.id) {
      assert SlotOk(c, s, x.id);
      var h := s.calls[s.slots[x.id].holder];
      assert TimesOk(c, s.now, h);
      assert Covers(c, h, t.calls[copy]);
    }
    forall k | 0 <= k < |t.calls|
      ensures StageOk(c, t.calls[k]) && TimesOk(c, t.now, t.calls[k])
      ensures ClaimOk(c, t, t.calls[k]) && SeenOk(c, t, t.calls[k])
    {
      if k != copy {
        assert StageOk(c, s.calls[k]) && TimesOk(c, s.now, s.calls[k]);
        assert ClaimOk(c, s, s.calls[k]) && SeenOk(c, s, s.calls[k]);
      }
    }
    forall id | id in t.slots ensures SlotOk(c, t, id) {
      assert id in s.slots ==> SlotOk(c, s, id);
    }
    SameBacklogs(s, t);
  }

  lemma LateKeepsInv(c: Config, s: State, copy: nat, ran: bool)
    requires CallsOk(c, s) && BacklogsOk(s) && LateOk(s) && copy in s.late
    ensures CallsOk(c, DoLate(c, s, copy, ran)) && BacklogsOk(DoLate(c, s, copy, ran))
  {
    var t := DoLate(c, s, copy, ran);
    assert IsLate(s.calls[copy]);
    forall k | 0 <= k < |t.calls|
      ensures StageOk(c, t.calls[k]) && TimesOk(c, t.now, t.calls[k])
      ensures ClaimOk(c, t, t.calls[k]) && SeenOk(c, t, t.calls[k])
    {
      assert StageOk(c, s.calls[k]) && TimesOk(c, s.now, s.calls[k]);
      assert ClaimOk(c, s, s.calls[k]) && SeenOk(c, s, s.calls[k]);
    }
    forall id | id in t.slots ensures SlotOk(c, t, id) {
      assert id in s.slots ==> SlotOk(c, s, id);
    }
    SameBacklogs(s, t);
  }

  /** Claims of one id are at least one TTL apart. */
  predicate Apart(c: Config, x: Call, y: Call) {
    x.claimed && y.claimed && x.id == y.id ==> x.dedupAt + c.ttl <= y.dedupAt || y.dedupAt + c.ttl <= x.dedupAt
  }

  ghost predicate AllApart(c: Config, s: State) {
    forall k, l :: 0 <= k < l < |s.calls| ==> Apart(c, s.calls[k], s.calls[l])
  }

  lemma DedupKeepsApart(c: Config, s: State, copy: nat, reply: Reply)
    requires CallsOk(c, s) && AllApart(c, s) && Is(s, copy, AtDedup)
    ensures AllApart(c, DoDedup(c, s, copy, reply))
  {
    var t := DoDedup(c, s, copy, reply);
    forall k, l | 0 <= k < l < |t.calls| ensures Apart(c, t.calls[k], t.calls[l]) {
      assert Apart(c, s.calls[k], s.calls[l]);
      assert ClaimOk(c, s, s.calls[k]) && ClaimOk(c, s, s.calls[l]);
    }
  }

  lemma LateKeepsApart(c: Config, s: State, copy: nat, ran: bool)
    requires CallsOk(c, s) && AllApart(c, s) && LateOk(s) && copy in s.late
    ensures AllApart(c, DoLate(c, s, copy, ran))
  {
    var t := DoLate(c, s, copy, ran);
    forall k, l | 0 <= k < l < |t.calls| ensures Apart(c, t.calls[k], t.calls[l]) {
      assert Apart(c, s.calls[k], s.calls[l]);
      assert ClaimOk(c, s, s.calls[k]) && ClaimOk(c, s, s.calls[l]);
    }
  }

  /** No call's claim changed and no new call has one. */
  ghost predicate KeepsClaims(s: State, t: State) {
    && |s.calls| <= |t.calls|
    && (forall k :: 0 <= k < |s.calls| ==>
          t.calls[k].claimed == s.calls[k].claimed && t.calls[k].id == s.calls[k].id
          && t.calls[k].dedupAt == s.calls[k].dedupAt)
    && (forall k :: |s.calls| <= k < |t.calls| ==> !t.calls[k].claimed)
  }

  lemma ArriveKeepsClaims(c: Config, s: State, i: nat, id: string)
    requires i < |s.insts|
    ensures KeepsClaims(s, DoArrive(c, s, i, id))
  {
    assert KeepsClaims(s, EvictHead(c, s, i));
  }

  lemma OtherStepsKeepClaims(c: Config, s: State, a: Action)
    requires Enabled(c, s, a) && !a.Dedup? && !a.LateDedup?
    ensures KeepsClaims(s, Apply(c, s, a))
  {
    match a
    case Arrive(i, id) => ArriveKeepsClaims(c, s, i, id);
    case OpenGate(i) =>
      assert KeepsClaims(s, EvictHead(c, s, i));
      assert KeepsClaims(EvictHead(c, s, i), ReleaseAll(EvictHead(c, s, i), i));
    case Stop(i) => assert KeepsClaims(s, DoStop(s, i));
    case _ =>
  }

  lemma ApplyKeepsApart(c: Config, s: State, a: Action)
    requires CallsOk(c, s) && AllApart(c, s) && LateOk(s) && Enabled(c, s, a)
    ensures AllApart(c, Apply(c, s, a))
  {
    if a.Dedup? {
      DedupKeepsApart(c, s, a.copy, a.reply);
    } else if a.LateDedup? {
      LateKeepsApart(c, s, a.copy, a.ran);
    } else {
      OtherStepsKeepClaims(c, s, a);
      var t := Apply(c, s, a);
      forall k, l | 0 <= k < l < |t.calls| ensures Apart(c, t.calls[k], t.calls[l]) {
        assert l < |s.calls| ==> Apart(c, s.calls[k], s.calls[l]);
      }
    }
  }

  lemma ApplyKeepsInv(c: Config, s: State, a: Action)
    requires CallsOk(c, s) && BacklogsOk(s) && LateOk(s) && Enabled(c, s, a)
    ensures CallsOk(c, Apply(c, s, a)) && BacklogsOk(Apply(c, s, a))
  {
    var t := Apply(c, s, a);
    match a
    case Wait(d) => WaitKeepsInv(c, s, d);
    case Arrive(i, id) => ArriveKeepsInv(c, s, i, id);
    case OpenGate(i) =>
      EvictHeadRelabels(c, s, i);
      RelabelsKeepsCalls(c, s, EvictHead(c, s, i));
      EvictHeadKeepsBacklogs(c, s, i);
      EvictedBacklogIsFresh(c, s, i);
      ReleaseAllKeepsInv(c, EvictHead(c, s, i), i);
    case QueueGate(i) => WaitKeepsInv(c, s, 0); SameBacklogs(s, t);
    case Forward(k) => StepKeepsInv(c, s, k, t.calls[k]);
    case Check(k, _) => StepKeepsInv(c, s, k, t.calls[k]);
    case Dedup(k, reply) =>
      DedupKeepsInv(c, s, k, reply);
      SameInv(c, DoDedup(c, s, k, reply), t);
    case LateDedup(k, ran) => LateKeepsInv(c, s, k, ran);
    case Publish(k) => StepKeepsInv(c, s, k, t.calls[k]);
    case Stop(i) => StopKeepsInv(c, s, i);
  }

  lemma WaitKeepsInv(c: Config, s: State, d: nat)
    requires CallsOk(c, s) && BacklogsOk(s)
    ensures CallsOk(c, s.(now := s.now + d)) && BacklogsOk(s.(now := s.now + d))
  {
    var t := s.(now := s.now + d);
    forall k | 0 <= k < |s.calls| ensures Moves(c, t.now, s.calls[k], t.calls[k]) {
      assert StageOk(c, s.calls[k]) && TimesOk(c, s.now, s.calls[k]);
    }
    RelabelsKeepsCalls(c, s, t);
    SameBacklogs(s, t);
  }

  /** The two invariants say nothing about `late`. */
  lemma SameInv(c: Config, s: State, t: State)
    requires CallsOk(c, s) && BacklogsOk(s) && t == s.(late := t.late)
    ensures CallsOk(c, t) && BacklogsOk(t)
  {
    RelabelsKeepsCalls(c, s, t);
    SameBacklogs(s, t);
  }

  lemma ApplyKeepsLate(c: Config, s: State, a: Action)
    requires LateOk(s) && BacklogsOk(s) && Enabled(c, s, a)
    requires a.Dedup? ==> s.calls[a.copy].id != "" && !s.calls[a.copy].claimed
    ensures LateOk(Apply(c, s, a))
  {
    var t := Apply(c, s, a);
    forall k | k in t.late ensures k < |t.calls| && IsLate(t.calls[k]) {
      if k in s.late {
        assert IsLate(s.calls[k]);
        LateStays(c, s, a, k);
      }
    }
  }

  lemma LateStays(c: Config, s: State, a: Action, k: nat)
    requires BacklogsOk(s) && Enabled(c, s, a) && k < |s.calls| && IsLate(s.calls[k]) && k in Apply(c, s, a).late
    ensures var t := Apply(c, s, a); k < |t.calls| && IsLate(t.calls[k])
  {
    match a
    case Arrive(i, _) => NotQueued(c, s, i, k);
    case OpenGate(i) => NotQueued(c, s, i, k);
    case _ =>
  }

  /** A call past the gate is in no backlog. */
  lemma NotQueued(c: Config, s: State, i: nat, k: nat)
    requires BacklogsOk(s) && i < |s.insts| && k < |s.calls| && !s.calls[k].stage.Queued?
    ensures forall n :: 0 <= n <= |s.insts[i].backlog| ==> k !in Messages(s.insts[i].backlog[..n])
    ensures forall n :: 0 <= n <= |s.insts[i].backlog| ==> k !in Messages(s.insts[i].backlog[n..])
  {
    var q := s.insts[i].backlog;
    assert BacklogOk(s, i);
    forall j | 0 <= j < |q| ensures q[j].msg != k {
      assert Backs(s, i, q[j]);
    }
  }

  lemma {:induction false} RunInvariant(c: Config, run: seq<State>, i: nat)
    requires IsRun(c, run) && i < |run|
    ensures CallsOk(c, run[i]) && BacklogsOk(run[i]) && AllApart(c, run[i]) && LateOk(run[i])
  {
    if i > 0 {
      RunInvariant(c, run, i - 1);
      var a :| Enabled(c, run[i - 1], a) && run[i] == Apply(c, run[i - 1], a);
      if a.Dedup? {
        assert StageOk(c, run[i - 1].calls[a.copy]);
      }
      ApplyKeepsLate(c, run[i - 1], a);
      ApplyKeepsInv(c, run[i - 1], a);
      ApplyKeepsApart(c, run[i - 1], a);
    }
  }

  // ---- The gates of the fleet -------------------------------------------------------

  /** One instance's gate as the queue `Gates` refines. */
  function GateOf(s: State, i: nat): AgedQueue<nat>
    requires i < |s.insts|
  {
    AgedQueue(s.insts[i].mode, s.insts[i].backlog, [])
  }

  lemma EvictHeadIsFilter(c: Config, s: State, i: nat)
    requires BacklogsOk(s) && i < |s.insts|
    ensures EvictHead(c, s, i).insts[i].backlog == Unexpired(s.insts[i].backlog, s.now, c.maxAge)
  {
    var q := s.insts[i].backlog;
    assert BacklogOk(s, i);
    HeadEvictionIsFullFilter(q, HeadScan(q, s.now, c.maxAge), s.now, c.maxAge);
  }

  /** A copy arriving at a queueing gate takes the step of that queue: up to entries that have
      expired by now the backlog is the same, and the copy is queued exactly when it is. At
      an open gate it goes straight on, as there. */
  lemma ArrivalIsGateStep(c: Config, run: seq<State>, i: nat, id: string)
    requires IsRun(c, run) && i < |run[|run| - 1].insts|
    ensures var s := run[|run| - 1];
            var t := Apply(c, s, Arrive(i, id));
            var q := Gates.Arrive(GateOf(s, i), |s.calls|, s.now, c.maxLen, c.maxAge);
            && |t.calls| == |s.calls| + 1
            && (t.calls[|s.calls|].stage.Forwarding? <==> q.out == [|s.calls|])
            && (t.calls[|s.calls|].stage.Queued? <==> q.pending == s.insts[i].backlog + [Entry(|s.calls|, s.now)])
            && (s.insts[i].mode.Queueing? ==> t.insts[i].backlog == Unexpired(q.pending, s.now, c.maxAge))
  {
    RunInvariant(c, run, |run| - 1);
    var s := run[|run| - 1];
    var e: Entry<nat> := Entry(|s.calls|, s.now);
    EvictHeadIsFilter(c, s, i);
    UnexpiredSnoc(s.insts[i].backlog, e, s.now, c.maxAge);
    assert s.insts[i].backlog + [e] != s.insts[i].backlog by {
      assert |s.insts[i].backlog + [e]| > |s.insts[i].backlog|;
    }
  }

  /** Opening a gate sends on exactly the copies that queue releases. */
  lemma OpeningIsGateStep(c: Config, run: seq<State>, i: nat, k: nat)
    requires IsRun(c, run) && i < |run[|run| - 1].insts| && k < |run[|run| - 1].calls|
    ensures var s := run[|run| - 1];
            var t := Apply(c, s, OpenGate(i));
            && t.insts[i] == Instance(Open, [])
            && (k in Gates.Release(GateOf(s, i), s.now, c.maxAge).out <==>
                  s.calls[k].stage.Queued? && s.calls[k] != t.calls[k] && t.calls[k].stage.Forwarding?)
  {
    RunInvariant(c, run, |run| - 1);
    var s := run[|run| - 1];
    var e := EvictHead(c, s, i);
    EvictHeadIsFilter(c, s, i);
    EvictHeadKeepsBacklogs(c, s, i);
    var q := e.insts[i].backlog;
    assert [] + Messages(q) == Messages(q);
    assert BacklogOk(e, i) && BacklogOk(s, i);
    if k in Messages(q) {
      QueuedMember(e, i, q, k);
      StaysQueued(c, s, i, k);
    }
  }

  /** Going back to buffering is that queue's step too: it keeps the backlog and sends nothing. */
  lemma QueueingIsGateStep(c: Config, s: State, i: nat)
    requires Enabled(c, s, QueueGate(i))
    ensures var t := Apply(c, s, QueueGate(i));
            && GateOf(t, i) == Gates.Hold(GateOf(s, i)) && t.calls == s.calls && t.slots == s.slots
            && forall l :: 0 <= l < |s.insts| && l != i ==> GateOf(t, l) == GateOf(s, l)
  {
  }

  /** An instance that stops comes back with a new gate, which queues. What it had queued or not
      finished is gone, and no one else notices. */
  lemma StopIsNewGate(c: Config, s: State, i: nat, k: nat)
    requires Enabled(c, s, Stop(i)) && k < |s.calls|
    ensures var t := Apply(c, s, Stop(i));
            && GateOf(t, i) == Fresh() && t.slots == s.slots && |t.calls| == |s.calls|
            && (forall l :: 0 <= l < |s.insts| && l != i ==> GateOf(t, l) == GateOf(s, l))
            && (s.calls[k].inst != i ==> t.calls[k] == s.calls[k])
            && (s.calls[k].inst == i ==> k !in t.late && !t.calls[k].stage.Queued? && !Unfinished(t.calls[k].stage))
  {
  }

  lemma StaysQueued(c: Config, s: State, i: nat, k: nat)
    requires i < |s.insts| && k < |s.calls| && EvictHead(c, s, i).calls[k].stage.Queued?
    ensures s.calls[k] == EvictHead(c, s, i).calls[k]
  {
  }

  // ---- The dedup step of the fleet --------------------------------------------------

  function KeysOf(s: State): Direct.Keys { map id | id in s.slots :: s.slots[id].expiry }

  function FaultOf(reply: Reply): Direct.Fault {
    match reply
    case Answered => Direct.NoFault
    case Lost(ran) => if ran then Direct.LostAfter else Direct.LostBefore
    case GaveUp => Direct.LostBefore
  }

  /** The dedup step of a copy is one direct SET NX call, which is what batched dedup amounts
      to as well for a caller that waits: same keys afterwards, same answer, same failure. For
      one that gave up it is a call that did not run, and `LateIsDirect` has what runs later. */
  lemma DedupIsDirect(c: Config, s: State, copy: nat, reply: Reply)
    requires Enabled(c, s, Action.Dedup(copy, reply))
    ensures var t := Apply(c, s, Action.Dedup(copy, reply));
            var id := s.calls[copy].id;
            var answer := Direct.SeenDirect(KeysOf(s), id, s.now, FaultOf(reply));
            && KeysOf(t) == Direct.AfterDirect(KeysOf(s), id, s.now, c.ttl, FaultOf(reply))
            && (t.calls[copy].stage.Seen? <==> answer.seen)
            && (t.calls[copy].answered <==> !answer.failed)
  {
    var t := Apply(c, s, Action.Dedup(copy, reply));
    var id := s.calls[copy].id;
    assert SlotHeld(s, id) <==> Direct.Held(KeysOf(s), id, s.now);
    if t.slots == s.slots {
      assert KeysOf(t) == KeysOf(s);
    } else {
      assert KeysOf(t) == KeysOf(s)[id := s.now + c.ttl];
    }
  }

  /** The late command is one direct call too, whose answer goes to nobody. */
  lemma LateIsDirect(c: Config, s: State, copy: nat, ran: bool)
    requires Enabled(c, s, LateDedup(copy, ran))
    ensures var t := Apply(c, s, LateDedup(copy, ran));
            var fault := if ran then Direct.NoFault else Direct.LostBefore;
            && KeysOf(t) == Direct.AfterDirect(KeysOf(s), s.calls[copy].id, s.now, c.ttl, fault)
            && t.calls[copy].stage == s.calls[copy].stage && !(copy in t.late)
            && (t.calls[copy].claimed <==> s.calls[copy].claimed || (ran && !SlotHeld(s, s.calls[copy].id)))
  {
    var t := Apply(c, s, LateDedup(copy, ran));
    var id := s.calls[copy].id;
    assert SlotHeld(s, id) <==> Direct.Held(KeysOf(s), id, s.now);
    if t.slots == s.slots {
      assert KeysOf(t) == KeysOf(s);
    } else {
      assert KeysOf(t) == KeysOf(s)[id := s.now + c.ttl];
    }
  }

  // ---- What holds of every run ------------------------------------------------------

  /** However many gates are open, two copies of one id for which SET NX took effect did so at
      least one TTL apart. In particular so are any two error-free "not seen" answers. */
  lemma ClaimsAreApart(c: Config, run: seq<State>, k: nat, l: nat)
    requires IsRun(c, run)
    requires var s := run[|run| - 1];
             && k < |s.calls| && l < |s.calls| && k != l && s.calls[k].id == s.calls[l].id
             && s.calls[k].claimed && s.calls[l].claimed
    ensures var s := run[|run| - 1];
            || s.calls[k].dedupAt + c.ttl <= s.calls[l].dedupAt
            || s.calls[l].dedupAt + c.ttl <= s.calls[k].dedupAt
  {
    var s := run[|run| - 1];
    RunInvariant(c, run, |run| - 1);
    assert Apart(c, s.calls[if k < l then k else l], s.calls[if k < l then l else k]);
  }

  /** Two different copies of one id, both passed to Publish, whose dedup calls are less than
      one TTL apart. */
  predicate PublishedTwice(c: Config, s: State, k: nat, l: nat) {
    && k < |s.calls| && l < |s.calls| && k != l && s.calls[k].id == s.calls[l].id != ""
    && s.calls[k].publishes > 0 && s.calls[l].publishes > 0
    && -c.ttl < s.calls[k].dedupAt - s.calls[l].dedupAt < c.ttl
  }

  /** Fleet-wide at-most-once: of two such Publish calls, for however many open gates, at least
      one was made without an answer from Redis. */
  lemma AtMostOncePerTtl(c: Config, run: seq<State>, k: nat, l: nat)
    requires IsRun(c, run) && PublishedTwice(c, run[|run| - 1], k, l)
    ensures !run[|run| - 1].calls[k].answered || !run[|run| - 1].calls[l].answered
  {
    var s := run[|run| - 1];
    RunInvariant(c, run, |run| - 1);
    assert StageOk(c, s.calls[k]) && StageOk(c, s.calls[l]);
    if s.calls[k].answered && s.calls[l].answered {
      ClaimsAreApart(c, run, k, l);
    }
  }

  /** And every missing answer lets it happen: a lost reply, or none in time, sends its copy on to
      Publish whatever the slot, so with a twin published less than one TTL ago the run goes on
      to two. */
  lemma EveryLostReplyPublishesTwice(c: Config, run: seq<State>, k: nat, l: nat, reply: Reply)
    returns (longer: seq<State>)
    requires IsRun(c, run) && !reply.Answered?
    requires var s := run[|run| - 1];
             && k < |s.calls| && l < |s.calls| && s.calls[k].stage.AtDedup? && s.calls[l].publishes > 0
             && s.calls[k].id == s.calls[l].id && s.now - s.calls[l].dedupAt < c.ttl
    ensures Apply(c, run[|run| - 1], Dedup(k, reply)).calls[k].stage.MustPublish?
    ensures IsRun(c, longer) && |longer| == |run| + 2 && longer[|run|] == Apply(c, run[|run| - 1], Dedup(k, reply))
    ensures PublishedTwice(c, longer[|longer| - 1], k, l) && !longer[|longer| - 1].calls[k].answered
  {
    var s := run[|run| - 1];
    RunInvariant(c, run, |run| - 1);
    assert StageOk(c, s.calls[k]) && StageOk(c, s.calls[l]) && TimesOk(c, s.now, s.calls[l]);
    var t := Apply(c, s, Dedup(k, reply));
    assert Next(c, s, t) && Next(c, t, Apply(c, t, Publish(k)));
    longer := run + [t, Apply(c, t, Publish(k))];
  }

  /** No slot is burned by a bystander: every dedup key, expired or not, was set for one copy
      that its gate forwarded and no check discarded, and that has made exactly one Publish
      call or has Publish as its next step. */
  lemma SlotsBelongToPublishers(c: Config, run: seq<State>, id: string)
    requires IsRun(c, run) && c.cleanStops
    requires id in run[|run| - 1].slots
    ensures var s := run[|run| - 1];
            var h := s.slots[id].holder;
            && h < |s.calls| && s.calls[h].claimed && s.calls[h].id == id != ""
            && ((s.calls[h].stage.Published? && s.calls[h].publishes == 1)
                || (s.calls[h].stage.MustPublish? && s.calls[h].publishes == 0))
  {
    RunInvariant(c, run, |run| - 1);
    var s := run[|run| - 1];
    assert SlotOk(c, s, id) && StageOk(c, s.calls[s.slots[id].holder]);
  }

  /** The same from the copy's side: a copy still queued, dropped, evicted, discarded, or
      answered "seen" never took a slot. */
  lemma BystandersClaimNothing(c: Config, run: seq<State>, k: nat)
    requires IsRun(c, run) && k < |run[|run| - 1].calls|
    requires var stage := run[|run| - 1].calls[k].stage;
             stage.Queued? || stage.Dropped? || stage.Evicted? || stage.Discarded? || stage.Seen?
    ensures var s := run[|run| - 1];
            && !s.calls[k].claimed && s.calls[k].publishes == 0
            && forall id :: id in s.slots ==> s.slots[id].holder != k
  {
    RunInvariant(c, run, |run| - 1);
    var s := run[|run| - 1];
    assert StageOk(c, s.calls[k]);
    forall id | id in s.slots ensures s.slots[id].holder != k {
      assert SlotOk(c, s, id);
    }
  }

  ghost predicate AllFinished(s: State) {
    forall k :: 0 <= k < |s.calls| ==> !Unfinished(s.calls[k].stage)
  }

  /** Forwarded by its gate, not discarded by a check, and its instance did not stop on it. */
  predicate RanToTheEnd(x: Call) {
    !x.stage.Queued? && !x.stage.Dropped? && !x.stage.Evicted? && !x.stage.Discarded? && !x.stage.Killed?
  }

  predicate PublishedWithin(c: Config, h: Call, x: Call) {
    h.claimed && h.id == x.id && h.publishes == 1 && 0 <= x.dedupAt - h.dedupAt < c.ttl
  }

  /** A failover loses nothing: once every goroutine has finished, a copy with an id that was
      forwarded and not discarded was passed to Publish by its own call, or its id had been
      claimed less than one TTL before by a copy that was itself passed to Publish. */
  lemma HandOffLosesNothing(c: Config, run: seq<State>, k: nat)
    requires IsRun(c, run) && c.cleanStops
    requires var s := run[|run| - 1];
             AllFinished(s) && k < |s.calls| && s.calls[k].id != "" && RanToTheEnd(s.calls[k])
    ensures var s := run[|run| - 1];
            || s.calls[k].publishes == 1
            || exists h :: 0 <= h < |s.calls| && h != k && PublishedWithin(c, s.calls[h], s.calls[k])
  {
    RunInvariant(c, run, |run| - 1);
    var s := run[|run| - 1];
    var x := s.calls[k];
    assert StageOk(c, x) && SeenOk(c, s, x);
    if x.stage.Seen? {
      var h := x.stage.holder;
      assert StageOk(c, s.calls[h]) && !Unfinished(s.calls[h].stage);
      assert PublishedWithin(c, s.calls[h], x);
    }
  }

  /** What the matching of `maxAge` to the TTL buys. Write e, o and c for the times a copy was
      enqueued, released by Open and checked, and s for an earlier claim of its id. A copy
      that escapes as a duplicate satisfies ttl <= c - s <= ttl + (e - s) + (c - o): the
      claim lies at or before e + (c - o). */
  lemma EscapeIsBounded(c: Config, run: seq<State>, h: nat, k: nat)
    requires IsRun(c, run) && 0 < c.maxAge <= c.ttl
    requires Escapes(run[|run| - 1], h, k)
    ensures var x, s := run[|run| - 1].calls[k], run[|run| - 1].calls[h].dedupAt;
            && c.ttl <= x.dedupAt - s <= c.ttl + (x.enqueuedAt - s) + (x.dedupAt - x.releasedAt)
            && s <= x.enqueuedAt + (x.dedupAt - x.releasedAt)
  {
    ClaimsAreApart(c, run, h, k);
    RunInvariant(c, run, |run| - 1);
    assert TimesOk(c, run[|run| - 1].now, run[|run| - 1].calls[k]);
  }

  /** Both copies of one id won a slot, `h` no later than `k`. */
  predicate Escapes(s: State, h: nat, k: nat) {
    && h < |s.calls| && k < |s.calls| && h != k && s.calls[h].id == s.calls[k].id
    && s.calls[h].claimed && s.calls[k].claimed && s.calls[h].dedupAt <= s.calls[k].dedupAt
  }

  /** The late drain is caught: with 0 < maxAge <= ttl, a copy Redis answered for, whose id
      another copy had claimed at s with s > e + (c - o), was discarded as seen. At the tie
      s == e + (c - o) it is caught too unless the copy's age at release was the full TTL. */
  lemma LateDrainIsCaught(c: Config, run: seq<State>, h: nat, k: nat)
    requires IsRun(c, run) && 0 < c.maxAge <= c.ttl
    requires var s := run[|run| - 1];
             && h < |s.calls| && k < |s.calls| && h != k && s.calls[h].id == s.calls[k].id
             && s.calls[h].claimed && s.calls[k].answered && s.calls[h].dedupAt <= s.calls[k].dedupAt
    requires var x, s := run[|run| - 1].calls[k], run[|run| - 1].calls[h].dedupAt;
             || s > x.enqueuedAt + (x.dedupAt - x.releasedAt)
             || (s == x.enqueuedAt + (x.dedupAt - x.releasedAt) && x.releasedAt - x.enqueuedAt < c.ttl)
    ensures run[|run| - 1].calls[k].stage.Seen? && run[|run| - 1].calls[k].publishes == 0
  {
    var s := run[|run| - 1];
    RunInvariant(c, run, |run| - 1);
    assert StageOk(c, s.calls[k]) && TimesOk(c, s.now, s.calls[k]);
    if s.calls[k].claimed {
      ClaimsAreApart(c, run, h, k);
      EscapeIsBounded(c, run, h, k);
      assert false;
    }
  }

  // ---- Why each assumption is there -------------------------------------------------

  /** A copy of "m" reaches instance 0, whose gate is open, and instance 1, whose gate is not,
      at time 0. */
  lemma TwinArrival(c: Config) returns (run: seq<State>)
    requires c.ttl > 0 && c.maxLen > 0
    ensures IsRun(c, run)
    ensures var s := run[|run| - 1];
            && s.now == 0 && s.slots == map[]
            && s.insts == [Instance(Open, []), Instance(Queueing, [Entry(1, 0)])]
            && s.calls == [Call(0, "m", 0, 0, 0, false, false, 0, Forwarding),
                           Call(1, "m", 0, 0, 0, false, false, 0, Queued)]
  {
    run := [Start(2)];
    assert Start(2).insts == [Instance(Queueing, []), Instance(Queueing, [])];
    run := Extend(c, run, OpenGate(0));
    assert run[|run| - 1].insts == [Instance(Open, []), Instance(Queueing, [])];
    run := Extend(c, run, Arrive(0, "m"));
    var s := run[|run| - 1];
    assert s.insts[1].backlog == [] && Messages(s.insts[1].backlog[..0]) == [];
    assert EvictHead(c, s, 1).calls == s.calls && EvictHead(c, s, 1).insts == s.insts;
    run := Extend(c, run, Arrive(1, "m"));
    assert [] + [Entry(1, 0)] == [Entry(1, 0)];
  }

  /** Instance 0 wins the slot for copy 0 at time `at` and is left with Publish to call. */
  lemma TwinClaim(c: Config, at: nat) returns (run: seq<State>)
    requires c.ttl > 0 && c.maxLen > 0
    ensures IsRun(c, run)
    ensures var s := run[|run| - 1];
            && s.now == at && s.slots == map["m" := Slot(at + c.ttl, 0)]
            && s.insts == [Instance(Open, []), Instance(Queueing, [Entry(1, 0)])]
            && s.calls == [Call(0, "m", 0, 0, at, true, true, 0, MustPublish),
                           Call(1, "m", 0, 0, 0, false, false, 0, Queued)]
  {
    run := TwinArrival(c);
    run := Extend(c, run, Wait(at));
    run := Extend(c, run, Forward(0));
    run := Extend(c, run, Check(0, true));
    run := Extend(c, run, Dedup(0, Answered));
  }

  lemma OpenTwin(c: Config, s: State, at: int)
    requires |s.insts| == 2 && s.insts[1] == Instance(Queueing, [Entry(1, at)])
    requires |s.calls| == 2 && !Expired(Entry(1, at), s.now, c.maxAge)
    ensures var t := Apply(c, s, OpenGate(1));
            && t.now == s.now && t.slots == s.slots
            && t.calls == [s.calls[0], s.calls[1].(stage := Forwarding, releasedAt := s.now)]
  {
    var q := s.insts[1].backlog;
    var e := EvictHead(c, s, 1);
    assert HeadScan(q, s.now, c.maxAge) == 0 && q[0..] == q && Messages(q[..0]) == [];
    assert e.insts[1].backlog == q && e.calls == s.calls;
    assert Messages(q) == [1];
  }

  /** Instance 1 is then promoted at time `at` and its copy checked at once. */
  lemma TwinDrain(c: Config, run: seq<State>, d: nat, reply: Reply) returns (longer: seq<State>)
    requires IsRun(c, run)
    requires var s := run[|run| - 1];
             && |s.insts| == 2 && s.insts[1] == Instance(Queueing, [Entry(1, 0)])
             && |s.calls| == 2 && s.calls[1] == Call(1, "m", 0, 0, 0, false, false, 0, Queued)
             && !Expired(Entry(1, 0), s.now + d, c.maxAge)
    ensures IsRun(c, longer)
    ensures var s, t := run[|run| - 1], longer[|longer| - 1];
            var o := s.now + d;
            && t.now == o && |t.calls| == 2 && t.calls[0] == s.calls[0]
            && (if "m" in s.slots && o < s.slots["m"].expiry
                then t.slots == s.slots && t.calls[1] == Call(1, "m", 0, o, o, false, reply.Answered?, 0,
                       if reply.Answered? then Seen(s.slots["m"].holder) else MustPublish)
                else reply.Answered? ==> t.calls[1] == Call(1, "m", 0, o, o, true, true, 0, MustPublish))
  {
    longer := Extend(c, run, Wait(d));
    OpenTwin(c, longer[|longer| - 1], 0);
    longer := Extend(c, longer, OpenGate(1));
    longer := Extend(c, longer, Forward(1));
    longer := Extend(c, longer, Check(1, true));
    longer := Extend(c, longer, Dedup(1, reply));
  }

  ghost predicate BoundedUnlessNoEscape(c: Config, run: seq<State>, h: nat, k: nat) {
    IsRun(c, run) && Escapes(run[|run| - 1], h, k) ==>
      var x := run[|run| - 1].calls[k];
      run[|run| - 1].calls[h].dedupAt <= x.enqueuedAt + (x.dedupAt - x.releasedAt)
  }

  /** The bound of `EscapeIsBounded` over every run. */
  ghost predicate EscapesAreBounded(c: Config) {
    forall run: seq<State>, h: nat, k: nat :: BoundedUnlessNoEscape(c, run, h, k)
  }

  /** The gate's maxAge must be positive and at most the dedup TTL: that is exactly when no
      drained copy can slip past a claim made after it was enqueued. */
  lemma MaxAgeMustNotExceedTtl(c: Config)
    requires c.ttl > 0 && c.maxLen > 0
    ensures EscapesAreBounded(c) <==> 0 < c.maxAge <= c.ttl
  {
    if 0 < c.maxAge <= c.ttl {
      forall run: seq<State>, h: nat, k: nat ensures BoundedUnlessNoEscape(c, run, h, k) {
        if IsRun(c, run) && Escapes(run[|run| - 1], h, k) {
          EscapeIsBounded(c, run, h, k);
        }
      }
    } else {
      var run := TwinClaim(c, 1);
      run := TwinDrain(c, run, c.ttl, Answered);
      assert !BoundedUnlessNoEscape(c, run, 0, 1);
    }
  }

  /** An escape that the bound allows, at both ties at once: the claim is made the instant the
      twin is enqueued, the twin's age at release is exactly maxAge == ttl so it is kept, and
      the key is gone exactly then. */
  lemma EscapeAtTheTie(c: Config) returns (run: seq<State>)
    requires c.ttl > 0 && c.maxLen > 0 && c.maxAge == c.ttl
    ensures IsRun(c, run) && Escapes(run[|run| - 1], 0, 1)
    ensures var x := run[|run| - 1].calls[1];
            && x.releasedAt - x.enqueuedAt == c.maxAge
            && run[|run| - 1].calls[0].dedupAt == x.enqueuedAt + (x.dedupAt - x.releasedAt)
  {
    run := TwinClaim(c, 0);
    run := TwinDrain(c, run, c.ttl, Answered);
  }

  // ---- When no duplicate escapes ----------------------------------------------------

  /** Instance 0, whose gate is open, wins the slot for its copy at time 0. */
  lemma ClaimAtZero(c: Config) returns (run: seq<State>)
    requires c.ttl > 0
    ensures IsRun(c, run)
    ensures var s := run[|run| - 1];
            && s.now == 0 && s.slots == map["m" := Slot(c.ttl, 0)]
            && s.insts == [Instance(Open, []), Instance(Queueing, [])]
            && s.calls == [Call(0, "m", 0, 0, 0, true, true, 0, MustPublish)]
  {
    run := [Start(2)];
    assert Start(2).insts == [Instance(Queueing, []), Instance(Queueing, [])];
    run := Extend(c, run, OpenGate(0));
    assert run[|run| - 1].insts == [Instance(Open, []), Instance(Queueing, [])] && run[|run| - 1].calls == [];
    run := Extend(c, run, Arrive(0, "m"));
    assert run[|run| - 1].calls == [Call(0, "m", 0, 0, 0, false, false, 0, Forwarding)];
    run := Extend(c, run, Forward(0));
    run := Extend(c, run, Check(0, true));
    run := Extend(c, run, Dedup(0, Answered));
  }

  /** The twin reaches instance 1, whose gate is not open, `lag` later. */
  lemma EarlyClaim(c: Config, lag: nat) returns (run: seq<State>)
    requires c.ttl > 0 && c.maxLen > 0
    ensures IsRun(c, run)
    ensures var s := run[|run| - 1];
            && s.now == lag && s.slots == map["m" := Slot(c.ttl, 0)]
            && s.insts == [Instance(Open, []), Instance(Queueing, [Entry(1, lag)])]
            && s.calls == [Call(0, "m", 0, 0, 0, true, true, 0, MustPublish),
                           Call(1, "m", lag, lag, lag, false, false, 0, Queued)]
  {
    run := ClaimAtZero(c);
    run := Extend(c, run, Wait(lag));
    var s := run[|run| - 1];
    assert s.insts[1].backlog == [] && Messages(s.insts[1].backlog[..0]) == [];
    assert EvictHead(c, s, 1).calls == s.calls && EvictHead(c, s, 1).insts == s.insts;
    run := Extend(c, run, Arrive(1, "m"));
    assert [] + [Entry(1, lag)] == [Entry(1, lag)];
  }

  /** The twin is released `wait` after it was queued and checked `delay` after that, when the
      slot has expired: it escapes. */
  lemma LateTwinEscapes(c: Config, lag: nat, wait: nat, delay: nat) returns (run: seq<State>)
    requires c.ttl > 0 && c.maxLen > 0 && (c.maxAge <= 0 || wait <= c.maxAge) && c.ttl <= lag + wait + delay
    ensures IsRun(c, run) && Escapes(run[|run| - 1], 0, 1)
    ensures var s := run[|run| - 1];
            && s.calls[0].dedupAt == 0 && s.calls[1].enqueuedAt == lag
            && s.calls[1].releasedAt == lag + wait && s.calls[1].dedupAt == lag + wait + delay
  {
    run := EarlyClaim(c, lag);
    run := Extend(c, run, Wait(wait));
    OpenTwin(c, run[|run| - 1], lag);
    run := Extend(c, run, OpenGate(1));
    run := Extend(c, run, Forward(1));
    run := Extend(c, run, Check(1, true));
    run := Extend(c, run, Wait(delay));
    run := Extend(c, run, Dedup(1, Answered));
  }

  /** With the age limit equal to the TTL a claim that precedes the enqueue by any part of the
      TTL is outlived by a drained copy whose age is strictly below the limit. */
  lemma EarlyClaimIsOutlived(c: Config, lag: nat) returns (run: seq<State>)
    requires c.ttl > 0 && c.maxLen > 0 && c.maxAge == c.ttl && 0 < lag < c.ttl
    ensures IsRun(c, run) && Escapes(run[|run| - 1], 0, 1)
    ensures var s := run[|run| - 1];
            && s.calls[0].dedupAt < s.calls[1].enqueuedAt
            && s.calls[1].releasedAt - s.calls[1].enqueuedAt < c.maxAge
            && s.calls[1].dedupAt == s.calls[1].releasedAt
  {
    run := LateTwinEscapes(c, lag, c.ttl - lag, 0);
  }

  /** An escape of a copy that was queued at most `lag` after the claim it escapes, and checked
      at most `delay` after its release. */
  predicate EscapesWithin(s: State, h: nat, k: nat, lag: nat, delay: nat) {
    && Escapes(s, h, k)
    && s.calls[k].enqueuedAt - s.calls[h].dedupAt <= lag
    && s.calls[k].dedupAt - s.calls[k].releasedAt <= delay
  }

  predicate Drained(x: Call) { x.enqueuedAt < x.releasedAt }

  ghost predicate RunEscapes(c: Config, run: seq<State>, h: nat, k: nat, lag: nat, delay: nat) {
    IsRun(c, run) && EscapesWithin(run[|run| - 1], h, k, lag, delay)
  }

  ghost predicate NothingEscapes(c: Config, lag: nat, delay: nat) {
    forall run: seq<State>, h: nat, k: nat :: !RunEscapes(c, run, h, k, lag, delay)
  }

  ghost predicate NoDrainedEscapes(c: Config, lag: nat, delay: nat) {
    forall run: seq<State>, h: nat, k: nat :: RunEscapes(c, run, h, k, lag, delay) ==> !Drained(run[|run| - 1].calls[k])
  }

  lemma EscapeTakesTtl(c: Config, run: seq<State>, h: nat, k: nat, lag: nat, delay: nat)
    requires IsRun(c, run) && c.maxAge > 0 && EscapesWithin(run[|run| - 1], h, k, lag, delay)
    ensures c.ttl <= c.maxAge + lag + delay
  {
    ClaimsAreApart(c, run, h, k);
    RunInvariant(c, run, |run| - 1);
    assert TimesOk(c, run[|run| - 1].now, run[|run| - 1].calls[k]);
  }

  /** When draining is safe: with copies arriving at most `lag` after the claim and checked at
      most `delay` after their release, no drained copy escapes in any run, and no other copy
      either, if and only if the age limit is on and leaves room for both below the TTL. */
  lemma DrainingIsSafeExactly(c: Config, lag: nat, delay: nat)
    requires c.ttl > 0 && c.maxLen > 0
    ensures NoDrainedEscapes(c, lag, delay) <==> 0 < c.maxAge && c.maxAge + lag + delay < c.ttl
    ensures NoDrainedEscapes(c, lag, delay) <==> NothingEscapes(c, lag, delay)
  {
    if 0 < c.maxAge && c.maxAge + lag + delay < c.ttl {
      forall run: seq<State>, h: nat, k: nat ensures !RunEscapes(c, run, h, k, lag, delay) {
        if RunEscapes(c, run, h, k, lag, delay) {
          EscapeTakesTtl(c, run, h, k, lag, delay);
        }
      }
    } else {
      var run := LateTwinEscapes(c, lag, if c.maxAge > 0 then c.maxAge else c.ttl, delay);
      assert RunEscapes(c, run, 0, 1, lag, delay) && Drained(run[|run| - 1].calls[1]);
    }
  }

  /** Stopping between the claim and Publish burns the slot: the twin's copy is discarded as
      seen, nobody publishes, and every goroutine has finished. */
  lemma StopAfterClaimLosesMessage(c: Config) returns (run: seq<State>)
    requires c.ttl > 0 && c.maxLen > 0 && !c.cleanStops
    ensures IsRun(c, run) && AllFinished(run[|run| - 1])
    ensures var s := run[|run| - 1];
            && |s.calls| == 2 && s.calls[1].stage == Seen(0) && s.calls[1].id != ""
            && forall k :: 0 <= k < |s.calls| ==> s.calls[k].publishes == 0
  {
    run := TwinClaim(c, 0);
    run := Extend(c, run, Stop(0));
    run := TwinDrain(c, run, 0, Answered);
  }

  /** A dedup error publishes anyway, so uniqueness needs Redis to answer. */
  lemma LostReplyPublishesTwice(c: Config) returns (run: seq<State>)
    requires c.ttl > 0 && c.maxLen > 0
    ensures IsRun(c, run)
    ensures var s := run[|run| - 1];
            && s.now == 0 && |s.calls| == 2 && s.calls[0].id == s.calls[1].id == "m"
            && s.calls[0].publishes == s.calls[1].publishes == 1
  {
    run := TwinClaim(c, 0);
    run := TwinDrain(c, run, 0, Lost(false));
    run := Extend(c, run, Publish(0));
    run := Extend(c, run, Publish(1));
  }
}
