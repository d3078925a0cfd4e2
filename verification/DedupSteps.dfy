/** Batched dedup under interleaving: callers, the collector, its timer, concurrent flushes
    under a semaphore, and every other client of the shared Redis are separate steps. Commands
    of one pipeline run one by one, in any order and with others in between, as they do on a
    cluster. The result is linearizability: the answers are those of one sequential order of
    direct calls in which every call lies between its own start and end. */
module DedupSteps {
  import opened Options
  import opened Dedup

  datatype Config = Config(ttl: int, batchSize: nat, batchWait: int, concurrency: nat)

  /** `Blocked` on the request channel, `Waiting` for the result channel. */
  datatype Caller = Blocked | Waiting | Returned(answer: Answer) | GaveUp

  datatype Place = Outside | InChannel | InBatch | InFlush(flush: nat) | Delivered

  /** `from` and `to` are lengths of the command log when Seen was called and returned; `slot`
      is the place of this request's command in the log. `sends` counts results sent;
      `received` is when the collector took the request. */
  datatype Call = Call(id: string, caller: Caller, place: Place, from: nat, to: nat,
                       slot: Option<nat>, result: Option<Answer>, sends: nat, received: int)

  /** One command as Redis ran it. `owner` is None for other clients. */
  datatype Executed = Executed(owner: Option<nat>, id: string, at: int, fault: Fault, answer: Answer)

  datatype Flush = Flush(batch: seq<nat>, sent: nat)

  datatype State = State(
    now: int,
    keys: Keys,
    log: seq<Executed>,
    calls: seq<Call>,
    channel: seq<nat>,
    collected: Collected,
    launched: nat,
    waiting: map<nat, seq<nat>>,
    running: map<nat, Flush>)

  datatype Action =
    | Wait(d: nat)
    | Invoke(id: string)
    | HandOver(r: nat)
    | GiveUp(r: nat)
    | Receive
    | TimerFires
    | Acquire(flush: nat)
    | Execute(flush: nat, i: nat, fault: Fault)
    | Deliver(flush: nat)
    | Finish(flush: nat)
    | Return(r: nat)
    | Foreign(id: string, fault: Fault)

  function Start(keys: Keys): State {
    State(0, keys, [], [], [], Collected([], None), 0, map[], map[])
  }

  // ---- Steps ------------------------------------------------------------------------

  function With(s: State, r: nat, c: Call): State
    requires r < |s.calls|
  {
    s.(calls := s.calls[r := c])
  }

  function Move(calls: seq<Call>, rs: seq<nat>, place: Place): seq<Call> {
    seq(|calls|, r requires 0 <= r < |calls| => if r in rs then calls[r].(place := place) else calls[r])
  }

  /** startFlush: the batch goes to a new goroutine, which first waits for the semaphore. */
  function Launch(s: State, c: Collected, flushed: seq<nat>): State {
    if flushed == [] then s.(collected := c)
    else s.(collected := c, launched := s.launched + 1, waiting := s.waiting[s.launched := flushed],
            calls := Move(s.calls, flushed, InFlush(s.launched)))
  }

  function Run(s: State, c: Config, owner: Option<nat>, id: string, fault: Fault): State {
    s.(keys := AfterDirect(s.keys, id, s.now, c.ttl, fault),
       log := s.log + [Executed(owner, id, s.now, fault, SeenDirect(s.keys, id, s.now, fault))])
  }

  predicate Enabled(c: Config, s: State, a: Action) {
    match a
    case HandOver(r) => r < |s.calls| && s.calls[r].caller.Blocked? && |s.channel| < 4 * c.batchSize
    case GiveUp(r) => r < |s.calls| && (s.calls[r].caller.Blocked? || s.calls[r].caller.Waiting?)
    case Receive => s.channel != [] && s.channel[0] < |s.calls|
    case TimerFires => s.collected.timer.Some? && s.collected.timer.value <= s.now
    case Acquire(k) => k in s.waiting && |s.running| < c.concurrency
    case Execute(k, i, _) =>
      k in s.running && i < |s.running[k].batch| && s.running[k].batch[i] < |s.calls|
      && s.calls[s.running[k].batch[i]].slot.None?
    case Deliver(k) =>
      // Exec has returned: every command of the batch has run
      k in s.running && s.running[k].sent < |s.running[k].batch|
      && forall r :: r in s.running[k].batch ==>
           r < |s.calls| && s.calls[r].slot.Some? && s.calls[r].slot.value < |s.log|
    case Finish(k) => k in s.running && s.running[k].sent == |s.running[k].batch|
    case Return(r) => r < |s.calls| && s.calls[r].caller.Waiting? && s.calls[r].result.Some?
    case _ => true
  }

  function Apply(c: Config, s: State, a: Action): State
    requires Enabled(c, s, a)
  {
    match a
    case Wait(d) => s.(now := s.now + d)
    case Invoke(id) => s.(calls := s.calls + [Call(id, Blocked, Outside, |s.log|, 0, None, None, 0, 0)])
    case HandOver(r) => With(s, r, s.calls[r].(caller := Waiting, place := InChannel)).(channel := s.channel + [r])
    case GiveUp(r) => With(s, r, s.calls[r].(caller := GaveUp))
    case Receive =>
      var r := s.channel[0];
      var (collected, flushed) := OnRequest(s.collected, r, s.now, c.batchSize, c.batchWait);
      var taken := s.calls[r].(place := InBatch, received := s.now);
      Launch(With(s, r, taken).(channel := s.channel[1..]), collected, flushed)
    case TimerFires =>
      var (collected, flushed) := OnTimer(s.collected);
      Launch(s, collected, flushed)
    case Acquire(k) => s.(waiting := s.waiting - {k}, running := s.running[k := Flush(s.waiting[k], 0)])
    case Execute(k, i, fault) =>
      var r := s.running[k].batch[i];
      With(Run(s, c, Some(r), s.calls[r].id, fault), r, s.calls[r].(slot := Some(|s.log|)))
    case Deliver(k) =>
      var f := s.running[k];
      var r := f.batch[f.sent];
      assert r in f.batch;
      With(s, r, s.calls[r].(place := Delivered, sends := s.calls[r].sends + 1,
                             result := Some(s.log[s.calls[r].slot.value].answer)))
        .(running := s.running[k := f.(sent := f.sent + 1)])
    case Finish(k) => s.(running := s.running - {k})
    case Return(r) => With(s, r, s.calls[r].(caller := Returned(s.calls[r].result.value), to := |s.log|))
    case Foreign(id, fault) => Run(s, c, None, id, fault)
  }

  ghost predicate Next(c: Config, s: State, t: State) {
    exists a :: Enabled(c, s, a) && t == Apply(c, s, a)
  }

  ghost predicate IsRun(c: Config, run: seq<State>) {
    && |run| > 0 && c.batchSize >= 1 && c.concurrency >= 1
    && run[0] == Start(run[0].keys)
    && forall i :: 0 < i < |run| ==> Next(c, run[i - 1], run[i])
  }

  // ---- The sequential history -------------------------------------------------------

  /** What the keys are after the commands of a log, run one at a time. */
  function Replay(keys: Keys, log: seq<Executed>, ttl: int): Keys {
    if log == [] then keys
    else
      var last := log[|log| - 1];
      AfterDirect(Replay(keys, log[..|log| - 1], ttl), last.id, last.at, ttl, last.fault)
  }

  /** A command was answered as a direct call at its place in the log would have been. */
  predicate AnsweredDirect(keys: Keys, log: seq<Executed>, ttl: int, p: nat)
    requires p < |log|
  {
    log[p].answer == SeenDirect(Replay(keys, log[..p], ttl), log[p].id, log[p].at, log[p].fault)
  }

  ghost predicate InTimeOrder(log: seq<Executed>) {
    forall p, q :: 0 <= p <= q < |log| ==> log[p].at <= log[q].at
  }

  /** Every command was answered so, and the log is in time order. */
  ghost predicate Sequential(keys: Keys, log: seq<Executed>, ttl: int) {
    (forall p :: 0 <= p < |log| ==> AnsweredDirect(keys, log, ttl, p)) && InTimeOrder(log)
  }

  ghost predicate HistoryOk(c: Config, keys: Keys, s: State) {
    && Sequential(keys, s.log, c.ttl)
    && Replay(keys, s.log, c.ttl) == s.keys
    && (forall p :: 0 <= p < |s.log| ==> s.log[p].at <= s.now)
  }

  /** A call's command is at its slot and nowhere else. */
  predicate SlotOk(s: State, r: nat)
    requires r < |s.calls|
  {
    var x := s.calls[r];
    && x.from <= |s.log|
    && (x.slot.Some? ==>
          && x.from <= x.slot.value < |s.log|
          && s.log[x.slot.value].owner == Some(r) && s.log[x.slot.value].id == x.id)
    && (x.result.Some? ==> x.slot.Some? && x.result.value == s.log[x.slot.value].answer)
    && (x.caller.Returned? ==> x.result == Some(x.caller.answer) && x.slot.value < x.to <= |s.log|)
    && x.sends == (if x.place.Delivered? then 1 else 0)
    && (x.place.Delivered? <==> x.result.Some?)
    && (x.caller.Blocked? ==> x.place.Outside?)
    && (x.caller.Waiting? ==> !x.place.Outside?)
  }

  predicate OwnerOk(s: State, p: nat)
    requires p < |s.log|
  {
    s.log[p].owner.Some? ==> s.log[p].owner.value < |s.calls| && s.calls[s.log[p].owner.value].slot == Some(p)
  }

  ghost predicate CallsOk(s: State) {
    && (forall r :: 0 <= r < |s.calls| ==> SlotOk(s, r))
    && (forall p :: 0 <= p < |s.log| ==> OwnerOk(s, p))
  }

  // ---- Where requests are -----------------------------------------------------------

  ghost predicate NoRepeats(rs: seq<nat>) {
    forall i, j :: 0 <= i < j < |rs| ==> rs[i] != rs[j]
  }

  ghost predicate AllAt(s: State, rs: seq<nat>, place: Place) {
    forall i :: 0 <= i < |rs| ==> rs[i] < |s.calls| && s.calls[rs[i]].place == place
  }

  ghost predicate CollectorOk(c: Config, s: State) {
    && NoRepeats(s.channel) && AllAt(s, s.channel, InChannel) && |s.channel| <= 4 * c.batchSize
    && NoRepeats(s.collected.batch) && AllAt(s, s.collected.batch, InBatch)
    && |s.collected.batch| < c.batchSize
    && (s.collected.timer.Some? <==> s.collected.batch != [])
  }

  ghost predicate WaitingOk(c: Config, s: State, k: nat)
    requires k in s.waiting
  {
    var b := s.waiting[k];
    k < s.launched && k !in s.running && 1 <= |b| <= c.batchSize && NoRepeats(b) && AllAt(s, b, InFlush(k))
  }

  ghost predicate RunningOk(c: Config, s: State, k: nat)
    requires k in s.running
  {
    var f := s.running[k];
    && k < s.launched && 1 <= |f.batch| <= c.batchSize && NoRepeats(f.batch) && f.sent <= |f.batch|
    && AllAt(s, f.batch[f.sent..], InFlush(k)) && AllAt(s, f.batch[..f.sent], Delivered)
  }

  /** A request is where its place says. */
  ghost predicate PlaceOk(s: State, r: nat)
    requires r < |s.calls|
  {
    match s.calls[r].place
    case InChannel => r in s.channel
    case InBatch => r in s.collected.batch
    case InFlush(k) =>
      if k in s.waiting then r in s.waiting[k]
      else k in s.running && s.running[k].sent <= |s.running[k].batch| && r in s.running[k].batch[s.running[k].sent..]
    case _ => true
  }

  ghost predicate PlacesOk(c: Config, s: State) {
    && CollectorOk(c, s)
    && (forall k :: k in s.waiting ==> WaitingOk(c, s, k))
    && (forall k :: k in s.running ==> RunningOk(c, s, k))
    && |s.running| <= c.concurrency
    && (forall r :: 0 <= r < |s.calls| ==> PlaceOk(s, r))
  }

  // ---- Preservation -----------------------------------------------------------------

  lemma SequentialSnoc(keys: Keys, log: seq<Executed>, e: Executed, ttl: int)
    requires Sequential(keys, log, ttl)
    requires e.answer == SeenDirect(Replay(keys, log, ttl), e.id, e.at, e.fault)
    requires forall p :: 0 <= p < |log| ==> log[p].at <= e.at
    ensures Sequential(keys, log + [e], ttl)
  {
    var longer := log + [e];
    forall p | 0 <= p < |longer| ensures AnsweredDirect(keys, longer, ttl, p) {
      if p < |log| {
        AnswerStays(keys, log, e, ttl, p);
      } else {
        assert longer[..p] == log;
      }
    }
  }

  lemma AnswerStays(keys: Keys, log: seq<Executed>, e: Executed, ttl: int, p: nat)
    requires p < |log| && AnsweredDirect(keys, log, ttl, p)
    ensures AnsweredDirect(keys, log + [e], ttl, p)
  {
    assert (log + [e])[..p] == log[..p];
  }

  lemma ReplaySnoc(keys: Keys, log: seq<Executed>, e: Executed, ttl: int)
    ensures Replay(keys, log + [e], ttl) == AfterDirect(Replay(keys, log, ttl), e.id, e.at, ttl, e.fault)
  {
    assert (log + [e])[..|log|] == log;
  }

  lemma RunKeepsHistory(c: Config, keys: Keys, s: State, owner: Option<nat>, id: string, fault: Fault)
    requires HistoryOk(c, keys, s)
    ensures HistoryOk(c, keys, Run(s, c, owner, id, fault))
  {
    var e := Executed(owner, id, s.now, fault, SeenDirect(s.keys, id, s.now, fault));
    SequentialSnoc(keys, s.log, e, c.ttl);
    ReplaySnoc(keys, s.log, e, c.ttl);
  }

  lemma ApplyKeepsHistory(c: Config, keys: Keys, s: State, a: Action)
    requires HistoryOk(c, keys, s) && Enabled(c, s, a)
    ensures HistoryOk(c, keys, Apply(c, s, a))
  {
    match a
    case Execute(k, i, fault) =>
      var r := s.running[k].batch[i];
      RunKeepsHistory(c, keys, s, Some(r), s.calls[r].id, fault);
    case Foreign(id, fault) => RunKeepsHistory(c, keys, s, None, id, fault);
    case _ =>
      RedisUntouched(c, s, a);
      SameHistory(c, keys, s, Apply(c, s, a));
  }

  lemma RedisUntouched(c: Config, s: State, a: Action)
    requires Enabled(c, s, a) && !a.Execute? && !a.Foreign?
    ensures var t := Apply(c, s, a); t.log == s.log && t.keys == s.keys && s.now <= t.now
  {
  }

  lemma SameHistory(c: Config, keys: Keys, s: State, t: State)
    requires HistoryOk(c, keys, s) && t.log == s.log && t.keys == s.keys && s.now <= t.now
    ensures HistoryOk(c, keys, t)
  {
  }

  /** One call changes and the log stands. */
  lemma OneCallKeepsCalls(s: State, t: State, r: nat)
    requires CallsOk(s) && r < |s.calls| && t.log == s.log
    requires |t.calls| == |s.calls| && t.calls == s.calls[r := t.calls[r]] && t.calls[r].slot == s.calls[r].slot
    requires SlotOk(t, r)
    ensures CallsOk(t)
  {
    forall q | 0 <= q < |t.calls| ensures SlotOk(t, q) {
      assert SlotOk(s, q);
    }
    forall p | 0 <= p < |t.log| ensures OwnerOk(t, p) {
      assert OwnerOk(s, p);
    }
  }

  lemma MoveKeepsCalls(s: State, t: State, rs: seq<nat>, place: Place)
    requires CallsOk(s) && t.log == s.log && t.calls == Move(s.calls, rs, place)
    requires !place.Delivered? && !place.Outside?
    requires forall r :: 0 <= r < |s.calls| && r in rs ==> !s.calls[r].place.Delivered? && !s.calls[r].caller.Blocked?
    ensures CallsOk(t)
  {
    forall q | 0 <= q < |t.calls| ensures SlotOk(t, q) {
      assert SlotOk(s, q);
    }
    forall p | 0 <= p < |t.log| ensures OwnerOk(t, p) {
      assert OwnerOk(s, p);
    }
  }

  lemma ExecuteKeepsCalls(c: Config, s: State, k: nat, i: nat, fault: Fault)
    requires CallsOk(s) && Enabled(c, s, Execute(k, i, fault))
    ensures CallsOk(Apply(c, s, Execute(k, i, fault)))
  {
    var t := Apply(c, s, Execute(k, i, fault));
    forall q | 0 <= q < |t.calls| ensures SlotOk(t, q) {
      assert SlotOk(s, q);
    }
    forall p | 0 <= p < |t.log| ensures OwnerOk(t, p) {
      assert p < |s.log| ==> OwnerOk(s, p);
    }
  }

  lemma ForeignKeepsCalls(c: Config, s: State, id: string, fault: Fault)
    requires CallsOk(s)
    ensures CallsOk(Apply(c, s, Foreign(id, fault)))
  {
    var t := Apply(c, s, Foreign(id, fault));
    forall q | 0 <= q < |t.calls| ensures SlotOk(t, q) {
      assert SlotOk(s, q);
    }
    forall p | 0 <= p < |t.log| ensures OwnerOk(t, p) {
      assert p < |s.log| ==> OwnerOk(s, p);
    }
  }

  lemma InvokeKeepsCalls(c: Config, s: State, id: string)
    requires CallsOk(s)
    ensures CallsOk(Apply(c, s, Invoke(id)))
  {
    var t := Apply(c, s, Invoke(id));
    forall q | 0 <= q < |t.calls| ensures SlotOk(t, q) {
      assert q < |s.calls| ==> SlotOk(s, q);
    }
    forall p | 0 <= p < |t.log| ensures OwnerOk(t, p) {
      assert OwnerOk(s, p);
    }
  }

  /** Requests on their way are neither delivered nor still blocked. */
  lemma OnTheWay(s: State, rs: seq<nat>, place: Place)
    requires CallsOk(s) && AllAt(s, rs, place) && !place.Delivered? && !place.Outside?
    ensures forall r :: r in rs ==> r < |s.calls| && !s.calls[r].place.Delivered? && !s.calls[r].caller.Blocked?
  {
    forall r | r in rs ensures r < |s.calls| && !s.calls[r].place.Delivered? && !s.calls[r].caller.Blocked? {
      var i :| 0 <= i < |rs| && rs[i] == r;
      assert SlotOk(s, r);
    }
  }

  lemma ReceiveKeepsCalls(c: Config, s: State)
    requires CallsOk(s) && CollectorOk(c, s) && Enabled(c, s, Receive)
    ensures CallsOk(Apply(c, s, Receive))
  {
    var r := s.channel[0];
    assert SlotOk(s, r);
    var u := With(s, r, s.calls[r].(place := InBatch, received := s.now)).(channel := s.channel[1..]);
    OneCallKeepsCalls(s, u, r);
    var (collected, flushed) := OnRequest(s.collected, r, s.now, c.batchSize, c.batchWait);
    if flushed != [] {
      forall i | 0 <= i < |flushed| ensures flushed[i] < |u.calls| && u.calls[flushed[i]].place == InBatch {
      }
      OnTheWay(u, flushed, InBatch);
      MoveKeepsCalls(u, Launch(u, collected, flushed), flushed, InFlush(u.launched));
    } else {
      SameCalls(u, Launch(u, collected, flushed));
    }
  }

  lemma DeliverKeepsCalls(c: Config, s: State, k: nat)
    requires CallsOk(s) && PlacesOk(c, s) && Enabled(c, s, Deliver(k))
    ensures CallsOk(Apply(c, s, Deliver(k)))
  {
    var f := s.running[k];
    var r := f.batch[f.sent];
    assert RunningOk(c, s, k) && f.batch[f.sent..][0] == r;
    assert SlotOk(s, r);
    OneCallKeepsCalls(s, Apply(c, s, Deliver(k)), r);
  }

  lemma ApplyKeepsCalls(c: Config, s: State, a: Action)
    requires CallsOk(s) && PlacesOk(c, s) && Enabled(c, s, a)
    ensures CallsOk(Apply(c, s, a))
  {
    var t := Apply(c, s, a);
    match a
    case Invoke(id) => InvokeKeepsCalls(c, s, id);
    case HandOver(r) => assert SlotOk(s, r); OneCallKeepsCalls(s, t, r);
    case GiveUp(r) => assert SlotOk(s, r); OneCallKeepsCalls(s, t, r);
    case Receive => ReceiveKeepsCalls(c, s);
    case TimerFires =>
      OnTheWay(s, s.collected.batch, InBatch);
      MoveKeepsCalls(s, t, s.collected.batch, InFlush(s.launched));
    case Execute(k, i, fault) => ExecuteKeepsCalls(c, s, k, i, fault);
    case Deliver(k) => DeliverKeepsCalls(c, s, k);
    case Return(r) => assert SlotOk(s, r); OneCallKeepsCalls(s, t, r);
    case Foreign(id, fault) => ForeignKeepsCalls(c, s, id, fault);
    case _ => SameCalls(s, t);
  }

  lemma SameCalls(s: State, t: State)
    requires CallsOk(s) && t.calls == s.calls && t.log == s.log
    ensures CallsOk(t)
  {
    forall q | 0 <= q < |t.calls| ensures SlotOk(t, q) {
      assert SlotOk(s, q);
    }
    forall p | 0 <= p < |t.log| ensures OwnerOk(t, p) {
      assert OwnerOk(s, p);
    }
  }

  /** Nobody moved. */
  lemma SamePlaces(c: Config, s: State, t: State)
    requires PlacesOk(c, s)
    requires t.channel == s.channel && t.collected == s.collected && t.launched == s.launched
    requires t.waiting == s.waiting && t.running == s.running && |s.calls| <= |t.calls|
    requires forall r :: 0 <= r < |s.calls| ==> t.calls[r].place == s.calls[r].place
    requires forall r :: |s.calls| <= r < |t.calls| ==> t.calls[r].place.Outside?
    ensures PlacesOk(c, t)
  {
    forall k | k in t.waiting ensures WaitingOk(c, t, k) {
      assert WaitingOk(c, s, k);
    }
    forall k | k in t.running ensures RunningOk(c, t, k) {
      assert RunningOk(c, s, k);
    }
    forall r | 0 <= r < |t.calls| ensures PlaceOk(t, r) {
      assert r < |s.calls| ==> PlaceOk(s, r);
    }
  }

  /** Flushes stand when no call in one moved. */
  lemma FlushesStand(c: Config, s: State, t: State, r: nat)
    requires PlacesOk(c, s) && r < |s.calls| && !s.calls[r].place.InFlush? && !s.calls[r].place.Delivered?
    requires t.launched == s.launched && t.waiting == s.waiting && t.running == s.running
    requires |t.calls| == |s.calls| && forall q :: 0 <= q < |s.calls| && q != r ==> t.calls[q].place == s.calls[q].place
    ensures forall k :: k in t.waiting ==> WaitingOk(c, t, k)
    ensures forall k :: k in t.running ==> RunningOk(c, t, k)
  {
    forall k | k in t.waiting ensures WaitingOk(c, t, k) {
      assert WaitingOk(c, s, k);
    }
    forall k | k in t.running ensures RunningOk(c, t, k) {
      assert RunningOk(c, s, k);
    }
  }

  lemma HandOverKeepsPlaces(c: Config, s: State, r: nat)
    requires PlacesOk(c, s) && CallsOk(s) && Enabled(c, s, HandOver(r))
    ensures PlacesOk(c, Apply(c, s, HandOver(r)))
  {
    var t := Apply(c, s, HandOver(r));
    assert SlotOk(s, r);
    FlushesStand(c, s, t, r);
    forall q | 0 <= q < |t.calls| ensures PlaceOk(t, q) {
      assert PlaceOk(s, q);
    }
  }

  /** The head of the channel moves to the end of the batch. */
  lemma TakeKeepsPlaces(c: Config, s: State, timer: Option<int>)
    requires PlacesOk(c, s) && s.channel != [] && timer.Some?
    requires |s.collected.batch| + 1 < c.batchSize
    ensures s.channel[0] < |s.calls|
    ensures PlacesOk(c, Take(s).(collected := Collected(s.collected.batch + [s.channel[0]], timer)))
  {
    var r := s.channel[0];
    var t := Take(s).(collected := Collected(s.collected.batch + [r], timer));
    FlushesStand(c, s, t, r);
    forall q | 0 <= q < |t.calls| ensures PlaceOk(t, q) {
      assert PlaceOk(s, q);
      if t.calls[q].place.InChannel? {
        assert q != r && s.channel == [r] + s.channel[1..];
      }
    }
  }

  function Take(s: State): State
    requires s.channel != [] && s.channel[0] < |s.calls|
  {
    With(s, s.channel[0], s.calls[s.channel[0]].(place := InBatch, received := s.now)).(channel := s.channel[1..])
  }

  /** Launching the whole batch, whose members may include one just taken from the channel. */
  lemma LaunchKeepsFlushes(c: Config, u: State, rs: seq<nat>)
    requires forall k :: k in u.waiting ==> WaitingOk(c, u, k)
    requires forall k :: k in u.running ==> RunningOk(c, u, k)
    requires NoRepeats(rs) && AllAt(u, rs, InBatch) && 1 <= |rs| <= c.batchSize
    ensures var t := Launch(u, Collected([], None), rs);
            && (forall k :: k in t.waiting ==> WaitingOk(c, t, k))
            && (forall k :: k in t.running ==> RunningOk(c, t, k))
  {
    var t := Launch(u, Collected([], None), rs);
    forall r | 0 <= r < |u.calls| ensures r in rs ==> u.calls[r].place == InBatch {
    }
    forall k | k in t.waiting ensures WaitingOk(c, t, k) {
      assert k in u.waiting ==> WaitingOk(c, u, k);
      assert u.launched in u.running ==> RunningOk(c, u, u.launched);
      assert u.launched in u.waiting ==> WaitingOk(c, u, u.launched);
    }
    forall k | k in t.running ensures RunningOk(c, t, k) {
      assert RunningOk(c, u, k);
    }
  }

  lemma LaunchKeepsPlaces(c: Config, u: State, rs: seq<nat>)
    requires forall k :: k in u.waiting ==> WaitingOk(c, u, k)
    requires forall k :: k in u.running ==> RunningOk(c, u, k)
    requires |u.running| <= c.concurrency && c.batchSize >= 1
    requires NoRepeats(u.channel) && AllAt(u, u.channel, InChannel) && |u.channel| <= 4 * c.batchSize
    requires NoRepeats(rs) && AllAt(u, rs, InBatch) && 1 <= |rs| <= c.batchSize
    requires forall r :: 0 <= r < |u.calls| ==> PlaceOk(u, r) || (u.calls[r].place.InBatch? && r in rs)
    requires forall r :: r in u.collected.batch ==> r in rs
    ensures PlacesOk(c, Launch(u, Collected([], None), rs))
  {
    var t := Launch(u, Collected([], None), rs);
    LaunchKeepsFlushes(c, u, rs);
    forall r | 0 <= r < |u.calls| ensures r in rs ==> u.calls[r].place == InBatch {
    }
    forall r | 0 <= r < |t.calls| ensures PlaceOk(t, r) {
      if r !in rs {
        assert PlaceOk(u, r) && t.calls[r] == u.calls[r];
      }
    }
  }

  lemma ReceiveKeepsPlaces(c: Config, s: State)
    requires PlacesOk(c, s) && Enabled(c, s, Receive)
    ensures PlacesOk(c, Apply(c, s, Receive))
  {
    var r := s.channel[0];
    var u := Take(s);
    var (collected, flushed) := OnRequest(s.collected, r, s.now, c.batchSize, c.batchWait);
    if flushed == [] {
      TakeKeepsPlaces(c, s, collected.timer);
    } else {
      FlushesStand(c, s, u, r);
      forall q | 0 <= q < |u.calls| ensures PlaceOk(u, q) || (u.calls[q].place.InBatch? && q in flushed) {
        assert PlaceOk(s, q);
        if u.calls[q].place.InChannel? {
          assert q != r && s.channel == [r] + s.channel[1..];
        }
      }
      LaunchKeepsPlaces(c, u, flushed);
    }
  }

  lemma TimerKeepsPlaces(c: Config, s: State)
    requires PlacesOk(c, s) && Enabled(c, s, TimerFires) && c.batchSize >= 1
    ensures PlacesOk(c, Apply(c, s, TimerFires))
  {
    LaunchKeepsPlaces(c, s, s.collected.batch);
  }

  lemma AcquireKeepsPlaces(c: Config, s: State, k: nat)
    requires PlacesOk(c, s) && Enabled(c, s, Acquire(k))
    ensures PlacesOk(c, Apply(c, s, Acquire(k)))
  {
    var t := Apply(c, s, Acquire(k));
    var b := s.waiting[k];
    assert WaitingOk(c, s, k) && b[0..] == b;
    forall j | j in t.waiting ensures WaitingOk(c, t, j) {
      assert WaitingOk(c, s, j);
    }
    forall j | j in t.running ensures RunningOk(c, t, j) {
      assert j != k ==> RunningOk(c, s, j);
    }
    forall r | 0 <= r < |t.calls| ensures PlaceOk(t, r) {
      assert PlaceOk(s, r);
    }
  }

  /** The first undelivered request of a flush moves to the delivered ones. */
  lemma OneMoreDelivered(s: State, t: State, batch: seq<nat>, sent: nat, k: nat)
    requires sent < |batch| && NoRepeats(batch) && |t.calls| == |s.calls|
    requires AllAt(s, batch[sent..], InFlush(k)) && AllAt(s, batch[..sent], Delivered)
    requires forall r :: 0 <= r < |s.calls| ==>
      t.calls[r].place == if r == batch[sent] then Delivered else s.calls[r].place
    ensures AllAt(t, batch[sent + 1..], InFlush(k)) && AllAt(t, batch[..sent + 1], Delivered)
  {
    var rest, done := batch[sent + 1..], batch[..sent + 1];
    assert batch[sent..][0] == batch[sent];
    forall i | 0 <= i < |rest| ensures rest[i] < |t.calls| && t.calls[rest[i]].place == InFlush(k) {
      assert rest[i] == batch[sent..][i + 1] == batch[sent + 1 + i];
    }
    forall i | 0 <= i < |done| ensures done[i] < |t.calls| && t.calls[done[i]].place == Delivered {
      if i < sent {
        assert done[i] == batch[..sent][i];
      }
    }
  }

  lemma DeliverKeepsFlush(c: Config, s: State, k: nat)
    requires PlacesOk(c, s) && Enabled(c, s, Deliver(k))
    ensures var t := Apply(c, s, Deliver(k));
            RunningOk(c, t, k) && s.calls[s.running[k].batch[s.running[k].sent]].place == InFlush(k)
  {
    var f := s.running[k];
    assert RunningOk(c, s, k);
    OneMoreDelivered(s, Apply(c, s, Deliver(k)), f.batch, f.sent, k);
    assert f.batch[f.sent..][0] == f.batch[f.sent];
  }

  lemma DeliverKeepsOthers(c: Config, s: State, k: nat)
    requires PlacesOk(c, s) && Enabled(c, s, Deliver(k))
    requires s.calls[s.running[k].batch[s.running[k].sent]].place == InFlush(k)
    ensures var t := Apply(c, s, Deliver(k));
            && (forall j :: j in t.waiting ==> WaitingOk(c, t, j))
            && (forall j :: j in t.running && j != k ==> RunningOk(c, t, j))
  {
    var t := Apply(c, s, Deliver(k));
    forall j | j in t.waiting ensures WaitingOk(c, t, j) {
      assert WaitingOk(c, s, j) && WaitingOk(c, s, j) ==> j != k;
    }
    forall j | j in t.running && j != k ensures RunningOk(c, t, j) {
      assert RunningOk(c, s, j);
    }
  }

  lemma DeliverKeepsPlace(c: Config, s: State, k: nat, q: nat)
    requires PlacesOk(c, s) && Enabled(c, s, Deliver(k)) && q < |s.calls|
    ensures PlaceOk(Apply(c, s, Deliver(k)), q)
  {
    var f := s.running[k];
    assert RunningOk(c, s, k) && f.batch[f.sent..] == [f.batch[f.sent]] + f.batch[f.sent + 1..];
    assert PlaceOk(s, q);
  }

  lemma DeliverKeepsCollector(c: Config, s: State, k: nat)
    requires PlacesOk(c, s) && Enabled(c, s, Deliver(k))
    requires s.calls[s.running[k].batch[s.running[k].sent]].place == InFlush(k)
    ensures CollectorOk(c, Apply(c, s, Deliver(k)))
  {
  }

  lemma DeliverKeepsPlaces(c: Config, s: State, k: nat)
    requires PlacesOk(c, s) && Enabled(c, s, Deliver(k))
    ensures PlacesOk(c, Apply(c, s, Deliver(k)))
  {
    var t := Apply(c, s, Deliver(k));
    DeliverKeepsFlush(c, s, k);
    DeliverKeepsOthers(c, s, k);
    DeliverKeepsCollector(c, s, k);
    forall q | 0 <= q < |t.calls| ensures PlaceOk(t, q) {
      DeliverKeepsPlace(c, s, k, q);
    }
    assert t.running.Keys == s.running.Keys;
    assert |t.running| == |t.running.Keys| && |s.running| == |s.running.Keys|;
  }

  lemma FinishKeepsPlaces(c: Config, s: State, k: nat)
    requires PlacesOk(c, s) && Enabled(c, s, Finish(k))
    ensures PlacesOk(c, Apply(c, s, Finish(k)))
  {
    var t := Apply(c, s, Finish(k));
    assert RunningOk(c, s, k);
    assert t.running.Keys == s.running.Keys - {k};
    assert |t.running| == |t.running.Keys| && |s.running| == |s.running.Keys|;
    forall j | j in t.waiting ensures WaitingOk(c, t, j) {
      assert WaitingOk(c, s, j);
    }
    forall j | j in t.running ensures RunningOk(c, t, j) {
      assert RunningOk(c, s, j);
    }
    forall r | 0 <= r < |t.calls| ensures PlaceOk(t, r) {
      assert PlaceOk(s, r);
    }
  }

  /** The steps in which no request moves. */
  predicate Still(a: Action) {
    a.Wait? || a.Invoke? || a.GiveUp? || a.Execute? || a.Return? || a.Foreign?
  }

  lemma StillKeepsPlaces(c: Config, s: State, a: Action)
    requires PlacesOk(c, s) && Enabled(c, s, a) && Still(a)
    ensures PlacesOk(c, Apply(c, s, a))
  {
    SamePlaces(c, s, Apply(c, s, a));
  }

  lemma ApplyKeepsPlaces(c: Config, s: State, a: Action)
    requires CallsOk(s) && PlacesOk(c, s) && Enabled(c, s, a) && c.batchSize >= 1
    ensures PlacesOk(c, Apply(c, s, a))
  {
    if Still(a) {
      StillKeepsPlaces(c, s, a);
    } else {
      match a
      case HandOver(r) => HandOverKeepsPlaces(c, s, r);
      case Receive => ReceiveKeepsPlaces(c, s);
      case TimerFires => TimerKeepsPlaces(c, s);
      case Acquire(k) => AcquireKeepsPlaces(c, s, k);
      case Deliver(k) => DeliverKeepsPlaces(c, s, k);
      case Finish(k) => FinishKeepsPlaces(c, s, k);
    }
  }

  lemma {:induction false} RunInvariant(c: Config, run: seq<State>, i: nat)
    requires IsRun(c, run) && i < |run|
    ensures HistoryOk(c, run[0].keys, run[i]) && CallsOk(run[i]) && PlacesOk(c, run[i])
  {
    if i > 0 {
      RunInvariant(c, run, i - 1);
      assert Next(c, run[i - 1], run[i]);
      var a :| Enabled(c, run[i - 1], a) && run[i] == Apply(c, run[i - 1], a);
      ApplyKeepsHistory(c, run[0].keys, run[i - 1], a);
      ApplyKeepsCalls(c, run[i - 1], a);
      ApplyKeepsPlaces(c, run[i - 1], a);
    }
  }

  // ---- What holds of every run ------------------------------------------------------

  /** Every call that returned an answer was answered by its own single command, which ran
      while the call was in progress; and what it was told is what a direct SET NX call at
      that place of the log, run one at a time from the initial keys, answers. */
  lemma AnswersAreDirect(c: Config, run: seq<State>, r: nat)
    requires IsRun(c, run) && r < |run[|run| - 1].calls| && run[|run| - 1].calls[r].caller.Returned?
    ensures var s := run[|run| - 1];
            var x := s.calls[r];
            && x.slot.Some?
            && var p := x.slot.value;
            && x.from <= p < x.to <= |s.log|
            && s.log[p].id == x.id && s.log[p].owner == Some(r)
            && x.caller.answer == SeenDirect(Replay(run[0].keys, s.log[..p], c.ttl), x.id, s.log[p].at, s.log[p].fault)
            && x.sends == 1
  {
    RunInvariant(c, run, |run| - 1);
    var s := run[|run| - 1];
    assert SlotOk(s, r);
    assert AnsweredDirect(run[0].keys, s.log, c.ttl, s.calls[r].slot.value);
  }

  /** No request is ever executed twice or answered twice, whether or not its caller waited. */
  lemma OneCommandOneAnswer(c: Config, run: seq<State>, r: nat, p: nat, q: nat)
    requires IsRun(c, run) && r < |run[|run| - 1].calls|
    requires var s := run[|run| - 1];
             p < |s.log| && q < |s.log| && s.log[p].owner == s.log[q].owner == Some(r)
    ensures p == q && run[|run| - 1].calls[r].sends <= 1
  {
    RunInvariant(c, run, |run| - 1);
    var s := run[|run| - 1];
    assert OwnerOk(s, p) && OwnerOk(s, q) && SlotOk(s, r);
  }

  /** Spans that do not overlap are in the order of their slots. */
  lemma SpansOrderSlots(c: Config, run: seq<State>, r: nat, q: nat)
    requires IsRun(c, run)
    requires var s := run[|run| - 1];
             && r < |s.calls| && q < |s.calls| && s.calls[r].caller.Returned? && s.calls[q].caller.Returned?
             && s.calls[r].to <= s.calls[q].from
    ensures var s := run[|run| - 1];
            s.calls[r].slot.Some? && s.calls[q].slot.Some? && s.calls[r].slot.value < s.calls[q].slot.value
  {
    AnswersAreDirect(c, run, r);
    AnswersAreDirect(c, run, q);
  }

  /** What a state fixes for all later ones: the log only grows, a call that has returned stays
      as it returned, and calls made later begin behind the log of now. */
  ghost predicate Fixes(s: State, t: State) {
    && |s.log| <= |t.log| && |s.calls| <= |t.calls|
    && (forall k :: 0 <= k < |s.calls| ==> StaysAs(s.calls[k], t.calls[k]))
    && (forall k :: |s.calls| <= k < |t.calls| ==> |s.log| <= t.calls[k].from)
  }

  predicate StaysAs(x: Call, y: Call) {
    y.from == x.from && (x.caller.Returned? ==> y.caller == x.caller && y.to == x.to)
  }

  lemma ApplyFixes(c: Config, s: State, a: Action)
    requires Enabled(c, s, a)
    ensures Fixes(s, Apply(c, s, a))
  {
    if a.Receive? || a.TimerFires? {
      CollectorFixes(c, s, a);
    }
  }

  lemma CollectorFixes(c: Config, s: State, a: Action)
    requires Enabled(c, s, a) && (a.Receive? || a.TimerFires?)
    ensures Fixes(s, Apply(c, s, a))
  {
  }

  lemma StepFixes(c: Config, s: State, t: State)
    requires Next(c, s, t)
    ensures Fixes(s, t)
  {
    var a :| Enabled(c, s, a) && t == Apply(c, s, a);
    ApplyFixes(c, s, a);
  }

  lemma RunFixes(c: Config, run: seq<State>, i: nat, j: nat)
    requires IsRun(c, run) && i <= j < |run|
    ensures Fixes(run[i], run[j])
  {
    forall k | i < k <= j ensures Fixes(run[k - 1], run[k]) {
      StepFixes(c, run[k - 1], run[k]);
    }
    StepsFix(run, i, j);
  }

  lemma {:induction false} StepsFix(run: seq<State>, i: nat, j: nat)
    requires i <= j < |run| && forall k :: i < k <= j ==> Fixes(run[k - 1], run[k])
    ensures Fixes(run[i], run[j])
    decreases j
  {
    if i < j {
      StepsFix(run, i, j - 1);
      FixesTrans(run[i], run[j - 1], run[j]);
    }
  }

  lemma FixesTrans(s: State, t: State, u: State)
    requires Fixes(s, t) && Fixes(t, u)
    ensures Fixes(s, u)
  {
    forall k | 0 <= k < |s.calls| ensures StaysAs(s.calls[k], u.calls[k]) {
      assert StaysAs(s.calls[k], t.calls[k]) && StaysAs(t.calls[k], u.calls[k]);
    }
    forall k | |s.calls| <= k < |u.calls| ensures |s.log| <= u.calls[k].from {
      assert k < |t.calls| ==> StaysAs(t.calls[k], u.calls[k]);
    }
  }

  /** The order respects real time: a call that had returned at some state of the run, in which
      another had not yet begun, comes first. */
  lemma OrderRespectsRealTime(c: Config, run: seq<State>, i: nat, r: nat, q: nat)
    requires IsRun(c, run) && i < |run|
    requires r < |run[i].calls| && run[i].calls[r].caller.Returned?
    requires |run[i].calls| <= q < |run[|run| - 1].calls| && run[|run| - 1].calls[q].caller.Returned?
    ensures var s := run[|run| - 1];
            && s.calls[r].caller == run[i].calls[r].caller
            && s.calls[r].slot.Some? && s.calls[q].slot.Some? && s.calls[r].slot.value < s.calls[q].slot.value
  {
    RunInvariant(c, run, i);
    assert SlotOk(run[i], r);
    RunFixes(c, run, i, |run| - 1);
    SpansOrderSlots(c, run, r, q);
  }

  /** Nothing is lost on the way: with the channel and the batch empty and no flush waiting or
      running, every caller that handed a request over has its answer. */
  lemma NoRequestIsLost(c: Config, run: seq<State>, r: nat)
    requires IsRun(c, run)
    requires var s := run[|run| - 1];
             && s.channel == [] && s.collected.batch == [] && s.waiting == map[] && s.running == map[]
             && r < |s.calls| && s.calls[r].caller.Waiting?
    ensures run[|run| - 1].calls[r].result.Some?
  {
    RunInvariant(c, run, |run| - 1);
    assert SlotOk(run[|run| - 1], r) && PlaceOk(run[|run| - 1], r);
  }

  /** The steps of the collector, its timer and the flushes. */
  predicate Progress(a: Action) {
    a.Receive? || a.TimerFires? || a.Acquire? || a.Execute? || a.Deliver? || a.Finish?
  }

  /** A running flush can always go on. */
  lemma FlushGoesOn(c: Config, s: State, k: nat) returns (a: Action)
    requires PlacesOk(c, s) && CallsOk(s) && k in s.running
    ensures Progress(a) && Enabled(c, s, a)
  {
    var f := s.running[k];
    assert RunningOk(c, s, k);
    forall i | 0 <= i < |f.batch| ensures f.batch[i] < |s.calls| {
      if i < f.sent {
        assert f.batch[..f.sent][i] == f.batch[i];
      } else {
        assert f.batch[f.sent..][i - f.sent] == f.batch[i];
      }
    }
    if f.sent == |f.batch| {
      a := Finish(k);
    } else if i :| 0 <= i < |f.batch| && s.calls[f.batch[i]].slot.None? {
      a := Execute(k, i, NoFault);
    } else {
      forall r | r in f.batch ensures s.calls[r].slot.Some? && s.calls[r].slot.value < |s.log| {
        var i :| 0 <= i < |f.batch| && f.batch[i] == r;
        assert SlotOk(s, r);
      }
      a := Deliver(k);
    }
  }

  /** No deadlock: while a request that was handed over is unanswered, one of these steps can be
      taken, at once or after the batch timer has come due. */
  lemma UnansweredMeansProgress(c: Config, run: seq<State>, r: nat) returns (d: nat, a: Action)
    requires IsRun(c, run) && r < |run[|run| - 1].calls|
    requires run[|run| - 1].calls[r].caller.Waiting? && run[|run| - 1].calls[r].result.None?
    ensures Progress(a) && Enabled(c, Apply(c, run[|run| - 1], Wait(d)), a)
  {
    RunInvariant(c, run, |run| - 1);
    var s := run[|run| - 1];
    assert SlotOk(s, r) && PlaceOk(s, r);
    d := 0;
    match s.calls[r].place
    case InChannel => a := Receive;
    case InBatch =>
      var due := s.collected.timer.value;
      d := if due <= s.now then 0 else due - s.now;
      a := TimerFires;
    case InFlush(k) =>
      if k in s.running {
        a := FlushGoesOn(c, s, k);
      } else if |s.running| < c.concurrency {
        a := Acquire(k);
      } else {
        assert |s.running| > 0;
        var other :| other in s.running;
        a := FlushGoesOn(c, s, other);
      }
  }

  /** A caller that gives up leaves its request where it is, and whatever that brings it never
      returns an answer. */
  lemma GivingUpLeavesRequest(c: Config, s: State, a: Action, r: nat)
    requires Enabled(c, s, GiveUp(r))
    ensures var t := Apply(c, s, GiveUp(r));
            && t == s.(calls := t.calls) && t.calls == s.calls[r := s.calls[r].(caller := GaveUp)]
            && (Enabled(c, t, a) ==> r < |Apply(c, t, a).calls| && Apply(c, t, a).calls[r].caller.GaveUp?)
  {
  }

  // ---- When a batch is flushed ------------------------------------------------------

  /** An armed timer is due batchWait after the collector took the oldest request of its batch. */
  ghost predicate TimerOk(c: Config, s: State) {
    var b := s.collected.batch;
    && (forall i :: 0 <= i < |b| ==> b[i] < |s.calls|)
    && (forall i :: 0 <= i < |b| ==> s.calls[b[0]].received <= s.calls[b[i]].received <= s.now)
    && (b != [] ==> s.collected.timer == Some(s.calls[b[0]].received + c.batchWait))
  }

  lemma ApplyKeepsTimer(c: Config, s: State, a: Action)
    requires TimerOk(c, s) && CollectorOk(c, s) && Enabled(c, s, a)
    ensures TimerOk(c, Apply(c, s, a))
  {
    if a.Receive? {
      ReceiveKeepsTimer(c, s);
    } else if !a.TimerFires? {
      CollectorUntouched(c, s, a);
    }
  }

  lemma ReceiveKeepsTimer(c: Config, s: State)
    requires TimerOk(c, s) && CollectorOk(c, s) && Enabled(c, s, Receive)
    ensures TimerOk(c, Apply(c, s, Receive))
  {
    var r := s.channel[0];
    forall i | 0 <= i < |s.collected.batch| ensures s.collected.batch[i] != r {
      assert s.calls[s.collected.batch[i]].place == InBatch && s.calls[s.channel[0]].place == InChannel;
    }
  }

  lemma CollectorUntouched(c: Config, s: State, a: Action)
    requires Enabled(c, s, a) && !a.Receive? && !a.TimerFires?
    ensures var t := Apply(c, s, a);
            && t.collected == s.collected && s.now <= t.now && |s.calls| <= |t.calls|
            && t.launched == s.launched
            && forall r :: 0 <= r < |s.calls| ==> t.calls[r].received == s.calls[r].received
  {
  }

  ghost predicate KeepsTimer(c: Config, s: State, t: State) { TimerOk(c, s) ==> TimerOk(c, t) }

  lemma RunKeepsTimer(c: Config, run: seq<State>, i: nat)
    requires IsRun(c, run) && i < |run|
    ensures TimerOk(c, run[i])
  {
    forall k | 0 < k <= i ensures KeepsTimer(c, run[k - 1], run[k]) {
      CollectorHolds(c, run, k - 1);
      NextAt(c, run, k);
      NextKeepsTimer(c, run[k - 1], run[k]);
    }
    TimersKept(c, run, i);
  }

  lemma {:induction false} TimersKept(c: Config, run: seq<State>, i: nat)
    requires i < |run| && TimerOk(c, run[0])
    requires forall k :: 0 < k <= i ==> KeepsTimer(c, run[k - 1], run[k])
    ensures TimerOk(c, run[i])
  {
    if i > 0 {
      TimersKept(c, run, i - 1);
      assert KeepsTimer(c, run[i - 1], run[i]);
    }
  }

  lemma CollectorHolds(c: Config, run: seq<State>, i: nat)
    requires IsRun(c, run) && i < |run|
    ensures CollectorOk(c, run[i])
  {
    RunInvariant(c, run, i);
  }

  lemma NextAt(c: Config, run: seq<State>, i: nat)
    requires IsRun(c, run) && 0 < i < |run|
    ensures Next(c, run[i - 1], run[i])
  {
  }

  lemma NextKeepsTimer(c: Config, s: State, t: State)
    requires CollectorOk(c, s) && Next(c, s, t)
    ensures KeepsTimer(c, s, t)
  {
    if TimerOk(c, s) {
      var a :| Enabled(c, s, a) && t == Apply(c, s, a);
      ApplyKeepsTimer(c, s, a);
    }
  }

  /** No request stays in the collector longer than batchWait without its timer being due: the
      timer of an open batch is due exactly batchWait after its oldest request was taken, and
      later requests do not push it back. */
  lemma TimerRunsFromOldest(c: Config, run: seq<State>, i: nat, k: nat)
    requires IsRun(c, run) && i < |run| && k < |run[i].collected.batch|
    ensures var s := run[i];
            var oldest, r := s.collected.batch[0], s.collected.batch[k];
            && oldest < |s.calls| && r < |s.calls|
            && s.collected.timer == Some(s.calls[oldest].received + c.batchWait)
            && s.calls[oldest].received <= s.calls[r].received
            && (s.calls[r].received + c.batchWait <= s.now ==> Enabled(c, s, TimerFires))
  {
    RunKeepsTimer(c, run, i);
  }

  /** And no batch is flushed early: one that is handed to a flush is full, or its timer has run
      out, batchWait after its oldest request was taken. */
  lemma FlushedFullOrDue(c: Config, run: seq<State>, i: nat)
    requires IsRun(c, run) && 0 < i < |run| && run[i].launched > run[i - 1].launched
    ensures var s, t := run[i - 1], run[i];
            && s.launched in t.waiting && t.waiting[s.launched] != []
            && var b := t.waiting[s.launched];
            && b[0] < |t.calls|
            && (|b| == c.batchSize || t.calls[b[0]].received + c.batchWait <= t.now)
  {
    RunKeepsTimer(c, run, i - 1);
    CollectorHolds(c, run, i - 1);
    NextAt(c, run, i);
    NextFlushes(c, run[i - 1], run[i]);
  }

  ghost predicate FullOrDue(c: Config, s: State, t: State) {
    && s.launched in t.waiting && t.waiting[s.launched] != []
    && var b := t.waiting[s.launched];
    && b[0] < |t.calls|
    && (|b| == c.batchSize || t.calls[b[0]].received + c.batchWait <= t.now)
  }

  lemma NextFlushes(c: Config, s: State, t: State)
    requires TimerOk(c, s) && CollectorOk(c, s) && Next(c, s, t) && t.launched > s.launched
    ensures FullOrDue(c, s, t)
  {
    var a :| Enabled(c, s, a) && t == Apply(c, s, a);
    if a.Receive? {
      ReceiveFlushes(c, s);
    } else if a.TimerFires? {
      TimerFlushes(c, s);
    } else {
      CollectorUntouched(c, s, a);
    }
  }

  lemma ReceiveFlushes(c: Config, s: State)
    requires TimerOk(c, s) && CollectorOk(c, s) && Enabled(c, s, Receive)
    requires Apply(c, s, Receive).launched > s.launched
    ensures FullOrDue(c, s, Apply(c, s, Receive))
  {
  }

  lemma TimerFlushes(c: Config, s: State)
    requires TimerOk(c, s) && CollectorOk(c, s) && Enabled(c, s, TimerFires)
    ensures FullOrDue(c, s, Apply(c, s, TimerFires))
  {
  }

  /** The collector and the semaphore: the timer is armed exactly when the batch is not empty,
      the batch is short of its limit between selects, every flush has 1 to batchSize
      requests, and at most `concurrency` run. */
  lemma BatchesStayBounded(c: Config, run: seq<State>, k: nat)
    requires IsRun(c, run)
    ensures var s := run[|run| - 1];
            && (s.collected.timer.Some? <==> s.collected.batch != [])
            && |s.collected.batch| < c.batchSize && |s.running| <= c.concurrency
            && (k in s.waiting ==> 1 <= |s.waiting[k]| <= c.batchSize)
            && (k in s.running ==> 1 <= |s.running[k].batch| <= c.batchSize)
  {
    RunInvariant(c, run, |run| - 1);
    var s := run[|run| - 1];
    assert k in s.waiting ==> WaitingOk(c, s, k);
    assert k in s.running ==> RunningOk(c, s, k);
  }

  // ---- The history itself -----------------------------------------------------------

  /** In any sequential history two "not seen" answers for one id are at least one TTL apart,
      whoever asked: NX never extends or replaces an unexpired key. */
  lemma {:induction false} WinnersAreApart(keys: Keys, log: seq<Executed>, ttl: int, p: nat, q: nat)
    requires Sequential(keys, log, ttl) && ttl > 0 && p < q < |log| && log[p].id == log[q].id
    requires log[p].answer == log[q].answer == Answer(false, false)
    ensures log[p].at + ttl <= log[q].at
  {
    var id := log[p].id;
    assert AnsweredDirect(keys, log, ttl, p) && AnsweredDirect(keys, log, ttl, q);
    assert log[..p + 1][..p] == log[..p];
    KeyStands(keys, log, ttl, p + 1, q, id, log[p].at + ttl);
  }

  /** No command takes a key back before its time. */
  lemma CommandKeepsKey(keys: Keys, e: Executed, ttl: int, id: string, expiry: int)
    requires ttl > 0 && id in keys && keys[id] >= expiry
    ensures var after := AfterDirect(keys, e.id, e.at, ttl, e.fault); id in after && after[id] >= expiry
  {
  }

  lemma {:induction false} KeyStands(keys: Keys, log: seq<Executed>, ttl: int, p: nat, q: nat, id: string, expiry: int)
    requires ttl > 0 && p <= q < |log|
    requires id in Replay(keys, log[..p], ttl) && Replay(keys, log[..p], ttl)[id] >= expiry
    ensures id in Replay(keys, log[..q], ttl) && Replay(keys, log[..q], ttl)[id] >= expiry
  {
    if p < q {
      KeyStands(keys, log, ttl, p, q - 1, id, expiry);
      assert log[..q][..q - 1] == log[..q - 1];
      CommandKeepsKey(Replay(keys, log[..q - 1], ttl), log[q - 1], ttl, id, expiry);
    }
  }

  /** So two callers that were both told "not seen" for one id had their commands run at least one
      TTL apart, whatever batches they were in. */
  lemma CallersWinApart(c: Config, run: seq<State>, r: nat, q: nat)
    requires IsRun(c, run) && c.ttl > 0
    requires var s := run[|run| - 1];
             && r < |s.calls| && q < |s.calls| && r != q && s.calls[r].id == s.calls[q].id
             && s.calls[r].caller == s.calls[q].caller == Returned(Answer(false, false))
    ensures var s := run[|run| - 1];
            && s.calls[r].slot.Some? && s.calls[q].slot.Some?
            && s.calls[r].slot.value < |s.log| && s.calls[q].slot.value < |s.log|
            && var x, y := s.log[s.calls[r].slot.value].at, s.log[s.calls[q].slot.value].at;
            x + c.ttl <= y || y + c.ttl <= x
  {
    RunInvariant(c, run, |run| - 1);
    var s := run[|run| - 1];
    assert SlotOk(s, r) && SlotOk(s, q);
    var x, y := s.calls[r].slot.value, s.calls[q].slot.value;
    WinnersAreApart(run[0].keys, s.log, c.ttl, if x < y then x else y, if x < y then y else x);
  }
}
