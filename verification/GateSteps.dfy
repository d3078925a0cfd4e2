/** The gate under interleaving. `Handle` and `Open` release the mutex before they forward, so
    a live message between its unlock and its forward, and every drain between its snapshot
    and its last forward, are steps of their own here. Messages are numbered by arrival. */
module GateSteps {
  import opened Gates

  /** Which call of the gate forwarded a message. */
  datatype Source = Live | ByDrain(index: nat)

  datatype Forward = Forward(tag: nat, source: Source)

  /** One `Open` past its locked part: `sent` messages of its snapshot are forwarded. */
  datatype Drain = Drain(snapshot: seq<nat>, sent: nat)

  datatype State = State(
    now: int,
    arrived: nat,
    mode: Mode,
    queue: seq<Entry<nat>>,
    live: multiset<nat>,
    drains: seq<Drain>,
    log: seq<Forward>,
    dropped: multiset<nat>,
    evicted: multiset<nat>)

  datatype Action =
    | Wait(d: nat)
    | HandleLocked
    | ForwardLive(tag: nat)
    | OpenLocked
    | ForwardNext(drain: nat)
    | ToQueueing
    | AskLen

  const START := State(0, 0, Queueing, [], multiset{}, [], [], multiset{}, multiset{})

  function Tags(q: seq<Entry<nat>>): multiset<nat> { multiset(Messages(q)) }

  function Evict(s: State, maxAge: int): State {
    var n := HeadScan(s.queue, s.now, maxAge);
    s.(queue := s.queue[n..], evicted := s.evicted + Tags(s.queue[..n]))
  }

  function Enqueue(s: State, maxLen: int): State {
    if |s.queue| >= maxLen then s.(arrived := s.arrived + 1, dropped := s.dropped + multiset{s.arrived})
    else s.(arrived := s.arrived + 1, queue := s.queue + [Entry(s.arrived, s.now)])
  }

  predicate Enabled(s: State, a: Action) {
    match a
    case ForwardLive(tag) => tag in s.live
    case ForwardNext(k) => k < |s.drains| && s.drains[k].sent < |s.drains[k].snapshot|
    case _ => true
  }

  function Apply(s: State, a: Action, maxLen: int, maxAge: int): State
    requires Enabled(s, a)
  {
    match a
    case Wait(d) => s.(now := s.now + d)
    case HandleLocked =>
      if s.mode.Open? then s.(arrived := s.arrived + 1, live := s.live + multiset{s.arrived})
      else Enqueue(Evict(s, maxAge), maxLen)
    case ForwardLive(tag) =>
      s.(live := s.live - multiset{tag}, log := s.log + [Forward(tag, Live)])
    case OpenLocked =>
      var e := Evict(s, maxAge);
      e.(mode := Open, queue := [], drains := e.drains + [Drain(Messages(e.queue), 0)])
    case ForwardNext(k) =>
      var d := s.drains[k];
      s.(drains := s.drains[k := d.(sent := d.sent + 1)],
         log := s.log + [Forward(d.snapshot[d.sent], ByDrain(k))])
    case ToQueueing => s.(mode := Queueing)
    case AskLen => Evict(s, maxAge)
  }

  ghost predicate Next(s: State, t: State, maxLen: int, maxAge: int) {
    exists a :: Enabled(s, a) && t == Apply(s, a, maxLen, maxAge)
  }

  ghost predicate IsRun(run: seq<State>, maxLen: int, maxAge: int) {
    |run| > 0 && run[0] == START && forall i :: 0 < i < |run| ==> Next(run[i - 1], run[i], maxLen, maxAge)
  }

  // ---- Conservation -----------------------------------------------------------------

  function Forwarded(log: seq<Forward>): multiset<nat> {
    if log == [] then multiset{} else Forwarded(log[..|log| - 1]) + multiset{log[|log| - 1].tag}
  }

  predicate DrainsFit(drains: seq<Drain>) {
    forall d :: d in drains ==> d.sent <= |d.snapshot|
  }

  predicate Unfinished(d: Drain) { d.sent < |d.snapshot| }

  function StillDraining(drains: seq<Drain>): multiset<nat>
    requires DrainsFit(drains)
  {
    if drains == [] then multiset{}
    else multiset(drains[0].snapshot[drains[0].sent..]) + StillDraining(drains[1..])
  }

  /** What one drain has forwarded, in the order it did. */
  function SentBy(log: seq<Forward>, k: nat): seq<nat> {
    if log == [] then []
    else
      var rest, last := SentBy(log[..|log| - 1], k), log[|log| - 1];
      if last.source == ByDrain(k) then rest + [last.tag] else rest
  }

  ghost predicate Increasing(s: seq<nat>) {
    forall i, j :: 0 <= i < j < |s| ==> s[i] < s[j]
  }

  /** How many copies of a message there are, over all the places it can be in. */
  function Copies(s: State, tag: nat): nat
    requires DrainsFit(s.drains)
  {
    Forwarded(s.log)[tag] + StillDraining(s.drains)[tag] + s.live[tag] + Tags(s.queue)[tag]
    + s.dropped[tag] + s.evicted[tag]
  }

  predicate Conserves(s: State, tag: nat) {
    DrainsFit(s.drains) && Copies(s, tag) == if tag < s.arrived then 1 else 0
  }

  ghost predicate QueueInOrder(s: State) {
    && Increasing(Messages(s.queue))
    && forall i :: 0 <= i < |s.queue| ==> s.queue[i].msg < s.arrived
  }

  ghost predicate DrainsInOrder(s: State) {
    && DrainsFit(s.drains)
    && (forall k :: 0 <= k < |s.drains| ==> Increasing(s.drains[k].snapshot))
    && (forall k :: 0 <= k < |s.drains| ==> SentBy(s.log, k) == s.drains[k].snapshot[..s.drains[k].sent])
    && (forall k :: |s.drains| <= k ==> SentBy(s.log, k) == [])
  }

  lemma TagsSplit(q: seq<Entry<nat>>, n: nat)
    requires n <= |q|
    ensures Tags(q) == Tags(q[..n]) + Tags(q[n..])
  {
    assert Messages(q) == Messages(q[..n]) + Messages(q[n..]);
  }

  lemma TagsSnoc(q: seq<Entry<nat>>, e: Entry<nat>)
    ensures Tags(q + [e]) == Tags(q) + multiset{e.msg}
  {
    assert Messages(q + [e]) == Messages(q) + [e.msg];
  }

  lemma ForwardedSnoc(log: seq<Forward>, f: Forward)
    ensures Forwarded(log + [f]) == Forwarded(log) + multiset{f.tag}
  {
    assert (log + [f])[..|log|] == log;
  }

  lemma SentBySnoc(log: seq<Forward>, f: Forward, k: nat)
    ensures SentBy(log + [f], k) == SentBy(log, k) + if f.source == ByDrain(k) then [f.tag] else []
  {
    assert (log + [f])[..|log|] == log;
  }

  lemma {:induction false} StillDrainingSnoc(drains: seq<Drain>, d: Drain)
    requires DrainsFit(drains) && d.sent == 0
    ensures DrainsFit(drains + [d])
    ensures StillDraining(drains + [d]) == StillDraining(drains) + multiset(d.snapshot)
  {
    if drains == [] {
      assert drains + [d] == [d] && d.snapshot[0..] == d.snapshot && [d][1..] == [];
    } else {
      assert (drains + [d])[1..] == drains[1..] + [d];
      StillDrainingSnoc(drains[1..], d);
    }
  }

  function Sent(d: Drain): Drain
    requires Unfinished(d)
  {
    d.(sent := d.sent + 1)
  }

  lemma OneSent(d: Drain)
    requires Unfinished(d)
    ensures multiset(d.snapshot[d.sent..]) == multiset(Sent(d).snapshot[Sent(d).sent..]) + multiset{d.snapshot[d.sent]}
  {
    assert d.snapshot[d.sent..] == [d.snapshot[d.sent]] + d.snapshot[d.sent + 1..];
  }

  lemma {:induction false} StillDrainingSend(drains: seq<Drain>, k: nat)
    requires DrainsFit(drains) && k < |drains| && Unfinished(drains[k])
    ensures var after := drains[k := Sent(drains[k])];
            && DrainsFit(after)
            && StillDraining(drains) == StillDraining(after) + multiset{drains[k].snapshot[drains[k].sent]}
  {
    var after := drains[k := Sent(drains[k])];
    if k == 0 {
      assert after[1..] == drains[1..];
      OneSent(drains[0]);
    } else {
      assert after[1..] == drains[1..][k - 1 := Sent(drains[k])] && after[0] == drains[0];
      StillDrainingSend(drains[1..], k - 1);
    }
  }

  lemma SendTakesOne(drains: seq<Drain>, k: nat, tag: nat)
    requires DrainsFit(drains) && k < |drains| && Unfinished(drains[k])
    ensures var after := drains[k := Sent(drains[k])];
            && DrainsFit(after)
            && StillDraining(drains)[tag]
               == StillDraining(after)[tag] + if drains[k].snapshot[drains[k].sent] == tag then 1 else 0
  {
    StillDrainingSend(drains, k);
  }

  lemma ForwardAddsOne(log: seq<Forward>, f: Forward, tag: nat)
    ensures Forwarded(log + [f])[tag] == Forwarded(log)[tag] + if f.tag == tag then 1 else 0
  {
    ForwardedSnoc(log, f);
  }

  lemma TakenOne(live: multiset<nat>, sent: nat, tag: nat)
    requires sent in live
    ensures live[tag] == (live - multiset{sent})[tag] + if sent == tag then 1 else 0
  {
  }

  lemma EvictKeepsCopies(s: State, maxAge: int, tag: nat)
    requires DrainsFit(s.drains)
    ensures Copies(Evict(s, maxAge), tag) == Copies(s, tag)
  {
    TagsSplit(s.queue, HeadScan(s.queue, s.now, maxAge));
  }

  lemma EvictKeepsOrder(s: State, maxAge: int)
    requires QueueInOrder(s)
    ensures QueueInOrder(Evict(s, maxAge))
  {
    var n := HeadScan(s.queue, s.now, maxAge);
    assert Messages(s.queue[n..]) == Messages(s.queue)[n..];
  }

  lemma EnqueueKeepsOrder(s: State, maxLen: int)
    requires QueueInOrder(s)
    ensures QueueInOrder(Enqueue(s, maxLen))
  {
    var q := s.queue + [Entry(s.arrived, s.now)];
    assert Messages(q) == Messages(s.queue) + [s.arrived];
  }

  lemma EnqueueConserves(s: State, maxLen: int, tag: nat)
    requires Conserves(s, tag)
    ensures Conserves(Enqueue(s, maxLen), tag)
  {
    TagsSnoc(s.queue, Entry(s.arrived, s.now));
  }

  lemma ApplyKeepsQueueOrder(s: State, a: Action, maxLen: int, maxAge: int)
    requires QueueInOrder(s) && Enabled(s, a)
    ensures QueueInOrder(Apply(s, a, maxLen, maxAge))
  {
    EvictKeepsOrder(s, maxAge);
    EnqueueKeepsOrder(Evict(s, maxAge), maxLen);
  }

  lemma ApplyConserves(s: State, a: Action, maxLen: int, maxAge: int, tag: nat)
    requires Conserves(s, tag) && Enabled(s, a)
    ensures Conserves(Apply(s, a, maxLen, maxAge), tag)
  {
    match a
    case HandleLocked => HandleConserves(s, maxLen, maxAge, tag);
    case ForwardLive(sent) => ForwardLiveConserves(s, sent, maxLen, maxAge, tag);
    case OpenLocked => OpenConserves(s, maxLen, maxAge, tag);
    case ForwardNext(k) => ForwardNextConserves(s, k, maxLen, maxAge, tag);
    case _ => RestConserves(s, a, maxLen, maxAge, tag);
  }

  lemma HandleConserves(s: State, maxLen: int, maxAge: int, tag: nat)
    requires Conserves(s, tag)
    ensures Conserves(Apply(s, HandleLocked, maxLen, maxAge), tag)
  {
    if s.mode.Queueing? {
      EvictKeepsCopies(s, maxAge, tag);
      EnqueueConserves(Evict(s, maxAge), maxLen, tag);
    }
  }

  lemma RestConserves(s: State, a: Action, maxLen: int, maxAge: int, tag: nat)
    requires Conserves(s, tag) && (a.Wait? || a.ToQueueing? || a.AskLen?)
    ensures Conserves(Apply(s, a, maxLen, maxAge), tag)
  {
    if a.AskLen? {
      EvictKeepsCopies(s, maxAge, tag);
    }
  }

  lemma ForwardLiveConserves(s: State, sent: nat, maxLen: int, maxAge: int, tag: nat)
    requires Conserves(s, tag) && sent in s.live
    ensures Conserves(Apply(s, ForwardLive(sent), maxLen, maxAge), tag)
  {
    TakenOne(s.live, sent, tag);
    ForwardAddsOne(s.log, Forward(sent, Live), tag);
  }

  lemma ForwardNextConserves(s: State, k: nat, maxLen: int, maxAge: int, tag: nat)
    requires Conserves(s, tag) && Enabled(s, ForwardNext(k))
    ensures Conserves(Apply(s, ForwardNext(k), maxLen, maxAge), tag)
  {
    var d := s.drains[k];
    NextDrains(s, k, maxLen, maxAge, tag);
    NextLogs(s, k, maxLen, maxAge, tag);
    SameCopies(s, Apply(s, ForwardNext(k), maxLen, maxAge), if d.snapshot[d.sent] == tag then 1 else 0, tag);
  }

  lemma NextDrains(s: State, k: nat, maxLen: int, maxAge: int, tag: nat)
    requires DrainsFit(s.drains) && Enabled(s, ForwardNext(k))
    ensures var t, d := Apply(s, ForwardNext(k), maxLen, maxAge), s.drains[k];
            && t == s.(log := t.log, drains := t.drains) && DrainsFit(t.drains)
            && StillDraining(s.drains)[tag] == StillDraining(t.drains)[tag] + if d.snapshot[d.sent] == tag then 1 else 0
  {
    SendTakesOne(s.drains, k, tag);
    assert Sent(s.drains[k]) == s.drains[k].(sent := s.drains[k].sent + 1);
  }

  lemma NextLogs(s: State, k: nat, maxLen: int, maxAge: int, tag: nat)
    requires Enabled(s, ForwardNext(k))
    ensures var t, d := Apply(s, ForwardNext(k), maxLen, maxAge), s.drains[k];
            Forwarded(t.log)[tag] == Forwarded(s.log)[tag] + if d.snapshot[d.sent] == tag then 1 else 0
  {
    ForwardAddsOne(s.log, Forward(s.drains[k].snapshot[s.drains[k].sent], ByDrain(k)), tag);
  }

  /** A copy that moves from a drain to the log is still one copy. */
  lemma SameCopies(s: State, t: State, moved: nat, tag: nat)
    requires DrainsFit(s.drains) && DrainsFit(t.drains)
    requires t == s.(log := t.log, drains := t.drains)
    requires Forwarded(t.log)[tag] == Forwarded(s.log)[tag] + moved
    requires StillDraining(s.drains)[tag] == StillDraining(t.drains)[tag] + moved
    ensures Copies(t, tag) == Copies(s, tag)
  {
  }

  lemma OpenConserves(s: State, maxLen: int, maxAge: int, tag: nat)
    requires Conserves(s, tag)
    ensures Conserves(Apply(s, OpenLocked, maxLen, maxAge), tag)
  {
    EvictKeepsCopies(s, maxAge, tag);
    var e := Evict(s, maxAge);
    Snapshots(e.drains, e.queue, tag);
    QueueMovesOver(e, Apply(s, OpenLocked, maxLen, maxAge), tag);
  }

  /** A queue set aside for a drain holds the same copies. */
  lemma Snapshots(drains: seq<Drain>, queue: seq<Entry<nat>>, tag: nat)
    requires DrainsFit(drains)
    ensures var after := drains + [Drain(Messages(queue), 0)];
            DrainsFit(after) && StillDraining(after)[tag] == StillDraining(drains)[tag] + Tags(queue)[tag]
  {
    StillDrainingSnoc(drains, Drain(Messages(queue), 0));
  }

  lemma QueueMovesOver(e: State, t: State, tag: nat)
    requires DrainsFit(e.drains) && DrainsFit(t.drains)
    requires t == e.(mode := t.mode, queue := [], drains := t.drains)
    requires StillDraining(t.drains)[tag] == StillDraining(e.drains)[tag] + Tags(e.queue)[tag]
    ensures Copies(t, tag) == Copies(e, tag)
  {
    var none: seq<Entry<nat>> := [];
    assert Messages(none) == [];
  }

  lemma ApplyKeepsDrainOrder(s: State, a: Action, maxLen: int, maxAge: int)
    requires DrainsInOrder(s) && QueueInOrder(s) && Enabled(s, a)
    ensures DrainsInOrder(Apply(s, a, maxLen, maxAge))
  {
    match a
    case ForwardLive(tag) =>
      forall k: nat ensures SentBy(s.log + [Forward(tag, Live)], k) == SentBy(s.log, k) {
        SentBySnoc(s.log, Forward(tag, Live), k);
      }
    case OpenLocked => EvictKeepsOrder(s, maxAge);
    case ForwardNext(d) => NextKeepsDrainOrder(s, d, maxLen, maxAge);
    case _ =>
  }

  lemma NextKeepsDrainOrder(s: State, d: nat, maxLen: int, maxAge: int)
    requires DrainsInOrder(s) && Enabled(s, ForwardNext(d))
    ensures DrainsInOrder(Apply(s, ForwardNext(d), maxLen, maxAge))
  {
    var t := Apply(s, ForwardNext(d), maxLen, maxAge);
    var drain := s.drains[d];
    forall k: nat
      ensures SentBy(t.log, k) == SentBy(s.log, k) + if k == d then [drain.snapshot[drain.sent]] else []
    {
      SentBySnoc(s.log, Forward(drain.snapshot[drain.sent], ByDrain(d)), k);
    }
    assert drain.snapshot[..drain.sent + 1] == drain.snapshot[..drain.sent] + [drain.snapshot[drain.sent]];
  }

  lemma {:induction false} RunKeepsOrder(run: seq<State>, maxLen: int, maxAge: int, i: nat)
    requires IsRun(run, maxLen, maxAge) && i < |run|
    ensures QueueInOrder(run[i]) && DrainsInOrder(run[i])
  {
    if i > 0 {
      RunKeepsOrder(run, maxLen, maxAge, i - 1);
      var a :| Enabled(run[i - 1], a) && run[i] == Apply(run[i - 1], a, maxLen, maxAge);
      ApplyKeepsQueueOrder(run[i - 1], a, maxLen, maxAge);
      ApplyKeepsDrainOrder(run[i - 1], a, maxLen, maxAge);
    }
  }

  lemma {:induction false} RunConserves(run: seq<State>, maxLen: int, maxAge: int, i: nat, tag: nat)
    requires IsRun(run, maxLen, maxAge) && i < |run|
    ensures Conserves(run[i], tag)
  {
    if i > 0 {
      RunConserves(run, maxLen, maxAge, i - 1, tag);
      assert Next(run[i - 1], run[i], maxLen, maxAge);
      var a :| Enabled(run[i - 1], a) && run[i] == Apply(run[i - 1], a, maxLen, maxAge);
      ApplyConserves(run[i - 1], a, maxLen, maxAge, tag);
    } else {
      StartConserves(tag);
    }
  }

  lemma StartConserves(tag: nat)
    ensures Conserves(START, tag)
  {
  }

  // ---- The locked halves are the steps of the queue ---------------------------------

  ghost predicate Timed(s: State) { Sorted(s.queue) && NoneAfter(s.queue, s.now) }

  lemma EvictIsFilter(s: State, maxAge: int)
    requires Timed(s)
    ensures Evict(s, maxAge).queue == Unexpired(s.queue, s.now, maxAge) && Timed(Evict(s, maxAge))
  {
    HeadEvictionIsFullFilter(s.queue, HeadScan(s.queue, s.now, maxAge), s.now, maxAge);
  }

  lemma ApplyKeepsTimed(s: State, a: Action, maxLen: int, maxAge: int)
    requires Timed(s) && Enabled(s, a)
    ensures Timed(Apply(s, a, maxLen, maxAge))
  {
    EvictIsFilter(s, maxAge);
    EnqueueKeepsTimed(Evict(s, maxAge), maxLen);
  }

  lemma EnqueueKeepsTimed(s: State, maxLen: int)
    requires Timed(s)
    ensures Timed(Enqueue(s, maxLen))
  {
    SortedSnoc([], s.queue, Entry(s.arrived, s.now));
  }

  lemma {:induction false} RunKeepsTimed(run: seq<State>, maxLen: int, maxAge: int, i: nat)
    requires IsRun(run, maxLen, maxAge) && i < |run|
    ensures Timed(run[i])
  {
    if i > 0 {
      RunKeepsTimed(run, maxLen, maxAge, i - 1);
      NextKeepsTimed(run[i - 1], run[i], maxLen, maxAge);
    }
  }

  lemma NextKeepsTimed(s: State, t: State, maxLen: int, maxAge: int)
    requires Timed(s) && Next(s, t, maxLen, maxAge)
    ensures Timed(t)
  {
    var a :| Enabled(s, a) && t == Apply(s, a, maxLen, maxAge);
    ApplyKeepsTimed(s, a, maxLen, maxAge);
  }

  /** In every reachable state the locked half of `Handle` takes the step of the queue the gate
      class refines, up to entries that have expired by now: a queueing gate forwards nothing,
      and an open one queues nothing. */
  lemma HandleIsArrive(run: seq<State>, maxLen: int, maxAge: int, i: nat)
    requires IsRun(run, maxLen, maxAge) && i < |run|
    ensures var s := run[i];
            var t := Apply(s, HandleLocked, maxLen, maxAge);
            var q := Arrive(AgedQueue(s.mode, s.queue, []), s.arrived, s.now, maxLen, maxAge);
            && t.mode == q.mode && t.log == s.log && t.drains == s.drains
            && t.live == s.live + multiset(q.out)
            && t.queue == if s.mode.Open? then s.queue else Unexpired(q.pending, s.now, maxAge)
  {
    RunKeepsTimed(run, maxLen, maxAge, i);
    var s := run[i];
    EvictIsFilter(s, maxAge);
    UnexpiredSnoc(s.queue, Entry(s.arrived, s.now), s.now, maxAge);
  }

  /** Asking for the length drops what has expired and touches nothing else. */
  lemma LenEvicts(run: seq<State>, maxLen: int, maxAge: int, i: nat)
    requires IsRun(run, maxLen, maxAge) && i < |run|
    ensures var s := run[i];
            var t := Apply(s, AskLen, maxLen, maxAge);
            t == s.(queue := Unexpired(s.queue, s.now, maxAge), evicted := t.evicted)
  {
    RunKeepsTimed(run, maxLen, maxAge, i);
    EvictIsFilter(run[i], maxAge);
  }

  /** `Queue` closes the gate and touches nothing else. */
  lemma QueueIsHold(s: State, maxLen: int, maxAge: int)
    ensures var t := Apply(s, ToQueueing, maxLen, maxAge);
            && AgedQueue(t.mode, t.queue, []) == Hold(AgedQueue(s.mode, s.queue, []))
            && t == s.(mode := t.mode)
  {
  }

  /** And that of `Open` sets aside exactly what the queue releases, to be forwarded in order. */
  lemma OpenIsRelease(run: seq<State>, maxLen: int, maxAge: int, i: nat)
    requires IsRun(run, maxLen, maxAge) && i < |run|
    ensures var s := run[i];
            var t := Apply(s, OpenLocked, maxLen, maxAge);
            var q := Release(AgedQueue(s.mode, s.queue, []), s.now, maxAge);
            && t.mode == q.mode && t.queue == q.pending && t.log == s.log && t.live == s.live
            && t.drains == s.drains + [Drain(q.out, 0)]
  {
    RunKeepsTimed(run, maxLen, maxAge, i);
    EvictIsFilter(run[i], maxAge);
    var released := Messages(Unexpired(run[i].queue, run[i].now, maxAge));
    assert [] + released == released;
  }

  /** Whatever the interleaving, every handled message is in exactly one place: forwarded,
      about to be forwarded, queued, dropped because the backlog was full, or evicted; so
      nothing is forwarded twice and nothing is forwarded that was dropped or evicted. */
  lemma EveryMessageInOnePlace(run: seq<State>, maxLen: int, maxAge: int, i: nat, tag: nat)
    requires IsRun(run, maxLen, maxAge) && i < |run|
    ensures var s := run[i];
            && DrainsFit(s.drains)
            && Forwarded(s.log)[tag] + StillDraining(s.drains)[tag] + s.live[tag] + Tags(s.queue)[tag]
               + s.dropped[tag] + s.evicted[tag] == if tag < s.arrived then 1 else 0
  {
    RunConserves(run, maxLen, maxAge, i, tag);
  }

  /** Every drain forwards a prefix of its snapshot, in arrival order, even while live
      messages, other drains and mode switches interleave with it. */
  lemma DrainsForwardInArrivalOrder(run: seq<State>, maxLen: int, maxAge: int, k: nat)
    requires IsRun(run, maxLen, maxAge) && k < |run[|run| - 1].drains|
    ensures var s := run[|run| - 1];
            SentBy(s.log, k) <= s.drains[k].snapshot && Increasing(SentBy(s.log, k))
  {
    RunKeepsOrder(run, maxLen, maxAge, |run| - 1);
  }

  lemma Extend(run: seq<State>, a: Action, maxLen: int, maxAge: int) returns (longer: seq<State>)
    requires IsRun(run, maxLen, maxAge) && Enabled(run[|run| - 1], a)
    ensures run <= longer && IsRun(longer, maxLen, maxAge)
    ensures longer[|longer| - 1] == Apply(run[|run| - 1], a, maxLen, maxAge)
  {
    longer := run + [Apply(run[|run| - 1], a, maxLen, maxAge)];
    assert Next(run[|run| - 1], longer[|longer| - 1], maxLen, maxAge);
  }

  /** Order holds per drain only. The mode is Open before the backlog is forwarded, so a
      message that arrives later can be forwarded earlier. */
  lemma LiveMessageOvertakesBacklog(maxLen: int, maxAge: int) returns (run: seq<State>)
    requires maxLen > 0
    ensures IsRun(run, maxLen, maxAge)
    ensures run[|run| - 1].log == [Forward(1, Live), Forward(0, ByDrain(0))]
  {
    run := OneDrainOpened(maxLen, maxAge);
    run := Extend(run, HandleLocked, maxLen, maxAge);
    run := Extend(run, ForwardLive(1), maxLen, maxAge);
    run := Extend(run, ForwardNext(0), maxLen, maxAge);
  }

  /** One message is queued, and Open has it in its snapshot. */
  lemma OneDrainOpened(maxLen: int, maxAge: int) returns (run: seq<State>)
    requires maxLen > 0
    ensures IsRun(run, maxLen, maxAge)
    ensures run[|run| - 1] == START.(arrived := 1, mode := Open, drains := [Drain([0], 0)])
  {
    run := [START];
    run := Extend(run, HandleLocked, maxLen, maxAge);
    assert run[|run| - 1].queue == [Entry(0, 0)];
    var e := Evict(run[|run| - 1], maxAge);
    assert e.queue == [Entry(0, 0)] && Messages(e.queue) == [0];
    run := Extend(run, OpenLocked, maxLen, maxAge);
    assert [] + [Drain([0], 0)] == [Drain([0], 0)];
  }

  // ---- When arrival order holds throughout ------------------------------------------

  /** No message is between its locked part and its forward. */
  predicate AtRest(s: State) {
    s.live == multiset{} && forall k :: 0 <= k < |s.drains| ==> s.drains[k].sent >= |s.drains[k].snapshot|
  }

  /** The calls that put messages on their way: a live message, and Open. */
  predicate Starts(s: State, a: Action) { a.OpenLocked? || (a.HandleLocked? && s.mode.Open?) }

  ghost predicate CalmNext(s: State, t: State, maxLen: int, maxAge: int) {
    exists a :: Enabled(s, a) && t == Apply(s, a, maxLen, maxAge) && (Starts(s, a) ==> AtRest(s))
  }

  /** A run in which every such call finds nothing on its way. */
  ghost predicate IsCalmRun(run: seq<State>, maxLen: int, maxAge: int) {
    |run| > 0 && run[0] == START && forall i :: 0 < i < |run| ==> CalmNext(run[i - 1], run[i], maxLen, maxAge)
  }

  function TagsOf(log: seq<Forward>): seq<nat> {
    seq(|log|, i requires 0 <= i < |log| => log[i].tag)
  }

  /** Everything forwarded came before `x`, and everything queued after it. */
  ghost predicate Between(s: State, x: nat) {
    && x < s.arrived
    && (forall i :: 0 <= i < |s.log| ==> s.log[i].tag < x)
    && (forall j :: 0 <= j < |s.queue| ==> x < s.queue[j].msg)
  }

  ghost predicate LogInOrder(s: State) {
    && Increasing(TagsOf(s.log))
    && (forall i :: 0 <= i < |s.log| ==> s.log[i].tag < s.arrived)
    && (forall i, j :: 0 <= i < |s.log| && 0 <= j < |s.queue| ==> s.log[i].tag < s.queue[j].msg)
  }

  /** What is left of a drain. */
  ghost predicate DrainWaits(s: State, k: nat)
    requires k < |s.drains|
  {
    var d := s.drains[k];
    && d.sent <= |d.snapshot| && Increasing(d.snapshot)
    && forall i :: d.sent <= i < |d.snapshot| ==> Between(s, d.snapshot[i])
  }

  /** At most one live message or one drain is on its way. */
  ghost predicate OneOnItsWay(s: State) {
    && |s.live| <= 1 && (forall x :: x in s.live ==> Between(s, x))
    && (forall k :: 0 <= k < |s.drains| ==> DrainWaits(s, k))
    && (s.live != multiset{} ==> forall k :: 0 <= k < |s.drains| ==> !Unfinished(s.drains[k]))
    && (forall j, k ::
          0 <= j < |s.drains| && 0 <= k < |s.drains| && Unfinished(s.drains[j]) && Unfinished(s.drains[k]) ==>
            j == k)
  }

  ghost predicate Orderly(s: State) {
    QueueInOrder(s) && LogInOrder(s) && OneOnItsWay(s) && (s.mode.Open? ==> s.queue == [])
  }

  lemma EvictKeepsBetween(s: State, maxAge: int, x: nat)
    requires Between(s, x)
    ensures Between(Evict(s, maxAge), x)
  {
    var t := Evict(s, maxAge);
    var n := HeadScan(s.queue, s.now, maxAge);
    forall j | 0 <= j < |t.queue| ensures x < t.queue[j].msg {
      assert t.queue[j] == s.queue[n + j];
    }
  }

  lemma EvictKeepsLog(s: State, maxAge: int)
    requires LogInOrder(s)
    ensures LogInOrder(Evict(s, maxAge))
  {
    var t := Evict(s, maxAge);
    var n := HeadScan(s.queue, s.now, maxAge);
    forall i, j | 0 <= i < |t.log| && 0 <= j < |t.queue| ensures t.log[i].tag < t.queue[j].msg {
      assert t.queue[j] == s.queue[n + j];
    }
  }

  lemma EvictKeepsDrain(s: State, maxAge: int, k: nat)
    requires k < |s.drains| && DrainWaits(s, k)
    ensures DrainWaits(Evict(s, maxAge), k)
  {
    var d := s.drains[k];
    forall i | d.sent <= i < |d.snapshot| ensures Between(Evict(s, maxAge), d.snapshot[i]) {
      EvictKeepsBetween(s, maxAge, d.snapshot[i]);
    }
  }

  lemma EvictKeepsOrderly(s: State, maxAge: int)
    requires Orderly(s)
    ensures Orderly(Evict(s, maxAge))
  {
    var t := Evict(s, maxAge);
    EvictKeepsOrder(s, maxAge);
    EvictKeepsLog(s, maxAge);
    forall x | x in t.live ensures Between(t, x) {
      EvictKeepsBetween(s, maxAge, x);
    }
    forall k | 0 <= k < |t.drains| ensures DrainWaits(t, k) {
      EvictKeepsDrain(s, maxAge, k);
    }
  }

  lemma HandleKeepsOrderly(s: State, maxLen: int, maxAge: int)
    requires Orderly(s) && (s.mode.Open? ==> AtRest(s))
    ensures Orderly(Apply(s, HandleLocked, maxLen, maxAge))
  {
    var t := Apply(s, HandleLocked, maxLen, maxAge);
    if s.mode.Open? {
      assert t.live == multiset{s.arrived};
      forall k | 0 <= k < |t.drains| ensures DrainWaits(t, k) {
        assert DrainWaits(s, k);
      }
    } else {
      EvictKeepsOrderly(s, maxAge);
      EnqueueKeepsOrderly(Evict(s, maxAge), maxLen);
    }
  }

  lemma EnqueueKeepsOrderly(s: State, maxLen: int)
    requires Orderly(s) && s.mode.Queueing?
    ensures Orderly(Enqueue(s, maxLen))
  {
    var t := Enqueue(s, maxLen);
    forall x: nat | Between(s, x) ensures Between(t, x) {
    }
    forall k | 0 <= k < |t.drains| ensures DrainWaits(t, k) {
      assert DrainWaits(s, k);
    }
  }

  lemma LogGrowsInOrder(s: State, t: State, f: Forward)
    requires LogInOrder(s) && Between(s, f.tag)
    requires t.log == s.log + [f] && t.arrived == s.arrived && t.queue == s.queue
    ensures LogInOrder(t)
  {
    assert TagsOf(t.log) == TagsOf(s.log) + [f.tag];
  }

  lemma LiveKeepsOrderly(s: State, tag: nat, maxLen: int, maxAge: int)
    requires Orderly(s) && Enabled(s, ForwardLive(tag))
    ensures Orderly(Apply(s, ForwardLive(tag), maxLen, maxAge))
  {
    var t := Apply(s, ForwardLive(tag), maxLen, maxAge);
    LogGrowsInOrder(s, t, Forward(tag, Live));
    assert s.live[tag] >= 1 && |s.live - multiset{tag}| == |s.live| - 1;
    forall k | 0 <= k < |t.drains| ensures DrainWaits(t, k) {
      assert DrainWaits(s, k) && !Unfinished(s.drains[k]);
    }
  }

  lemma NextKeepsOrderly(s: State, k: nat, maxLen: int, maxAge: int)
    requires Orderly(s) && Enabled(s, ForwardNext(k))
    ensures Orderly(Apply(s, ForwardNext(k), maxLen, maxAge))
  {
    var t := Apply(s, ForwardNext(k), maxLen, maxAge);
    var d := s.drains[k];
    assert DrainWaits(s, k) && Unfinished(d);
    LogGrowsInOrder(s, t, Forward(d.snapshot[d.sent], ByDrain(k)));
    forall j | 0 <= j < |t.drains| ensures DrainWaits(t, j) {
      assert DrainWaits(s, j);
      if j == k {
        forall i | d.sent + 1 <= i < |d.snapshot| ensures Between(t, d.snapshot[i]) {
          assert Between(s, d.snapshot[i]) && d.snapshot[d.sent] < d.snapshot[i];
        }
      } else {
        assert !Unfinished(s.drains[j]);
      }
    }
  }

  lemma OpenKeepsOrderly(s: State, maxLen: int, maxAge: int)
    requires Orderly(s) && AtRest(s)
    ensures Orderly(Apply(s, OpenLocked, maxLen, maxAge))
  {
    EvictKeepsOrderly(s, maxAge);
    var e := Evict(s, maxAge);
    var t := Apply(s, OpenLocked, maxLen, maxAge);
    forall k | 0 <= k < |t.drains| ensures DrainWaits(t, k) && (k < |s.drains| ==> !Unfinished(t.drains[k])) {
      if k < |s.drains| {
        assert DrainWaits(s, k);
      }
    }
  }

  lemma StillOrderly(s: State, t: State)
    requires Orderly(s) && t == s.(now := t.now, mode := t.mode) && (t.mode.Open? ==> s.mode.Open?)
    ensures Orderly(t)
  {
    forall x: nat | Between(s, x) ensures Between(t, x) {
    }
    forall k | 0 <= k < |t.drains| ensures DrainWaits(t, k) {
      assert DrainWaits(s, k);
    }
  }

  lemma CalmStepKeepsOrderly(s: State, a: Action, maxLen: int, maxAge: int)
    requires Orderly(s) && Enabled(s, a) && (Starts(s, a) ==> AtRest(s))
    ensures Orderly(Apply(s, a, maxLen, maxAge))
  {
    match a
    case Wait(d) => StillOrderly(s, Apply(s, a, maxLen, maxAge));
    case HandleLocked => HandleKeepsOrderly(s, maxLen, maxAge);
    case ForwardLive(tag) => LiveKeepsOrderly(s, tag, maxLen, maxAge);
    case OpenLocked => OpenKeepsOrderly(s, maxLen, maxAge);
    case ForwardNext(k) => NextKeepsOrderly(s, k, maxLen, maxAge);
    case ToQueueing => StillOrderly(s, Apply(s, a, maxLen, maxAge));
    case AskLen => EvictKeepsOrderly(s, maxAge);
  }

  lemma {:induction false} CalmRunIsOrderly(run: seq<State>, maxLen: int, maxAge: int, i: nat)
    requires IsCalmRun(run, maxLen, maxAge) && i < |run|
    ensures Orderly(run[i])
  {
    if i > 0 {
      CalmRunIsOrderly(run, maxLen, maxAge, i - 1);
      assert CalmNext(run[i - 1], run[i], maxLen, maxAge);
      var a :| Enabled(run[i - 1], a) && run[i] == Apply(run[i - 1], a, maxLen, maxAge)
               && (Starts(run[i - 1], a) ==> AtRest(run[i - 1]));
      CalmStepKeepsOrderly(run[i - 1], a, maxLen, maxAge);
    }
  }

  /** As long as every live message and every Open finds nothing on its way, everything is
      forwarded in the order it arrived, across drains and live messages. */
  lemma CalmRunForwardsInOrder(run: seq<State>, maxLen: int, maxAge: int)
    requires IsCalmRun(run, maxLen, maxAge)
    ensures Increasing(TagsOf(run[|run| - 1].log))
  {
    CalmRunIsOrderly(run, maxLen, maxAge, |run| - 1);
  }

  lemma {:induction false} DrainsHold(drains: seq<Drain>, k: nat, x: nat)
    requires DrainsFit(drains) && k < |drains| && x in drains[k].snapshot[drains[k].sent..]
    ensures StillDraining(drains)[x] > 0
  {
    if k > 0 {
      DrainsHold(drains[1..], k - 1, x);
    } else {
      assert x in multiset(drains[0].snapshot[drains[0].sent..]);
    }
  }

  /** The step that forwards `x`. */
  predicate Forwards(s: State, a: Action, x: nat) {
    && Enabled(s, a)
    && (a == ForwardLive(x) || (a.ForwardNext? && s.drains[a.drain].snapshot[s.drains[a.drain].sent] == x))
  }

  /** Some message on its way, with the step that forwards it. */
  lemma SomethingOnItsWay(run: seq<State>, maxLen: int, maxAge: int) returns (a: Action, x: nat)
    requires IsRun(run, maxLen, maxAge) && !AtRest(run[|run| - 1])
    ensures var s := run[|run| - 1];
            x < s.arrived && Forwards(s, a, x)
  {
    var s := run[|run| - 1];
    EveryMessageInOnePlace(run, maxLen, maxAge, |run| - 1, 0);
    if s.live != multiset{} {
      x :| x in s.live;
      a := ForwardLive(x);
    } else {
      var k :| 0 <= k < |s.drains| && s.drains[k].sent < |s.drains[k].snapshot|;
      x := s.drains[k].snapshot[s.drains[k].sent];
      a := ForwardNext(k);
      assert s.drains[k].snapshot[s.drains[k].sent..][0] == x;
      DrainsHold(s.drains, k, x);
    }
    EveryMessageInOnePlace(run, maxLen, maxAge, |run| - 1, x);
  }

  /** At an open gate a message arrives and is forwarded at once. */
  lemma OneGoesThrough(run: seq<State>, maxLen: int, maxAge: int) returns (longer: seq<State>)
    requires IsRun(run, maxLen, maxAge) && run[|run| - 1].mode.Open?
    ensures run <= longer && IsRun(longer, maxLen, maxAge)
    ensures var s := run[|run| - 1];
            longer[|longer| - 1] == s.(arrived := s.arrived + 1, log := s.log + [Forward(s.arrived, Live)])
  {
    var s := run[|run| - 1];
    longer := Extend(run, HandleLocked, maxLen, maxAge);
    longer := Extend(longer, ForwardLive(s.arrived), maxLen, maxAge);
    assert s.live + multiset{s.arrived} - multiset{s.arrived} == s.live;
  }

  lemma OvertakenInLog(log: seq<Forward>, a: Forward, b: Forward)
    requires b.tag < a.tag
    ensures !Increasing(TagsOf(log + [a] + [b]))
  {
    var tags := TagsOf(log + [a] + [b]);
    assert tags[|log|] == a.tag && tags[|log| + 1] == b.tag;
  }

  lemma OvertakenAtOpenGate(run: seq<State>, a: Action, x: nat, maxLen: int, maxAge: int) returns (longer: seq<State>)
    requires IsRun(run, maxLen, maxAge) && run[|run| - 1].mode.Open?
    requires x < run[|run| - 1].arrived && Forwards(run[|run| - 1], a, x)
    ensures run <= longer && IsRun(longer, maxLen, maxAge)
    ensures !Increasing(TagsOf(longer[|longer| - 1].log))
  {
    var s := run[|run| - 1];
    longer := OneGoesThrough(run, maxLen, maxAge);
    longer := Extend(longer, a, maxLen, maxAge);
    OvertakenInLog(s.log, Forward(s.arrived, Live), Forward(x, if a.ForwardLive? then Live else ByDrain(a.drain)));
  }

  /** The condition cannot be dropped: from any reachable state with something on its way the
      run can go on so that a later message is forwarded before an earlier one. */
  lemma OnItsWayCanBeOvertaken(run: seq<State>, maxLen: int, maxAge: int) returns (longer: seq<State>)
    requires IsRun(run, maxLen, maxAge) && !AtRest(run[|run| - 1])
    ensures run <= longer && IsRun(longer, maxLen, maxAge)
    ensures !Increasing(TagsOf(longer[|longer| - 1].log))
  {
    var a, x := SomethingOnItsWay(run, maxLen, maxAge);
    if run[|run| - 1].mode.Queueing? {
      var open := Extend(run, OpenLocked, maxLen, maxAge);
      longer := OvertakenAtOpenGate(open, a, x, maxLen, maxAge);
    } else {
      longer := OvertakenAtOpenGate(run, a, x, maxLen, maxAge);
    }
  }
}
