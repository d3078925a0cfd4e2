/** Fanning a message out to the publish brokers (internal/mqttbroker), with a second gate in
    front that holds messages while no broker is connected. That gate has no age limit.

    A connection changes first and its callback, which opens or closes the gate, runs later;
    calls of `Publish` can fall in between. */
module FanOut {
  import opened Gates

  const BACKLOG := 50_000

  predicate Any(connected: seq<bool>) { exists i :: 0 <= i < |connected| && connected[i] }

  /** How many brokers a publish reaches. */
  function Reached(connected: seq<bool>, failing: set<nat>): nat {
    if connected == [] then 0
    else
      var n := |connected| - 1;
      Reached(connected[..n], failing) + if connected[n] && n !in failing then 1 else 0
  }

  /** The error of a publish: none, that of the broker that failed last, or ErrQueued. */
  datatype Problem = None | Broker(index: nat) | Queued

  function LastFailure(connected: seq<bool>, failing: set<nat>): Problem {
    if connected == [] then Problem.None
    else
      var n := |connected| - 1;
      if connected[n] && n !in failing then LastFailure(connected[..n], failing) else Broker(n)
  }

  class Publisher<T> {
    const gate: Gate<T>
    var connected: seq<bool>
    /** Every call of publishNow, in order. */
    var attempts: seq<T>
    /** How many of the messages the gate has forwarded were passed on by drainOne. */
    var drained: nat

    ghost predicate Valid()
      reads this, gate
    {
      gate.Valid() && gate.maxLen == BACKLOG && gate.maxAge == 0 && drained == |gate.forwarded|
    }

    /** No callback is outstanding. */
    ghost predicate Settled()
      reads this, gate
    {
      Valid() && (gate.state.Open? <==> Any(connected))
    }

    /** The publisher as one queue. */
    ghost function View(): AgedQueue<T>
      reads this, gate
    {
      AgedQueue(gate.state, gate.spec.pending, attempts)
    }

    constructor (brokers: nat, now: int)
      ensures Settled() && fresh(gate) && View() == Fresh() && |connected| == brokers && !Any(connected)
      ensures gate.clock == now
    {
      connected, attempts, drained := seq(brokers, _ => false), [], 0;
      gate := new Gate(BACKLOG, 0, now);
    }

    /** A connection comes or goes. Its callback follows. */
    method SetConnected(broker: nat, up: bool)
      requires Valid() && broker < |connected|
      modifies this`connected
      ensures Valid() && connected == old(connected)[broker := up] && View() == old(View())
    {
      connected := connected[broker := up];
    }

    method PublishNow(msg: T, failing: set<nat>) returns (delivered: nat, lastErr: Problem)
      modifies this`attempts
      ensures attempts == old(attempts) + [msg]
      ensures delivered == Reached(connected, failing) && lastErr == LastFailure(connected, failing)
    {
      attempts := attempts + [msg];
      delivered, lastErr := 0, Problem.None;
      for i := 0 to |connected|
        invariant delivered == Reached(connected[..i], failing) && lastErr == LastFailure(connected[..i], failing)
        invariant attempts == old(attempts) + [msg]
      {
        assert connected[..i + 1][..i] == connected[..i];
        if connected[i] && i !in failing {
          delivered := delivered + 1;
        } else {
          lastErr := Broker(i);
        }
      }
      assert connected[..|connected|] == connected;
    }

    /** The gate's forward callbacks. */
    method DrainNew(failing: set<nat>)
      requires gate.Valid() && drained <= |gate.forwarded|
      modifies this`attempts, this`drained
      ensures drained == |gate.forwarded| && attempts == old(attempts) + gate.forwarded[old(drained)..]
    {
      while drained < |gate.forwarded|
        invariant old(drained) <= drained <= |gate.forwarded|
        invariant attempts == old(attempts) + gate.forwarded[old(drained)..drained]
      {
        ghost var before := gate.forwarded[old(drained)..drained];
        assert gate.forwarded[old(drained)..drained + 1] == before + [gate.forwarded[drained]];
        var _, _ := PublishNow(gate.forwarded[drained], failing);
        drained := drained + 1;
      }
    }

    method Callback(now: int, failing: set<nat>)
      requires Valid() && gate.clock <= now
      modifies this`attempts, this`drained, gate
      ensures Settled() && gate.clock <= now
      ensures View() == if Any(connected) then Release(old(View()), now, 0) else Hold(old(View()))
    {
      ghost var sent := gate.forwarded;
      if Any(connected) {
        gate.Open(now);
        assert gate.forwarded[|sent|..] == Messages(Unexpired(old(gate.spec).pending, now, 0));
      } else {
        gate.Queue();
      }
      DrainNew(failing);
    }

    /** Publish. In a settled publisher it is an arrival at the one queue: out at once when a
        broker is connected, else held unless the backlog is full. In any, a message answered
        as queued is held if and only if the gate is queueing and its backlog is not full. */
    method Publish(msg: T, now: int, failing: set<nat>) returns (delivered: nat, err: Problem)
      requires Valid() && gate.clock <= now
      modifies this`attempts, this`drained, gate
      ensures Valid() && gate.clock <= now && (err.Queued? <==> !Any(connected))
      ensures err.Queued? ==> View() == Arrive(old(View()), msg, now, BACKLOG, 0) && delivered == 0
      ensures err.Queued? ==>
                (View().pending == old(View()).pending + [Entry(msg, now)]
                 <==> old(gate.state).Queueing? && |old(View()).pending| < BACKLOG)
      ensures err.Queued? ==> (attempts == old(attempts) <==> old(gate.state).Queueing?)
      ensures !err.Queued? ==> View() == old(View()).(out := old(attempts) + [msg])
      ensures !err.Queued? ==> delivered == Reached(connected, failing) && err == LastFailure(connected, failing)
      ensures old(Settled()) ==> Settled() && View() == Arrive(old(View()), msg, now, BACKLOG, 0)
    {
      if !Any(connected) {
        UnexpiredKeepsAll(View().pending, now, 0);
        gate.Handle(msg, now);
        DrainNew(failing);
        return 0, Queued;
      }
      delivered, err := PublishNow(msg, failing);
      NotQueued(connected, failing);
    }
  }

  lemma {:induction false} NotQueued(connected: seq<bool>, failing: set<nat>)
    ensures !LastFailure(connected, failing).Queued?
    ensures LastFailure(connected, failing).None? <==> Reached(connected, failing) == |connected|
    ensures Reached(connected, failing) <= |connected|
  {
    if connected != [] {
      NotQueued(connected[..|connected| - 1], failing);
    }
  }

  /** The brokers a publish reaches. */
  function ReachedSet(connected: seq<bool>, failing: set<nat>): set<nat> {
    set j | 0 <= j < |connected| && connected[j] && j !in failing
  }

  /** Which broker is reported, and how many are counted. */
  lemma {:induction false} LastFailureIs(connected: seq<bool>, failing: set<nat>, i: nat)
    ensures LastFailure(connected, failing) == Broker(i) <==>
            && i < |connected| && (!connected[i] || i in failing)
            && forall j :: i < j < |connected| ==> connected[j] && j !in failing
    ensures Reached(connected, failing) == |ReachedSet(connected, failing)|
  {
    if connected == [] {
      assert ReachedSet(connected, failing) == {};
    } else {
      var n := |connected| - 1;
      LastFailureIs(connected[..n], failing, i);
      var before := ReachedSet(connected[..n], failing);
      assert ReachedSet(connected, failing) == if connected[n] && n !in failing then before + {n} else before;
    }
  }

  // ---- Whole runs -------------------------------------------------------------------

  /** No arrival finds the backlog full. */
  predicate NeverFull<T>(calls: seq<Call<T>>, maxLen: int, maxAge: int) {
    calls == [] ||
    var init, last := calls[..|calls| - 1], calls[|calls| - 1];
    && NeverFull(init, maxLen, maxAge)
    && (last.HandleAt? ==>
          var s := Run(init, maxLen, maxAge);
          s.mode.Open? || |Unexpired(s.pending, last.at, maxAge)| < maxLen)
  }

  /** Without an age limit a gate loses nothing if and only if its backlog is never found full:
      what it has passed on followed by what it still holds is then everything it was handed,
      in order, and one message less for every time it was. */
  lemma {:induction false} LosesNothing<T>(calls: seq<Call<T>>, maxLen: int)
    ensures var s := Run(calls, maxLen, 0);
            && (NeverFull(calls, maxLen, 0) <==> s.out + Messages(s.pending) == Arrivals(calls))
            && (NeverFull(calls, maxLen, 0) <==> |s.out| + |s.pending| >= |Arrivals(calls)|)
  {
    if calls != [] {
      var init, last := calls[..|calls| - 1], calls[|calls| - 1];
      LosesNothing(init, maxLen);
      RunForwardsInOrder(init, maxLen, 0);
      var s := Run(init, maxLen, 0);
      match last
      case HandleAt(msg, at) =>
        if s.mode.Queueing? {
          MessagesSnoc(s.out, s.pending, Entry(msg, at));
        }
      case OpenAt(at) => UnexpiredKeepsAll(s.pending, at, 0);
      case QueueCall =>
    }
  }

  /** Between a disconnect and its callback: Publish reports "queued", but the gate is still
      open and hands the message straight to brokers none of which is connected. */
  method QueuedButLost() returns (queued: bool, held: nat, delivered: nat, attempts: nat)
    ensures queued && held == 0 && delivered == 0 && attempts == 1
  {
    var p := new Publisher<char>(1, 0);
    p.SetConnected(0, true);
    assert p.connected[0];
    p.Callback(0, {});
    p.SetConnected(0, false);
    var err;
    delivered, err := p.Publish('m', 0, {});
    queued := err.Queued?;
    held := |p.gate.queue|;
    attempts := |p.attempts|;
  }

  /** With the backlog full: Publish reports "queued", and the message is dropped. The messages
      are numbered. */
  method QueuedButDropped() returns (queued: bool, held: seq<nat>, attempts: nat)
    ensures queued && |held| == BACKLOG && BACKLOG !in held && attempts == 0
  {
    var p := new Publisher<nat>(1, 0);
    for i := 0 to BACKLOG
      invariant fresh(p) && fresh(p.gate) && p.Settled() && p.gate.clock <= 0 && !Any(p.connected)
      invariant p.View().out == [] && |p.View().pending| == i
      invariant forall e :: e in p.View().pending ==> e.msg < i
    {
      var _, _ := p.Publish(i, 0, {});
    }
    var _, err := p.Publish(BACKLOG, 0, {});
    queued := err.Queued?;
    UnexpiredBehindGone(p.gate.gone, p.gate.queue, p.gate.clock, 0);
    UnexpiredKeepsAll(p.gate.queue, p.gate.clock, 0);
    UnexpiredKeepsAll(p.View().pending, p.gate.clock, 0);
    held := Messages(p.gate.queue);
    attempts := |p.attempts|;
  }
}
