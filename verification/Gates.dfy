/** The role gate (internal/gate): a mutex-protected FIFO backlog with a length bound and
    age-based eviction from its head.

    Two forms are given. `AgedQueue` is the simple one: it never evicts, and only looks at
    ages when it admits an arrival, releases the backlog or is asked for its length. `Gate`
    is the code's: it drops the expired prefix eagerly. Every method of `Gate` is proved to
    take exactly the step of `AgedQueue`, and the run lemmas are then about `AgedQueue`. */
module Gates {

  datatype Mode = Queueing | Open

  datatype Entry<T> = Entry(msg: T, at: int)

  /** Strictly older than `maxAge`: an entry whose age is exactly `maxAge` is kept.
      A `maxAge` that is not positive turns eviction off. */
  predicate Expired<T>(e: Entry<T>, now: int, maxAge: int) {
    0 < maxAge && e.at < now - maxAge
  }

  /** Every entry that has not expired, wherever it stands. */
  function Unexpired<T>(q: seq<Entry<T>>, now: int, maxAge: int): seq<Entry<T>>
  {
    if q == [] then []
    else if Expired(q[0], now, maxAge) then Unexpired(q[1..], now, maxAge)
    else [q[0]] + Unexpired(q[1..], now, maxAge)
  }

  /** How many entries the head scan drops: it stops at the first fresh one. */
  function HeadScan<T>(q: seq<Entry<T>>, now: int, maxAge: int): (n: nat)
    ensures n <= |q|
    ensures forall i :: 0 <= i < n ==> Expired(q[i], now, maxAge)
    ensures n < |q| ==> !Expired(q[n], now, maxAge)
  {
    if q == [] || !Expired(q[0], now, maxAge) then 0 else 1 + HeadScan(q[1..], now, maxAge)
  }

  function Messages<T>(q: seq<Entry<T>>): (r: seq<T>)
    ensures |r| == |q| && forall i :: 0 <= i < |q| ==> r[i] == q[i].msg
  {
    seq(|q|, i requires 0 <= i < |q| => q[i].msg)
  }

  ghost predicate Sorted<T>(q: seq<Entry<T>>) {
    forall i, j :: 0 <= i <= j < |q| ==> q[i].at <= q[j].at
  }

  ghost predicate NoneAfter<T>(q: seq<Entry<T>>, now: int) {
    forall i :: 0 <= i < |q| ==> q[i].at <= now
  }

  // ---- Eviction ---------------------------------------------------------------------

  lemma {:induction false} UnexpiredMember<T>(q: seq<Entry<T>>, e: Entry<T>, now: int, maxAge: int)
    ensures e in Unexpired(q, now, maxAge) <==> e in q && !Expired(e, now, maxAge)
  {
    if q != [] {
      UnexpiredMember(q[1..], e, now, maxAge);
      assert e in q <==> e == q[0] || e in q[1..];
    }
  }

  lemma {:induction false} UnexpiredConcat<T>(a: seq<Entry<T>>, b: seq<Entry<T>>, now: int, maxAge: int)
    ensures Unexpired(a + b, now, maxAge) == Unexpired(a, now, maxAge) + Unexpired(b, now, maxAge)
  {
    if a == [] {
      assert a + b == b;
    } else {
      assert (a + b)[1..] == a[1..] + b;
      UnexpiredConcat(a[1..], b, now, maxAge);
    }
  }

  lemma {:induction false} UnexpiredKeepsAll<T>(q: seq<Entry<T>>, now: int, maxAge: int)
    requires forall e :: e in q ==> !Expired(e, now, maxAge)
    ensures Unexpired(q, now, maxAge) == q
  {
    if q != [] {
      UnexpiredKeepsAll(q[1..], now, maxAge);
    }
  }

  lemma {:induction false} UnexpiredDropsHead<T>(q: seq<Entry<T>>, n: nat, now: int, maxAge: int)
    requires n <= |q| && forall i :: 0 <= i < n ==> Expired(q[i], now, maxAge)
    ensures Unexpired(q, now, maxAge) == Unexpired(q[n..], now, maxAge)
  {
    if n == 0 {
      assert q[0..] == q;
    } else {
      UnexpiredDropsHead(q[1..], n - 1, now, maxAge);
      assert q[1..][n - 1..] == q[n..];
    }
  }

  lemma TailIsFresh<T>(q: seq<Entry<T>>, n: nat, now: int, maxAge: int)
    requires Sorted(q) && n <= |q| && (n < |q| ==> !Expired(q[n], now, maxAge))
    ensures forall e :: e in q[n..] ==> !Expired(e, now, maxAge)
  {
    forall e | e in q[n..] ensures !Expired(e, now, maxAge) {
      var i :| 0 <= i < |q[n..]| && q[n..][i] == e;
      assert q[n].at <= q[n + i].at;
    }
  }

  /** Dropping the expired prefix of a backlog sorted by arrival removes exactly the expired
      entries: nothing expired hides behind the first fresh one. */
  lemma HeadEvictionIsFullFilter<T>(q: seq<Entry<T>>, n: nat, now: int, maxAge: int)
    requires Sorted(q) && n <= |q|
    requires forall i :: 0 <= i < n ==> Expired(q[i], now, maxAge)
    requires n < |q| ==> !Expired(q[n], now, maxAge)
    ensures q[n..] == Unexpired(q, now, maxAge)
  {
    TailIsFresh(q, n, now, maxAge);
    UnexpiredKeepsAll(q[n..], now, maxAge);
    UnexpiredDropsHead(q, n, now, maxAge);
  }

  lemma {:induction false} UnexpiredBehindGone<T>(gone: seq<Entry<T>>, q: seq<Entry<T>>, now: int, maxAge: int)
    requires forall e :: e in gone ==> Expired(e, now, maxAge)
    ensures Unexpired(gone + q, now, maxAge) == Unexpired(q, now, maxAge)
  {
    if gone == [] {
      assert gone + q == q;
    } else {
      UnexpiredBehindGone(gone[1..], q, now, maxAge);
      assert (gone + q)[1..] == gone[1..] + q && (gone + q)[0] == gone[0];
    }
  }

  /** What an eviction of `n` entries does to a backlog `q` behind the already evicted `gone`. */
  lemma EvictionKeepsPending<T>(gone: seq<Entry<T>>, q: seq<Entry<T>>, n: nat, now: int, maxAge: int)
    requires Sorted(q) && n <= |q|
    requires forall e :: e in gone ==> Expired(e, now, maxAge)
    requires forall i :: 0 <= i < n ==> Expired(q[i], now, maxAge)
    requires n < |q| ==> !Expired(q[n], now, maxAge)
    ensures q[n..] == Unexpired(q, now, maxAge) == Unexpired(gone + q, now, maxAge)
    ensures (gone + q[..n]) + q[n..] == gone + q
  {
    HeadEvictionIsFullFilter(q, n, now, maxAge);
    UnexpiredBehindGone(gone, q, now, maxAge);
    assert (gone + q[..n]) + q[n..] == gone + q;
  }

  lemma SortedSnoc<T>(gone: seq<Entry<T>>, q: seq<Entry<T>>, e: Entry<T>)
    requires Sorted(q) && NoneAfter(q, e.at)
    ensures Sorted(q + [e]) && NoneAfter(q + [e], e.at) && gone + (q + [e]) == (gone + q) + [e]
  {
  }

  /** Sortedness is what the code relies on: with a clock that once ran backwards the head
      scan stops too early and an expired entry stays. */
  lemma HeadEvictionNeedsSorted()
    ensures var q := [Entry('a', 10), Entry('b', 0)];
            !Expired(q[0], 12, 5) && q != Unexpired(q, 12, 5)
  {
    var q := [Entry('a', 10), Entry('b', 0)];
    UnexpiredMember(q, q[1], 12, 5);
    assert q[1] in q;
  }

  /** Expiry is permanent, so filtering early and filtering again later is filtering once. */
  lemma {:induction false} FilterEarlyFilterLate<T>(q: seq<Entry<T>>, early: int, late: int, maxAge: int)
    requires early <= late
    ensures Unexpired(Unexpired(q, early, maxAge), late, maxAge) == Unexpired(q, late, maxAge)
    ensures |Unexpired(q, late, maxAge)| <= |Unexpired(q, early, maxAge)|
  {
    if q != [] {
      FilterEarlyFilterLate(q[1..], early, late, maxAge);
      var rest := Unexpired(q[1..], early, maxAge);
      if !Expired(q[0], early, maxAge) {
        assert ([q[0]] + rest)[1..] == rest;
      }
    }
  }

  // ---- The simple form --------------------------------------------------------------

  /** A gate that never evicts. `pending` is everything admitted since the last release. */
  datatype AgedQueue<T> = AgedQueue(mode: Mode, pending: seq<Entry<T>>, out: seq<T>)

  function Fresh<T>(): AgedQueue<T> { AgedQueue(Queueing, [], []) }

  function Arrive<T>(s: AgedQueue<T>, msg: T, now: int, maxLen: int, maxAge: int): AgedQueue<T> {
    if s.mode.Open? then s.(out := s.out + [msg])
    else if |Unexpired(s.pending, now, maxAge)| >= maxLen then s
    else s.(pending := s.pending + [Entry(msg, now)])
  }

  function Release<T>(s: AgedQueue<T>, now: int, maxAge: int): AgedQueue<T> {
    AgedQueue(Open, [], s.out + Messages(Unexpired(s.pending, now, maxAge)))
  }

  function Hold<T>(s: AgedQueue<T>): AgedQueue<T> { s.(mode := Queueing) }

  // ---- The code's form --------------------------------------------------------------

  class Gate<T> {
    const maxLen: int
    const maxAge: int
    var state: Mode
    var queue: seq<Entry<T>>
    /** Every call of the forward callback so far, in order. */
    var forwarded: seq<T>

    ghost var spec: AgedQueue<T>
    /** Entries already dropped from the head of `queue` that `spec` still carries. */
    ghost var gone: seq<Entry<T>>
    ghost var clock: int

    ghost predicate Valid()
      reads this
    {
      && spec == AgedQueue(state, gone + queue, forwarded)
      && Sorted(queue) && NoneAfter(queue, clock)
      && (forall e :: e in gone ==> Expired(e, clock, maxAge))
      && (state.Open? ==> queue == [] && gone == [])
      && (queue == [] || |queue| <= maxLen)
    }

    constructor (maxLen: int, maxAge: int, now: int)
      ensures Valid() && spec == Fresh() && clock == now
      ensures this.maxLen == maxLen && this.maxAge == maxAge
    {
      this.maxLen, this.maxAge := maxLen, maxAge;
      state, queue, forwarded := Queueing, [], [];
      spec, gone, clock := Fresh(), [], now;
    }

    method EvictExpired(now: int)
      requires Valid() && clock <= now
      modifies this`queue, this`gone, this`clock
      ensures Valid() && clock == now && spec == old(spec)
      ensures queue == Unexpired(old(queue), now, maxAge) == Unexpired(spec.pending, now, maxAge)
    {
      clock := now;
      if maxAge <= 0 || |queue| == 0 {
        assert queue[0..] == queue;
        EvictionKeepsPending(gone, queue, 0, now, maxAge);
        return;
      }
      var cutoff := now - maxAge;
      var i := 0;
      while i < |queue| && queue[i].at < cutoff
        invariant 0 <= i <= |queue|
        invariant forall j :: 0 <= j < i ==> queue[j].at < cutoff
      {
        i := i + 1;
      }
      EvictionKeepsPending(gone, queue, i, now, maxAge);
      if i > 0 {
        gone, queue := gone + queue[..i], queue[i..];
      } else {
        assert queue[0..] == queue;
      }
    }

    method Handle(msg: T, now: int)
      requires Valid() && clock <= now
      modifies this
      ensures Valid() && clock == now
      ensures spec == Arrive(old(spec), msg, now, maxLen, maxAge)
    {
      if state.Open? {
        forwarded := forwarded + [msg];
        spec, clock := spec.(out := forwarded), now;
        return;
      }
      EvictExpired(now);
      if |queue| >= maxLen {
        return;
      }
      SortedSnoc(gone, queue, Entry(msg, now));
      queue := queue + [Entry(msg, now)];
      spec := spec.(pending := gone + queue);
    }

    method Open(now: int)
      requires Valid() && clock <= now
      modifies this
      ensures Valid() && clock == now
      ensures spec == Release(old(spec), now, maxAge)
    {
      EvictExpired(now);
      var backlog := Snapshot();
      queue := [];
      state := Mode.Open;
      ForwardAll(backlog);
      gone, spec := [], Release(spec, now, maxAge);
      assert gone + queue == [];
    }

    /** The two loops of Open: copying the messages under the lock, forwarding them after. */
    method Snapshot() returns (backlog: seq<T>)
      ensures backlog == Messages(queue)
    {
      backlog := [];
      for i := 0 to |queue|
        invariant backlog == Messages(queue)[..i]
      {
        backlog := backlog + [queue[i].msg];
      }
    }

    method ForwardAll(backlog: seq<T>)
      modifies this`forwarded
      ensures forwarded == old(forwarded) + backlog
    {
      for i := 0 to |backlog|
        invariant forwarded == old(forwarded) + backlog[..i]
      {
        forwarded := forwarded + [backlog[i]];
      }
      assert backlog[..|backlog|] == backlog;
    }

    method Queue()
      requires Valid()
      modifies this`state, this`spec
      ensures Valid() && spec == Hold(old(spec))
    {
      state := Queueing;
      spec := Hold(spec);
    }

    method Len(now: int) returns (n: nat)
      requires Valid() && clock <= now
      modifies this`queue, this`gone, this`clock
      ensures Valid() && clock == now && spec == old(spec)
      ensures n == |Unexpired(spec.pending, now, maxAge)| && (n == 0 || n <= maxLen)
    {
      EvictExpired(now);
      n := |queue|;
    }
  }

  // ---- Whole runs -------------------------------------------------------------------

  datatype Call<T> = HandleAt(msg: T, at: int) | OpenAt(at: int) | QueueCall

  function Run<T>(calls: seq<Call<T>>, maxLen: int, maxAge: int): AgedQueue<T> {
    if calls == [] then Fresh()
    else
      var s := Run(calls[..|calls| - 1], maxLen, maxAge);
      match calls[|calls| - 1]
      case HandleAt(msg, at) => Arrive(s, msg, at, maxLen, maxAge)
      case OpenAt(at) => Release(s, at, maxAge)
      case QueueCall => Hold(s)
  }

  function Arrivals<T>(calls: seq<Call<T>>): seq<T> {
    if calls == [] then []
    else
      var rest := Arrivals(calls[..|calls| - 1]);
      if calls[|calls| - 1].HandleAt? then rest + [calls[|calls| - 1].msg] else rest
  }

  /** `a` is `b` with some elements left out. */
  predicate Subsequence<T(==)>(a: seq<T>, b: seq<T>) {
    if a == [] then true
    else if b == [] then false
    else
      || (a[|a| - 1] == b[|b| - 1] && Subsequence(a[..|a| - 1], b[..|b| - 1]))
      || Subsequence(a, b[..|b| - 1])
  }

  lemma SubsequenceSnoc<T>(a: seq<T>, b: seq<T>, x: T)
    requires Subsequence(a, b)
    ensures Subsequence(a, b + [x]) && Subsequence(a + [x], b + [x])
  {
    assert (b + [x])[..|b|] == b && (a + [x])[..|a|] == a;
  }

  lemma {:induction false} SubsequenceTrans<T>(a: seq<T>, b: seq<T>, c: seq<T>)
    requires Subsequence(a, b) && Subsequence(b, c)
    ensures Subsequence(a, c)
    decreases |b| + |c|
  {
    if a != [] {
      var b', c' := b[..|b| - 1], c[..|c| - 1];
      if b[|b| - 1] == c[|c| - 1] && Subsequence(b', c') {
        if a[|a| - 1] == b[|b| - 1] && Subsequence(a[..|a| - 1], b') {
          SubsequenceTrans(a[..|a| - 1], b', c');
        } else {
          SubsequenceTrans(a, b', c');
        }
      } else {
        SubsequenceTrans(a, b, c');
      }
    }
  }

  lemma {:induction false} SubsequenceRefl<T>(a: seq<T>)
    ensures Subsequence(a, a)
  {
    if a != [] {
      SubsequenceRefl(a[..|a| - 1]);
    }
  }

  lemma UnexpiredSnoc<T>(q: seq<Entry<T>>, e: Entry<T>, now: int, maxAge: int)
    ensures Unexpired(q + [e], now, maxAge)
         == Unexpired(q, now, maxAge) + if Expired(e, now, maxAge) then [] else [e]
  {
    UnexpiredConcat(q, [e], now, maxAge);
    assert Unexpired([e], now, maxAge) == if Expired(e, now, maxAge) then [] else [e];
  }

  lemma MessagesSnoc<T>(p: seq<T>, q: seq<Entry<T>>, e: Entry<T>)
    ensures p + Messages(q + [e]) == (p + Messages(q)) + [e.msg]
  {
  }

  lemma {:induction false} ReleasedIsSubsequence<T>(p: seq<T>, q: seq<Entry<T>>, now: int, maxAge: int)
    ensures Subsequence(p + Messages(Unexpired(q, now, maxAge)), p + Messages(q))
  {
    if q == [] {
      SubsequenceRefl(p + Messages(q));
    } else {
      var init, last := q[..|q| - 1], q[|q| - 1];
      assert q == init + [last];
      ReleasedIsSubsequence(p, init, now, maxAge);
      var kept := Unexpired(init, now, maxAge);
      UnexpiredSnoc(init, last, now, maxAge);
      SubsequenceSnoc(p + Messages(kept), p + Messages(init), last.msg);
      MessagesSnoc(p, init, last);
      MessagesSnoc(p, kept, last);
      assert kept + [] == kept;
    }
  }

  lemma ArrivalKeepsOrder<T>(s: AgedQueue<T>, all: seq<T>, msg: T, at: int, maxLen: int, maxAge: int)
    requires Subsequence(s.out + Messages(s.pending), all) && (s.mode.Open? ==> s.pending == [])
    ensures var t := Arrive(s, msg, at, maxLen, maxAge); Subsequence(t.out + Messages(t.pending), all + [msg])
  {
    var t := Arrive(s, msg, at, maxLen, maxAge);
    var before := s.out + Messages(s.pending);
    SubsequenceSnoc(before, all, msg);
    if t != s {
      assert t.out + Messages(t.pending) == before + [msg];
    }
  }

  lemma ReleaseKeepsOrder<T>(s: AgedQueue<T>, all: seq<T>, at: int, maxAge: int)
    requires Subsequence(s.out + Messages(s.pending), all)
    ensures var t := Release(s, at, maxAge); Subsequence(t.out + Messages(t.pending), all)
  {
    var t := Release(s, at, maxAge);
    ReleasedIsSubsequence(s.out, s.pending, at, maxAge);
    SubsequenceTrans(t.out, s.out + Messages(s.pending), all);
    assert t.out + Messages(t.pending) == t.out;
  }

  /** Over every run of calls the gate forwards a subsequence of what it was handed, in
      arrival order, with everything still pending behind everything already forwarded. */
  lemma {:induction false} RunForwardsInOrder<T>(calls: seq<Call<T>>, maxLen: int, maxAge: int)
    ensures var s := Run(calls, maxLen, maxAge);
            Subsequence(s.out + Messages(s.pending), Arrivals(calls)) && (s.mode.Open? ==> s.pending == [])
  {
    if calls != [] {
      var init, last := calls[..|calls| - 1], calls[|calls| - 1];
      RunForwardsInOrder(init, maxLen, maxAge);
      var s := Run(init, maxLen, maxAge);
      match last
      case HandleAt(msg, at) => ArrivalKeepsOrder(s, Arrivals(init), msg, at, maxLen, maxAge);
      case OpenAt(at) => ReleaseKeepsOrder(s, Arrivals(init), at, maxAge);
      case QueueCall =>
    }
  }

  ghost predicate ClockOrdered<T>(calls: seq<Call<T>>) {
    forall i, j :: 0 <= i < j < |calls| && !calls[i].QueueCall? && !calls[j].QueueCall? ==> calls[i].at <= calls[j].at
  }

  /** With a clock that never runs backwards the unexpired backlog stays within its bound at
      every moment from the last call on. */
  lemma {:induction false} RunKeepsBound<T>(calls: seq<Call<T>>, maxLen: nat, maxAge: int, now: int)
    requires ClockOrdered(calls)
    requires forall i :: 0 <= i < |calls| && !calls[i].QueueCall? ==> calls[i].at <= now
    ensures |Unexpired(Run(calls, maxLen, maxAge).pending, now, maxAge)| <= maxLen
  {
    if calls != [] {
      var init, last := calls[..|calls| - 1], calls[|calls| - 1];
      RunKeepsBound(init, maxLen, maxAge, now);
      if last.HandleAt? {
        var s := Run(init, maxLen, maxAge);
        UnexpiredConcat(s.pending, [Entry(last.msg, last.at)], now, maxAge);
        FilterEarlyFilterLate(s.pending, last.at, now, maxAge);
      }
    }
  }
}
