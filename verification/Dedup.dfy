/** Message dedup (internal/dedup): one SET NX EX per message id, issued directly or coalesced
    into pipelined batches. This file has the command, the collector loop's two cases and the
    flush as code; `DedupSteps` puts them under interleaving. */
module Dedup {
  import opened Options

  /** Dedup keys and the time each expires. */
  type Keys = map<string, int>

  /** `LostBefore`/`LostAfter`: the client gets an error; the command did not, or did, run. */
  datatype Fault = NoFault | LostBefore | LostAfter

  datatype Answer = Answer(seen: bool, failed: bool)

  predicate Held(keys: Keys, id: string, now: int) { id in keys && now < keys[id] }

  /** SET key NX EX ttl: an existing key is left alone, expiry included. */
  function SetNx(keys: Keys, id: string, now: int, ttl: int): Keys {
    if Held(keys, id, now) then keys else keys[id := now + ttl]
  }

  function SeenDirect(keys: Keys, id: string, now: int, fault: Fault): Answer {
    if fault.NoFault? then Answer(Held(keys, id, now), false) else Answer(false, true)
  }

  function AfterDirect(keys: Keys, id: string, now: int, ttl: int, fault: Fault): Keys {
    if fault.LostBefore? then keys else SetNx(keys, id, now, ttl)
  }

  // ---- A batch against one call at a time -------------------------------------------

  /** One queued SET NX, with what becomes of its round trip. */
  datatype Command = Command(id: string, fault: Fault)

  /** What direct calls, one after the other, would answer. */
  function Replies(keys: Keys, cmds: seq<Command>, now: int, ttl: int): seq<Answer>
    decreases |cmds|
  {
    if cmds == [] then []
    else
      var first := SeenDirect(keys, cmds[0].id, now, cmds[0].fault);
      [first] + Replies(AfterDirect(keys, cmds[0].id, now, ttl, cmds[0].fault), cmds[1..], now, ttl)
  }

  function KeysAfter(keys: Keys, cmds: seq<Command>, now: int, ttl: int): Keys
    decreases |cmds|
  {
    if cmds == [] then keys
    else KeysAfter(AfterDirect(keys, cmds[0].id, now, ttl, cmds[0].fault), cmds[1..], now, ttl)
  }

  lemma {:induction false} RepliesSnoc(keys: Keys, cmds: seq<Command>, c: Command, now: int, ttl: int)
    ensures var before := KeysAfter(keys, cmds, now, ttl);
            && Replies(keys, cmds + [c], now, ttl)
               == Replies(keys, cmds, now, ttl) + [SeenDirect(before, c.id, now, c.fault)]
            && KeysAfter(keys, cmds + [c], now, ttl) == AfterDirect(before, c.id, now, ttl, c.fault)
    decreases |cmds|
  {
    if cmds != [] {
      assert (cmds + [c])[1..] == cmds[1..] + [c];
      RepliesSnoc(AfterDirect(keys, cmds[0].id, now, ttl, cmds[0].fault), cmds[1..], c, now, ttl);
    }
  }

  lemma {:induction false} RepliesLength(keys: Keys, cmds: seq<Command>, now: int, ttl: int)
    ensures |Replies(keys, cmds, now, ttl)| == |cmds|
    decreases |cmds|
  {
    if cmds != [] {
      RepliesLength(AfterDirect(keys, cmds[0].id, now, ttl, cmds[0].fault), cmds[1..], now, ttl);
    }
  }

  /** Once held, an id answers "seen" to every later command of the batch. */
  lemma {:induction false} HeldStays(keys: Keys, cmds: seq<Command>, now: int, ttl: int, j: nat)
    requires j < |cmds| && Held(keys, cmds[j].id, now) && ttl > 0 && cmds[j].fault.NoFault?
    ensures |Replies(keys, cmds, now, ttl)| == |cmds| && Replies(keys, cmds, now, ttl)[j].seen
    decreases |cmds|
  {
    RepliesLength(keys, cmds, now, ttl);
    if j > 0 {
      HeldStays(AfterDirect(keys, cmds[0].id, now, ttl, cmds[0].fault), cmds[1..], now, ttl, j - 1);
    }
  }

  /** Two requests for one id in one batch: the later one is never told "not seen". */
  lemma {:induction false} OneWinnerPerBatch(keys: Keys, cmds: seq<Command>, now: int, ttl: int, i: nat, j: nat)
    requires i < j < |cmds| && cmds[i].id == cmds[j].id && ttl > 0
    requires !cmds[i].fault.LostBefore? && cmds[j].fault.NoFault?
    ensures |Replies(keys, cmds, now, ttl)| == |cmds| && Replies(keys, cmds, now, ttl)[j].seen
    decreases |cmds|
  {
    RepliesLength(keys, cmds, now, ttl);
    var keys' := AfterDirect(keys, cmds[0].id, now, ttl, cmds[0].fault);
    if i > 0 {
      OneWinnerPerBatch(keys', cmds[1..], now, ttl, i - 1, j - 1);
    } else {
      HeldStays(keys', cmds[1..], now, ttl, j - 1);
    }
  }

  class Redis {
    var keys: Keys

    method SetNX(id: string, now: int, ttl: int, fault: Fault) returns (r: Answer)
      modifies this
      ensures keys == AfterDirect(old(keys), id, now, ttl, fault)
      ensures r == SeenDirect(old(keys), id, now, fault)
    {
      if !fault.NoFault? {
        if fault.LostAfter? {
          keys := SetNx(keys, id, now, ttl);
        }
        return Answer(false, true);
      }
      var ok := !Held(keys, id, now);
      if ok {
        keys := keys[id := now + ttl];
      }
      r := Answer(!ok, false);
    }

    /** The server's side of one pipeline, with no other client in between. */
    method Exec(cmds: seq<Command>, now: int, ttl: int) returns (replies: seq<Answer>)
      modifies this
      ensures replies == Replies(old(keys), cmds, now, ttl)
      ensures keys == KeysAfter(old(keys), cmds, now, ttl)
    {
      replies := [];
      for i := 0 to |cmds|
        invariant replies == Replies(old(keys), cmds[..i], now, ttl)
        invariant keys == KeysAfter(old(keys), cmds[..i], now, ttl)
      {
        assert cmds[..i + 1] == cmds[..i] + [cmds[i]];
        RepliesSnoc(old(keys), cmds[..i], cmds[i], now, ttl);
        var reply := SetNX(cmds[i].id, now, ttl, cmds[i].fault);
        replies := replies + [reply];
      }
      assert cmds[..|cmds|] == cmds;
    }
  }

  datatype Request = Request(number: nat, id: string)

  /** What the collector loop holds between two selects. */
  datatype Collected = Collected(batch: seq<nat>, timer: Option<int>)

  /** The collector after one request: its new state, and the batch it hands to a flush. */
  function OnRequest(c: Collected, r: nat, now: int, batchSize: int, batchWait: int): (Collected, seq<nat>) {
    var batch := c.batch + [r];
    if |batch| >= batchSize then (Collected([], None), batch)
    else (Collected(batch, if c.timer.None? then Some(now + batchWait) else c.timer), [])
  }

  function OnTimer(c: Collected): (Collected, seq<nat>) { (Collected([], None), c.batch) }

  const DEFAULT_TTL := 300_000

  class Batcher {
    const batchSize: int
    const batchWait: int
    const batchConcurrency: int
    const ttl: int
    const rdb: Redis
    var batch: seq<nat>
    var timerC: Option<int>
    /** Every batch handed to startFlush, in order. */
    var started: seq<seq<nat>>

    ghost predicate Valid()
      reads this
    {
      && batchSize >= 1 && batchWait >= 1 && batchConcurrency >= 1
      && |batch| < batchSize && (timerC.Some? <==> batch != [])
      && forall i :: 0 <= i < |started| ==> 1 <= |started[i]| <= batchSize
    }

    constructor NewBatched(rdb: Redis, ttl: int, batchSize: int, batchWait: int, batchConcurrency: int)
      ensures Valid() && batch == [] && started == [] && this.rdb == rdb
      ensures this.ttl == (if ttl == 0 then DEFAULT_TTL else ttl)
      ensures this.batchSize == (if batchSize < 1 then 1 else batchSize)
      ensures this.batchWait == (if batchWait <= 0 then 1 else batchWait)
      ensures this.batchConcurrency == (if batchConcurrency < 1 then 1 else batchConcurrency)
    {
      this.rdb := rdb;
      this.ttl := if ttl == 0 then DEFAULT_TTL else ttl;
      this.batchSize := if batchSize < 1 then 1 else batchSize;
      this.batchWait := if batchWait <= 0 then 1 else batchWait;
      this.batchConcurrency := if batchConcurrency < 1 then 1 else batchConcurrency;
      batch, timerC, started := [], None, [];
    }

    function View(): Collected
      reads this
    {
      Collected(batch, timerC)
    }

    method ReceiveRequest(r: nat, now: int)
      requires Valid()
      modifies this
      ensures Valid()
      ensures var (c, flushed) := OnRequest(old(View()), r, now, batchSize, batchWait);
              View() == c && started == old(started) + if flushed == [] then [] else [flushed]
      ensures if |old(batch)| + 1 >= batchSize
              then batch == [] && timerC == None && started == old(started) + [old(batch) + [r]]
              else && batch == old(batch) + [r] && started == old(started)
                   && timerC == if old(timerC).Some? then old(timerC) else Some(now + batchWait)
    {
      batch := batch + [r];
      if timerC.None? {
        timerC := Some(now + batchWait);
      }
      if |batch| >= batchSize {
        started := started + [batch];
        batch := [];
        timerC := None;
      }
    }

    /** The timer channel only delivers while a timer is armed, and then the batch is never
        empty. */
    method TimerFires()
      requires Valid() && timerC.Some?
      modifies this
      ensures Valid()
      ensures var (c, flushed) := OnTimer(old(View()));
              flushed != [] && View() == c && started == old(started) + [flushed]
      ensures batch == [] && timerC == None && started == old(started) + [old(batch)]
    {
      if |batch| > 0 {
        started := started + [batch];
        batch := [];
      }
      timerC := None;
    }

    /** One pipelined round trip: every request is told what a direct call at its place in
        the batch would have been told. */
    method Flush(batch: seq<Request>, now: int, faults: seq<Fault>) returns (results: map<nat, Answer>)
      requires |faults| == |batch|
      requires forall i, j :: 0 <= i < j < |batch| ==> batch[i].number != batch[j].number
      modifies rdb
      ensures var replies := Replies(old(rdb.keys), Commands(batch, faults), now, ttl);
              && rdb.keys == KeysAfter(old(rdb.keys), Commands(batch, faults), now, ttl)
              && |replies| == |batch|
              && results.Keys == (set r | r in batch :: r.number)
              && forall i :: 0 <= i < |batch| ==> results[batch[i].number] == replies[i]
    {
      var cmds: seq<Command> := [];
      for i := 0 to |batch|
        invariant cmds == Commands(batch, faults)[..i]
      {
        cmds := cmds + [Command(batch[i].id, faults[i])];
      }
      assert cmds == Commands(batch, faults);
      RepliesLength(rdb.keys, cmds, now, ttl);
      var replies := rdb.Exec(cmds, now, ttl);
      results := map[];
      for i := 0 to |batch|
        invariant results.Keys == set r | r in batch[..i] :: r.number
        invariant forall j :: 0 <= j < i ==> batch[j].number in results && results[batch[j].number] == replies[j]
      {
        assert batch[..i + 1] == batch[..i] + [batch[i]];
        results := results[batch[i].number := replies[i]];
      }
      assert batch[..|batch|] == batch;
    }
  }

  function Commands(batch: seq<Request>, faults: seq<Fault>): seq<Command>
    requires |faults| == |batch|
  {
    seq(|batch|, i requires 0 <= i < |batch| => Command(batch[i].id, faults[i]))
  }
}
