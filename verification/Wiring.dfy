/** How the program puts one instance together (cmd/antiloop/main.go): one dedup TTL for the
    keys and for the gate's age limit, and the election's role changes into the pipeline. */
module Wiring {
  import opened Options
  import Dedup
  import Gates
  import Fleet
  import Election
  import Json
  import Relay

  const DEDUP_TTL := 7_200_000
  const MAX_BACKLOG := 50_000

  function Shipped(cleanStops: bool): Fleet.Config { Fleet.Config(DEDUP_TTL, DEDUP_TTL, MAX_BACKLOG, cleanStops) }

  /** The configuration the program ships with keeps drained copies from slipping past a claim
      made after they were queued; and with that TTL for the keys no age limit above it, and no
      disabled one, would. */
  lemma SharedTtlIsSafe(maxAge: int, cleanStops: bool)
    ensures Fleet.EscapesAreBounded(Shipped(cleanStops))
    ensures Fleet.EscapesAreBounded(Shipped(cleanStops).(maxAge := maxAge)) <==> 0 < maxAge <= DEDUP_TTL
  {
    Fleet.MaxAgeMustNotExceedTtl(Shipped(cleanStops));
    Fleet.MaxAgeMustNotExceedTtl(Shipped(cleanStops).(maxAge := maxAge));
  }

  /** But equal settings leave no slack: they are safe for no arrival lag and no drain delay at
      all, not even zero, where only an age limit strictly below the TTL is. */
  lemma SharedTtlLeavesNoSlack(lag: nat, delay: nat, cleanStops: bool)
    ensures !Fleet.NoDrainedEscapes(Shipped(cleanStops), lag, delay)
  {
    Fleet.DrainingIsSafeExactly(Shipped(cleanStops), lag, delay);
  }

  /** The pipeline has the role of the last successful evaluation, and its gate is open exactly
      when that evaluation won and a broker is connected. */
  ghost predicate Wired(client: Election.Client, pipeline: Relay.Pipeline)
    reads client, pipeline, pipeline.gate
  {
    && client.Valid() && pipeline.Valid()
    && pipeline.isPrimary == Election.LastOr(client.results, false)
    && (pipeline.gate.state.Open? <==> Election.LastOr(client.results, false) && pipeline.pubConnected)
  }

  method Start(rdb: Election.Hash, uuid: string, host: string, freshWindow: int, centre: string,
               policy: Relay.Policy, connected: bool, redis: Dedup.Redis, now: int)
    returns (client: Election.Client, pipeline: Relay.Pipeline)
    ensures Wired(client, pipeline) && fresh(client) && fresh(pipeline) && fresh(pipeline.gate)
    ensures client.results == [] && pipeline.pubConnected == connected && pipeline.gate.state.Queueing?
    ensures pipeline.gate.maxAge == pipeline.dedupTtl == DEDUP_TTL && pipeline.gate.maxLen == MAX_BACKLOG
    ensures pipeline.rdb == redis
  {
    pipeline := new Relay.Pipeline(centre, policy, MAX_BACKLOG, DEDUP_TTL, redis, now);
    pipeline.SetPubConnected(connected, now);
    client := new Election.Client(rdb, uuid, host, freshWindow);
  }

  /** One tick with onChange wired to SetPrimary. The setter runs only when onChange does; the
      role is right all the same after every tick, failed ones included. A promotion releases
      the unexpired backlog, a demotion holds what arrives from then on. */
  method Tick(client: Election.Client, pipeline: Relay.Pipeline, begun: int, now: int, faults: Election.Faults)
    returns (ghost r: Option<bool>)
    requires Wired(client, pipeline) && begun <= now && pipeline.gate.clock <= now
    modifies client, client.rdb, pipeline`isPrimary, pipeline.gate
    ensures Wired(client, pipeline)
    ensures var value := Election.Announcement(begun, client.host);
            Election.IsEvaluation(old(client.rdb.Visible(begun)), client.uuid, value, client.freshWindow, begun, now,
                                  faults, r, client.rdb.Visible(now))
    ensures client.results == if r.Some? then old(client.results) + [r.value] else old(client.results)
    ensures client.changes == old(client.changes) ==> pipeline.gate.spec == old(pipeline.gate.spec)
    ensures client.changes != old(client.changes) ==>
              pipeline.gate.spec == if client.isPrimary && pipeline.pubConnected
                                    then Gates.Release(old(pipeline.gate.spec), now, pipeline.gate.maxAge)
                                    else Gates.Hold(old(pipeline.gate.spec))
  {
    var before := |client.changes|;
    ghost var was := client.results;
    r := client.Tick(begun, now, faults);
    Election.ChangesAlternate(client.results);
    if |client.changes| > before {
      pipeline.SetPrimary(client.changes[|client.changes| - 1], now);
    } else {
      RoleUnchanged(was, client.results);
    }
  }

  /** No call of onChange, no new role. */
  lemma RoleUnchanged(before: seq<bool>, after: seq<bool>)
    requires after == before || (after != [] && after[..|after| - 1] == before)
    requires |Election.WithoutRepeats(after)| <= |Election.WithoutRepeats(before)|
    ensures Election.WithoutRepeats(after) == Election.WithoutRepeats(before)
    ensures Election.LastOr(after, false) == Election.LastOr(before, false)
  {
    if after != before {
      var last := after[|after| - 1];
      assert after == before + [last];
      Election.WithoutRepeatsSnoc(before, last);
    }
  }

  /** What dedup answers a copy in the fleet. */
  function ReplyTo(s: Fleet.State, id: string, reply: Fleet.Reply): Relay.DedupReply {
    if !reply.Answered? then Relay.Failed else if Fleet.SlotHeld(s, id) then Relay.Seen else Relay.NotSeen
  }

  /** The steps a copy takes in the fleet from its checks on are those of process: it goes on to
      dedup exactly when process asks, and to Publish exactly when process publishes. */
  lemma ProcessTakesFleetSteps(c: Fleet.Config, s: Fleet.State, copy: nat, policy: Relay.Policy, v: Relay.Verdicts,
                               m: Relay.Msg, centre: string, reply: Fleet.Reply)
    requires copy < |s.calls| && s.calls[copy].stage.Checking? && s.calls[copy].id == Json.ExtractId(m.payload)
    ensures var t := Fleet.Apply(c, s, Fleet.Check(copy, !Relay.Stops(policy, v, m, centre)));
            var id := s.calls[copy].id;
            && (t.calls[copy].stage.Discarded? <==> Relay.Stops(policy, v, m, centre))
            && (t.calls[copy].stage.AtDedup? <==> Relay.Consults(policy, v, m, centre))
            && (t.calls[copy].stage.AtDedup? ==>
                  var u := Fleet.Apply(c, t, Fleet.Action.Dedup(copy, reply));
                  u.calls[copy].stage.MustPublish? <==> Relay.Publishes(policy, v, m, centre, ReplyTo(t, id, reply)))
            && (!t.calls[copy].stage.AtDedup? ==>
                  (t.calls[copy].stage.MustPublish? <==> Relay.Publishes(policy, v, m, centre, ReplyTo(t, id, reply))))
  {
    var stops := Relay.Stops(policy, v, m, centre);
    var t := Fleet.Apply(c, s, Fleet.Check(copy, !stops));
    assert t.calls[copy].id == s.calls[copy].id;
  }
}
