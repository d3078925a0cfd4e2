/** The election as a protocol: the announce, the read, the cutoff, the prune and the role
    change of every instance are separate steps that interleave with everybody else's, any of
    the Redis calls may fail, and an instance may stop at any point. Stamps and cutoffs are
    milliseconds of one shared clock. Stored values are represented by their stamps;
    `Election.StampRoundTrip` is the link. */
module ElectionSteps {
  import opened Options
  import opened Strings
  import opened Election

  /** Where one instance is in its tick. */
  datatype Phase =
    | Idle
    | Announcing(stamp: int)
    | Reading(begun: int)
    | Deciding(begun: int, readAt: int, all: map<string, int>, known: set<string>)
    | Pruning(begun: int, readAt: int, young: set<string>, stale: set<string>, known: set<string>)

  /** `stamp` is the newest one that reached the hash. `heard` and `heardAt` belong to the last
      successful evaluation: the live announced instances at its read, and the read's time. */
  datatype Member = Member(live: bool, phase: Phase, stamp: Option<int>, firstAt: int, stoppedAt: int,
                           primary: bool, heard: set<string>, heardAt: int)

  datatype State = State(now: int, fields: map<string, int>, expireAt: Option<int>, members: map<string, Member>)

  /** `Lost`: the client sees an error; the command may have run on the server or not. */
  datatype Reply = Answered | Lost(ran: bool)

  datatype Action =
    | Wait(d: nat)
    | Join(id: string)
    | Begin(id: string)
    | Announce(id: string, reply: Reply)
    | Read(id: string, ok: bool)
    | Decide(id: string)
    | Prune(id: string, ran: bool)
    | Stop(id: string)

  const START := State(0, map[], None, map[])

  const JOINED := Member(true, Idle, None, 0, 0, false, {}, 0)

  function Visible(s: State): map<string, int> {
    if s.expireAt.Some? && s.expireAt.value <= s.now then map[] else s.fields
  }

  predicate LiveMember(s: State, id: string) { id in s.members && s.members[id].live }

  predicate Announced(s: State, id: string) { LiveMember(s, id) && s.members[id].stamp.Some? }

  function With(s: State, id: string, m: Member): State { s.(members := s.members[id := m]) }

  /** HSET and EXPIRE take effect. */
  function Announces(s: State, id: string, stamp: int): State
    requires id in s.members
  {
    var m := s.members[id];
    With(s, id, m.(stamp := Some(stamp), firstAt := if m.stamp.Some? then m.firstAt else s.now))
      .(fields := Visible(s)[id := stamp], expireAt := Some(s.now + KEY_EXPIRY))
  }

  function YoungIds(all: map<string, int>, cutoff: int): set<string> { set id | id in all && all[id] >= cutoff }

  function OldIds(all: map<string, int>, cutoff: int): set<string> { set id | id in all && all[id] < cutoff }

  /** The stamps stand for the announced values: what the code finds fresh and stale in the hash is
      what is young and old among the stamps. A value that is no stamp is stale. */
  lemma StampsDecide(all: map<string, string>, stamps: map<string, int>, hosts: map<string, string>, cutoff: int)
    requires all.Keys == stamps.Keys == hosts.Keys
    requires forall id :: id in all ==>
      -INT64_LIMIT <= stamps[id] < INT64_LIMIT && all[id] == Announcement(stamps[id], hosts[id])
    ensures FreshIds(all, cutoff) == YoungIds(stamps, cutoff) && StaleIds(all, cutoff) == OldIds(stamps, cutoff)
  {
    forall id | id in all ensures Stamp(all[id]) == Some(stamps[id]) {
      StampRoundTrip(stamps[id], hosts[id]);
    }
    SameClasses(all, stamps, cutoff);
  }

  lemma NoStampIsStale(all: map<string, string>, id: string, raw: string, cutoff: int)
    requires Stamp(raw).None?
    ensures StaleIds(all[id := raw], cutoff) == StaleIds(all, cutoff) + {id}
    ensures FreshIds(all[id := raw], cutoff) == FreshIds(all, cutoff) - {id}
  {
  }

  function Deletes(s: State, ids: set<string>): State {
    var fields := Visible(s) - ids;
    s.(fields := fields, expireAt := if fields == map[] then None else s.expireAt)
  }

  /** The end of an evaluation: an error when nobody is fresh, otherwise a new role. */
  ghost function Concludes(s: State, id: string): State
    requires id in s.members && s.members[id].phase.Pruning?
  {
    var m := s.members[id];
    var p := m.phase;
    if p.young == {} then With(s, id, m.(phase := Idle))
    else With(s, id, m.(phase := Idle, primary := IsLeast(id, p.young), heard := p.known, heardAt := p.readAt))
  }

  predicate Enabled(s: State, a: Action) {
    match a
    case Wait(_) => true
    case Join(id) => id !in s.members
    case Begin(id) => LiveMember(s, id) && s.members[id].phase.Idle?
    case Announce(id, _) => LiveMember(s, id) && s.members[id].phase.Announcing?
    case Read(id, _) => LiveMember(s, id) && s.members[id].phase.Reading?
    case Decide(id) => LiveMember(s, id) && s.members[id].phase.Deciding?
    case Prune(id, _) => LiveMember(s, id) && s.members[id].phase.Pruning?
    case Stop(id) => LiveMember(s, id)
  }

  ghost function Apply(s: State, a: Action, window: int): State
    requires Enabled(s, a)
  {
    match a
    case Wait(d) => s.(now := s.now + d)
    case Join(id) => With(s, id, JOINED)
    case Begin(id) => With(s, id, s.members[id].(phase := Announcing(s.now)))
    case Announce(id, reply) =>
      var stamp := s.members[id].phase.stamp;
      var t := if reply == Lost(false) then s else Announces(s, id, stamp);
      With(t, id, t.members[id].(phase := if reply.Answered? then Reading(stamp) else Idle))
    case Read(id, ok) =>
      var m := s.members[id];
      if !ok then With(s, id, m.(phase := Idle))
      else
        var known := set o | o in s.members && Announced(s, o);
        With(s, id, m.(phase := Deciding(m.phase.begun, s.now, Visible(s), known)))
    case Decide(id) =>
      var m := s.members[id];
      var p := m.phase;
      var cutoff := s.now - window;
      With(s, id, m.(phase := Pruning(p.begun, p.readAt, YoungIds(p.all, cutoff), OldIds(p.all, cutoff), p.known)))
    case Prune(id, ran) =>
      // no HDEL is sent when nothing is stale; a failed one is not fatal
      var stale := s.members[id].phase.stale;
      Concludes(if ran && stale != {} then Deletes(s, stale) else s, id)
    case Stop(id) => With(s, id, s.members[id].(live := false, phase := Idle, stoppedAt := s.now))
  }

  ghost predicate Next(s: State, t: State, window: int) {
    exists a :: Enabled(s, a) && t == Apply(s, a, window)
  }

  ghost predicate IsRun(run: seq<State>, window: int) {
    |run| > 0 && run[0] == START && forall i :: 0 < i < |run| ==> Next(run[i - 1], run[i], window)
  }

  /** The timing assumption: the newest stamp of a live instance is never older than `gap`,
      and nobody takes longer than `delay` from its read to its cutoff. */
  ghost predicate Timely(s: State, gap: int, delay: int) {
    && (forall id :: id in s.members && Announced(s, id) ==> s.now - s.members[id].stamp.value <= gap)
    && (forall id :: id in s.members && s.members[id].phase.Deciding? ==> s.now - s.members[id].phase.readAt <= delay)
  }

  ghost predicate TimelyRun(run: seq<State>, window: int, gap: int, delay: int) {
    && IsRun(run, window)
    && gap + delay <= window < KEY_EXPIRY && 0 <= delay
    && forall i :: 0 <= i < |run| ==> Timely(run[i], gap, delay)
  }

  // ---- An undisturbed tick ----------------------------------------------------------

  /** The values in the hash carry these stamps. */
  ghost predicate Carries(raw: map<string, string>, stamps: map<string, int>) {
    raw.Keys == stamps.Keys && forall id :: id in raw ==> Stamp(raw[id]) == Some(stamps[id])
  }

  /** The first part of a tick with nobody else in between: announced, and read `d` later. */
  ghost function FirstPart(s: State, id: string, d: nat, window: int): State
    requires LiveMember(s, id) && s.members[id].phase.Idle?
  {
    var announced := Apply(Apply(s, Begin(id), window), Announce(id, Answered), window);
    Apply(Apply(announced, Wait(d), window), Read(id, true), window)
  }

  predicate HasRead(s: State, id: string) {
    LiveMember(s, id) && s.members[id].phase.Deciding? && s.members[id].phase.all == Visible(s)
  }

  /** The rest of it, at once. */
  ghost function SecondPart(s: State, id: string, ran: bool, window: int): State
    requires HasRead(s, id)
  {
    Apply(Apply(s, Decide(id), window), Prune(id, ran), window)
  }

  lemma FirstPartReads(s: State, id: string, d: nat, window: int)
    requires LiveMember(s, id) && s.members[id].phase.Idle?
    ensures var t := FirstPart(s, id, d, window);
            && HasRead(t, id) && t.now == s.now + d && t.members[id].primary == s.members[id].primary
            && Visible(t) == if d < KEY_EXPIRY then Visible(s)[id := s.now] else map[]
  {
  }

  lemma SecondPartLeaves(s: State, id: string, ran: bool, window: int)
    requires HasRead(s, id)
    ensures var t := SecondPart(s, id, ran, window);
            var young, stale := YoungIds(Visible(s), s.now - window), OldIds(Visible(s), s.now - window);
            && t.now == s.now && id in t.members
            && Visible(t) == (if ran then Visible(s) - stale else Visible(s))
            && (t.members[id].primary <==> if young == {} then s.members[id].primary else IsLeast(id, young))
  {
    if OldIds(Visible(s), s.now - window) == {} {
      assert Visible(s) - OldIds(Visible(s), s.now - window) == Visible(s);
    }
  }

  lemma SameClasses(raw: map<string, string>, stamps: map<string, int>, cutoff: int)
    requires Carries(raw, stamps)
    ensures FreshIds(raw, cutoff) == YoungIds(stamps, cutoff) && StaleIds(raw, cutoff) == OldIds(stamps, cutoff)
    ensures Carries(raw - StaleIds(raw, cutoff), stamps - OldIds(stamps, cutoff))
  {
  }

  /** An undisturbed tick does what one evaluation does to a hash whose values carry the stamps. Up
      to the read: the announced value carries the new stamp, and the key is gone when the read
      comes after its expiry. */
  lemma TickAnnounces(s: State, id: string, d: nat, window: int, raw: map<string, string>, host: string)
    requires LiveMember(s, id) && s.members[id].phase.Idle?
    requires Carries(raw, Visible(s)) && -INT64_LIMIT <= s.now < INT64_LIMIT
    ensures var live := if d < KEY_EXPIRY then raw[id := Announcement(s.now, host)] else map[];
            var u := FirstPart(s, id, d, window);
            && HasRead(u, id) && Carries(live, Visible(u))
            && u.now == s.now + d && u.members[id].primary == s.members[id].primary
  {
    StampRoundTrip(s.now, host);
    FirstPartReads(s, id, d, window);
  }

  /** From the read on: the fields that carry stale stamps go, and the role is the result of the
      evaluation, or stays when there is none. */
  lemma TickJudges(u: State, id: string, ran: bool, window: int, live: map<string, string>)
    requires HasRead(u, id) && Carries(live, Visible(u))
    ensures var t := SecondPart(u, id, ran, window);
            var young, stale := FreshIds(live, u.now - window), StaleIds(live, u.now - window);
            && t.now == u.now && id in t.members
            && Carries(if ran then live - stale else live, Visible(t))
            && (t.members[id].primary <==> if young == {} then u.members[id].primary else IsLeast(id, young))
  {
    SecondPartLeaves(u, id, ran, window);
    SameClasses(live, Visible(u), u.now - window);
  }

  // ---- Invariants -------------------------------------------------------------------

  /** A live announced instance's field is there and carries its newest stamp. */
  predicate FieldOk(s: State, id: string) {
    Announced(s, id) ==>
      && id in s.fields && s.fields[id] == s.members[id].stamp.value <= s.now
      && s.members[id].firstAt <= s.now
      && s.expireAt.Some? && s.expireAt.value >= s.fields[id] + KEY_EXPIRY
  }

  /** Fields come from announcements only. */
  predicate OriginOk(s: State, id: string) {
    id in s.fields ==> id in s.members && s.members[id].stamp == Some(s.fields[id])
  }

  /** What an evaluation between its read and its cutoff holds. */
  ghost predicate DecidingOk(s: State, gap: int, p: Phase) {
    p.Deciding? ==>
      && p.readAt <= s.now
      && (forall o :: o in p.known ==> o in p.all && p.all[o] >= p.readAt - gap)
      && (forall o :: o in p.all ==> o in s.members && (s.members[o].live ==> o in p.known))
      && (forall o :: o in p.known ==> o in s.members && s.members[o].stamp.Some? && s.members[o].firstAt <= p.readAt)
      && (forall o :: o in s.members && Announced(s, o) && o !in p.known ==> p.readAt <= s.members[o].firstAt)
  }

  ghost predicate PruningOk(s: State, p: Phase) {
    p.Pruning? ==>
      && p.readAt <= s.now && p.known <= p.young
      && (forall o :: o in p.stale ==> o in s.members && !s.members[o].live)
      && (forall o :: o in p.known ==> o in s.members && s.members[o].stamp.Some? && s.members[o].firstAt <= p.readAt)
      && (forall o :: o in s.members && Announced(s, o) && o !in p.known ==> p.readAt <= s.members[o].firstAt)
  }

  /** A primary is least among all it heard, and whoever it did not hear came later. */
  ghost predicate PrimaryOk(s: State, id: string)
    requires id in s.members
  {
    var m := s.members[id];
    && m.heardAt <= s.now
    && (m.primary ==>
        && (forall o :: o in m.heard ==> LexLeq(id, o))
        && (forall o :: o in s.members && Announced(s, o) && o !in m.heard ==> m.heardAt <= s.members[o].firstAt))
  }

  /** An evaluating instance is itself announced, so it knows itself. */
  predicate SelfOk(s: State, id: string)
    requires id in s.members
  {
    var m := s.members[id];
    && (m.phase.Announcing? ==> m.phase.stamp <= s.now)
    && (m.phase.Reading? ==> m.stamp.Some?)
    && (m.phase.Deciding? || m.phase.Pruning? ==> m.stamp.Some? && id in m.phase.known)
  }

  ghost predicate Inv(s: State, gap: int) {
    && 0 <= s.now
    && (forall id :: id in s.members ==> FieldOk(s, id) && SelfOk(s, id))
    && (forall id :: id in s.fields ==> OriginOk(s, id))
    && (forall id :: id in s.members ==> DecidingOk(s, gap, s.members[id].phase))
    && (forall id :: id in s.members ==> PruningOk(s, s.members[id].phase))
    && (forall id :: id in s.members ==> PrimaryOk(s, id))
  }

  ghost predicate Params(window: int, gap: int, delay: int) {
    gap + delay <= window < KEY_EXPIRY && 0 <= delay
  }

  lemma KeyStands(s: State, id: string, gap: int, delay: int, window: int)
    requires Inv(s, gap) && Timely(s, gap, delay) && Params(window, gap, delay)
    requires id in s.members && Announced(s, id)
    ensures Visible(s) == s.fields && id in s.fields
  {
    assert FieldOk(s, id);
  }

  /** What evaluations in progress rely on: nobody comes back to life, and whoever announces
      for the first time does so from now on. */
  predicate Grew(s: State, t: State, o: string)
    requires o in s.members && o in t.members
  {
    && (t.members[o].live ==> s.members[o].live)
    && (if s.members[o].stamp.Some? then t.members[o].stamp.Some? && t.members[o].firstAt == s.members[o].firstAt
        else t.members[o].stamp.Some? ==> s.now <= t.members[o].firstAt)
  }

  ghost predicate Grows(s: State, t: State) {
    && 0 <= s.now <= t.now
    && (forall o :: o in s.members ==> o in t.members && Grew(s, t, o))
    && (forall o :: o in t.members && o !in s.members ==> t.members[o].stamp.None?)
  }

  lemma GrowsKeepsPhase(s: State, t: State, gap: int, p: Phase)
    requires Grows(s, t) && DecidingOk(s, gap, p) && PruningOk(s, p)
    ensures DecidingOk(t, gap, p) && PruningOk(t, p)
  {
    forall o | o in s.members ensures o in t.members && Grew(s, t, o) {
    }
    forall o | o in t.members && Announced(t, o) && p.Deciding? && o !in p.known
      ensures p.readAt <= t.members[o].firstAt
    {
      assert o in s.members && Grew(s, t, o);
    }
    forall o | o in t.members && Announced(t, o) && p.Pruning? && o !in p.known
      ensures p.readAt <= t.members[o].firstAt
    {
      assert o in s.members && Grew(s, t, o);
    }
  }

  lemma GrowsKeepsPrimary(s: State, t: State, id: string)
    requires Grows(s, t) && id in s.members && PrimaryOk(s, id)
    requires var m, n := s.members[id], t.members[id];
             n.primary == m.primary && n.heard == m.heard && n.heardAt == m.heardAt
    ensures PrimaryOk(t, id)
  {
    var m := t.members[id];
    forall o | o in t.members && Announced(t, o) && m.primary && o !in m.heard
      ensures m.heardAt <= t.members[o].firstAt
    {
      assert o in s.members && Grew(s, t, o);
    }
  }

  predicate SameEvaluation(m: Member, n: Member) {
    n.phase == m.phase && n.primary == m.primary && n.heard == m.heard && n.heardAt == m.heardAt
  }

  ghost predicate SameEvaluations(s: State, t: State, id: string) {
    forall o :: o in t.members && o != id ==> o in s.members && SameEvaluation(s.members[o], t.members[o])
  }

  /** Everybody but `id` keeps what it holds. */
  lemma OthersKeep(s: State, t: State, id: string, gap: int)
    requires Inv(s, gap) && Grows(s, t) && SameEvaluations(s, t, id)
    ensures forall o :: o in t.members && o != id ==>
      DecidingOk(t, gap, t.members[o].phase) && PruningOk(t, t.members[o].phase) && PrimaryOk(t, o)
  {
    forall o | o in t.members && o != id
      ensures DecidingOk(t, gap, t.members[o].phase) && PruningOk(t, t.members[o].phase) && PrimaryOk(t, o)
    {
      GrowsKeepsPhase(s, t, gap, s.members[o].phase);
      GrowsKeepsPrimary(s, t, o);
    }
  }

  lemma WaitKeepsInv(s: State, d: nat, gap: int, window: int)
    requires Inv(s, gap)
    ensures Inv(Apply(s, Wait(d), window), gap)
  {
    var t := Apply(s, Wait(d), window);
    forall id | id in t.members
      ensures FieldOk(t, id) && SelfOk(t, id) && PrimaryOk(t, id)
      ensures DecidingOk(t, gap, t.members[id].phase) && PruningOk(t, t.members[id].phase)
    {
      assert FieldOk(s, id) && SelfOk(s, id);
      GrowsKeepsPhase(s, t, gap, s.members[id].phase);
      GrowsKeepsPrimary(s, t, id);
    }
    forall id | id in t.fields ensures OriginOk(t, id) {
      assert OriginOk(s, id);
    }
  }

  lemma HashUntouched(s: State, id: string, m: Member, gap: int)
    requires Inv(s, gap)
    requires if id in s.members then m.stamp == s.members[id].stamp && m.firstAt == s.members[id].firstAt
                                     && (m.live ==> s.members[id].live)
             else m == JOINED
    requires var t := With(s, id, m); SelfOk(t, id)
    ensures var t := With(s, id, m);
            && Grows(s, t)
            && (forall o :: o in t.members ==> FieldOk(t, o) && SelfOk(t, o))
            && (forall o :: o in t.fields ==> OriginOk(t, o))
  {
    var t := With(s, id, m);
    forall o | o in t.members ensures FieldOk(t, o) && SelfOk(t, o) {
      if o in s.members {
        assert FieldOk(s, o) && SelfOk(s, o);
      }
    }
    forall o | o in t.fields ensures OriginOk(t, o) {
      assert OriginOk(s, o);
    }
  }

  /** A member joins, starts a tick, fails a round trip or stops: nothing reaches the hash. */
  lemma LocalStepKeepsInv(s: State, id: string, m: Member, gap: int)
    requires Inv(s, gap)
    requires id !in s.members ==> m == JOINED
    requires id in s.members ==>
      && m == s.members[id].(phase := m.phase, live := m.live, stoppedAt := m.stoppedAt)
      && (m.live ==> s.members[id].live)
      && (m.phase.Idle? || (m.phase.Announcing? && m.phase.stamp == s.now) || (m.phase.Reading? && m.stamp.Some?))
    ensures Inv(With(s, id, m), gap)
  {
    var t := With(s, id, m);
    HashUntouched(s, id, m, gap);
    OthersKeep(s, t, id, gap);
    if id in s.members {
      GrowsKeepsPrimary(s, t, id);
    }
  }

  lemma AnnouncesKeepsFields(s: State, id: string, gap: int, delay: int, window: int)
    requires Inv(s, gap) && Timely(s, gap, delay) && Params(window, gap, delay)
    requires LiveMember(s, id) && s.members[id].phase.Announcing?
    ensures var t := Announces(s, id, s.members[id].phase.stamp);
            && (forall o :: o in t.members ==> FieldOk(t, o) && SelfOk(t, o))
            && (forall o :: o in t.fields ==> OriginOk(t, o))
  {
    var t := Announces(s, id, s.members[id].phase.stamp);
    assert SelfOk(s, id);
    forall o | o in t.members ensures FieldOk(t, o) && SelfOk(t, o) {
      assert FieldOk(s, o) && SelfOk(s, o);
      if o != id && Announced(s, o) {
        KeyStands(s, o, gap, delay, window);
      }
    }
    forall o | o in t.fields ensures OriginOk(t, o) {
      assert o == id || (o in s.fields && OriginOk(s, o));
    }
  }

  lemma AnnounceKeepsInv(s: State, id: string, reply: Reply, gap: int, delay: int, window: int)
    requires Inv(s, gap) && Timely(s, gap, delay) && Params(window, gap, delay)
    requires Enabled(s, Announce(id, reply)) && reply != Lost(false)
    ensures Inv(Apply(s, Announce(id, reply), window), gap)
  {
    var stamp := s.members[id].phase.stamp;
    var t := Announces(s, id, stamp);
    AnnouncesKeepsFields(s, id, gap, delay, window);
    assert FieldOk(s, id);
    assert Grows(s, t);
    OthersKeep(s, t, id, gap);
    GrowsKeepsPrimary(s, t, id);
    GrowsKeepsPhase(s, t, gap, s.members[id].phase);
    LocalStepKeepsInv(t, id, t.members[id].(phase := if reply.Answered? then Reading(stamp) else Idle), gap);
  }

  lemma ReadHears(s: State, id: string, gap: int, delay: int, window: int)
    requires Inv(s, gap) && Timely(s, gap, delay) && Params(window, gap, delay)
    requires id in s.members && Announced(s, id)
    ensures DecidingOk(s, gap, Deciding(s.now, s.now, Visible(s), set o | o in s.members && Announced(s, o)))
  {
    var known := set o | o in s.members && Announced(s, o);
    KeyStands(s, id, gap, delay, window);
    forall o | o in known
      ensures o in s.fields && s.fields[o] >= s.now - gap && s.members[o].stamp.Some? && s.members[o].firstAt <= s.now
    {
      assert FieldOk(s, o);
    }
    forall o | o in s.fields ensures o in s.members && (s.members[o].live ==> o in known) {
      assert OriginOk(s, o);
    }
  }

  lemma ReadKeepsInv(s: State, id: string, gap: int, delay: int, window: int)
    requires Inv(s, gap) && Timely(s, gap, delay) && Params(window, gap, delay)
    requires Enabled(s, Read(id, true))
    ensures Inv(Apply(s, Read(id, true), window), gap)
  {
    var t := Apply(s, Read(id, true), window);
    var p := t.members[id].phase;
    assert SelfOk(s, id) && Announced(s, id);
    HashUntouched(s, id, t.members[id], gap);
    OthersKeep(s, t, id, gap);
    GrowsKeepsPrimary(s, t, id);
    ReadHears(s, id, gap, delay, window);
    assert DecidingOk(s, gap, p) && PruningOk(s, p);
    GrowsKeepsPhase(s, t, gap, p);
  }

  lemma DecideSplits(s: State, p: Phase, gap: int, delay: int, window: int)
    requires DecidingOk(s, gap, p) && p.Deciding? && s.now - p.readAt <= delay && Params(window, gap, delay)
    ensures var young, stale := YoungIds(p.all, s.now - window), OldIds(p.all, s.now - window);
            PruningOk(s, Pruning(p.begun, p.readAt, young, stale, p.known))
  {
    forall o | o in p.known ensures o in YoungIds(p.all, s.now - window) {
      assert p.all[o] >= p.readAt - gap;
    }
    forall o | o in OldIds(p.all, s.now - window) ensures o in s.members && !s.members[o].live {
      assert o in p.all && p.all[o] < s.now - window;
    }
  }

  lemma DecideKeepsInv(s: State, id: string, gap: int, delay: int, window: int)
    requires Inv(s, gap) && Timely(s, gap, delay) && Params(window, gap, delay)
    requires Enabled(s, Decide(id))
    ensures Inv(Apply(s, Decide(id), window), gap)
  {
    var t := Apply(s, Decide(id), window);
    var p, q := s.members[id].phase, t.members[id].phase;
    assert SelfOk(s, id) && DecidingOk(s, gap, p);
    HashUntouched(s, id, t.members[id], gap);
    OthersKeep(s, t, id, gap);
    GrowsKeepsPrimary(s, t, id);
    DecideSplits(s, p, gap, delay, window);
    assert DecidingOk(s, gap, q);
    GrowsKeepsPhase(s, t, gap, q);
  }

  lemma DeleteKeepsInv(s: State, id: string, gap: int, delay: int, window: int)
    requires Inv(s, gap) && Timely(s, gap, delay) && Params(window, gap, delay)
    requires LiveMember(s, id) && s.members[id].phase.Pruning?
    ensures Inv(Deletes(s, s.members[id].phase.stale), gap)
    ensures forall o :: o in s.members && Announced(s, o) ==>
      o in s.fields && o in Deletes(s, s.members[id].phase.stale).fields
  {
    var stale := s.members[id].phase.stale;
    var t := Deletes(s, stale);
    assert PruningOk(s, s.members[id].phase) && SelfOk(s, id);
    forall o | o in t.members ensures FieldOk(t, o) && SelfOk(t, o) {
      assert FieldOk(s, o) && SelfOk(s, o);
      if Announced(s, o) {
        KeyStands(s, o, gap, delay, window);
        assert o !in stale && o in t.fields;
      }
    }
    forall o | o in t.fields ensures OriginOk(t, o) {
      assert o in s.fields && OriginOk(s, o);
    }
    forall o | o in t.members
      ensures DecidingOk(t, gap, t.members[o].phase) && PruningOk(t, t.members[o].phase) && PrimaryOk(t, o)
    {
      GrowsKeepsPhase(s, t, gap, s.members[o].phase);
      GrowsKeepsPrimary(s, t, o);
    }
    forall o | o in s.members && Announced(s, o) ensures o in s.fields && o in t.fields {
      KeyStands(s, o, gap, delay, window);
      assert FieldOk(t, o);
    }
  }

  lemma ConcludeKeepsInv(s: State, id: string, gap: int)
    requires Inv(s, gap) && LiveMember(s, id) && s.members[id].phase.Pruning?
    ensures Inv(Concludes(s, id), gap)
  {
    var t := Concludes(s, id);
    assert PruningOk(s, s.members[id].phase);
    HashUntouched(s, id, t.members[id], gap);
    OthersKeep(s, t, id, gap);
    if s.members[id].phase.young == {} {
      GrowsKeepsPrimary(s, t, id);
    }
  }

  lemma PruneKeepsInv(s: State, id: string, ran: bool, gap: int, delay: int, window: int)
    requires Inv(s, gap) && Timely(s, gap, delay) && Params(window, gap, delay) && Enabled(s, Prune(id, ran))
    ensures Inv(Apply(s, Prune(id, ran), window), gap)
  {
    if ran && s.members[id].phase.stale != {} {
      DeleteKeepsInv(s, id, gap, delay, window);
      ConcludeKeepsInv(Deletes(s, s.members[id].phase.stale), id, gap);
    } else {
      ConcludeKeepsInv(s, id, gap);
    }
  }

  /** The steps that do not reach the hash. */
  predicate Local(a: Action) {
    match a
    case Wait(_) => true
    case Join(_) => true
    case Begin(_) => true
    case Announce(_, reply) => reply == Lost(false)
    case Read(_, ok) => !ok
    case Stop(_) => true
    case _ => false
  }

  lemma LocalActionKeepsInv(s: State, a: Action, gap: int, window: int)
    requires Inv(s, gap) && Enabled(s, a) && Local(a)
    ensures Inv(Apply(s, a, window), gap)
  {
    var t := Apply(s, a, window);
    match a
    case Wait(d) => WaitKeepsInv(s, d, gap, window);
    case Join(id) => LocalStepKeepsInv(s, id, t.members[id], gap);
    case Begin(id) => LocalStepKeepsInv(s, id, t.members[id], gap);
    case Announce(id, _) => LocalStepKeepsInv(s, id, t.members[id], gap);
    case Read(id, _) => LocalStepKeepsInv(s, id, t.members[id], gap);
    case Stop(id) => LocalStepKeepsInv(s, id, t.members[id], gap);
  }

  lemma ApplyKeepsInv(s: State, a: Action, gap: int, delay: int, window: int)
    requires Inv(s, gap) && Timely(s, gap, delay) && Params(window, gap, delay) && Enabled(s, a)
    ensures Inv(Apply(s, a, window), gap)
  {
    if Local(a) {
      LocalActionKeepsInv(s, a, gap, window);
    } else {
      match a
      case Announce(id, reply) => AnnounceKeepsInv(s, id, reply, gap, delay, window);
      case Read(id, ok) => ReadKeepsInv(s, id, gap, delay, window);
      case Decide(id) => DecideKeepsInv(s, id, gap, delay, window);
      case Prune(id, ran) => PruneKeepsInv(s, id, ran, gap, delay, window);
    }
  }

  lemma {:induction false} RunInvariant(run: seq<State>, window: int, gap: int, delay: int, i: nat)
    requires TimelyRun(run, window, gap, delay) && i < |run|
    ensures Inv(run[i], gap)
  {
    if i > 0 {
      RunInvariant(run, window, gap, delay, i - 1);
      var a :| Enabled(run[i - 1], a) && run[i] == Apply(run[i - 1], a, window);
      ApplyKeepsInv(run[i - 1], a, gap, delay, window);
    }
  }

  // ---- What holds of every timely run -----------------------------------------------

  /** Bounded dual primary. Two instances with uuids A < B that both live and believe they are
      primary: B's last successful evaluation read the hash before A's first announcement
      reached it. So the overlap started with A's first announcement and ends with B's next
      successful evaluation. */
  lemma DualPrimaryIsBounded(run: seq<State>, window: int, gap: int, delay: int, a: string, b: string)
    requires TimelyRun(run, window, gap, delay)
    requires var s := run[|run| - 1];
             Announced(s, a) && b in s.members && s.members[b].primary && a != b && LexLeq(a, b)
    ensures var s := run[|run| - 1];
            && a !in s.members[b].heard && s.members[b].heardAt <= s.members[a].firstAt
  {
    RunInvariant(run, window, gap, delay, |run| - 1);
    var s := run[|run| - 1];
    assert PrimaryOk(s, b);
    if a in s.members[b].heard {
      LexAntisymmetric(a, b);
    }
  }

  /** That next evaluation, if it read after A was announced, makes B secondary. */
  lemma NextEvaluationYields(run: seq<State>, window: int, gap: int, delay: int, a: string, b: string, ran: bool)
    requires TimelyRun(run, window, gap, delay)
    requires var s := run[|run| - 1];
             && Enabled(s, Prune(b, ran)) && a in s.members[b].phase.known && a != b && LexLeq(a, b)
    ensures !Apply(run[|run| - 1], Prune(b, ran), window).members[b].primary
  {
    RunInvariant(run, window, gap, delay, |run| - 1);
    var s := run[|run| - 1];
    var p := s.members[b].phase;
    assert PruningOk(s, p) && SelfOk(s, b);
    if IsLeast(b, p.young) {
      LexAntisymmetric(a, b);
    }
  }

  /** Pruning is safe: no HDEL removes the field of a live instance that has announced, in any
      interleaving of announces, reads and deletes. */
  lemma PruneSparesTheLiving(run: seq<State>, window: int, gap: int, delay: int, id: string, o: string)
    requires TimelyRun(run, window, gap, delay)
    requires var s := run[|run| - 1]; Enabled(s, Prune(id, true)) && o in s.members && Announced(s, o)
    ensures var s := run[|run| - 1];
            o in Visible(s) && o in Apply(s, Prune(id, true), window).fields
  {
    RunInvariant(run, window, gap, delay, |run| - 1);
    var s := run[|run| - 1];
    DeleteKeepsInv(s, id, gap, delay, window);
    KeyStands(s, o, gap, delay, window);
  }

  /** Every live instance finds itself fresh, so the "no fresh members" error is unreachable. */
  lemma AlwaysFindsItself(run: seq<State>, window: int, gap: int, delay: int, id: string)
    requires TimelyRun(run, window, gap, delay)
    requires LiveMember(run[|run| - 1], id) && run[|run| - 1].members[id].phase.Pruning?
    ensures id in run[|run| - 1].members[id].phase.young
  {
    RunInvariant(run, window, gap, delay, |run| - 1);
    assert SelfOk(run[|run| - 1], id) && PruningOk(run[|run| - 1], run[|run| - 1].members[id].phase);
  }

  // ---- A stopped instance disappears ------------------------------------------------

  function Begun(p: Phase, idle: int): int {
    match p
    case Idle => idle
    case Announcing(stamp) => stamp
    case Reading(begun) => begun
    case Deciding(begun, _, _, _) => begun
    case Pruning(begun, _, _, _, _) => begun
  }

  predicate StoppedBefore(s: State, a: string, p: Phase, window: int) {
    a in s.members && !s.members[a].live && s.members[a].stoppedAt + window < Begun(p, s.members[a].stoppedAt)
  }

  /** A tick that began more than one window after `a` stopped will prune it. */
  predicate WillPrune(s: State, a: string, p: Phase, window: int) {
    && Begun(p, s.now) <= s.now
    && (StoppedBefore(s, a, p, window) && a in Visible(s) ==>
        && (p.Deciding? ==> a in p.all && p.all[a] <= s.members[a].stoppedAt)
        && (p.Pruning? ==> a in p.stale))
  }

  predicate FieldIsStamp(s: State, a: string) {
    && (a in s.fields ==> a in s.members && s.members[a].stamp == Some(s.fields[a]))
    && (a in s.members && s.members[a].stamp.Some? ==>
          s.members[a].stamp.value <= if s.members[a].live then s.now else s.members[a].stoppedAt)
  }

  ghost predicate StopInv(s: State, a: string, window: int) {
    FieldIsStamp(s, a) && forall o :: o in s.members ==> WillPrune(s, a, s.members[o].phase, window)
  }

  lemma ApplyKeepsStamp(s: State, a: string, act: Action, window: nat)
    requires StopInv(s, a, window) && Enabled(s, act)
    ensures FieldIsStamp(Apply(s, act, window), a)
  {
    assert a in s.members ==> WillPrune(s, a, s.members[a].phase, window);
  }

  lemma ApplyKeepsStopInv(s: State, a: string, act: Action, window: nat)
    requires StopInv(s, a, window) && Enabled(s, act)
    ensures StopInv(Apply(s, act, window), a, window)
  {
    var t := Apply(s, act, window);
    ApplyKeepsStamp(s, a, act, window);
    forall o | o in t.members ensures WillPrune(t, a, t.members[o].phase, window) {
      ApplyKeepsPruning(s, a, act, window, o);
    }
  }

  lemma ApplyKeepsPruning(s: State, a: string, act: Action, window: nat, o: string)
    requires StopInv(s, a, window) && Enabled(s, act) && o in Apply(s, act, window).members
    ensures var t := Apply(s, act, window); WillPrune(t, a, t.members[o].phase, window)
  {
    if o in s.members {
      assert WillPrune(s, a, s.members[o].phase, window);
    }
  }

  lemma {:induction false} RunKeepsStopInv(run: seq<State>, window: nat, a: string, i: nat)
    requires IsRun(run, window) && i < |run|
    ensures StopInv(run[i], a, window)
  {
    if i > 0 {
      RunKeepsStopInv(run, window, a, i - 1);
      assert Next(run[i - 1], run[i], window);
      var act: Action :| Enabled(run[i - 1], act) && run[i] == Apply(run[i - 1], act, window);
      ApplyKeepsStopInv(run[i - 1], a, act, window);
    }
  }

  /** Once an instance has stopped, its field is gone after any tick of another one that began
      more than one fresh window later and whose HDEL ran. No timing assumption is needed. */
  lemma StoppedFieldIsPruned(run: seq<State>, window: nat, a: string, id: string)
    requires IsRun(run, window)
    requires var s := run[|run| - 1];
             Enabled(s, Prune(id, true)) && StoppedBefore(s, a, s.members[id].phase, window)
    ensures a !in Visible(Apply(run[|run| - 1], Prune(id, true), window))
  {
    RunKeepsStopInv(run, window, a, |run| - 1);
    var s := run[|run| - 1];
    assert WillPrune(s, a, s.members[id].phase, window);
  }

  // ---- Why the assumptions are there ------------------------------------------------

  lemma Extend(run: seq<State>, a: Action, window: int) returns (longer: seq<State>)
    requires IsRun(run, window) && Enabled(run[|run| - 1], a)
    ensures run <= longer && |longer| == |run| + 1
    ensures IsRun(longer, window) && longer[|longer| - 1] == Apply(run[|run| - 1], a, window)
  {
    longer := run + [Apply(run[|run| - 1], a, window)];
    assert Next(run[|run| - 1], longer[|longer| - 1], window);
  }

  lemma ExtendTimely(run: seq<State>, a: Action, window: int, gap: int, delay: int) returns (longer: seq<State>)
    requires TimelyRun(run, window, gap, delay) && Enabled(run[|run| - 1], a)
    requires Timely(Apply(run[|run| - 1], a, window), gap, delay)
    ensures run <= longer && TimelyRun(longer, window, gap, delay)
    ensures longer[|longer| - 1] == Apply(run[|run| - 1], a, window)
  {
    longer := Extend(run, a, window);
    forall i | 0 <= i < |longer| ensures Timely(longer[i], gap, delay) {
      assert i < |run| ==> longer[i] == run[i];
    }
  }

  ghost predicate Quiet(s: State) {
    forall o :: o in s.members ==> s.members[o].phase.Idle?
  }

  /** The start of a tick: announced, and about to read. */
  lemma HalfTick(run: seq<State>, id: string, window: int, gap: int, delay: int) returns (longer: seq<State>)
    requires TimelyRun(run, window, gap, delay) && 0 <= gap
    requires Quiet(run[|run| - 1]) && LiveMember(run[|run| - 1], id)
    ensures run <= longer && TimelyRun(longer, window, gap, delay)
    ensures var s := run[|run| - 1];
            var b := Announces(s, id, s.now);
            longer[|longer| - 1] == With(b, id, b.members[id].(phase := Reading(s.now)))
  {
    var s := run[|run| - 1];
    var b := Announces(s, id, s.now);
    longer := ExtendTimely(run, Begin(id), window, gap, delay);
    longer := ExtendTimely(longer, Announce(id, Answered), window, gap, delay);
    assert longer[|longer| - 1].members == With(b, id, b.members[id].(phase := Reading(s.now))).members;
  }

  /** A tick whose announcement reaches the hash and whose read fails: the role stays. */
  lemma FailedTick(run: seq<State>, id: string, window: int, gap: int, delay: int) returns (longer: seq<State>)
    requires TimelyRun(run, window, gap, delay) && 0 <= gap
    requires Quiet(run[|run| - 1]) && LiveMember(run[|run| - 1], id)
    ensures run <= longer && TimelyRun(longer, window, gap, delay)
    ensures longer[|longer| - 1] == Announces(run[|run| - 1], id, run[|run| - 1].now)
  {
    longer := HalfTick(run, id, window, gap, delay);
    longer := ExtendTimely(longer, Read(id, false), window, gap, delay);
    assert longer[|longer| - 1].members == Announces(run[|run| - 1], id, run[|run| - 1].now).members;
  }

  /** The least part of a tick that reads and decides, with nothing to prune. */
  lemma ReadAllFresh(run: seq<State>, id: string, window: int, gap: int, delay: int)
    returns (longer: seq<State>, heard: set<string>)
    requires TimelyRun(run, window, gap, delay) && 0 <= gap
    requires ReadyToFinish(run[|run| - 1], id)
    ensures run <= longer && TimelyRun(longer, window, gap, delay)
    ensures var s := run[|run| - 1];
            longer[|longer| - 1] ==
              With(s, id, s.members[id].(phase := Pruning(s.members[id].phase.begun, s.now, s.fields.Keys, {}, heard)))
  {
    var s := run[|run| - 1];
    longer := ExtendTimely(run, Read(id, true), window, gap, delay);
    heard := longer[|longer| - 1].members[id].phase.known;
    assert YoungIds(s.fields, s.now - window) == s.fields.Keys && OldIds(s.fields, s.now - window) == {};
    longer := ExtendTimely(longer, Decide(id), window, gap, delay);
    assert longer[|longer| - 1].members == With(s, id, longer[|longer| - 1].members[id]).members;
  }

  ghost predicate ReadyToFinish(s: State, id: string) {
    && LiveMember(s, id) && s.members[id].phase.Reading? && s.members[id].stamp.Some?
    && (forall o :: o in s.members && o != id ==> s.members[o].phase.Idle?)
    && Visible(s) == s.fields && id in s.fields
    && forall o :: o in s.fields ==> s.now <= s.fields[o]
  }

  /** From the read to the new role, with nothing to prune and no time passing. */
  lemma FinishTick(run: seq<State>, id: string, window: int, gap: int, delay: int)
    returns (longer: seq<State>, heard: set<string>)
    requires TimelyRun(run, window, gap, delay) && 0 <= gap
    requires ReadyToFinish(run[|run| - 1], id)
    ensures run <= longer && TimelyRun(longer, window, gap, delay)
    ensures var s := run[|run| - 1];
            longer[|longer| - 1] == With(s, id, Settled(s.members[id], IsLeast(id, s.fields.Keys), heard, s.now))
  {
    var s := run[|run| - 1];
    longer, heard := ReadAllFresh(run, id, window, gap, delay);
    longer := ExtendTimely(longer, Prune(id, true), window, gap, delay);
    var m := Settled(s.members[id], IsLeast(id, s.fields.Keys), heard, s.now);
    assert longer[|longer| - 1].members == With(s, id, m).members;
  }

  ghost function Settled(m: Member, primary: bool, heard: set<string>, at: int): Member {
    m.(phase := Idle, primary := primary, heard := heard, heardAt := at)
  }

  /** A whole successful tick with nothing to prune. */
  lemma WholeTick(run: seq<State>, id: string, window: int, gap: int, delay: int) returns (longer: seq<State>)
    requires TimelyRun(run, window, gap, delay) && 0 <= gap
    requires var s := run[|run| - 1];
             && Quiet(s) && LiveMember(s, id)
             && forall o :: o in s.fields ==> s.now <= s.fields[o]
    ensures run <= longer && TimelyRun(longer, window, gap, delay)
    ensures var b, t := Announces(run[|run| - 1], id, run[|run| - 1].now), longer[|longer| - 1];
            exists heard :: t == With(b, id, Settled(b.members[id], IsLeast(id, b.fields.Keys), heard, b.now))
  {
    var s := run[|run| - 1];
    longer := HalfTick(run, id, window, gap, delay);
    var h := longer[|longer| - 1];
    var heard: set<string>;
    longer, heard := FinishTick(longer, id, window, gap, delay);
    var b := Announces(s, id, s.now);
    SettledFromReading(b, id, Reading(s.now), IsLeast(id, b.fields.Keys), heard, s.now);
  }

  lemma SettledFromReading(b: State, id: string, p: Phase, primary: bool, heard: set<string>, at: int)
    requires id in b.members
    ensures var h := With(b, id, b.members[id].(phase := p));
            With(h, id, Settled(h.members[id], primary, heard, at))
            == With(b, id, Settled(b.members[id], primary, heard, at))
  {
    var h := With(b, id, b.members[id].(phase := p));
    assert With(h, id, Settled(h.members[id], primary, heard, at)).members ==
           With(b, id, Settled(b.members[id], primary, heard, at)).members;
  }

  ghost predicate BothPrimary(s: State, a: string, b: string) {
    && Quiet(s) && s.members.Keys == {a, b} && a != b && LexLeq(a, b)
    && s.members[a].live && s.members[b].live && s.members[a].primary && s.members[b].primary
    && s.members[a].stamp == s.members[b].stamp == Some(s.now)
  }

  /** A newcomer joins and ticks. */
  lemma JoinAndTick(run: seq<State>, id: string, window: int, gap: int, delay: int) returns (longer: seq<State>)
    requires TimelyRun(run, window, gap, delay) && 0 <= gap
    requires var s := run[|run| - 1];
             && Quiet(s) && id !in s.members && Visible(s) == s.fields
             && forall o :: o in s.fields ==> s.now <= s.fields[o]
    ensures run <= longer && TimelyRun(longer, window, gap, delay)
    ensures var s, t := run[|run| - 1], longer[|longer| - 1];
            && Quiet(t) && t.now == s.now && Visible(t) == t.fields == s.fields[id := s.now]
            && id in t.members
            && var m := t.members[id];
            && t.members == s.members[id := m] && m.live && m.stamp == Some(s.now) && m.firstAt == s.now
            && m.primary == IsLeast(id, s.fields.Keys + {id})
  {
    var s := run[|run| - 1];
    longer := ExtendTimely(run, Join(id), window, gap, delay);
    longer := WholeTick(longer, id, window, gap, delay);
    var t := longer[|longer| - 1];
    assert s.fields[id := s.now].Keys == s.fields.Keys + {id};
    assert t.members == s.members[id := t.members[id]];
  }

  lemma BothBecomePrimary(window: int, gap: int, delay: int) returns (run: seq<State>)
    requires Params(window, gap, delay) && 0 < gap
    ensures TimelyRun(run, window, gap, delay)
    ensures var s := run[|run| - 1];
            BothPrimary(s, "a", "b") && s.members["a"].firstAt == 0 && s.now == 0
  {
    run := [START];
    run := JoinAndTick(run, "b", window, gap, delay);
    assert run[|run| - 1].members["b"].primary by {
      assert LexLeq("b", "b") && {} + {"b"} == {"b"};
    }
    run := JoinAndTick(run, "a", window, gap, delay);
    assert run[|run| - 1].members["a"].primary by {
      assert LexLeq("a", "a") && LexLeq("a", "b");
    }
    assert LexLeq("a", "b");
  }

  lemma OneMoreRound(run: seq<State>, a: string, b: string, window: int, gap: int, delay: int)
    returns (longer: seq<State>)
    requires TimelyRun(run, window, gap, delay) && 0 < gap && BothPrimary(run[|run| - 1], a, b)
    ensures run <= longer && TimelyRun(longer, window, gap, delay) && BothPrimary(longer[|longer| - 1], a, b)
    ensures longer[|longer| - 1].now == run[|run| - 1].now + gap
    ensures longer[|longer| - 1].members[a].firstAt == run[|run| - 1].members[a].firstAt
  {
    longer := ExtendTimely(run, Wait(gap), window, gap, delay);
    longer := FailedTick(longer, a, window, gap, delay);
    longer := FailedTick(longer, b, window, gap, delay);
  }

  /** A failed tick keeps the role, so success must be assumed for the overlap to end: for
      every `rounds` there is a timely run in which both instances announce on time, B's reads
      fail, and both are still primary `rounds * gap` after A's first announcement. */
  lemma {:induction false} FailedReadsKeepBothPrimary(rounds: nat, window: int, gap: int, delay: int)
    returns (run: seq<State>)
    requires Params(window, gap, delay) && 0 < gap
    ensures TimelyRun(run, window, gap, delay)
    ensures var s := run[|run| - 1];
            BothPrimary(s, "a", "b") && s.members["a"].firstAt == 0 && s.now == rounds * gap
  {
    if rounds == 0 {
      run := BothBecomePrimary(window, gap, delay);
    } else {
      run := FailedReadsKeepBothPrimary(rounds - 1, window, gap, delay);
      run := OneMoreRound(run, "a", "b", window, gap, delay);
      assert rounds * gap == (rounds - 1) * gap + gap;
    }
  }

  /** A newcomer joins and its announcement reaches the hash. */
  lemma JoinAndAnnounce(run: seq<State>, id: string, window: int) returns (longer: seq<State>)
    requires IsRun(run, window) && id !in run[|run| - 1].members
    ensures IsRun(longer, window)
    ensures var s := run[|run| - 1];
            longer[|longer| - 1] == State(s.now, Visible(s)[id := s.now], Some(s.now + KEY_EXPIRY),
              s.members[id := Member(true, Reading(s.now), Some(s.now), s.now, 0, false, {}, 0)])
  {
    var s := run[|run| - 1];
    longer := Extend(run, Join(id), window);
    longer := Extend(longer, Begin(id), window);
    longer := Extend(longer, Announce(id, Answered), window);
    assert longer[|longer| - 1].members ==
           s.members[id := Member(true, Reading(s.now), Some(s.now), s.now, 0, false, {}, 0)];
  }

  /** From the read to the decision, in no time. */
  lemma ReadAndDecide(run: seq<State>, id: string, all: map<string, int>, window: int) returns (longer: seq<State>)
    requires IsRun(run, window)
    requires var s := run[|run| - 1]; LiveMember(s, id) && s.members[id].phase.Reading? && Visible(s) == all
    ensures IsRun(longer, window)
    ensures var s := run[|run| - 1];
            var m := s.members[id];
            longer[|longer| - 1] == With(s, id, m.(phase := Pruning(m.phase.begun, s.now,
              YoungIds(all, s.now - window), OldIds(all, s.now - window), set o | o in s.members && Announced(s, o))))
  {
    var s := run[|run| - 1];
    longer := Extend(run, Read(id, true), window);
    longer := Extend(longer, Decide(id), window);
    assert longer[|longer| - 1].members == With(s, id, longer[|longer| - 1].members[id]).members;
  }

  /** "c" joins when "a" has not announced for longer than the window, and judges it stale. */
  lemma NewcomerJudges(run: seq<State>, window: nat) returns (longer: seq<State>)
    requires IsRun(run, window)
    requires var s := run[|run| - 1];
             && s.now == window + 1 && s.fields == map["a" := 0] && s.expireAt == Some(KEY_EXPIRY) && s.now < KEY_EXPIRY
             && s.members.Keys == {"a"} && s.members["a"].live && s.members["a"].stamp.Some?
    ensures IsRun(longer, window)
    ensures var s, at := run[|run| - 1], window + 1;
            longer[|longer| - 1] == State(at, map["a" := 0, "c" := at], Some(at + KEY_EXPIRY),
              s.members["c" := Member(true, Pruning(at, at, {"c"}, {"a"}, {"a", "c"}), Some(at), at, 0, false, {}, 0)])
  {
    var s, at := run[|run| - 1], window + 1;
    longer := JoinAndAnnounce(run, "c", window);
    var t := longer[|longer| - 1];
    var all := map["a" := 0, "c" := at];
    assert t.fields == all == Visible(t);
    assert YoungIds(all, 1) == {"c"} && OldIds(all, 1) == {"a"};
    assert (set o | o in t.members && Announced(t, o)) == {"a", "c"};
    longer := ReadAndDecide(longer, "c", all, window);
  }

  /** "a" announces and then pauses for longer than the window; "c" joins, reads, and holds a
      stale list that names "a". */
  lemma PausedIsJudgedStale(window: nat) returns (run: seq<State>)
    requires window + 1 < KEY_EXPIRY
    ensures IsRun(run, window)
    ensures var s, at := run[|run| - 1], window + 1;
            && s.now == at && s.fields == map["a" := 0, "c" := at] && s.expireAt == Some(at + KEY_EXPIRY)
            && s.members.Keys == {"a", "c"}
            && s.members["a"] == Member(true, Reading(0), Some(0), 0, 0, false, {}, 0)
            && s.members["c"].live && s.members["c"].phase.Pruning? && s.members["c"].phase.stale == {"a"}
  {
    run := [START];
    run := JoinAndAnnounce(run, "a", window);
    assert run[|run| - 1].fields == map["a" := 0];
    run := Extend(run, Wait(window + 1), window);
    run := NewcomerJudges(run, window);
  }

  /** Without the timing assumption pruning is not safe: "a" resumes and announces, and the
      delete decided from the old read then removes that fresh field. */
  lemma PausedInstanceLosesFreshField(window: nat) returns (run: seq<State>)
    requires window + 1 < KEY_EXPIRY
    ensures IsRun(run, window)
    ensures var s, at := run[|run| - 1], window + 1;
            && s.now == at && s.fields == map["c" := at] && s.expireAt == Some(at + KEY_EXPIRY)
            && LiveMember(s, "a") && s.members["a"].phase == Reading(at) && s.members["a"].stamp == Some(at)
  {
    run := PausedIsJudgedStale(window);
    run := Extend(run, Read("a", false), window);
    run := Extend(run, Begin("a"), window);
    run := Extend(run, Announce("a", Answered), window);
    var s := run[|run| - 1];
    var at := window + 1;
    assert s.fields == map["a" := at, "c" := at] == Visible(s);
    assert s.fields - {"a"} == map["c" := at] && "c" in s.fields - {"a"};
    run := Extend(run, Prune("c", true), window);
  }

  /** And the guarded error is then reachable: a live instance reads and finds nobody fresh,
      not even itself. */
  lemma NobodyFreshIsReachable(window: nat) returns (run: seq<State>)
    requires 2 * (window + 1) < KEY_EXPIRY
    ensures IsRun(run, window)
    ensures var s := run[|run| - 1];
            LiveMember(s, "a") && s.members["a"].phase.Pruning? && s.members["a"].phase.young == {}
  {
    run := PausedInstanceLosesFreshField(window);
    run := Extend(run, Wait(window + 1), window);
    var all := map["c" := window + 1];
    assert Visible(run[|run| - 1]) == all;
    run := Extend(run, Read("a", true), window);
    assert YoungIds(all, window + 2) == {};
    run := Extend(run, Decide("a"), window);
  }

  lemma LoneTick(window: nat) returns (run: seq<State>)
    ensures IsRun(run, window)
    ensures run[|run| - 1] == State(0, map["a" := 0], Some(KEY_EXPIRY),
                                    map["a" := Member(true, Idle, Some(0), 0, 0, true, {"a"}, 0)])
  {
    run := [START];
    run := JoinAndAnnounce(run, "a", window);
    var all := map["a" := 0];
    var s := run[|run| - 1];
    assert s.fields == all == Visible(s);
    assert YoungIds(all, 0 - window as int) == {"a"} && OldIds(all, 0 - window as int) == {};
    assert (set o | o in s.members && Announced(s, o)) == {"a"};
    run := ReadAndDecide(run, "a", all, window);
    run := Extend(run, Prune("a", true), window);
    assert LexLeq("a", "a");
  }

  /** Without the timing assumption the bound on the overlap fails too: a primary that does
      not announce for longer than the window keeps its role, and an instance that did hear
      it, with a larger uuid, becomes primary as well. */
  lemma SilentPrimaryKeepsRole(window: nat) returns (run: seq<State>)
    requires window + 1 < KEY_EXPIRY
    ensures IsRun(run, window)
    ensures var s := run[|run| - 1];
            && LiveMember(s, "a") && LiveMember(s, "c") && LexLeq("a", "c")
            && s.members["a"].primary && s.members["c"].primary && "a" in s.members["c"].heard
  {
    run := LoneTick(window);
    run := Extend(run, Wait(window + 1), window);
    run := NewcomerJudges(run, window);
    run := Extend(run, Prune("c", false), window);
    assert LexLeq("c", "c") && LexLeq("a", "c");
  }
}
