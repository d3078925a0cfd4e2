/** Brokers relaying to each other. Every node runs `process` with its own dedup keyspace;
    every publish and every report reaches any finite list of nodes, in any number of copies,
    delivered in any order. Redis answers, keys do not expire, and every message keeps an id:
    it has one, and if any node strips content it still has one afterwards. Then every run
    comes to rest: the anti-loop property. Each of the three is needed. */
module Network {
  import opened Json
  import opened Relay

  datatype Copy = Copy(node: nat, msg: Msg)

  /** `seen[n]` is node n's keyspace; `strips` says whether any node may be set to strip
      content. `dataIds` and `allIds` bound the ids that copies on data topics, and all copies,
      can carry; they are bookkeeping. */
  datatype State = State(copies: seq<Copy>, seen: seq<set<string>>, dataIds: set<string>, allIds: set<string>,
                         strips: bool)

  /** The ids a message can be keyed on here or, where content is stripped, further on. */
  function Ids(m: Msg, strips: bool): set<string> {
    {ExtractId(m.payload)} + if strips then {ExtractId(Strip(m.payload))} else {}
  }

  /** What a sender can check of a message: it has an id, and the spelling that counts once
      content is stripped is one too. */
  predicate KeepsId(m: Msg, strips: bool) {
    && ExtractId(m.payload) != ""
    && (strips && HasContent(m.payload) ==> IdAfterStripping(m.payload.members) != "")
  }

  lemma KeepsIdEverywhere(m: Msg, strips: bool)
    ensures KeepsId(m, strips) <==> "" !in Ids(m, strips)
  {
    StripKeepsIdExactly(m.payload);
  }

  /** One copy processed: which one, under which options and verdicts, and where the resulting
      publish and reports were delivered. */
  datatype Step = Step(index: nat, options: Policy, verdicts: Verdicts, centre: string,
                       onward: seq<nat>, reports: seq<Copy>)

  predicate InRange(s: State, p: Step) { p.index < |s.copies| && s.copies[p.index].node < |s.seen| }

  /** What an answering Redis says. */
  function ReplyAt(s: State, p: Step): DedupReply
    requires InRange(s, p)
  {
    var c := s.copies[p.index];
    if ExtractId(c.msg.payload) in s.seen[c.node] then Seen else NotSeen
  }

  predicate Published(s: State, p: Step)
    requires InRange(s, p)
  {
    Publishes(p.options, p.verdicts, s.copies[p.index].msg, p.centre, ReplyAt(s, p))
  }

  /** A report has an id of its own and no content to strip. */
  predicate IsReportOf(r: Copy, m: Msg, p: Step, s: State) {
    && r.node < |s.seen| && KeepsId(r.msg, s.strips)
    && exists i :: 0 <= i < |Reports(p.options, p.verdicts, m, p.centre)|
         && r.msg.topic == Reports(p.options, p.verdicts, m, p.centre)[i].topic
  }

  predicate PossibleUnder(s: State, p: Step, reply: DedupReply) {
    && InRange(s, p) && (p.options.deleteContent ==> s.strips)
    && (p.onward != [] ==> Publishes(p.options, p.verdicts, s.copies[p.index].msg, p.centre, reply))
    && (forall i :: 0 <= i < |p.onward| ==> p.onward[i] < |s.seen|)
    && (forall i :: 0 <= i < |p.reports| ==> IsReportOf(p.reports[i], s.copies[p.index].msg, p, s))
  }

  predicate Possible(s: State, p: Step) { InRange(s, p) && PossibleUnder(s, p, ReplyAt(s, p)) }

  function Onward(m: Msg, nodes: seq<nat>): seq<Copy> {
    seq(|nodes|, i requires 0 <= i < |nodes| => Copy(nodes[i], m))
  }

  function IdsOf(copies: seq<Copy>, strips: bool): set<string> {
    if copies == [] then {} else IdsOf(copies[..|copies| - 1], strips) + Ids(copies[|copies| - 1].msg, strips)
  }

  /** `records`: the SET NX takes effect at the node. */
  function AfterUnder(s: State, p: Step, records: bool): State
    requires InRange(s, p)
  {
    var c := s.copies[p.index];
    var id := ExtractId(c.msg.payload);
    State(s.copies[..p.index] + s.copies[p.index + 1..] + Onward(Outgoing(p.options, c.msg), p.onward) + p.reports,
          if records then s.seen[c.node := s.seen[c.node] + {id}] else s.seen,
          s.dataIds, s.allIds + IdsOf(p.reports, s.strips), s.strips)
  }

  function After(s: State, p: Step): State
    requires Possible(s, p)
  {
    AfterUnder(s, p, Consults(p.options, p.verdicts, s.copies[p.index].msg, p.centre))
  }

  ghost predicate Next(s: State, t: State) { exists p :: Possible(s, p) && t == After(s, p) }

  /** Copies carry ids, and only ids the bookkeeping knows. */
  predicate CopyOk(s: State, c: Copy) {
    && c.node < |s.seen| && "" !in Ids(c.msg, s.strips) && Ids(c.msg, s.strips) <= s.allIds
    && (!IsMonitor(c.msg.topic) ==> Ids(c.msg, s.strips) <= s.dataIds)
  }

  ghost predicate Ok(s: State) { AllOk(s, s.copies) }

  // ---- The measure ------------------------------------------------------------------

  /** Pairs of a node and an id it has not recorded yet. */
  function Unrecorded(ids: set<string>, seen: seq<set<string>>): nat {
    if seen == [] then 0 else Unrecorded(ids, seen[..|seen| - 1]) + |ids - seen[|seen| - 1]|
  }

  function Flags(copies: seq<Copy>): seq<bool> {
    seq(|copies|, i requires 0 <= i < |copies| => !IsMonitor(copies[i].msg.topic))
  }

  function Count(flags: seq<bool>): nat {
    if flags == [] then 0 else Count(flags[..|flags| - 1]) + if flags[|flags| - 1] then 1 else 0
  }

  /** The copies on data topics. */
  function Data(copies: seq<Copy>): nat { Count(Flags(copies)) }

  lemma {:induction false} UnrecordedStep(ids: set<string>, seen: seq<set<string>>, n: nat, id: string)
    requires n < |seen|
    ensures var after := seen[n := seen[n] + {id}];
            && Unrecorded(ids, after) <= Unrecorded(ids, seen)
            && (id in ids && id !in seen[n] ==> Unrecorded(ids, after) < Unrecorded(ids, seen))
  {
    var after := seen[n := seen[n] + {id}];
    var last := |seen| - 1;
    if n == last {
      assert after[..last] == seen[..last];
      var missing := ids - seen[n];
      if id in missing {
        assert ids - after[n] == missing - {id};
      } else {
        assert ids - after[n] == missing;
      }
    } else {
      assert after[..last] == seen[..last][n := seen[n] + {id}];
      UnrecordedStep(ids, seen[..last], n, id);
    }
  }

  lemma {:induction false} CountConcat(a: seq<bool>, b: seq<bool>)
    ensures Count(a + b) == Count(a) + Count(b)
  {
    if b == [] {
      assert a + b == a;
    } else {
      assert (a + b)[..|a + b| - 1] == a + b[..|b| - 1];
      CountConcat(a, b[..|b| - 1]);
    }
  }

  lemma {:induction false} CountNone(flags: seq<bool>)
    requires true !in flags
    ensures Count(flags) == 0
  {
    if flags != [] {
      CountNone(flags[..|flags| - 1]);
    }
  }

  lemma Reassemble(flags: seq<bool>, i: nat)
    requires i < |flags|
    ensures flags == (flags[..i] + [flags[i]]) + flags[i + 1..]
  {
  }

  lemma CountSnoc(flags: seq<bool>, flag: bool)
    ensures Count(flags + [flag]) == Count(flags) + if flag then 1 else 0
  {
    assert (flags + [flag])[..|flags|] == flags;
  }

  lemma CountWithout(flags: seq<bool>, i: nat)
    requires i < |flags|
    ensures Count(flags) == Count(flags[..i] + flags[i + 1..]) + if flags[i] then 1 else 0
  {
    var before, after := flags[..i], flags[i + 1..];
    Reassemble(flags, i);
    CountConcat(before + [flags[i]], after);
    CountSnoc(before, flags[i]);
    CountConcat(before, after);
  }

  lemma DataConcat(a: seq<Copy>, b: seq<Copy>)
    ensures Data(a + b) == Data(a) + Data(b)
  {
    assert Flags(a + b) == Flags(a) + Flags(b);
    CountConcat(Flags(a), Flags(b));
  }

  lemma AllMonitor(b: seq<Copy>)
    requires forall i :: 0 <= i < |b| ==> IsMonitor(b[i].msg.topic)
    ensures Data(b) == 0
  {
    CountNone(Flags(b));
  }

  lemma DataWithout(copies: seq<Copy>, i: nat)
    requires i < |copies|
    ensures Data(copies) == Data(copies[..i] + copies[i + 1..]) + if IsMonitor(copies[i].msg.topic) then 0 else 1
  {
    var flags := Flags(copies);
    assert Flags(copies[..i] + copies[i + 1..]) == flags[..i] + flags[i + 1..];
    CountWithout(flags, i);
  }

  lemma {:induction false} IdsOfContains(copies: seq<Copy>, strips: bool, i: nat)
    requires i < |copies|
    ensures Ids(copies[i].msg, strips) <= IdsOf(copies, strips)
  {
    if i < |copies| - 1 {
      IdsOfContains(copies[..|copies| - 1], strips, i);
    }
  }

  lemma ReportIsMonitor(r: Copy, m: Msg, p: Step, s: State)
    requires IsReportOf(r, m, p, s)
    ensures IsMonitor(r.msg.topic) && !IsMonitor(m.topic)
  {
    ReportsAreNotReportedOn(m.topic, p.centre);
  }

  lemma OutgoingKeepsIds(o: Policy, m: Msg, strips: bool)
    requires o.deleteContent ==> strips
    ensures Ids(Outgoing(o, m), strips) <= Ids(m, strips) && Outgoing(o, m).topic == m.topic
  {
    StripIsExact(m.payload);
  }

  ghost predicate AllOk(s: State, copies: seq<Copy>) { forall i :: 0 <= i < |copies| ==> CopyOk(s, copies[i]) }

  lemma AllOkConcat(s: State, a: seq<Copy>, b: seq<Copy>)
    requires AllOk(s, a) && AllOk(s, b)
    ensures AllOk(s, a + b)
  {
  }

  lemma KeptAreOk(s: State, p: Step)
    requires Ok(s) && Possible(s, p)
    ensures AllOk(After(s, p), s.copies)
  {
    forall i | 0 <= i < |s.copies| ensures CopyOk(After(s, p), s.copies[i]) {
      assert CopyOk(s, s.copies[i]);
    }
  }

  lemma OnwardAreOk(s: State, p: Step)
    requires Ok(s) && Possible(s, p)
    ensures AllOk(After(s, p), Onward(Outgoing(p.options, s.copies[p.index].msg), p.onward))
  {
    assert CopyOk(s, s.copies[p.index]);
    OutgoingKeepsIds(p.options, s.copies[p.index].msg, s.strips);
  }

  lemma ReportsAreOk(s: State, p: Step)
    requires Ok(s) && Possible(s, p)
    ensures AllOk(After(s, p), p.reports)
  {
    forall i | 0 <= i < |p.reports| ensures CopyOk(After(s, p), p.reports[i]) {
      IdsOfContains(p.reports, s.strips, i);
      KeepsIdEverywhere(p.reports[i].msg, s.strips);
      assert IsReportOf(p.reports[i], s.copies[p.index].msg, p, s);
      ReportIsMonitor(p.reports[i], s.copies[p.index].msg, p, s);
    }
  }

  lemma AfterIsOk(s: State, p: Step)
    requires Ok(s) && Possible(s, p)
    ensures Ok(After(s, p)) && |After(s, p).seen| == |s.seen|
  {
    var t := After(s, p);
    var onward := Onward(Outgoing(p.options, s.copies[p.index].msg), p.onward);
    KeptAreOk(s, p);
    OnwardAreOk(s, p);
    ReportsAreOk(s, p);
    AllOkConcat(t, s.copies[..p.index], s.copies[p.index + 1..]);
    AllOkConcat(t, s.copies[..p.index] + s.copies[p.index + 1..], onward);
    AllOkConcat(t, s.copies[..p.index] + s.copies[p.index + 1..] + onward, p.reports);
  }

  /** How the four counts move, compared in this order. */
  ghost predicate Smaller(t: State, s: State) {
    var d, d' := Unrecorded(s.dataIds, s.seen), Unrecorded(t.dataIds, t.seen);
    var a, a' := Unrecorded(s.allIds, s.seen), Unrecorded(t.allIds, t.seen);
    || d' < d
    || (d' == d && Data(t.copies) < Data(s.copies))
    || (d' == d && Data(t.copies) == Data(s.copies) && a' < a)
    || (d' == d && Data(t.copies) == Data(s.copies) && a' == a && |t.copies| < |s.copies|)
  }

  /** A copy that is published, and so had not been seen at its node. */
  lemma PublishingStep(s: State, p: Step)
    requires Ok(s) && Possible(s, p) && Published(s, p)
    ensures Smaller(After(s, p), s)
  {
    var c := s.copies[p.index];
    var id := ExtractId(c.msg.payload);
    var t := After(s, p);
    assert CopyOk(s, c);
    assert id in Ids(c.msg, s.strips) && id != "" && id !in s.seen[c.node];
    UnrecordedStep(s.dataIds, s.seen, c.node, id);
    UnrecordedStep(s.allIds, s.seen, c.node, id);
    if IsMonitor(c.msg.topic) {
      NoReportsOnMonitor(s, p);
      DataAfter(s, p);
    }
  }

  lemma NoReportsOnMonitor(s: State, p: Step)
    requires Possible(s, p) && IsMonitor(s.copies[p.index].msg.topic)
    ensures p.reports == []
  {
    if p.reports != [] {
      ReportIsMonitor(p.reports[0], s.copies[p.index].msg, p, s);
    }
  }

  /** Reports add no data copies, and an onward copy is on the topic it came on. */
  lemma DataAfter(s: State, p: Step)
    requires Possible(s, p)
    ensures IsMonitor(s.copies[p.index].msg.topic) ==> Data(After(s, p).copies) == Data(s.copies)
    ensures !IsMonitor(s.copies[p.index].msg.topic) && p.onward == [] ==> Data(After(s, p).copies) < Data(s.copies)
  {
    var c := s.copies[p.index];
    var kept := s.copies[..p.index] + s.copies[p.index + 1..];
    var onward := Onward(Outgoing(p.options, c.msg), p.onward);
    DataWithout(s.copies, p.index);
    DataConcat(kept + onward, p.reports);
    DataConcat(kept, onward);
    forall i | 0 <= i < |p.reports| ensures IsMonitor(p.reports[i].msg.topic) {
      ReportIsMonitor(p.reports[i], c.msg, p, s);
    }
    AllMonitor(p.reports);
    if IsMonitor(c.msg.topic) || p.onward == [] {
      AllMonitor(onward);
    }
  }

  /** A copy that is not published: discarded by a check or already seen. */
  lemma SilentStep(s: State, p: Step)
    requires Ok(s) && Possible(s, p) && !Published(s, p)
    ensures Smaller(After(s, p), s)
  {
    var c := s.copies[p.index];
    var id := ExtractId(c.msg.payload);
    var t := After(s, p);
    assert CopyOk(s, c);
    assert t.seen == s.seen by {
      if Consults(p.options, p.verdicts, c.msg, p.centre) {
        assert s.seen[c.node] + {id} == s.seen[c.node];
      }
    }
    DataAfter(s, p);
    if IsMonitor(c.msg.topic) {
      NoReportsOnMonitor(s, p);
      assert t.allIds == s.allIds;
    }
  }

  lemma StepDecreases(s: State, p: Step)
    requires Ok(s) && Possible(s, p)
    ensures Ok(After(s, p)) && Smaller(After(s, p), s)
  {
    AfterIsOk(s, p);
    if Published(s, p) {
      PublishingStep(s, p);
    } else {
      SilentStep(s, p);
    }
  }

  lemma {:induction false} RestsFrom(run: nat -> State, from: nat)
    requires Ok(run(from))
    ensures exists n: nat :: from <= n && !Next(run(n), run(n + 1))
    decreases Unrecorded(run(from).dataIds, run(from).seen), Data(run(from).copies),
              Unrecorded(run(from).allIds, run(from).seen), |run(from).copies|
  {
    if Next(run(from), run(from + 1)) {
      var p :| Possible(run(from), p) && run(from + 1) == After(run(from), p);
      StepDecreases(run(from), p);
      RestsFrom(run, from + 1);
    }
  }

  /** Any copies under way at any nodes, whatever those have recorded. */
  function Begin(copies: seq<Copy>, seen: seq<set<string>>, strips: bool): State {
    State(copies, seen, IdsOf(copies, strips), IdsOf(copies, strips), strips)
  }

  /** No run goes on for ever: from any messages that keep an id, under way in any number to any
      of any number of nodes, every sequence of states reaches one from which no copy is
      processed any more. */
  lemma EveryRunComesToRest(run: nat -> State, copies: seq<Copy>, seen: seq<set<string>>, strips: bool)
    requires run(0) == Begin(copies, seen, strips)
    requires forall i :: 0 <= i < |copies| ==> copies[i].node < |seen| && KeepsId(copies[i].msg, strips)
    ensures exists n: nat :: !Next(run(n), run(n + 1))
  {
    forall i | 0 <= i < |copies| ensures CopyOk(run(0), copies[i]) {
      IdsOfContains(copies, strips, i);
      KeepsIdEverywhere(copies[i].msg, strips);
    }
    RestsFrom(run, 0);
  }

  // ---- Messages that lose their id --------------------------------------------------

  const QUIET := Policy(Off, Off, Off, false)
  const STRIPPING := Policy(Off, Off, Off, true)
  const FINE := Verdicts(true, true, true, true, true)

  lemma QuietPasses(o: Policy, m: Msg, v: Verdicts, centre: string)
    requires o == QUIET || o == STRIPPING
    ensures !Stops(o, v, m, centre) && Outgoing(o, m) == if o == STRIPPING then m.(payload := Strip(m.payload)) else m
  {
  }

  /** A copy is alone under way, at one of two nodes, and goes to the other. */
  lemma OnlyCopyMoves(s: State, m: Msg, here: nat, o: Policy, reply: DedupReply, records: bool)
    requires s.copies == [Copy(here, m)] && here < 2 && |s.seen| == 2
    requires o == QUIET || (o == STRIPPING && s.strips)
    requires ExtractId(m.payload) != "" ==> !reply.Seen?
    ensures var p := Step(0, o, FINE, "", [1 - here], []);
            && PossibleUnder(s, p, reply)
            && AfterUnder(s, p, records) == s.(
                 copies := [Copy(1 - here, Outgoing(o, m))],
                 seen := if records then s.seen[here := s.seen[here] + {ExtractId(m.payload)}] else s.seen)
  {
    var p := Step(0, o, FINE, "", [1 - here], []);
    QuietPasses(o, m, FINE, "");
    assert Onward(Outgoing(o, m), p.onward) == [Copy(1 - here, Outgoing(o, m))];
    assert IdsOf([], s.strips) == {};
  }

  /** Without an id it does so whatever the node has recorded. */
  lemma Bounces(s: State, m: Msg, here: nat)
    requires s.copies == [Copy(here, m)] && here < 2 && |s.seen| == 2 && ExtractId(m.payload) == ""
    ensures Next(s, s.(copies := [Copy(1 - here, m)]))
  {
    var p := Step(0, QUIET, FINE, "", [1 - here], []);
    assert InRange(s, p);
    OnlyCopyMoves(s, m, here, QUIET, ReplyAt(s, p), false);
    QuietPasses(QUIET, m, FINE, "");
    assert Possible(s, p);
    assert After(s, p) == s.(copies := [Copy(1 - here, m)]);
  }

  function Turn(start: nat, n: nat): (here: nat)
    requires start < 2
    ensures here < 2
  {
    if n == 0 then start else 1 - Turn(start, n - 1)
  }

  /** `s` with its one copy where it is after `n` hops. */
  function Bounced(s: State, m: Msg, start: nat, n: nat): State
    requires start < 2
  {
    s.(copies := [Copy(Turn(start, n), m)])
  }

  lemma BouncesOn(s: State, m: Msg, start: nat, n: nat)
    requires start < 2 && |s.seen| == 2 && ExtractId(m.payload) == ""
    ensures Next(Bounced(s, m, start, n), Bounced(s, m, start, n + 1))
  {
    Bounces(Bounced(s, m, start, n), m, Turn(start, n));
  }

  ghost predicate NeverRests(run: nat -> State) { forall n: nat :: Next(run(n), run(n + 1)) }

  lemma FirstHopStrips(m: Msg)
    requires ExtractId(m.payload) != ""
    ensures var s := Begin([Copy(0, m)], [{}, {}], true);
            Next(s, s.(copies := [Copy(1, m.(payload := Strip(m.payload)))], seen := [{ExtractId(m.payload)}, {}]))
  {
    var s := Begin([Copy(0, m)], [{}, {}], true);
    var p := Step(0, STRIPPING, FINE, "", [1], []);
    OnlyCopyMoves(s, m, 0, STRIPPING, NotSeen, true);
    QuietPasses(STRIPPING, m, FINE, "");
    assert Consults(STRIPPING, FINE, m, "");
    assert {} + {ExtractId(m.payload)} == {ExtractId(m.payload)};
    assert s.seen[0 := {ExtractId(m.payload)}] == [{ExtractId(m.payload)}, {}];
    assert Possible(s, p);
  }

  lemma OneStepMore(s: State, later: nat -> State) returns (run: nat -> State)
    requires Next(s, later(0)) && NeverRests(later)
    ensures run(0) == s && NeverRests(run)
  {
    run := (n: nat) => if n == 0 then s else later(n - 1);
    forall n: nat ensures Next(run(n), run(n + 1)) {
      if n > 0 {
        assert Next(later(n - 1), later(n - 1 + 1));
      }
    }
  }

  /** Back and forth from any state with one copy that has no id. */
  lemma BouncesForEver(s: State, m: Msg, here: nat) returns (run: nat -> State)
    requires s.copies == [Copy(here, m)] && here < 2 && |s.seen| == 2 && ExtractId(m.payload) == ""
    ensures run(0) == s && NeverRests(run)
  {
    run := (n: nat) => Bounced(s, m, here, n);
    forall n: nat ensures Next(run(n), run(n + 1)) {
      BouncesOn(s, m, here, n);
    }
  }

  /** A message without an id skips dedup, and two nodes hand it to each other for ever. */
  lemma WithoutIdNeverRests(m: Msg, strips: bool) returns (run: nat -> State)
    requires ExtractId(m.payload) == ""
    ensures run(0) == Begin([Copy(0, m)], [{}, {}], strips) && NeverRests(run)
  {
    run := BouncesForEver(Begin([Copy(0, m)], [{}, {}], strips), m, 0);
  }

  /** So they do with a message that had an id and loses it at the first hop that strips content:
      every message received at the start has an id, no key expires and no Redis call fails. */
  lemma LosingIdNeverRests(m: Msg) returns (run: nat -> State)
    requires ExtractId(m.payload) != "" == ExtractId(Strip(m.payload))
    ensures run(0) == Begin([Copy(0, m)], [{}, {}], true) && NeverRests(run)
  {
    var s := Begin([Copy(0, m)], [{}, {}], true);
    var stripped := m.(payload := Strip(m.payload));
    var t := s.(copies := [Copy(1, stripped)], seen := [{ExtractId(m.payload)}, {}]);
    FirstHopStrips(m);
    var later := BouncesForEver(t, stripped, 1);
    run := OneStepMore(s, later);
  }

  ghost predicate AlwaysRests(s: State) {
    forall run: nat -> State :: run(0) == s ==> !NeverRests(run)
  }

  /** The condition is exact: a message given to one of two nodes comes to rest in every run if
      and only if it keeps an id. */
  lemma RestsExactly(m: Msg, strips: bool)
    ensures AlwaysRests(Begin([Copy(0, m)], [{}, {}], strips)) <==> KeepsId(m, strips)
  {
    var s := Begin([Copy(0, m)], [{}, {}], strips);
    if KeepsId(m, strips) {
      forall run: nat -> State | run(0) == s ensures !NeverRests(run) {
        EveryRunComesToRest(run, [Copy(0, m)], [{}, {}], strips);
      }
    } else if ExtractId(m.payload) == "" {
      var run := WithoutIdNeverRests(m, strips);
      assert run(0) == s && NeverRests(run);
    } else {
      StripKeepsIdExactly(m.payload);
      var run := LosingIdNeverRests(m);
      assert run(0) == s && NeverRests(run);
    }
  }

  /** The payload whose id is followed by null is such a message. */
  lemma NulledIdNeverRests() returns (run: nat -> State)
    ensures ExtractId(NULLED) == "a"
    ensures run(0) == Begin([Copy(0, Msg("origin", NULLED))], [{}, {}], true) && NeverRests(run)
  {
    StripLosesNulledId();
    run := LosingIdNeverRests(Msg("origin", NULLED));
  }

  // ---- Redis that fails or forgets --------------------------------------------------

  predicate FailedStep(s: State, t: State, p: Step, ran: bool) {
    PossibleUnder(s, p, Failed) &&
    t == AfterUnder(s, p, ran && Consults(p.options, p.verdicts, s.copies[p.index].msg, p.centre))
  }

  /** A copy is processed whose dedup call fails; the command may have run all the same. */
  ghost predicate Fails(s: State, t: State) { exists p, ran :: FailedStep(s, t, p, ran) }

  /** A message with any id goes on for ever between two nodes that both have recorded it,
      when every reply is lost. */
  lemma WithFailuresNeverRests(m: Msg, strips: bool) returns (run: nat -> State)
    requires ExtractId(m.payload) != ""
    ensures run(0) == Begin([Copy(0, m)], [{ExtractId(m.payload)}, {ExtractId(m.payload)}], strips)
    ensures forall n: nat :: Fails(run(n), run(n + 1))
  {
    var s := Begin([Copy(0, m)], [{ExtractId(m.payload)}, {ExtractId(m.payload)}], strips);
    run := (n: nat) => Bounced(s, m, 0, n);
    forall n: nat ensures Fails(run(n), run(n + 1)) {
      FailsOn(s, m, n);
    }
  }

  lemma FailsOn(s: State, m: Msg, n: nat)
    requires |s.seen| == 2
    ensures Fails(Bounced(s, m, 0, n), Bounced(s, m, 0, n + 1))
  {
    var t := Bounced(s, m, 0, n);
    var p := Step(0, QUIET, FINE, "", [1 - Turn(0, n)], []);
    OnlyCopyMoves(t, m, Turn(0, n), QUIET, Failed, false);
    QuietPasses(QUIET, m, FINE, "");
    assert AfterUnder(t, p, false) == Bounced(s, m, 0, n + 1);
    assert FailedStep(t, Bounced(s, m, 0, n + 1), p, false);
  }

  /** A key expires at one node. */
  ghost predicate Expires(s: State, t: State) {
    exists n: nat, id: string :: n < |s.seen| && t == s.(seen := s.seen[n := s.seen[n] - {id}])
  }

  /** A message with some id going back and forth between two nodes, each of which has forgotten
      it by the time it comes back. */
  function Pendulum(m: Msg, strips: bool, phase: nat): State
    requires phase < 4
  {
    var node := if phase == 1 || phase == 2 then 1 else 0;
    var x := {ExtractId(m.payload)};
    var seen := if phase == 1 then [x, {}] else if phase == 3 then [{}, x] else [{}, {}];
    Begin([Copy(node, m)], seen, strips)
  }

  /** The copy is processed at the node it is at, and goes to the other one. */
  lemma Swings(m: Msg, strips: bool, phase: nat)
    requires ExtractId(m.payload) != "" && (phase == 0 || phase == 2)
    ensures Next(Pendulum(m, strips, phase), Pendulum(m, strips, phase + 1))
  {
    var here := if phase == 0 then 0 else 1;
    var s, t := Pendulum(m, strips, phase), Pendulum(m, strips, phase + 1);
    var x := {ExtractId(m.payload)};
    var p := Step(0, QUIET, FINE, "", [1 - here], []);
    OnlyCopyMoves(s, m, here, QUIET, NotSeen, true);
    QuietPasses(QUIET, m, FINE, "");
    assert Consults(QUIET, FINE, m, "");
    assert {} + x == x;
    assert [{}, {}][here := x] == if here == 0 then [x, {}] else [{}, x];
    SameIdsOf(m, strips, here, 1 - here);
    assert Possible(s, p);
    assert After(s, p) == t;
  }

  lemma SameIdsOf(m: Msg, strips: bool, a: nat, b: nat)
    ensures IdsOf([Copy(a, m)], strips) == IdsOf([Copy(b, m)], strips)
  {
    var one, other := [Copy(a, m)], [Copy(b, m)];
    assert one[..0] == [] && other[..0] == [];
  }

  lemma Forgets(m: Msg, strips: bool, phase: nat)
    requires phase == 1 || phase == 3
    ensures Expires(Pendulum(m, strips, phase), Pendulum(m, strips, if phase == 3 then 0 else phase + 1))
  {
    var s, t := Pendulum(m, strips, phase), Pendulum(m, strips, if phase == 3 then 0 else phase + 1);
    var node := if phase == 1 then 0 else 1;
    var id := ExtractId(m.payload);
    assert s.seen[node] - {id} == {};
    assert s.seen[node := {}] == [{}, {}];
    assert t == s.(seen := s.seen[node := s.seen[node] - {id}]);
  }

  /** A copy is processed, or a key expires. */
  ghost predicate Turns(s: State, t: State) { Next(s, t) || Expires(s, t) }

  lemma OneTurn(m: Msg, strips: bool, phase: nat)
    requires ExtractId(m.payload) != "" && phase < 4
    ensures Turns(Pendulum(m, strips, phase), Pendulum(m, strips, if phase == 3 then 0 else phase + 1))
  {
    if phase == 0 || phase == 2 {
      Swings(m, strips, phase);
    } else {
      Forgets(m, strips, phase);
    }
  }

  function PhaseAt(n: nat): (phase: nat)
    ensures phase < 4
  {
    if n == 0 || PhaseAt(n - 1) == 3 then 0 else PhaseAt(n - 1) + 1
  }

  function PendulumAt(m: Msg, strips: bool, n: nat): State { Pendulum(m, strips, PhaseAt(n)) }

  lemma TurnAt(m: Msg, strips: bool, n: nat)
    requires ExtractId(m.payload) != ""
    ensures Turns(PendulumAt(m, strips, n), PendulumAt(m, strips, n + 1))
  {
    OneTurn(m, strips, PhaseAt(n));
  }

  /** Nor does a run of such turns, in which keys expire while copies are still under way, have
      to come to rest, whatever the message. */
  lemma WithExpiryNeverRests(m: Msg, strips: bool) returns (run: nat -> State)
    requires ExtractId(m.payload) != ""
    ensures run(0) == Begin([Copy(0, m)], [{}, {}], strips)
    ensures forall n: nat :: Turns(run(n), run(n + 1))
  {
    run := (n: nat) => PendulumAt(m, strips, n);
    forall n: nat ensures Turns(run(n), run(n + 1)) {
      var s, t := PendulumAt(m, strips, n), PendulumAt(m, strips, n + 1);
      assert run(n) == s && run(n + 1) == t;
      assert Turns(s, t) by {
        TurnAt(m, strips, n);
      }
    }
  }
}
