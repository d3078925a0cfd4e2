/** From election results to the gate. A setter of the pipeline (SetPrimary, SetPubConnected)
    updates its flag and computes `open` under one mutex and applies it after unlocking, so the
    two halves are separate steps here. */
module RoleSteps {
  import opened Options
  import opened Election

  datatype Setter = Primary(value: bool) | Connected(value: bool)

  datatype Flags = Flags(primary: bool, connected: bool)

  function Updated(f: Flags, c: Setter): Flags {
    match c
    case Primary(b) => f.(primary := b)
    case Connected(b) => f.(connected := b)
  }

  predicate Wanted(f: Flags) { f.primary && f.connected }

  /** `computed[n]` is what the n-th locked half computed; `gateBy` the setter whose value the
      gate was last given, if any was. */
  datatype State = State(flags: Flags, setters: seq<Setter>, computed: seq<bool>, unapplied: set<nat>,
                         gateOpen: bool, gateBy: Option<nat>)

  datatype Action = Lock(setter: Setter) | ApplyValue(n: nat)

  const START := State(Flags(false, false), [], [], {}, false, None)

  predicate Enabled(s: State, a: Action) { a.ApplyValue? ==> a.n in s.unapplied && a.n < |s.computed| }

  function Apply(s: State, a: Action): State
    requires Enabled(s, a)
  {
    match a
    case Lock(c) =>
      var f := Updated(s.flags, c);
      s.(flags := f, setters := s.setters + [c], computed := s.computed + [Wanted(f)],
         unapplied := s.unapplied + {|s.computed|})
    case ApplyValue(n) => s.(unapplied := s.unapplied - {n}, gateOpen := s.computed[n], gateBy := Some(n))
  }

  ghost predicate Next(s: State, t: State) { exists a :: Enabled(s, a) && t == Apply(s, a) }

  ghost predicate IsRun(run: seq<State>) {
    |run| > 0 && run[0] == START && forall i :: 0 < i < |run| ==> Next(run[i - 1], run[i])
  }

  function FlagsAfter(setters: seq<Setter>): Flags {
    if setters == [] then Flags(false, false)
    else Updated(FlagsAfter(setters[..|setters| - 1]), setters[|setters| - 1])
  }

  ghost predicate Inv(s: State) {
    && s.flags == FlagsAfter(s.setters) && |s.computed| == |s.setters|
    && (forall n :: 0 <= n < |s.computed| ==> s.computed[n] == Wanted(FlagsAfter(s.setters[..n + 1])))
    && (forall n :: n in s.unapplied ==> n < |s.computed|)
    && (forall n :: 0 <= n < |s.computed| && s.gateBy.None? ==> n in s.unapplied)
    && (match s.gateBy
        case None => !s.gateOpen
        case Some(n) => n < |s.computed| && s.gateOpen == s.computed[n])
  }

  lemma {:induction false} RunKeepsInv(run: seq<State>, i: nat)
    requires IsRun(run) && i < |run|
    ensures Inv(run[i])
  {
    if i > 0 {
      RunKeepsInv(run, i - 1);
      assert Next(run[i - 1], run[i]);
      var s, t := run[i - 1], run[i];
      var a :| Enabled(s, a) && t == Apply(s, a);
      if a.Lock? {
        assert t.setters[..|s.setters|] == s.setters;
        forall n | 0 <= n < |t.computed| ensures t.computed[n] == Wanted(FlagsAfter(t.setters[..n + 1])) {
          if n < |s.computed| {
            assert t.setters[..n + 1] == s.setters[..n + 1];
          } else {
            assert t.setters[..n + 1] == t.setters;
          }
        }
      }
    }
  }

  /** Whatever the interleaving, once no setter is between its halves the gate has the value
      computed by whichever setter applied last; so it is right, open exactly when the instance
      is primary and a broker is connected, if and only if that value is still wanted. When
      the last setter to lock is the last to apply, it is. */
  lemma GateHasLastApplied(run: seq<State>)
    requires IsRun(run) && run[|run| - 1].unapplied == {} && run[|run| - 1].setters != []
    ensures var s := run[|run| - 1];
            && s.gateBy.Some? && s.gateBy.value < |s.setters|
            && s.gateOpen == Wanted(FlagsAfter(s.setters[..s.gateBy.value + 1]))
            && s.flags == FlagsAfter(s.setters)
            && (s.gateBy.value == |s.setters| - 1 ==> s.gateOpen == Wanted(s.flags))
  {
    RunKeepsInv(run, |run| - 1);
    var s := run[|run| - 1];
    assert 0 in s.unapplied || s.gateBy.Some?;
    assert s.setters[..|s.setters|] == s.setters;
  }

  lemma Extend(run: seq<State>, a: Action) returns (longer: seq<State>)
    requires IsRun(run) && Enabled(run[|run| - 1], a)
    ensures run <= longer && IsRun(longer) && longer[|longer| - 1] == Apply(run[|run| - 1], a)
  {
    longer := run + [Apply(run[|run| - 1], a)];
    assert Next(run[|run| - 1], longer[|longer| - 1]);
  }

  /** A stale Open: the demotion overtakes the promotion between lock and apply, and the gate
      of a secondary stays open with nothing left to correct it. */
  lemma StaleOpen() returns (run: seq<State>)
    ensures IsRun(run)
    ensures run[|run| - 1].unapplied == {} && run[|run| - 1].gateOpen && !run[|run| - 1].flags.primary
  {
    run := [START];
    run := Extend(run, Lock(Connected(true)));
    run := Extend(run, ApplyValue(0));
    run := Extend(run, Lock(Primary(true)));
    run := Extend(run, Lock(Primary(false)));
    run := Extend(run, ApplyValue(2));
    run := Extend(run, ApplyValue(1));
  }

  // ---- When the gate is right -------------------------------------------------------

  /** A step in which no setter locks while another is between its halves. */
  ghost predicate CalmNext(s: State, t: State) {
    exists a :: Enabled(s, a) && t == Apply(s, a) && (a.Lock? ==> s.unapplied == {})
  }

  ghost predicate IsCalmRun(run: seq<State>) {
    |run| > 0 && run[0] == START && forall i :: 0 < i < |run| ==> CalmNext(run[i - 1], run[i])
  }

  /** At most the newest setter is between its halves; if none is, the gate has its value. */
  ghost predicate Newest(s: State) {
    var n := |s.computed|;
    && s.unapplied <= {n - 1} && n == |s.setters|
    && (s.unapplied == {} && n > 0 ==> s.gateBy == Some(n - 1))
  }

  lemma {:induction false} CalmRunKeepsNewest(run: seq<State>, i: nat)
    requires IsCalmRun(run) && i < |run|
    ensures Newest(run[i])
  {
    if i > 0 {
      CalmRunKeepsNewest(run, i - 1);
      assert CalmNext(run[i - 1], run[i]);
    }
  }

  lemma CalmRunIsRun(run: seq<State>)
    requires IsCalmRun(run)
    ensures IsRun(run)
  {
    forall i | 0 < i < |run| ensures Next(run[i - 1], run[i]) {
      assert CalmNext(run[i - 1], run[i]);
    }
  }

  /** If every setter that locks finds no other between its halves, the gate is right, open
      exactly when the instance is primary and a broker is connected, whenever none is. */
  lemma CalmGateIsRight(run: seq<State>, i: nat)
    requires IsCalmRun(run) && i < |run| && run[i].unapplied == {}
    ensures run[i].gateOpen == Wanted(run[i].flags)
  {
    CalmRunIsRun(run);
    RunKeepsInv(run, i);
    CalmRunKeepsNewest(run, i);
    assert run[i].setters[..|run[i].setters|] == run[i].setters;
  }

  /** Apply every held value but one. */
  lemma {:induction false} ApplyOthers(run: seq<State>, n: nat) returns (longer: seq<State>)
    requires IsRun(run) && n in run[|run| - 1].unapplied
    ensures run <= longer && IsRun(longer)
    ensures var s, t := run[|run| - 1], longer[|longer| - 1];
            t.unapplied == {n} && t.flags == s.flags && t.computed == s.computed
    decreases |run[|run| - 1].unapplied|
  {
    var s := run[|run| - 1];
    if m :| m in s.unapplied && m != n {
      RunKeepsInv(run, |run| - 1);
      var next := Extend(run, ApplyValue(m));
      longer := ApplyOthers(next, n);
    } else {
      longer := run;
    }
  }

  /** The condition cannot be weakened: from every reachable state with a setter between its
      halves a run can go on to rest with a wrong gate. Setters that want the opposite of the
      value it holds lock, and it is the last to apply. */
  lemma HeldValueCanBeLast(run: seq<State>) returns (longer: seq<State>)
    requires IsRun(run) && run[|run| - 1].unapplied != {}
    ensures run <= longer && IsRun(longer)
    ensures var t := longer[|longer| - 1]; t.unapplied == {} && t.gateOpen != Wanted(t.flags)
  {
    RunKeepsInv(run, |run| - 1);
    var s := run[|run| - 1];
    var n :| n in s.unapplied;
    var value := s.computed[n];
    longer := Extend(run, Lock(Primary(!value)));
    longer := Extend(longer, Lock(Connected(!value)));
    longer := ApplyOthers(longer, n);
    longer := Extend(longer, ApplyValue(n));
  }

  // ---- Whole runs without overlap ---------------------------------------------------

  function Roles(setters: seq<Setter>): seq<bool> {
    if setters == [] then []
    else
      var rest, last := Roles(setters[..|setters| - 1]), setters[|setters| - 1];
      if last.Primary? then rest + [last.value] else rest
  }

  lemma {:induction false} PrimaryIsLastRole(setters: seq<Setter>)
    ensures FlagsAfter(setters).primary == LastOr(Roles(setters), false)
  {
    if setters != [] {
      PrimaryIsLastRole(setters[..|setters| - 1]);
    }
  }

  function Connections(setters: seq<Setter>): seq<bool> {
    if setters == [] then []
    else
      var rest, last := Connections(setters[..|setters| - 1]), setters[|setters| - 1];
      if last.Connected? then rest + [last.value] else rest
  }

  lemma {:induction false} ConnectedIsLastReport(setters: seq<Setter>)
    ensures FlagsAfter(setters).connected == LastOr(Connections(setters), false)
  {
    if setters != [] {
      ConnectedIsLastReport(setters[..|setters| - 1]);
    }
  }

  /** The pipeline's role is the last successful evaluation: when the SetPrimary calls among
      the setters are the onChange calls of an election whose successful evaluations were
      `results`, the gate wanted at the end is open exactly when the last of them won and a
      broker is connected. */
  lemma RoleIsLastEvaluation(results: seq<bool>, setters: seq<Setter>)
    requires Roles(setters) == WithoutRepeats(results)
    ensures FlagsAfter(setters).primary == LastOr(results, false)
    ensures Wanted(FlagsAfter(setters)) <==> LastOr(results, false) && FlagsAfter(setters).connected
  {
    PrimaryIsLastRole(setters);
    ChangesAlternate(results);
  }
}
