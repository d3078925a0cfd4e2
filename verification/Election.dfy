/** In-process primary election (internal/election): every instance announces a time stamp in
    one Redis hash, reads the hash, prunes stale fields, and is primary when its uuid is the
    least among the fresh ones. */
module Election {
  import opened Options
  import opened Strings

  // ---- Sorted uuids -----------------------------------------------------------------

  ghost predicate LexSorted(s: seq<string>) {
    forall i, j :: 0 <= i <= j < |s| ==> LexLeq(s[i], s[j])
  }

  function Insert(x: string, s: seq<string>): (r: seq<string>)
    ensures multiset(r) == multiset(s) + multiset{x}
  {
    if s == [] then [x]
    else if LexLeq(x, s[0]) then [x] + s
    else
      assert s == [s[0]] + s[1..];
      [s[0]] + Insert(x, s[1..])
  }

  /** sort.Strings. */
  function SortStrings(s: seq<string>): (r: seq<string>)
    ensures multiset(r) == multiset(s)
  {
    if s == [] then []
    else
      assert s == [s[0]] + s[1..];
      Insert(s[0], SortStrings(s[1..]))
  }

  lemma {:induction false} InsertKeepsSorted(x: string, s: seq<string>)
    requires LexSorted(s)
    ensures LexSorted(Insert(x, s))
  {
    if s == [] {
      LexTotal(x, x);
    } else if LexLeq(x, s[0]) {
      LexTotal(x, x);
      forall j | 0 <= j < |s| ensures LexLeq(x, s[j]) {
        LexTransitive(x, s[0], s[j]);
      }
    } else {
      LexTotal(x, s[0]);
      InsertKeepsSorted(x, s[1..]);
      var r := Insert(x, s[1..]);
      forall j | 0 <= j < |r| ensures LexLeq(s[0], r[j]) {
        assert r[j] in multiset(r);
        if r[j] != x {
          assert r[j] in s[1..];
        }
      }
      LexTotal(s[0], s[0]);
    }
  }

  lemma {:induction false} SortStringsSorts(s: seq<string>)
    ensures LexSorted(SortStrings(s))
  {
    if s != [] {
      SortStringsSorts(s[1..]);
      InsertKeepsSorted(s[0], SortStrings(s[1..]));
    }
  }

  /** What `fresh[0] == c.uuid` decides, whatever order the hash was walked in. */
  lemma FirstSortedIsLeast(s: seq<string>, ids: set<string>, me: string)
    requires s != [] && forall id :: id in s <==> id in ids
    ensures SortStrings(s) != [] && (SortStrings(s)[0] == me <==> IsLeast(me, ids))
  {
    var r := SortStrings(s);
    SortStringsSorts(s);
    assert s[0] in multiset(r);
    assert r != [];
    forall id | id in ids ensures LexLeq(r[0], id) {
      assert id in multiset(r);
      var j :| 0 <= j < |r| && r[j] == id;
    }
    assert r[0] in multiset(s);
    if IsLeast(me, ids) {
      LexAntisymmetric(r[0], me);
    }
  }

  // ---- The announced value ----------------------------------------------------------

  const INT64_LIMIT := 0x8000_0000_0000_0000

  function Digit(d: nat): char
    requires d < 10
  {
    (('0' as int) + d) as char
  }

  function Decimal(n: nat): (s: string)
    ensures s != [] && forall i :: 0 <= i < |s| ==> '0' <= s[i] <= '9'
  {
    if n < 10 then [Digit(n)] else Decimal(n / 10) + [Digit(n % 10)]
  }

  function Itoa(n: int): string {
    if n < 0 then "-" + Decimal(-n) else Decimal(n)
  }

  function ParseDigits(s: string): Option<nat> {
    if s == [] then None
    else
      var last := s[|s| - 1];
      if !('0' <= last <= '9') then None
      else
        var d := (last as int) - ('0' as int);
        if |s| == 1 then Some(d)
        else
          match ParseDigits(s[..|s| - 1])
          case None => None
          case Some(n) => Some(10 * n + d)
  }

  /** strconv.ParseInt(s, 10, 64). */
  function ParseInt(s: string): Option<int> {
    if s == [] then None
    else
      var negative := s[0] == '-';
      match ParseDigits(if negative || s[0] == '+' then s[1..] else s)
      case None => None
      case Some(n) =>
        var magnitude: int := n;
        var value := if negative then -magnitude else magnitude;
        if -INT64_LIMIT <= value < INT64_LIMIT then Some(value) else None
  }

  /** The part before the first `sep`, or all of `s` when there is none. */
  function Before(s: string, sep: char): string {
    if s == [] || s[0] == sep then [] else [s[0]] + Before(s[1..], sep)
  }

  function Announcement(ms: int, host: string): string { Itoa(ms) + "|" + host }

  function Stamp(raw: string): Option<int> { ParseInt(Before(raw, '|')) }

  lemma {:induction false} ParseDigitsDecimal(n: nat)
    ensures ParseDigits(Decimal(n)) == Some(n)
  {
    if n >= 10 {
      ParseDigitsDecimal(n / 10);
      var s := Decimal(n);
      assert s[..|s| - 1] == Decimal(n / 10);
    }
  }

  lemma ParseIntPlain(digits: string, n: nat)
    requires ParseDigits(digits) == Some(n) && digits != [] && '0' <= digits[0] <= '9' && n < INT64_LIMIT
    ensures ParseInt(digits) == Some(n)
  {
    assert digits[0] != '-' && digits[0] != '+';
  }

  lemma ParseIntNegative(digits: string, n: nat)
    requires ParseDigits(digits) == Some(n) && n <= INT64_LIMIT
    ensures ParseInt("-" + digits) == Some(0 - n as int)
  {
    var s := "-" + digits;
    assert s[0] == '-' && s[1..] == digits;
  }

  lemma ParseIntItoa(ms: int)
    requires -INT64_LIMIT <= ms < INT64_LIMIT
    ensures ParseInt(Itoa(ms)) == Some(ms)
  {
    var n := if ms < 0 then -ms else ms;
    ParseDigitsDecimal(n);
    var digits := Decimal(n);
    if ms < 0 {
      ParseIntNegative(digits, n);
    } else {
      ParseIntPlain(digits, n);
    }
  }

  predicate IsDigit(c: char) { '0' <= c <= '9' }

  lemma {:induction false} DigitsOnly(s: string)
    ensures ParseDigits(s).Some? <==> s != "" && forall i :: 0 <= i < |s| ==> IsDigit(s[i])
  {
    if |s| > 1 {
      var n := |s| - 1;
      DigitsOnly(s[..n]);
      assert forall i :: 0 <= i < n ==> s[..n][i] == s[i];
    }
  }

  /** What parses: digits with at most one sign in front, whose number fits 64 bits. */
  lemma ParseIntExactly(s: string)
    ensures var signed := s != "" && (s[0] == '-' || s[0] == '+');
            var digits := if signed then s[1..] else s;
            var n := if ParseDigits(digits).Some? then ParseDigits(digits).value else 0;
            var value := if s != "" && s[0] == '-' then -n else n;
            ParseInt(s) == if digits != "" && (forall i :: 0 <= i < |digits| ==> IsDigit(digits[i]))
                              && -INT64_LIMIT <= value < INT64_LIMIT then Some(value) else None
  {
    if s != "" {
      DigitsOnly(if s[0] == '-' || s[0] == '+' then s[1..] else s);
    }
  }

  lemma {:induction false} BeforeAppended(s: string, rest: string, sep: char)
    requires sep !in s && (rest == [] || rest[0] == sep)
    ensures Before(s + rest, sep) == s
  {
    if s == [] {
      assert s + rest == rest;
    } else {
      assert (s + rest)[1..] == s[1..] + rest;
      BeforeAppended(s[1..], rest, sep);
    }
  }

  /** Every announced stamp reads back, whatever the host contains, and so does a stamp
      written without a host by an older version. */
  lemma StampRoundTrip(ms: int, host: string)
    requires -INT64_LIMIT <= ms < INT64_LIMIT
    ensures Stamp(Announcement(ms, host)) == Some(ms)
    ensures Stamp(Itoa(ms)) == Some(ms)
  {
    assert '|' !in Itoa(ms);
    BeforeAppended(Itoa(ms), "|" + host, '|');
    assert Itoa(ms) + ("|" + host) == Announcement(ms, host);
    BeforeAppended(Itoa(ms), [], '|');
    assert Itoa(ms) + [] == Itoa(ms);
    ParseIntItoa(ms);
  }

  // ---- One evaluation ---------------------------------------------------------------

  predicate IsFresh(raw: string, cutoff: int) {
    Stamp(raw).Some? && Stamp(raw).value >= cutoff
  }

  /** Unparseable fields count as stale. */
  function FreshIds(all: map<string, string>, cutoff: int): set<string> {
    set id | id in all && IsFresh(all[id], cutoff)
  }

  function StaleIds(all: map<string, string>, cutoff: int): set<string> {
    set id | id in all && !IsFresh(all[id], cutoff)
  }

  /** By the stamps themselves: primary is who is fresh and least among the fresh, and a complete
      cleanup leaves exactly the fresh. */
  lemma FreshByStamp(all: map<string, string>, cutoff: int, me: string)
    ensures FreshIds(all, cutoff) != {} && IsLeast(me, FreshIds(all, cutoff)) <==>
            && me in all && Stamp(all[me]).Some? && cutoff <= Stamp(all[me]).value
            && forall id :: id in all && Stamp(all[id]).Some? && cutoff <= Stamp(all[id]).value ==> LexLeq(me, id)
    ensures forall id :: id in all - StaleIds(all, cutoff) <==>
              id in all && Stamp(all[id]).Some? && cutoff <= Stamp(all[id]).value
  {
    if IsLeast(me, FreshIds(all, cutoff)) {
      forall id | id in all && Stamp(all[id]).Some? && cutoff <= Stamp(all[id]).value ensures LexLeq(me, id) {
        assert id in FreshIds(all, cutoff);
      }
    }
  }

  lemma SelfIsFresh(all: map<string, string>, me: string, begun: int, host: string, cutoff: int)
    requires -INT64_LIMIT <= begun < INT64_LIMIT && cutoff <= begun
    requires me in all && all[me] == Announcement(begun, host)
    ensures me in FreshIds(all, cutoff) && FreshIds(all, cutoff) != {} && me !in StaleIds(all, cutoff)
  {
    StampRoundTrip(begun, host);
  }

  const KEY_EXPIRY := 3_600_000

  /** The election hash of one centre, with the whole-key TTL. */
  class Hash {
    var fields: map<string, string>
    var expireAt: Option<int>

    predicate Gone(now: int)
      reads this
    {
      expireAt.Some? && expireAt.value <= now
    }

    function Visible(now: int): map<string, string>
      reads this
    {
      if Gone(now) then map[] else fields
    }

    /** HSET then EXPIRE. */
    method Announce(id: string, value: string, now: int)
      modifies this
      ensures fields == old(Visible(now))[id := value] && expireAt == Some(now + KEY_EXPIRY)
    {
      if Gone(now) {
        fields := map[];
      }
      fields := fields[id := value];
      expireAt := Some(now + KEY_EXPIRY);
    }

    method Delete(ids: seq<string>, now: int)
      modifies this
      ensures fields == old(Visible(now)) - (set id | id in ids)
      ensures expireAt == if old(Gone(now)) || fields == map[] then None else old(expireAt)
    {
      if Gone(now) {
        fields, expireAt := map[], None;
      }
      for i := 0 to |ids|
        invariant fields == old(Visible(now)) - (set id | id in ids[..i])
        invariant expireAt == if old(Gone(now)) then None else old(expireAt)
      {
        fields := fields - {ids[i]};
        assert ids[..i + 1] == ids[..i] + [ids[i]];
      }
      assert ids[..|ids|] == ids;
      if fields == map[] {
        expireAt := None;
      }
    }
  }

  /** Which of the three Redis round trips of one evaluation fail. */
  datatype Faults = Faults(announce: bool, read: bool, prune: bool)

  /** What an evaluation makes of the hash as it was before it: its result, and what is left. */
  ghost predicate IsEvaluation(before: map<string, string>, uuid: string, value: string, window: int,
                               begun: int, now: int, faults: Faults, r: Option<bool>, after: map<string, string>)
  {
    var seen := before[uuid := value];
    var cutoff := now - window;
    var live := if now < begun + KEY_EXPIRY then seen else map[];
    && (r.Some? <==> !faults.announce && !faults.read && FreshIds(live, cutoff) != {})
    && (r.Some? ==> (r.value <==> IsLeast(uuid, FreshIds(live, cutoff))))
    && (!faults.announce ==>
          after == if faults.read || faults.prune then live else live - StaleIds(live, cutoff))
  }

  class Client {
    const uuid: string
    const host: string
    const freshWindow: int
    const rdb: Hash
    var isPrimary: bool
    var announced: bool
    /** The arguments onChange was called with, in order. */
    var changes: seq<bool>
    /** The results of the evaluations that returned without an error. */
    ghost var results: seq<bool>

    ghost predicate Valid()
      reads this
    {
      && changes == WithoutRepeats(results)
      && announced == (results != [])
      && isPrimary == LastOr(results, false)
    }

    constructor (rdb: Hash, uuid: string, host: string, freshWindow: int)
      ensures Valid() && results == [] && this.rdb == rdb
      ensures this.uuid == uuid && this.host == host && this.freshWindow == freshWindow
    {
      this.rdb, this.uuid, this.host, this.freshWindow := rdb, uuid, host, freshWindow;
      isPrimary, announced, changes, results := false, false, [], [];
    }

    /** The loop over the hash, walked in any order. */
    method Classify(all: map<string, string>, cutoff: int) returns (freshIds: seq<string>, staleIds: seq<string>)
      ensures forall id :: id in freshIds <==> id in FreshIds(all, cutoff)
      ensures forall id :: id in staleIds <==> id in StaleIds(all, cutoff)
    {
      freshIds, staleIds := [], [];
      var todo := all.Keys;
      while todo != {}
        invariant todo <= all.Keys
        invariant forall id :: id in freshIds <==> id in FreshIds(all, cutoff) - todo
        invariant forall id :: id in staleIds <==> id in StaleIds(all, cutoff) - todo
        decreases todo
      {
        var id :| id in todo;
        var stamp := Stamp(all[id]);
        if stamp.None? {
          staleIds := staleIds + [id];
        } else if stamp.value >= cutoff {
          freshIds := freshIds + [id];
        } else {
          staleIds := staleIds + [id];
        }
        todo := todo - {id};
      }
    }

    /** One evaluation with nobody else at the hash between its round trips. `begun` is the
        announced time, `now` the time the cutoff is taken from.

        Who is fresh is read off the stamps by `FreshByStamp`. An evaluation that takes its cutoff
        within the window of its own announcement finds itself fresh, so it has a result, and
        its field survives the cleanup. */
    method Evaluate(begun: int, now: int, faults: Faults) returns (r: Option<bool>)
      requires begun <= now
      modifies rdb
      ensures IsEvaluation(old(rdb.Visible(begun)), uuid, Announcement(begun, host), freshWindow, begun, now, faults, r,
                           rdb.Visible(now))
      ensures faults.announce ==> rdb.fields == old(rdb.fields) && rdb.expireAt == old(rdb.expireAt)
      ensures && !faults.announce && !faults.read && -INT64_LIMIT <= begun < INT64_LIMIT
              && now - begun <= freshWindow && now < begun + KEY_EXPIRY ==>
                r.Some? && uuid in rdb.Visible(now) && rdb.Visible(now)[uuid] == Announcement(begun, host)
    {
      if faults.announce {
        return None;
      }
      rdb.Announce(uuid, Announcement(begun, host), begun);
      if faults.read {
        return None;
      }
      if -INT64_LIMIT <= begun < INT64_LIMIT && now - begun <= freshWindow && now < begun + KEY_EXPIRY {
        SelfIsFresh(rdb.Visible(now), uuid, begun, host, now - freshWindow);
      }
      r := Judge(now, faults.prune);
    }

    /** From the read on. */
    method Judge(now: int, pruneFails: bool) returns (r: Option<bool>)
      modifies rdb
      ensures var all := old(rdb.Visible(now));
              var young, stale := FreshIds(all, now - freshWindow), StaleIds(all, now - freshWindow);
              && r == (if young == {} then None else Some(IsLeast(uuid, young)))
              && rdb.Visible(now) == all - if pruneFails then {} else stale
    {
      var all := rdb.Visible(now);
      var cutoff := now - freshWindow;
      var freshIds, staleIds := Classify(all, cutoff);
      Prune(staleIds, StaleIds(all, cutoff), now, pruneFails);
      r := Decide(freshIds, FreshIds(all, cutoff));
    }

    /** The cleanup, whose failure is not fatal. */
    method Prune(staleIds: seq<string>, ghost stale: set<string>, now: int, failed: bool)
      requires forall id :: id in staleIds <==> id in stale
      modifies rdb
      ensures rdb.Visible(now) == old(rdb.Visible(now)) - if failed then {} else stale
    {
      if |staleIds| > 0 && !failed {
        assert (set id | id in staleIds) == stale;
        rdb.Delete(staleIds, now);
      } else if !failed {
        assert stale == {};
      }
    }

    method Decide(freshIds: seq<string>, ghost young: set<string>) returns (r: Option<bool>)
      requires forall id :: id in freshIds <==> id in young
      ensures r == if young == {} then None else Some(IsLeast(uuid, young))
    {
      if |freshIds| == 0 {
        assert young == {};
        return None;
      }
      assert freshIds[0] in freshIds;
      FirstSortedIsLeast(freshIds, young, uuid);
      r := Some(SortStrings(freshIds)[0] == uuid);
    }

    /** One evaluation, and what it means for the role: a failed one leaves the role as it is and
        reports nothing. */
    method Tick(begun: int, now: int, faults: Faults) returns (ghost r: Option<bool>)
      requires Valid() && begun <= now
      modifies this, rdb
      ensures Valid()
      ensures results == if r.Some? then old(results) + [r.value] else old(results)
      ensures IsEvaluation(old(rdb.Visible(begun)), uuid, Announcement(begun, host), freshWindow, begun, now, faults, r,
                           rdb.Visible(now))
      ensures faults.announce ==> rdb.fields == old(rdb.fields) && rdb.expireAt == old(rdb.expireAt)
      ensures r.None? ==> isPrimary == old(isPrimary) && changes == old(changes)
      ensures r.Some? ==> isPrimary == r.value
    {
      var outcome := Evaluate(begun, now, faults);
      r := outcome;
      if outcome.Some? {
        Conclude(outcome.value);
      }
    }

    /** The end of a tick whose evaluation succeeded. */
    method Conclude(verdict: bool)
      requires Valid()
      modifies this
      ensures Valid() && results == old(results) + [verdict] && isPrimary == verdict
    {
      var changed := verdict != isPrimary;
      isPrimary := verdict;
      WithoutRepeatsSnoc(results, verdict);
      if changed || !announced {
        changes := changes + [verdict];
      }
      announced := true;
      results := results + [verdict];
    }
  }

  // ---- What onChange hears ----------------------------------------------------------

  function LastOr(s: seq<bool>, none: bool): bool { if s == [] then none else s[|s| - 1] }

  /** Consecutive repeats removed. */
  function WithoutRepeats(s: seq<bool>): seq<bool> {
    if |s| <= 1 then s
    else if s[0] == s[1] then WithoutRepeats(s[1..])
    else [s[0]] + WithoutRepeats(s[1..])
  }

  lemma {:induction false} WithoutRepeatsSnoc(s: seq<bool>, b: bool)
    ensures WithoutRepeats(s + [b])
         == if s != [] && LastOr(s, b) == b then WithoutRepeats(s) else WithoutRepeats(s) + [b]
  {
    if |s| > 1 {
      assert (s + [b])[1..] == s[1..] + [b];
      WithoutRepeatsSnoc(s[1..], b);
    }
  }

  /** onChange hears alternating roles only, and the last it heard is the last successful
      evaluation. */
  lemma {:induction false} ChangesAlternate(s: seq<bool>)
    ensures var c := WithoutRepeats(s);
            && (forall i :: 0 < i < |c| ==> c[i] != c[i - 1])
            && (c == [] <==> s == []) && LastOr(c, false) == LastOr(s, false)
            && (s != [] ==> c[0] == s[0])
  {
    if |s| > 1 {
      ChangesAlternate(s[1..]);
    }
  }
}
