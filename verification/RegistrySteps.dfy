/** The registry shared by a fleet. Any number of processes refresh, fall back on the last good
    copy of the list, rebuild their caches from the index sets and ask; the commands that
    replace an index set reach Redis one at a time, interleaved with everybody else's, and a
    connection may break between any two of them.

    Two questions are asked of it. What does a reader of an index set see while it is replaced:
    a whole old or a whole new set, as long as one process writes it at a time. And does `Has`,
    which believes its cache before it asks Redis, answer what EXISTS would: in every run, for
    every id and topic, exactly when each accepted line with a centre has a topic. */
module RegistrySteps {
  import opened Options
  import opened Strings
  import opened Registry

  // ---- One refresh, undisturbed -----------------------------------------------------

  /** The commands of a refresh: one index after the other, in the order given. */
  ghost predicate IndexWrites(cmds: seq<Cmd>, rows: seq<Row>, order: seq<string>)
    decreases order
  {
    if order == [] then cmds == []
    else
      var last := order[|order| - 1];
      exists n :: 0 <= n <= |cmds| && ReplacesIndex(cmds[n..], IndexKey(last), IndexOf(rows, last))
        && IndexWrites(cmds[..n], rows, order[..|order| - 1])
  }

  /** Every centre of the list has its index written, once. */
  predicate Covers(rows: seq<Row>, order: seq<string>) {
    && (forall r :: r in rows ==> r.centre in order)
    && (forall c :: c in order ==> IndexOf(rows, c) != [])
    && (forall i, j :: 0 <= i < j < |order| ==> order[i] != order[j])
  }

  lemma {:induction false} ApplyConcat(sets: Sets, a: seq<Cmd>, b: seq<Cmd>)
    ensures ApplyAll(sets, a + b) == ApplyAll(ApplyAll(sets, a), b)
  {
    if b == [] {
      assert a + b == a;
    } else {
      assert (a + b)[..|a + b| - 1] == a + b[..|b| - 1];
      ApplyConcat(sets, a, b[..|b| - 1]);
    }
  }

  lemma DuringOneWrite(sets: Sets, cmds: seq<Cmd>, centre: string, members: seq<string>, n: nat, c: string)
    requires ReplacesIndex(cmds, IndexKey(centre), members) && members != [] && n <= |cmds|
    ensures Read(ApplyAll(sets, cmds[..n]), IndexKey(c)) ==
              if n == |cmds| && c == centre then Elements(members) else Read(sets, IndexKey(c))
  {
    IndexKeysDiffer(c, centre);
    assert cmds[..|cmds|] == cmds;
    ReaderSeesOldOrNew(sets, cmds, IndexKey(centre), members, n);
  }

  /** After the first `n` commands centre `c`'s index is its old set or the whole new one, and
      after all of them the new one if `c` is among the centres written. */
  ghost predicate OldOrNew(sets: Sets, cmds: seq<Cmd>, rows: seq<Row>, order: seq<string>, n: nat, c: string)
    requires n <= |cmds|
  {
    var seen := Read(ApplyAll(sets, cmds[..n]), IndexKey(c));
    && (seen == Read(sets, IndexKey(c)) || (c in order && seen == Elements(IndexOf(rows, c))))
    && (n == |cmds| && c in order ==> seen == Elements(IndexOf(rows, c)))
  }

  lemma OneMoreIndex(sets: Sets, first: seq<Cmd>, second: seq<Cmd>, rows: seq<Row>, order: seq<string>, last: string,
                     n: nat, c: string)
    requires ReplacesIndex(second, IndexKey(last), IndexOf(rows, last)) && IndexOf(rows, last) != []
    requires OldOrNew(sets, first, rows, order, |first|, c) && n <= |second|
    ensures OldOrNew(sets, first + second, rows, order + [last], |first| + n, c)
  {
    var all := first + second;
    assert all[..|first| + n] == first + second[..n] && first[..|first|] == first;
    ApplyConcat(sets, first, second[..n]);
    DuringOneWrite(ApplyAll(sets, first), second, last, IndexOf(rows, last), n, c);
  }

  /** Throughout a refresh nobody else interferes with, whoever reads any centre's index sees
      the whole old set or the whole new one; at its end the centres of the list have the new
      set and all others, also those gone from the list, the one they had. */
  lemma {:induction false} WholeSetsOnly(sets: Sets, cmds: seq<Cmd>, rows: seq<Row>, order: seq<string>, n: nat,
                                         c: string)
    requires IndexWrites(cmds, rows, order) && n <= |cmds|
    requires forall d :: d in order ==> IndexOf(rows, d) != []
    ensures OldOrNew(sets, cmds, rows, order, n, c)
    decreases order
  {
    if order == [] {
      NothingWritten(sets, rows, c);
    } else {
      var k := LastIndexAt(cmds, rows, order);
      var m := if n < k then n else k;
      WholeSetsOnly(sets, cmds[..k], rows, order[..|order| - 1], m, c);
      LastIndexToo(sets, cmds, rows, order, k, n, c);
    }
  }

  lemma NothingWritten(sets: Sets, rows: seq<Row>, c: string)
    ensures OldOrNew(sets, [], rows, [], 0, c)
  {
    var none: seq<Cmd> := [];
    assert none[..0] == none;
  }

  lemma LastIndexToo(sets: Sets, cmds: seq<Cmd>, rows: seq<Row>, order: seq<string>, k: nat, n: nat, c: string)
    requires order != [] && IndexOf(rows, order[|order| - 1]) != [] && k < |cmds| && n <= |cmds|
    requires ReplacesIndex(cmds[k..], IndexKey(order[|order| - 1]), IndexOf(rows, order[|order| - 1]))
    requires OldOrNew(sets, cmds[..k], rows, order[..|order| - 1], if n < k then n else k, c)
    ensures OldOrNew(sets, cmds, rows, order, n, c)
  {
    var init, last := order[..|order| - 1], order[|order| - 1];
    assert init + [last] == order;
    if n < k {
      EarlierPrefix(sets, cmds, rows, init, last, k, n, c);
    } else {
      assert cmds[..k] + cmds[k..] == cmds;
      OneMoreIndex(sets, cmds[..k], cmds[k..], rows, init, last, n - k, c);
    }
  }

  lemma EarlierPrefix(sets: Sets, cmds: seq<Cmd>, rows: seq<Row>, order: seq<string>, last: string, k: nat, n: nat,
                      c: string)
    requires n < k < |cmds| && OldOrNew(sets, cmds[..k], rows, order, n, c)
    ensures OldOrNew(sets, cmds, rows, order + [last], n, c)
  {
    assert cmds[..k][..n] == cmds[..n];
  }

  lemma LastIndexAt(cmds: seq<Cmd>, rows: seq<Row>, order: seq<string>) returns (k: nat)
    requires IndexWrites(cmds, rows, order) && order != []
    ensures k < |cmds| && IndexWrites(cmds[..k], rows, order[..|order| - 1])
    ensures ReplacesIndex(cmds[k..], IndexKey(order[|order| - 1]), IndexOf(rows, order[|order| - 1]))
  {
    var last := order[|order| - 1];
    k :| 0 <= k <= |cmds| && ReplacesIndex(cmds[k..], IndexKey(last), IndexOf(rows, last))
         && IndexWrites(cmds[..k], rows, order[..|order| - 1]);
  }

  /** So after it a process of any centre on the list that syncs holds exactly the entries its
      own refresh would have cached, and one whose centre is gone keeps the entries it had. */
  lemma SyncGivesOwnCache(sets: Sets, cmds: seq<Cmd>, rows: seq<Row>, order: seq<string>, c: string)
    requires IndexWrites(cmds, rows, order) && Covers(rows, order)
    ensures Read(ApplyAll(sets, cmds), IndexKey(c)) == Replaced(sets, rows, map[], c)
  {
    assert cmds[..|cmds|] == cmds;
    WholeSetsOnly(sets, cmds, rows, order, |cmds|, c);
    assert OldOrNew(sets, cmds, rows, order, |cmds|, c);
    if IndexOf(rows, c) != [] {
      var m := IndexOf(rows, c)[0];
      IndexMembers(rows, c, m);
    }
  }

  // ---- The fleet --------------------------------------------------------------------

  /** `pending` are the index commands of a refresh that have not reached Redis yet. */
  datatype Proc = Proc(centre: string, cache: set<string>, pending: seq<Cmd>)

  /** `fetched` are the lists fetched so far, one of which a fallback returns. */
  datatype State = State(keys: set<string>, sets: Sets, procs: seq<Proc>, fetched: set<seq<string>>)

  datatype Action =
    | Refresh(i: nat, lines: seq<string>, order: seq<string>, cmds: seq<Cmd>)
    | Fallback(i: nat, lines: seq<string>)
    | Send(i: nat)
    | Break(i: nat)
    | Sync(i: nat)

  ghost predicate Enabled(s: State, a: Action) {
    && a.i < |s.procs| && s.procs[a.i].centre != ""
    && match a
       case Refresh(i, lines, order, cmds) =>
         s.procs[i].pending == [] && Covers(Rows(lines), order) && IndexWrites(cmds, Rows(lines), order)
       case Fallback(i, lines) => s.procs[i].pending == [] && lines in s.fetched
       case Send(i) => s.procs[i].pending != []
       case _ => true
  }

  function OwnEntries(lines: seq<string>, centre: string): set<string> { Elements(IndexOf(Rows(lines), centre)) }

  /** A refresh swaps the cache and writes the registry keys in one step. */
  function Apply(s: State, a: Action): State
    requires a.i < |s.procs| && (a.Send? ==> s.procs[a.i].pending != [])
  {
    var p := s.procs[a.i];
    match a
    case Refresh(i, lines, order, cmds) =>
      State(s.keys + KeysOf(PREFIX, Writes(Rows(lines))), s.sets,
            s.procs[i := Proc(p.centre, OwnEntries(lines, p.centre), cmds)], s.fetched + {lines})
    case Fallback(i, lines) => s.(procs := s.procs[i := p.(cache := OwnEntries(lines, p.centre))])
    case Send(i) =>
      s.(sets := Registry.Apply(s.sets, p.pending[0]), procs := s.procs[i := p.(pending := p.pending[1..])])
    case Break(i) => s.(procs := s.procs[i := p.(pending := [])])
    case Sync(i) =>
      var read := Read(s.sets, IndexKey(p.centre));
      if read == {} then s else s.(procs := s.procs[i := p.(cache := read)])
  }

  /** All that a process has still to send, with nobody else in between. */
  function SendAll(s: State, i: nat): State
    requires i < |s.procs|
    decreases |s.procs[i].pending|
  {
    if s.procs[i].pending == [] then s else SendAll(Apply(s, Send(i)), i)
  }

  lemma {:induction false} SendAllApplies(s: State, i: nat)
    requires i < |s.procs|
    ensures var p := s.procs[i];
            SendAll(s, i) == s.(sets := ApplyAll(s.sets, p.pending), procs := s.procs[i := p.(pending := [])])
    decreases |s.procs[i].pending|
  {
    var p := s.procs[i];
    if p.pending != [] {
      var first, rest := p.pending[0], p.pending[1..];
      SendAllApplies(Apply(s, Send(i)), i);
      assert [first] + rest == p.pending && [first][..0] == [];
      ApplyConcat(s.sets, [first], rest);
      assert ApplyAll(s.sets, [first]) == Registry.Apply(s.sets, first);
    }
  }

  /** An undisturbed refresh, and a sync, do to the shared keys and sets and to the cache what the
      methods of `GDCRegistry` do. */
  lemma RefreshIsRefresh(s: State, i: nat, lines: seq<string>, order: seq<string>, cmds: seq<Cmd>, c: string)
    requires Enabled(s, Refresh(i, lines, order, cmds))
    ensures var t := SendAll(Apply(s, Refresh(i, lines, order, cmds)), i);
            var rows, own := Rows(lines), s.procs[i].centre;
            && t.keys == s.keys + KeysOf(PREFIX, Writes(rows))
            && i < |t.procs| && t.procs[i] == Proc(own, Elements(IndexOf(rows, own)), [])
            && Read(t.sets, IndexKey(c)) == Replaced(s.sets, rows, map[], c)
  {
    SendAllApplies(Apply(s, Refresh(i, lines, order, cmds)), i);
    WholeSetsOnly(s.sets, cmds, Rows(lines), order, |cmds|, c);
    assert cmds[..|cmds|] == cmds;
    if c !in order && IndexOf(Rows(lines), c) != [] {
      IndexMembers(Rows(lines), c, IndexOf(Rows(lines), c)[0]);
    }
  }

  lemma SyncIsSync(s: State, i: nat, lines: seq<string>)
    requires i < |s.procs| && s.procs[i].centre != ""
    ensures var read := Read(s.sets, IndexKey(s.procs[i].centre));
            var cache := if read == {} then s.procs[i].cache else read;
            Apply(s, Sync(i)) == s.(procs := s.procs[i := s.procs[i].(cache := cache)])
    ensures var own := Elements(IndexOf(Rows(lines), s.procs[i].centre));
            Apply(s, Fallback(i, lines)) == s.(procs := s.procs[i := s.procs[i].(cache := own)])
  {
    assert s.procs[i := s.procs[i]] == s.procs;
  }

  ghost predicate Next(s: State, t: State) { exists a :: Enabled(s, a) && t == Apply(s, a) }

  ghost predicate Initial(s: State) {
    && s.keys == {} && s.sets == map[] && s.fetched == {}
    && forall i :: 0 <= i < |s.procs| ==> s.procs[i].cache == {} && s.procs[i].pending == []
  }

  ghost predicate IsRun(run: seq<State>) {
    |run| > 0 && Initial(run[0]) && forall i :: 0 < i < |run| ==> Next(run[i - 1], run[i])
  }

  /** What Has answers without a Redis error. */
  predicate Has(s: State, i: nat, id: string, topic: string)
    requires i < |s.procs|
  {
    var asked := Asked(id, topic, s.procs[i].centre);
    asked in s.procs[i].cache || PREFIX + asked in s.keys
  }

  // ---- Caches never run ahead of the registry ---------------------------------------

  /** An entry of an accepted line that has a centre and no topic. */
  predicate BareEntry(r: Row, m: string) {
    r.topic == "" && r.centre != "" && (m == Member(r.id, "") || m == Member(r.centre, ""))
  }

  ghost predicate FromBareLine(m: string, fetched: set<seq<string>>) {
    exists lines, r :: lines in fetched && r in Rows(lines) && BareEntry(r, m)
  }

  /** Registered, or the entry of a line without a topic. */
  ghost predicate Sound(m: string, keys: set<string>, fetched: set<seq<string>>) {
    PREFIX + m in keys || FromBareLine(m, fetched)
  }

  ghost predicate AllSound(ms: set<string>, keys: set<string>, fetched: set<seq<string>>) {
    forall m :: m in ms ==> Sound(m, keys, fetched)
  }

  /** All sets but those of the centre without a name, which no process reads. */
  predicate Cared(key: string) { key != IndexKey("") && key != Temp(IndexKey("")) }

  lemma CaredKeys(c: string)
    ensures c != "" ==> Cared(IndexKey(c)) && Cared(Temp(IndexKey(c)))
    ensures c == "" ==> !Cared(IndexKey(c)) && !Cared(Temp(IndexKey(c)))
  {
    IndexKeysDiffer(c, "");
    IndexKeysDiffer("", c);
    var a, b := IndexKey(c), IndexKey("");
    assert Temp(a)[..|Temp(a)| - 4] == a && Temp(b)[..|Temp(b)| - 4] == b;
  }

  ghost predicate CmdSound(cmd: Cmd, keys: set<string>, fetched: set<seq<string>>) {
    && (cmd.SAdd? && Cared(cmd.key) ==> AllSound(Elements(cmd.members), keys, fetched))
    && (cmd.Rename? && Cared(cmd.to) ==> Cared(cmd.key))
  }

  ghost predicate ListSound(lines: seq<string>, keys: set<string>, fetched: set<seq<string>>) {
    forall c :: c != "" ==> AllSound(Elements(IndexOf(Rows(lines), c)), keys, fetched)
  }

  ghost predicate ProcSound(p: Proc, keys: set<string>, fetched: set<seq<string>>) {
    AllSound(p.cache, keys, fetched) && forall k :: 0 <= k < |p.pending| ==> CmdSound(p.pending[k], keys, fetched)
  }

  ghost predicate SetsSound(sets: Sets, keys: set<string>, fetched: set<seq<string>>) {
    forall k :: k in sets && Cared(k) ==> AllSound(sets[k], keys, fetched)
  }

  ghost predicate Inv(s: State) {
    && (forall i :: 0 <= i < |s.procs| ==> ProcSound(s.procs[i], s.keys, s.fetched))
    && SetsSound(s.sets, s.keys, s.fetched)
    && (forall lines :: lines in s.fetched ==> ListSound(lines, s.keys, s.fetched))
  }

  lemma RowsGiveSound(lines: seq<string>, keys: set<string>, fetched: set<seq<string>>)
    requires KeysOf(PREFIX, Writes(Rows(lines))) <= keys && lines in fetched
    ensures ListSound(lines, keys, fetched)
  {
    var rows := Rows(lines);
    forall c, m | c != "" && m in Elements(IndexOf(rows, c)) ensures Sound(m, keys, fetched) {
      IndexMembers(rows, c, m);
      var r :| r in rows && r.centre == c && m in MembersOf(r);
      if r.topic == "" {
        assert BareEntry(r, m);
      } else {
        EntryIsRegistered(rows, r, r.id, keys);
        EntryIsRegistered(rows, r, r.centre, keys);
      }
    }
  }

  lemma EntryIsRegistered(rows: seq<Row>, r: Row, key: string, keys: set<string>)
    requires r in rows && (key == r.id || key == r.centre) && r.topic != "" && KeysOf(PREFIX, Writes(rows)) <= keys
    ensures PREFIX + Member(key, r.topic) in keys
  {
    var e := Entry(key, r.topic);
    assert e in EntriesOf(r);
    WrittenEntries(rows, e);
    KeyOfMember(key, r.topic);
    assert KeyOf(PREFIX, e) in KeysOf(PREFIX, Writes(rows));
  }

  lemma {:induction false} AddedIsOurs(cmds: seq<Cmd>, keys: set<string>, fetched: set<seq<string>>, k: nat)
    requires AllSound(Elements(Added(cmds)), keys, fetched) && k < |cmds| && cmds[k].SAdd?
    ensures AllSound(Elements(cmds[k].members), keys, fetched)
  {
    var init, last := cmds[..|cmds| - 1], cmds[|cmds| - 1];
    if k == |init| {
      forall m | m in Elements(last.members) ensures Sound(m, keys, fetched) {
        assert m in Elements(Added(cmds));
      }
    } else {
      forall m | m in Elements(Added(init)) ensures Sound(m, keys, fetched) {
        assert m in Elements(Added(cmds));
      }
      AddedIsOurs(init, keys, fetched, k);
    }
  }

  lemma ReplacementIsSound(cmds: seq<Cmd>, c: string, members: seq<string>, keys: set<string>,
                           fetched: set<seq<string>>)
    requires ReplacesIndex(cmds, IndexKey(c), members) && (c != "" ==> AllSound(Elements(members), keys, fetched))
    ensures forall k :: 0 <= k < |cmds| ==> CmdSound(cmds[k], keys, fetched)
  {
    var inner := cmds[1..|cmds| - 2];
    CaredKeys(c);
    forall k | 0 <= k < |cmds| ensures CmdSound(cmds[k], keys, fetched) {
      if 1 <= k < |cmds| - 2 {
        assert IsChunk(cmds[k], Temp(IndexKey(c))) && cmds[k] == inner[k - 1];
        if c != "" {
          AddedIsOurs(inner, keys, fetched, k - 1);
        }
      }
    }
  }

  lemma {:induction false} RefreshIsSound(cmds: seq<Cmd>, lines: seq<string>, order: seq<string>, keys: set<string>,
                                          fetched: set<seq<string>>)
    requires IndexWrites(cmds, Rows(lines), order) && ListSound(lines, keys, fetched)
    ensures forall k :: 0 <= k < |cmds| ==> CmdSound(cmds[k], keys, fetched)
    decreases order
  {
    if order != [] {
      var rows, init, last := Rows(lines), order[..|order| - 1], order[|order| - 1];
      var n := LastIndexAt(cmds, rows, order);
      RefreshIsSound(cmds[..n], lines, init, keys, fetched);
      ReplacementIsSound(cmds[n..], last, IndexOf(rows, last), keys, fetched);
      forall k | 0 <= k < |cmds| ensures CmdSound(cmds[k], keys, fetched) {
        assert cmds[k] == if k < n then cmds[..n][k] else cmds[n..][k - n];
      }
    }
  }

  lemma SoundGrows(m: string, keys: set<string>, fetched: set<seq<string>>, more: set<string>, later: set<seq<string>>)
    requires keys <= more && fetched <= later && Sound(m, keys, fetched)
    ensures Sound(m, more, later)
  {
    if FromBareLine(m, fetched) {
      var lines, r :| lines in fetched && r in Rows(lines) && BareEntry(r, m);
      assert lines in later;
    }
  }

  /** Keys and fetched lists are only ever added. */
  lemma InvGrows(s: State, keys: set<string>, fetched: set<seq<string>>)
    requires Inv(s) && s.keys <= keys && s.fetched <= fetched
    ensures forall i :: 0 <= i < |s.procs| ==> ProcSound(s.procs[i], keys, fetched)
    ensures SetsSound(s.sets, keys, fetched)
    ensures forall lines :: lines in s.fetched ==> ListSound(lines, keys, fetched)
  {
    forall m | Sound(m, s.keys, s.fetched) ensures Sound(m, keys, fetched) {
      SoundGrows(m, s.keys, s.fetched, keys, fetched);
    }
    forall i | 0 <= i < |s.procs| ensures ProcSound(s.procs[i], keys, fetched) {
      assert ProcSound(s.procs[i], s.keys, s.fetched);
      forall k | 0 <= k < |s.procs[i].pending| ensures CmdSound(s.procs[i].pending[k], keys, fetched) {
        assert CmdSound(s.procs[i].pending[k], s.keys, s.fetched);
      }
    }
    forall lines | lines in s.fetched ensures ListSound(lines, keys, fetched) {
      assert ListSound(lines, s.keys, s.fetched);
    }
  }

  lemma SendKeepsSets(sets: Sets, cmd: Cmd, keys: set<string>, fetched: set<seq<string>>)
    requires SetsSound(sets, keys, fetched) && CmdSound(cmd, keys, fetched)
    ensures SetsSound(Registry.Apply(sets, cmd), keys, fetched)
  {
  }

  lemma StepKeepsInv(s: State, a: Action)
    requires Inv(s) && Enabled(s, a)
    ensures Inv(Apply(s, a)) && s.keys <= Apply(s, a).keys && s.fetched <= Apply(s, a).fetched
  {
    var t := Apply(s, a);
    var p := s.procs[a.i];
    InvGrows(s, t.keys, t.fetched);
    assert ProcSound(p, t.keys, t.fetched);
    match a {
      case Refresh(i, lines, order, cmds) =>
        RowsGiveSound(lines, t.keys, t.fetched);
        RefreshIsSound(cmds, lines, order, t.keys, t.fetched);
        assert ProcSound(t.procs[i], t.keys, t.fetched);
      case Fallback(i, lines) =>
        assert ListSound(lines, t.keys, t.fetched);
        assert ProcSound(t.procs[i], t.keys, t.fetched);
      case Send(i) =>
        assert CmdSound(p.pending[0], t.keys, t.fetched);
        SendKeepsSets(s.sets, p.pending[0], t.keys, t.fetched);
        assert ProcSound(t.procs[i], t.keys, t.fetched);
      case Break(i) =>
        assert ProcSound(t.procs[i], t.keys, t.fetched);
      case Sync(i) =>
        CaredKeys(p.centre);
        assert ProcSound(t.procs[i], t.keys, t.fetched);
    }
  }

  lemma {:induction false} RunKeepsInv(run: seq<State>, n: nat)
    requires IsRun(run) && n < |run|
    ensures Inv(run[n])
  {
    if n > 0 {
      RunKeepsInv(run, n - 1);
      assert Next(run[n - 1], run[n]);
      var a :| Enabled(run[n - 1], a) && run[n] == Apply(run[n - 1], a);
      StepKeepsInv(run[n - 1], a);
    }
  }

  ghost predicate HasAgrees(s: State, i: nat, id: string, topic: string)
    requires i < |s.procs|
  {
    Has(s, i, id, topic) <==> PREFIX + Asked(id, topic, s.procs[i].centre) in s.keys
  }

  /** In every reachable state, however index writes interleave, break off or mix, the cached
      check answers what a plain EXISTS on the shared key would, unless what was asked is the
      entry of an accepted line, of a list fetched so far, that has no topic. */
  lemma HasIsExistsButForBareLines(run: seq<State>, n: nat, i: nat, id: string, topic: string)
    requires IsRun(run) && n < |run| && i < |run[n].procs|
    ensures HasAgrees(run[n], i, id, topic) || FromBareLine(Asked(id, topic, run[n].procs[i].centre), run[n].fetched)
  {
    RunKeepsInv(run, n);
    assert ProcSound(run[n].procs[i], run[n].keys, run[n].fetched);
  }

  /** So for every topic that is not empty and does not end in a colon, on any lists. */
  lemma HasIsExists(run: seq<State>, n: nat, i: nat, id: string, topic: string)
    requires IsRun(run) && n < |run| && i < |run[n].procs|
    requires topic != "" && topic[|topic| - 1] != ':'
    ensures Has(run[n], i, id, topic) <==> PREFIX + Asked(id, topic, run[n].procs[i].centre) in run[n].keys
  {
    HasIsExistsButForBareLines(run, n, i, id, topic);
    var asked := Asked(id, topic, run[n].procs[i].centre);
    assert asked[|asked| - 1] == topic[|topic| - 1];
  }

  // ---- On which lists it always does ------------------------------------------------

  /** Every accepted line with a centre has a topic. */
  ghost predicate Topical(lines: seq<string>) {
    forall r :: r in Rows(lines) && r.centre != "" ==> r.topic != ""
  }

  ghost predicate AskedIn(run: seq<State>, lists: set<seq<string>>, n: nat, i: nat) {
    IsRun(run) && n < |run| && i < |run[n].procs| && run[n].fetched <= lists
  }

  /** In every run that fetches only these lists, every process at every moment answers every
      question as EXISTS would. */
  ghost predicate AlwaysAgrees(lists: set<seq<string>>) {
    forall run, n, i, id, topic :: AskedIn(run, lists, n, i) ==> HasAgrees(run[n], i, id, topic)
  }

  /** That is so if and only if every accepted line of each of them has a topic. */
  lemma AgreesExactly(lists: set<seq<string>>)
    ensures AlwaysAgrees(lists) <==> forall lines :: lines in lists ==> Topical(lines)
  {
    if lines :| lines in lists && !Topical(lines) {
      var r :| r in Rows(lines) && r.centre != "" && r.topic == "";
      var run := BareLineIsBelieved(lines, r);
      assert AskedIn(run, lists, 1, 0) && !HasAgrees(run[1], 0, "", "");
    } else {
      forall run: seq<State>, n: nat, i: nat, id: string, topic: string | AskedIn(run, lists, n, i)
        ensures HasAgrees(run[n], i, id, topic)
      {
        HasIsExistsButForBareLines(run, n, i, id, topic);
      }
    }
  }

  // ---- Why the assumptions are there ------------------------------------------------

  /** The commands of one writer between the first and the last two, and those two. */
  function Chunks(cmds: seq<Cmd>): seq<Cmd>
    requires |cmds| >= 3
  {
    cmds[1..|cmds| - 2]
  }

  function Finish(cmds: seq<Cmd>): seq<Cmd>
    requires |cmds| >= 3
  {
    cmds[|cmds| - 2..]
  }

  ghost predicate AreChunks(cmds: seq<Cmd>, temp: string) {
    forall i :: 0 <= i < |cmds| ==> IsChunk(cmds[i], temp)
  }

  lemma {:induction false} ChunksAdd(sets: Sets, now: Sets, chunks: seq<Cmd>, temp: string, added: seq<string>,
                                     any: bool)
    requires HalfWritten(sets, now, temp, added, any) && AreChunks(chunks, temp)
    ensures HalfWritten(sets, ApplyAll(now, chunks), temp, added + Added(chunks), any || chunks != [])
  {
    if chunks == [] {
      assert added + [] == added;
    } else {
      var init, last := chunks[..|chunks| - 1], chunks[|chunks| - 1];
      ChunksAdd(sets, now, init, temp, added, any);
      ChunkAdds(sets, ApplyAll(now, init), last, temp, added + Added(init), any || init != []);
      assert added + Added(init) + last.members == added + (Added(init) + last.members);
    }
  }

  lemma WriterShape(cmds: seq<Cmd>, key: string, members: seq<string>)
    requires ReplacesIndex(cmds, key, members)
    ensures cmds[0] == Del(Temp(key)) && Finish(cmds) == [Expire(Temp(key)), Rename(Temp(key), key)]
    ensures AreChunks(Chunks(cmds), Temp(key)) && Added(Chunks(cmds)) == members
    ensures members != [] ==> Chunks(cmds) != []
  {
    AnyAdded(cmds, key, members);
  }

  lemma FinishIs(now: Sets, key: string)
    ensures var temp := Temp(key);
            ApplyAll(now, [Expire(temp), Rename(temp, key)]) == Registry.Apply(now, Rename(temp, key))
  {
    var cmds := [Expire(Temp(key)), Rename(Temp(key), key)];
    assert cmds[..1] == [cmds[0]] && [cmds[0]][..0] == [];
    assert ApplyAll(now, cmds[..1]) == now;
  }

  lemma DelClears(sets: Sets, now: Sets, temp: string, added: seq<string>, any: bool)
    requires HalfWritten(sets, now, temp, added, any)
    ensures HalfWritten(sets, ApplyAll(now, [Del(temp)]), temp, [], false)
  {
    assert [Del(temp)][..0] == [];
    forall k | k != temp ensures Read(now - {temp}, k) == Read(sets, k) {
      assert Read(now, k) == Read(sets, k);
    }
  }

  /** One writer clears the shared temporary key before the other fills it, and the other moves
      it over with the chunks of both. */
  function Overlap(a: seq<Cmd>, b: seq<Cmd>): seq<Cmd>
    requires |a| >= 3 && |b| >= 3
  {
    [a[0]] + [b[0]] + Chunks(a) + Chunks(b) + Finish(a)
  }

  /** Two writers of one index, whatever the keyspace and their non-empty lists, can leave readers
      the union, which is neither of the two sets unless one contains the other; what the
      second writer has still to do changes nothing. The temporary key is shared. */
  lemma TwoWritersMix(sets: Sets, key: string, a: seq<Cmd>, xs: seq<string>, b: seq<Cmd>, ys: seq<string>)
    requires ReplacesIndex(a, key, xs) && ReplacesIndex(b, key, ys) && xs != [] && ys != []
    ensures var after := ApplyAll(sets, Overlap(a, b));
            && Read(after, key) == Elements(xs) + Elements(ys)
            && (Read(after, key) == Elements(xs) <==> Elements(ys) <= Elements(xs))
            && (Read(after, key) == Elements(ys) <==> Elements(xs) <= Elements(ys))
            && ApplyAll(after, Finish(b)) == after
  {
    var temp := Temp(key);
    WriterShape(a, key, xs);
    WriterShape(b, key, ys);
    var s1 := ApplyAll(sets, [a[0]]);
    var s2 := ApplyAll(s1, [b[0]]);
    var s3 := ApplyAll(s2, Chunks(a));
    var s4 := ApplyAll(s3, Chunks(b));
    var s5 := ApplyAll(s4, Finish(a));
    assert ApplyAll(sets, Overlap(a, b)) == s5 by {
      ApplyConcat(sets, [a[0]], [b[0]]);
      ApplyConcat(sets, [a[0]] + [b[0]], Chunks(a));
      ApplyConcat(sets, [a[0]] + [b[0]] + Chunks(a), Chunks(b));
      ApplyConcat(sets, [a[0]] + [b[0]] + Chunks(a) + Chunks(b), Finish(a));
    }
    BothCleared(sets, temp);
    ChunksAdd(sets, s2, Chunks(a), temp, [], false);
    ChunksAdd(sets, s3, Chunks(b), temp, [] + xs, true);
    FinishIs(s4, key);
    MovesOver(sets, s4, key, [] + xs + ys, true);
    assert Elements([] + xs + ys) == Elements(xs) + Elements(ys);
    FinishIs(s5, key);
  }

  lemma BothCleared(sets: Sets, temp: string)
    ensures HalfWritten(sets, ApplyAll(ApplyAll(sets, [Del(temp)]), [Del(temp)]), temp, [], false)
  {
    assert [Del(temp)][..0] == [];
  }

  /** The second writer clears the temporary key behind the first and has filled it up to its
      n-th command when the first moves it over. */
  function CutShort(a: seq<Cmd>, b: seq<Cmd>, n: nat): seq<Cmd>
    requires |a| >= 3 && 1 < n <= |b| - 2
  {
    a[..|a| - 2] + [b[0]] + b[1..n] + Finish(a)
  }

  /** Containment does not help: two writers, of one and the same list even, can leave readers
      half of it, as many chunks as were written, and then the other half for good. */
  lemma TwoWritersSplit(sets: Sets, key: string, a: seq<Cmd>, xs: seq<string>, b: seq<Cmd>, ys: seq<string>, n: nat)
    requires ReplacesIndex(a, key, xs) && ReplacesIndex(b, key, ys) && 1 < n < |b| - 2
    ensures var half := ApplyAll(sets, CutShort(a, b, n));
            && Read(half, key) == Elements(Added(b[1..n]))
            && Read(ApplyAll(half, b[n..]), key) == Elements(Added(b[n..|b| - 2]))
            && ys == Added(b[1..n]) + Added(b[n..|b| - 2])
  {
    HalfFilled(sets, key, a, xs, b, ys, n);
    ApplyConcat(sets, a[..|a| - 2] + [b[0]] + b[1..n], Finish(a));
    HalfMoves(sets, ApplyAll(sets, a[..|a| - 2] + [b[0]] + b[1..n]), key, a, xs, Added(b[1..n]));
    RestMoves(ApplyAll(sets, CutShort(a, b, n)), key, b, ys, n);
    TwoHalves(b, key, ys, n);
  }

  lemma TwoHalves(b: seq<Cmd>, key: string, ys: seq<string>, n: nat)
    requires ReplacesIndex(b, key, ys) && 1 < n < |b| - 2
    ensures ys == Added(b[1..n]) + Added(b[n..|b| - 2])
  {
    assert Chunks(b) == b[1..n] + b[n..|b| - 2];
    AddedConcat(b[1..n], b[n..|b| - 2]);
  }

  lemma HalfMoves(sets: Sets, filled: Sets, key: string, a: seq<Cmd>, xs: seq<string>, added: seq<string>)
    requires ReplacesIndex(a, key, xs) && HalfWritten(sets, filled, Temp(key), added, true)
    ensures var half := ApplyAll(filled, Finish(a));
            Read(half, key) == Elements(added) && HalfWritten(half, half, Temp(key), [], false)
  {
    WriterShape(a, key, xs);
    FinishIs(filled, key);
    MovesOver(sets, filled, key, added, true);
  }

  lemma HalfFilled(sets: Sets, key: string, a: seq<Cmd>, xs: seq<string>, b: seq<Cmd>, ys: seq<string>, n: nat)
    requires ReplacesIndex(a, key, xs) && ReplacesIndex(b, key, ys) && 1 < n < |b| - 2
    ensures HalfWritten(sets, ApplyAll(sets, a[..|a| - 2] + [b[0]] + b[1..n]), Temp(key), Added(b[1..n]), true)
  {
    var temp := Temp(key);
    WriterShape(b, key, ys);
    var s1 := ApplyAll(sets, a[..|a| - 2]);
    var s2 := ApplyAll(s1, [b[0]]);
    ApplyConcat(sets, a[..|a| - 2], [b[0]]);
    ApplyConcat(sets, a[..|a| - 2] + [b[0]], b[1..n]);
    FillsTemp(sets, a, key, xs, |a| - 2);
    DelClears(sets, s1, temp, Added(a[1..|a| - 2]), |a| - 2 > 1);
    ChunksAdd(sets, s2, b[1..n], temp, [], false);
    assert [] + Added(b[1..n]) == Added(b[1..n]);
  }

  lemma RestMoves(half: Sets, key: string, b: seq<Cmd>, ys: seq<string>, n: nat)
    requires ReplacesIndex(b, key, ys) && 1 < n < |b| - 2 && HalfWritten(half, half, Temp(key), [], false)
    ensures Read(ApplyAll(half, b[n..]), key) == Elements(Added(b[n..|b| - 2]))
  {
    WriterShape(b, key, ys);
    var rest := b[n..|b| - 2];
    assert b[n..] == rest + Finish(b);
    ApplyConcat(half, rest, Finish(b));
    ChunksAdd(half, half, rest, Temp(key), [], false);
    assert [] + Added(rest) == Added(rest);
    FinishIs(ApplyAll(half, rest), key);
    MovesOver(half, ApplyAll(half, rest), key, Added(rest), true);
  }

  lemma {:induction false} AddedConcat(a: seq<Cmd>, b: seq<Cmd>)
    ensures Added(a + b) == Added(a) + Added(b)
  {
    if b == [] {
      assert a + b == a;
    } else {
      assert (a + b)[..|a + b| - 1] == a + b[..|b| - 1];
      AddedConcat(a, b[..|b| - 1]);
    }
  }

  // ---- Lines without a topic --------------------------------------------------------

  lemma {:induction false} SinglesAdd(temp: string, members: seq<string>)
    ensures var singles := seq(|members|, i requires 0 <= i < |members| => SAdd(temp, [members[i]]));
            Added(singles) == members
  {
    if members != [] {
      var n := |members| - 1;
      var singles := seq(|members|, i requires 0 <= i < |members| => SAdd(temp, [members[i]]));
      SinglesAdd(temp, members[..n]);
      assert singles[..n] == seq(n, i requires 0 <= i < n => SAdd(temp, [members[..n][i]]));
      assert members == members[..n] + [members[n]];
    }
  }

  lemma SomeReplacement(key: string, members: seq<string>) returns (cmds: seq<Cmd>)
    ensures ReplacesIndex(cmds, key, members)
  {
    var singles := seq(|members|, i requires 0 <= i < |members| => SAdd(Temp(key), [members[i]]));
    SinglesAdd(Temp(key), members);
    cmds := [Del(Temp(key))] + singles + [Expire(Temp(key)), Rename(Temp(key), key)];
    assert cmds[1..|cmds| - 2] == singles;
  }

  lemma {:induction false} SomeWrites(rows: seq<Row>, order: seq<string>) returns (cmds: seq<Cmd>)
    ensures IndexWrites(cmds, rows, order)
  {
    if order == [] {
      cmds := [];
    } else {
      var init, last := order[..|order| - 1], order[|order| - 1];
      var first := SomeWrites(rows, init);
      var second := SomeReplacement(IndexKey(last), IndexOf(rows, last));
      cmds := first + second;
      assert cmds[..|first|] == first && cmds[|first|..] == second;
    }
  }

  lemma IndexOfIsNotEmpty(rows: seq<Row>, r: Row)
    requires r in rows
    ensures IndexOf(rows, r.centre) != []
  {
    assert Member(r.id, r.topic) in MembersOf(r);
    IndexMembers(rows, r.centre, Member(r.id, r.topic));
  }

  /** The centres of a list, each once. */
  lemma {:induction false} SomeOrder(rows: seq<Row>, n: nat) returns (order: seq<string>)
    requires n <= |rows|
    ensures forall i :: 0 <= i < n ==> rows[i].centre in order
    ensures forall c :: c in order ==> IndexOf(rows, c) != []
    ensures forall i, j :: 0 <= i < j < |order| ==> order[i] != order[j]
  {
    if n == 0 {
      order := [];
    } else {
      order := SomeOrder(rows, n - 1);
      IndexOfIsNotEmpty(rows, rows[n - 1]);
      if rows[n - 1].centre !in order {
        order := order + [rows[n - 1].centre];
      }
    }
  }

  /** One process of a centre refreshes from a list, first of all. */
  lemma FirstRefresh(lines: seq<string>, centre: string) returns (run: seq<State>)
    requires centre != ""
    ensures IsRun(run) && |run| == 2 && |run[1].procs| == 1 && run[1].procs[0].centre == centre
    ensures run[1].procs[0].cache == OwnEntries(lines, centre) && run[1].fetched == {lines}
    ensures run[1].keys == KeysOf(PREFIX, Writes(Rows(lines)))
  {
    var rows := Rows(lines);
    var order := SomeOrder(rows, |rows|);
    assert Covers(rows, order);
    var cmds := SomeWrites(rows, order);
    var s := State({}, map[], [Proc(centre, {}, [])], {});
    var a := Refresh(0, lines, order, cmds);
    assert Enabled(s, a);
    run := [s, Apply(s, a)];
    assert Next(s, run[1]);
  }

  lemma BareIsCached(lines: seq<string>, r: Row, m: string)
    requires r in Rows(lines) && BareEntry(r, m)
    ensures m in OwnEntries(lines, r.centre)
  {
    assert m in MembersOf(r);
    IndexMembers(Rows(lines), r.centre, m);
  }

  /** The key the bare centre would be asked under is not written by any line. */
  lemma CentreWithColonIsNoKey(rows: seq<Row>, c: string, e: Entry)
    requires ':' !in c && e in Writes(rows)
    requires forall r :: r in rows ==> ':' !in r.centre && |Split(r.id, ':')| >= 4
    ensures KeyOf(PREFIX, e) != PREFIX + Member(c, "")
  {
    WrittenEntries(rows, e);
    var r :| r in rows && e in EntriesOf(r);
    var rest := e.key + if e.topic != "" then ":" + e.topic else "";
    assert KeyOf(PREFIX, e)[|PREFIX|..] == rest && (PREFIX + Member(c, ""))[|PREFIX|..] == Member(c, "");
    SplitAt(c, ':', "");
    assert Member(c, "") == c + [':'] + "";
    assert Member(c, "")[|c|] == ':' && forall i :: 0 <= i < |c| ==> Member(c, "")[i] == c[i];
    if e.topic != "" {
      assert rest[|e.key|] == ':' && |rest| > |e.key| + 1;
    } else {
      assert rest == e.key;
    }
  }

  /** Any list with an accepted line that has a centre and no topic: a process of that centre
      answers yes where EXISTS says no. */
  lemma BareLineIsBelieved(lines: seq<string>, r: Row) returns (run: seq<State>)
    requires r in Rows(lines) && r.centre != "" && r.topic == ""
    ensures IsRun(run) && |run| == 2 && |run[1].procs| == 1 && run[1].fetched == {lines}
    ensures run[1].procs[0].centre == r.centre && Has(run[1], 0, "", "") && !HasAgrees(run[1], 0, "", "")
  {
    run := FirstRefresh(lines, r.centre);
    BareIsCached(lines, r, Member(r.centre, ""));
    RowsAreAccepted(lines);
    forall e | e in Writes(Rows(lines)) ensures KeyOf(PREFIX, e) != PREFIX + Member(r.centre, "") {
      CentreWithColonIsNoKey(Rows(lines), r.centre, e);
    }
  }

  /** The same list asked with a topic that ends in a colon: any way of cutting the id of such a
      line in two at a colon gives an id and a topic the process believes; EXISTS agrees only
      if another line registered that very pair. */
  lemma CutIdIsBelieved(lines: seq<string>, r: Row, id: string, topic: string) returns (run: seq<State>)
    requires r in Rows(lines) && r.centre != "" && r.topic == ""
    requires id != "" && Member(id, topic) == Member(r.id, "")
    ensures IsRun(run) && |run| == 2 && |run[1].procs| == 1 && run[1].fetched == {lines}
    ensures run[1].procs[0].centre == r.centre && Has(run[1], 0, id, topic)
    ensures HasAgrees(run[1], 0, id, topic) <==> PREFIX + Member(id, topic) in KeysOf(PREFIX, Writes(Rows(lines)))
  {
    run := FirstRefresh(lines, r.centre);
    BareIsCached(lines, r, Member(r.id, ""));
  }

  /** One such list and one such question. */
  lemma ColonTopicIsBelieved() returns (run: seq<State>)
    ensures IsRun(run) && |run| == 2 && |run[1].procs| == 1 && run[1].fetched == {[":::c," + ""]}
    ensures Has(run[1], 0, "::", "c:") && !HasAgrees(run[1], 0, "::", "c:")
  {
    var r := Row(":::c", "", "c");
    OneRow("");
    assert Member("::", "c:") == Member(":::c", "");
    run := CutIdIsBelieved([":::c," + ""], r, "::", "c:");
    IdWithColonIsNoKey(r);
  }

  lemma IdWithColonIsNoKey(r: Row)
    requires r.topic == "" && |r.centre| <= |r.id|
    ensures PREFIX + Member(r.id, "") !in KeysOf(PREFIX, Writes([r]))
  {
    OneRowWrites(r);
    forall e | e in EntriesOf(r) ensures KeyOf(PREFIX, e) != PREFIX + Member(r.id, "") {
      assert |KeyOf(PREFIX, e)| == |PREFIX| + |e.key|;
    }
  }

  lemma SplitId()
    ensures Split(":::c", ':') == ["", "", "", "c"]
  {
    SplitAt("", ':', "::c");
    SplitAt("", ':', ":c");
    SplitAt("", ':', "c");
    SplitAt("c", ':', "");
    assert ":::c" == "" + [':'] + "::c" && "::c" == "" + [':'] + ":c" && ":c" == "" + [':'] + "c";
  }

  lemma ParsedLine(line: string, id: string, topic: string)
    requires line == id + [','] + topic && ',' !in id && Trimmed(line)
    requires |Split(id, ':')| >= 4
    ensures ParseLine(line) == Some(Row(id, topic, Split(id, ':')[3]))
  {
    TrimSpaceTrims(line);
    CutAt(id, ',', topic);
  }

  lemma OneLine(line: string, row: Row)
    requires ParseLine(line) == Some(row)
    ensures Rows([line]) == [row]
  {
    var lines := [line];
    assert lines[..0] == [] && Rows(lines[..0]) == [];
  }

  /** What the line ":::c," followed by a topic says. */
  lemma OneRow(topic: string)
    requires topic == "" || !IsSpace(topic[|topic| - 1])
    ensures Rows([":::c," + topic]) == [Row(":::c", topic, "c")]
  {
    var line := ":::c," + topic;
    SplitId();
    assert line == ":::c" + [','] + topic;
    ParsedLine(line, ":::c", topic);
    OneLine(line, Row(":::c", topic, "c"));
  }

  lemma OneRowWrites(r: Row)
    ensures IndexOf([r], r.centre) == MembersOf(r) && Writes([r]) == EntriesOf(r)
  {
    var rows := [r];
    assert rows[..0] == [];
  }

  /** For instance the shortest such line. */
  lemma EmptyTopicIsBelieved() returns (run: seq<State>)
    ensures IsRun(run) && |run| == 2 && |run[1].procs| == 1 && run[1].fetched == {[":::c," + ""]}
    ensures Has(run[1], 0, "", "") && !HasAgrees(run[1], 0, "", "")
  {
    OneRow("");
    run := BareLineIsBelieved([":::c," + ""], Row(":::c", "", "c"));
  }

  /** With a topic: the registry write fails on its first SET, the cache is swapped all the
      same, and says yes where EXISTS says no. So does a cache that outlives its key. */
  method FailedWriteIsBelieved(expire: bool) returns (has: bool, there: bool)
    ensures has && !there
  {
    var store := new Store();
    var registry := new GDCRegistry(true, "c");
    OneRow("t");
    OneRowWrites(Row(":::c", "t", "c"));
    var armed := registry.Refresh(store, false, List([":::c," + "t"], false), if expire then 2 else 0, map[]);
    if expire {
      store.keys := {};
    }
    assert Member("c", "t") in MembersOf(Row(":::c", "t", "c"));
    has := registry.Has(store, "", "t", false);
    there := PREFIX + Asked("", "t", "c") in store.keys;
  }
}
