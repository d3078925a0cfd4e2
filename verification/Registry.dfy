/** The metadata registry of the Global Discovery Catalogue (internal/allowlist): reading the
    CSV list, the shared keys and per-centre index sets it writes to Redis, and the check
    against them.

    A line of the list names a metadata id and a topic; the fourth part of the id is its centre.
    Every accepted line gives two entries, one under the id and one under the centre. Entries go
    to Redis twice: as one key each, with an expiry, which `Has` asks for when its own cache has
    no answer, and as members of one set per centre, from which a process that could not fetch
    the list rebuilds its cache. A set is replaced by filling a temporary key in chunks and
    renaming it. Keys and members are spelled differently when a topic is empty, and that one
    difference is where the two can disagree. */
module Registry {
  import opened Options
  import opened Strings

  /** An accepted line of the list. */
  datatype Row = Row(id: string, topic: string, centre: string)

  /** redisEntry. */
  datatype Entry = Entry(key: string, topic: string)

  const PREFIX := "metadata_id:"
  const BATCH := 500

  // ---- Reading the list -------------------------------------------------------------

  function ParseLine(text: string): (row: Option<Row>)
    ensures row.Some? ==> ':' in row.value.id && ':' !in row.value.centre && |Split(row.value.id, ':')| >= 4
  {
    var line := TrimSpace(text);
    match Cut(line, ',')
    case None => None
    case Some((id, topic)) =>
      var parts := Split(id, ':');
      if |parts| < 4 then None
      else
        SplitParts(id, ':');
        ColonInId(id);
        Some(Row(id, topic, parts[3]))
  }

  /** Exactly which lines are accepted, and as what: white space around the line does not count, the
      id ends at the first comma, and its fourth part is the centre. */
  lemma LineAt(pre: string, id: string, topic: string, post: string)
    requires Blank(pre) && Blank(post) && ',' !in id && Trimmed(id + [','] + topic)
    ensures var parts := Split(id, ':');
            ParseLine(pre + (id + [','] + topic) + post) == if |parts| < 4 then None else Some(Row(id, topic, parts[3]))
  {
    TrimSpaceAround(pre, id + [','] + topic, post);
    CutAt(id, ',', topic);
  }

  lemma FourthPart(a: string, b: string, c: string, centre: string, rest: string)
    requires ':' !in a && ':' !in b && ':' !in c && ':' !in centre
    ensures var id := a + [':'] + (b + [':'] + (c + [':'] + centre));
            |Split(id, ':')| == 4 && Split(id, ':')[3] == centre
    ensures var id := a + [':'] + (b + [':'] + (c + [':'] + (centre + [':'] + rest)));
            |Split(id, ':')| > 4 && Split(id, ':')[3] == centre
  {
    SplitAt(a, ':', b + [':'] + (c + [':'] + centre));
    SplitAt(b, ':', c + [':'] + centre);
    SplitAt(c, ':', centre);
    SplitAt(centre, ':', rest);
    SplitAt(a, ':', b + [':'] + (c + [':'] + (centre + [':'] + rest)));
    SplitAt(b, ':', c + [':'] + (centre + [':'] + rest));
    SplitAt(c, ':', centre + [':'] + rest);
  }

  lemma {:induction false} ColonInId(id: string)
    requires |Split(id, ':')| >= 2
    ensures ':' in id
  {
    if id[0] != ':' {
      ColonInId(id[1..]);
    }
  }

  function Rows(lines: seq<string>): seq<Row> {
    if lines == [] then [] else Extended(Rows(lines[..|lines| - 1]), ParseLine(lines[|lines| - 1]))
  }

  function Extended(rows: seq<Row>, row: Option<Row>): seq<Row> {
    match row
    case None => rows
    case Some(r) => rows + [r]
  }

  lemma {:induction false} RowsAreAccepted(lines: seq<string>)
    ensures forall r :: r in Rows(lines) ==> ':' !in r.centre && |Split(r.id, ':')| >= 4
  {
    if lines != [] {
      RowsAreAccepted(lines[..|lines| - 1]);
    }
  }

  function Member(key: string, topic: string): string { key + ":" + topic }

  /** The two composite entries a row contributes to its centre's index. */
  function MembersOf(row: Row): seq<string> { [Member(row.id, row.topic), Member(row.centre, row.topic)] }

  function EntriesOf(row: Row): seq<Entry> { [Entry(row.id, row.topic), Entry(row.centre, row.topic)] }

  function Writes(rows: seq<Row>): seq<Entry> {
    if rows == [] then [] else Writes(rows[..|rows| - 1]) + EntriesOf(rows[|rows| - 1])
  }

  function IndexOf(rows: seq<Row>, centre: string): seq<string> {
    if rows == [] then []
    else
      var last := rows[|rows| - 1];
      IndexOf(rows[..|rows| - 1], centre) + if last.centre == centre then MembersOf(last) else []
  }

  function Elements(s: seq<string>): set<string> { set x | x in s }

  /** The key a registry entry is stored under: without a colon when there is no topic. */
  function KeyOf(prefix: string, e: Entry): string {
    prefix + e.key + if e.topic != "" then ":" + e.topic else ""
  }

  function KeysOf(prefix: string, entries: seq<Entry>): set<string> { set e | e in entries :: KeyOf(prefix, e) }

  function Filing(index: map<string, seq<string>>, centre: string): seq<string> {
    if centre in index then index[centre] else []
  }

  /** `index` files the entries of `rows` under their centres. */
  ghost predicate Filed(index: map<string, seq<string>>, rows: seq<Row>) {
    && (forall c :: IndexOf(rows, c) == Filing(index, c))
    && (forall c :: c in index ==> index[c] != [])
  }

  lemma FiledSnoc(index: map<string, seq<string>>, rows: seq<Row>, row: Row)
    requires Filed(index, rows)
    ensures Filed(index[row.centre := IndexOf(rows, row.centre) + MembersOf(row)], rows + [row])
  {
    var after := index[row.centre := IndexOf(rows, row.centre) + MembersOf(row)];
    forall c ensures IndexOf(rows + [row], c) == Filing(after, c) {
      IndexSnoc(rows, row, c);
      assert IndexOf(rows, c) == Filing(index, c);
    }
    forall c | c in after ensures after[c] != [] {
      assert c != row.centre ==> after[c] == index[c];
    }
  }

  lemma IndexSnoc(rows: seq<Row>, row: Row, c: string)
    ensures IndexOf(rows + [row], c) == IndexOf(rows, c) + if row.centre == c then MembersOf(row) else []
  {
    assert (rows + [row])[..|rows|] == rows;
  }

  lemma RowsSnoc(lines: seq<string>, i: nat)
    requires i < |lines|
    ensures Rows(lines[..i + 1]) == Extended(Rows(lines[..i]), ParseLine(lines[i]))
  {
    assert lines[..i + 1][..i] == lines[..i];
  }

  lemma WritesSnoc(rows: seq<Row>, row: Row)
    ensures Writes(rows + [row]) == Writes(rows) + EntriesOf(row)
  {
    assert (rows + [row])[..|rows|] == rows;
  }

  /** What the scan loop gathers: this process's own cache is its centre's index, the writes are
      all entries in the order of the lines, and the indexes hold every centre's. */
  ghost predicate Tallied(next: set<string>, writes: seq<Entry>, index: map<string, seq<string>>, rows: seq<Row>,
                          own: string)
  {
    next == Elements(IndexOf(rows, own)) && writes == Writes(rows) && Filed(index, rows)
  }

  /** The scan loop of Refresh. */
  method Scan(lines: seq<string>, own: string)
    returns (next: set<string>, writes: seq<Entry>, index: map<string, seq<string>>)
    ensures Tallied(next, writes, index, Rows(lines), own)
  {
    next, writes, index := {}, [], map[];
    var i := 0;
    while i < |lines|
      invariant 0 <= i <= |lines|
      invariant Tallied(next, writes, index, Rows(lines[..i]), own)
    {
      RowsSnoc(lines, i);
      next, writes, index := Record(next, writes, index, ParseLine(lines[i]), own, Rows(lines[..i]));
      i := i + 1;
    }
    assert lines[..i] == lines;
  }

  /** The loop body, given what the line says. */
  method Record(soFar: set<string>, written: seq<Entry>, filed: map<string, seq<string>>, parsed: Option<Row>,
                own: string, ghost rows: seq<Row>)
    returns (next: set<string>, writes: seq<Entry>, index: map<string, seq<string>>)
    requires Tallied(soFar, written, filed, rows, own)
    ensures Tallied(next, writes, index, Extended(rows, parsed), own)
  {
    next, writes, index := soFar, written, filed;
    if parsed.None? {
      return;
    }
    var row := parsed.value;
    var centre := row.centre;
    WritesSnoc(rows, row);
    writes := writes + [Entry(row.id, row.topic), Entry(centre, row.topic)];
    FiledSnoc(filed, rows, row);
    index := index[centre := Filing(index, centre) + [Member(row.id, row.topic), Member(centre, row.topic)]];
    IndexSnoc(rows, row, own);
    if centre == own {
      next := next + {Member(row.id, row.topic)} + {Member(centre, row.topic)};
    }
  }

  // ---- What the index sets and the registry keys say --------------------------------

  /** A composite entry is in its centre's index exactly when one of that centre's rows
      contributes it. */
  lemma {:induction false} IndexMembers(rows: seq<Row>, centre: string, m: string)
    ensures m in IndexOf(rows, centre) <==> exists r :: r in rows && r.centre == centre && m in MembersOf(r)
  {
    if rows != [] {
      var init, last := rows[..|rows| - 1], rows[|rows| - 1];
      assert rows == init + [last];
      IndexMembers(init, centre, m);
    }
  }

  lemma {:induction false} WrittenEntries(rows: seq<Row>, e: Entry)
    ensures e in Writes(rows) <==> exists r :: r in rows && e in EntriesOf(r)
  {
    if rows != [] {
      var init, last := rows[..|rows| - 1], rows[|rows| - 1];
      assert rows == init + [last];
      WrittenEntries(init, e);
    }
  }

  /** Every entry of every index, with the registry's prefix. */
  ghost predicate Indexed(rows: seq<Row>, key: string) {
    exists c, m :: m in IndexOf(rows, c) && key == PREFIX + m
  }

  lemma KeyOfMember(key: string, topic: string)
    ensures topic != "" ==> KeyOf(PREFIX, Entry(key, topic)) == PREFIX + Member(key, topic)
  {
    assert PREFIX + key + (":" + topic) == PREFIX + (key + ":" + topic);
  }

  lemma IndexedIsWritten(rows: seq<Row>, key: string)
    requires (forall r :: r in rows ==> r.topic != "") && Indexed(rows, key)
    ensures key in KeysOf(PREFIX, Writes(rows))
  {
    var c, m :| m in IndexOf(rows, c) && key == PREFIX + m;
    IndexMembers(rows, c, m);
    var r :| r in rows && r.centre == c && m in MembersOf(r);
    KeyOfMember(r.id, r.topic);
    KeyOfMember(r.centre, r.topic);
    var e := if m == Member(r.id, r.topic) then Entry(r.id, r.topic) else Entry(r.centre, r.topic);
    assert e in EntriesOf(r);
    WrittenEntries(rows, e);
  }

  lemma WrittenIsIndexed(rows: seq<Row>, key: string)
    requires (forall r :: r in rows ==> r.topic != "") && key in KeysOf(PREFIX, Writes(rows))
    ensures Indexed(rows, key)
  {
    var e :| e in Writes(rows) && key == KeyOf(PREFIX, e);
    WrittenEntries(rows, e);
    var r :| r in rows && e in EntriesOf(r);
    KeyOfMember(e.key, e.topic);
    var m := Member(e.key, e.topic);
    assert m in MembersOf(r);
    IndexMembers(rows, r.centre, m);
  }

  /** An index entry always holds a colon; the bare centre key of a line without a topic does
      not, so no index can account for it. */
  lemma EmptyTopicIsNotIndexed(rows: seq<Row>, r: Row)
    requires r in rows && r.topic == "" && ':' !in r.centre
    ensures PREFIX + r.centre in KeysOf(PREFIX, Writes(rows)) && !Indexed(rows, PREFIX + r.centre)
  {
    var e := Entry(r.centre, r.topic);
    assert e in EntriesOf(r);
    WrittenEntries(rows, e);
    assert KeyOf(PREFIX, e) == PREFIX + r.centre;
    forall c, m | m in IndexOf(rows, c) ensures PREFIX + r.centre != PREFIX + m {
      IndexMembers(rows, c, m);
      assert ':' in m;
      assert (PREFIX + r.centre)[|PREFIX|..] == r.centre && (PREFIX + m)[|PREFIX|..] == m;
    }
  }

  /** The index sets, prefixed, are together exactly the registry keys written if and only if
      every accepted line has a topic. */
  lemma IndexesAreTheRegistry(lines: seq<string>)
    ensures (forall key :: Indexed(Rows(lines), key) <==> key in KeysOf(PREFIX, Writes(Rows(lines)))) <==>
            (forall r :: r in Rows(lines) ==> r.topic != "")
  {
    var rows := Rows(lines);
    RowsAreAccepted(lines);
    if r :| r in rows && r.topic == "" {
      EmptyTopicIsNotIndexed(rows, r);
    } else {
      forall key ensures Indexed(rows, key) <==> key in KeysOf(PREFIX, Writes(rows)) {
        if Indexed(rows, key) {
          IndexedIsWritten(rows, key);
        }
        if key in KeysOf(PREFIX, Writes(rows)) {
          WrittenIsIndexed(rows, key);
        }
      }
    }
  }

  // ---- Redis ------------------------------------------------------------------------

  type Sets = map<string, set<string>>

  /** One command of the pipeline that replaces an index set. */
  datatype Cmd =
    | Del(key: string)
    | SAdd(key: string, members: seq<string>)
    | Expire(key: string)
    | Rename(key: string, to: string)

  function Read(sets: Sets, key: string): set<string> { if key in sets then sets[key] else {} }

  /** RENAME of a key that does not exist is an error and changes nothing. */
  function Apply(sets: Sets, cmd: Cmd): Sets {
    match cmd
    case Del(key) => sets - {key}
    case SAdd(key, members) => sets[key := Read(sets, key) + Elements(members)]
    case Expire(_) => sets
    case Rename(key, to) => if key in sets then (sets - {key})[to := sets[key]] else sets
  }

  function ApplyAll(sets: Sets, cmds: seq<Cmd>): Sets {
    if cmds == [] then sets else Apply(ApplyAll(sets, cmds[..|cmds| - 1]), cmds[|cmds| - 1])
  }

  function Temp(key: string): string { key + ":tmp" }

  /** The members a row of SADD commands adds. */
  function Added(cmds: seq<Cmd>): seq<string> {
    if cmds == [] then []
    else
      var last := cmds[|cmds| - 1];
      Added(cmds[..|cmds| - 1]) + if last.SAdd? then last.members else []
  }

  predicate IsChunk(cmd: Cmd, temp: string) {
    cmd.SAdd? && cmd.key == temp && 1 <= |cmd.members| <= BATCH
  }

  /** Drop the temporary key, fill it chunk by chunk, give it its expiry, move it over. */
  predicate ReplacesIndex(cmds: seq<Cmd>, key: string, members: seq<string>) {
    var n := |cmds|;
    && n >= 3 && cmds[0] == Del(Temp(key)) && cmds[n - 2] == Expire(Temp(key)) && cmds[n - 1] == Rename(Temp(key), key)
    && (forall i :: 1 <= i < n - 2 ==> IsChunk(cmds[i], Temp(key)))
    && Added(cmds[1..n - 2]) == members
  }

  /** writeIndex, up to the Exec that sends the commands. */
  method WriteIndex(key: string, members: seq<string>) returns (cmds: seq<Cmd>)
    ensures ReplacesIndex(cmds, key, members)
  {
    var temp := Temp(key);
    cmds := [Del(temp)];
    var i := 0;
    while i < |members|
      invariant 0 <= i <= |members| && |cmds| >= 1 && cmds[0] == Del(temp)
      invariant forall k :: 1 <= k < |cmds| ==> IsChunk(cmds[k], temp)
      invariant Added(cmds[1..]) == members[..i]
      decreases |members| - i
    {
      var end := i + BATCH;
      if end > |members| {
        end := |members|;
      }
      ghost var before := cmds[1..];
      cmds := cmds + [SAdd(temp, members[i..end])];
      assert cmds[1..][..|before|] == before;
      assert members[..end] == members[..i] + members[i..end];
      i := end;
    }
    assert members[..i] == members;
    ghost var filled := cmds;
    cmds := cmds + [Expire(temp)];
    cmds := cmds + [Rename(temp, key)];
    assert cmds[1..|cmds| - 2] == filled[1..];
  }

  /** Nothing but the temporary key has changed, which holds what was added, if anything was. */
  ghost predicate HalfWritten(sets: Sets, now: Sets, temp: string, added: seq<string>, any: bool) {
    && (forall k :: k != temp ==> Read(now, k) == Read(sets, k))
    && Read(now, temp) == Elements(added) && (temp in now <==> any)
  }

  lemma ChunkAdds(sets: Sets, now: Sets, cmd: Cmd, temp: string, added: seq<string>, any: bool)
    requires HalfWritten(sets, now, temp, added, any) && IsChunk(cmd, temp)
    ensures HalfWritten(sets, Apply(now, cmd), temp, added + cmd.members, true)
  {
    var after := Apply(now, cmd);
    assert Elements(added + cmd.members) == Elements(added) + Elements(cmd.members);
    forall k | k != temp ensures Read(after, k) == Read(sets, k) {
      assert Read(now, k) == Read(sets, k);
    }
  }

  lemma MovesOver(sets: Sets, now: Sets, key: string, members: seq<string>, any: bool)
    requires HalfWritten(sets, now, Temp(key), members, any)
    ensures var after := Apply(now, Rename(Temp(key), key));
            && Temp(key) !in after
            && Read(after, key) == (if any then Elements(members) else Read(sets, key))
            && forall k :: k != key && k != Temp(key) ==> Read(after, k) == Read(sets, k)
  {
    TempIsNoIndex(key);
    var after := Apply(now, Rename(Temp(key), key));
    forall k | k != key && k != Temp(key) ensures Read(after, k) == Read(sets, k) {
      assert Read(now, k) == Read(sets, k);
    }
  }

  lemma ApplyPrefix(sets: Sets, cmds: seq<Cmd>, n: nat)
    requires 0 < n <= |cmds|
    ensures ApplyAll(sets, cmds[..n]) == Apply(ApplyAll(sets, cmds[..n - 1]), cmds[n - 1])
  {
    assert cmds[..n][..n - 1] == cmds[..n - 1];
  }

  /** While the temporary key is being filled nothing else changes. */
  lemma {:induction false} FillsTemp(sets: Sets, cmds: seq<Cmd>, key: string, members: seq<string>, n: nat)
    requires ReplacesIndex(cmds, key, members) && 1 <= n <= |cmds| - 2
    ensures HalfWritten(sets, ApplyAll(sets, cmds[..n]), Temp(key), Added(cmds[1..n]), n > 1)
  {
    ApplyPrefix(sets, cmds, n);
    if n == 1 {
      assert cmds[..0] == [] && cmds[1..1] == [];
    } else {
      FillsTemp(sets, cmds, key, members, n - 1);
      AddedSnoc(cmds, n);
      ChunkAdds(sets, ApplyAll(sets, cmds[..n - 1]), cmds[n - 1], Temp(key), Added(cmds[1..n - 1]), n - 1 > 1);
    }
  }

  lemma AddedSnoc(cmds: seq<Cmd>, n: nat)
    requires 1 < n <= |cmds| && cmds[n - 1].SAdd?
    ensures Added(cmds[1..n]) == Added(cmds[1..n - 1]) + cmds[n - 1].members
  {
    var filled := cmds[1..n];
    assert filled[..|filled| - 1] == cmds[1..n - 1] && filled[|filled| - 1] == cmds[n - 1];
  }

  lemma TempIsNoIndex(key: string)
    ensures Temp(key) != key
  {
    assert |Temp(key)| == |key| + 4;
  }

  /** Something was added exactly when there are members. */
  lemma AnyAdded(cmds: seq<Cmd>, key: string, members: seq<string>)
    requires ReplacesIndex(cmds, key, members)
    ensures |cmds| - 2 > 1 <==> members != []
  {
    var filled := cmds[1..|cmds| - 2];
    if |cmds| - 2 > 1 {
      assert IsChunk(cmds[|cmds| - 3], Temp(key)) && filled[|filled| - 1] == cmds[|cmds| - 3];
    } else {
      assert filled == [];
    }
  }

  /** With a single writer a reader at any moment sees the whole old set or the whole new one:
      every proper prefix of the commands leaves all keys but the temporary one as they were,
      and the whole of them moves the complete set over and clears the temporary key. Chunking
      is invisible: the size of the chunks occurs nowhere in the result. */
  lemma ReaderSeesOldOrNew(sets: Sets, cmds: seq<Cmd>, key: string, members: seq<string>, n: nat)
    requires ReplacesIndex(cmds, key, members) && n <= |cmds|
    ensures n < |cmds| ==> forall k :: k != Temp(key) ==> Read(ApplyAll(sets, cmds[..n]), k) == Read(sets, k)
    ensures n == |cmds| ==>
      && Temp(key) !in ApplyAll(sets, cmds)
      && Read(ApplyAll(sets, cmds), key) == (if members != [] then Elements(members) else Read(sets, key))
      && forall k :: k != key && k != Temp(key) ==> Read(ApplyAll(sets, cmds), k) == Read(sets, k)
  {
    var full := |cmds| - 2;
    if n == 0 {
      assert cmds[..0] == [];
    } else if n <= full {
      FillsTemp(sets, cmds, key, members, n);
    } else {
      FillsTemp(sets, cmds, key, members, full);
      ApplyPrefix(sets, cmds, full + 1);
      if n == full + 2 {
        ApplyPrefix(sets, cmds, n);
        assert cmds[..n] == cmds;
        AnyAdded(cmds, key, members);
        MovesOver(sets, ApplyAll(sets, cmds[..full]), key, members, members != []);
      }
    }
  }

  // ---- The shared keyspace ----------------------------------------------------------

  function Min(a: nat, b: nat): nat { if a <= b then a else b }

  class Store {
    /** Plain keys. They only ever hold "true". */
    var keys: set<string>
    var sets: Sets

    constructor ()
      ensures keys == {} && sets == map[]
    {
      keys, sets := {}, map[];
    }

    /** Exec of a pipeline of SETs of which only the first `reach` arrive. */
    method SetAll(batch: seq<string>, reach: nat) returns (ok: bool)
      modifies this`keys
      ensures ok == (|batch| <= reach)
      ensures keys == old(keys) + Elements(batch[..Min(reach, |batch|)])
    {
      keys := keys + Elements(batch[..Min(reach, |batch|)]);
      ok := |batch| <= reach;
    }

    method Pipeline(cmds: seq<Cmd>)
      modifies this`sets
      ensures sets == ApplyAll(old(sets), cmds)
    {
      var i := 0;
      while i < |cmds|
        invariant 0 <= i <= |cmds| && sets == ApplyAll(old(sets), cmds[..i])
      {
        assert cmds[..i + 1][..i] == cmds[..i];
        sets := Apply(sets, cmds[i]);
        i := i + 1;
      }
      assert cmds[..i] == cmds;
    }
  }

  /** The SETs one pipeline of writeRegistry queues. */
  method Queue(prefix: string, entries: seq<Entry>, from: nat, end: nat) returns (batch: seq<string>)
    requires from <= end <= |entries|
    ensures |batch| == end - from && forall k :: 0 <= k < |batch| ==> batch[k] == KeyOf(prefix, entries[from + k])
  {
    batch := [];
    for j := from to end
      invariant |batch| == j - from
      invariant forall k :: 0 <= k < |batch| ==> batch[k] == KeyOf(prefix, entries[from + k])
    {
      var key := prefix + entries[j].key;
      if entries[j].topic != "" {
        key := key + (":" + entries[j].topic);
      } else {
        assert prefix + entries[j].key + "" == key;
      }
      batch := batch + [key];
    }
  }

  /** writeRegistry over a connection on which `reach` SETs arrive. The keys it leaves are those
      of the entries that arrived, as one unchunked write would leave them, and it reports
      success exactly when all did. */
  method WriteRegistry(store: Store, prefix: string, entries: seq<Entry>, reach: nat) returns (ok: bool)
    modifies store`keys
    ensures ok == (|entries| <= reach)
    ensures store.keys == old(store.keys) + KeysOf(prefix, entries[..Min(reach, |entries|)])
  {
    ghost var before := store.keys;
    var i := 0;
    while i < |entries|
      invariant 0 <= i <= |entries| && i <= reach
      invariant store.keys == before + KeysOf(prefix, entries[..i])
      decreases |entries| - i
    {
      var end := i + BATCH;
      if end > |entries| {
        end := |entries|;
      }
      var sentOk := SendBatch(store, prefix, entries, i, end, reach);
      if !sentOk {
        return false;
      }
      i := end;
    }
    assert entries[..i] == entries;
    return true;
  }

  /** One chunk, from entry `from` up to `end`. */
  method SendBatch(store: Store, prefix: string, entries: seq<Entry>, from: nat, end: nat, reach: nat)
    returns (ok: bool)
    requires from <= end <= |entries| && from <= reach
    modifies store`keys
    ensures ok == (end <= reach)
    ensures KeysOf(prefix, entries[..from]) + store.keys
         == KeysOf(prefix, entries[..Min(reach, end)]) + old(store.keys)
    ensures store.keys >= old(store.keys)
  {
    var batch := Queue(prefix, entries, from, end);
    BatchKeys(prefix, entries, from, batch, Min(reach - from, |batch|));
    ok := store.SetAll(batch, reach - from);
  }

  lemma BatchKeys(prefix: string, entries: seq<Entry>, i: nat, batch: seq<string>, sent: nat)
    requires i + |batch| <= |entries| && sent <= |batch|
    requires forall k :: 0 <= k < |batch| ==> batch[k] == KeyOf(prefix, entries[i + k])
    ensures KeysOf(prefix, entries[..i]) + Elements(batch[..sent]) == KeysOf(prefix, entries[..i + sent])
  {
    forall x | x in KeysOf(prefix, entries[..i + sent])
      ensures x in KeysOf(prefix, entries[..i]) + Elements(batch[..sent])
    {
      var k :| 0 <= k < i + sent && KeyOf(prefix, entries[..i + sent][k]) == x;
      if k < i {
        assert entries[..i][k] in entries[..i];
      } else {
        assert batch[..sent][k - i] == x;
      }
    }
    forall x | x in KeysOf(prefix, entries[..i]) + Elements(batch[..sent])
      ensures x in KeysOf(prefix, entries[..i + sent])
    {
      if x in KeysOf(prefix, entries[..i]) {
        var e :| e in entries[..i] && KeyOf(prefix, e) == x;
        assert e in entries[..i + sent];
      } else {
        var k :| 0 <= k < sent && batch[..sent][k] == x;
        assert entries[..i + sent][i + k] == entries[i + k];
      }
    }
  }

  // ---- One process ------------------------------------------------------------------

  /** What fetching the list gave: nothing, or its lines, either fresh or the last good copy. */
  datatype Fetched = Unreachable | List(lines: seq<string>, fallback: bool)

  function IndexKey(centre: string): string { "wis2gb:gdc_index:{" + centre + "}" }

  lemma IndexKeysDiffer(c: string, d: string)
    ensures IndexKey(c) != Temp(IndexKey(d))
    ensures c != d ==> IndexKey(c) != IndexKey(d)
  {
    var a, b := IndexKey(c), IndexKey(d);
    assert a[|a| - 1] == '}' && Temp(b)[|Temp(b)| - 1] == 'p';
    assert a[18..|a| - 1] == c && b[18..|b| - 1] == d;
  }

  /** The key a check asks about. */
  function Asked(id: string, topic: string, own: string): string { Member(if id == "" then own else id, topic) }

  /** How many of the `n` commands for a centre's index arrive: all, or too few. */
  function Sent(cut: map<string, nat>, centre: string, n: nat): (sent: nat)
    requires n > 0
    ensures sent <= n && (sent == n <==> centre !in cut)
  {
    if centre in cut then Min(cut[centre], n - 1) else n
  }

  /** A centre's index after a refresh: replaced when the list has a line for it and the write
      did not break off, and otherwise what it was. */
  function Replaced(sets: Sets, rows: seq<Row>, cut: map<string, nat>, centre: string): set<string> {
    if IndexOf(rows, centre) != [] && centre !in cut then Elements(IndexOf(rows, centre))
    else Read(sets, IndexKey(centre))
  }

  class GDCRegistry {
    const configured: bool
    const centre: string
    var topics: set<string>

    constructor (configured: bool, centre: string)
      ensures this.configured == configured && this.centre == centre && topics == {}
    {
      this.configured, this.centre, topics := configured, centre, {};
    }

    /** Refresh. `recent` is what the shared gate answered, `reach` how many SETs arrive, and
        `cut` after how many commands the connection broke while a centre's index was written. */
    method Refresh(store: Store, recent: bool, fetched: Fetched, reach: nat, cut: map<string, nat>)
      returns (armed: bool)
      modifies this`topics, store
      ensures var rows := if fetched.List? then Rows(fetched.lines) else [];
              var used := configured && centre != "" && !recent && fetched.List?;
              && topics == (if used then Elements(IndexOf(rows, centre)) else old(topics))
              && (armed <==> used && !fetched.fallback && |Writes(rows)| <= reach)
              && store.keys == old(store.keys) +
                   (if used && !fetched.fallback then KeysOf(PREFIX, Writes(rows)[..Min(reach, |Writes(rows)|)])
                    else {})
              && (used && !fetched.fallback ==>
                    forall c :: Read(store.sets, IndexKey(c)) == Replaced(old(store.sets), rows, cut, c))
              && (!used || fetched.fallback ==> store.sets == old(store.sets))
    {
      armed := false;
      if !configured || centre == "" || recent {
        return;
      }
      match fetched {
        case Unreachable => return;
        case List(lines, fallback) =>
          var next, writes, index := Scan(lines, centre);
          topics := next;
          if !fallback {
            armed := WriteRegistry(store, PREFIX, writes, reach);
            WriteIndexes(store, Rows(lines), index, cut);
          }
      }
    }

    /** The loop over the centres, in any order. A write that breaks off does not stop it. */
    method WriteIndexes(store: Store, ghost rows: seq<Row>, index: map<string, seq<string>>, cut: map<string, nat>)
      requires Filed(index, rows)
      modifies store`sets
      ensures forall c :: Read(store.sets, IndexKey(c)) == Replaced(old(store.sets), rows, cut, c)
    {
      var left := index.Keys;
      while left != {}
        invariant left <= index.Keys
        invariant forall c :: Read(store.sets, IndexKey(c)) ==
                    if c in left then Read(old(store.sets), IndexKey(c)) else Replaced(old(store.sets), rows, cut, c)
      {
        var c :| c in left;
        var cmds := WriteIndex(IndexKey(c), index[c]);
        var sent := Sent(cut, c, |cmds|);
        ReaderSeesOldOrNew(store.sets, cmds, IndexKey(c), index[c], sent);
        assert cmds[..|cmds|] == cmds;
        forall d ensures IndexKey(d) != Temp(IndexKey(c)) && (d != c ==> IndexKey(d) != IndexKey(c)) {
          IndexKeysDiffer(d, c);
        }
        store.Pipeline(cmds[..sent]);
        left := left - {c};
      }
    }

    /** syncFromIndex. An empty read keeps the cache. */
    method SyncFromIndex(store: Store, failed: bool)
      modifies this`topics
      ensures topics == if centre == "" || failed || Read(store.sets, IndexKey(centre)) == {} then old(topics)
                        else Read(store.sets, IndexKey(centre))
    {
      if centre == "" {
        return;
      }
      var members := Read(store.sets, IndexKey(centre));
      if failed || members == {} {
        return;
      }
      topics := members;
    }

    /** Has: the cache, else the shared key. An error reads as "not registered". */
    method Has(store: Store, id: string, topic: string, failed: bool) returns (has: bool)
      ensures var asked := Asked(id, topic, centre);
              has <==> asked in topics || (!failed && PREFIX + asked in store.keys)
    {
      var key := id;
      if key == "" {
        key := centre;
      }
      var entryKey := Member(key, topic);
      if entryKey in topics {
        return true;
      }
      if failed {
        return false;
      }
      return PREFIX + entryKey in store.keys;
    }
  }
}
