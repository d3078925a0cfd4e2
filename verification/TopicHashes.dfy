/** The allowed topic hashes (internal/allowlist): a flat list, one hash a line, cached per
    process, written to Redis as one key each and as one index set for all processes.

    A process that fetches the list replaces its cache, writes the keys in batches and then
    replaces the index; one that cannot takes its cache from the index. Either write may break
    off part way, the index after any of its commands. The index key carries its own hash tag,
    so the temporary key is in the same slot of a cluster and the rename is atomic there. An
    index that is read back empty or not at all leaves the cache as it was, and a list without
    hashes leaves the index as it was: that is how an emptied list comes back. */
module TopicHashes {
  import opened Options
  import opened Strings
  import opened Registry

  const HASH_PREFIX := "topic_"
  const HASH_INDEX := "wis2gb:{topic_index}"

  function HashesOf(lines: seq<string>): seq<string> {
    if lines == [] then []
    else
      var line := TrimSpace(lines[|lines| - 1]);
      HashesOf(lines[..|lines| - 1]) + if line == "" || line[0] == '#' then [] else [line]
  }

  /** One more line adds its text without the white space around it, unless that is empty or starts
      with "#". */
  lemma HashesSnoc(lines: seq<string>, pre: string, text: string, post: string)
    requires Blank(pre) && Trimmed(text) && Blank(post)
    ensures HashesOf(lines + [pre + text + post])
         == HashesOf(lines) + if text == "" || text[0] == '#' then [] else [text]
  {
    TrimSpaceAround(pre, text, post);
    var longer := lines + [pre + text + post];
    assert longer[..|lines|] == lines && longer[|lines|] == pre + text + post;
  }

  function Bare(hashes: seq<string>): seq<Entry> {
    seq(|hashes|, i requires 0 <= i < |hashes| => Entry(hashes[i], ""))
  }

  function Prefixed(hashes: set<string>): set<string> { set h | h in hashes :: HASH_PREFIX + h }

  lemma KeysOfBare(hashes: seq<string>)
    ensures KeysOf(HASH_PREFIX, Bare(hashes)) == Prefixed(Elements(hashes))
  {
    forall h | h in Elements(hashes) ensures HASH_PREFIX + h in KeysOf(HASH_PREFIX, Bare(hashes)) {
      var i :| 0 <= i < |hashes| && hashes[i] == h;
      assert Bare(hashes)[i] in Bare(hashes);
      assert KeyOf(HASH_PREFIX, Bare(hashes)[i]) == HASH_PREFIX + h;
    }
    forall e | e in Bare(hashes) ensures KeyOf(HASH_PREFIX, e) in Prefixed(Elements(hashes)) {
      assert KeyOf(HASH_PREFIX, e) == HASH_PREFIX + e.key;
    }
  }

  /** Some order of a set, without repeats: a Go map walked once. */
  method InSomeOrder(hashes: set<string>) returns (order: seq<string>)
    ensures Elements(order) == hashes && (order == [] <==> hashes == {})
  {
    order := [];
    var left := hashes;
    while left != {}
      invariant left <= hashes && Elements(order) == hashes - left
    {
      var h :| h in left;
      assert Elements(order + [h]) == Elements(order) + {h} by {
        assert (order + [h])[|order|] == h;
      }
      order := order + [h];
      left := left - {h};
    }
    if order != [] {
      assert order[0] in Elements(order);
    }
  }

  class TopicSet {
    var entries: set<string>

    constructor ()
      ensures entries == {}
    {
      entries := {};
    }

    /** Everything cached or indexed has its key. */
    ghost predicate Backed(store: Store)
      reads this, store
    {
      Prefixed(entries) <= store.keys && Prefixed(Read(store.sets, HASH_INDEX)) <= store.keys
    }

    /** Refresh, when it is due. `reach` SETs arrive; `cut` says after how many commands the
        index write broke off, if it did. An empty list empties the cache but not
        the index: with nothing to rename, the old set stays. */
    method Refresh(store: Store, due: bool, fetched: Fetched, reach: nat, cut: Option<nat>) returns (armed: bool)
      modifies this, store
      ensures var used := due && fetched.List?;
              var hashes := if used then HashesOf(fetched.lines) else [];
              && entries == (if used then Elements(hashes) else old(entries))
              && (armed <==> used && !fetched.fallback && |hashes| <= reach)
              && store.keys == old(store.keys) +
                   (if used && !fetched.fallback then Prefixed(Elements(hashes[..Min(reach, |hashes|)])) else {})
              && Read(store.sets, HASH_INDEX) ==
                   (if used && !fetched.fallback && hashes != [] && cut.None? then Elements(hashes)
                    else Read(old(store.sets), HASH_INDEX))
    {
      armed := false;
      if !due || fetched.Unreachable? {
        return;
      }
      var hashes := ScanHashes(fetched.lines);
      entries := Elements(hashes);
      if !fetched.fallback {
        armed := WriteRegistry(store, HASH_PREFIX, Bare(hashes), reach);
        ghost var n := Min(reach, |hashes|);
        assert Bare(hashes)[..n] == Bare(hashes[..n]);
        KeysOfBare(hashes[..n]);
        var order := InSomeOrder(entries);
        assert order == [] <==> hashes == [] by {
          if hashes != [] {
            assert hashes[0] in Elements(hashes);
          }
        }
        var cmds := WriteIndex(HASH_INDEX, order);
        TempIsNoIndex(HASH_INDEX);
        var sent := if cut.Some? then Min(cut.value, |cmds| - 1) else |cmds|;
        ReaderSeesOldOrNew(store.sets, cmds, HASH_INDEX, order, sent);
        assert cmds[..|cmds|] == cmds;
        store.Pipeline(cmds[..sent]);
      }
    }

    method ScanHashes(lines: seq<string>) returns (hashes: seq<string>)
      ensures hashes == HashesOf(lines)
    {
      hashes := [];
      for i := 0 to |lines|
        invariant hashes == HashesOf(lines[..i])
      {
        assert lines[..i + 1][..i] == lines[..i];
        var line := TrimSpace(lines[i]);
        if line != "" && line[0] != '#' {
          hashes := hashes + [line];
        }
      }
      assert lines[..|lines|] == lines;
    }

    method SyncFromIndex(store: Store, failed: bool)
      modifies this
      ensures var read := Read(store.sets, HASH_INDEX);
              entries == if failed || read == {} then old(entries) else read
      ensures old(Backed(store)) ==> Backed(store)
    {
      var members := Read(store.sets, HASH_INDEX);
      if failed || members == {} {
        return;
      }
      entries := members;
    }

    /** While everything cached is backed by its key, and Redis answers, the check is a plain
        EXISTS. */
    method Has(store: Store, hash: string, failed: bool) returns (has: bool)
      ensures has <==> hash in entries || (!failed && HASH_PREFIX + hash in store.keys)
      ensures Backed(store) && !failed ==> (has <==> HASH_PREFIX + hash in store.keys)
    {
      if hash in entries {
        assert HASH_PREFIX + hash in Prefixed(entries);
        return true;
      }
      if failed {
        return false;
      }
      return HASH_PREFIX + hash in store.keys;
    }

    /** A refresh that is due and completes, and a sync that Redis answers. The cache is then the
        fetched list if and only if the list has a hash or the index was empty before; otherwise
        it is what the index held before. Everything cached or indexed keeps its key. */
    method RefreshAndSync(store: Store, lines: seq<string>)
      modifies this, store
      ensures var hashes := HashesOf(lines);
              var before := Read(old(store.sets), HASH_INDEX);
              && entries == (if hashes != [] then Elements(hashes) else before)
              && (entries == Elements(hashes) <==> hashes != [] || before == {})
      ensures old(Backed(store)) ==> Backed(store)
    {
      ghost var hashes := HashesOf(lines);
      var armed := Refresh(store, true, List(lines, false), |HashesOf(lines)|, None);
      assert hashes[..|hashes|] == hashes;
      if hashes != [] {
        assert hashes[0] in Elements(hashes);
      }
      SyncFromIndex(store, false);
    }
  }

  /** So a list that becomes empty does not take effect: the next sync brings the old hashes back
      from the index. */
  method EmptyListIsUndone(hash: string) returns (afterRefresh: set<string>, afterSync: set<string>)
    requires hash != "" && Trimmed(hash) && hash[0] != '#'
    ensures afterRefresh == {} && afterSync == {hash}
  {
    var store := new Store();
    var topics := new TopicSet();
    TrimSpaceTrims(hash);
    var lines := [hash];
    assert lines[..0] == [] && HashesOf(lines[..0]) == [] && HashesOf(lines) == [hash];
    var first := topics.Refresh(store, true, List(lines, false), 1, None);
    assert HashesOf([]) == [];
    var second := topics.Refresh(store, true, List([], false), 0, None);
    afterRefresh := topics.entries;
    topics.SyncFromIndex(store, false);
    afterSync := topics.entries;
  }
}
