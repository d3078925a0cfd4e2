/** MQTT topic filters of the debug flags (cmd/antiloop/main.go), against the wildcard rules of
    section 4.7.1 of MQTT 3.1.1.

    The code walks filter and topic side by side in one loop. Here that loop is proved to decide
    a relation on levels, `Matches`, and the relation is then read off level by level: "+" stands
    for one level and may be empty, a final "#" for any number of them, the parent included. The
    lemmas behind that say what a wildcard buys: which replacements of a level by "+" or "#" keep
    every match, and which do not. The standard's rule that a leading wildcard must not match a
    topic starting with "$" is not in the code and so not in the model. */
module TopicFilter {
  import opened Strings

  const PLUS := "+"
  const HASH := "#"

  predicate LevelMatches(level: string, topicLevel: string) { level == PLUS || level == topicLevel }

  /** The wildcard relation on levels. A final "#" stands for any number of further levels,
      none included; anywhere else it is a literal. */
  predicate Matches(filter: seq<string>, topic: seq<string>) {
    if filter == [HASH] then true
    else if filter == [] || topic == [] then filter == topic
    else LevelMatches(filter[0], topic[0]) && Matches(filter[1..], topic[1..])
  }

  predicate EndsInHash(filter: seq<string>) { filter != [] && filter[|filter| - 1] == HASH }

  ghost predicate MatchesFirst(filter: seq<string>, topic: seq<string>, n: nat) {
    n <= |filter| && n <= |topic| && forall i :: 0 <= i < n ==> filter[i] == "+" || filter[i] == topic[i]
  }

  /** Level by level: under a final "#" the levels before it match and the topic may stop at
      the parent or go on; otherwise both have the same number of levels and all match. */
  lemma {:induction false} MatchesByLevel(filter: seq<string>, topic: seq<string>)
    ensures Matches(filter, topic) <==>
      if EndsInHash(filter) then MatchesFirst(filter, topic, |filter| - 1)
      else |filter| == |topic| && MatchesFirst(filter, topic, |filter|)
  {
    if filter != [HASH] && filter != [] && topic != [] {
      var f, t := filter[1..], topic[1..];
      MatchesByLevel(f, t);
      forall n: nat | 1 <= n <= |filter|
        ensures MatchesFirst(filter, topic, n) <==> LevelMatches(filter[0], topic[0]) && MatchesFirst(f, t, n - 1)
      {
        FirstLevelToo(filter, topic, n);
      }
      if f == [] {
        assert !EndsInHash(filter);
      }
    }
  }

  lemma FirstLevelToo(filter: seq<string>, topic: seq<string>, n: nat)
    requires filter != [] && topic != [] && 1 <= n
    ensures MatchesFirst(filter, topic, n) <==>
            LevelMatches(filter[0], topic[0]) && MatchesFirst(filter[1..], topic[1..], n - 1)
  {
    if LevelMatches(filter[0], topic[0]) && MatchesFirst(filter[1..], topic[1..], n - 1) {
      forall i | 0 <= i < n ensures filter[i] == "+" || filter[i] == topic[i] {
        if i > 0 {
          assert filter[1..][i - 1] == "+" || filter[1..][i - 1] == topic[1..][i - 1];
        }
      }
    }
    if MatchesFirst(filter, topic, n) {
      forall i | 0 <= i < n - 1 ensures filter[1..][i] == "+" || filter[1..][i] == topic[1..][i] {
        assert filter[i + 1] == "+" || filter[i + 1] == topic[i + 1];
      }
    }
  }

  /** mqttTopicMatch. */
  method MqttTopicMatch(filter: string, topic: string) returns (r: bool)
    ensures r == Matches(Split(filter, '/'), Split(topic, '/'))
  {
    var filterLevels := Split(filter, '/');
    var topicLevels := Split(topic, '/');
    var i := 0;
    while i < |filterLevels|
      invariant 0 <= i <= |filterLevels| && i <= |topicLevels|
      invariant Matches(filterLevels, topicLevels) == Matches(filterLevels[i..], topicLevels[i..])
    {
      ghost var rest := filterLevels[i..];
      assert rest[1..] == filterLevels[i + 1..] && (i == |filterLevels| - 1 ==> rest == [filterLevels[i]]);
      if filterLevels[i] == HASH && i == |filterLevels| - 1 {
        return true;
      }
      if i >= |topicLevels| {
        return false;
      }
      assert topicLevels[i..][1..] == topicLevels[i + 1..];
      if filterLevels[i] != PLUS && filterLevels[i] != topicLevels[i] {
        return false;
      }
      i := i + 1;
    }
    return |filterLevels| == |topicLevels|;
  }

  ghost predicate Accepts(filters: seq<string>, topic: string) {
    filters == [] || exists i :: 0 <= i < |filters| && Matches(Split(filters[i], '/'), Split(topic, '/'))
  }

  /** topicFilterFlag.match. */
  method Match(filters: seq<string>, topic: string) returns (r: bool)
    ensures r <==> Accepts(filters, topic)
    ensures filters == [] ==> r
  {
    if |filters| == 0 {
      return true;
    }
    for i := 0 to |filters|
      invariant forall k :: 0 <= k < i ==> !Matches(Split(filters[k], '/'), Split(topic, '/'))
    {
      var matched := MqttTopicMatch(filters[i], topic);
      if matched {
        return true;
      }
    }
    return false;
  }

  /** One more filter lets more topics through, unless it is the first: no filter at all lets
      every topic through. */
  lemma OneMoreFilter(filters: seq<string>, filter: string, topic: string)
    ensures Accepts(filters + [filter], topic) <==>
            (filters != [] && Accepts(filters, topic)) || Matches(Split(filter, '/'), Split(topic, '/'))
  {
    var more := filters + [filter];
    if filters != [] && Accepts(filters, topic) {
      var i :| 0 <= i < |filters| && Matches(Split(filters[i], '/'), Split(topic, '/'));
      assert more[i] == filters[i];
    }
    if Matches(Split(filter, '/'), Split(topic, '/')) {
      assert more[|filters|] == filter;
    }
  }

  // ---- Widening a filter ------------------------------------------------------------

  ghost predicate Widens(filter: seq<string>, wider: seq<string>) {
    forall topic :: Matches(filter, topic) ==> Matches(wider, topic)
  }

  /** Replacing a level by "+" keeps every match, exactly when that level was not a final "#". */
  lemma PlusWidens(filter: seq<string>, i: nat)
    requires i < |filter|
    ensures Widens(filter, filter[i := PLUS]) <==> !(i == |filter| - 1 && filter[i] == HASH)
  {
    var wider := filter[i := PLUS];
    if i == |filter| - 1 && filter[i] == HASH {
      var topic := filter[..i] + ["", ""];
      MatchesByLevel(filter, topic);
      MatchesByLevel(wider, topic);
    } else {
      forall topic | Matches(filter, topic) ensures Matches(wider, topic) {
        MatchesByLevel(filter, topic);
        MatchesByLevel(wider, topic);
      }
    }
  }

  /** Replacing everything from some level on by "#", or adding "#" at the end, keeps every
      match, exactly when it is not added behind a final "#", which would become a literal. */
  lemma HashWidens(filter: seq<string>, i: nat)
    requires i <= |filter|
    ensures Widens(filter, filter[..i] + [HASH]) <==> !(i == |filter| && EndsInHash(filter))
  {
    var wider := filter[..i] + [HASH];
    if i == |filter| && EndsInHash(filter) {
      var topic := filter[..i - 1] + [""];
      MatchesByLevel(filter, topic);
      MatchesByLevel(wider, topic);
      assert wider[i - 1] == HASH && topic[i - 1] == "";
    } else {
      forall topic | Matches(filter, topic) ensures Matches(wider, topic) {
        MatchesByLevel(filter, topic);
        MatchesByLevel(wider, topic);
      }
    }
  }

  /** The cases the rules single out: "#" alone takes everything, "a/#" also takes "a", "#" in
      front is a literal, and "+" takes exactly one level. */
  lemma Examples(level: string, topic: seq<string>)
    ensures Matches([HASH], topic)
    ensures Matches([level, HASH], [level])
    ensures level != HASH ==>
            (Matches([HASH, level], topic) <==> |topic| == 2 && topic[0] == "#" && (level == "+" || level == topic[1]))
    ensures Matches([PLUS], topic) <==> |topic| == 1
    ensures level != "+" && level != "#" ==> (Matches([level], topic) <==> topic == [level])
  {
    MatchesByLevel([level, HASH], [level]);
    MatchesByLevel([HASH, level], topic);
    MatchesByLevel([PLUS], topic);
    MatchesByLevel([level], topic);
  }
}
