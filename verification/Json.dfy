/** Message payloads as the relay sees them: JSON text as a tree whose object members keep
    their order and may repeat, and the Go values encoding/json decodes it into. */
module Json {
  import opened Options
  import opened Strings

  datatype Member = Member(key: string, value: Json)

  datatype Json =
    | Obj(members: seq<Member>)
    | Arr(items: seq<Json>)
    | Str(s: string)
    | Num(n: string)
    | Bool(b: bool)
    | Null

  /** interface{} after Unmarshal. */
  datatype Value =
    | Map(fields: map<string, Value>)
    | List(elements: seq<Value>)
    | Text(s: string)
    | Number(n: string)
    | Truth(b: bool)
    | Nil

  // ---- Decoding and encoding --------------------------------------------------------

  /** The last of several members with one key wins. */
  function Decode(j: Json): Value
    decreases j, 0
  {
    match j
    case Obj(ms) => Map(DecodeMembers(ms))
    case Arr(items) => List(DecodeAll(items))
    case Str(s) => Text(s)
    case Num(n) => Number(n)
    case Bool(b) => Truth(b)
    case Null => Nil
  }

  function DecodeMembers(ms: seq<Member>): map<string, Value>
    decreases ms, 1
  {
    if ms == [] then map[]
    else
      var last := ms[|ms| - 1];
      DecodeMembers(ms[..|ms| - 1])[last.key := Decode(last.value)]
  }

  function DecodeAll(items: seq<Json>): seq<Value>
    decreases items, 1
  {
    if items == [] then [] else DecodeAll(items[..|items| - 1]) + [Decode(items[|items| - 1])]
  }

  lemma {:induction false} LeastExists(ks: set<string>)
    requires ks != {}
    ensures exists k :: IsLeast(k, ks)
  {
    var k :| k in ks;
    if ks == {k} {
      LexTotal(k, k);
      assert IsLeast(k, ks);
    } else {
      var rest := ks - {k};
      LeastExists(rest);
      var l :| IsLeast(l, rest);
      LexTotal(k, l);
      LexTotal(k, k);
      if LexLeq(k, l) {
        forall m | m in ks ensures LexLeq(k, m) {
          if m != k {
            LexTransitive(k, l, m);
          }
        }
        assert IsLeast(k, ks);
      } else {
        assert IsLeast(l, ks);
      }
    }
  }

  lemma LeastIsUnique(ks: set<string>)
    ensures forall a, b :: IsLeast(a, ks) && IsLeast(b, ks) ==> a == b
  {
    forall a, b | IsLeast(a, ks) && IsLeast(b, ks) ensures a == b {
      LexAntisymmetric(a, b);
    }
  }

  /** The keys in the order encoding/json writes a map. */
  function SortedKeys(ks: set<string>): (r: seq<string>)
    ensures forall k :: k in r <==> k in ks
  {
    if ks == {} then []
    else
      LeastExists(ks);
      LeastIsUnique(ks);
      var k :| k in ks && IsLeast(k, ks);
      [k] + SortedKeys(ks - {k})
  }

  lemma {:induction false} SortedKeysOrder(ks: set<string>)
    ensures forall i, j :: 0 <= i < j < |SortedKeys(ks)| ==>
      LexLeq(SortedKeys(ks)[i], SortedKeys(ks)[j]) && SortedKeys(ks)[i] != SortedKeys(ks)[j]
  {
    if ks != {} {
      var r := SortedKeys(ks);
      var k := r[0];
      LeastExists(ks);
      assert IsLeast(k, ks) && r == [k] + SortedKeys(ks - {k});
      SortedKeysOrder(ks - {k});
      forall j | 0 < j < |r| ensures LexLeq(k, r[j]) && k != r[j] {
        assert r[j] in SortedKeys(ks - {k});
      }
    }
  }

  function Encode(v: Value): Json
    decreases v
  {
    match v
    case Map(fields) => Obj(EncodeMembers(v, SortedKeys(fields.Keys)))
    case List(es) => Arr(EncodeAll(es))
    case Text(s) => Str(s)
    case Number(n) => Num(n)
    case Truth(b) => Bool(b)
    case Nil => Null
  }

  function EncodeMembers(v: Value, ks: seq<string>): (ms: seq<Member>)
    requires v.Map? && forall k :: k in ks ==> k in v.fields
    ensures |ms| == |ks| && forall i :: 0 <= i < |ks| ==> ms[i].key == ks[i]
    decreases v, |ks|
  {
    if ks == [] then []
    else
      var last := ks[|ks| - 1];
      EncodeMembers(v, ks[..|ks| - 1]) + [Member(last, Encode(v.fields[last]))]
  }

  function EncodeAll(es: seq<Value>): seq<Json>
    decreases es, 1
  {
    if es == [] then [] else EncodeAll(es[..|es| - 1]) + [Encode(es[|es| - 1])]
  }

  lemma {:induction false} DecodeEncodedMembers(v: Value, ks: seq<string>)
    requires v.Map? && forall k :: k in ks ==> k in v.fields
    ensures DecodeMembers(EncodeMembers(v, ks)) == map k | k in ks :: v.fields[k]
    decreases v, |ks|
  {
    if ks != [] {
      var init, last := ks[..|ks| - 1], ks[|ks| - 1];
      assert ks == init + [last];
      DecodeEncodedMembers(v, init);
      DecodeEncode(v.fields[last]);
      var ms := EncodeMembers(v, init);
      assert (ms + [Member(last, Encode(v.fields[last]))])[..|ms|] == ms;
    }
  }

  lemma DecodeAllSnoc(items: seq<Json>, j: Json)
    ensures DecodeAll(items + [j]) == DecodeAll(items) + [Decode(j)]
  {
    assert (items + [j])[..|items|] == items;
  }

  lemma {:induction false} DecodeEncodedAll(es: seq<Value>)
    ensures DecodeAll(EncodeAll(es)) == es
    decreases es, 1
  {
    if es != [] {
      var init, last := es[..|es| - 1], es[|es| - 1];
      DecodeEncodedAll(init);
      DecodeEncode(last);
      DecodeAllSnoc(EncodeAll(init), Encode(last));
      assert EncodeAll(es) == EncodeAll(init) + [Encode(last)] && es == init + [last];
    }
  }

  lemma {:induction false} DecodeEncodedMap(v: Value, ks: seq<string>)
    requires v.Map? && forall k :: k in ks <==> k in v.fields
    ensures DecodeMembers(EncodeMembers(v, ks)) == v.fields
    decreases v, |ks| + 1
  {
    DecodeEncodedMembers(v, ks);
    assert (map k | k in ks :: v.fields[k]) == v.fields;
  }

  /** Marshal then Unmarshal is the identity on every Go value. */
  lemma {:induction false} DecodeEncode(v: Value)
    ensures Decode(Encode(v)) == v
    decreases v
  {
    if v.Map? {
      var ks := SortedKeys(v.fields.Keys);
      DecodeEncodedMap(v, ks);
      var ms := EncodeMembers(v, ks);
      assert Decode(Obj(ms)) == Map(DecodeMembers(ms));
    } else if v.List? {
      DecodeEncodedAll(v.elements);
    }
  }

  // ---- The message id ---------------------------------------------------------------

  /** encoding/json matches struct fields without regard to case. */
  predicate FoldsToId(key: string) { key == "id" || key == "Id" || key == "iD" || key == "ID" }

  predicate IsBadId(m: Member) { FoldsToId(m.key) && !m.value.Str? && !m.value.Null? }

  /** The last string wins; null leaves the field alone. */
  function LastId(ms: seq<Member>): string {
    if ms == [] then ""
    else
      var last := ms[|ms| - 1];
      if FoldsToId(last.key) && last.value.Str? then last.value.s else LastId(ms[..|ms| - 1])
  }

  /** extractMessageID: a payload that is no object, or has an id that is no string, has none. */
  function ExtractId(j: Json): string {
    if !j.Obj? || (exists i :: 0 <= i < |j.members| && IsBadId(j.members[i])) then "" else LastId(j.members)
  }

  // ---- Content stripping ------------------------------------------------------------

  function Properties(j: Json): Option<map<string, Value>> {
    if !j.Obj? then None
    else
      var doc := DecodeMembers(j.members);
      if "properties" in doc && doc["properties"].Map? then Some(doc["properties"].fields) else None
  }

  /** stripPropertiesContent: rewrites the payload only when there is something to delete. */
  function Strip(j: Json): Json {
    match Properties(j)
    case None => j
    case Some(props) =>
      if "content" !in props then j
      else Encode(Map(DecodeMembers(j.members)["properties" := Map(props - {"content"})]))
  }

  predicate HasContent(j: Json) { Properties(j).Some? && "content" in Properties(j).value }

  /** After stripping there is no properties.content, every other top-level member and every
      other property has the value it had, and stripping again changes nothing. */
  lemma StripIsExact(j: Json)
    ensures !HasContent(Strip(j)) && Strip(Strip(j)) == Strip(j)
    ensures HasContent(j) ==>
      && Strip(j).Obj?
      && var before, after := DecodeMembers(j.members), DecodeMembers(Strip(j).members);
      && after.Keys == before.Keys
      && (forall k :: k in before && k != "properties" ==> after[k] == before[k])
      && Properties(Strip(j)) == Some(Properties(j).value - {"content"})
  {
    if HasContent(j) {
      var after := Map(DecodeMembers(j.members)["properties" := Map(Properties(j).value - {"content"})]);
      DecodeEncode(after);
      assert Decode(Strip(j)) == after;
    }
  }

  // ---- Does stripping keep the id? --------------------------------------------------

  lemma {:induction false} LastIdSkips(ms: seq<Member>, i: nat)
    requires i <= |ms| && forall k :: i <= k < |ms| ==> !(FoldsToId(ms[k].key) && ms[k].value.Str?)
    ensures LastId(ms) == LastId(ms[..i])
  {
    if i < |ms| {
      LastIdSkips(ms[..|ms| - 1], i);
      assert ms[..|ms| - 1][..i] == ms[..i];
    } else {
      assert ms[..i] == ms;
    }
  }

  predicate IsId(m: Member) { FoldsToId(m.key) }

  /** The value of the last member with a key: the one a decoded map holds. */
  function LastOf(ms: seq<Member>, key: string): Option<Json> {
    if ms == [] then None
    else
      var last := ms[|ms| - 1];
      if last.key == key then Some(last.value) else LastOf(ms[..|ms| - 1], key)
  }

  lemma {:induction false} DecodedIsLast(ms: seq<Member>, key: string)
    ensures key in DecodeMembers(ms) <==> LastOf(ms, key).Some?
    ensures key in DecodeMembers(ms) ==> DecodeMembers(ms)[key] == Decode(LastOf(ms, key).value)
  {
    if ms != [] {
      DecodedIsLast(ms[..|ms| - 1], key);
    }
  }

  /** Neither a string nor null. */
  predicate BadAt(ms: seq<Member>, key: string) {
    LastOf(ms, key).Some? && !LastOf(ms, key).value.Str? && !LastOf(ms, key).value.Null?
  }

  function StringAt(ms: seq<Member>, key: string): Option<string> {
    if LastOf(ms, key).Some? && LastOf(ms, key).value.Str? then Some(LastOf(ms, key).value.s) else None
  }

  /** What the members of a payload say its id will be once content has been stripped: of every
      spelling the last member counts; none may be of the wrong type, and among those that are
      strings the greatest spelling wins. */
  function IdAfterStripping(ms: seq<Member>): string {
    if BadAt(ms, "id") || BadAt(ms, "iD") || BadAt(ms, "Id") || BadAt(ms, "ID") then ""
    else if StringAt(ms, "id").Some? then StringAt(ms, "id").value
    else if StringAt(ms, "iD").Some? then StringAt(ms, "iD").value
    else if StringAt(ms, "Id").Some? then StringAt(ms, "Id").value
    else if StringAt(ms, "ID").Some? then StringAt(ms, "ID").value
    else ""
  }

  // ---- What stripping writes --------------------------------------------------------

  ghost predicate KeysInOrder(ms: seq<Member>) {
    forall a, b :: 0 <= a < b < |ms| ==> LexLeq(ms[a].key, ms[b].key) && ms[a].key != ms[b].key
  }

  lemma EncodedInOrder(v: Value, ks: seq<string>)
    requires v.Map? && forall k :: k in ks ==> k in v.fields
    requires forall a, b :: 0 <= a < b < |ks| ==> LexLeq(ks[a], ks[b]) && ks[a] != ks[b]
    ensures KeysInOrder(EncodeMembers(v, ks))
  {
  }

  lemma {:induction false} EncodedMember(v: Value, ks: seq<string>, p: nat)
    requires v.Map? && (forall k :: k in ks ==> k in v.fields) && p < |ks|
    ensures EncodeMembers(v, ks)[p] == Member(ks[p], Encode(v.fields[ks[p]]))
  {
    if p < |ks| - 1 {
      EncodedMember(v, ks[..|ks| - 1], p);
    }
  }

  /** Read as an id the two are the same. */
  predicate SameRead(a: Json, b: Json) {
    (a.Str? <==> b.Str?) && (a.Str? ==> a.s == b.s) && (a.Null? <==> b.Null?)
  }

  lemma RewrittenReadsSame(o: Json)
    ensures SameRead(o, Encode(Decode(o)))
  {
  }

  /** The id members of `out` are the last ones of `ms` with each spelling, in key order. */
  ghost predicate KeepsIds(ms: seq<Member>, out: seq<Member>) {
    && KeysInOrder(out)
    && (forall p :: 0 <= p < |out| && IsId(out[p]) ==> KeepsMember(ms, out[p]))
    && (forall key :: FoldsToId(key) && LastOf(ms, key).Some? ==> HasKey(out, key))
  }

  predicate KeepsMember(ms: seq<Member>, m: Member) {
    LastOf(ms, m.key).Some? && SameRead(LastOf(ms, m.key).value, m.value)
  }

  ghost predicate HasKey(ms: seq<Member>, key: string) { exists p :: 0 <= p < |ms| && ms[p].key == key }

  /** No spelling of the id is touched. */
  ghost predicate SameIds(ms: seq<Member>, fields: map<string, Value>) {
    forall k :: FoldsToId(k) ==>
      (k in fields <==> k in DecodeMembers(ms)) && (k in fields ==> fields[k] == DecodeMembers(ms)[k])
  }

  /** The members stripping writes: one per key, in key order. */
  lemma StrippedMembers(j: Json) returns (fields: map<string, Value>, ks: seq<string>)
    requires HasContent(j)
    ensures SameIds(j.members, fields)
    ensures forall k :: k in ks <==> k in fields
    ensures forall a, b :: 0 <= a < b < |ks| ==> LexLeq(ks[a], ks[b]) && ks[a] != ks[b]
    ensures Strip(j) == Obj(EncodeMembers(Map(fields), ks))
  {
    fields := DecodeMembers(j.members)["properties" := Map(Properties(j).value - {"content"})];
    ks := SortedKeys(fields.Keys);
    SortedKeysOrder(fields.Keys);
  }

  lemma IdIsKept(ms: seq<Member>, fields: map<string, Value>, ks: seq<string>, p: nat)
    requires (forall k :: k in ks ==> k in fields) && SameIds(ms, fields) && p < |ks| && FoldsToId(ks[p])
    ensures KeepsMember(ms, EncodeMembers(Map(fields), ks)[p])
  {
    EncodedMember(Map(fields), ks, p);
    assert ks[p] in fields;
    DecodedIsLast(ms, ks[p]);
    RewrittenReadsSame(LastOf(ms, ks[p]).value);
  }

  lemma StripKeepsIds(j: Json) returns (out: seq<Member>)
    requires HasContent(j)
    ensures Strip(j) == Obj(out) && KeepsIds(j.members, out)
  {
    var fields, ks := StrippedMembers(j);
    out := EncodeMembers(Map(fields), ks);
    EncodedInOrder(Map(fields), ks);
    forall p | 0 <= p < |out| && IsId(out[p]) ensures KeepsMember(j.members, out[p]) {
      IdIsKept(j.members, fields, ks, p);
    }
    forall key | FoldsToId(key) && LastOf(j.members, key).Some? ensures HasKey(out, key) {
      DecodedIsLast(j.members, key);
      var p :| 0 <= p < |ks| && ks[p] == key;
      assert out[p].key == key;
    }
  }

  // ---- The id that results ----------------------------------------------------------

  function Rank(key: string): nat {
    if key == "id" then 3 else if key == "iD" then 2 else if key == "Id" then 1 else 0
  }

  /** The spellings in the order keys are written. */
  lemma SpellingOrder(a: string, b: string)
    requires FoldsToId(a) && FoldsToId(b) && LexLeq(a, b) && a != b
    ensures Rank(a) < Rank(b)
  {
    assert !LexLeq("id", "iD") && !LexLeq("id", "Id") && !LexLeq("id", "ID");
    assert !LexLeq("iD", "Id") && !LexLeq("iD", "ID") && !LexLeq("Id", "ID");
  }

  /** The greatest spelling that is a string decides. */
  lemma GreatestDecides(ms: seq<Member>, out: seq<Member>, key: string)
    requires KeepsIds(ms, out) && FoldsToId(key) && StringAt(ms, key).Some?
    requires forall k :: FoldsToId(k) && Rank(key) < Rank(k) ==> StringAt(ms, k).None?
    ensures LastId(out) == StringAt(ms, key).value
  {
    var p :| 0 <= p < |out| && out[p].key == key;
    assert KeepsMember(ms, out[p]);
    forall q | p < q < |out| ensures !(FoldsToId(out[q].key) && out[q].value.Str?) {
      if FoldsToId(out[q].key) {
        SpellingOrder(out[p].key, out[q].key);
        assert KeepsMember(ms, out[q]);
      }
    }
    LastIdSkips(out, p + 1);
    assert out[..p + 1][|out[..p + 1]| - 1] == out[p];
  }

  lemma NoneDecides(ms: seq<Member>, out: seq<Member>)
    requires KeepsIds(ms, out) && forall k :: FoldsToId(k) ==> StringAt(ms, k).None?
    ensures LastId(out) == ""
  {
    forall q | 0 <= q < |out| ensures !(FoldsToId(out[q].key) && out[q].value.Str?) {
      if FoldsToId(out[q].key) {
        assert KeepsMember(ms, out[q]);
      }
    }
    LastIdSkips(out, 0);
  }

  lemma BadStaysBad(ms: seq<Member>, out: seq<Member>, key: string)
    requires KeepsIds(ms, out) && FoldsToId(key) && BadAt(ms, key)
    ensures ExtractId(Obj(out)) == ""
  {
    var p :| 0 <= p < |out| && out[p].key == key;
    assert KeepsMember(ms, out[p]);
    assert IsBadId(out[p]);
  }

  lemma NoneBad(ms: seq<Member>, out: seq<Member>)
    requires KeepsIds(ms, out) && forall k :: FoldsToId(k) ==> !BadAt(ms, k)
    ensures ExtractId(Obj(out)) == LastId(out)
  {
    forall p | 0 <= p < |out| ensures !IsBadId(out[p]) {
      if IsId(out[p]) {
        assert KeepsMember(ms, out[p]);
      }
    }
  }

  lemma OutputId(ms: seq<Member>, out: seq<Member>)
    requires KeepsIds(ms, out)
    ensures ExtractId(Obj(out)) == IdAfterStripping(ms)
  {
    if key :| FoldsToId(key) && BadAt(ms, key) {
      BadStaysBad(ms, out, key);
    } else {
      NoneBad(ms, out);
      if StringAt(ms, "id").Some? {
        GreatestDecides(ms, out, "id");
      } else if StringAt(ms, "iD").Some? {
        GreatestDecides(ms, out, "iD");
      } else if StringAt(ms, "Id").Some? {
        GreatestDecides(ms, out, "Id");
      } else if StringAt(ms, "ID").Some? {
        GreatestDecides(ms, out, "ID");
      } else {
        NoneDecides(ms, out);
      }
    }
  }

  /** Exactly what stripping does to the id of any payload whatsoever, and so exactly when the
      published message has the id dedup was asked about. */
  lemma StripKeepsIdExactly(j: Json)
    ensures ExtractId(Strip(j)) == if HasContent(j) then IdAfterStripping(j.members) else ExtractId(j)
    ensures ExtractId(Strip(j)) == ExtractId(j) <==> (HasContent(j) ==> IdAfterStripping(j.members) == ExtractId(j))
  {
    if HasContent(j) {
      var out := StripKeepsIds(j);
      OutputId(j.members, out);
    }
  }

  // ---- Payloads that keep it --------------------------------------------------------

  /** At most one member is an id in any spelling. */
  predicate Unambiguous(j: Json) {
    j.Obj? ==> forall k, l :: 0 <= k < l < |j.members| ==> !(IsId(j.members[k]) && IsId(j.members[l]))
  }

  /** The only id member is the last one with its spelling, and other spellings have none. */
  lemma {:induction false} OnlyLast(ms: seq<Member>, i: nat, key: string)
    requires i < |ms| && IsId(ms[i]) && FoldsToId(key) && forall k :: 0 <= k < |ms| && k != i ==> !IsId(ms[k])
    ensures LastOf(ms, key) == if ms[i].key == key then Some(ms[i].value) else None
  {
    var n := |ms| - 1;
    if i < n {
      assert ms[n].key != key;
      OnlyLast(ms[..n], i, key);
    } else if ms[n].key != key {
      NoLast(ms[..n], key);
    }
  }

  lemma {:induction false} NoLast(ms: seq<Member>, key: string)
    requires FoldsToId(key) && forall k :: 0 <= k < |ms| ==> !IsId(ms[k])
    ensures LastOf(ms, key) == None
  {
    if ms != [] {
      assert ms[|ms| - 1].key != key;
      NoLast(ms[..|ms| - 1], key);
    }
  }

  lemma OneIdMember(ms: seq<Member>, p: nat)
    requires p < |ms| && IsId(ms[p]) && forall k :: 0 <= k < |ms| && k != p ==> !IsId(ms[k])
    ensures ExtractId(Obj(ms)) == (if ms[p].value.Str? then ms[p].value.s else "")
    ensures IdAfterStripping(ms) == ExtractId(Obj(ms))
  {
    forall key | FoldsToId(key) ensures LastOf(ms, key) == if ms[p].key == key then Some(ms[p].value) else None {
      OnlyLast(ms, p, key);
    }
    if ms[p].value.Str? {
      LastIdSkips(ms, p + 1);
      assert ms[..p + 1][|ms[..p + 1]| - 1] == ms[p];
    } else {
      LastIdSkips(ms, 0);
    }
  }

  lemma NoIdMember(ms: seq<Member>)
    requires forall k :: 0 <= k < |ms| ==> !IsId(ms[k])
    ensures ExtractId(Obj(ms)) == "" == IdAfterStripping(ms)
  {
    LastIdSkips(ms, 0);
    forall key | FoldsToId(key) ensures LastOf(ms, key) == None {
      NoLast(ms, key);
    }
  }

  /** For a payload with at most one id member, stripping keeps the id dedup keys on, whatever
      the type of that member. */
  lemma StripKeepsId(j: Json)
    requires Unambiguous(j)
    ensures ExtractId(Strip(j)) == ExtractId(j)
  {
    StripKeepsIdExactly(j);
    if HasContent(j) {
      if i :| 0 <= i < |j.members| && IsId(j.members[i]) {
        OneIdMember(j.members, i);
      } else {
        NoIdMember(j.members);
      }
    }
  }

  // ---- Payloads that do not ---------------------------------------------------------

  const CONTENT := Member("properties", Obj([Member("content", Null)]))

  lemma WithContent(ms: seq<Member>)
    ensures HasContent(Obj(ms + [CONTENT]))
    ensures forall key :: FoldsToId(key) ==> LastOf(ms + [CONTENT], key) == LastOf(ms, key)
    ensures LastId(ms + [CONTENT]) == LastId(ms)
  {
    var all, inner := ms + [CONTENT], [Member("content", Null)];
    assert all[..|all| - 1] == ms;
    DecodedIsLast(all, "properties");
    DecodedIsLast(inner, "content");
    assert Properties(Obj(all)) == Some(DecodeMembers(inner));
  }

  function LastOfTwo(a: Member, b: Member, key: string): Option<Json> {
    if b.key == key then Some(b.value) else if a.key == key then Some(a.value) else None
  }

  /** Two id members, then the content. */
  lemma TwoIds(a: Member, b: Member)
    requires IsId(a) && IsId(b)
    ensures var ms := [a, b] + [CONTENT];
            && HasContent(Obj(ms))
            && ExtractId(Obj(ms)) == (if IsBadId(a) || IsBadId(b) then "" else if b.value.Str? then b.value.s
                                      else if a.value.Str? then a.value.s else "")
            && forall key :: FoldsToId(key) ==> LastOf(ms, key) == LastOfTwo(a, b, key)
  {
    var two := [a, b];
    var ms := two + [CONTENT];
    WithContent(two);
    assert two[..1] == [a] && [a][..0] == [];
    assert ms[0] == a && ms[1] == b && !FoldsToId(ms[2].key);
    assert LastId([a]) == if a.value.Str? then a.value.s else "";
    forall key | FoldsToId(key) ensures LastOf(ms, key) == LastOfTwo(a, b, key) {
      assert LastOf([a], key) == if a.key == key then Some(a.value) else None;
    }
  }

  /** The published text carries "a" although dedup claimed "b". */
  lemma StripChangesAmbiguousId()
    ensures var j := Obj([Member("id", Str("a")), Member("ID", Str("b"))] + [CONTENT]);
            ExtractId(j) == "b" && ExtractId(Strip(j)) == "a"
  {
    TwoIds(Member("id", Str("a")), Member("ID", Str("b")));
    StripKeepsIdExactly(Obj([Member("id", Str("a")), Member("ID", Str("b"))] + [CONTENT]));
  }

  const NULLED := Obj([Member("id", Str("a")), Member("id", Null)] + [CONTENT])

  /** In one spelling: null leaves the struct field alone but is what the map holds, so the
      message dedup claimed as "a" is published without an id. */
  lemma StripLosesNulledId()
    ensures HasContent(NULLED) && ExtractId(NULLED) == "a" && ExtractId(Strip(NULLED)) == ""
  {
    TwoIds(Member("id", Str("a")), Member("id", Null));
    StripKeepsIdExactly(NULLED);
  }

  /** And a number before the string: dedup was not asked, and the message gains an id. */
  lemma StripGainsId()
    ensures var j := Obj([Member("id", Num("5")), Member("id", Str("a"))] + [CONTENT]);
            ExtractId(j) == "" && ExtractId(Strip(j)) == "a"
  {
    TwoIds(Member("id", Num("5")), Member("id", Str("a")));
    StripKeepsIdExactly(Obj([Member("id", Num("5")), Member("id", Str("a"))] + [CONTENT]));
  }
}
