/** Cleaning a JSON schema before it is compiled (internal/wnm): nested "$id" and "$schema" keys
    and patterns the regular expression engine refuses are dropped. What compiles is an
    unknown predicate.

    The schema arrives as the Go value the document decodes to, is cleaned by one descent and is
    encoded again for the compiler. The root keeps its own "$id" and "$schema", every other
    object loses them, and so does an object that merely has members of those names, such as
    the "properties" of a schema that describes them. Nothing else changes: a path leads to the
    same thing before and after unless it passes through a dropped key, and cleaning twice is
    cleaning once. */
module Schema {
  import opened Options
  import opened Json

  const ID := "$id"
  const SCHEMA := "$schema"
  const PATTERN := "pattern"

  type Engine = string -> bool

  predicate HasBadPattern(fields: map<string, Value>, compiles: Engine) {
    PATTERN in fields && fields[PATTERN].Text? && !compiles(fields[PATTERN].s)
  }

  /** The keys an object loses. */
  function Dropped(fields: map<string, Value>, root: bool, compiles: Engine): set<string> {
    (if root then {} else {ID, SCHEMA}) + (if HasBadPattern(fields, compiles) then {PATTERN} else {})
  }

  function Clean(v: Value, root: bool, compiles: Engine): Value
    decreases v
  {
    match v
    case Map(fields) =>
      Map(map k | k in fields && k !in Dropped(fields, root, compiles) :: Clean(v.fields[k], false, compiles))
    case List(es) => List(seq(|es|, i requires 0 <= i < |es| => Clean(v.elements[i], false, compiles)))
    case _ => v
  }

  /** stripNestedIDs, returning the tree it leaves. */
  method StripNestedIDs(v: Value, root: bool, compiles: Engine) returns (r: Value)
    ensures r == Clean(v, root, compiles)
    decreases v
  {
    match v {
      case Map(fields) =>
        var kept := fields;
        if !root {
          kept := kept - {ID};
          kept := kept - {SCHEMA};
        }
        if PATTERN in kept && kept[PATTERN].Text? && !compiles(kept[PATTERN].s) {
          kept := kept - {PATTERN};
        }
        assert kept.Keys == fields.Keys - Dropped(fields, root, compiles);
        r := CleanFields(v, kept, compiles);
      case List(es) =>
        var done: seq<Value> := [];
        var i := 0;
        while i < |es|
          invariant 0 <= i <= |es| && |done| == i
          invariant forall k :: 0 <= k < i ==> done[k] == Clean(es[k], false, compiles)
        {
          var child := StripNestedIDs(v.elements[i], false, compiles);
          done := done + [child];
          i := i + 1;
        }
        r := List(done);
      case _ => r := v;
    }
  }

  /** The loop over the children of an object. */
  method CleanFields(v: Value, kept: map<string, Value>, compiles: Engine) returns (r: Value)
    requires v.Map? && forall k :: k in kept ==> k in v.fields && kept[k] == v.fields[k]
    ensures r == Map(map k | k in kept :: Clean(kept[k], false, compiles))
    decreases v, 0
  {
    var done: map<string, Value> := map[];
    var left := kept.Keys;
    while left != {}
      invariant left <= kept.Keys && done.Keys == kept.Keys - left
      invariant forall k :: k in done ==> done[k] == Clean(kept[k], false, compiles)
    {
      var k :| k in left;
      var child := StripNestedIDs(v.fields[k], false, compiles);
      done := done[k := child];
      left := left - {k};
    }
    r := Map(done);
  }

  // ---- Paths ------------------------------------------------------------------------

  datatype Step = Key(k: string) | At(i: nat)

  function Child(v: Value, step: Step): Option<Value> {
    match step
    case Key(k) => if v.Map? && k in v.fields then Some(v.fields[k]) else None
    case At(i) => if v.List? && i < |v.elements| then Some(v.elements[i]) else None
  }

  function Get(v: Value, path: seq<Step>): Option<Value> {
    if path == [] then Some(v)
    else
      match Child(v, path[0])
      case None => None
      case Some(child) => Get(child, path[1..])
  }

  /** No step of the path goes through a key that is dropped. */
  predicate Survives(v: Value, root: bool, path: seq<Step>, compiles: Engine) {
    path == [] ||
    (&& (v.Map? && path[0].Key? ==> path[0].k !in Dropped(v.fields, root, compiles))
     && (Child(v, path[0]).Some? ==> Survives(Child(v, path[0]).value, false, path[1..], compiles)))
  }

  lemma ChildOfClean(v: Value, root: bool, step: Step, compiles: Engine)
    ensures var child := Child(v, step);
            Child(Clean(v, root, compiles), step) ==
              if child.Some? && !(v.Map? && step.k in Dropped(v.fields, root, compiles))
              then Some(Clean(child.value, false, compiles)) else None
  {
  }

  /** The cleanup is exact. What it leaves at a path is the cleaned subtree that was there, so
      every leaf keeps its value; and a path is gone exactly when it led through a dropped
      key. */
  lemma {:induction false} CleanIsExact(v: Value, root: bool, path: seq<Step>, compiles: Engine)
    ensures var was := Get(v, path);
            Get(Clean(v, root, compiles), path) ==
              if was.Some? && Survives(v, root, path, compiles)
              then Some(Clean(was.value, root && path == [], compiles)) else None
    decreases |path|
  {
    if path != [] {
      ChildOfClean(v, root, path[0], compiles);
      match Child(v, path[0]) {
        case None =>
        case Some(child) => CleanIsExact(child, false, path[1..], compiles);
      }
    }
  }

  // ---- Acceptable schemas -----------------------------------------------------------

  predicate AcceptableObject(fields: map<string, Value>, root: bool, compiles: Engine) {
    (root || (ID !in fields && SCHEMA !in fields)) && !HasBadPattern(fields, compiles)
  }

  /** Only the root may carry "$id" or "$schema", and every pattern anywhere compiles. */
  ghost predicate Acceptable(v: Value, root: bool, compiles: Engine) {
    forall path :: Get(v, path).Some? && Get(v, path).value.Map? ==>
      AcceptableObject(Get(v, path).value.fields, root && path == [], compiles)
  }

  lemma TextIsKept(v: Value, compiles: Engine)
    ensures Clean(v, false, compiles).Text? <==> v.Text?
    ensures v.Text? ==> Clean(v, false, compiles) == v
  {
  }

  lemma CleanObject(v: Value, root: bool, compiles: Engine)
    requires v.Map?
    ensures AcceptableObject(Clean(v, root, compiles).fields, root, compiles)
  {
    var after := Clean(v, root, compiles).fields;
    if PATTERN in after && after[PATTERN].Text? {
      TextIsKept(v.fields[PATTERN], compiles);
      assert after[PATTERN] == Clean(v.fields[PATTERN], false, compiles);
    }
  }

  lemma CleanIsAcceptable(v: Value, root: bool, compiles: Engine)
    ensures Acceptable(Clean(v, root, compiles), root, compiles)
  {
    var c := Clean(v, root, compiles);
    forall path | Get(c, path).Some? && Get(c, path).value.Map?
      ensures AcceptableObject(Get(c, path).value.fields, root && path == [], compiles)
    {
      CleanIsExact(v, root, path, compiles);
      CleanObject(Get(v, path).value, root && path == [], compiles);
    }
  }

  // ---- By the keys themselves -------------------------------------------------------

  /** Whatever the path, a pattern that is left compiles. */
  lemma PatternsCompile(v: Value, root: bool, path: seq<Step>, compiles: Engine)
    requires var left := Get(Clean(v, root, compiles), path);
             && left.Some? && left.value.Map? && "pattern" in left.value.fields
             && left.value.fields["pattern"].Text?
    ensures compiles(Get(Clean(v, root, compiles), path).value.fields["pattern"].s)
  {
    CleanIsExact(v, root, path, compiles);
    CleanObject(Get(v, path).value, root && path == [], compiles);
  }

  /** Which keys an object that is still there has lost: "$id" and "$schema" below the root, and a
      "pattern" that is a text and does not compile. Every other key is there, and no new one. */
  lemma KeysLeft(v: Value, root: bool, path: seq<Step>, k: string, compiles: Engine)
    requires Get(Clean(v, root, compiles), path).Some? && Get(Clean(v, root, compiles), path).value.Map?
    ensures Get(v, path).Some? && Get(v, path).value.Map?
    ensures var fields := Get(v, path).value.fields;
            k in Get(Clean(v, root, compiles), path).value.fields <==>
              && k in fields
              && !((k == "$id" || k == "$schema") && !(root && path == []))
              && !(k == "pattern" && fields[k].Text? && !compiles(fields[k].s))
  {
    CleanIsExact(v, root, path, compiles);
  }

  /** No element of a list is lost or moved, and nothing but objects loses anything. */
  lemma ListsStay(v: Value, root: bool, path: seq<Step>, compiles: Engine)
    requires Get(Clean(v, root, compiles), path).Some?
    ensures Get(v, path).Some?
    ensures var was, left := Get(v, path).value, Get(Clean(v, root, compiles), path).value;
            && (was.Map? <==> left.Map?) && (was.List? <==> left.List?)
            && (was.List? ==> |left.elements| == |was.elements|)
            && (!was.Map? && !was.List? ==> left == was)
  {
    CleanIsExact(v, root, path, compiles);
  }

  lemma ChildIsAcceptable(v: Value, root: bool, step: Step, compiles: Engine)
    requires Acceptable(v, root, compiles) && Child(v, step).Some?
    ensures Acceptable(Child(v, step).value, false, compiles)
  {
    var child := Child(v, step).value;
    forall path | Get(child, path).Some? && Get(child, path).value.Map?
      ensures AcceptableObject(Get(child, path).value.fields, false, compiles)
    {
      assert ([step] + path)[1..] == path;
      assert Get(v, [step] + path) == Get(child, path);
    }
  }

  lemma {:induction false} AcceptableIsLeftAlone(v: Value, root: bool, compiles: Engine)
    requires Acceptable(v, root, compiles)
    ensures Clean(v, root, compiles) == v
    decreases v
  {
    assert Get(v, []) == Some(v);
    match v {
      case Map(fields) =>
        forall k | k in fields ensures Clean(v.fields[k], false, compiles) == v.fields[k] {
          ChildIsAcceptable(v, root, Key(k), compiles);
          AcceptableIsLeftAlone(v.fields[k], false, compiles);
        }
        assert Clean(v, root, compiles).fields == fields;
      case List(es) =>
        forall i | 0 <= i < |es| ensures Clean(v.elements[i], false, compiles) == v.elements[i] {
          ChildIsAcceptable(v, root, At(i), compiles);
          AcceptableIsLeftAlone(v.elements[i], false, compiles);
        }
        assert Clean(v, root, compiles).elements == es;
      case _ =>
    }
  }

  /** The cleanup changes nothing exactly when there was nothing to clean, and always leaves
      nothing to clean: a second run changes nothing. */
  lemma CleanIsIdempotent(v: Value, root: bool, compiles: Engine)
    ensures Clean(v, root, compiles) == v <==> Acceptable(v, root, compiles)
    ensures Clean(Clean(v, root, compiles), root, compiles) == Clean(v, root, compiles)
  {
    CleanIsAcceptable(v, root, compiles);
    AcceptableIsLeftAlone(Clean(v, root, compiles), root, compiles);
    if Acceptable(v, root, compiles) {
      AcceptableIsLeftAlone(v, root, compiles);
    }
  }

  /** The document handed to the schema compiler: decoded, cleaned, encoded again. Reading it
      back gives an acceptable schema. */
  lemma CompilerGetsAcceptable(doc: Json, compiles: Engine)
    ensures Acceptable(Decode(Encode(Clean(Decode(doc), true, compiles))), true, compiles)
  {
    DecodeEncode(Clean(Decode(doc), true, compiles));
    CleanIsAcceptable(Decode(doc), true, compiles);
  }
}
