/** The definitions a tool's schema carries: `refs_in` and `reachable` of
    crates/yeomna-mcp/src/tools.rs. */
module Schemas {
  import opened Json

  type Defs = map<string, Value>

  const DEFS := "#/$defs/"

  /** The name a member points at, if it is a `$ref` into the definitions. */
  function Pointer(f: Field): Option<string> {
    if f.key == "$ref" && f.value.String? && DEFS <= f.value.s then Some(f.value.s[|DEFS|..]) else None
  }

  /** Every definition a value points at, directly, in the order it is met. */
  function Refs(v: Value): seq<string>
    decreases v, 0
  {
    match v
    case Object(fields) => FieldRefs(fields)
    case Array(items) => ItemRefs(items)
    case _ => []
  }

  function FieldRefs(fields: seq<Field>): seq<string>
    decreases fields, 1
  {
    if fields == [] then []
    else
      var f := fields[|fields| - 1];
      FieldRefs(fields[..|fields| - 1]) + ((if Pointer(f).Some? then [Pointer(f).value] else []) + Refs(f.value))
  }

  function ItemRefs(items: seq<Value>): seq<string>
    decreases items, 1
  {
    if items == [] then [] else ItemRefs(items[..|items| - 1]) + Refs(items[|items| - 1])
  }

  /** The value stands in the other, at any depth. */
  ghost predicate Inside(v: Value, w: Value)
    decreases w
  {
    v == w
    || (w.Array? && exists i :: 0 <= i < |w.items| && Inside(v, w.items[i]))
    || (w.Object? && exists i :: 0 <= i < |w.fields| && Inside(v, w.fields[i].value))
  }

  /** Some object in the value, at any depth, points at the name. */
  ghost predicate PointsAt(v: Value, name: string) {
    exists w :: Inside(w, v) && HasRef(w, name)
  }

  ghost predicate HasRef(w: Value, name: string) {
    w.Object? && RefTo(name) in w.fields
  }

  /** The member that points at a definition. */
  function RefTo(name: string): Field {
    Field("$ref", String("#/$defs/" + name))
  }

  lemma PointerIs(f: Field, name: string)
    ensures Pointer(f) == Some(name) <==> f == RefTo(name)
  {
    if Pointer(f) == Some(name) {
      assert f.value.s == DEFS + f.value.s[|DEFS|..];
    }
    assert ("#/$defs/" + name)[|DEFS|..] == name;
  }

  lemma {:induction false} FieldRefsAre(fields: seq<Field>, name: string)
    ensures name in FieldRefs(fields) <==>
      exists i :: 0 <= i < |fields| && (fields[i] == RefTo(name) || name in Refs(fields[i].value))
  {
    hide Refs, Pointer, RefTo;
    if fields != [] {
      var m := |fields| - 1;
      var init, last := fields[..m], fields[m];
      FieldRefsAre(init, name);
      PointerIs(last, name);
      hide FieldRefs;
      assert fields == init + [last];
      assert (exists i :: 0 <= i < |fields| && (fields[i] == RefTo(name) || name in Refs(fields[i].value))) <==>
        (exists i :: 0 <= i < |init| && (init[i] == RefTo(name) || name in Refs(init[i].value)))
        || last == RefTo(name) || name in Refs(last.value);
    }
  }

  lemma {:induction false} ItemRefsAre(items: seq<Value>, name: string)
    ensures name in ItemRefs(items) <==> exists i :: 0 <= i < |items| && name in Refs(items[i])
  {
    if items != [] {
      var m := |items| - 1;
      ItemRefsAre(items[..m], name);
      hide Refs;
      assert forall i :: 0 <= i < m ==> items[..m][i] == items[i];
    }
  }

  /** Main result: the names collected from a value are exactly those some object in it points at. */
  lemma {:induction false} RefsAre(v: Value, name: string)
    ensures name in Refs(v) <==> PointsAt(v, name)
    decreases v
  {
    match v
    case Object(fields) =>
      forall i | 0 <= i < |fields| ensures name in Refs(fields[i].value) <==> PointsAt(fields[i].value, name) {
        RefsAre(fields[i].value, name);
      }
      FieldRefsAre(fields, name);
      ObjectPoints(fields, name);
    case Array(items) =>
      forall i | 0 <= i < |items| ensures name in Refs(items[i]) <==> PointsAt(items[i], name) {
        RefsAre(items[i], name);
      }
      ItemRefsAre(items, name);
      ArrayPoints(items, name);
    case _ => assert forall w :: Inside(w, v) ==> w == v;
  }

  lemma ObjectPoints(fields: seq<Field>, name: string)
    ensures PointsAt(Object(fields), name) <==>
      exists i :: 0 <= i < |fields| && (fields[i] == RefTo(name) || PointsAt(fields[i].value, name))
  {
    var v := Object(fields);
    if PointsAt(v, name) {
      var w :| Inside(w, v) && HasRef(w, name);
      if w != v {
        var i :| 0 <= i < |fields| && Inside(w, fields[i].value);
        assert PointsAt(fields[i].value, name);
      }
    }
    forall i | 0 <= i < |fields| && PointsAt(fields[i].value, name) ensures PointsAt(v, name) {
      var w :| Inside(w, fields[i].value) && HasRef(w, name);
      assert Inside(w, v);
    }
    if RefTo(name) in fields {
      assert Inside(v, v) && HasRef(v, name);
    }
  }

  lemma ArrayPoints(items: seq<Value>, name: string)
    ensures PointsAt(Array(items), name) <==> exists i :: 0 <= i < |items| && PointsAt(items[i], name)
  {
    var v := Array(items);
    if PointsAt(v, name) {
      var w :| Inside(w, v) && HasRef(w, name);
      var i :| 0 <= i < |items| && Inside(w, items[i]);
      assert PointsAt(items[i], name);
    }
    forall i | 0 <= i < |items| && PointsAt(items[i], name) ensures PointsAt(v, name) {
      var w :| Inside(w, items[i]) && HasRef(w, name);
      assert Inside(w, v);
    }
  }

  /** `refs_in`: appends to `out`. */
  method RefsIn(v: Value, out: seq<string>) returns (out': seq<string>)
    ensures out' == out + Refs(v)
    decreases v
  {
    out' := out;
    match v
    case Object(fields) =>
      for i := 0 to |fields|
        invariant out' == out + FieldRefs(fields[..i])
      {
        assert fields[..i + 1][..i] == fields[..i];
        var pushed := out';
        if Pointer(fields[i]).Some? {
          pushed := pushed + [Pointer(fields[i]).value];
        }
        out' := RefsIn(fields[i].value, pushed);
      }
      assert fields[..|fields|] == fields;
    case Array(items) =>
      for i := 0 to |items|
        invariant out' == out + ItemRefs(items[..i])
      {
        assert items[..i + 1][..i] == items[..i];
        out' := RefsIn(items[i], out');
      }
      assert items[..|items|] == items;
    case _ =>
  }

  // ---- Closure ----

  /** The definitions among the names a value points at are in the set. */
  ghost predicate Covers(v: Value, defs: Defs, names: set<string>) {
    forall r :: r in Refs(v) && r in defs ==> r in names
  }

  /** Closed under references, from the schema on. */
  ghost predicate Closed(schema: Value, defs: Defs, names: set<string>) {
    Covers(schema, defs, names) && forall k :: k in names && k in defs ==> Covers(defs[k], defs, names)
  }

  /** A name reached from the schema in so many references, each through a definition. */
  ghost predicate ReachedIn(schema: Value, defs: Defs, name: string, steps: nat)
    decreases steps
  {
    && name in defs
    && if steps == 0 then name in Refs(schema)
       else exists k :: ReachedIn(schema, defs, k, steps - 1) && name in Refs(defs[k])
  }

  ghost predicate Reached(schema: Value, defs: Defs, name: string) {
    exists steps: nat :: ReachedIn(schema, defs, name, steps)
  }

  lemma {:induction false} ClosedHolds(schema: Value, defs: Defs, names: set<string>, name: string, steps: nat)
    requires Closed(schema, defs, names) && ReachedIn(schema, defs, name, steps)
    ensures name in names
    decreases steps
  {
    if steps > 0 {
      var k :| ReachedIn(schema, defs, k, steps - 1) && name in Refs(defs[k]);
      ClosedHolds(schema, defs, names, k, steps - 1);
    }
  }

  lemma ReachedFrom(schema: Value, defs: Defs, k: string, name: string)
    requires Reached(schema, defs, k) && k in defs && name in defs && name in Refs(defs[k])
    ensures Reached(schema, defs, name)
  {
    var steps: nat :| ReachedIn(schema, defs, k, steps);
    assert ReachedIn(schema, defs, name, steps + 1);
  }

  lemma ReachedFirst(schema: Value, defs: Defs, name: string)
    requires name in Refs(schema) && name in defs
    ensures Reached(schema, defs, name)
  {
    assert ReachedIn(schema, defs, name, 0);
  }

  /** What waits is reached; what is taken has all its references taken or waiting. */
  ghost predicate Working(schema: Value, defs: Defs, want: seq<string>, taken: Defs) {
    && (forall r :: r in Refs(schema) && r in defs ==> r in taken || r in want)
    && (forall k :: k in taken ==> k in defs && taken[k] == defs[k] && Reached(schema, defs, k))
    && (forall k, r :: k in taken && r in Refs(defs[k]) && r in defs ==> r in taken || r in want)
    && (forall w :: w in want && w in defs ==> Reached(schema, defs, w))
  }

  lemma Take(schema: Value, defs: Defs, want: seq<string>, taken: Defs, name: string)
    requires Working(schema, defs, want + [name], taken) && name in defs
    ensures Working(schema, defs, want + Refs(defs[name]), taken[name := defs[name]])
  {
    hide Reached, Refs;
    assert name in want + [name];
    forall w | w in Refs(defs[name]) && w in defs ensures Reached(schema, defs, w) {
      ReachedFrom(schema, defs, name, w);
    }
    forall w | w in want ensures w in want + [name] { }
    var taken' := taken[name := defs[name]];
    forall r | r in taken || r in want + [name] ensures r in taken' || r in want + Refs(defs[name]) { }
  }

  lemma Skip(schema: Value, defs: Defs, want: seq<string>, taken: Defs, name: string)
    requires Working(schema, defs, want + [name], taken) && (name in taken || name !in defs)
    ensures Working(schema, defs, want, taken)
  {
    hide Reached, Refs;
    forall w | w in want ensures w in want + [name] { }
  }

  /** The definitions not yet taken. */
  function Left(defs: Defs, taken: Defs): nat {
    |defs.Keys - taken.Keys|
  }

  /** `reachable`: it ends on cyclic definitions, and takes exactly the definitions reached from the
      schema, each as it stands. */
  method Reachable(schema: Value, defs: Defs) returns (taken: Defs)
    ensures forall k :: k in taken <==> Reached(schema, defs, k)
    ensures forall k :: k in taken ==> k in defs && taken[k] == defs[k]
    ensures Closed(schema, defs, taken.Keys)
  {
    hide Refs, Reached, Working, Closed, Left;
    var want := RefsIn(schema, []);
    taken := map[];
    assert [] + Refs(schema) == Refs(schema);
    Start(schema, defs);
    while want != []
      invariant Working(schema, defs, want, taken)
      decreases Left(defs, taken), |want|
    {
      var name := want[|want| - 1];
      assert want == want[..|want| - 1] + [name];
      want := want[..|want| - 1];
      if name in taken || name !in defs {
        Skip(schema, defs, want, taken, name);
        continue;
      }
      Take(schema, defs, want, taken, name);
      FewerLeft(defs, taken, name);
      taken := taken[name := defs[name]];
      want := RefsIn(defs[name], want);
    }
    Finish(schema, defs, taken);
  }

  lemma Start(schema: Value, defs: Defs)
    ensures Working(schema, defs, Refs(schema), map[])
  {
    hide Refs, Reached;
    forall w | w in Refs(schema) && w in defs ensures Reached(schema, defs, w) { ReachedFirst(schema, defs, w); }
  }

  lemma FewerLeft(defs: Defs, taken: Defs, name: string)
    requires name in defs && name !in taken
    ensures Left(defs, taken[name := defs[name]]) < Left(defs, taken)
  {
    assert name in defs.Keys - taken.Keys;
    assert defs.Keys - taken[name := defs[name]].Keys == defs.Keys - taken.Keys - {name};
  }

  lemma Finish(schema: Value, defs: Defs, taken: Defs)
    requires Working(schema, defs, [], taken)
    ensures forall k :: k in taken <==> Reached(schema, defs, k)
    ensures forall k :: k in taken ==> k in defs && taken[k] == defs[k]
    ensures Closed(schema, defs, taken.Keys)
  {
    hide Refs;
    forall k | Reached(schema, defs, k) ensures k in taken {
      var steps: nat :| ReachedIn(schema, defs, k, steps);
      ClosedHolds(schema, defs, taken.Keys, k, steps);
    }
  }

  /** Every reference resolves among the definitions. */
  ghost predicate Resolves(v: Value, defs: Defs) {
    forall r :: r in Refs(v) ==> r in defs
  }

  /** Main result: the definitions reached are the least closed set, and nothing dangles in what a
      tool carries when nothing dangled in the root. */
  lemma ReachedIsLeastClosed(schema: Value, defs: Defs, taken: Defs)
    requires forall k :: k in taken <==> Reached(schema, defs, k)
    requires forall k :: k in taken ==> k in defs && taken[k] == defs[k]
    ensures Closed(schema, defs, taken.Keys)
    ensures forall names :: Closed(schema, defs, names) ==> taken.Keys <= names
    ensures Resolves(schema, defs) && (forall k :: k in defs ==> Resolves(defs[k], defs)) ==>
      Resolves(schema, taken) && forall k :: k in taken ==> Resolves(taken[k], taken)
  {
    forall r | r in Refs(schema) && r in defs ensures r in taken { ReachedFirst(schema, defs, r); }
    forall k, r | k in taken && r in Refs(defs[k]) && r in defs ensures r in taken { ReachedFrom(schema, defs, k, r); }
    forall names, k | Closed(schema, defs, names) && k in taken ensures k in names {
      var steps: nat :| ReachedIn(schema, defs, k, steps);
      ClosedHolds(schema, defs, names, k, steps);
    }
  }
}
