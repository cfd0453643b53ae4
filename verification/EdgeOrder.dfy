/** Deduplicating edges while walking a hash map of files: what depends on the walk's order and what
    does not. Shared by crates/yeomna-code/src/rust_imports.rs and python_calls.rs. */
module EdgeOrder {

  /** A resolved edge; `name` and `detail` are the symbol and use path of an import, or the caller
      and callee of a call. */
  datatype Edge = Edge(key: string, from: string, to: string, source: string, target: string, name: string,
                       detail: string)

  /** The first edge under a key. */
  function FirstWith(es: seq<Edge>, key: string): (r: seq<Edge>)
    ensures |r| <= 1 && forall e :: e in r ==> e.key == key && e in es
  {
    if es == [] then [] else if es[0].key == key then [es[0]] else FirstWith(es[1..], key)
  }

  /** What the `seen` set lets through. */
  function Dedup(es: seq<Edge>, seen: set<string>): seq<Edge>
    decreases |es|
  {
    if es == [] then []
    else if es[0].key in seen then Dedup(es[1..], seen)
    else [es[0]] + Dedup(es[1..], seen + {es[0].key})
  }

  lemma {:induction false} DedupHas(es: seq<Edge>, seen: set<string>, e: Edge)
    ensures e in Dedup(es, seen) <==> e.key !in seen && FirstWith(es, e.key) == [e]
    decreases |es|
  {
    if es != [] {
      DedupHas(es[1..], seen, e);
      DedupHas(es[1..], seen + {es[0].key}, e);
    }
  }

  lemma {:induction false} FirstWithAppend(a: seq<Edge>, b: seq<Edge>, key: string)
    ensures FirstWith(a + b, key) == if FirstWith(a, key) != [] then FirstWith(a, key) else FirstWith(b, key)
  {
    if a == [] {
      assert a + b == b;
    } else {
      assert (a + b)[1..] == a[1..] + b;
      FirstWithAppend(a[1..], b, key);
    }
  }

  // ---- Files in some order ----

  /** The edges the files give, one file after the other. */
  function All<F>(files: seq<F>, edges: F -> seq<Edge>): seq<Edge> {
    if files == [] then [] else edges(files[0]) + All(files[1..], edges)
  }

  /** The set of edges that come out. */
  ghost function Resolved<F>(files: seq<F>, edges: F -> seq<Edge>): set<Edge> {
    set e | e in Dedup(All(files, edges), {})
  }

  ghost predicate Gives<F>(f: F, edges: F -> seq<Edge>, key: string) {
    FirstWith(edges(f), key) != []
  }

  /** No two files give different first edges under one key. */
  ghost predicate Concur<F>(files: seq<F>, edges: F -> seq<Edge>) {
    forall f, g, key :: f in files && g in files && Gives(f, edges, key) && Gives(g, edges, key) ==>
      FirstWith(edges(f), key) == FirstWith(edges(g), key)
  }

  lemma ResolvedHas<F>(files: seq<F>, edges: F -> seq<Edge>, e: Edge)
    ensures e in Resolved(files, edges) <==> FirstWith(All(files, edges), e.key) == [e]
  {
    DedupHas(All(files, edges), {}, e);
  }

  /** A key comes out exactly when some file gives it, and under it an edge a file gives first. */
  lemma {:induction false} AllGives<F>(files: seq<F>, edges: F -> seq<Edge>, key: string)
    ensures FirstWith(All(files, edges), key) != [] <==> exists f :: f in files && Gives(f, edges, key)
    ensures FirstWith(All(files, edges), key) != [] ==>
      exists f :: f in files && Gives(f, edges, key) && FirstWith(All(files, edges), key) == FirstWith(edges(f), key)
  {
    if files != [] {
      hide FirstWith;
      FirstWithAppend(edges(files[0]), All(files[1..], edges), key);
      AllGives(files[1..], edges, key);
      if Gives(files[0], edges, key) {
        assert files[0] in files;
      } else if FirstWith(All(files[1..], edges), key) != [] {
        var f :| f in files[1..] && Gives(f, edges, key)
          && FirstWith(All(files[1..], edges), key) == FirstWith(edges(f), key);
        assert f in files;
      }
      if g :| g in files && Gives(g, edges, key) {
        assert g == files[0] || g in files[1..];
      }
    }
  }

  lemma SameMembers<F>(files: seq<F>, others: seq<F>)
    requires multiset(files) == multiset(others)
    ensures forall f :: f in files <==> f in others
  {
    forall f ensures f in files <==> f in others {
      assert f in files <==> f in multiset(files);
      assert f in others <==> f in multiset(others);
    }
  }

  /** Main result: whatever the order, the same keys come out. */
  lemma SameKeysInAnyOrder<F>(files: seq<F>, others: seq<F>, edges: F -> seq<Edge>)
    requires multiset(files) == multiset(others)
    ensures (set e | e in Resolved(files, edges) :: e.key) == (set e | e in Resolved(others, edges) :: e.key)
  {
    SameMembers(files, others);
    KeysWithin(files, others, edges);
    KeysWithin(others, files, edges);
  }

  lemma KeysWithin<F>(files: seq<F>, others: seq<F>, edges: F -> seq<Edge>)
    requires forall f :: f in files <==> f in others
    ensures (set e | e in Resolved(files, edges) :: e.key) <= (set e | e in Resolved(others, edges) :: e.key)
  {
    hide FirstWith, Resolved;
    forall e | e in Resolved(files, edges) ensures exists e' :: e' in Resolved(others, edges) && e'.key == e.key {
      ResolvedHas(files, edges, e);
      AllGives(files, edges, e.key);
      AllGives(others, edges, e.key);
      FirstIsOne(All(others, edges), e.key);
      var e' := FirstWith(All(others, edges), e.key)[0];
      ResolvedHas(others, edges, e');
      assert e' in Resolved(others, edges) && e'.key == e.key;
    }
  }

  lemma FirstIsOne(es: seq<Edge>, key: string)
    requires FirstWith(es, key) != []
    ensures |FirstWith(es, key)| == 1 && FirstWith(es, key)[0].key == key
      && FirstWith(es, key) == [FirstWith(es, key)[0]]
  {
    assert FirstWith(es, key)[0] in FirstWith(es, key);
  }

  lemma AgreeingEdges<F>(files: seq<F>, edges: F -> seq<Edge>, f: F, key: string)
    requires Concur(files, edges) && f in files && Gives(f, edges, key)
    ensures FirstWith(All(files, edges), key) == FirstWith(edges(f), key)
  {
    AllGives(files, edges, key);
  }

  lemma ResolvedWithin<F>(files: seq<F>, others: seq<F>, edges: F -> seq<Edge>)
    requires (forall f :: f in files <==> f in others) && Concur(files, edges)
    ensures Resolved(files, edges) <= Resolved(others, edges)
  {
    hide FirstWith, Resolved;
    assert Concur(others, edges);
    forall e | e in Resolved(files, edges) ensures e in Resolved(others, edges) {
      ResolvedHas(files, edges, e);
      AllGives(files, edges, e.key);
      var f :| f in files && Gives(f, edges, e.key);
      AgreeingEdges(files, edges, f, e.key);
      AgreeingEdges(others, edges, f, e.key);
      ResolvedHas(others, edges, e);
    }
  }

  /** Any file can come first. */
  lemma FirstInSomeOrder<F>(files: seq<F>, edges: F -> seq<Edge>, f: F, key: string) returns (others: seq<F>)
    requires f in files && Gives(f, edges, key)
    ensures multiset(others) == multiset(files) && FirstWith(All(others, edges), key) == FirstWith(edges(f), key)
  {
    var i :| 0 <= i < |files| && files[i] == f;
    others := [f] + (files[..i] + files[i + 1..]);
    assert files == files[..i] + [f] + files[i + 1..];
    assert others[1..] == files[..i] + files[i + 1..];
    FirstWithAppend(edges(f), All(others[1..], edges), key);
  }

  /** Main result: the full edges are the same in every order exactly when no two files give
      different first edges under one key. */
  lemma OrderFreeIff<F>(files: seq<F>, edges: F -> seq<Edge>)
    ensures (forall others :: multiset(others) == multiset(files) ==> Resolved(others, edges) == Resolved(files, edges))
      <==> Concur(files, edges)
  {
    if Concur(files, edges) {
      forall others | multiset(others) == multiset(files) ensures Resolved(others, edges) == Resolved(files, edges) {
        SameMembers(files, others);
        ResolvedWithin(files, others, edges);
        ResolvedWithin(others, files, edges);
      }
    }
    if forall others :: multiset(others) == multiset(files) ==> Resolved(others, edges) == Resolved(files, edges) {
      hide FirstWith, Resolved;
      forall f, g, key | f in files && g in files && Gives(f, edges, key) && Gives(g, edges, key)
        ensures FirstWith(edges(f), key) == FirstWith(edges(g), key)
      {
        FirstEverywhere(files, edges, f, key);
        FirstEverywhere(files, edges, g, key);
      }
    }
  }

  lemma FirstEverywhere<F>(files: seq<F>, edges: F -> seq<Edge>, f: F, key: string)
    requires f in files && Gives(f, edges, key)
    requires forall others :: multiset(others) == multiset(files) ==> Resolved(others, edges) == Resolved(files, edges)
    ensures FirstWith(All(files, edges), key) == FirstWith(edges(f), key)
  {
    hide FirstWith, Resolved;
    var others := FirstInSomeOrder(files, edges, f, key);
    FirstIsOne(edges(f), key);
    var e := FirstWith(edges(f), key)[0];
    ResolvedHas(others, edges, e);
    assert Resolved(others, edges) == Resolved(files, edges);
    ResolvedHas(files, edges, e);
  }

  lemma {:induction false} AllPointwise<F>(files: seq<F>, a: F -> seq<Edge>, b: F -> seq<Edge>)
    requires forall f :: f in files ==> a(f) == b(f)
    ensures All(files, a) == All(files, b)
  {
    if files != [] {
      AllPointwise(files[1..], a, b);
    }
  }
}
