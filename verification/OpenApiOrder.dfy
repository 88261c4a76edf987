/** The order of the modules does not matter to the aggregate. */
module OpenApiOrder {
  import opened Options
  import opened OpenApiDocuments
  import opened OpenApiAggregation

  // ----- Distinctness is a property of the multiset ---------------------------------

  lemma {:induction false} DistinctHasNoRepeats(listed: seq<Listed>)
    requires Distinct(listed)
    ensures forall x :: multiset(listed)[x] <= 1
  {
    if listed != [] {
      var init, last := listed[..|listed| - 1], listed[|listed| - 1];
      assert listed == init + [last];
      DistinctHasNoRepeats(init);
      forall i | 0 <= i < |init| ensures init[i] != last {
        assert Apart(listed[i], listed[|listed| - 1]);
      }
      assert last !in init;
    }
  }

  lemma RepeatIsCounted(listed: seq<Listed>, i: nat, j: nat)
    requires i < j < |listed| && listed[i] == listed[j]
    ensures multiset(listed)[listed[i]] >= 2
  {
    assert listed == listed[..j] + ([listed[j]] + listed[j + 1..]);
    assert listed[i] in listed[..j];
  }

  lemma DistinctByMultiset(listed: seq<Listed>)
    ensures Distinct(listed) <==>
            && (forall x :: multiset(listed)[x] <= 1)
            && (forall x, y | x in multiset(listed) && y in multiset(listed) && x != y :: Apart(x, y))
  {
    if Distinct(listed) {
      DistinctHasNoRepeats(listed);
      forall x, y | x in multiset(listed) && y in multiset(listed) && x != y ensures Apart(x, y) {
        var i :| 0 <= i < |listed| && listed[i] == x;
        var j :| 0 <= j < |listed| && listed[j] == y;
        assert Apart(listed[if i < j then i else j], listed[if i < j then j else i]);
      }
    }
    if (forall x :: multiset(listed)[x] <= 1)
       && (forall x, y | x in multiset(listed) && y in multiset(listed) && x != y :: Apart(x, y)) {
      forall i, j | 0 <= i < j < |listed| ensures Apart(listed[i], listed[j]) {
        if listed[i] == listed[j] { RepeatIsCounted(listed, i, j); }
      }
    }
  }

  // ----- The operations of permuted modules ----------------------------------------

  lemma {:induction false} ModuleOperationsSplit(a: seq<Module>, b: seq<Module>)
    ensures ModuleOperations(a + b) == ModuleOperations(a) + ModuleOperations(b)
    decreases |b|
  {
    if b == [] {
      assert a + b == a;
    } else {
      var init, last := b[..|b| - 1], b[|b| - 1];
      assert (a + b)[..|a + b| - 1] == a + init && (a + b)[|a + b| - 1] == last;
      ModuleOperationsSplit(a, init);
      ConcatenationIsAssociative(ModuleOperations(a), ModuleOperations(init), PublicOperations(last));
    }
  }

  lemma ConcatenationIsAssociative<T>(a: seq<T>, b: seq<T>, c: seq<T>)
    ensures (a + b) + c == a + (b + c)
  {
  }

  lemma {:induction false} PermutedOperations(a: seq<Module>, b: seq<Module>)
    requires multiset(a) == multiset(b)
    ensures multiset(ModuleOperations(a)) == multiset(ModuleOperations(b))
    decreases |a|
  {
    if a == [] {
      assert |b| == |multiset(b)| == |multiset(a)| == 0;
    } else {
      var init, last := a[..|a| - 1], a[|a| - 1];
      assert a == init + [last];
      assert last in multiset(b);
      var j :| 0 <= j < |b| && b[j] == last;
      var left, right := b[..j], b[j + 1..];
      assert b == left + [last] + right;
      assert multiset(b) == multiset(left + right) + multiset{last};
      assert multiset(a) == multiset(init) + multiset{last};
      assert multiset(left + right) == multiset(init) by {
        assert (multiset(left + right) + multiset{last}) - multiset{last} == multiset(left + right);
        assert (multiset(init) + multiset{last}) - multiset{last} == multiset(init);
      }
      PermutedOperations(init, left + right);
      OneTakenOut(left, last, right);
      ModuleOperationsSplit(init, [last]);
      LastOperations(last);
    }
  }

  lemma LastOperations(m: Module)
    ensures ModuleOperations([m]) == PublicOperations(m)
  {
    assert [m][..0] == [];
  }

  lemma OneTakenOut(left: seq<Module>, m: Module, right: seq<Module>)
    ensures multiset(ModuleOperations(left + [m] + right)) ==
            multiset(ModuleOperations(left + right)) + multiset(PublicOperations(m))
  {
    ModuleOperationsSplit(left + [m], right);
    ModuleOperationsSplit(left, [m]);
    ModuleOperationsSplit(left, right);
    LastOperations(m);
  }

  lemma SameModules(a: seq<Module>, b: seq<Module>)
    requires multiset(a) == multiset(b)
    ensures forall m :: m in a <==> m in b
  {
    forall m ensures m in a <==> m in b {
      assert m in multiset(a) <==> m in multiset(b);
    }
  }

  // ----- Main results --------------------------------------------------------------

  /** The modules can be merged in one order exactly when they can be in any other. */
  lemma MergeableInAnyOrder(platform: Document, a: seq<Module>, b: seq<Module>)
    requires multiset(a) == multiset(b)
    ensures Mergeable(platform, a) <==> Mergeable(platform, b)
  {
    SameModules(a, b);
    PermutedOperations(a, b);
    var x, y := OperationsSoFar(platform, a), OperationsSoFar(platform, b);
    assert multiset(x) == multiset(AllOperations(platform.paths)) + multiset(ModuleOperations(a));
    assert multiset(y) == multiset(AllOperations(platform.paths)) + multiset(ModuleOperations(b));
    DistinctByMultiset(x);
    DistinctByMultiset(y);
    assert AllTriples(platform, a) == AllTriples(platform, b);
  }

  /** Whatever order the modules come in, there is one aggregate. */
  lemma AggregateInAnyOrder(platform: Document, a: seq<Module>, b: seq<Module>, r: Aggregate, q: Aggregate)
    requires multiset(a) == multiset(b)
    requires Describes(r, platform, a) && Describes(q, platform, b)
    ensures r == q
  {
    SameModules(a, b);
    assert AllCells(platform, a) == AllCells(platform, b);
    assert AllPaths(platform, a) == AllPaths(platform, b);
    assert AllTriples(platform, a) == AllTriples(platform, b);
    assert AllKinds(platform, a) == AllKinds(platform, b);
    CellsDetermine(r.paths, q.paths);
    TriplesDetermine(r.components, q.components);
  }

  /** Running the aggregation on two orders of the same modules gives the same outcome. */
  method AggregateTwice(platform: Document, a: seq<Module>, b: seq<Module>)
      returns (r: Option<Aggregate>, q: Option<Aggregate>)
    requires WellFormed(platform) && multiset(a) == multiset(b)
    ensures r == q
  {
    r := AggregateOpenApiDocuments(platform, a);
    q := AggregateOpenApiDocuments(platform, b);
    MergeableInAnyOrder(platform, a, b);
    if r.Some? { AggregateInAnyOrder(platform, a, b, r.value, q.value); }
  }

  /** In an aggregate, what stands under the path and method of a platform operation is that
      operation, unchanged. */
  lemma PlatformOperationIsKept(platform: Document, modules: seq<Module>, r: Aggregate, p: PathEntry, m: Member)
    requires Describes(r, platform, modules) && p in platform.paths && m in p.members
    ensures p.path in r.paths && m.key in r.paths[p.path] && r.paths[p.path][m.key] == m.node
  {
    var c := Cell(p.path, m.key, m.node);
    assert c in PlatformCells(platform);
    CellIsThere(r.paths, c);
  }

  /** What stands under the route of a public module operation is that operation with its owner
      and its 503 response, whichever module it comes from: nothing was overwritten. */
  lemma ModuleOperationIsPublished(platform: Document, modules: seq<Module>, r: Aggregate, m: Module, x: Listed)
    requires Mergeable(platform, modules) && Describes(r, platform, modules)
    requires m in modules && x in PublicOperations(m)
    ensures IsPublishable(m, x) && x.path in r.paths && x.verb in r.paths[x.path]
    ensures r.paths[x.path][x.verb].Op?
    ensures exists owner :: OwnedBy(m, x.node.op, owner) && IsPublishedAs(x.node.op, r.paths[x.path][x.verb].op, owner)
  {
    assert AllPublishable(m);
    var c := PublishedCell(m, x);
    assert c in AllCells(platform, modules);
    CellIsThere(r.paths, c);
    PublishedChangesLittle(x.node.op, Owner(m, x.node.op));
  }
}
