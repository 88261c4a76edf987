/** No two operations of an aggregate share a route or an operationId. */
module OpenApiDistinct {
  import opened Options
  import opened PythonText
  import opened OpenApiDocuments
  import opened OpenApiAggregation

  // ----- The cells of the operations, in the order of the operations -------------------

  /** The cell holds the operation: same route, same id. */
  predicate Holds(c: Cell, x: Listed) {
    && c.path == x.path && Lower(c.key) == x.verb
    && c.node.Op? == x.node.Op? && (x.node.Op? ==> c.node.op.operationId == x.node.op.operationId)
  }

  predicate HoldAll(cells: seq<Cell>, listed: seq<Listed>) {
    |cells| == |listed| && forall i | 0 <= i < |cells| :: Holds(cells[i], listed[i])
  }

  function ItemCells(path: string, members: seq<Member>, n: nat): (cells: seq<Cell>)
    requires n <= |members|
    ensures HoldAll(cells, ItemOperations(path, members, n))
  {
    if n == 0 then []
    else
      var m := members[n - 1];
      ItemCells(path, members, n - 1) + if IsHttp(m.key) then [Cell(path, m.key, m.node)] else []
  }

  function PathCells(paths: seq<PathEntry>, n: nat): (cells: seq<Cell>)
    requires n <= |paths|
    ensures HoldAll(cells, PathOperations(paths, n))
  {
    if n == 0 then []
    else PathCells(paths, n - 1) + ItemCells(paths[n - 1].path, paths[n - 1].members, |paths[n - 1].members|)
  }

  ghost function PublishedCells(m: Module, listed: seq<Listed>): (cells: seq<Cell>)
    requires forall x | x in listed :: IsPublishable(m, x) && Lower(x.verb) == x.verb
    ensures HoldAll(cells, listed)
  {
    if listed == [] then [] else [PublishedCell(m, listed[0])] + PublishedCells(m, listed[1..])
  }

  ghost function ModuleCells(modules: seq<Module>): (cells: seq<Cell>)
    requires ModulesPublishable(modules)
    ensures HoldAll(cells, ModuleOperations(modules))
  {
    if modules == [] then []
    else
      var init, last := modules[..|modules| - 1], modules[|modules| - 1];
      assert AllPublishable(last);
      LowerVerbs(last);
      ModuleCells(init) + PublishedCells(last, PublicOperations(last))
  }

  lemma LowerVerbs(m: Module)
    ensures forall x | x in PublicOperations(m) :: Lower(x.verb) == x.verb
  {
    forall x | x in PublicOperations(m) ensures Lower(x.verb) == x.verb {
      VerbsAreLower(PublicPaths(m), x);
    }
  }

  // ----- Every operation of the aggregate is among them --------------------------------

  lemma {:induction false} ItemCellIsListed(path: string, members: seq<Member>, n: nat, m: Member)
    requires n <= |members| && m in members[..n] && IsHttp(m.key)
    ensures Cell(path, m.key, m.node) in ItemCells(path, members, n)
  {
    if members[n - 1] != m {
      assert m in members[..n - 1];
      ItemCellIsListed(path, members, n - 1, m);
    }
  }

  lemma {:induction false} PathCellIsListed(paths: seq<PathEntry>, n: nat, p: PathEntry, m: Member)
    requires n <= |paths| && p in paths[..n] && m in p.members && IsHttp(m.key)
    ensures Cell(p.path, m.key, m.node) in PathCells(paths, n)
  {
    if paths[n - 1] == p {
      assert p.members[..|p.members|] == p.members;
      ItemCellIsListed(p.path, p.members, |p.members|, m);
    } else {
      assert p in paths[..n - 1];
      PathCellIsListed(paths, n - 1, p, m);
    }
  }

  lemma {:induction false} PublishedCellIsListed(m: Module, listed: seq<Listed>, x: Listed)
    requires forall y | y in listed :: IsPublishable(m, y) && Lower(y.verb) == y.verb
    requires x in listed
    ensures PublishedCell(m, x) in PublishedCells(m, listed)
  {
    if listed[0] != x { PublishedCellIsListed(m, listed[1..], x); }
  }

  lemma {:induction false} ModuleCellIsListed(modules: seq<Module>, m: Module, x: Listed)
    requires ModulesPublishable(modules) && m in modules && x in PublicOperations(m)
    ensures IsPublishable(m, x) && PublishedCell(m, x) in ModuleCells(modules)
  {
    var init, last := modules[..|modules| - 1], modules[|modules| - 1];
    assert AllPublishable(m) && AllPublishable(last);
    LowerVerbs(last);
    if m == last {
      PublishedCellIsListed(m, PublicOperations(m), x);
    } else {
      assert m in init;
      ModuleCellIsListed(init, m, x);
    }
  }

  lemma HoldBoth(cells: seq<Cell>, listed: seq<Listed>, others: seq<Cell>, rest: seq<Listed>)
    requires HoldAll(cells, listed) && HoldAll(others, rest)
    ensures HoldAll(cells + others, listed + rest)
  {
  }

  ghost function OperationCells(platform: Document, modules: seq<Module>): (cells: seq<Cell>)
    requires ModulesPublishable(modules)
    ensures HoldAll(cells, OperationsSoFar(platform, modules))
  {
    var kept, published := PathCells(platform.paths, |platform.paths|), ModuleCells(modules);
    HoldBoth(kept, AllOperations(platform.paths), published, ModuleOperations(modules));
    kept + published
  }

  lemma OperationIsListed(platform: Document, modules: seq<Module>, c: Cell)
    requires ModulesPublishable(modules) && c in AllCells(platform, modules) && IsHttp(c.key)
    ensures c in OperationCells(platform, modules)
  {
    if c in PlatformCells(platform) {
      var p, m :| p in platform.paths && m in p.members && c == Cell(p.path, m.key, m.node);
      assert platform.paths[..|platform.paths|] == platform.paths;
      PathCellIsListed(platform.paths, |platform.paths|, p, m);
    } else {
      var m, x :| m in modules && x in PublicOperations(m) && IsPublishable(m, x) && c == PublishedCell(m, x);
      ModuleCellIsListed(modules, m, x);
    }
  }

  // ----- The result --------------------------------------------------------------------

  lemma HeldApart(cells: seq<Cell>, listed: seq<Listed>, c: Cell, d: Cell)
    requires HoldAll(cells, listed) && Distinct(listed) && forall x | x in listed :: IsIdentified(x)
    requires c in cells && d in cells && c != d
    ensures (Lower(c.key), c.path) != (Lower(d.key), d.path)
    ensures c.node.Op? && d.node.Op? && c.node.op.operationId != d.node.op.operationId
  {
    var i, j :| 0 <= i < |cells| && 0 <= j < |cells| && cells[i] == c && cells[j] == d;
    assert Holds(cells[i], listed[i]) && Holds(cells[j], listed[j]);
    assert if i < j then Apart(listed[i], listed[j]) else Apart(listed[j], listed[i]);
    ApartByColumns(listed[i], listed[j]);
  }

  lemma {:induction false} ModuleOperationsAreIdentified(modules: seq<Module>)
    requires ModulesPublishable(modules)
    ensures forall x | x in ModuleOperations(modules) :: IsIdentified(x)
  {
    if modules != [] {
      assert AllPublishable(modules[|modules| - 1]);
      ModuleOperationsAreIdentified(modules[..|modules| - 1]);
    }
  }

  /** Two operations are apart when they differ in verb or path, and in operationId. */
  lemma ApartByColumns(x: Listed, y: Listed)
    requires IsIdentified(x) && IsIdentified(y)
    ensures Apart(x, y) <==>
            && (x.verb != y.verb || x.path != y.path)
            && x.node.op.operationId != y.node.op.operationId
  {
    IdentifiedByText(x.node.op);
    IdentifiedByText(y.node.op);
  }

  /** Any two different operations of an aggregate, wherever they come from, differ in their route
      and in their operationId. */
  lemma AggregateIsDistinct(platform: Document, modules: seq<Module>, r: Aggregate, c: Cell, d: Cell)
    requires Mergeable(platform, modules) && Describes(r, platform, modules)
    requires c in Cells(r.paths) && d in Cells(r.paths) && c != d && IsHttp(c.key) && IsHttp(d.key)
    ensures (Lower(c.key), c.path) != (Lower(d.key), d.path)
    ensures c.node.Op? && d.node.Op? && c.node.op.operationId != d.node.op.operationId
  {
    ModuleOperationsAreIdentified(modules);
    OperationIsListed(platform, modules, c);
    OperationIsListed(platform, modules, d);
    HeldApart(OperationCells(platform, modules), OperationsSoFar(platform, modules), c, d);
  }

  /** Every operation of an aggregate has an operationId that is not blank. */
  lemma AggregateIsIdentified(platform: Document, modules: seq<Module>, r: Aggregate, c: Cell)
    requires Mergeable(platform, modules) && Describes(r, platform, modules)
    requires c in Cells(r.paths) && IsHttp(c.key)
    ensures c.node.Op? && exists id :: c.node.op.operationId == Some(Text(id)) && Strip(id) != ""
  {
    ModuleOperationsAreIdentified(modules);
    OperationIsListed(platform, modules, c);
    var cells, listed := OperationCells(platform, modules), OperationsSoFar(platform, modules);
    var i :| 0 <= i < |cells| && cells[i] == c;
    assert Holds(cells[i], listed[i]) && IsIdentified(listed[i]);
    IdentifiedByText(listed[i].node.op);
  }

  /** Components can be merged when those of one kind and name are equal. */
  lemma ConsistentByColumns(triples: set<Triple>)
    ensures Consistent(triples) <==>
            forall t, u | t in triples && u in triples && t.kind == u.kind && t.name == u.name :: t.value == u.value
  {
    if Consistent(triples) {
      assert forall t, u | t in triples && u in triples && t.kind == u.kind && t.name == u.name :: SameKey(t, u);
    }
  }
}
