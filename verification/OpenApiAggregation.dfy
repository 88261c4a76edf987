/** Merging the platform's OpenAPI document with those of the modules. */
module OpenApiAggregation {
  import opened Options
  import opened OpenApiDocuments

  type Paths = map<string, map<string, Node>>
  type Components = map<string, map<string, Doc>>

  datatype Aggregate = Aggregate(paths: Paths, components: Components, rest: map<string, Doc>)

  // ----- What goes in --------------------------------------------------------------

  datatype Cell = Cell(path: string, key: string, node: Node)
  datatype Triple = Triple(kind: string, name: string, value: Doc)

  function PublicPaths(m: Module): seq<PathEntry> {
    VisiblePaths(m.document.paths, m.privatePaths)
  }

  function VisiblePaths(paths: seq<PathEntry>, hidden: set<string>): (r: seq<PathEntry>)
    ensures forall p :: p in r <==> p in paths && p.path !in hidden
  {
    if paths == [] then []
    else
      (if paths[0].path in hidden then [] else [paths[0]]) + VisiblePaths(paths[1..], hidden)
  }

  function PublicOperations(m: Module): seq<Listed> {
    AllOperations(PublicPaths(m))
  }

  function ModuleOperations(modules: seq<Module>): seq<Listed> {
    if modules == [] then [] else ModuleOperations(modules[..|modules| - 1]) + PublicOperations(modules[|modules| - 1])
  }

  ghost predicate IsPublishable(m: Module, x: Listed) {
    IsIdentified(x) && HasOwner(m, x.node.op)
  }

  ghost predicate AllPublishable(m: Module) {
    forall x | x in PublicOperations(m) :: IsPublishable(m, x)
  }

  ghost predicate ModulesPublishable(modules: seq<Module>) {
    forall m | m in modules :: AllPublishable(m)
  }

  ghost function PublishedCell(m: Module, x: Listed): Cell
    requires IsPublishable(m, x)
  {
    Cell(x.path, x.verb, Op(Published(x.node.op, Owner(m, x.node.op))))
  }

  ghost function CellsOf(m: Module, listed: seq<Listed>): set<Cell> {
    set x | x in listed && IsPublishable(m, x) :: PublishedCell(m, x)
  }

  function PathsOf(listed: seq<Listed>): set<string> {
    set x | x in listed :: x.path
  }

  function PlatformCells(platform: Document): set<Cell> {
    set p, m | p in platform.paths && m in p.members :: Cell(p.path, m.key, m.node)
  }

  ghost function AllCells(platform: Document, modules: seq<Module>): set<Cell> {
    PlatformCells(platform)
    + set m, x | m in modules && x in PublicOperations(m) && IsPublishable(m, x) :: PublishedCell(m, x)
  }

  function AllPaths(platform: Document, modules: seq<Module>): set<string> {
    (set p | p in platform.paths :: p.path) + set m, x | m in modules && x in PublicOperations(m) :: x.path
  }

  function TriplesOf(groups: seq<Group>): set<Triple> {
    set g, c | g in groups && c in g.components :: Triple(g.kind, c.name, c.value)
  }

  function KindsOf(groups: seq<Group>): set<string> {
    set g | g in groups :: g.kind
  }

  function AllTriples(platform: Document, modules: seq<Module>): set<Triple> {
    TriplesOf(platform.groups) + set m, t | m in modules && t in TriplesOf(m.document.groups) :: t
  }

  function AllKinds(platform: Document, modules: seq<Module>): set<string> {
    KindsOf(platform.groups) + set m, k | m in modules && k in KindsOf(m.document.groups) :: k
  }

  // ----- When documents can be merged ----------------------------------------------

  function IdOf(x: Listed): string {
    if x.node.Op? then Id(x.node.op) else ""
  }

  predicate Apart(x: Listed, y: Listed) {
    (x.verb, x.path) != (y.verb, y.path) && IdOf(x) != IdOf(y)
  }

  predicate Distinct(listed: seq<Listed>) {
    forall i, j | 0 <= i < j < |listed| :: Apart(listed[i], listed[j])
  }

  predicate SameKey(t: Triple, u: Triple) {
    t.kind == u.kind && t.name == u.name
  }

  predicate Consistent(triples: set<Triple>) {
    forall t, u | t in triples && u in triples && SameKey(t, u) :: t == u
  }

  /** All the operations so far, the platform's first. */
  function OperationsSoFar(platform: Document, modules: seq<Module>): seq<Listed> {
    AllOperations(platform.paths) + ModuleOperations(modules)
  }

  /** Every operation has an id and every module operation one owner, no two operations share
      a route or an id, and components of one name have one value. */
  ghost predicate Mergeable(platform: Document, modules: seq<Module>) {
    && (forall x | x in AllOperations(platform.paths) :: IsIdentified(x))
    && ModulesPublishable(modules)
    && Distinct(OperationsSoFar(platform, modules))
    && Consistent(AllTriples(platform, modules))
  }

  // ----- What comes out ------------------------------------------------------------

  function Cells(paths: Paths): set<Cell> {
    set p, k | p in paths && k in paths[p] :: Cell(p, k, paths[p][k])
  }

  function Triples(components: Components): set<Triple> {
    set k, n | k in components && n in components[k] :: Triple(k, n, components[k][n])
  }

  /** The aggregate holds the platform's own members unchanged, every public module operation
      under its route as published, all components, and nothing else. */
  ghost predicate Describes(r: Aggregate, platform: Document, modules: seq<Module>) {
    && Cells(r.paths) == AllCells(platform, modules) && r.paths.Keys == AllPaths(platform, modules)
    && Triples(r.components) == AllTriples(platform, modules) && r.components.Keys == AllKinds(platform, modules)
    && r.rest == platform.rest
  }

  lemma CellsDetermine(a: Paths, b: Paths)
    requires Cells(a) == Cells(b) && a.Keys == b.Keys
    ensures a == b
  {
    forall p | p in a ensures a[p] == b[p] {
      forall k ensures k in a[p] <==> k in b[p] {
        if k in a[p] { assert Cell(p, k, a[p][k]) in Cells(b); }
        if k in b[p] { assert Cell(p, k, b[p][k]) in Cells(a); }
      }
      forall k | k in a[p] ensures a[p][k] == b[p][k] {
        assert Cell(p, k, a[p][k]) in Cells(b);
      }
    }
  }

  lemma TriplesDetermine(a: Components, b: Components)
    requires Triples(a) == Triples(b) && a.Keys == b.Keys
    ensures a == b
  {
    forall k | k in a ensures a[k] == b[k] {
      forall n ensures n in a[k] <==> n in b[k] {
        if n in a[k] { assert Triple(k, n, a[k][n]) in Triples(b); }
        if n in b[k] { assert Triple(k, n, b[k][n]) in Triples(a); }
      }
      forall n | n in a[k] ensures a[k][n] == b[k][n] {
        assert Triple(k, n, a[k][n]) in Triples(b);
      }
    }
  }

  /** The tables that the loops fill. */
  datatype Tables = Tables(paths: Paths, components: Components, routes: set<(string, string)>, ids: set<string>)

  // ----- Steps ---------------------------------------------------------------------

  function Routes(listed: seq<Listed>): set<(string, string)> {
    set x | x in listed :: (x.verb, x.path)
  }

  function Ids(listed: seq<Listed>): set<string> {
    set x | x in listed :: IdOf(x)
  }

  lemma DistinctGrows(before: seq<Listed>, x: Listed)
    requires Distinct(before)
    ensures Distinct(before + [x]) <==> (x.verb, x.path) !in Routes(before) && IdOf(x) !in Ids(before)
  {
    var all := before + [x];
    if Distinct(all) {
      forall y | y in before ensures Apart(y, x) {
        var i :| 0 <= i < |before| && before[i] == y;
        assert all[i] == y && all[|before|] == x;
      }
    }
  }

  lemma DistinctPrefix(a: seq<Listed>, b: seq<Listed>)
    requires Distinct(a + b)
    ensures Distinct(a)
  {
    forall i, j | 0 <= i < j < |a| ensures Apart(a[i], a[j]) {
      assert (a + b)[i] == a[i] && (a + b)[j] == a[j];
    }
  }

  lemma DistinctTake(listed: seq<Listed>, n: nat)
    requires n <= |listed|
    ensures Distinct(listed) ==> Distinct(listed[..n])
  {
  }

  lemma DistinctUpTo(before: seq<Listed>, listed: seq<Listed>, n: nat)
    requires n <= |listed|
    ensures Distinct(before + listed) ==> Distinct(before + listed[..n])
  {
    assert before + listed == (before + listed[..n]) + listed[n..];
    if Distinct(before + listed) { DistinctPrefix(before + listed[..n], listed[n..]); }
  }

  /** Every operation in the path table has its route on record. */
  predicate RoutesCover(paths: Paths, routes: set<(string, string)>) {
    forall p, k | p in paths && k in paths[p] && IsHttp(k) :: (Lower(k), p) in routes
  }

  function Put(paths: Paths, c: Cell): Paths {
    paths[c.path := (if c.path in paths then paths[c.path] else map[])[c.key := c.node]]
  }

  lemma CellIsThere(paths: Paths, d: Cell)
    ensures d in Cells(paths) <==> d.path in paths && d.key in paths[d.path] && paths[d.path][d.key] == d.node
  {
  }

  lemma PutAdds(paths: Paths, c: Cell)
    requires c.path in paths ==> c.key !in paths[c.path]
    ensures Cells(Put(paths, c)) == Cells(paths) + {c}
    ensures Put(paths, c).Keys == paths.Keys + {c.path}
  {
    forall d ensures d in Cells(Put(paths, c)) <==> d in Cells(paths) || d == c {
      CellIsThere(paths, d);
      CellIsThere(Put(paths, c), d);
    }
  }

  /** Storing an operation whose route is new. */
  lemma PutNewOperation(m: Module, paths: Paths, routes: set<(string, string)>, x: Listed, owner: string)
    requires RoutesCover(paths, routes) && (x.verb, x.path) !in routes
    requires IsIdentified(x) && Lower(x.verb) == x.verb && IsHttp(x.verb) && OwnedBy(m, x.node.op, owner)
    ensures var c := Cell(x.path, x.verb, Op(Published(x.node.op, owner)));
            && IsPublishable(m, x) && PublishedCell(m, x) == c
            && Cells(Put(paths, c)) == Cells(paths) + {c}
            && Put(paths, c).Keys == paths.Keys + {x.path}
            && RoutesCover(Put(paths, c), routes + {(x.verb, x.path)})
  {
    var c := Cell(x.path, x.verb, Op(Published(x.node.op, owner)));
    PutAdds(paths, c);
    assert HasOwner(m, x.node.op);
    OwnerIsUnique(m, x.node.op, owner, Owner(m, x.node.op));
  }

  lemma LowerTwice(s: string)
    ensures Lower(Lower(s)) == Lower(s)
  {
  }

  lemma {:induction false} VerbsAreLower(paths: seq<PathEntry>, x: Listed)
    requires x in AllOperations(paths)
    ensures Lower(x.verb) == x.verb && IsHttp(x.verb)
  {
    assert paths[..|paths|] == paths;
    PathOperationsCome(paths, |paths|, x);
    var p, m :| p in paths && m in p.members && IsMemberOperation(p, m, x);
    LowerTwice(m.key);
  }

  /** The tables know exactly the operations listed so far. */
  ghost predicate Tracks(t: Tables, listed: seq<Listed>) {
    Distinct(listed) && t.routes == Routes(listed) && t.ids == Ids(listed) && RoutesCover(t.paths, t.routes)
  }

  /** `r` is `t` with some operations of a module published in it. */
  ghost predicate Publishes(m: Module, t: Tables, r: Tables, listed: seq<Listed>) {
    && (forall x | x in listed :: IsPublishable(m, x))
    && Cells(r.paths) == Cells(t.paths) + CellsOf(m, listed)
    && r.paths.Keys == t.paths.Keys + PathsOf(listed)
    && r.components == t.components
  }

  lemma PublishesOneMore(m: Module, t: Tables, r: Tables, q: Tables, listed: seq<Listed>, x: Listed)
    requires Publishes(m, t, r, listed) && Publishes(m, r, q, [x])
    ensures Publishes(m, t, q, listed + [x])
  {
    CellsOfSplit(m, listed, [x]);
    UnionIsAssociative(Cells(t.paths), CellsOf(m, listed), CellsOf(m, [x]));
    assert PathsOf(listed + [x]) == PathsOf(listed) + PathsOf([x]);
    UnionIsAssociative(t.paths.Keys, PathsOf(listed), PathsOf([x]));
    assert forall y | y in listed + [x] :: y in listed || y in [x];
  }

  lemma UnionIsAssociative<T>(a: set<T>, b: set<T>, c: set<T>)
    ensures (a + b) + c == a + (b + c)
  {
  }

  lemma CellsOfSplit(m: Module, a: seq<Listed>, b: seq<Listed>)
    ensures CellsOf(m, a + b) == CellsOf(m, a) + CellsOf(m, b)
  {
    assert forall y :: y in a + b <==> y in a || y in b;
  }

  /** The turn for one operation of a module: refuse a known route or id, mark the owner and the
      unavailable response, store the operation under its route. */
  method AddOperation(m: Module, x: Listed, t: Tables, ghost done: seq<Listed>) returns (ok: bool, r: Tables)
    requires Tracks(t, done) && IsIdentified(x) && Lower(x.verb) == x.verb && IsHttp(x.verb)
    ensures ok <==> Distinct(done + [x]) && IsPublishable(m, x)
    ensures ok ==> Tracks(r, done + [x]) && Publishes(m, t, r, [x])
  {
    DistinctGrows(done, x);
    if (x.verb, x.path) in t.routes || Id(x.node.op) in t.ids {
      return false, t;
    }
    var owner := OperationModule(m, x.node.op);
    if owner.None? {
      return false, t;
    }
    PutNewOperation(m, t.paths, t.routes, x, owner.value);
    var c := Cell(x.path, x.verb, Op(Published(x.node.op, owner.value)));
    assert CellsOf(m, [x]) == {c};
    r := Tables(Put(t.paths, c), t.components, t.routes + {(x.verb, x.path)}, t.ids + {Id(x.node.op)});
    ok := true;
  }

  method AddOperations(m: Module, listed: seq<Listed>, t: Tables, ghost before: seq<Listed>)
      returns (ok: bool, r: Tables)
    requires Tracks(t, before)
    requires forall x | x in listed :: IsIdentified(x) && Lower(x.verb) == x.verb && IsHttp(x.verb)
    ensures ok <==> Distinct(before + listed) && forall x | x in listed :: IsPublishable(m, x)
    ensures ok ==> Tracks(r, before + listed) && Publishes(m, t, r, listed)
  {
    ok, r := true, t;
    assert before + listed[..0] == before;
    assert CellsOf(m, []) == {} && PathsOf([]) == {};
    for i := 0 to |listed|
      invariant ok && Tracks(r, before + listed[..i]) && Publishes(m, t, r, listed[..i])
    {
      assert before + listed[..i + 1] == (before + listed[..i]) + [listed[i]];
      assert listed[..i + 1] == listed[..i] + [listed[i]];
      DistinctUpTo(before, listed, i + 1);
      ghost var earlier := r;
      ok, r := AddOperation(m, listed[i], r, before + listed[..i]);
      if !ok {
        assert listed[i] in listed;
        return;
      }
      PublishesOneMore(m, t, earlier, r, listed[..i], listed[i]);
    }
    assert listed[..|listed|] == listed;
  }

  /** The loop over the platform's operations, which stay where they are. */
  method CheckPlatform(listed: seq<Listed>)
    returns (ok: bool, routes: set<(string, string)>, ids: set<string>)
    requires forall x | x in listed :: IsIdentified(x)
    ensures ok <==> Distinct(listed)
    ensures ok ==> routes == Routes(listed) && ids == Ids(listed)
  {
    ok, routes, ids := true, {}, {};
    for i := 0 to |listed|
      invariant ok && Distinct(listed[..i]) && routes == Routes(listed[..i]) && ids == Ids(listed[..i])
    {
      var x := listed[i];
      assert listed[..i + 1] == listed[..i] + [x];
      DistinctGrows(listed[..i], x);
      DistinctTake(listed, i + 1);
      assert x in listed;
      if (x.verb, x.path) in routes || Id(x.node.op) in ids {
        ok := false;
        return;
      }
      routes, ids := routes + {(x.verb, x.path)}, ids + {Id(x.node.op)};
    }
    assert listed[..|listed|] == listed;
  }

  // ----- Components ----------------------------------------------------------------

  lemma TripleIsThere(components: Components, t: Triple)
    ensures t in Triples(components) <==>
            t.kind in components && t.name in components[t.kind] && components[t.kind][t.name] == t.value
  {
  }

  lemma TableIsConsistent(components: Components)
    ensures Consistent(Triples(components))
  {
    forall t, u | t in Triples(components) && u in Triples(components) && SameKey(t, u) ensures t == u {
      TripleIsThere(components, t);
      TripleIsThere(components, u);
    }
  }

  function OpenKind(components: Components, kind: string): Components {
    if kind in components then components else components[kind := map[]]
  }

  lemma OpenKindAdds(components: Components, kind: string)
    ensures Triples(OpenKind(components, kind)) == Triples(components)
    ensures OpenKind(components, kind).Keys == components.Keys + {kind}
  {
    forall t ensures t in Triples(OpenKind(components, kind)) <==> t in Triples(components) {
      TripleIsThere(components, t);
      TripleIsThere(OpenKind(components, kind), t);
    }
  }

  lemma PutTripleAdds(components: Components, t: Triple)
    requires t.kind in components && t.name !in components[t.kind]
    ensures Triples(components[t.kind := components[t.kind][t.name := t.value]]) == Triples(components) + {t}
  {
    var r := components[t.kind := components[t.kind][t.name := t.value]];
    forall u ensures u in Triples(r) <==> u in Triples(components) || u == t {
      TripleIsThere(components, u);
      TripleIsThere(r, u);
    }
  }

  function GroupTriples(kind: string, components: seq<Component>): set<Triple> {
    set c | c in components :: Triple(kind, c.name, c.value)
  }

  /** The loop over the components of one kind. */
  method AddGroup(g: Group, components: Components) returns (ok: bool, r: Components)
    ensures ok <==> Consistent(Triples(components) + GroupTriples(g.kind, g.components))
    ensures ok ==> Triples(r) == Triples(components) + GroupTriples(g.kind, g.components)
    ensures ok ==> r.Keys == components.Keys + {g.kind}
  {
    ok, r := true, OpenKind(components, g.kind);
    OpenKindAdds(components, g.kind);
    for j := 0 to |g.components|
      invariant ok && r.Keys == components.Keys + {g.kind}
      invariant Triples(r) == Triples(components) + GroupTriples(g.kind, g.components[..j])
    {
      var t := Triple(g.kind, g.components[j].name, g.components[j].value);
      assert g.components[..j + 1] == g.components[..j] + [g.components[j]];
      assert GroupTriples(g.kind, g.components[..j + 1]) == GroupTriples(g.kind, g.components[..j]) + {t};
      assert t in GroupTriples(g.kind, g.components);
      TripleIsThere(r, t);
      if t.name in r[t.kind] {
        if r[t.kind][t.name] != t.value {
          var u := Triple(t.kind, t.name, r[t.kind][t.name]);
          assert u in Triples(r) && SameKey(t, u);
          assert GroupTriples(g.kind, g.components[..j]) <= GroupTriples(g.kind, g.components);
          ok := false;
          return;
        }
      } else {
        PutTripleAdds(r, t);
        r := r[t.kind := r[t.kind][t.name := t.value]];
      }
    }
    assert g.components[..|g.components|] == g.components;
    TableIsConsistent(r);
  }

  method AddComponents(groups: seq<Group>, components: Components) returns (ok: bool, r: Components)
    ensures ok <==> Consistent(Triples(components) + TriplesOf(groups))
    ensures ok ==> Triples(r) == Triples(components) + TriplesOf(groups)
    ensures ok ==> r.Keys == components.Keys + KindsOf(groups)
  {
    ok, r := true, components;
    for i := 0 to |groups|
      invariant ok && Triples(r) == Triples(components) + TriplesOf(groups[..i])
      invariant r.Keys == components.Keys + KindsOf(groups[..i])
    {
      var g := groups[i];
      assert groups[..i + 1] == groups[..i] + [g];
      assert TriplesOf(groups[..i + 1]) == TriplesOf(groups[..i]) + GroupTriples(g.kind, g.components);
      assert TriplesOf(groups[..i + 1]) <= TriplesOf(groups);
      ok, r := AddGroup(g, r);
      if !ok { return; }
    }
    assert groups[..|groups|] == groups;
    TableIsConsistent(r);
  }

  // ----- The copied platform document ----------------------------------------------

  function ItemTable(members: seq<Member>): map<string, Node> {
    if members == [] then map[]
    else ItemTable(members[..|members| - 1])[members[|members| - 1].key := members[|members| - 1].node]
  }

  lemma {:induction false} ItemTableHolds(members: seq<Member>)
    requires UniqueMembers(members)
    ensures forall k, n :: k in ItemTable(members) && ItemTable(members)[k] == n <==> Member(k, n) in members
  {
    if members != [] {
      var init, last := members[..|members| - 1], members[|members| - 1];
      assert members == init + [last];
      ItemTableHolds(init);
      forall m | m in init ensures m.key != last.key {
        var i :| 0 <= i < |init| && init[i] == m;
        assert members[i] == m;
      }
    }
  }

  function PathTable(paths: seq<PathEntry>): Paths {
    if paths == [] then map[]
    else PathTable(paths[..|paths| - 1])[paths[|paths| - 1].path := ItemTable(paths[|paths| - 1].members)]
  }

  predicate UniquePaths(paths: seq<PathEntry>) {
    && (forall i, j | 0 <= i < j < |paths| :: paths[i].path != paths[j].path)
    && forall p | p in paths :: UniqueMembers(p.members)
  }

  lemma UniquePathsInit(init: seq<PathEntry>, last: PathEntry)
    requires UniquePaths(init + [last])
    ensures UniquePaths(init) && forall p | p in init :: p.path != last.path
  {
    var paths := init + [last];
    assert forall p | p in init :: p in paths;
    forall i, j | 0 <= i < j < |init| ensures init[i].path != init[j].path {
      assert paths[i].path != paths[j].path;
    }
    forall i | 0 <= i < |init| ensures init[i].path != last.path {
      assert paths[i].path != paths[|init|].path;
    }
  }

  lemma {:induction false} PathTableHolds(paths: seq<PathEntry>)
    requires UniquePaths(paths)
    ensures forall x :: x in PathTable(paths) <==> exists p | p in paths :: p.path == x
    ensures forall p | p in paths :: p.path in PathTable(paths) && PathTable(paths)[p.path] == ItemTable(p.members)
  {
    if paths != [] {
      var init, last := paths[..|paths| - 1], paths[|paths| - 1];
      assert paths == init + [last];
      UniquePathsInit(init, last);
      PathTableHolds(init);
      assert forall p :: p in paths <==> p in init || p == last;
      assert last in paths;
    }
  }

  lemma PathTableCells(platform: Document)
    requires WellFormed(platform)
    ensures Cells(PathTable(platform.paths)) == PlatformCells(platform)
  {
    var table := PathTable(platform.paths);
    PathTableHolds(platform.paths);
    forall c ensures c in Cells(table) <==> c in PlatformCells(platform) {
      CellIsThere(table, c);
      if c in Cells(table) {
        var p :| p in platform.paths && p.path == c.path;
        ItemTableHolds(p.members);
        assert Member(c.key, c.node) in p.members;
      }
      if c in PlatformCells(platform) {
        var p, m :| p in platform.paths && m in p.members && c == Cell(p.path, m.key, m.node);
        ItemTableHolds(p.members);
        assert Member(m.key, m.node) in p.members;
      }
    }
  }

  lemma PlatformRoutesCover(platform: Document)
    requires WellFormed(platform)
    ensures RoutesCover(PathTable(platform.paths), Routes(AllOperations(platform.paths)))
  {
    PathTableHolds(platform.paths);
    var table := PathTable(platform.paths);
    forall q, k | q in table && k in table[q] && IsHttp(k)
      ensures (Lower(k), q) in Routes(AllOperations(platform.paths))
    {
      var p :| p in platform.paths && p.path == q;
      ItemTableHolds(p.members);
      var m := Member(k, table[q][k]);
      var x := Listed(Lower(k), q, m.node);
      assert IsMemberOperation(p, m, x);
      assert platform.paths[..|platform.paths|] == platform.paths;
      PathOperationsCome(platform.paths, |platform.paths|, x);
      assert x in AllOperations(platform.paths);
    }
  }

  // ----- One more module -----------------------------------------------------------

  lemma OneMoreList(platform: Document, earlier: seq<Module>, m: Module)
    ensures OperationsSoFar(platform, earlier + [m]) == OperationsSoFar(platform, earlier) + PublicOperations(m)
  {
    var all := earlier + [m];
    assert all[..|all| - 1] == earlier && all[|all| - 1] == m;
  }

  lemma OneMoreTable(platform: Document, earlier: seq<Module>, m: Module)
    ensures AllTriples(platform, earlier + [m]) == AllTriples(platform, earlier) + TriplesOf(m.document.groups)
    ensures AllKinds(platform, earlier + [m]) == AllKinds(platform, earlier) + KindsOf(m.document.groups)
  {
    assert forall n :: n in earlier + [m] <==> n in earlier || n == m;
  }

  lemma OneMoreItem(platform: Document, earlier: seq<Module>, m: Module)
    ensures AllCells(platform, earlier + [m]) == AllCells(platform, earlier) + CellsOf(m, PublicOperations(m))
    ensures AllPaths(platform, earlier + [m]) == AllPaths(platform, earlier) + PathsOf(PublicOperations(m))
  {
    assert forall n :: n in earlier + [m] <==> n in earlier || n == m;
  }

  lemma OneMorePublishable(earlier: seq<Module>, m: Module)
    ensures ModulesPublishable(earlier + [m]) <==> ModulesPublishable(earlier) && AllPublishable(m)
  {
    assert forall n :: n in earlier + [m] <==> n in earlier || n == m;
  }

  lemma ConsistentPart(a: set<Triple>, b: set<Triple>)
    requires Consistent(a + b)
    ensures Consistent(a)
  {
  }

  lemma MergeableStep(platform: Document, earlier: seq<Module>, m: Module)
    ensures Mergeable(platform, earlier + [m]) <==>
            && Mergeable(platform, earlier)
            && AllPublishable(m)
            && Distinct(OperationsSoFar(platform, earlier) + PublicOperations(m))
            && Consistent(AllTriples(platform, earlier) + TriplesOf(m.document.groups))
  {
    OneMoreList(platform, earlier, m);
    OneMoreTable(platform, earlier, m);
    OneMorePublishable(earlier, m);
    var before, listed := OperationsSoFar(platform, earlier), PublicOperations(m);
    var known, added := AllTriples(platform, earlier), TriplesOf(m.document.groups);
    if Distinct(before + listed) { DistinctPrefix(before, listed); }
    if Consistent(known + added) { ConsistentPart(known, added); }
  }

  lemma {:induction false} MergeablePrefix(platform: Document, earlier: seq<Module>, later: seq<Module>)
    requires Mergeable(platform, earlier + later)
    ensures Mergeable(platform, earlier)
    decreases |later|
  {
    if later == [] {
      assert earlier + later == earlier;
    } else {
      var init, last := later[..|later| - 1], later[|later| - 1];
      assert earlier + later == (earlier + init) + [last];
      MergeableStep(platform, earlier + init, last);
      MergeablePrefix(platform, earlier, init);
    }
  }

  lemma MergeableUpTo(platform: Document, modules: seq<Module>, n: nat)
    requires n <= |modules|
    ensures Mergeable(platform, modules) ==> Mergeable(platform, modules[..n])
  {
    assert modules == modules[..n] + modules[n..];
    if Mergeable(platform, modules) { MergeablePrefix(platform, modules[..n], modules[n..]); }
  }

  ghost predicate Merged(t: Tables, platform: Document, modules: seq<Module>) {
    && Mergeable(platform, modules)
    && Describes(Aggregate(t.paths, t.components, platform.rest), platform, modules)
    && t.routes == Routes(OperationsSoFar(platform, modules)) && t.ids == Ids(OperationsSoFar(platform, modules))
    && RoutesCover(t.paths, t.routes)
  }

  lemma OwnComponentsAgree(platform: Document)
    requires WellFormed(platform)
    ensures Consistent(Triples(map[]) + TriplesOf(platform.groups))
  {
    assert Triples(map[]) == {};
    forall t, u | t in TriplesOf(platform.groups) && u in TriplesOf(platform.groups) && SameKey(t, u) ensures t == u {
      var g, c :| g in platform.groups && c in g.components && t == Triple(g.kind, c.name, c.value);
      var h, d :| h in platform.groups && d in h.components && u == Triple(h.kind, d.name, d.value);
      assert g == h;
      assert c == d;
    }
  }

  lemma PlatformIsMerged(platform: Document, t: Tables)
    requires WellFormed(platform)
    requires Distinct(AllOperations(platform.paths))
    requires forall x | x in AllOperations(platform.paths) :: IsIdentified(x)
    requires t.paths == PathTable(platform.paths)
    requires t.routes == Routes(AllOperations(platform.paths)) && t.ids == Ids(AllOperations(platform.paths))
    requires Triples(t.components) == TriplesOf(platform.groups) && t.components.Keys == KindsOf(platform.groups)
    ensures Merged(t, platform, [])
  {
    var own := AllOperations(platform.paths);
    assert OperationsSoFar(platform, []) == own;
    PathTableCells(platform);
    PathTableHolds(platform.paths);
    PlatformRoutesCover(platform);
    TableIsConsistent(t.components);
    assert AllCells(platform, []) == PlatformCells(platform);
    assert AllTriples(platform, []) == TriplesOf(platform.groups);
    assert AllKinds(platform, []) == KindsOf(platform.groups);
  }

  /** One turn of the loop over modules. */
  method AddModule(platform: Document, ghost earlier: seq<Module>, m: Module, t: Tables)
    returns (ok: bool, r: Tables)
    requires Merged(t, platform, earlier)
    ensures ok <==> Mergeable(platform, earlier + [m])
    ensures ok ==> Merged(r, platform, earlier + [m])
  {
    r := t;
    MergeableStep(platform, earlier, m);
    var listed := Operations(PublicPaths(m));
    if listed.None? {
      return false, r;
    }
    forall x | x in listed.value ensures Lower(x.verb) == x.verb && IsHttp(x.verb) {
      VerbsAreLower(PublicPaths(m), x);
    }
    ok, r := AddOperations(m, listed.value, t, OperationsSoFar(platform, earlier));
    if !ok {
      return;
    }
    var components;
    ok, components := AddComponents(m.document.groups, t.components);
    if !ok {
      return;
    }
    OneMoreList(platform, earlier, m);
    OneMoreTable(platform, earlier, m);
    OneMoreItem(platform, earlier, m);
    r := r.(components := components);
  }

  /** The copy of the platform's document and the loop over its operations. */
  method StartFromPlatform(platform: Document) returns (ok: bool, t: Tables)
    requires WellFormed(platform)
    ensures ok <==> Mergeable(platform, [])
    ensures ok ==> Merged(t, platform, [])
  {
    t := Tables(map[], map[], {}, {});
    assert OperationsSoFar(platform, []) == AllOperations(platform.paths);
    var listed := Operations(platform.paths);
    if listed.None? { return false, t; }
    var routes, ids;
    ok, routes, ids := CheckPlatform(listed.value);
    if !ok { return; }
    OwnComponentsAgree(platform);
    var components: Components;
    ok, components := AddComponents(platform.groups, map[]);
    t := Tables(PathTable(platform.paths), components, routes, ids);
    PlatformIsMerged(platform, t);
  }

  /** The loop over modules. */
  method AddModules(platform: Document, modules: seq<Module>, start: Tables) returns (ok: bool, t: Tables)
    requires Merged(start, platform, [])
    ensures ok <==> Mergeable(platform, modules)
    ensures ok ==> Merged(t, platform, modules)
  {
    ok, t := true, start;
    assert modules[..0] == [];
    for i := 0 to |modules|
      invariant Merged(t, platform, modules[..i])
    {
      assert modules[..i + 1] == modules[..i] + [modules[i]];
      ok, t := AddModule(platform, modules[..i], modules[i], t);
      if !ok {
        MergeableUpTo(platform, modules, i + 1);
        return;
      }
    }
    assert modules[..|modules|] == modules;
    ok := true;
  }

  /** `aggregate_openapi_documents`; `None` stands for the conflict error. The merge succeeds
      exactly when the documents do not conflict, and yields exactly their union. */
  method AggregateOpenApiDocuments(platform: Document, modules: seq<Module>) returns (aggregate: Option<Aggregate>)
    requires WellFormed(platform)
    ensures aggregate.Some? <==> Mergeable(platform, modules)
    ensures aggregate.Some? ==> Describes(aggregate.value, platform, modules)
  {
    var ok, t := StartFromPlatform(platform);
    if !ok {
      MergeableUpTo(platform, modules, 0);
      return None;
    }
    ok, t := AddModules(platform, modules, t);
    aggregate := if ok then Some(Aggregate(t.paths, t.components, platform.rest)) else None;
  }
}
