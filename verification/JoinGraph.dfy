/** Join paths between tables: the foreign-key graph, its breadth-first search and the pairwise report. */
module JoinGraph {
  import opened Common

  datatype ForeignKey = ForeignKey(fromTable: string, fromColumn: string, toTable: string, toColumn: string)

  datatype Edge = Edge(fromTable: string, fromColumn: string, toTable: string, toColumn: string, joinCondition: string)

  function MakeEdge(from: string, fromColumn: string, to: string, toColumn: string): Edge {
    Edge(from, fromColumn, to, toColumn, from + "." + fromColumn + " = " + to + "." + toColumn)
  }

  function Forward(fk: ForeignKey): Edge {
    MakeEdge(fk.fromTable, fk.fromColumn, fk.toTable, fk.toColumn)
  }

  function Backward(fk: ForeignKey): Edge {
    MakeEdge(fk.toTable, fk.toColumn, fk.fromTable, fk.fromColumn)
  }

  /** Every foreign key is an edge in both directions. */
  ghost predicate IsEdge(fks: seq<ForeignKey>, e: Edge) {
    exists fk :: fk in fks && (e == Forward(fk) || e == Backward(fk))
  }

  /** The edge joins exactly the two columns of some foreign key, as it stands or with both ends exchanged together,
      and its condition says so. */
  ghost predicate JoinsForeignKey(fks: seq<ForeignKey>, e: Edge) {
    && (exists fk :: fk in fks
          && ((e.fromTable == fk.fromTable && e.fromColumn == fk.fromColumn
               && e.toTable == fk.toTable && e.toColumn == fk.toColumn)
              || (e.fromTable == fk.toTable && e.fromColumn == fk.toColumn
                  && e.toTable == fk.fromTable && e.toColumn == fk.fromColumn)))
    && e.joinCondition == e.fromTable + "." + e.fromColumn + " = " + e.toTable + "." + e.toColumn
  }

  /** The edges of the graph are exactly the joins along foreign keys, in both directions. */
  lemma EdgesJoinForeignKeys(fks: seq<ForeignKey>, e: Edge)
    ensures IsEdge(fks, e) <==> JoinsForeignKey(fks, e)
  {
    if fk :| fk in fks && (e == Forward(fk) || e == Backward(fk)) {
      assert fk in fks;
    }
  }

  /** The edges out of `t`, in the order in which they are appended. */
  function Adjacent(fks: seq<ForeignKey>, t: string): seq<Edge> {
    if fks == [] then []
    else
      var fk := fks[|fks| - 1];
      Adjacent(fks[..|fks| - 1], t)
      + (if fk.fromTable == t then [Forward(fk)] else [])
      + (if fk.toTable == t then [Backward(fk)] else [])
  }

  lemma {:induction false} AdjacentIsEdges(fks: seq<ForeignKey>, t: string, e: Edge)
    ensures e in Adjacent(fks, t) <==> IsEdge(fks, e) && e.fromTable == t
  {
    if fks != [] {
      var last := fks[|fks| - 1];
      AdjacentIsEdges(fks[..|fks| - 1], t, e);
      assert fks == fks[..|fks| - 1] + [last];
    }
  }

  type Graph = map<string, seq<Edge>>

  /** `graph[t]` of a `defaultdict(list)`. */
  function Out(graph: Graph, t: string): seq<Edge> {
    if t in graph then graph[t] else []
  }

  method BuildGraph(fks: seq<ForeignKey>) returns (graph: Graph)
    ensures forall t :: Out(graph, t) == Adjacent(fks, t)
    ensures ListsJoins(fks, graph)
  {
    hide ListsJoins;
    graph := map[];
    for i := 0 to |fks|
      invariant forall t :: Out(graph, t) == Adjacent(fks[..i], t)
    {
      var fk := fks[i];
      ghost var before := graph;
      assert fks[..i + 1][..i] == fks[..i];
      graph := graph[fk.fromTable := Out(graph, fk.fromTable) + [Forward(fk)]];
      graph := graph[fk.toTable := Out(graph, fk.toTable) + [Backward(fk)]];
      forall t ensures Out(graph, t) == Adjacent(fks[..i + 1], t) {
        assert Out(before, t) == Adjacent(fks[..i], t);
      }
    }
    assert fks[..|fks|] == fks;
    hide Adjacent, Out;
    AdjacentListsJoins(fks, graph);
  }

  /** The list of each table holds exactly the joins along foreign keys that leave it. */
  ghost predicate ListsJoins(fks: seq<ForeignKey>, graph: Graph) {
    forall t, e :: e in Out(graph, t) <==> JoinsForeignKey(fks, e) && e.fromTable == t
  }

  lemma AdjacentListsJoins(fks: seq<ForeignKey>, graph: Graph)
    requires forall t :: Out(graph, t) == Adjacent(fks, t)
    ensures ListsJoins(fks, graph)
  {
    hide JoinsForeignKey, IsEdge, Adjacent;
    forall t, e ensures e in Out(graph, t) <==> JoinsForeignKey(fks, e) && e.fromTable == t {
      AdjacentIsEdges(fks, t, e);
      EdgesJoinForeignKeys(fks, e);
    }
  }

  // ---------- chains ----------

  /** `p` leads from `a` to `b` along edges of the graph, each leaving the table where the last arrived. */
  ghost predicate Chain(fks: seq<ForeignKey>, a: string, b: string, p: seq<Edge>)
    decreases |p|
  {
    if p == [] then a == b
    else
      var last := p[|p| - 1];
      last.toTable == b && IsEdge(fks, last) && Chain(fks, a, last.fromTable, p[..|p| - 1])
  }

  ghost predicate JoinsForeignKeys(fks: seq<ForeignKey>, p: seq<Edge>) {
    forall i :: 0 <= i < |p| ==> JoinsForeignKey(fks, p[i])
  }

  /** Every edge of a chain joins two columns of a foreign key. */
  lemma {:induction false} ChainJoins(fks: seq<ForeignKey>, a: string, b: string, p: seq<Edge>)
    requires Chain(fks, a, b, p)
    ensures JoinsForeignKeys(fks, p)
    decreases |p|
  {
    if p != [] {
      var last := p[|p| - 1];
      EdgesJoinForeignKeys(fks, last);
      ChainJoins(fks, a, last.fromTable, p[..|p| - 1]);
    }
  }

  ghost predicate Reachable(fks: seq<ForeignKey>, a: string, b: string) {
    exists p :: Chain(fks, a, b, p)
  }

  /** No chain from `a` to `b` has fewer than `n` edges. */
  ghost predicate AtLeast(fks: seq<ForeignKey>, a: string, b: string, n: nat) {
    forall p :: Chain(fks, a, b, p) ==> |p| >= n
  }

  lemma ChainExtends(fks: seq<ForeignKey>, a: string, p: seq<Edge>, e: Edge)
    requires Chain(fks, a, e.fromTable, p) && IsEdge(fks, e)
    ensures Chain(fks, a, e.toTable, p + [e])
  {
    assert (p + [e])[..|p|] == p;
  }

  function TablesOf(fks: seq<ForeignKey>): set<string> {
    (set fk | fk in fks :: fk.fromTable) + (set fk | fk in fks :: fk.toTable)
  }

  // ---------- breadth-first search ----------

  /** What the search has seen: a visited table that is not yet expanded is at least `d` edges away, and all
      neighbours of an expanded table are visited. */
  ghost predicate Frontier(fks: seq<ForeignKey>, start: string, visited: set<string>, done: set<string>, d: nat) {
    && start in visited
    && (forall e :: IsEdge(fks, e) && e.fromTable in done ==> e.toTable in visited)
    && (forall t :: t in visited && t !in done ==> AtLeast(fks, start, t, d))
  }

  /** Every table within `d` edges of the start has been visited. */
  lemma {:induction false} NearIsVisited(fks: seq<ForeignKey>, start: string, visited: set<string>, done: set<string>,
                                         d: nat, b: string, p: seq<Edge>)
    requires Frontier(fks, start, visited, done, d)
    requires Chain(fks, start, b, p) && |p| <= d
    ensures b in visited
    decreases |p|
  {
    if p != [] {
      var last := p[|p| - 1];
      NearIsVisited(fks, start, visited, done, d, last.fromTable, p[..|p| - 1]);
      assert last.fromTable in done;
    }
  }

  lemma UnvisitedIsFar(fks: seq<ForeignKey>, start: string, visited: set<string>, done: set<string>, d: nat, b: string)
    requires Frontier(fks, start, visited, done, d) && b !in visited
    ensures AtLeast(fks, start, b, d + 1)
  {
    forall p | Chain(fks, start, b, p) ensures |p| >= d + 1 {
      if |p| <= d {
        NearIsVisited(fks, start, visited, done, d, b, p);
      }
    }
  }

  /** When everything visited is expanded, only visited tables are reachable. */
  lemma {:induction false} ClosedIsReachable(fks: seq<ForeignKey>, start: string, visited: set<string>, b: string,
                                             p: seq<Edge>)
    requires Frontier(fks, start, visited, visited, 0) && Chain(fks, start, b, p)
    ensures b in visited
    decreases |p|
  {
    if p != [] {
      var last := p[|p| - 1];
      ClosedIsReachable(fks, start, visited, last.fromTable, p[..|p| - 1]);
    }
  }

  datatype Item = Item(table: string, path: seq<Edge>)

  /** A queue of shortest chains to different tables, by length, over lengths `d` and `d + 1`. */
  ghost predicate ShortestChains(fks: seq<ForeignKey>, start: string, queue: seq<Item>, d: nat) {
    && (forall i :: 0 <= i < |queue| ==> Chain(fks, start, queue[i].table, queue[i].path))
    && (forall i :: 0 <= i < |queue| ==> AtLeast(fks, start, queue[i].table, |queue[i].path|))
    && (forall i :: 0 <= i < |queue| ==> d <= |queue[i].path| <= d + 1)
    && (forall i, j :: 0 <= i < j < |queue| ==> |queue[i].path| <= |queue[j].path| && queue[i].table != queue[j].table)
  }

  ghost predicate Holds(queue: seq<Item>, t: string) {
    exists i :: 0 <= i < |queue| && queue[i].table == t
  }

  /** The search between two steps: `done` is expanded, `busy` is being expanded, and the queue holds exactly
      the other visited tables. */
  ghost predicate Searching(fks: seq<ForeignKey>, start: string, queue: seq<Item>, visited: set<string>,
                            done: set<string>, busy: set<string>, d: nat) {
    && start in visited && done + busy <= visited && visited <= TablesOf(fks) + {start}
    && ShortestChains(fks, start, queue, d)
    && (forall i :: 0 <= i < |queue| ==> queue[i].table in visited && queue[i].table !in done + busy)
    && (forall t :: t in visited && t !in done + busy ==> Holds(queue, t))
    && (forall t :: t in busy ==> AtLeast(fks, start, t, d))
    && (forall e :: IsEdge(fks, e) && e.fromTable in done ==> e.toTable in visited)
  }

  lemma SearchingIsFrontier(fks: seq<ForeignKey>, start: string, queue: seq<Item>, visited: set<string>,
                            done: set<string>, busy: set<string>, d: nat)
    requires Searching(fks, start, queue, visited, done, busy, d)
    ensures Frontier(fks, start, visited, done, d)
  {
    forall t | t in visited && t !in done ensures AtLeast(fks, start, t, d) {
      if t !in busy {
        var i :| 0 <= i < |queue| && queue[i].table == t;
        assert AtLeast(fks, start, queue[i].table, |queue[i].path|);
      }
    }
  }

  lemma SearchStarts(fks: seq<ForeignKey>, start: string)
    ensures Searching(fks, start, [Item(start, [])], {start}, {}, {}, 0)
  {
    assert [Item(start, [])][0].table == start;
  }

  lemma SearchPops(fks: seq<ForeignKey>, start: string, queue: seq<Item>, visited: set<string>, done: set<string>,
                   d: nat)
    requires Searching(fks, start, queue, visited, done, {}, d) && queue != []
    ensures Searching(fks, start, queue[1..], visited, done, {queue[0].table}, |queue[0].path|)
  {
    hide Chain, AtLeast, IsEdge, TablesOf;
    assert done + {} == done;
    forall i | 0 <= i < |queue| - 1 ensures queue[1..][i] == queue[i + 1] {
    }
    forall t | t in visited && t !in done + {queue[0].table} ensures Holds(queue[1..], t) {
      assert Holds(queue, t);
      var i :| 0 <= i < |queue| && queue[i].table == t;
      assert queue[1..][i - 1].table == t;
    }
  }

  lemma ChainsGrow(fks: seq<ForeignKey>, start: string, queue: seq<Item>, d: nat, item: Item)
    requires ShortestChains(fks, start, queue, d)
    requires Chain(fks, start, item.table, item.path) && AtLeast(fks, start, item.table, d + 1) && |item.path| == d + 1
    requires forall i :: 0 <= i < |queue| ==> queue[i].table != item.table
    ensures ShortestChains(fks, start, queue + [item], d)
  {
    hide Chain, AtLeast, IsEdge;
  }

  /** A newly seen neighbour of the table being expanded is one edge further away than that table. */
  lemma NeighbourIsFurther(fks: seq<ForeignKey>, start: string, queue: seq<Item>, visited: set<string>,
                           done: set<string>, walked: seq<Edge>, e: Edge)
    requires Searching(fks, start, queue, visited, done, {e.fromTable}, |walked|)
    requires Chain(fks, start, e.fromTable, walked) && IsEdge(fks, e) && e.toTable !in visited
    ensures Chain(fks, start, e.toTable, walked + [e]) && AtLeast(fks, start, e.toTable, |walked| + 1)
    ensures e.toTable in TablesOf(fks)
  {
    SearchingIsFrontier(fks, start, queue, visited, done, {e.fromTable}, |walked|);
    UnvisitedIsFar(fks, start, visited, done, |walked|, e.toTable);
    ChainExtends(fks, start, walked, e);
  }

  lemma SearchVisits(fks: seq<ForeignKey>, start: string, queue: seq<Item>, visited: set<string>, done: set<string>,
                     walked: seq<Edge>, e: Edge)
    requires Searching(fks, start, queue, visited, done, {e.fromTable}, |walked|)
    requires Chain(fks, start, e.fromTable, walked) && IsEdge(fks, e) && e.toTable !in visited
    ensures Searching(fks, start, queue + [Item(e.toTable, walked + [e])], visited + {e.toTable}, done,
                      {e.fromTable}, |walked|)
  {
    hide ShortestChains, Chain, AtLeast, IsEdge, TablesOf;
    var longer := queue + [Item(e.toTable, walked + [e])];
    NeighbourIsFurther(fks, start, queue, visited, done, walked, e);
    ChainsGrow(fks, start, queue, |walked|, Item(e.toTable, walked + [e]));
    assert longer[|queue|].table == e.toTable;
    forall t | t in visited + {e.toTable} && t !in done + {e.fromTable} ensures Holds(longer, t) {
      if t != e.toTable {
        assert Holds(queue, t);
        var i :| 0 <= i < |queue| && queue[i].table == t;
        assert longer[i].table == t;
      }
    }
  }

  lemma SearchExpands(fks: seq<ForeignKey>, start: string, queue: seq<Item>, visited: set<string>, done: set<string>,
                      t: string, d: nat)
    requires Searching(fks, start, queue, visited, done, {t}, d)
    requires forall e :: IsEdge(fks, e) && e.fromTable == t ==> e.toTable in visited
    ensures Searching(fks, start, queue, visited, done + {t}, {}, d)
  {
    assert done + {t} + {} == done + {t};
  }

  lemma SearchEnds(fks: seq<ForeignKey>, start: string, visited: set<string>, done: set<string>, d: nat, target: string)
    requires Searching(fks, start, [], visited, done, {}, d) && target !in done
    ensures !Reachable(fks, start, target)
  {
    forall t | t in visited ensures t in done {
      assert t !in done ==> Holds([], t);
    }
    forall p | Chain(fks, start, target, p) ensures false {
      ClosedIsReachable(fks, start, visited, target, p);
    }
  }

  /** A chain with the fewest edges, or None exactly when no chain exists. */
  method ShortestPath(fks: seq<ForeignKey>, start: string, target: string) returns (path: Option<seq<Edge>>)
    ensures path.Some? ==> Chain(fks, start, target, path.value) && AtLeast(fks, start, target, |path.value|)
    ensures path.Some? <==> Reachable(fks, start, target)
    ensures path.Some? ==> JoinsForeignKeys(fks, path.value)
  {
    hide Searching, Chain, AtLeast, IsEdge, Adjacent, TablesOf, JoinsForeignKeys, ListsJoins;
    var graph := BuildGraph(fks);
    var queue: seq<Item> := [Item(start, [])];
    var visited := {start};
    ghost var done: set<string> := {};
    ghost var d: nat := 0;
    SearchStarts(fks, start);
    while queue != []
      invariant target !in done
      invariant Searching(fks, start, queue, visited, done, {}, d)
      decreases TablesOf(fks) + {start} - done
    {
      var Item(current, walked) := queue[0];
      FrontItem(fks, start, queue, visited, done, d);
      if current == target {
        ChainJoins(fks, start, target, walked);
        return Some(walked);
      }
      SearchPops(fks, start, queue, visited, done, d);
      queue := queue[1..];
      d := |walked|;
      var edges := Out(graph, current);
      var i := 0;
      while i < |edges|
        invariant 0 <= i <= |edges|
        invariant Searching(fks, start, queue, visited, done, {current}, d)
        invariant forall k :: 0 <= k < i ==> edges[k].toTable in visited
      {
        var edge := edges[i];
        AdjacentIsEdges(fks, current, edge);
        if edge.toTable !in visited {
          SearchVisits(fks, start, queue, visited, done, walked, edge);
          visited := visited + {edge.toTable};
          queue := queue + [Item(edge.toTable, walked + [edge])];
        }
        i := i + 1;
      }
      forall e | IsEdge(fks, e) && e.fromTable == current ensures e.toTable in visited {
        AdjacentIsEdges(fks, current, e);
      }
      SearchExpands(fks, start, queue, visited, done, current, d);
      done := done + {current};
    }
    SearchEnds(fks, start, visited, done, d, target);
    path := None;
  }

  lemma FrontItem(fks: seq<ForeignKey>, start: string, queue: seq<Item>, visited: set<string>, done: set<string>,
                  d: nat)
    requires Searching(fks, start, queue, visited, done, {}, d) && queue != []
    ensures var Item(t, p) := queue[0];
            && t !in done && t in TablesOf(fks) + {start}
            && Chain(fks, start, t, p) && AtLeast(fks, start, t, |p|)
  {
  }

  // ---------- symmetry ----------

  function Reversed(p: seq<Edge>): seq<Edge> {
    if p == [] then []
    else
      var e := p[|p| - 1];
      [MakeEdge(e.toTable, e.toColumn, e.fromTable, e.fromColumn)] + Reversed(p[..|p| - 1])
  }

  lemma {:induction false} ChainPrepends(fks: seq<ForeignKey>, b: string, p: seq<Edge>, e: Edge)
    requires Chain(fks, e.toTable, b, p) && IsEdge(fks, e)
    ensures Chain(fks, e.fromTable, b, [e] + p)
    decreases |p|
  {
    if p == [] {
      assert ([e] + p)[..0] == [];
    } else {
      var last := p[|p| - 1];
      ChainPrepends(fks, last.fromTable, p[..|p| - 1], e);
      assert ([e] + p)[..|p|] == [e] + p[..|p| - 1];
    }
  }

  /** Walking a chain backwards is a chain of the same length: joins do not depend on the direction. */
  lemma {:induction false} ChainReverses(fks: seq<ForeignKey>, a: string, b: string, p: seq<Edge>)
    requires Chain(fks, a, b, p)
    ensures Chain(fks, b, a, Reversed(p)) && |Reversed(p)| == |p|
    decreases |p|
  {
    if p != [] {
      var e := p[|p| - 1];
      ChainReverses(fks, a, e.fromTable, p[..|p| - 1]);
      ChainPrepends(fks, a, Reversed(p[..|p| - 1]), MakeEdge(e.toTable, e.toColumn, e.fromTable, e.fromColumn));
    }
  }

  /** Reachability and distance are symmetric. */
  lemma DistanceIsSymmetric(fks: seq<ForeignKey>, a: string, b: string, n: nat)
    ensures Reachable(fks, a, b) <==> Reachable(fks, b, a)
    ensures AtLeast(fks, a, b, n) <==> AtLeast(fks, b, a, n)
  {
    forall p | Chain(fks, a, b, p) ensures Chain(fks, b, a, Reversed(p)) && |Reversed(p)| == |p| {
      ChainReverses(fks, a, b, p);
    }
    forall p | Chain(fks, b, a, p) ensures Chain(fks, a, b, Reversed(p)) && |Reversed(p)| == |p| {
      ChainReverses(fks, b, a, p);
    }
  }

  // ---------- the pairwise report ----------

  datatype PathEntry = PathEntry(from: string, to: string, path: Option<seq<Edge>>, reachable: bool)

  datatype JoinPaths = UnknownTables(unknown: seq<string>) | Paths(entries: seq<PathEntry>)

  /** `list(dict.fromkeys(tables))`: the first occurrence of each table, in order. */
  function Distinct(tables: seq<string>): seq<string> {
    if tables == [] then []
    else
      var rest, last := Distinct(tables[..|tables| - 1]), tables[|tables| - 1];
      if last in rest then rest else rest + [last]
  }

  lemma {:induction false} DistinctKeepsOnce(tables: seq<string>)
    ensures forall t :: t in Distinct(tables) <==> t in tables
    ensures forall i, j :: 0 <= i < j < |Distinct(tables)| ==> Distinct(tables)[i] != Distinct(tables)[j]
  {
    if tables != [] {
      DistinctKeepsOnce(tables[..|tables| - 1]);
      assert tables == tables[..|tables| - 1] + [tables[|tables| - 1]];
    }
  }

  /** Those of `tables` that are not in the schema, in order. */
  function Unknown(tables: seq<string>, existing: set<string>): seq<string> {
    if tables == [] then []
    else
      var rest, last := Unknown(tables[..|tables| - 1], existing), tables[|tables| - 1];
      if last in existing then rest else rest + [last]
  }

  lemma {:induction false} UnknownIsMissing(tables: seq<string>, existing: set<string>)
    ensures forall t :: t in Unknown(tables, existing) <==> t in tables && t !in existing
  {
    if tables != [] {
      UnknownIsMissing(tables[..|tables| - 1], existing);
      assert tables == tables[..|tables| - 1] + [tables[|tables| - 1]];
    }
  }

  /** The pairs that table `i` opens with the tables after it and before `j`. */
  function Row(names: seq<string>, i: nat, j: nat): seq<(string, string)>
    requires i < |names| && j <= |names|
  {
    if j <= i + 1 then [] else Row(names, i, j - 1) + [(names[i], names[j - 1])]
  }

  function Rows(names: seq<string>, i: nat): seq<(string, string)>
    requires i <= |names|
  {
    if i == 0 then [] else Rows(names, i - 1) + Row(names, i - 1, |names|)
  }

  lemma {:induction false} RowHolds(names: seq<string>, i: nat, j: nat)
    requires i < |names| && j <= |names|
    ensures |Row(names, i, j)| == Max(0, j - i - 1)
    ensures forall k :: i < k < j ==> Row(names, i, j)[k - i - 1] == (names[i], names[k])
  {
    if j > i + 1 {
      RowHolds(names, i, j - 1);
    }
  }

  /** Every pair of tables is reported, each table with every later one. */
  lemma {:induction false} RowsHold(names: seq<string>, i: nat, x: nat, y: nat)
    requires i <= |names| && x < i && x < y < |names|
    ensures (names[x], names[y]) in Rows(names, i)
  {
    if x < i - 1 {
      RowsHold(names, i - 1, x, y);
    } else {
      RowHolds(names, x, |names|);
      assert Row(names, x, |names|)[y - x - 1] == (names[x], names[y]);
    }
  }

  lemma TriangleStep(n: int, i: int)
    ensures (i - 1) * (2 * n - i) + 2 * (n - i) == i * (2 * n - i - 1)
  {
    assert (i - 1) * (2 * n - i) == i * (2 * n - i) - (2 * n - i);
    assert i * (2 * n - i - 1) == i * (2 * n - i) - i;
  }

  /** With n tables there are n(n-1)/2 pairs, so none is reported twice. */
  lemma {:induction false} RowsCount(names: seq<string>, i: nat)
    requires i <= |names|
    ensures 2 * |Rows(names, i)| == i * (2 * |names| - i - 1)
  {
    if i > 0 {
      RowsCount(names, i - 1);
      RowHolds(names, i - 1, |names|);
      TriangleStep(|names|, i);
    }
  }

  /** The entry answers one pair: a shortest chain, or None exactly when there is no chain. */
  ghost predicate Answers(fks: seq<ForeignKey>, entry: PathEntry, from: string, to: string) {
    && entry.from == from && entry.to == to
    && (entry.reachable <==> entry.path.Some?)
    && (entry.reachable <==> Reachable(fks, from, to))
    && (entry.path.Some? ==>
          && Chain(fks, from, to, entry.path.value) && AtLeast(fks, from, to, |entry.path.value|)
          && JoinsForeignKeys(fks, entry.path.value))
  }

  ghost predicate AnswersAll(fks: seq<ForeignKey>, entries: seq<PathEntry>, pairs: seq<(string, string)>) {
    && |entries| == |pairs|
    && forall k :: 0 <= k < |pairs| ==> Answers(fks, entries[k], pairs[k].0, pairs[k].1)
  }

  /** Reports the unknown tables if there are any; otherwise answers every pair of the distinct tables. */
  method FindJoinPaths(fks: seq<ForeignKey>, existing: set<string>, tables: seq<string>) returns (report: JoinPaths)
    ensures var missing := Unknown(Distinct(tables), existing);
            if missing != [] then report == UnknownTables(missing)
            else report.Paths? && AnswersAll(fks, report.entries, Rows(Distinct(tables), |Distinct(tables)|))
    ensures report.Paths? <==> forall t :: t in tables ==> t in existing
  {
    hide Chain, AtLeast, Reachable, Distinct, Unknown, JoinsForeignKeys;
    DistinctKeepsOnce(tables);
    UnknownIsMissing(Distinct(tables), existing);
    var names := Distinct(tables);
    var unknown := Unknown(names, existing);
    if unknown != [] {
      assert unknown[0] in names;
      return UnknownTables(unknown);
    }
    var entries: seq<PathEntry> := [];
    for i := 0 to |names|
      invariant AnswersAll(fks, entries, Rows(names, i))
    {
      for j := i + 1 to |names|
        invariant AnswersAll(fks, entries, Rows(names, i) + Row(names, i, j))
      {
        var path := ShortestPath(fks, names[i], names[j]);
        assert Answers(fks, PathEntry(names[i], names[j], path, path.Some?), names[i], names[j]);
        assert Rows(names, i) + Row(names, i, j + 1) == Rows(names, i) + Row(names, i, j) + [(names[i], names[j])];
        entries := entries + [PathEntry(names[i], names[j], path, path.Some?)];
      }
    }
    return Paths(entries);
  }

  /** Each pair of distinct tables has its answer among the n(n-1)/2 entries of the report. */
  lemma EveryPairIsAnswered(fks: seq<ForeignKey>, entries: seq<PathEntry>, names: seq<string>, x: nat, y: nat)
    requires AnswersAll(fks, entries, Rows(names, |names|)) && x < y < |names|
    ensures 2 * |entries| == |names| * (|names| - 1)
    ensures exists k :: 0 <= k < |entries| && Answers(fks, entries[k], names[x], names[y])
  {
    hide Answers, Row, Rows;
    RowsCount(names, |names|);
    RowsHold(names, |names|, x, y);
    var k :| 0 <= k < |entries| && Rows(names, |names|)[k] == (names[x], names[y]);
    assert Answers(fks, entries[k], names[x], names[y]);
  }
}
