/** Building the inspect tree and printing it, step by step. */
module InspectPrinter {
  import opened InspectTree
  import opened Sorting
  import opened Text

  /** The children found for x among the first n items, not yet sorted. */
  function Found(items: seq<Item>, x: Item, n: nat): seq<Item>
    requires n <= |items|
  {
    Filter(items[..n], c => IsChild(items, x, c))
  }

  lemma FoundNext(items: seq<Item>, x: Item, n: nat)
    requires n < |items|
    ensures Found(items, x, n + 1) == Found(items, x, n) + if IsChild(items, x, items[n]) then [items[n]] else []
  {
    assert items[..n + 1] == items[..n] + [items[n]];
    FilterSnoc(items[..n], items[n], c => IsChild(items, x, c));
  }

  /** The table holds what was found for every item. */
  ghost predicate Holds(items: seq<Item>, n: nat, nodes: map<string, seq<Item>>)
    requires n <= |items|
  {
    nodes.Keys == Ids(items) && forall x | x in items :: x.id in nodes && nodes[x.id] == Found(items, x, n)
  }

  method NewNodes(items: seq<Item>) returns (nodes: map<string, seq<Item>>)
    ensures Holds(items, 0, nodes)
  {
    nodes := map[];
    for n := 0 to |items|
      invariant nodes.Keys == Ids(items[..n])
      invariant forall id | id in nodes :: nodes[id] == []
    {
      assert items[..n + 1] == items[..n] + [items[n]];
      nodes := nodes[items[n].id := []];
    }
    assert items[..|items|] == items;
    assert items[..0] == [];
  }

  lemma Attached(items: seq<Item>, n: nat, nodes: map<string, seq<Item>>)
    requires DistinctIds(items) && n < |items| && Holds(items, n, nodes) && !IsRoot(items, items[n])
    ensures
      var id := TrimSpace(items[n].parent);
      id in nodes && Holds(items, n + 1, nodes[id := nodes[id] + [items[n]]])
  {
    var id := TrimSpace(items[n].parent);
    var nodes' := nodes[id := nodes[id] + [items[n]]];
    forall x | x in items
      ensures x.id in nodes' && nodes'[x.id] == Found(items, x, n + 1)
    {
      FoundNext(items, x, n);
    }
  }

  lemma Skipped(items: seq<Item>, n: nat, nodes: map<string, seq<Item>>)
    requires n < |items| && Holds(items, n, nodes) && IsRoot(items, items[n])
    ensures Holds(items, n + 1, nodes)
  {
    forall x | x in items
      ensures nodes[x.id] == Found(items, x, n + 1)
    {
      FoundNext(items, x, n);
    }
  }

  /** Every item is hung under its parent or becomes a root; then all lists are sorted. */
  method BuildInspectTree(items: seq<Item>) returns (kids: map<string, seq<Item>>, roots: seq<Item>)
    requires DistinctIds(items)
    ensures roots == Roots(items)
    ensures forall x | x in items :: x.id in kids && kids[x.id] == Children(items, x)
  {
    var nodes := NewNodes(items);
    roots := [];
    for n := 0 to |items|
      invariant Holds(items, n, nodes)
      invariant roots == Filter(items[..n], c => IsRoot(items, c))
    {
      var x := items[n];
      assert items[..n + 1] == items[..n] + [x];
      FilterSnoc(items[..n], x, c => IsRoot(items, c));
      if Blank(x.parent) || TrimSpace(x.parent) !in nodes {
        Skipped(items, n, nodes);
        roots := roots + [x];
      } else {
        Attached(items, n, nodes);
        var id := TrimSpace(x.parent);
        nodes := nodes[id := nodes[id] + [x]];
      }
    }
    assert items[..|items|] == items;
    kids := SortAll(nodes);
    roots := Sort(roots, ItemLe);
  }

  /** The lists are sorted one by one, in whatever order the map yields them. */
  method SortAll(nodes: map<string, seq<Item>>) returns (sorted: map<string, seq<Item>>)
    ensures sorted.Keys == nodes.Keys && forall id | id in nodes :: sorted[id] == Sort(nodes[id], ItemLe)
  {
    sorted := nodes;
    var left := nodes.Keys;
    while left != {}
      invariant left <= nodes.Keys && sorted.Keys == nodes.Keys
      invariant forall id | id in nodes :: sorted[id] == if id in left then nodes[id] else Sort(nodes[id], ItemLe)
    {
      var id :| id in left;
      sorted := sorted[id := Sort(sorted[id], ItemLe)];
      left := left - {id};
    }
  }

  /** The printer: the lines written and the ids on the current path. */
  class Printer {
    const kids: map<string, seq<Item>>
    var visited: set<string>
    var lines: seq<Line>

    constructor (kids: map<string, seq<Item>>)
      ensures this.kids == kids && visited == {} && lines == []
    {
      this.kids := kids;
      visited, lines := {}, [];
    }

    /** The table the printer walks is this tree over these items. */
    ghost predicate Shows(tree: Tree, ids: set<string>, all: set<Item>)
      reads this
    {
      && Closed(tree, ids)
      && forall x | x in all :: x.id in ids && x.id in kids && kids[x.id] == tree(x) && forall c | c in tree(x) :: c in all
    }

    /** Prints one item and what hangs under it; afterwards the path is as before. */
    method RenderNode(x: Item, depth: nat, ghost tree: Tree, ghost ids: set<string>, ghost all: set<Item>)
      requires Shows(tree, ids, all) && x in all
      modifies this
      ensures visited == old(visited)
      ensures lines == old(lines) + Print(tree, ids, x, depth, old(visited))
      decreases Left(ids, visited), 1
    {
      if x.id in visited {
        lines := lines + [Line(x, depth, true)];
        return;
      }
      LeftShrinks(ids, visited, x.id);
      visited := visited + {x.id};
      lines := lines + [Line(x, depth, false)];
      RenderAll(kids[x.id], depth + 1, tree, ids, all);
      visited := visited - {x.id};
      assert visited == old(visited);
    }

    method RenderAll(xs: seq<Item>, depth: nat, ghost tree: Tree, ghost ids: set<string>, ghost all: set<Item>)
      requires Shows(tree, ids, all) && forall x | x in xs :: x in all
      modifies this
      ensures visited == old(visited)
      ensures lines == old(lines) + PrintAll(tree, ids, xs, depth, old(visited))
      decreases Left(ids, visited), 2
    {
      for n := 0 to |xs|
        invariant visited == old(visited)
        invariant lines == old(lines) + PrintAll(tree, ids, xs[..n], depth, old(visited))
      {
        assert xs[..n + 1][..n] == xs[..n];
        RenderNode(xs[n], depth, tree, ids, all);
      }
      assert xs[..|xs|] == xs;
    }
  }

  lemma TableShows(items: seq<Item>, kids: map<string, seq<Item>>)
    requires forall x | x in items :: x.id in kids && kids[x.id] == Children(items, x)
    ensures Closed(KidsOf(items), Ids(items))
    ensures forall x | x in items ::
              x.id in Ids(items) && kids[x.id] == KidsOf(items)(x) && forall c | c in KidsOf(items)(x) :: c in items
  {
    KidsClosed(items);
    forall x | x in items
      ensures forall c | c in KidsOf(items)(x) :: c in items
    {
      ChildrenAre(items, x);
    }
  }

  method RenderInspect(items: seq<Item>) returns (lines: seq<Line>)
    requires DistinctIds(items)
    ensures lines == Forest(items)
  {
    var kids, roots := BuildInspectTree(items);
    var printer := new Printer(kids);
    TableShows(items, kids);
    RootsAre(items);
    ghost var tree := KidsOf(items);
    printer.RenderAll(roots, 0, tree, Ids(items), set x | x in items);
    lines := printer.lines;
  }
}
