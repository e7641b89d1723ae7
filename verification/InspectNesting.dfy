/** The shape of the printed forest: which headers stand under which, and in which order. */
module InspectNesting {
  import opened InspectTree
  import opened Text

  /** The lines at the start that lie deeper than the depth. */
  function Under(lines: seq<Line>, depth: nat): seq<Line> {
    if lines == [] || lines[0].depth <= depth then [] else [lines[0]] + Under(lines[1..], depth)
  }

  /** The items of the lines at the depth. */
  function ItemsAt(lines: seq<Line>, depth: nat): seq<Item> {
    if lines == [] then [] else ItemAt(lines[0], depth) + ItemsAt(lines[1..], depth)
  }

  predicate Deep(lines: seq<Line>, depth: nat) {
    forall i | 0 <= i < |lines| :: lines[i].depth >= depth
  }

  /** One level below a header, and before the next one that is not deeper, stand the children. */
  ghost predicate Heads(kids: Tree, lines: seq<Line>, j: nat)
    requires j < |lines|
  {
    var l := lines[j];
    !l.cycle ==> ItemsAt(Under(lines[j + 1..], l.depth), l.depth + 1) == kids(l.item)
  }

  ghost predicate Nested(kids: Tree, lines: seq<Line>) {
    forall j | 0 <= j < |lines| :: Heads(kids, lines, j)
  }

  lemma {:induction false} UnderJoin(a: seq<Line>, b: seq<Line>, depth: nat)
    requires b == [] || b[0].depth <= depth
    ensures Under(a + b, depth) == Under(a, depth)
  {
    if a == [] {
      assert a + b == b;
    } else {
      assert (a + b)[1..] == a[1..] + b;
      UnderJoin(a[1..], b, depth);
    }
  }

  lemma {:induction false} UnderAll(a: seq<Line>, depth: nat)
    requires Deep(a, depth + 1)
    ensures Under(a, depth) == a
  {
    if a != [] {
      UnderAll(a[1..], depth);
    }
  }

  function ItemAt(l: Line, depth: nat): seq<Item> {
    if l.depth == depth then [l.item] else []
  }

  lemma Joined(x: seq<Item>, y: seq<Item>, z: seq<Item>)
    ensures x + (y + z) == x + y + z
  {
  }

  lemma {:induction false} ItemsJoin(a: seq<Line>, b: seq<Line>, depth: nat)
    ensures ItemsAt(a + b, depth) == ItemsAt(a, depth) + ItemsAt(b, depth)
  {
    if a == [] {
      assert a + b == b;
    } else {
      assert (a + b)[1..] == a[1..] + b;
      ItemsJoin(a[1..], b, depth);
      Joined(ItemAt(a[0], depth), ItemsAt(a[1..], depth), ItemsAt(b, depth));
    }
  }

  lemma {:induction false} NoItems(a: seq<Line>, depth: nat)
    requires Deep(a, depth + 1)
    ensures ItemsAt(a, depth) == []
  {
    if a != [] {
      NoItems(a[1..], depth);
    }
  }

  /** Parts of a forest next to each other keep their shapes. */
  lemma NestedJoin(kids: Tree, a: seq<Line>, b: seq<Line>, depth: nat)
    requires Nested(kids, a) && Nested(kids, b) && Deep(a, depth) && (b == [] || b[0].depth <= depth)
    ensures Nested(kids, a + b)
  {
    forall j | 0 <= j < |a + b|
      ensures Heads(kids, a + b, j)
    {
      if j < |a| {
        assert Heads(kids, a, j);
        assert (a + b)[j + 1..] == a[j + 1..] + b;
        UnderJoin(a[j + 1..], b, a[j].depth);
      } else {
        assert Heads(kids, b, j - |a|);
        assert (a + b)[j + 1..] == b[j - |a| + 1..];
      }
    }
  }

  /** A header over the lines of its children. */
  lemma NestedUnder(kids: Tree, x: Item, depth: nat, below: seq<Line>)
    requires Nested(kids, below) && Deep(below, depth + 1) && ItemsAt(below, depth + 1) == kids(x)
    ensures Nested(kids, [Line(x, depth, false)] + below)
  {
    var lines := [Line(x, depth, false)] + below;
    forall j | 0 <= j < |lines|
      ensures Heads(kids, lines, j)
    {
      assert lines[j + 1..] == below[j..];
      if j == 0 {
        UnderAll(below, depth);
      } else {
        assert Heads(kids, below, j - 1);
      }
    }
  }

  lemma {:induction false} PrintNested(kids: Tree, ids: set<string>, x: Item, depth: nat, visited: set<string>)
    requires Closed(kids, ids) && x.id in ids
    ensures
      var lines := Print(kids, ids, x, depth, visited);
      && lines != [] && lines[0] == Line(x, depth, x.id in visited)
      && Nested(kids, lines) && Deep(lines, depth) && ItemsAt(lines, depth) == [x]
    decreases Left(ids, visited), 1, 0
  {
    if x.id !in visited {
      LeftShrinks(ids, visited, x.id);
      PrintAllNested(kids, ids, kids(x), depth + 1, visited + {x.id});
      var below := PrintAll(kids, ids, kids(x), depth + 1, visited + {x.id});
      NestedUnder(kids, x, depth, below);
      NoItems(below, depth);
      assert ([Line(x, depth, false)] + below)[1..] == below;
    }
  }

  lemma {:induction false} PrintAllNested(
    kids: Tree, ids: set<string>, xs: seq<Item>, depth: nat, visited: set<string>)
    requires Closed(kids, ids) && forall x | x in xs :: x.id in ids
    ensures
      var lines := PrintAll(kids, ids, xs, depth, visited);
      Nested(kids, lines) && Deep(lines, depth) && ItemsAt(lines, depth) == xs
    decreases Left(ids, visited), 2, |xs|
  {
    if xs != [] {
      var front, last := xs[..|xs| - 1], xs[|xs| - 1];
      PrintAllNested(kids, ids, front, depth, visited);
      PrintNested(kids, ids, last, depth, visited);
      var a, b := PrintAll(kids, ids, front, depth, visited), Print(kids, ids, last, depth, visited);
      NestedJoin(kids, a, b, depth);
      ItemsJoin(a, b, depth);
    }
  }

  /** Right below the header, one level deeper and in order, stand the children of its interaction. */
  predicate ChildrenBelow(items: seq<Item>, lines: seq<Line>, j: nat)
    requires j < |lines|
  {
    var l := lines[j];
    ItemsAt(Under(lines[j + 1..], l.depth), l.depth + 1) == Children(items, l.item)
  }

  lemma HeadsChildren(items: seq<Item>, lines: seq<Line>, j: nat)
    requires j < |lines| && !lines[j].cycle && Heads(KidsOf(items), lines, j)
    ensures ChildrenBelow(items, lines, j)
  {
  }

  lemma ForestShape(items: seq<Item>)
    ensures ItemsAt(Forest(items), 0) == Roots(items) && Nested(KidsOf(items), Forest(items))
  {
    RootsAre(items);
    KidsClosed(items);
    PrintAllNested(KidsOf(items), Ids(items), Roots(items), 0, {});
  }

  /** The forest has the roots at depth 0, in order, and every header over its children. */
  lemma ForestNested(items: seq<Item>)
    ensures ItemsAt(Forest(items), 0) == Roots(items)
    ensures forall j | 0 <= j < |Forest(items)| && !Forest(items)[j].cycle :: ChildrenBelow(items, Forest(items), j)
  {
    ForestShape(items);
    var lines := Forest(items);
    forall j | 0 <= j < |lines| && !lines[j].cycle
      ensures ChildrenBelow(items, lines, j)
    {
      assert Heads(KidsOf(items), lines, j);
      HeadsChildren(items, lines, j);
    }
  }

  /** An item below itself is printed once more, as a cycle, and no further. */
  lemma CycleShown(kids: Tree, x: Item, depth: nat)
    requires kids(x) == [x] && Closed(kids, {x.id})
    ensures Print(kids, {x.id}, x, depth, {}) == [Line(x, depth, false), Line(x, depth + 1, true)]
  {
    var ids := {x.id};
    LeftShrinks(ids, {}, x.id);
    assert {} + ids == ids;
    assert Print(kids, ids, x, depth + 1, ids) == [Line(x, depth + 1, true)];
    assert [x][..0] == [] && PrintAll(kids, ids, [], depth + 1, ids) == [];
    assert PrintAll(kids, ids, [x], depth + 1, ids) == [Line(x, depth + 1, true)];
  }
}
