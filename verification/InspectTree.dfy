/** Printing a run as a forest: interactions hang under their parents, siblings are in order, and the
    printer guards against walking in circles. */
module InspectTree {
  import opened Sorting
  import opened Text

  datatype Item = Item(id: string, parent: string, sequence: int)

  /** A printed header: at which depth, and whether as a detected cycle. */
  datatype Line = Line(item: Item, depth: nat, cycle: bool)

  ghost predicate DistinctIds(items: seq<Item>) {
    forall i, j | 0 <= i < j < |items| :: items[i].id != items[j].id
  }

  function Ids(items: seq<Item>): set<string> {
    set x | x in items :: x.id
  }

  predicate IsRoot(items: seq<Item>, x: Item) {
    Blank(x.parent) || TrimSpace(x.parent) !in Ids(items)
  }

  predicate ItemLe(a: Item, b: Item) {
    a.sequence < b.sequence || (a.sequence == b.sequence && StrLe(a.id, b.id))
  }

  predicate IsChild(items: seq<Item>, x: Item, c: Item) {
    !IsRoot(items, c) && TrimSpace(c.parent) == x.id
  }

  function Children(items: seq<Item>, x: Item): seq<Item> {
    Sort(Filter(items, c => IsChild(items, x, c)), ItemLe)
  }

  function Roots(items: seq<Item>): seq<Item> {
    Sort(Filter(items, c => IsRoot(items, c)), ItemLe)
  }

  lemma ChildrenAre(items: seq<Item>, x: Item)
    ensures forall c :: c in Children(items, x) <==> c in items && IsChild(items, x, c)
  {
    FilterIs(items, c => IsChild(items, x, c));
    SortKeeps(Filter(items, c => IsChild(items, x, c)), ItemLe);
    MultisetMembers(Children(items, x), Filter(items, c => IsChild(items, x, c)));
  }

  lemma RootsAre(items: seq<Item>)
    ensures forall c :: c in Roots(items) <==> c in items && IsRoot(items, c)
  {
    FilterIs(items, c => IsRoot(items, c));
    SortKeeps(Filter(items, c => IsRoot(items, c)), ItemLe);
    MultisetMembers(Roots(items), Filter(items, c => IsRoot(items, c)));
  }

  // ------------------------------------------------------------- the printer

  type Tree = Item -> seq<Item>

  /** Every child has one of these ids. */
  ghost predicate Closed(kids: Tree, ids: set<string>) {
    forall x, c | c in kids(x) :: c.id in ids
  }

  function Left(ids: set<string>, visited: set<string>): nat {
    |ids - visited|
  }

  lemma LeftShrinks(ids: set<string>, visited: set<string>, id: string)
    requires id in ids && id !in visited
    ensures Left(ids, visited + {id}) < Left(ids, visited)
  {
    assert ids - visited == (ids - (visited + {id})) + {id};
  }

  /** What printing x shows when the ids on the path to it are marked visited. */
  ghost function Print(kids: Tree, ids: set<string>, x: Item, depth: nat, visited: set<string>): seq<Line>
    requires Closed(kids, ids) && x.id in ids
    decreases Left(ids, visited), 1, 0
  {
    if x.id in visited then [Line(x, depth, true)]
    else
      LeftShrinks(ids, visited, x.id);
      [Line(x, depth, false)] + PrintAll(kids, ids, kids(x), depth + 1, visited + {x.id})
  }

  ghost function PrintAll(kids: Tree, ids: set<string>, xs: seq<Item>, depth: nat, visited: set<string>): seq<Line>
    requires Closed(kids, ids) && forall x | x in xs :: x.id in ids
    decreases Left(ids, visited), 2, |xs|
  {
    if xs == [] then []
    else PrintAll(kids, ids, xs[..|xs| - 1], depth, visited) + Print(kids, ids, xs[|xs| - 1], depth, visited)
  }

  // ---------------------------------------------- printing trees that have levels

  /** Each item is at one level at most, and the children of an item are one level below it. */
  ghost predicate Levels(kids: Tree, at: (Item, nat) -> bool) {
    && (forall x, m: nat, n: nat | at(x, m) && at(x, n) :: m == n)
    && (forall x, n: nat, c | at(x, n) && c in kids(x) :: at(c, n + 1))
    && (forall x, y, m: nat, n: nat | at(x, m) && at(y, n) && x.id == y.id :: x == y)
  }

  /** Everything marked visited is at a level above. */
  ghost predicate Above(at: (Item, nat) -> bool, visited: set<string>, depth: nat) {
    forall x, n: nat | at(x, n) && x.id in visited :: n < depth
  }

  ghost predicate GoodLines(at: (Item, nat) -> bool, lines: seq<Line>) {
    forall l | l in lines :: !l.cycle && at(l.item, l.depth)
  }

  /** No cycle is found, and every line is at its level. */
  lemma {:induction false} PrintGood(
    kids: Tree, ids: set<string>, at: (Item, nat) -> bool, x: Item, depth: nat, visited: set<string>)
    requires Closed(kids, ids) && x.id in ids && Levels(kids, at) && at(x, depth) && Above(at, visited, depth)
    ensures GoodLines(at, Print(kids, ids, x, depth, visited))
    decreases Left(ids, visited), 1, 0
  {
    LeftShrinks(ids, visited, x.id);
    PrintAllGood(kids, ids, at, kids(x), depth + 1, visited + {x.id});
  }

  lemma {:induction false} PrintAllGood(
    kids: Tree, ids: set<string>, at: (Item, nat) -> bool, xs: seq<Item>, depth: nat, visited: set<string>)
    requires Closed(kids, ids) && (forall x | x in xs :: x.id in ids && at(x, depth))
    requires Levels(kids, at) && Above(at, visited, depth)
    ensures GoodLines(at, PrintAll(kids, ids, xs, depth, visited))
    decreases Left(ids, visited), 2, |xs|
  {
    if xs != [] {
      PrintAllGood(kids, ids, at, xs[..|xs| - 1], depth, visited);
      PrintGood(kids, ids, at, xs[|xs| - 1], depth, visited);
    }
  }

  function Times(lines: seq<Line>, y: Item): nat {
    if lines == [] then 0 else (if lines[0].item == y then 1 else 0) + Times(lines[1..], y)
  }

  lemma {:induction false} TimesAppend(a: seq<Line>, b: seq<Line>, y: Item)
    ensures Times(a + b, y) == Times(a, y) + Times(b, y)
  {
    if a == [] {
      assert a + b == b;
    } else {
      assert (a + b)[1..] == a[1..] + b;
      TimesAppend(a[1..], b, y);
    }
  }

  lemma TimesCons(l: Line, lines: seq<Line>, y: Item)
    ensures Times([l] + lines, y) == (if l.item == y then 1 else 0) + Times(lines, y)
  {
    assert ([l] + lines)[1..] == lines;
  }

  /** The way down to y, which is at level n: an item is on it exactly if the next one is its child. */
  ghost predicate WayTo(kids: Tree, at: (Item, nat) -> bool, y: Item, n: nat, way: nat -> Item) {
    && way(n) == y && at(y, n)
    && (forall x, d: nat | at(x, d) && d < n :: way(d) == x <==> way(d + 1) in kids(x))
    && (forall x :: NoRepeats(kids(x)))
  }

  /** Below an item y is printed once if the item is on the way to y, else not at all. */
  lemma {:induction false} PrintTimes(
    kids: Tree, ids: set<string>, at: (Item, nat) -> bool, x: Item, depth: nat, visited: set<string>, y: Item, n: nat,
    way: nat -> Item)
    requires Closed(kids, ids) && x.id in ids && Levels(kids, at) && at(x, depth) && Above(at, visited, depth)
    requires WayTo(kids, at, y, n, way)
    ensures Times(Print(kids, ids, x, depth, visited), y) == if depth <= n && way(depth) == x then 1 else 0
    decreases Left(ids, visited), 1, 0
  {
    LeftShrinks(ids, visited, x.id);
    PrintAllTimes(kids, ids, at, kids(x), depth + 1, visited + {x.id}, y, n, way);
    TimesCons(Line(x, depth, false), PrintAll(kids, ids, kids(x), depth + 1, visited + {x.id}), y);
  }

  lemma {:induction false} PrintAllTimes(
    kids: Tree, ids: set<string>, at: (Item, nat) -> bool, xs: seq<Item>, depth: nat, visited: set<string>, y: Item,
    n: nat, way: nat -> Item)
    requires Closed(kids, ids) && NoRepeats(xs) && (forall x | x in xs :: x.id in ids && at(x, depth))
    requires Levels(kids, at) && Above(at, visited, depth) && WayTo(kids, at, y, n, way)
    ensures Times(PrintAll(kids, ids, xs, depth, visited), y) == if depth <= n && way(depth) in xs then 1 else 0
    decreases Left(ids, visited), 2, |xs|
  {
    if xs != [] {
      var front, last := xs[..|xs| - 1], xs[|xs| - 1];
      PrintAllTimes(kids, ids, at, front, depth, visited, y, n, way);
      PrintTimes(kids, ids, at, last, depth, visited, y, n, way);
      TimesAppend(PrintAll(kids, ids, front, depth, visited), Print(kids, ids, last, depth, visited), y);
      assert xs == front + [last];
    }
  }

  // ---------------------------------------------------------- parent chains

  function Parent(items: seq<Item>, x: Item): Item
    requires !IsRoot(items, x)
  {
    Named(items, TrimSpace(x.parent))
  }

  /** The last item with this id. */
  function Named(items: seq<Item>, id: string): (x: Item)
    requires id in Ids(items)
    ensures x in items && x.id == id
  {
    var last := items[|items| - 1];
    if last.id == id then last
    else
      assert items == items[..|items| - 1] + [last];
      Named(items[..|items| - 1], id)
  }

  /** The parent chain of x reaches a root after n steps. */
  predicate Rooted(items: seq<Item>, x: Item, n: nat)
    decreases n
  {
    if n == 0 then IsRoot(items, x) else !IsRoot(items, x) && Rooted(items, Parent(items, x), n - 1)
  }

  /** The k-th ancestor of x, which is x itself for 0 and the root at the end of the chain. */
  function Ancestor(items: seq<Item>, x: Item, k: nat): Item
    decreases k
  {
    if k == 0 || IsRoot(items, x) then x else Ancestor(items, Parent(items, x), k - 1)
  }

  lemma NamedUnique(items: seq<Item>, x: Item)
    requires DistinctIds(items) && x in items
    ensures x.id in Ids(items) && Named(items, x.id) == x
  {
    var y := Named(items, x.id);
    var i :| 0 <= i < |items| && items[i] == x;
    var j :| 0 <= j < |items| && items[j] == y;
  }

  lemma ChildParent(items: seq<Item>, x: Item, c: Item)
    requires DistinctIds(items) && x in items && c in items
    ensures IsChild(items, x, c) <==> !IsRoot(items, c) && Parent(items, c) == x
  {
    NamedUnique(items, x);
  }

  lemma {:induction false} RootedOnce(items: seq<Item>, x: Item, m: nat, n: nat)
    requires Rooted(items, x, m) && Rooted(items, x, n)
    ensures m == n
    decreases m
  {
    if m > 0 && n > 0 {
      RootedOnce(items, Parent(items, x), m - 1, n - 1);
    }
  }

  lemma {:induction false} AncestorRooted(items: seq<Item>, x: Item, n: nat, k: nat)
    requires Rooted(items, x, n) && k <= n && x in items
    ensures Rooted(items, Ancestor(items, x, k), n - k) && Ancestor(items, x, k) in items
    decreases k
  {
    if k > 0 {
      AncestorRooted(items, Parent(items, x), n - 1, k - 1);
    }
  }

  /** One step further up is the parent of the ancestor. */
  lemma {:induction false} AncestorStep(items: seq<Item>, x: Item, n: nat, k: nat)
    requires Rooted(items, x, n) && k < n && x in items
    ensures !IsRoot(items, Ancestor(items, x, k))
    ensures Ancestor(items, x, k + 1) == Parent(items, Ancestor(items, x, k))
    decreases k
  {
    if k > 0 {
      AncestorStep(items, Parent(items, x), n - 1, k - 1);
    }
  }

  // --------------------------------------------------------- the run as a tree

  function KidsOf(items: seq<Item>): Tree {
    x => Children(items, x)
  }

  /** The forest the printer shows. */
  ghost function Forest(items: seq<Item>): seq<Line> {
    RootsAre(items);
    KidsClosed(items);
    PrintAll(KidsOf(items), Ids(items), Roots(items), 0, {})
  }

  lemma KidsClosed(items: seq<Item>)
    ensures Closed(KidsOf(items), Ids(items))
  {
    forall x, c | c in KidsOf(items)(x)
      ensures c.id in Ids(items)
    {
      ChildrenAre(items, x);
    }
  }

  function LevelOf(items: seq<Item>): (Item, nat) -> bool {
    (x: Item, n: nat) => x in items && Rooted(items, x, n)
  }

  function WayOf(items: seq<Item>, y: Item, n: nat): nat -> Item {
    (d: nat) => if d <= n then Ancestor(items, y, n - d) else y
  }

  lemma LevelsHold(items: seq<Item>)
    requires DistinctIds(items)
    ensures Levels(KidsOf(items), LevelOf(items))
  {
    var at, kids := LevelOf(items), KidsOf(items);
    forall x, m: nat, n: nat | at(x, m) && at(x, n)
      ensures m == n
    {
      RootedOnce(items, x, m, n);
    }
    forall x, n: nat, c | at(x, n) && c in kids(x)
      ensures at(c, n + 1)
    {
      ChildrenAre(items, x);
      ChildParent(items, x, c);
    }
    forall x, y, m: nat, n: nat | at(x, m) && at(y, n) && x.id == y.id
      ensures x == y
    {
      NamedUnique(items, x);
      NamedUnique(items, y);
    }
  }

  lemma WayHolds(items: seq<Item>, y: Item, n: nat)
    requires DistinctIds(items) && y in items && Rooted(items, y, n)
    ensures WayTo(KidsOf(items), LevelOf(items), y, n, WayOf(items, y, n))
  {
    var at, kids, way := LevelOf(items), KidsOf(items), WayOf(items, y, n);
    forall x, d: nat | at(x, d) && d < n
      ensures way(d) == x <==> way(d + 1) in kids(x)
    {
      assert way(d) == Ancestor(items, y, n - d) && way(d + 1) == Ancestor(items, y, n - d - 1);
      WayStep(items, y, n, x, d);
    }
    forall x
      ensures NoRepeats(kids(x))
    {
      ChildrenOnce(items, x);
    }
    assert way(n) == Ancestor(items, y, 0) == y;
  }

  lemma WayStep(items: seq<Item>, y: Item, n: nat, x: Item, d: nat)
    requires DistinctIds(items) && y in items && Rooted(items, y, n) && x in items && d < n
    ensures Ancestor(items, y, n - d) == x <==> Ancestor(items, y, n - d - 1) in Children(items, x)
  {
    var below := Ancestor(items, y, n - d - 1);
    AncestorStep(items, y, n, n - d - 1);
    AncestorRooted(items, y, n, n - d - 1);
    ChildParent(items, x, below);
    ChildrenAre(items, x);
  }

  lemma ItemsOnce(items: seq<Item>)
    requires DistinctIds(items)
    ensures NoRepeats(items)
  {
  }

  lemma ChildrenOnce(items: seq<Item>, x: Item)
    requires DistinctIds(items)
    ensures NoRepeats(Children(items, x))
  {
    ItemsOnce(items);
    OnceSorted(items, c => IsChild(items, x, c));
  }

  lemma OnceSorted(items: seq<Item>, f: Item -> bool)
    requires NoRepeats(items)
    ensures NoRepeats(Sort(Filter(items, f), ItemLe))
  {
    FilterSorted(items, f, (a, b) => true);
    var kept := Filter(items, f);
    SortKeeps(kept, ItemLe);
    var r := Sort(kept, ItemLe);
    forall i, j | 0 <= i < j < |r|
      ensures r[i] != r[j]
    {
      AtMostOnce(kept, r[i]);
      if r[i] == r[j] {
        TwiceCounts(r, i, j);
      }
    }
  }

  // ------------------------------------------------------------ main results

  lemma RootsOnce(items: seq<Item>)
    requires DistinctIds(items)
    ensures NoRepeats(Roots(items)) && forall x | x in Roots(items) :: x.id in Ids(items) && LevelOf(items)(x, 0)
  {
    ItemsOnce(items);
    OnceSorted(items, c => IsRoot(items, c));
    RootsAre(items);
  }

  lemma ForestGood(items: seq<Item>)
    requires DistinctIds(items)
    ensures GoodLines(LevelOf(items), Forest(items))
  {
    RootsOnce(items);
    KidsClosed(items);
    LevelsHold(items);
    PrintAllGood(KidsOf(items), Ids(items), LevelOf(items), Roots(items), 0, {});
  }

  lemma ForestTimes(items: seq<Item>, y: Item, n: nat)
    requires DistinctIds(items) && y in items && Rooted(items, y, n)
    ensures Times(Forest(items), y) == 1
  {
    RootsOnce(items);
    KidsClosed(items);
    LevelsHold(items);
    WayHolds(items, y, n);
    PrintAllTimes(KidsOf(items), Ids(items), LevelOf(items), Roots(items), 0, {}, y, n, WayOf(items, y, n));
    AncestorRooted(items, y, n, n);
    RootsAre(items);
  }

  lemma {:induction false} NotPrinted(at: (Item, nat) -> bool, lines: seq<Line>, y: Item)
    requires GoodLines(at, lines) && forall n: nat :: !at(y, n)
    ensures Times(lines, y) == 0
  {
    if lines != [] {
      NotPrinted(at, lines[1..], y);
      assert lines[0] in lines;
    }
  }

  /** The parent chain of the interaction reaches a root. */
  ghost predicate ReachesRoot(items: seq<Item>, y: Item) {
    exists n: nat :: Rooted(items, y, n)
  }

  /** With distinct ids the forest shows an interaction once if its parent chain reaches a root and
      not at all otherwise, each at the depth of its chain; the cycle line is never printed. */
  lemma ForestShowsChains(items: seq<Item>, y: Item)
    requires DistinctIds(items) && y in items
    ensures Times(Forest(items), y) == if ReachesRoot(items, y) then 1 else 0
    ensures forall l | l in Forest(items) :: !l.cycle && l.item in items && Rooted(items, l.item, l.depth)
  {
    ForestGood(items);
    if ReachesRoot(items, y) {
      var n: nat :| Rooted(items, y, n);
      ForestTimes(items, y, n);
    } else {
      NotPrinted(LevelOf(items), Forest(items), y);
    }
  }

  lemma ItemLePreorder()
    ensures Preorder(ItemLe)
  {
    forall a: Item, b: Item
      ensures ItemLe(a, b) || ItemLe(b, a)
    {
      StrLeTotal(a.id, b.id);
    }
    forall a: Item, b: Item, c: Item | ItemLe(a, b) && ItemLe(b, c)
      ensures ItemLe(a, c)
    {
      if a.sequence == c.sequence {
        StrLeTransitive(a.id, b.id, c.id);
      }
    }
  }

  /** A selection of the run, sorted, is the same for every order of the run. */
  lemma SelectionSorted(items: seq<Item>, other: seq<Item>, f: Item -> bool, g: Item -> bool)
    requires DistinctIds(items) && multiset(items) == multiset(other) && forall c :: f(c) <==> g(c)
    ensures Sorted(Sort(Filter(items, f), ItemLe), ItemLe)
    ensures Sort(Filter(items, f), ItemLe) == Sort(Filter(other, g), ItemLe)
  {
    ItemLePreorder();
    FilterSame(other, g, f);
    SortSorted(Filter(items, f), ItemLe);
    FilterPermutes(items, other, f);
    var kept := Filter(items, f);
    FilterIs(items, f);
    forall i, j | 0 <= i < |kept| && 0 <= j < |kept| && ItemLe(kept[i], kept[j]) && ItemLe(kept[j], kept[i])
      ensures kept[i] == kept[j]
    {
      StrLeAntisymmetric(kept[i].id, kept[j].id);
      assert kept[i] in kept && kept[j] in kept;
      NamedUnique(items, kept[i]);
      NamedUnique(items, kept[j]);
    }
    SortPermutation(kept, Filter(other, f), ItemLe);
  }

  lemma SameIds(items: seq<Item>, other: seq<Item>)
    requires multiset(items) == multiset(other)
    ensures Ids(items) == Ids(other)
  {
    MultisetMembers(items, other);
  }

  /** One item has the smaller sequence, or the same one and an id that is not greater. */
  predicate Before(a: Item, b: Item) {
    a.sequence < b.sequence || (a.sequence == b.sequence && StrLe(a.id, b.id))
  }

  /** Siblings are listed by sequence and id, whatever order the run lists them in. */
  lemma SiblingsOrdered(items: seq<Item>, other: seq<Item>, x: Item)
    requires DistinctIds(items) && multiset(items) == multiset(other)
    ensures Children(items, x) == Children(other, x)
    ensures forall i, j | 0 <= i < j < |Children(items, x)| :: Before(Children(items, x)[i], Children(items, x)[j])
  {
    SameIds(items, other);
    SelectionSorted(items, other, c => IsChild(items, x, c), c => IsChild(other, x, c));
  }

  /** And so are the roots. */
  lemma RootsOrdered(items: seq<Item>, other: seq<Item>)
    requires DistinctIds(items) && multiset(items) == multiset(other)
    ensures Roots(items) == Roots(other)
    ensures forall i, j | 0 <= i < j < |Roots(items)| :: Before(Roots(items)[i], Roots(items)[j])
  {
    SameIds(items, other);
    SelectionSorted(items, other, c => IsRoot(items, c), c => IsRoot(other, c));
  }

  lemma {:induction false} PrintSame(
    kids: Tree, kids': Tree, ids: set<string>, x: Item, depth: nat, visited: set<string>)
    requires Closed(kids, ids) && Closed(kids', ids) && x.id in ids && forall y :: kids(y) == kids'(y)
    ensures Print(kids, ids, x, depth, visited) == Print(kids', ids, x, depth, visited)
    decreases Left(ids, visited), 1, 0
  {
    if x.id !in visited {
      LeftShrinks(ids, visited, x.id);
      PrintAllSame(kids, kids', ids, kids(x), depth + 1, visited + {x.id});
    }
  }

  lemma {:induction false} PrintAllSame(
    kids: Tree, kids': Tree, ids: set<string>, xs: seq<Item>, depth: nat, visited: set<string>)
    requires Closed(kids, ids) && Closed(kids', ids) && forall y :: kids(y) == kids'(y)
    requires forall x | x in xs :: x.id in ids
    ensures PrintAll(kids, ids, xs, depth, visited) == PrintAll(kids', ids, xs, depth, visited)
    decreases Left(ids, visited), 2, |xs|
  {
    if xs != [] {
      PrintAllSame(kids, kids', ids, xs[..|xs| - 1], depth, visited);
      PrintSame(kids, kids', ids, xs[|xs| - 1], depth, visited);
    }
  }

  /** The whole forest does not depend on the order the run is listed in. */
  lemma ForestPermutes(items: seq<Item>, other: seq<Item>)
    requires DistinctIds(items) && multiset(items) == multiset(other)
    ensures Forest(items) == Forest(other)
  {
    SameIds(items, other);
    RootsOrdered(items, other);
    RootsAre(items);
    KidsClosed(items);
    KidsClosed(other);
    forall y
      ensures KidsOf(items)(y) == KidsOf(other)(y)
    {
      SiblingsOrdered(items, other, y);
    }
    PrintAllSame(KidsOf(items), KidsOf(other), Ids(items), Roots(items), 0, {});
  }
}
