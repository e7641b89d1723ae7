/** The two recursive comparisons of JSON trees: the run diff, which is exact, and the conformance
    diff, which reads missing members and missing items as null. */
module TreeDiff {
  import opened Json
  import opened KeyOrder
  import opened Text

  // ------------------------------------------------------------------- paths

  function JoinPath(prefix: string, key: string): string {
    if prefix == "" then key else prefix + "." + key
  }

  function ItemPath(prefix: string, i: nat): string {
    prefix + "[" + Dec(i) + "]"
  }

  function PathOrRoot(path: string): string {
    if path == "" then "$" else path
  }

  // ---------------------------------------------------------- the exact diff

  ghost function DifferingPaths(path: string, l: Json, r: Json): seq<string>
    decreases l, 1
  {
    if l == r then []
    else
      match (l, r)
      case (Obj(a), Obj(b)) => DifferingMembers(path, l, b, Listed(a.Keys + b.Keys))
      case (Arr(a), Arr(b)) =>
        if |a| != |b| then [PathOrRoot(path)] else DifferingItems(path, l, b, 0)
      case _ => [PathOrRoot(path)]
  }

  ghost function DifferingMembers(path: string, l: Json, b: map<string, Json>, keys: seq<string>): seq<string>
    requires l.Obj?
    decreases l, 0, |keys|
  {
    if keys == [] then []
    else
      DifferingMember(path, l, b, keys[0]) + DifferingMembers(path, l, b, keys[1..])
  }

  ghost function DifferingMember(path: string, l: Json, b: map<string, Json>, k: string): seq<string>
    requires l.Obj?
    decreases l, 0, 0
  {
    if k !in l.fields || k !in b then [JoinPath(path, k)]
    else DifferingPaths(JoinPath(path, k), l.fields[k], b[k])
  }

  ghost function DifferingItems(path: string, l: Json, b: seq<Json>, i: nat): seq<string>
    requires l.Arr? && |l.items| == |b| && i <= |b|
    decreases l, 0, |b| - i
  {
    if i == |b| then []
    else
      DifferingPaths(ItemPath(PathOrRoot(path), i), l.items[i], b[i]) + DifferingItems(path, l, b, i + 1)
  }

  /** The run diff reports nothing exactly when the two values are equal. */
  lemma {:induction false} NoDifferenceIffEqual(path: string, l: Json, r: Json)
    ensures DifferingPaths(path, l, r) == [] <==> l == r
    decreases l, 1
  {
    if l != r {
      match (l, r)
      case (Obj(a), Obj(b)) =>
        ListedAre(a.Keys + b.Keys);
        MembersDiffer(path, l, b, Listed(a.Keys + b.Keys));
        assert (forall k :: k in a <==> k in b) && (forall k | k in a && k in b :: a[k] == b[k]) ==> a == b;
      case (Arr(a), Arr(b)) =>
        if |a| == |b| {
          ItemsDiffer(path, l, b, 0);
        }
      case _ =>
    }
  }

  lemma {:induction false} MembersDiffer(path: string, l: Json, b: map<string, Json>, keys: seq<string>)
    requires l.Obj?
    ensures DifferingMembers(path, l, b, keys) == [] <==>
            forall k | k in keys :: k in l.fields && k in b && l.fields[k] == b[k]
    decreases l, 0, |keys|
  {
    if keys != [] {
      var k := keys[0];
      if k in l.fields && k in b {
        NoDifferenceIffEqual(JoinPath(path, k), l.fields[k], b[k]);
      }
      MembersDiffer(path, l, b, keys[1..]);
      assert forall j :: j in keys <==> j == k || j in keys[1..];
    }
  }

  lemma SuffixEqual(a: seq<Json>, b: seq<Json>, i: nat)
    requires i < |a| && |a| == |b|
    ensures a[i..] == b[i..] <==> a[i] == b[i] && a[i + 1..] == b[i + 1..]
  {
    assert a[i..] == [a[i]] + a[i + 1..] && b[i..] == [b[i]] + b[i + 1..];
  }

  lemma {:induction false} ItemsDiffer(path: string, l: Json, b: seq<Json>, i: nat)
    requires l.Arr? && |l.items| == |b| && i <= |b|
    ensures DifferingItems(path, l, b, i) == [] <==> l.items[i..] == b[i..]
    decreases l, 0, |b| - i
  {
    if i < |b| {
      NoDifferenceIffEqual(ItemPath(PathOrRoot(path), i), l.items[i], b[i]);
      ItemsDiffer(path, l, b, i + 1);
      SuffixEqual(l.items, b, i);
    }
  }

  // ---------------------------------------------------- the conformance diff

  function MemberOrNull(fields: map<string, Json>, k: string): Json {
    if k in fields then fields[k] else Null
  }

  function ItemOrNull(items: seq<Json>, i: nat): Json {
    if i < |items| then items[i] else Null
  }

  /** How deep a value nests; null stands for what is missing and is no deeper than anything. */
  ghost function Depth(v: Json): nat
    decreases v
  {
    match v
    case Obj(fields) => 1 + Deepest(set k | k in fields :: Depth(fields[k]))
    case Arr(items) => 1 + Deepest(set i | 0 <= i < |items| :: Depth(items[i]))
    case _ => 0
  }

  ghost function Deepest(s: set<nat>): nat {
    if s == {} then 0 else var x :| x in s; var d := Deepest(s - {x}); if x > d then x else d
  }

  lemma {:induction false} DeepestBounds(s: set<nat>, x: nat)
    requires x in s
    ensures x <= Deepest(s)
  {
    var y :| y in s && Deepest(s) == (if y > Deepest(s - {y}) then y else Deepest(s - {y}));
    if y != x {
      DeepestBounds(s - {y}, x);
    }
  }

  lemma MemberShallower(fields: map<string, Json>, k: string)
    ensures Depth(MemberOrNull(fields, k)) < Depth(Obj(fields))
  {
    if k in fields {
      DeepestBounds(set j | j in fields :: Depth(fields[j]), Depth(fields[k]));
    }
  }

  lemma ItemShallower(items: seq<Json>, i: nat)
    ensures Depth(ItemOrNull(items, i)) < Depth(Arr(items))
  {
    if i < |items| {
      DeepestBounds(set j | 0 <= j < |items| :: Depth(items[j]), Depth(items[i]));
    }
  }

  ghost function CollectDiffs(path: string, l: Json, r: Json): seq<string>
    decreases Depth(l), 1
  {
    if l == r then []
    else
      match (l, r)
      case (Obj(a), Obj(b)) => CollectMembers(path, a, b, Listed(a.Keys + b.Keys), 0)
      case (Arr(a), Arr(b)) => CollectItems(path, a, b, 0)
      case _ => [path]
  }

  ghost function CollectMembers(
    path: string, a: map<string, Json>, b: map<string, Json>, keys: seq<string>, n: nat): seq<string>
    requires n <= |keys|
    decreases Depth(Obj(a)), 0, |keys| - n
  {
    if n == |keys| then [] else CollectMember(path, a, b, keys[n]) + CollectMembers(path, a, b, keys, n + 1)
  }

  ghost function CollectMember(path: string, a: map<string, Json>, b: map<string, Json>, k: string): seq<string>
    decreases Depth(Obj(a)), 0, 0
  {
    MemberShallower(a, k);
    CollectDiffs(JoinPath(path, k), MemberOrNull(a, k), MemberOrNull(b, k))
  }

  function Longer(a: seq<Json>, b: seq<Json>): nat {
    if |b| > |a| then |b| else |a|
  }

  ghost function CollectItems(path: string, a: seq<Json>, b: seq<Json>, i: nat): seq<string>
    requires i <= Longer(a, b)
    decreases Depth(Arr(a)), 0, Longer(a, b) - i
  {
    if i == Longer(a, b) then []
    else
      ItemShallower(a, i);
      CollectDiffs(ItemPath(path, i), ItemOrNull(a, i), ItemOrNull(b, i)) + CollectItems(path, a, b, i + 1)
  }

  /** A value without its null members and without the nulls that end its arrays. */
  function Erase(v: Json): Json
    decreases v
  {
    match v
    case Obj(fields) => Obj(map k | k in fields && fields[k] != Null :: Erase(fields[k]))
    case Arr(items) => Arr(DropNulls(seq(|items|, i requires 0 <= i < |items| => Erase(items[i]))))
    case _ => v
  }

  function DropNulls(items: seq<Json>): seq<Json> {
    if items != [] && items[|items| - 1] == Null then DropNulls(items[..|items| - 1]) else items
  }

  lemma EraseNull(v: Json)
    ensures Erase(v) == Null <==> v == Null
  {
  }

  lemma {:induction false} DropNullsKeeps(items: seq<Json>, i: nat)
    ensures ItemOrNull(DropNulls(items), i) == ItemOrNull(items, i)
  {
    if items != [] && items[|items| - 1] == Null {
      DropNullsKeeps(items[..|items| - 1], i);
    }
  }

  lemma {:induction false} DropNullsEnd(items: seq<Json>)
    ensures var d := DropNulls(items); d != [] ==> d[|d| - 1] != Null
  {
    if items != [] && items[|items| - 1] == Null {
      DropNullsEnd(items[..|items| - 1]);
    }
  }

  lemma NoLonger(x: seq<Json>, y: seq<Json>)
    requires forall i: nat :: ItemOrNull(x, i) == ItemOrNull(y, i)
    requires x != [] ==> x[|x| - 1] != Null
    ensures |x| <= |y|
  {
    if x != [] {
      assert ItemOrNull(x, |x| - 1) == ItemOrNull(y, |x| - 1);
    }
  }

  /** Arrays without their final nulls are equal exactly when they agree at every index. */
  lemma DropNullsEqual(a: seq<Json>, b: seq<Json>)
    ensures DropNulls(a) == DropNulls(b) <==> forall i: nat :: ItemOrNull(a, i) == ItemOrNull(b, i)
  {
    var x, y := DropNulls(a), DropNulls(b);
    DropNullsEnd(a);
    DropNullsEnd(b);
    forall i: nat
      ensures ItemOrNull(x, i) == ItemOrNull(a, i) && ItemOrNull(y, i) == ItemOrNull(b, i)
    {
      DropNullsKeeps(a, i);
      DropNullsKeeps(b, i);
    }
    if forall i: nat :: ItemOrNull(a, i) == ItemOrNull(b, i) {
      forall i: nat
        ensures ItemOrNull(x, i) == ItemOrNull(y, i)
      {
      }
      NoLonger(x, y);
      NoLonger(y, x);
      forall i | 0 <= i < |x|
        ensures x[i] == y[i]
      {
        assert ItemOrNull(x, i) == ItemOrNull(y, i);
      }
    }
    if x == y {
      forall i: nat
        ensures ItemOrNull(a, i) == ItemOrNull(b, i)
      {
        assert ItemOrNull(x, i) == ItemOrNull(y, i);
      }
    }
  }

  /** The conformance diff reports no path exactly when the values are equal once null members
      and trailing nulls are erased. */
  lemma {:induction false} NoDiffIffErasedEqual(path: string, l: Json, r: Json)
    ensures CollectDiffs(path, l, r) == [] <==> Erase(l) == Erase(r)
    decreases Depth(l), 1
  {
    if l != r {
      match (l, r)
      case (Obj(a), Obj(b)) =>
        CollectMembersIff(path, a, b, Listed(a.Keys + b.Keys), 0);
        ListedAre(a.Keys + b.Keys);
        assert Listed(a.Keys + b.Keys)[0..] == Listed(a.Keys + b.Keys);
        ErasedObjects(a, b);
      case (Arr(a), Arr(b)) =>
        CollectItemsIff(path, a, b, 0);
        ErasedArrays(a, b);
      case _ =>
    }
  }

  lemma {:induction false} CollectMembersIff(
    path: string, a: map<string, Json>, b: map<string, Json>, keys: seq<string>, n: nat)
    requires n <= |keys|
    ensures CollectMembers(path, a, b, keys, n) == [] <==>
            forall k | k in keys[n..] :: Erase(MemberOrNull(a, k)) == Erase(MemberOrNull(b, k))
    decreases Depth(Obj(a)), 0, |keys| - n
  {
    if n < |keys| {
      var k := keys[n];
      MemberShallower(a, k);
      NoDiffIffErasedEqual(JoinPath(path, k), MemberOrNull(a, k), MemberOrNull(b, k));
      CollectMembersIff(path, a, b, keys, n + 1);
      assert keys[n..] == [k] + keys[n + 1..];
    }
  }

  lemma {:induction false} CollectItemsIff(path: string, a: seq<Json>, b: seq<Json>, i: nat)
    requires i <= Longer(a, b)
    ensures CollectItems(path, a, b, i) == [] <==>
            forall j: nat | i <= j < Longer(a, b) :: Erase(ItemOrNull(a, j)) == Erase(ItemOrNull(b, j))
    decreases Depth(Arr(a)), 0, Longer(a, b) - i
  {
    if i < Longer(a, b) {
      ItemShallower(a, i);
      NoDiffIffErasedEqual(ItemPath(path, i), ItemOrNull(a, i), ItemOrNull(b, i));
      CollectItemsIff(path, a, b, i + 1);
    }
  }

  lemma ErasedObjects(a: map<string, Json>, b: map<string, Json>)
    ensures Erase(Obj(a)) == Erase(Obj(b)) <==>
            forall k | k in a || k in b :: Erase(MemberOrNull(a, k)) == Erase(MemberOrNull(b, k))
  {
    var x, y := Erase(Obj(a)).fields, Erase(Obj(b)).fields;
    forall k
      ensures MemberOrNull(x, k) == Erase(MemberOrNull(a, k)) && (k in x <==> MemberOrNull(x, k) != Null)
      ensures MemberOrNull(y, k) == Erase(MemberOrNull(b, k)) && (k in y <==> MemberOrNull(y, k) != Null)
    {
      EraseNull(MemberOrNull(a, k));
      EraseNull(MemberOrNull(b, k));
    }
    if forall k | k in a || k in b :: Erase(MemberOrNull(a, k)) == Erase(MemberOrNull(b, k)) {
      forall k
        ensures MemberOrNull(x, k) == MemberOrNull(y, k)
      {
      }
      assert forall k :: k in x <==> k in y;
      assert x == y;
    }
  }

  lemma ErasedArrays(a: seq<Json>, b: seq<Json>)
    ensures Erase(Arr(a)) == Erase(Arr(b)) <==>
            forall j: nat | j < Longer(a, b) :: Erase(ItemOrNull(a, j)) == Erase(ItemOrNull(b, j))
  {
    var x := seq(|a|, i requires 0 <= i < |a| => Erase(a[i]));
    var y := seq(|b|, i requires 0 <= i < |b| => Erase(b[i]));
    DropNullsEqual(x, y);
    forall j: nat
      ensures ItemOrNull(x, j) == Erase(ItemOrNull(a, j)) && ItemOrNull(y, j) == Erase(ItemOrNull(b, j))
    {
    }
    assert forall j: nat | j >= Longer(a, b) :: ItemOrNull(x, j) == ItemOrNull(y, j);
  }

  // -------------------------------------------------- the loops of both diffs

  /** internal/analysis/diff: the paths are appended to what was found so far. */
  method CollectDifferingPaths(path: string, l: Json, r: Json, before: seq<string>) returns (paths: seq<string>)
    ensures paths == before + DifferingPaths(path, l, r)
    decreases l, 1
  {
    paths := before;
    if l == r {
      return;
    }
    match (l, r)
    case (Obj(a), Obj(b)) =>
      var keys := ListKeys(a.Keys + b.Keys);
      paths := CollectDifferingMembers(path, l, b, keys, before);
    case (Arr(a), Arr(b)) =>
      if |a| != |b| {
        paths := paths + [PathOrRoot(path)];
      } else {
        paths := CollectDifferingItems(path, l, b, before);
      }
    case _ =>
      paths := paths + [PathOrRoot(path)];
  }

  method CollectDifferingMembers(path: string, l: Json, b: map<string, Json>, keys: seq<string>, before: seq<string>)
    returns (paths: seq<string>)
    requires l.Obj?
    ensures paths == before + DifferingMembers(path, l, b, keys)
    decreases l, 0
  {
    paths := before;
    for n := 0 to |keys|
      invariant paths + DifferingMembers(path, l, b, keys[n..]) == before + DifferingMembers(path, l, b, keys)
    {
      var k := keys[n];
      assert keys[n..][0] == k && keys[n..][1..] == keys[n + 1..];
      ghost var was := paths;
      if k !in l.fields || k !in b {
        paths := paths + [JoinPath(path, k)];
      } else {
        paths := CollectDifferingPaths(JoinPath(path, k), l.fields[k], b[k], paths);
      }
      assert paths == was + DifferingMember(path, l, b, k);
    }
  }

  method CollectDifferingItems(path: string, l: Json, b: seq<Json>, before: seq<string>) returns (paths: seq<string>)
    requires l.Arr? && |l.items| == |b|
    ensures paths == before + DifferingItems(path, l, b, 0)
    decreases l, 0
  {
    paths := before;
    for i := 0 to |b|
      invariant paths + DifferingItems(path, l, b, i) == before + DifferingItems(path, l, b, 0)
    {
      paths := CollectDifferingPaths(ItemPath(PathOrRoot(path), i), l.items[i], b[i], paths);
    }
  }

  /** internal/analysis/conformance: a missing member or item is compared as null. */
  method CollectDiffPaths(path: string, l: Json, r: Json, before: seq<string>) returns (paths: seq<string>)
    ensures paths == before + CollectDiffs(path, l, r)
    decreases Depth(l), 1
  {
    paths := before;
    if l == r {
      return;
    }
    match (l, r)
    case (Obj(a), Obj(b)) =>
      var keys := ListKeys(a.Keys + b.Keys);
      paths := CollectMemberPaths(path, a, b, keys, before);
    case (Arr(a), Arr(b)) =>
      paths := CollectItemPaths(path, a, b, before);
    case _ =>
      paths := paths + [path];
  }

  method CollectMemberPaths(
    path: string, a: map<string, Json>, b: map<string, Json>, keys: seq<string>, before: seq<string>)
    returns (paths: seq<string>)
    ensures paths == before + CollectMembers(path, a, b, keys, 0)
    decreases Depth(Obj(a)), 0
  {
    paths := before;
    for n := 0 to |keys|
      invariant paths + CollectMembers(path, a, b, keys, n) == before + CollectMembers(path, a, b, keys, 0)
    {
      var k := keys[n];
      MemberShallower(a, k);
      ghost var was, rest := paths, CollectMembers(path, a, b, keys, n + 1);
      assert CollectMembers(path, a, b, keys, n) == CollectMember(path, a, b, k) + rest;
      paths := CollectDiffPaths(JoinPath(path, k), MemberOrNull(a, k), MemberOrNull(b, k), paths);
      assert paths == was + CollectMember(path, a, b, k);
      assert (was + CollectMember(path, a, b, k)) + rest == was + (CollectMember(path, a, b, k) + rest);
    }
  }

  method CollectItemPaths(path: string, a: seq<Json>, b: seq<Json>, before: seq<string>) returns (paths: seq<string>)
    ensures paths == before + CollectItems(path, a, b, 0)
    decreases Depth(Arr(a)), 0
  {
    paths := before;
    for i := 0 to Longer(a, b)
      invariant paths + CollectItems(path, a, b, i) == before + CollectItems(path, a, b, 0)
    {
      ItemShallower(a, i);
      paths := CollectDiffPaths(ItemPath(path, i), ItemOrNull(a, i), ItemOrNull(b, i), paths);
    }
  }
}
