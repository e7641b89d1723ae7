/** Which places the two tree comparisons report: each reported path is the text of a place where the
    values part, and every such place is reported. */
module DiffPlaces {
  import opened Json
  import opened KeyOrder
  import opened Text
  import opened TreeDiff

  /** One step into a value. */
  datatype Step = Key(k: string) | Index(i: nat)

  /** Members are joined with dots, and items written in brackets behind the root's own name if there
      is nothing else before them. */
  function Written(prefix: string, root: string, c: seq<Step>): string
    decreases |c|
  {
    if c == [] then prefix
    else
      match c[0]
      case Key(k) => Written(if prefix == "" then k else prefix + "." + k, root, c[1..])
      case Index(i) => Written((if prefix == "" then root else prefix) + "[" + Dec(i) + "]", root, c[1..])
  }

  // ---------------------------------------------------- the conformance diff

  /** What stands at a step, null if nothing does. */
  function Below(v: Json, step: Step): Json {
    match (v, step)
    case (Obj(fields), Key(k)) => if k in fields then fields[k] else Null
    case (Arr(items), Index(i)) => if i < |items| then items[i] else Null
    case _ => Null
  }

  /** Both values have this step, or one of them where the other is read as null. */
  predicate CanStep(l: Json, r: Json, step: Step) {
    match step
    case Key(k) => l.Obj? && r.Obj? && (k in l.fields || k in r.fields)
    case Index(i) => l.Arr? && r.Arr? && (i < |l.items| || i < |r.items|)
  }

  /** Walking down both values along c, they are both objects or both arrays until the end, where they
      differ and are not. */
  predicate Parts(l: Json, r: Json, c: seq<Step>)
    decreases |c|
  {
    if c == [] then l != r && !(l.Obj? && r.Obj?) && !(l.Arr? && r.Arr?)
    else CanStep(l, r, c[0]) && Parts(Below(l, c[0]), Below(r, c[0]), c[1..])
  }

  lemma {:induction false} PartsDiffer(l: Json, r: Json, c: seq<Step>)
    requires Parts(l, r, c)
    ensures l != r
    decreases |c|
  {
    if c != [] {
      PartsDiffer(Below(l, c[0]), Below(r, c[0]), c[1..]);
    }
  }

  lemma {:induction false} MemberCollected(
    path: string, a: map<string, Json>, b: map<string, Json>, keys: seq<string>, n: nat, k: string, x: string)
    requires n <= |keys| && k in keys[n..] && x in CollectMember(path, a, b, k)
    ensures x in CollectMembers(path, a, b, keys, n)
    decreases |keys| - n
  {
    if keys[n] != k {
      assert keys[n..] == [keys[n]] + keys[n + 1..];
      MemberCollected(path, a, b, keys, n + 1, k, x);
    }
  }

  lemma {:induction false} ItemCollected(path: string, a: seq<Json>, b: seq<Json>, n: nat, i: nat, x: string)
    requires n <= i < Longer(a, b) && x in CollectDiffs(ItemPath(path, i), ItemOrNull(a, i), ItemOrNull(b, i))
    ensures x in CollectItems(path, a, b, n)
    decreases i - n
  {
    if n < i {
      ItemCollected(path, a, b, n + 1, i, x);
    }
  }

  /** Every place where the values part is reported. */
  lemma {:induction false} PlaceCollected(path: string, l: Json, r: Json, c: seq<Step>)
    requires Parts(l, r, c)
    ensures Written(path, "", c) in CollectDiffs(path, l, r)
    decreases |c|
  {
    PartsDiffer(l, r, c);
    if c != [] {
      match c[0]
      case Key(k) =>
        var keys := Listed(l.fields.Keys + r.fields.Keys);
        ListedAre(l.fields.Keys + r.fields.Keys);
        assert k in keys && keys[0..] == keys;
        PlaceCollected(JoinPath(path, k), MemberOrNull(l.fields, k), MemberOrNull(r.fields, k), c[1..]);
        MemberCollected(path, l.fields, r.fields, keys, 0, k, Written(path, "", c));
      case Index(i) =>
        PlaceCollected(ItemPath(path, i), ItemOrNull(l.items, i), ItemOrNull(r.items, i), c[1..]);
        ItemCollected(path, l.items, r.items, 0, i, Written(path, "", c));
    }
  }

  lemma {:induction false} MemberFound(
    path: string, a: map<string, Json>, b: map<string, Json>, keys: seq<string>, n: nat, x: string)
    returns (k: string)
    requires n <= |keys| && x in CollectMembers(path, a, b, keys, n)
    ensures k in keys[n..] && x in CollectMember(path, a, b, k)
    decreases |keys| - n
  {
    k := keys[n];
    if x !in CollectMember(path, a, b, k) {
      k := MemberFound(path, a, b, keys, n + 1, x);
      assert keys[n..] == [keys[n]] + keys[n + 1..];
    }
  }

  lemma {:induction false} ItemFound(path: string, a: seq<Json>, b: seq<Json>, n: nat, x: string) returns (i: nat)
    requires n <= Longer(a, b) && x in CollectItems(path, a, b, n)
    ensures i < Longer(a, b) && x in CollectDiffs(ItemPath(path, i), ItemOrNull(a, i), ItemOrNull(b, i))
    decreases Longer(a, b) - n
  {
    i := n;
    if x !in CollectDiffs(ItemPath(path, i), ItemOrNull(a, i), ItemOrNull(b, i)) {
      i := ItemFound(path, a, b, n + 1, x);
    }
  }

  lemma StepBelow(path: string, l: Json, r: Json, step: Step, c: seq<Step>)
    requires CanStep(l, r, step) && Parts(Below(l, step), Below(r, step), c)
    ensures Parts(l, r, [step] + c)
    ensures Written(path, "", [step] + c)
            == Written(if step.Key? then JoinPath(path, step.k) else ItemPath(path, step.i), "", c)
  {
    var d := [step] + c;
    assert d[0] == step && d[1..] == c;
  }

  /** Every reported path is the text of such a place. */
  lemma {:induction false} CollectedPlace(path: string, l: Json, r: Json, x: string) returns (c: seq<Step>)
    requires x in CollectDiffs(path, l, r)
    ensures Parts(l, r, c) && x == Written(path, "", c)
    decreases Depth(l)
  {
    c := [];
    match (l, r)
    case (Obj(a), Obj(b)) =>
      var keys := Listed(a.Keys + b.Keys);
      ListedAre(a.Keys + b.Keys);
      var k := MemberFound(path, a, b, keys, 0, x);
      assert keys[0..] == keys;
      MemberShallower(a, k);
      var rest := CollectedPlace(JoinPath(path, k), MemberOrNull(a, k), MemberOrNull(b, k), x);
      StepBelow(path, l, r, Key(k), rest);
      c := [Key(k)] + rest;
    case (Arr(a), Arr(b)) =>
      var i := ItemFound(path, a, b, 0, x);
      ItemShallower(a, i);
      var rest := CollectedPlace(ItemPath(path, i), ItemOrNull(a, i), ItemOrNull(b, i), x);
      StepBelow(path, l, r, Index(i), rest);
      c := [Index(i)] + rest;
    case _ =>
  }

  /** The conformance diff reports exactly the places where the values part, missing members and items
      read as null. */
  lemma CollectedIff(l: Json, r: Json, x: string)
    ensures x in CollectDiffs("", l, r) <==> exists c :: Parts(l, r, c) && x == Written("", "", c)
  {
    if x in CollectDiffs("", l, r) {
      var c := CollectedPlace("", l, r, x);
    }
    if c :| Parts(l, r, c) && x == Written("", "", c) {
      PlaceCollected("", l, r, c);
    }
  }

  // ------------------------------------------------------------ the exact diff

  /** Walking down both values along c, they are both objects or both arrays of one length until the
      end, where one has no such member, or they differ and are not. */
  predicate PartsExactly(l: Json, r: Json, c: seq<Step>)
    decreases |c|
  {
    if c == [] then l != r && !(l.Obj? && r.Obj?) && !(l.Arr? && r.Arr? && |l.items| == |r.items|)
    else
      match c[0]
      case Key(k) =>
        && l.Obj? && r.Obj?
        && if k in l.fields && k in r.fields then PartsExactly(l.fields[k], r.fields[k], c[1..])
           else (k in l.fields || k in r.fields) && |c| == 1
      case Index(i) =>
        l.Arr? && r.Arr? && i < |l.items| && |l.items| == |r.items| && PartsExactly(l.items[i], r.items[i], c[1..])
  }

  lemma {:induction false} PartsExactlyDiffer(l: Json, r: Json, c: seq<Step>)
    requires PartsExactly(l, r, c)
    ensures l != r
    decreases |c|
  {
    if c != [] {
      match c[0]
      case Key(k) =>
        if k in l.fields && k in r.fields {
          PartsExactlyDiffer(l.fields[k], r.fields[k], c[1..]);
        }
      case Index(i) => PartsExactlyDiffer(l.items[i], r.items[i], c[1..]);
    }
  }

  lemma {:induction false} MemberDiffers(
    path: string, l: Json, b: map<string, Json>, keys: seq<string>, k: string, x: string)
    requires l.Obj? && k in keys && x in DifferingMember(path, l, b, k)
    ensures x in DifferingMembers(path, l, b, keys)
    decreases |keys|
  {
    if keys[0] != k {
      assert keys == [keys[0]] + keys[1..];
      MemberDiffers(path, l, b, keys[1..], k, x);
    }
  }

  lemma {:induction false} ItemDiffers(path: string, l: Json, b: seq<Json>, n: nat, i: nat, x: string)
    requires l.Arr? && |l.items| == |b| && n <= i < |b|
    requires x in DifferingPaths(ItemPath(PathOrRoot(path), i), l.items[i], b[i])
    ensures x in DifferingItems(path, l, b, n)
    decreases i - n
  {
    if n < i {
      ItemDiffers(path, l, b, n + 1, i, x);
    }
  }

  /** The walk ends at a member that one side does not have. */
  predicate EndsMissing(l: Json, r: Json, c: seq<Step>)
    decreases |c|
  {
    c != [] &&
    match c[0]
    case Key(k) =>
      l.Obj? && r.Obj? && if k in l.fields && k in r.fields then EndsMissing(l.fields[k], r.fields[k], c[1..]) else true
    case Index(i) =>
      l.Arr? && r.Arr? && i < |l.items| && i < |r.items| && EndsMissing(l.items[i], r.items[i], c[1..])
  }

  /** How the run diff spells a place: "$" stands for a value without a name, though not for a missing
      member with the empty name. */
  function Spelled(prefix: string, l: Json, r: Json, c: seq<Step>): string {
    var text := Written(prefix, "$", c);
    if text == "" && !EndsMissing(l, r, c) then "$" else text
  }

  lemma MissingMember(path: string, l: Json, r: Json, c: seq<Step>)
    requires |c| == 1 && c[0].Key? && l.Obj? && r.Obj? && (c[0].k !in l.fields || c[0].k !in r.fields)
    ensures Spelled(path, l, r, c) == JoinPath(path, c[0].k)
  {
    assert c[1..] == [];
    assert Written(path, "$", c) == Written(JoinPath(path, c[0].k), "$", []);
  }

  lemma MemberBelow(path: string, l: Json, r: Json, k: string, c: seq<Step>)
    requires l.Obj? && r.Obj? && k in l.fields && k in r.fields
    ensures PartsExactly(l, r, [Key(k)] + c) <==> PartsExactly(l.fields[k], r.fields[k], c)
    ensures Spelled(path, l, r, [Key(k)] + c) == Spelled(JoinPath(path, k), l.fields[k], r.fields[k], c)
  {
    var d := [Key(k)] + c;
    assert d[0] == Key(k) && d[1..] == c;
  }

  lemma ItemBelow(path: string, l: Json, r: Json, i: nat, c: seq<Step>)
    requires l.Arr? && r.Arr? && i < |l.items| && |l.items| == |r.items|
    ensures PartsExactly(l, r, [Index(i)] + c) <==> PartsExactly(l.items[i], r.items[i], c)
    ensures Spelled(path, l, r, [Index(i)] + c)
            == Spelled(ItemPath(PathOrRoot(path), i), l.items[i], r.items[i], c)
  {
    var d := [Index(i)] + c;
    assert d[0] == Index(i) && d[1..] == c;
  }

  lemma {:induction false} PlaceDiffers(path: string, l: Json, r: Json, c: seq<Step>)
    requires PartsExactly(l, r, c)
    ensures Spelled(path, l, r, c) in DifferingPaths(path, l, r)
    decreases |c|, 1
  {
    PartsExactlyDiffer(l, r, c);
    if c != [] {
      assert c == [c[0]] + c[1..];
      match c[0]
      case Key(k) => MemberPlaceDiffers(path, l, r, k, c[1..]);
      case Index(i) => ItemPlaceDiffers(path, l, r, i, c[1..]);
    }
  }

  lemma {:induction false} MemberPlaceDiffers(path: string, l: Json, r: Json, k: string, rest: seq<Step>)
    requires PartsExactly(l, r, [Key(k)] + rest)
    ensures l.Obj? && r.Obj? && l != r ==>
              Spelled(path, l, r, [Key(k)] + rest)
              in DifferingMembers(path, l, r.fields, Listed(l.fields.Keys + r.fields.Keys))
    ensures l.Obj? && r.Obj?
    decreases |rest|, 2
  {
    var c := [Key(k)] + rest;
    assert c[0] == Key(k) && c[1..] == rest;
    var keys := Listed(l.fields.Keys + r.fields.Keys);
    ListedAre(l.fields.Keys + r.fields.Keys);
    if k in l.fields && k in r.fields {
      MemberBelow(path, l, r, k, rest);
      PlaceDiffers(JoinPath(path, k), l.fields[k], r.fields[k], rest);
    } else {
      MissingMember(path, l, r, c);
    }
    MemberDiffers(path, l, r.fields, keys, k, Spelled(path, l, r, c));
  }

  lemma {:induction false} ItemPlaceDiffers(path: string, l: Json, r: Json, i: nat, rest: seq<Step>)
    requires PartsExactly(l, r, [Index(i)] + rest)
    ensures l.Arr? && r.Arr? && |l.items| == |r.items|
    ensures Spelled(path, l, r, [Index(i)] + rest) in DifferingItems(path, l, r.items, 0)
    decreases |rest|, 2
  {
    var c := [Index(i)] + rest;
    assert c[0] == Index(i) && c[1..] == rest;
    ItemBelow(path, l, r, i, rest);
    PlaceDiffers(ItemPath(PathOrRoot(path), i), l.items[i], r.items[i], rest);
    ItemDiffers(path, l, r.items, 0, i, Spelled(path, l, r, c));
  }

  lemma {:induction false} DifferingMemberFound(
    path: string, l: Json, b: map<string, Json>, keys: seq<string>, x: string) returns (k: string)
    requires l.Obj? && x in DifferingMembers(path, l, b, keys)
    ensures k in keys && x in DifferingMember(path, l, b, k)
    decreases |keys|
  {
    k := keys[0];
    if x !in DifferingMember(path, l, b, k) {
      k := DifferingMemberFound(path, l, b, keys[1..], x);
      assert keys == [keys[0]] + keys[1..];
    }
  }

  lemma {:induction false} DifferingItemFound(path: string, l: Json, b: seq<Json>, n: nat, x: string) returns (i: nat)
    requires l.Arr? && |l.items| == |b| && n <= |b| && x in DifferingItems(path, l, b, n)
    ensures i < |b| && x in DifferingPaths(ItemPath(PathOrRoot(path), i), l.items[i], b[i])
    decreases |b| - n
  {
    i := n;
    if x !in DifferingPaths(ItemPath(PathOrRoot(path), i), l.items[i], b[i]) {
      i := DifferingItemFound(path, l, b, n + 1, x);
    }
  }

  lemma {:induction false} DifferingPlace(path: string, l: Json, r: Json, x: string) returns (c: seq<Step>)
    requires x in DifferingPaths(path, l, r)
    ensures PartsExactly(l, r, c) && x == Spelled(path, l, r, c)
    decreases l
  {
    c := [];
    match (l, r)
    case (Obj(a), Obj(b)) =>
      var keys := Listed(a.Keys + b.Keys);
      ListedAre(a.Keys + b.Keys);
      var k := DifferingMemberFound(path, l, b, keys, x);
      if k in a && k in b {
        var rest := DifferingPlace(JoinPath(path, k), a[k], b[k], x);
        MemberBelow(path, l, r, k, rest);
        c := [Key(k)] + rest;
      } else {
        c := [Key(k)];
        MissingMember(path, l, r, c);
      }
    case (Arr(a), Arr(b)) =>
      if |a| == |b| {
        var i := DifferingItemFound(path, l, b, 0, x);
        var rest := DifferingPlace(ItemPath(PathOrRoot(path), i), a[i], b[i], x);
        ItemBelow(path, l, r, i, rest);
        c := [Index(i)] + rest;
      }
    case _ =>
  }

  /** The run diff reports exactly the places where the values part, a missing member or another length
      counting as a difference. */
  lemma DiffersIff(l: Json, r: Json, x: string)
    ensures x in DifferingPaths("", l, r) <==> exists c :: PartsExactly(l, r, c) && x == Spelled("", l, r, c)
  {
    if x in DifferingPaths("", l, r) {
      var c := DifferingPlace("", l, r, x);
    }
    if c :| PartsExactly(l, r, c) && x == Spelled("", l, r, c) {
      PlaceDiffers("", l, r, c);
    }
  }
}
