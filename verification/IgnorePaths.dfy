/** Deleting ignored paths from a decoded interaction.  The set of paths is walked in Go's random
    map order, so the result must not depend on the order: deletions commute and repeat freely. */
module IgnorePaths {
  import opened Int64
  import opened Json

  type Path = seq<string>

  predicate IsIndex(segment: string) {
    segment != "" && forall i | 0 <= i < |segment| :: '0' <= segment[i] <= '9'
  }

  // the parsed index wraps like any Go int
  function ParseIndex(segment: string): int64 {
    if segment == "" then 0
    else
      var last := segment[|segment| - 1] as int - '0' as int;
      Wrap64(Wrap64(ParseIndex(segment[..|segment| - 1]) * 10) + last)
  }

  /** Deletes the object members a path addresses: "*" goes into every item, a number into one,
      and any other segment leaves the path whole for every item of an array it meets. */
  function RemovePath(v: Json, p: Path): Json
    decreases v
  {
    if p == [] then v
    else
      match v
      case Arr(items) =>
        Arr(seq(|items|, i requires 0 <= i < |items| =>
          if p[0] == "*" then RemovePath(items[i], p[1..])
          else if IsIndex(p[0]) then
            if ParseIndex(p[0]) == i then RemovePath(items[i], p[1..]) else items[i]
          else RemovePath(items[i], p)))
      case Obj(fields) =>
        if |p| == 1 then Obj(fields - {p[0]})
        else if p[0] in fields then Obj(fields[p[0] := RemovePath(fields[p[0]], p[1..])])
        else v
      case _ => v
  }

  /** What a path means for one item of an array. */
  function ItemPath(p: Path, i: nat): Path
    requires p != []
  {
    if p[0] == "*" then p[1..]
    else if IsIndex(p[0]) then if ParseIndex(p[0]) == i then p[1..] else []
    else p
  }

  lemma RemoveItems(items: seq<Json>, p: Path)
    requires p != []
    ensures RemovePath(Arr(items), p).Arr? && |RemovePath(Arr(items), p).items| == |items|
    ensures forall i | 0 <= i < |items| ::
      RemovePath(Arr(items), p).items[i] == RemovePath(items[i], ItemPath(p, i))
  {
  }

  // -------------------------------------------------- which places are gone

  /** One step into a value. */
  datatype Step = Key(k: string) | Index(i: nat)

  /** The place at the end of c exists. */
  predicate Present(v: Json, c: seq<Step>)
    decreases v
  {
    c == [] ||
    match (v, c[0])
    case (Obj(fields), Key(k)) => k in fields && Present(fields[k], c[1..])
    case (Arr(items), Index(i)) => i < |items| && Present(items[i], c[1..])
    case _ => false
  }

  /** What stands there. */
  function ValueAt(v: Json, c: seq<Step>): Json
    requires Present(v, c)
    decreases v
  {
    if c == [] then v
    else
      match v
      case Obj(fields) => ValueAt(fields[c[0].k], c[1..])
      case Arr(items) => ValueAt(items[c[0].i], c[1..])
      case _ => v
  }

  /** The same value but for what lies inside it: scalars are equal and arrays equally long. */
  predicate Alike(v: Json, w: Json) {
    match v
    case Obj(_) => w.Obj?
    case Arr(items) => w.Arr? && |w.items| == |items|
    case _ => v == w
  }

  /** The path addresses exactly this place. */
  predicate Addresses(p: Path, c: seq<Step>)
    decreases |c|
  {
    && p != [] && c != []
    && match c[0]
       case Key(k) => p[0] == k && if |p| == 1 then |c| == 1 else Addresses(p[1..], c[1..])
       case Index(i) => Addresses(ItemPath(p, i), c[1..])
  }

  /** The path addresses this place or one it lies inside. */
  ghost predicate Covers(p: Path, c: seq<Step>) {
    exists n :: 0 < n <= |c| && Addresses(p, c[..n])
  }

  lemma CoversStep(p: Path, c: seq<Step>)
    requires c != [] && p != []
    ensures c[0].Index? ==> (Covers(p, c) <==> Covers(ItemPath(p, c[0].i), c[1..]))
    ensures c[0].Key? && p[0] != c[0].k ==> !Covers(p, c)
    ensures c[0].Key? && p[0] == c[0].k && |p| == 1 ==> Covers(p, c)
    ensures c[0].Key? && p[0] == c[0].k && |p| > 1 ==> (Covers(p, c) <==> Covers(p[1..], c[1..]))
  {
    var q := if c[0].Index? then ItemPath(p, c[0].i) else p[1..];
    if c[0].Key? && p[0] == c[0].k && |p| == 1 {
      assert Addresses(p, c[..1]);
    }
    if Covers(q, c[1..]) {
      var n :| 0 < n <= |c[1..]| && Addresses(q, c[1..][..n]);
      assert c[..n + 1][1..] == c[1..][..n];
      assert c[0].Index? || (p[0] == c[0].k && |p| > 1) ==> Addresses(p, c[..n + 1]);
    }
    if Covers(p, c) {
      var n :| 0 < n <= |c| && Addresses(p, c[..n]);
      assert c[..n][1..] == c[1..][..n - 1];
      if c[0].Index? || |p| > 1 {
        assert Addresses(q, c[1..][..n - 1]);
        assert n > 1;
      }
    }
  }

  /** Removal deletes exactly the places the path covers and nothing else. */
  lemma {:induction false} RemovesExactly(v: Json, p: Path, c: seq<Step>)
    ensures Present(RemovePath(v, p), c) <==> Present(v, c) && !Covers(p, c)
    decreases v
  {
    if p != [] && c != [] {
      CoversStep(p, c);
      match (v, c[0])
      case (Arr(items), Index(i)) =>
        RemoveItems(items, p);
        if i < |items| {
          RemovesExactly(items[i], ItemPath(p, i), c[1..]);
        }
      case (Obj(fields), Key(k)) =>
        if k in fields && p[0] == k && |p| > 1 {
          RemovesExactly(fields[k], p[1..], c[1..]);
        }
      case (Arr(items), Key(_)) => RemoveItems(items, p);
      case _ =>
    }
  }

  /** At every place that is kept the value is kept too, but for what is deleted inside it. */
  lemma {:induction false} KeepsRest(v: Json, p: Path, c: seq<Step>)
    requires Present(v, c) && !Covers(p, c)
    ensures Present(RemovePath(v, p), c) && Alike(ValueAt(v, c), ValueAt(RemovePath(v, p), c))
    decreases v
  {
    RemovesExactly(v, p, c);
    if p != [] && c != [] {
      CoversStep(p, c);
      match v
      case Arr(items) =>
        RemoveItems(items, p);
        KeepsRest(items[c[0].i], ItemPath(p, c[0].i), c[1..]);
      case Obj(fields) =>
        if p[0] == c[0].k && |p| > 1 {
          KeepsRest(fields[c[0].k], p[1..], c[1..]);
        }
    }
  }

  /** The same places, with alike values there. */
  ghost predicate SamePlaces(v: Json, w: Json) {
    && (forall c :: Present(v, c) <==> Present(w, c))
    && (forall c | Present(v, c) && Present(w, c) :: Alike(ValueAt(v, c), ValueAt(w, c)))
  }

  lemma Below(v: Json, step: Step, c: seq<Step>)
    requires Present(v, [step])
    ensures Present(v, [step] + c) <==> Present(ValueAt(v, [step]), c)
    ensures Present(v, [step] + c) ==> ValueAt(v, [step] + c) == ValueAt(ValueAt(v, [step]), c)
  {
    assert ([step] + c)[0] == step && ([step] + c)[1..] == c && [step][1..] == [];
  }

  lemma MemberPresent(v: Json, k: string)
    requires v.Obj?
    ensures Present(v, [Key(k)]) <==> k in v.fields
  {
    var c := [Key(k)];
    assert c[1..] == [] && c[0] == Key(k);
    assert k in v.fields ==> Present(v.fields[k], c[1..]);
  }

  lemma SamePlacesBelow(v: Json, w: Json, step: Step)
    requires SamePlaces(v, w) && Present(v, [step]) && Present(w, [step])
    ensures SamePlaces(ValueAt(v, [step]), ValueAt(w, [step]))
  {
    var a, b := ValueAt(v, [step]), ValueAt(w, [step]);
    forall c
      ensures Present(a, c) <==> Present(b, c)
      ensures Present(a, c) && Present(b, c) ==> Alike(ValueAt(a, c), ValueAt(b, c))
    {
      Below(v, step, c);
      Below(w, step, c);
      assert Present(v, [step] + c) <==> Present(w, [step] + c);
    }
  }

  /** A value is determined by its places: with RemovesExactly and KeepsRest, the result of a removal
      is the only value with the kept places and what stood there. */
  lemma {:induction false} PlacesDetermine(v: Json, w: Json)
    requires SamePlaces(v, w)
    ensures v == w
    decreases v
  {
    assert Present(v, []) && Present(w, []) && Alike(ValueAt(v, []), ValueAt(w, []));
    match v
    case Arr(items) =>
      forall i | 0 <= i < |items|
        ensures items[i] == w.items[i]
      {
        assert ValueAt(v, [Index(i)]) == items[i] && ValueAt(w, [Index(i)]) == w.items[i];
        SamePlacesBelow(v, w, Index(i));
        PlacesDetermine(items[i], w.items[i]);
      }
    case Obj(fields) =>
      forall k
        ensures k in fields <==> k in w.fields
        ensures k in fields && k in w.fields ==> fields[k] == w.fields[k]
      {
        MemberPresent(v, k);
        MemberPresent(w, k);
        assert Present(v, [Key(k)]) <==> Present(w, [Key(k)]);
        if k in fields && k in w.fields {
          assert ValueAt(v, [Key(k)]) == fields[k] && ValueAt(w, [Key(k)]) == w.fields[k];
          SamePlacesBelow(v, w, Key(k));
          PlacesDetermine(fields[k], w.fields[k]);
        }
      }
      assert fields == w.fields;
    case _ =>
  }

  // ------------------------------------------------------- order irrelevant

  lemma {:induction false} Commutes(v: Json, p: Path, q: Path)
    ensures RemovePath(RemovePath(v, p), q) == RemovePath(RemovePath(v, q), p)
    decreases v
  {
    if p != [] && q != [] {
      match v
      case Arr(items) =>
        RemoveItems(items, p);
        RemoveItems(items, q);
        var a, b := RemovePath(v, p).items, RemovePath(v, q).items;
        RemoveItems(a, q);
        RemoveItems(b, p);
        forall i | 0 <= i < |items|
          ensures RemovePath(Arr(a), q).items[i] == RemovePath(Arr(b), p).items[i]
        {
          Commutes(items[i], ItemPath(p, i), ItemPath(q, i));
        }
        assert RemovePath(Arr(a), q).items == RemovePath(Arr(b), p).items;
      case Obj(fields) =>
        if p[0] == q[0] && p[0] in fields && |p| > 1 && |q| > 1 {
          Commutes(fields[p[0]], p[1..], q[1..]);
        }
        assert RemovePath(RemovePath(v, p), q).fields == RemovePath(RemovePath(v, q), p).fields;
      case _ =>
    }
  }

  lemma {:induction false} Idempotent(v: Json, p: Path)
    ensures RemovePath(RemovePath(v, p), p) == RemovePath(v, p)
    decreases v
  {
    if p != [] {
      match v
      case Arr(items) =>
        RemoveItems(items, p);
        var a := RemovePath(v, p).items;
        RemoveItems(a, p);
        forall i | 0 <= i < |items|
          ensures RemovePath(Arr(a), p).items[i] == a[i]
        {
          Idempotent(items[i], ItemPath(p, i));
        }
        assert RemovePath(Arr(a), p).items == a;
      case Obj(fields) =>
        if |p| > 1 && p[0] in fields {
          Idempotent(fields[p[0]], p[1..]);
        }
        assert RemovePath(RemovePath(v, p), p).fields == RemovePath(v, p).fields;
      case _ =>
    }
  }

  function RemoveAll(v: Json, ps: seq<Path>): Json
    decreases |ps|
  {
    if ps == [] then v else RemoveAll(RemovePath(v, ps[0]), ps[1..])
  }

  /** A path that is removed anyway can be removed first, or also last. */
  lemma {:induction false} Absorbs(v: Json, ps: seq<Path>, p: Path)
    requires p in ps
    ensures RemoveAll(RemovePath(v, p), ps) == RemoveAll(v, ps)
    decreases |ps|
  {
    if ps[0] == p {
      Idempotent(v, p);
    } else {
      Commutes(v, p, ps[0]);
      Absorbs(RemovePath(v, ps[0]), ps[1..], p);
    }
  }

  lemma {:induction false} AbsorbsAll(v: Json, ps: seq<Path>, qs: seq<Path>)
    requires forall p | p in ps :: p in qs
    ensures RemoveAll(RemoveAll(v, ps), qs) == RemoveAll(v, qs)
    decreases |ps|
  {
    if ps != [] {
      AbsorbsAll(RemovePath(v, ps[0]), ps[1..], qs);
      Absorbs(v, qs, ps[0]);
    }
  }

  lemma {:induction false} CommutesOne(v: Json, ps: seq<Path>, p: Path)
    ensures RemoveAll(RemovePath(v, p), ps) == RemovePath(RemoveAll(v, ps), p)
    decreases |ps|
  {
    if ps != [] {
      Commutes(v, p, ps[0]);
      CommutesOne(RemovePath(v, ps[0]), ps[1..], p);
    }
  }

  lemma {:induction false} CommutesAll(v: Json, ps: seq<Path>, qs: seq<Path>)
    ensures RemoveAll(RemoveAll(v, ps), qs) == RemoveAll(RemoveAll(v, qs), ps)
    decreases |ps|
  {
    if ps != [] {
      CommutesAll(RemovePath(v, ps[0]), ps[1..], qs);
      CommutesOne(v, qs, ps[0]);
    }
  }

  /** The order and repetition of the ignored paths never matter. */
  lemma OrderIrrelevant(v: Json, ps: seq<Path>, qs: seq<Path>)
    requires forall p :: p in ps <==> p in qs
    ensures RemoveAll(v, ps) == RemoveAll(v, qs)
  {
    AbsorbsAll(v, ps, qs);
    AbsorbsAll(v, qs, ps);
    CommutesAll(v, ps, qs);
  }

  lemma {:induction false} RemoveAllSnoc(v: Json, ps: seq<Path>, p: Path)
    ensures RemoveAll(v, ps + [p]) == RemovePath(RemoveAll(v, ps), p)
    decreases |ps|
  {
    if ps == [] {
      assert ps + [p] == [p];
      assert RemoveAll(RemovePath(v, p), []) == RemovePath(v, p);
    } else {
      assert (ps + [p])[0] == ps[0] && (ps + [p])[1..] == ps[1..] + [p];
      RemoveAllSnoc(RemovePath(v, ps[0]), ps[1..], p);
    }
  }

  /** Walking the ignored set in whatever order the map yields it always gives the same value,
      that of any listing of the set. */
  method RemoveIgnoredFields(v: Json, ignored: set<Path>) returns (r: Json)
    ensures forall ps: seq<Path> | (forall p :: p in ps <==> p in ignored) :: r == RemoveAll(v, ps)
  {
    r := v;
    var left := ignored;
    ghost var done: seq<Path> := [];
    while left != {}
      invariant left <= ignored
      invariant r == RemoveAll(v, done)
      invariant forall p :: p in done <==> p in ignored && p !in left
      decreases |left|
    {
      var p :| p in left;
      left := left - {p};
      RemoveAllSnoc(v, done, p);
      r := RemovePath(r, p);
      done := done + [p];
    }
    forall ps: seq<Path> | (forall p :: p in ps <==> p in ignored)
      ensures r == RemoveAll(v, ps)
    {
      OrderIrrelevant(v, done, ps);
    }
  }
}
