/** What the segments of an ignored path mean, step by step and place by place. */
module IgnoredPlaces {
  import opened IgnorePaths
  import opened Int64
  import opened Json
  import opened Text

  predicate Decimal(segment: string) {
    |segment| > 0 && forall c | c in segment :: c in "0123456789"
  }

  const TWO_TO_64: int := 0x1_0000_0000_0000_0000

  lemma WrapAgain(x: int)
    ensures exists k :: Wrap64(x) == x + k * TWO_TO_64
  {
    var k := -((x + TWO_TO_63) / TWO_TO_64);
    assert Wrap64(x) == x + k * TWO_TO_64;
  }

  lemma WrapStep(v: int, w: int, last: int)
    requires w == Wrap64(v)
    ensures Wrap64(Wrap64(w * 10) + last) == Wrap64(v * 10 + last)
  {
    WrapAgain(v);
    var k :| w == v + k * TWO_TO_64;
    WrapAgain(w * 10);
    var j :| Wrap64(w * 10) == w * 10 + j * TWO_TO_64;
    SameWrap(v * 10 + last, Wrap64(w * 10) + last, 10 * k + j);
  }

  lemma SameWrap(x: int, y: int, k: int)
    requires y == x + k * TWO_TO_64
    ensures Wrap64(x) == Wrap64(y)
  {
    WrapAgain(x);
    WrapAgain(y);
    var i :| Wrap64(x) == x + i * TWO_TO_64;
    var j :| Wrap64(y) == y + j * TWO_TO_64;
    var d := k + j - i;
    assert Wrap64(y) - Wrap64(x) == d * TWO_TO_64;
  }

  /** An index is the number its digits denote, wrapped to 64 bits. */
  lemma {:induction false} IndexIs(segment: string)
    ensures IsIndex(segment) <==> Decimal(segment)
    ensures ParseIndex(segment) == Wrap64(Value(segment))
  {
    if segment != "" {
      IndexIs(segment[..|segment| - 1]);
      var front, last := segment[..|segment| - 1], segment[|segment| - 1] as int - '0' as int;
      WrapStep(Value(front), ParseIndex(front), last);
    }
    assert forall i | 0 <= i < |segment| :: '0' <= segment[i] <= '9' <==> segment[i] in "0123456789";
  }

  /** How a path goes on inside an item of an array: a star goes into every item, a number into the one
      it denotes, and any other segment looks into every item as if the array were not there. */
  lemma StepIntoItem(p: Path, i: nat, c: seq<Step>)
    requires p != []
    ensures Addresses(p, [Index(i)] + c) <==>
            || (p[0] == "*" && Addresses(p[1..], c))
            || (Decimal(p[0]) && Wrap64(Value(p[0])) == i && Addresses(p[1..], c))
            || (p[0] != "*" && !Decimal(p[0]) && Addresses(p, c))
  {
    IndexIs(p[0]);
    assert ([Index(i)] + c)[1..] == c;
    assert "*"[0] !in "0123456789";
  }

  /** In an object a segment is the name of a member, a star and a number too; the last one ends there. */
  lemma StepIntoMember(p: Path, k: string, c: seq<Step>)
    requires p != []
    ensures Addresses(p, [Key(k)] + c) <==> p[0] == k && if |p| == 1 then c == [] else Addresses(p[1..], c)
  {
    assert ([Key(k)] + c)[1..] == c;
  }

  /** Nothing addresses the whole value, and an empty path nothing at all. */
  lemma NoSteps(p: Path, c: seq<Step>)
    ensures !Addresses(p, []) && !Addresses([], c)
  {
  }
}
