/** The keys of a map in sorted order, whatever order ranging over the map yields them in. */
module KeyOrder {
  import opened Sorting
  import opened Text

  ghost function Listed(keys: set<string>): seq<string> {
    Sort(Members(keys), StrLe)
  }

  lemma StrLePreorder()
    ensures Preorder(StrLe)
  {
    forall a: string, b: string
      ensures StrLe(a, b) || StrLe(b, a)
    {
      StrLeTotal(a, b);
    }
    forall a: string, b: string, c: string | StrLe(a, b) && StrLe(b, c)
      ensures StrLe(a, c)
    {
      StrLeTransitive(a, b, c);
    }
  }

  lemma StrLeNoTies(s: seq<string>)
    ensures NoTies(s, StrLe)
  {
    forall a: string, b: string | StrLe(a, b) && StrLe(b, a)
      ensures a == b
    {
      StrLeAntisymmetric(a, b);
    }
  }

  lemma ListedAre(keys: set<string>)
    ensures NoRepeats(Listed(keys)) && forall k :: k in Listed(keys) <==> k in keys
  {
    MembersAre(keys);
    SortKeeps(Members(keys), StrLe);
    var listed := Listed(keys);
    forall k
      ensures k in listed <==> k in keys
    {
      assert k in listed <==> k in multiset(listed);
      assert k in keys <==> k in multiset(keys);
    }
    forall i, j | 0 <= i < j < |listed|
      ensures listed[i] != listed[j]
    {
      assert multiset(keys)[listed[i]] <= 1;
      if listed[i] == listed[j] {
        TwiceCounts(listed, i, j);
      }
    }
  }

  /** Any arrangement of the keys sorts to the same list. */
  lemma ListedIs(found: seq<string>, keys: set<string>)
    requires multiset(found) == multiset(keys)
    ensures Sort(found, StrLe) == Listed(keys)
  {
    MembersAre(keys);
    StrLePreorder();
    StrLeNoTies(found);
    SortPermutation(found, Members(keys), StrLe);
  }

  method ListKeys(keys: set<string>) returns (listed: seq<string>)
    ensures listed == Listed(keys)
  {
    var found: seq<string>, left := [], keys;
    while left != {}
      invariant left <= keys
      invariant multiset(found) + multiset(left) == multiset(keys)
    {
      ghost var was := left;
      var k :| k in left;
      found, left := found + [k], left - {k};
      assert multiset(was) == multiset(left) + multiset{k};
    }
    ListedIs(found, keys);
    listed := Sort(found, StrLe);
  }
}
