/** The replay store as a mutable object: its queues, its list of recordings and its used ids. */
module ReplayStore {
  import opened Json
  import opened KeyOrder
  import opened Replay
  import opened ReplayLaws
  import opened Results

  class OpenAIReplayStore {
    var entries: map<Key, seq<Interaction>>
    var available: seq<Interaction>
    var used: set<string>

    ghost function Contents(): Store
      reads this
    {
      Store(entries, available, used)
    }

    constructor ()
      ensures Contents() == EMPTY
    {
      entries, available, used := map[], [], {};
    }

    method Seed(xs: seq<Interaction>) returns (count: nat)
      modifies this
      ensures Contents() == Replay.Seed(old(Contents()), xs)
      ensures count == |xs|
    {
      count := 0;
      while count < |xs|
        invariant count <= |xs|
        invariant Contents() == Replay.Seed(old(Contents()), xs[..count])
      {
        var x := xs[count];
        var key := KeyOf(x);
        assert xs[..count + 1][..count] == xs[..count];
        entries := entries[key := (if key in entries then entries[key] else []) + [x]];
        available := available + [x];
        count := count + 1;
      }
      assert xs[..count] == xs;
    }

    method NearestMatch(near: Nearness) returns (best: Option<(Interaction, real)>)
      ensures best == Best(Contents(), near, |available|)
    {
      best := None;
      for n := 0 to |available|
        invariant best == Best(Contents(), near, n)
      {
        var x := available[n];
        if x.id in used {
          continue;
        }
        var score := near(x);
        if score.Some? && (best.None? || score.value > best.value.1) {
          best := Some((x, score.value));
        }
      }
    }

    method PopMatchForKeys(keys: seq<Key>, nearestAllowed: bool, near: Nearness) returns (answer: Answer)
      modifies this
      ensures (Contents(), answer) == Pop(old(Contents()), keys, nearestAllowed, near)
    {
      for n := 0 to |keys|
        invariant Contents() == old(Contents())
        invariant FirstHit(entries, keys) == FirstHit(entries, keys[n..])
      {
        var key := keys[n];
        assert keys[n..][0] == key && keys[n..][1..] == keys[n + 1..];
        if key in entries && entries[key] != [] {
          var x := entries[key][0];
          entries := entries[key := entries[key][1..]];
          used := used + {x.id};
          return Exact(x);
        }
      }
      if nearestAllowed {
        var nearest := NearestMatch(near);
        if nearest.Some? && nearest.value.1 >= MINIMUM_SCORE {
          used := used + {nearest.value.0.id};
          return Nearest(nearest.value.0, nearest.value.1);
        }
      }
      answer := Miss;
    }

    /** One request: its keys are tried in turn. */
    method PopMatch(r: Request, nearestAllowed: bool, near: Nearness) returns (answer: Answer)
      modifies this
      ensures (Contents(), answer) == Pop(old(Contents()), Candidates(r), nearestAllowed, near)
    {
      var keys := RequestKeys(r);
      answer := PopMatchForKeys(keys, nearestAllowed, near);
    }
  }

  // ------------------------------------------------------ the keys of a request

  lemma SubsetGrows(headers: Headers, names: seq<string>, mask: nat, i: nat)
    requires i < |names| && names[i] in headers
    ensures Subset(headers, names[..i + 1], mask) ==
            if Bit(mask, i) then Subset(headers, names[..i], mask)[names[i] := headers[names[i]]]
            else Subset(headers, names[..i], mask)
  {
    var few, more := names[..i], names[..i + 1];
    forall name | name in headers
      ensures (exists j :: 0 <= j < |more| && more[j] == name && Bit(mask, j)) <==>
              (exists j :: 0 <= j < |few| && few[j] == name && Bit(mask, j)) || (name == names[i] && Bit(mask, i))
    {
      if j :| 0 <= j < |few| && few[j] == name && Bit(mask, j) {
        assert more[j] == name;
      }
      if name == names[i] && Bit(mask, i) {
        assert more[i] == name;
      }
    }
  }

  /** The subset of the headers that a mask selects, bit by bit. */
  method SelectHeaders(headers: Headers, names: seq<string>, mask: nat) returns (subset: Headers)
    requires forall name | name in names :: name in headers
    ensures subset == Subset(headers, names, mask)
  {
    subset := map[];
    var rest := mask;
    for i := 0 to |names|
      invariant forall j: nat :: Bit(rest, j) == Bit(mask, i + j)
      invariant subset == Subset(headers, names[..i], mask)
    {
      SubsetGrows(headers, names, mask, i);
      assert Bit(rest, 0) == Bit(mask, i + 0);
      if rest % 2 == 1 {
        subset := subset[names[i] := headers[names[i]]];
      }
      forall j: nat
        ensures Bit(rest / 2, j) == Bit(mask, i + 1 + j)
      {
        assert Bit(rest, j + 1) == Bit(mask, i + (j + 1));
      }
      rest := rest / 2;
    }
    assert names[..|names|] == names;
  }

  /** The keys of all header subsets, largest mask first; a key already listed is not listed again. */
  method SubsetKeyList(r: Request, names: seq<string>) returns (keys: seq<Key>)
    requires names == Listed(r.headers.Keys)
    ensures keys == SubsetKeys(r, names, Pow2(|names|) - 1)
  {
    ListedAre(r.headers.Keys);
    ghost var all := SubsetKeys(r, names, Pow2(|names|) - 1);
    keys := [];
    var mask := Pow2(|names|) - 1;
    while mask > 0
      invariant 0 <= mask < Pow2(|names|)
      invariant |keys| == Pow2(|names|) - 1 - mask
      invariant keys + SubsetKeys(r, names, mask) == all
    {
      var subset := SelectHeaders(r.headers, names, mask);
      var key := KeyFor(r, Some(subset));
      KeyIsNew(r, names, mask, keys);
      ghost var rest := SubsetKeys(r, names, mask - 1);
      assert SubsetKeys(r, names, mask) == [key] + rest;
      assert keys + ([key] + rest) == (keys + [key]) + rest;
      if key !in keys {
        keys := keys + [key];
      }
      mask := mask - 1;
    }
  }

  /** Different masks select different subsets, so no key is listed twice. */
  lemma KeyIsNew(r: Request, names: seq<string>, mask: nat, keys: seq<Key>)
    requires names == Listed(r.headers.Keys) && 0 < mask < Pow2(|names|)
    requires |keys| == Pow2(|names|) - 1 - mask
    requires keys + SubsetKeys(r, names, mask) == SubsetKeys(r, names, Pow2(|names|) - 1)
    ensures KeyFor(r, Some(Subset(r.headers, names, mask))) !in keys
  {
    var top := Pow2(|names|) - 1;
    SubsetKeysAre(r, names, top);
    forall i | 0 <= i < |keys|
      ensures keys[i] != KeyFor(r, Some(Subset(r.headers, names, mask)))
    {
      assert keys[i] == (keys + SubsetKeys(r, names, mask))[i];
      OtherMask(r.headers, mask, top - i);
    }
  }

  lemma OtherMask(headers: Headers, m: nat, n: nat)
    requires m < n < Pow2(|Listed(headers.Keys)|)
    ensures Subset(headers, Listed(headers.Keys), m) != Subset(headers, Listed(headers.Keys), n)
  {
    MaskOfSubset(headers, m);
    MaskOfSubset(headers, n);
  }

  /** The candidate keys of a request. */
  method RequestKeys(r: Request) returns (keys: seq<Key>)
    ensures keys == Candidates(r)
  {
    var legacy := KeyFor(r, None);
    if r.headers == map[] {
      return [legacy];
    }
    var names := ListKeys(r.headers.Keys);
    keys := SubsetKeyList(r, names);
    SubsetKeysAre(r, names, Pow2(|names|) - 1);
    if legacy !in keys {
      keys := keys + [legacy];
    }
  }
}
