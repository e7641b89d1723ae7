/** Lists of values that stand for sets, as the gate, assertion and contract files write them. */
module StringSets {
  import opened Text

  /** No value is blank and no two are the same once trimmed. */
  predicate ValidSet(values: seq<string>) {
    && (forall i | 0 <= i < |values| :: !Blank(values[i]))
    && (forall i, j | 0 <= i < j < |values| :: TrimSpace(values[i]) != TrimSpace(values[j]))
  }

  method ValidateStringSet(field: string, values: seq<string>, before: seq<string>) returns (problems: seq<string>)
    ensures before <= problems
    ensures problems == before <==> ValidSet(values)
  {
    problems := before;
    var seen: set<string> := {};
    for n := 0 to |values|
      invariant before <= problems
      invariant problems == before ==> forall s :: s in seen <==> exists i :: 0 <= i < n && TrimSpace(values[i]) == s
      invariant problems == before <==> ValidSet(values[..n])
    {
      var trimmed := TrimSpace(values[n]);
      ValidSetSnoc(values, n);
      if trimmed == "" {
        problems := problems + [field + "[" + Dec(n) + "] cannot be empty"];
      } else if trimmed in seen {
        problems := problems + [field + " contains duplicate value " + trimmed];
      } else {
        seen := seen + {trimmed};
      }
    }
    assert values[..|values|] == values;
  }

  lemma ValidSetSnoc(values: seq<string>, n: nat)
    requires n < |values|
    ensures ValidSet(values[..n + 1]) <==>
            ValidSet(values[..n]) && !Blank(values[n]) && forall i | 0 <= i < n :: TrimSpace(values[i]) != TrimSpace(values[n])
  {
    var few, more := values[..n], values[..n + 1];
    assert forall i | 0 <= i < n :: few[i] == more[i];
    assert more[n] == values[n];
  }
}
