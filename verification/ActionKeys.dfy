/** When two interactions have the same action, and when an interaction is one a selector names: the
    keys that stand for actions tell them apart, as long as no service name has a line break. */
module ActionKeys {
  import Actions
  import Assertions
  import Contracts
  import opened Results
  import opened Text

  predicate OneLine(s: string) {
    forall i | 0 <= i < |s| :: s[i] != '\n'
  }

  function Composed(service: string, operation: string): string {
    "service:" + service + "\noperation:" + operation
  }

  lemma ComposedAt(service: string, operation: string)
    ensures
      var k, n := Composed(service, operation), |service|;
      && |k| == 19 + n + |operation| && k[0] == 's'
      && k[8..8 + n] == service && k[8 + n] == '\n' && k[19 + n..] == operation
  {
    var k, n := Composed(service, operation), |service|;
    assert |"service:"| == 8 && |"\noperation:"| == 11;
    assert k == "service:" + (service + ("\noperation:" + operation));
    assert k[8..] == service + ("\noperation:" + operation);
  }

  /** The line break after the service tells where it ends. */
  lemma ComposedInjective(s: string, o: string, s': string, o': string)
    requires OneLine(s) && OneLine(s')
    ensures Composed(s, o) == Composed(s', o') <==> s == s' && o == o'
  {
    ComposedAt(s, o);
    ComposedAt(s', o');
    if Composed(s, o) == Composed(s', o') {
      var k := Composed(s, o);
      assert forall i | 8 <= i < 8 + |s| :: k[i] == s[i - 8];
      assert forall i | 8 <= i < 8 + |s'| :: k[i] == s'[i - 8];
      assert |s| == |s'|;
    }
  }

  lemma ToolApart(tool: string, s: string, o: string)
    ensures "tool:" + tool != Composed(s, o)
  {
    ComposedAt(s, o);
    assert ("tool:" + tool)[0] == 't';
  }

  lemma ToolInjective(tool: string, tool': string)
    ensures "tool:" + tool == "tool:" + tool' <==> tool == tool'
  {
    assert ("tool:" + tool)[5..] == tool && ("tool:" + tool')[5..] == tool';
  }

  // --------------------------------------------------- actions of assertions

  predicate IsTool(x: Assertions.Interaction) {
    TrimSpace(x.service) == "stagehand.tool"
  }

  /** The same tool, or else the same service and operation. */
  predicate SameAction(x: Assertions.Interaction, y: Assertions.Interaction) {
    && (IsTool(x) <==> IsTool(y))
    && x.operation == y.operation && (!IsTool(x) ==> x.service == y.service)
  }

  lemma SameActionIff(x: Assertions.Interaction, y: Assertions.Interaction)
    requires OneLine(x.service) && OneLine(y.service)
    ensures Assertions.ActionKey(x) == Assertions.ActionKey(y) <==> SameAction(x, y)
  {
    ToolInjective(x.operation, y.operation);
    ToolApart(x.operation, y.service, y.operation);
    ToolApart(y.operation, x.service, x.operation);
    ComposedInjective(x.service, x.operation, y.service, y.operation);
  }

  /** An action is new exactly if no interaction of the base run has it; without a base run every
      action is new. */
  lemma NewActionIff(base: Option<seq<Assertions.Interaction>>, x: Assertions.Interaction)
    requires OneLine(x.service)
    requires base.Some? ==> forall y | y in base.value :: OneLine(y.service)
    ensures Assertions.ActionKey(x) !in Assertions.BaseKeys(base) <==>
            base.None? || forall y | y in base.value :: !SameAction(x, y)
  {
    if base.Some? {
      forall y | y in base.value
        ensures Assertions.ActionKey(x) == Assertions.ActionKey(y) <==> SameAction(x, y)
      {
        SameActionIff(x, y);
      }
      if y :| y in base.value && SameAction(x, y) {
        assert Assertions.ActionKey(y) in Assertions.BaseKeys(base);
      }
    }
  }

  /** With a line break in a service name different actions can have one key. */
  lemma KeysCanClash()
    ensures Composed("a\noperation:b", "c") == Composed("a", "b\noperation:c")
  {
    var x, y := Composed("a\noperation:b", "c"), Composed("a", "b\noperation:c");
    assert x == "service:a\noperation:b\noperation:c";
    assert y == "service:a\noperation:b\noperation:c";
  }

  // ---------------------------------------------------- actions of contracts

  /** The selector names the interaction: by its tool, or by service and operation, spaces aside. */
  predicate Names(who: Actions.Selector, x: Actions.Interaction) {
    if x.toolProtocol || x.service == "stagehand.tool" then
      var tool := if TrimSpace(x.operation) != "" then TrimSpace(x.operation) else TrimSpace(x.bodyName);
      tool != "" && TrimSpace(who.tool) == tool
    else
      && TrimSpace(x.service) != "" && TrimSpace(x.operation) != "" && TrimSpace(who.tool) == ""
      && TrimSpace(who.service) == TrimSpace(x.service) && TrimSpace(who.operation) == TrimSpace(x.operation)
  }

  lemma KeyIs(who: Actions.Selector)
    ensures Actions.Key(who)
            == if TrimSpace(who.tool) != "" then "tool:" + TrimSpace(who.tool)
               else Composed(TrimSpace(who.service), TrimSpace(who.operation))
  {
  }

  lemma KeyOfIs(x: Actions.Interaction)
    ensures
      var tool := if TrimSpace(x.operation) != "" then TrimSpace(x.operation) else TrimSpace(x.bodyName);
      Actions.KeyOf(x)
      == if x.toolProtocol || x.service == "stagehand.tool" then if tool == "" then None else Some("tool:" + tool)
         else if TrimSpace(x.service) == "" || TrimSpace(x.operation) == "" then None
         else Some(Composed(TrimSpace(x.service), TrimSpace(x.operation)))
  {
    TrimIdempotent(x.operation);
    TrimIdempotent(x.bodyName);
    TrimIdempotent(x.service);
    assert TrimSpace("") == "";
  }

  /** An interaction has the key of a selector exactly if the selector names it. */
  lemma NamesIff(who: Actions.Selector, x: Actions.Interaction)
    requires OneLine(TrimSpace(who.service)) && OneLine(TrimSpace(x.service))
    ensures Actions.KeyOf(x) == Some(Actions.Key(who)) <==> Names(who, x)
  {
    KeyIs(who);
    KeyOfIs(x);
    var tool := if TrimSpace(x.operation) != "" then TrimSpace(x.operation) else TrimSpace(x.bodyName);
    ToolInjective(tool, TrimSpace(who.tool));
    ToolApart(tool, TrimSpace(who.service), TrimSpace(who.operation));
    ToolApart(TrimSpace(who.tool), TrimSpace(x.service), TrimSpace(x.operation));
    ComposedInjective(
      TrimSpace(who.service), TrimSpace(who.operation), TrimSpace(x.service), TrimSpace(x.operation));
  }
}
