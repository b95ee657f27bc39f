/** Rules and the rule collection, kept in descending order of weight.

    Main results: adding rules one by one gives the stable descending sort that building
    the collection at once gives; every run of additions, removals and sorts keeps the
    collection sorted and loses no rule; and the weight orders rules by priority first for
    exactly the order numbers below 10000.
 */
module Rules {
  import opened Values
  import opened Domains
  import opened StableSorts

  datatype Rule = Rule(
    ruleId: string, name: string, domain: Domain, transform: Value,
    priority: I64, order: I64, metadata: Value,
    constitutional: bool, enabled: bool, isMeta: bool)

  const MAX_PRIORITY := 10000

  /** Priority and order in one 64-bit number, with wrap-around. */
  function WeightOf(priority: I64, order: I64): I64 {
    AsI64(priority * 10000 + order)
  }

  function Weight(r: Rule): I64 {
    WeightOf(r.priority, r.order)
  }

  // ------------------------------------------------------------------------
  // Runs of operations
  // ------------------------------------------------------------------------

  datatype Operation = Add(rule: Rule) | Remove(ruleId: string) | Sort

  function IndexOf(rules: seq<Rule>, ruleId: string): Option<nat> {
    if rules == [] then None
    else if rules[0].ruleId == ruleId then Some(0)
    else match IndexOf(rules[1..], ruleId) case Some(i) => Some(i + 1) case None => None
  }

  lemma {:induction false} IndexIsFirst(rules: seq<Rule>, ruleId: string)
    ensures match IndexOf(rules, ruleId)
            case Some(i) => i < |rules| && rules[i].ruleId == ruleId &&
              forall j | 0 <= j < i :: rules[j].ruleId != ruleId
            case None => forall j | 0 <= j < |rules| :: rules[j].ruleId != ruleId
  {
    if rules != [] {
      IndexIsFirst(rules[1..], ruleId);
      forall j | 0 < j < |rules| ensures rules[j] == rules[1..][j - 1] {}
    }
  }

  function Without(rules: seq<Rule>, ruleId: string): seq<Rule> {
    match IndexOf(rules, ruleId)
    case Some(i) => if i < |rules| then rules[..i] + rules[i + 1..] else rules
    case None => rules
  }

  function Step(rules: seq<Rule>, op: Operation): seq<Rule> {
    match op
    case Add(r) => Inserted(Weight, rules, r)
    case Remove(id) => Without(rules, id)
    case Sort => SortByKey(Weight, rules)
  }

  function AddedBy(op: Operation): multiset<Rule> {
    if op.Add? then multiset{op.rule} else multiset{}
  }

  function RemovedBy(rules: seq<Rule>, op: Operation): multiset<Rule> {
    match op
    case Remove(id) =>
      (match IndexOf(rules, id)
       case Some(i) => if i < |rules| then multiset{rules[i]} else multiset{}
       case None => multiset{})
    case _ => multiset{}
  }

  function Run(rules: seq<Rule>, ops: seq<Operation>): seq<Rule>
    decreases ops
  {
    if ops == [] then rules else Run(Step(rules, ops[0]), ops[1..])
  }

  function Added(ops: seq<Operation>): multiset<Rule> {
    if ops == [] then multiset{} else AddedBy(ops[0]) + Added(ops[1..])
  }

  /** What the removals of a run took out. */
  function Removed(rules: seq<Rule>, ops: seq<Operation>): multiset<Rule>
    decreases ops
  {
    if ops == [] then multiset{} else RemovedBy(rules, ops[0]) + Removed(Step(rules, ops[0]), ops[1..])
  }

  lemma InsertingConserves(rules: seq<Rule>, r: Rule)
    requires Descending(Weight, rules)
    ensures Descending(Weight, Inserted(Weight, rules, r))
    ensures multiset(Inserted(Weight, rules, r)) == multiset(rules) + multiset{r}
  {
    InsertionIsStable(Weight, rules, r);
    StableSortConserves(Weight, rules + [r], Inserted(Weight, rules, r));
  }

  lemma SortingConserves(rules: seq<Rule>)
    ensures Descending(Weight, SortByKey(Weight, rules)) && multiset(SortByKey(Weight, rules)) == multiset(rules)
  {
    SortIsStable(Weight, rules);
    StableSortConserves(Weight, rules, SortByKey(Weight, rules));
  }

  lemma WithoutTakesOne(rules: seq<Rule>, id: string)
    ensures match IndexOf(rules, id)
            case Some(i) => i < |rules| && multiset(Without(rules, id)) + multiset{rules[i]} == multiset(rules)
            case None => Without(rules, id) == rules
  {
    IndexIsFirst(rules, id);
    if IndexOf(rules, id).Some? {
      var i := IndexOf(rules, id).value;
      assert rules == rules[..i] + [rules[i]] + rules[i + 1..];
    }
  }

  /** Any run from a sorted collection leaves it sorted, and rules are neither lost nor
      made: what is there, with what was removed, is what was there, with what was added. */
  lemma {:induction false} RunsKeepOrderAndConserve(rules: seq<Rule>, ops: seq<Operation>)
    requires Descending(Weight, rules)
    ensures Descending(Weight, Run(rules, ops))
    ensures multiset(Run(rules, ops)) + Removed(rules, ops) == multiset(rules) + Added(ops)
    decreases ops
  {
    if ops != [] {
      var next := Step(rules, ops[0]);
      StepConserves(rules, ops[0]);
      RunsKeepOrderAndConserve(next, ops[1..]);
      Balance(multiset(Run(rules, ops)), RemovedBy(rules, ops[0]), Removed(next, ops[1..]), multiset(next),
              multiset(rules), AddedBy(ops[0]), Added(ops[1..]));
    }
  }

  lemma Balance(end: multiset<Rule>, r1: multiset<Rule>, r2: multiset<Rule>, mid: multiset<Rule>,
                start: multiset<Rule>, a1: multiset<Rule>, a2: multiset<Rule>)
    requires end + r2 == mid + a2 && mid + r1 == start + a1
    ensures end + (r1 + r2) == start + (a1 + a2)
  {
    assert end + (r1 + r2) == (end + r2) + r1;
    assert (mid + a2) + r1 == (mid + r1) + a2;
  }

  lemma StepConserves(rules: seq<Rule>, op: Operation)
    requires Descending(Weight, rules)
    ensures Descending(Weight, Step(rules, op))
    ensures multiset(Step(rules, op)) + RemovedBy(rules, op) == multiset(rules) + AddedBy(op)
  {
    match op
    case Add(r) => InsertingConserves(rules, r);
    case Remove(id) => DescendingWithout(rules, id); WithoutTakesOne(rules, id);
    case Sort => SortingConserves(rules);
  }

  lemma DescendingWithout(rules: seq<Rule>, id: string)
    requires Descending(Weight, rules)
    ensures Descending(Weight, Without(rules, id))
  {
    IndexIsFirst(rules, id);
    if IndexOf(rules, id).Some? { RemovalDescends(Weight, rules, IndexOf(rules, id).value); }
  }

  function AddsOf(given: seq<Rule>): seq<Operation> {
    seq(|given|, i requires 0 <= i < |given| => Add(given[i]))
  }

  lemma {:induction false} RunningAdds(rules: seq<Rule>, given: seq<Rule>)
    ensures Run(rules, AddsOf(given)) == AddAll(Weight, rules, given)
    decreases |given|
  {
    if given != [] {
      assert AddsOf(given)[1..] == AddsOf(given[1..]);
      RunningAdds(Inserted(Weight, rules, given[0]), given[1..]);
    }
  }

  /** Adding rules one by one to the empty collection gives what building it at once gives:
      the descending order of weights, rules of equal weight in the order they came. */
  lemma AddingOneByOneIsFromVec(given: seq<Rule>)
    ensures Run([], AddsOf(given)) == SortByKey(Weight, given)
    ensures StablySorts(Weight, given, Run([], AddsOf(given)))
  {
    RunningAdds([], given);
    AddingOneByOneIsSorting(Weight, given);
    SortIsStable(Weight, given);
  }

  // ------------------------------------------------------------------------
  // Weight
  // ------------------------------------------------------------------------

  predicate LighterLexicographically(p: I64, o: I64, q: I64, n: I64) {
    p < q || (p == q && o < n)
  }

  ghost predicate WeightsAreLexicographic(maxOrder: nat) {
    forall p: I64, o: I64, q: I64, n: I64
      | 0 <= p <= MAX_PRIORITY && 0 <= q <= MAX_PRIORITY && 0 <= o <= maxOrder && 0 <= n <= maxOrder ::
      WeightOf(p, o) < WeightOf(q, n) <==> LighterLexicographically(p, o, q, n)
  }

  /** With priorities from 0 to 10000, weights compare by priority and then by order for
      exactly the order numbers below 10000. */
  lemma WeightIsLexicographicExactly(maxOrder: nat)
    ensures WeightsAreLexicographic(maxOrder) <==> maxOrder < 10000
  {
    if maxOrder >= 10000 {
      assert WeightOf(0, 10000) == WeightOf(1, 0);
      assert LighterLexicographically(0, 10000, 1, 0);
    }
  }

  // ------------------------------------------------------------------------
  // The collection
  // ------------------------------------------------------------------------

  class RuleCollection {
    var rules: seq<Rule>

    constructor ()
      ensures rules == []
    {
      rules := [];
    }

    constructor FromVec(given: seq<Rule>)
      ensures rules == SortByKey(Weight, given) && StablySorts(Weight, given, rules)
      ensures Descending(Weight, rules) && multiset(rules) == multiset(given)
    {
      rules := SortByKey(Weight, given);
      SortingConserves(given);
      SortIsStable(Weight, given);
    }

    method Add(rule: Rule)
      modifies this
      ensures rules == Inserted(Weight, old(rules), rule)
      ensures Descending(Weight, old(rules)) ==> Descending(Weight, rules)
      ensures multiset(rules) == multiset(old(rules)) + multiset{rule}
    {
      var key: Rule -> int := Weight;
      var pos := FindPosition(key, rules, key(rule));
      assert rules == rules[..pos] + rules[pos..];
      if Descending(Weight, rules) { InsertingConserves(rules, rule); }
      rules := rules[..pos] + [rule] + rules[pos..];
    }

    method Remove(ruleId: string) returns (removed: Option<Rule>)
      modifies this
      ensures rules == Without(old(rules), ruleId)
      ensures Descending(Weight, old(rules)) ==> Descending(Weight, rules)
      ensures removed.None? ==> rules == old(rules) && forall r | r in rules :: r.ruleId != ruleId
      ensures removed.Some? ==> removed.value.ruleId == ruleId
      ensures removed.Some? ==> multiset(rules) + multiset{removed.value} == multiset(old(rules))
    {
      WithoutTakesOne(rules, ruleId);
      IndexIsFirst(rules, ruleId);
      if Descending(Weight, rules) { DescendingWithout(rules, ruleId); }
      match IndexOf(rules, ruleId)
      case None => removed := None;
      case Some(pos) =>
        removed := Some(rules[pos]);
        rules := rules[..pos] + rules[pos + 1..];
    }

    method Sort()
      modifies this
      ensures rules == SortByKey(Weight, old(rules)) && StablySorts(Weight, old(rules), rules)
      ensures Descending(Weight, rules) && multiset(rules) == multiset(old(rules))
    {
      SortingConserves(rules);
      SortIsStable(Weight, rules);
      rules := SortByKey(Weight, rules);
    }
  }
}
