/** The dataclasses of `ironic/common/kernel_parameters.py`, their printing and the grouping of repeated keys. */
module KernelParameters {
  import opened Strings

  /** A parameter without a value has the empty value. */
  datatype KernelParameter = KernelParameter(key: string, value: string)

  /** One entry of the ordered dictionary `parameters`. */
  datatype Group = Group(key: string, params: seq<KernelParameter>)

  datatype KernelCommandLine = KernelCommandLine(parameters: seq<Group>, initArgs: string)

  // ---------------------------------------------------------------------------
  // Printing
  // ---------------------------------------------------------------------------

  function ValueText(value: string): string {
    if ' ' in value then "\"" + value + "\"" else value
  }

  function ParameterText(p: KernelParameter): string {
    if |p.value| > 0 then p.key + "=" + ValueText(p.value) else p.key
  }

  function ParameterTexts(params: seq<KernelParameter>): seq<string> {
    seq(|params|, i requires 0 <= i < |params| => ParameterText(params[i]))
  }

  function GroupTexts(groups: seq<Group>): seq<string> {
    seq(|groups|, i requires 0 <= i < |groups| => Join(" ", ParameterTexts(groups[i].params)))
  }

  function CommandLineText(c: KernelCommandLine): string {
    Join(" ", GroupTexts(c.parameters)) + if |c.initArgs| > 0 then " -- " + c.initArgs else ""
  }

  // ---------------------------------------------------------------------------
  // Grouping
  // ---------------------------------------------------------------------------

  function KeyList(items: seq<KernelParameter>): seq<string> {
    seq(|items|, i requires 0 <= i < |items| => items[i].key)
  }

  /** The keys in the order they are first seen. */
  function Keys(items: seq<KernelParameter>): seq<string> {
    Distinct(KeyList(items))
  }

  /** The parameters with one key, in their order. */
  function Select(items: seq<KernelParameter>, key: string): seq<KernelParameter> {
    if items == [] then []
    else
      var last := items[|items| - 1];
      Select(items[..|items| - 1], key) + if last.key == key then [last] else []
  }

  function Regrouped(items: seq<KernelParameter>): seq<Group> {
    seq(|Keys(items)|, i requires 0 <= i < |Keys(items)| => Group(Keys(items)[i], Select(items, Keys(items)[i])))
  }

  function Flatten(groups: seq<Group>): seq<KernelParameter> {
    if groups == [] then []
    else Flatten(groups[..|groups| - 1]) + groups[|groups| - 1].params
  }

  function GroupKeys(groups: seq<Group>): seq<string> {
    seq(|groups|, i requires 0 <= i < |groups| => groups[i].key)
  }

  /** A dictionary as `parameter_list` builds it. */
  predicate IsGrouping(groups: seq<Group>) {
    && AllDistinct(GroupKeys(groups))
    && forall i :: 0 <= i < |groups| ==>
         groups[i].params != [] && forall p :: p in groups[i].params ==> p.key == groups[i].key
  }

  lemma KeysFacts(items: seq<KernelParameter>)
    ensures AllDistinct(Keys(items))
    ensures forall k :: k in Keys(items) <==> exists p :: p in items && p.key == k
  {
    forall k ensures k in Keys(items) <==> exists p :: p in items && p.key == k {
      if k in KeyList(items) {
        var i :| 0 <= i < |items| && KeyList(items)[i] == k;
        assert items[i] in items && items[i].key == k;
      }
      if p :| p in items && p.key == k {
        var i :| 0 <= i < |items| && items[i] == p;
        assert KeyList(items)[i] == k;
      }
    }
  }

  lemma KeysStep(items: seq<KernelParameter>, item: KernelParameter)
    ensures Keys(items + [item]) == if item.key in Keys(items) then Keys(items) else Keys(items) + [item.key]
  {
    assert KeyList(items + [item]) == KeyList(items) + [item.key];
    DistinctStep(KeyList(items), item.key);
  }

  lemma {:induction false} SelectFacts(items: seq<KernelParameter>, key: string)
    ensures forall p :: p in Select(items, key) <==> p in items && p.key == key
  {
    if items == [] {
    } else {
      SelectFacts(items[..|items| - 1], key);
      assert items == items[..|items| - 1] + [items[|items| - 1]];
    }
  }

  lemma RegroupedIsGrouping(items: seq<KernelParameter>)
    ensures IsGrouping(Regrouped(items))
  {
    KeysFacts(items);
    assert GroupKeys(Regrouped(items)) == Keys(items);
    forall i | 0 <= i < |Regrouped(items)|
      ensures Regrouped(items)[i].params != []
      ensures forall p :: p in Regrouped(items)[i].params ==> p.key == Regrouped(items)[i].key
    {
      var k := Keys(items)[i];
      SelectFacts(items, k);
      assert k in Keys(items);
      var p :| p in items && p.key == k;
      assert p in Select(items, k);
    }
  }

  /** One more parameter with a known key goes to the end of its group. */
  lemma RegroupedSeen(items: seq<KernelParameter>, item: KernelParameter, i: nat)
    requires i < |Keys(items)| && Keys(items)[i] == item.key
    ensures Regrouped(items + [item]) ==
              Regrouped(items)[i := Group(item.key, Regrouped(items)[i].params + [item])]
  {
    KeysStep(items, item);
    assert (items + [item])[..|items|] == items;
    KeysFacts(items);
    forall j | 0 <= j < |Keys(items)|
      ensures Regrouped(items + [item])[j] ==
                Regrouped(items)[i := Group(item.key, Regrouped(items)[i].params + [item])][j]
    {
      assert j != i ==> Keys(items)[j] != item.key;
      assert Select(items + [item], Keys(items)[j]) ==
               Select(items, Keys(items)[j]) + if Keys(items)[j] == item.key then [item] else [];
    }
  }

  lemma SelectStep(items: seq<KernelParameter>, item: KernelParameter, key: string)
    ensures Select(items + [item], key) == Select(items, key) + if item.key == key then [item] else []
  {
    assert (items + [item])[..|items|] == items;
  }

  /** One with a new key opens a group at the end. */
  lemma RegroupedNew(items: seq<KernelParameter>, item: KernelParameter)
    requires item.key !in Keys(items)
    ensures Regrouped(items + [item]) == Regrouped(items) + [Group(item.key, [item])]
  {
    KeysStep(items, item);
    KeysFacts(items);
    SelectAll(items, item.key, false);
    SelectStep(items, item, item.key);
    assert Regrouped(items + [item])[|Keys(items)|] == Group(item.key, [item]);
    forall j | 0 <= j < |Keys(items)|
      ensures Regrouped(items + [item])[j] == Regrouped(items)[j]
    {
      assert Keys(items)[j] in Keys(items);
      SelectStep(items, item, Keys(items)[j]);
    }
  }

  /** `KernelParameterTransformer.parameter_list`: one pass that fills the dictionary. */
  method ParameterList(items: seq<KernelParameter>) returns (parameters: seq<Group>)
    ensures parameters == Regrouped(items)
  {
    parameters := [];
    for n := 0 to |items|
      invariant parameters == Regrouped(items[..n])
    {
      var item := items[n];
      assert items[..n + 1] == items[..n] + [item];
      var j := 0;
      while j < |parameters| && parameters[j].key != item.key
        invariant 0 <= j <= |parameters|
        invariant item.key !in Keys(items[..n])[..j]
      {
        j := j + 1;
      }
      if j < |parameters| {
        RegroupedSeen(items[..n], item, j);
        parameters := parameters[j := Group(item.key, parameters[j].params + [item])];
      } else {
        assert Keys(items[..n])[..j] == Keys(items[..n]);
        RegroupedNew(items[..n], item);
        parameters := parameters + [Group(item.key, [item])];
      }
    }
    assert items[..|items|] == items;
  }

  // ---------------------------------------------------------------------------
  // Grouping is a stable rearrangement
  // ---------------------------------------------------------------------------

  lemma {:induction false} SelectConcat(a: seq<KernelParameter>, b: seq<KernelParameter>, key: string)
    ensures Select(a + b, key) == Select(a, key) + Select(b, key)
  {
    if b == [] {
      assert a + b == a;
    } else {
      SelectConcat(a, b[..|b| - 1], key);
      assert (a + b)[..|a + b| - 1] == a + b[..|b| - 1];
    }
  }

  lemma {:induction false} SelectAll(items: seq<KernelParameter>, key: string, all: bool)
    requires forall p :: p in items ==> (p.key == key <==> all)
    ensures Select(items, key) == if all then items else []
  {
    if items == [] {
    } else {
      SelectAll(items[..|items| - 1], key, all);
      assert items == items[..|items| - 1] + [items[|items| - 1]];
    }
  }

  /** Adding a run of parameters with one new key adds that key once, at the end. */
  lemma {:induction false} KeysOfNewGroup(items: seq<KernelParameter>, more: seq<KernelParameter>, key: string)
    requires more != [] && key !in Keys(items) && forall p :: p in more ==> p.key == key
    ensures Keys(items + more) == Keys(items) + [key]
  {
    var front, last := more[..|more| - 1], more[|more| - 1];
    assert more == front + [last] && items + more == (items + front) + [last];
    if front == [] {
      assert items + front == items;
    } else {
      KeysOfNewGroup(items, front, key);
    }
    KeysStep(items + front, last);
  }

  lemma {:induction false} FlattenMembers(groups: seq<Group>, p: KernelParameter)
    requires IsGrouping(groups)
    ensures p in Flatten(groups) ==> p.key in GroupKeys(groups)
  {
    if groups == [] {
    } else {
      var front, last := groups[..|groups| - 1], groups[|groups| - 1];
      FrontIsGrouping(groups);
      FlattenMembers(front, p);
      assert GroupKeys(groups) == GroupKeys(front) + [last.key];
    }
  }

  lemma FrontIsGrouping(groups: seq<Group>)
    requires IsGrouping(groups) && groups != []
    ensures IsGrouping(groups[..|groups| - 1])
    ensures groups[|groups| - 1].key !in GroupKeys(groups[..|groups| - 1])
  {
    var front := groups[..|groups| - 1];
    assert forall i :: 0 <= i < |front| ==> GroupKeys(front)[i] == GroupKeys(groups)[i];
    assert GroupKeys(groups)[|groups| - 1] == groups[|groups| - 1].key;
  }

  lemma {:induction false} KeysOfFlatten(groups: seq<Group>)
    requires IsGrouping(groups)
    ensures Keys(Flatten(groups)) == GroupKeys(groups)
  {
    if groups == [] {
      assert GroupKeys(groups) == [];
    } else {
      var front, last := groups[..|groups| - 1], groups[|groups| - 1];
      FrontIsGrouping(groups);
      KeysOfFlatten(front);
      KeysOfNewGroup(Flatten(front), last.params, last.key);
      assert GroupKeys(groups) == GroupKeys(front) + [last.key];
    }
  }

  lemma {:induction false} SelectOfFlatten(groups: seq<Group>, i: nat)
    requires IsGrouping(groups) && i < |groups|
    ensures Select(Flatten(groups), groups[i].key) == groups[i].params
  {
    var front, last := groups[..|groups| - 1], groups[|groups| - 1];
    FrontIsGrouping(groups);
    SelectConcat(Flatten(front), last.params, groups[i].key);
    if i == |groups| - 1 {
      forall p | p in Flatten(front) ensures p.key != last.key {
        FlattenMembers(front, p);
      }
      SelectAll(Flatten(front), last.key, false);
      SelectAll(last.params, last.key, true);
    } else {
      SelectOfFlatten(front, i);
      assert GroupKeys(front)[i] == groups[i].key;
      SelectAll(last.params, groups[i].key, false);
    }
  }

  /** Writing a dictionary out and grouping it again gives the same dictionary. */
  lemma RegroupFlatten(groups: seq<Group>)
    requires IsGrouping(groups)
    ensures Regrouped(Flatten(groups)) == groups
  {
    KeysOfFlatten(groups);
    forall i | 0 <= i < |groups|
      ensures Regrouped(Flatten(groups))[i] == groups[i]
    {
      SelectOfFlatten(groups, i);
      assert GroupKeys(groups)[i] == groups[i].key;
    }
  }

  lemma FlattenLast(front: seq<Group>, last: Group)
    ensures Flatten(front + [last]) == Flatten(front) + last.params
    ensures multiset(Flatten(front + [last])) == multiset(Flatten(front)) + multiset(last.params)
  {
    assert (front + [last])[..|front|] == front;
  }

  lemma {:induction false} FlattenAppend(groups: seq<Group>, i: nat, item: KernelParameter)
    requires i < |groups|
    ensures var g := Group(groups[i].key, groups[i].params + [item]);
            multiset(Flatten(groups[i := g])) == multiset(Flatten(groups)) + multiset{item}
  {
    var g := Group(groups[i].key, groups[i].params + [item]);
    var front, last := groups[..|groups| - 1], groups[|groups| - 1];
    assert groups == front + [last];
    FlattenLast(front, last);
    if i == |groups| - 1 {
      assert groups[i := g] == front + [g];
      FlattenLast(front, g);
    } else {
      assert groups[i := g] == front[i := g] + [last];
      FlattenLast(front[i := g], last);
      FlattenAppend(front, i, item);
    }
  }

  /** No parameter is lost or invented, and those with one key keep their order. */
  lemma {:induction false} RegroupedRearranges(items: seq<KernelParameter>, key: string)
    ensures multiset(Flatten(Regrouped(items))) == multiset(items)
    ensures Select(Flatten(Regrouped(items)), key) == Select(items, key)
    ensures Keys(Flatten(Regrouped(items))) == Keys(items)
  {
    RegroupedMultiset(items);
    RegroupedIsGrouping(items);
    var groups := Regrouped(items);
    KeysOfFlatten(groups);
    assert GroupKeys(groups) == Keys(items);
    if key in Keys(items) {
      var i :| 0 <= i < |Keys(items)| && Keys(items)[i] == key;
      SelectOfFlatten(groups, i);
    } else {
      KeysFacts(items);
      KeysFacts(Flatten(groups));
      SelectAll(items, key, false);
      SelectAll(Flatten(groups), key, false);
    }
  }

  lemma {:induction false} RegroupedMultiset(items: seq<KernelParameter>)
    ensures multiset(Flatten(Regrouped(items))) == multiset(items)
  {
    if items == [] {
      assert Regrouped(items) == [];
    } else {
      var front, last := items[..|items| - 1], items[|items| - 1];
      assert items == front + [last];
      RegroupedMultiset(front);
      if last.key in Keys(front) {
        var i :| 0 <= i < |Keys(front)| && Keys(front)[i] == last.key;
        RegroupedSeen(front, last, i);
        FlattenAppend(Regrouped(front), i, last);
      } else {
        RegroupedNew(front, last);
        assert Regrouped(items)[..|Regrouped(items)| - 1] == Regrouped(front);
      }
    }
  }

  /** `as_parameter_set().asdict()`: keyed by the first parameter of each group. */
  function AsDict(groups: seq<Group>): map<string, string>
    requires forall g :: g in groups ==> g.params != []
  {
    if groups == [] then map[]
    else
      var first := groups[|groups| - 1].params[0];
      AsDict(groups[..|groups| - 1])[first.key := first.value]
  }

  lemma {:induction false} AsDictLookup(groups: seq<Group>, key: string)
    requires IsGrouping(groups)
    ensures forall g :: g in groups ==> g.params != []
    ensures key in AsDict(groups) <==> key in GroupKeys(groups)
    ensures forall i :: 0 <= i < |groups| && groups[i].key == key ==>
              key in AsDict(groups) && AsDict(groups)[key] == groups[i].params[0].value
  {
    if groups == [] {
    } else {
      var front, last := groups[..|groups| - 1], groups[|groups| - 1];
      FrontIsGrouping(groups);
      AsDictLookup(front, key);
      assert last.params[0] in last.params;
      assert GroupKeys(groups) == GroupKeys(front) + [last.key];
      forall i | 0 <= i < |front| && groups[i].key == key ensures key != last.key {
        assert GroupKeys(front)[i] == key;
      }
    }
  }

  /** The first of the selected parameters is the first one with that key. */
  lemma {:induction false} SelectFirst(items: seq<KernelParameter>, i: nat)
    requires i < |items| && forall j :: 0 <= j < i ==> items[j].key != items[i].key
    ensures Select(items, items[i].key) != [] && Select(items, items[i].key)[0] == items[i]
  {
    var front := items[..|items| - 1];
    if i < |front| {
      SelectFirst(front, i);
    } else {
      SelectAll(front, items[i].key, false);
    }
  }

  /** Each key of a parsed line maps to the first value it was given. */
  lemma AsDictIsFirstValue(items: seq<KernelParameter>, i: nat)
    requires i < |items| && forall j :: 0 <= j < i ==> items[j].key != items[i].key
    ensures IsGrouping(Regrouped(items)) && forall g :: g in Regrouped(items) ==> g.params != []
    ensures items[i].key in AsDict(Regrouped(items)) && AsDict(Regrouped(items))[items[i].key] == items[i].value
    ensures AsDict(Regrouped(items)).Keys == set p | p in items :: p.key
  {
    RegroupedIsGrouping(items);
    KeysFacts(items);
    assert GroupKeys(Regrouped(items)) == Keys(items);
    forall k ensures k in AsDict(Regrouped(items)) <==> k in Keys(items) {
      AsDictLookup(Regrouped(items), k);
    }
    AsDictLookup(Regrouped(items), items[i].key);
    assert items[i].key in Keys(items);
    var n :| 0 <= n < |Keys(items)| && Keys(items)[n] == items[i].key;
    SelectFirst(items, i);
    assert Regrouped(items)[n].key == items[i].key;
  }
}
