/**
  NonRelConfiguration: an occupation map over shells n l with signed occupancies (holes are
  negative), plus the public relconfiglist it can split itself into; and ConfigList, the sorted
  list of them.
 */
module NonRelConfigs {
  import opened Wrappers
  import opened SortedLists
  import opened Orbitals
  import opened Occupations
  import opened RelConfigs

  /** `relconfiglist` is None for a null pointer. */
  datatype NonRelConfiguration = NonRelConfiguration(shells: ShellMap, relconfiglist: Option<seq<RelativisticConfiguration>>)

  /** The empty configuration: no electrons and no holes. */
  const Vacuum := NonRelConfiguration([], None)

  function ConfigElectronNumber(c: NonRelConfiguration): int {
    ElectronNumber(c.shells)
  }

  function ConfigParity(c: NonRelConfiguration): Parity {
    ShellParity(c.shells)
  }

  /** Configuration::operator<, on the occupation map only. */
  predicate ConfigLess(a: NonRelConfiguration, b: NonRelConfiguration) {
    ShellMapLess(a.shells, b.shells)
  }

  /** Configuration::operator==, on the occupation map only. */
  predicate ConfigEq(a: NonRelConfiguration, b: NonRelConfiguration) {
    a.shells == b.shells
  }

  lemma ConfigOrder()
    ensures StrictOrder(ConfigLess)
  {
    ShellMapOrder();
  }

  /** Two configurations neither of which is less than the other have the same occupation map. */
  lemma ConfigEquivalence(a: NonRelConfiguration, b: NonRelConfiguration)
    ensures Equivalent(ConfigLess, a, b) <==> ConfigEq(a, b)
  {
    ShellMapOrder();
    if ConfigEq(a, b) {
      assert !ShellMapLess(a.shells, a.shells);
    }
  }

  /** The copy constructors copy the occupation map only; relconfiglist starts out null. */
  function Copy(c: NonRelConfiguration): NonRelConfiguration {
    NonRelConfiguration(c.shells, None)
  }

  /** operator= copies the occupation map and keeps the target's own relconfiglist. */
  function Assign(target: NonRelConfiguration, source: NonRelConfiguration): NonRelConfiguration {
    NonRelConfiguration(source.shells, target.relconfiglist)
  }

  /** A copy, and the target of an assignment, compare equal to the source and neither is less than the other. */
  lemma CopyAndAssignPreserveMap(c: NonRelConfiguration, target: NonRelConfiguration)
    ensures ConfigEq(Copy(c), c) && Copy(c).relconfiglist == None
    ensures !ConfigLess(Copy(c), c) && !ConfigLess(c, Copy(c))
    ensures ConfigEq(Assign(target, c), c) && Assign(target, c).relconfiglist == target.relconfiglist
    ensures !ConfigLess(Assign(target, c), c) && !ConfigLess(c, Assign(target, c))
  {
    ConfigEquivalence(Copy(c), c);
    ConfigEquivalence(Assign(target, c), c);
  }

  /** The answer of AddSingleParticle/RemoveSingleParticle and the configuration after the call. */
  datatype Outcome = Outcome(success: bool, config: NonRelConfiguration)

  /** Changes the occupancy of `info` by `d` when the result stays within 2(2l+1) in magnitude; otherwise changes nothing. */
  function ChangeOccupancy(c: NonRelConfiguration, info: NonRelInfo, d: int): Outcome {
    var occupancy := Occupancy(c.shells, info) + d;
    if -MaxNumElectrons(info) <= occupancy <= MaxNumElectrons(info) then
      Outcome(true, c.(shells := ShellInc(c.shells, info, d)))
    else
      Outcome(false, c)
  }

  /** One more electron (or one hole fewer) in `info`. */
  function AddSingleParticle(c: NonRelConfiguration, info: NonRelInfo): Outcome {
    ChangeOccupancy(c, info, 1)
  }

  /** One electron fewer (or one more hole) in `info`. */
  function RemoveSingleParticle(c: NonRelConfiguration, info: NonRelInfo): Outcome {
    ChangeOccupancy(c, info, -1)
  }

  lemma ChangeOccupancySpec(c: NonRelConfiguration, info: NonRelInfo, d: int)
    ensures var r := ChangeOccupancy(c, info, d);
      && (r.success <==> -MaxNumElectrons(info) <= Occupancy(c.shells, info) + d <= MaxNumElectrons(info))
      && (r.success ==> forall x :: Occupancy(r.config.shells, x) == Occupancy(c.shells, x) + (if x == info then d else 0))
      && (r.success ==> ConfigElectronNumber(r.config) == ConfigElectronNumber(c) + d)
      && (!r.success ==> r.config == c)
      && r.config.relconfiglist == c.relconfiglist
      && (WithinCapacity(c.shells) ==> WithinCapacity(r.config.shells))
  {
    var r := ChangeOccupancy(c, info, d);
    NonRelInfoOrder();
    if r.success {
      forall x ensures Occupancy(r.config.shells, x) == Occupancy(c.shells, x) + (if x == info then d else 0) {
        IncOccupancy(c.shells, info, d, NonRelInfoLess, x);
      }
      IncWeightedSum(c.shells, info, d, NonRelInfoLess, One);
      WithinCapacityByOccupancy(c.shells);
      WithinCapacityByOccupancy(r.config.shells);
    }
  }

  /** AddSingleParticle reports success exactly when the new |occupancy| fits the shell, and then adds one electron. */
  lemma AddSingleParticleSpec(c: NonRelConfiguration, info: NonRelInfo)
    ensures var r := AddSingleParticle(c, info);
      && (r.success <==> -MaxNumElectrons(info) <= Occupancy(c.shells, info) + 1 <= MaxNumElectrons(info))
      && (r.success ==> forall x :: Occupancy(r.config.shells, x) == Occupancy(c.shells, x) + (if x == info then 1 else 0))
      && (r.success ==> ConfigElectronNumber(r.config) == ConfigElectronNumber(c) + 1)
      && (!r.success ==> r.config == c)
      && (WithinCapacity(c.shells) ==> WithinCapacity(r.config.shells))
  {
    ChangeOccupancySpec(c, info, 1);
  }

  /** RemoveSingleParticle reports success exactly when the new |occupancy| fits the shell, and then removes one electron. */
  lemma RemoveSingleParticleSpec(c: NonRelConfiguration, info: NonRelInfo)
    ensures var r := RemoveSingleParticle(c, info);
      && (r.success <==> -MaxNumElectrons(info) <= Occupancy(c.shells, info) - 1 <= MaxNumElectrons(info))
      && (r.success ==> forall x :: Occupancy(r.config.shells, x) == Occupancy(c.shells, x) - (if x == info then 1 else 0))
      && (r.success ==> ConfigElectronNumber(r.config) == ConfigElectronNumber(c) - 1)
      && (!r.success ==> r.config == c)
      && (WithinCapacity(c.shells) ==> WithinCapacity(r.config.shells))
  {
    ChangeOccupancySpec(c, info, -1);
  }

  /**
    SplitNonRelInfo: splits shell `current` every possible way and recurses on the rest, adding
    the accumulated relativistic configuration to `list` once past the last shell.
   */
  method SplitNonRelInfo(shells: ShellMap, current: nat, relconfig: seq<Entry<OrbitalInfo>>, list: SortedList<RelativisticConfiguration>)
    requires current <= |shells|
    modifies list
    ensures list.items == old(list.items) + AsConfigs(Prefixed(relconfig, Expansions(shells[current..])))
    decreases |shells| - current
  {
    if current == |shells| {
      SplitEnd(shells, current, relconfig);
      list.Add(RelativisticConfiguration(relconfig));
      return;
    }
    var choices := Choices(shells[current]);
    ghost var rest := Expansions(shells[current + 1..]);
    for i := 0 to |choices|
      invariant list.items == old(list.items) + AsConfigs(Prefixed(relconfig, Product(choices[..i], rest)))
    {
      ghost var before := list.items;
      SplitNonRelInfo(shells, current + 1, relconfig + choices[i], list);
      SplitStep(relconfig, choices, i, rest);
      AppendStep(old(list.items), before, list.items, Prefixed(relconfig, Product(choices[..i], rest)), Prefixed(relconfig + choices[i], rest));
    }
    SplitShell(shells, current, choices);
  }

  lemma SplitEnd(shells: seq<Entry<NonRelInfo>>, current: nat, relconfig: seq<Entry<OrbitalInfo>>)
    requires current == |shells|
    ensures AsConfigs(Prefixed(relconfig, Expansions(shells[current..]))) == [RelativisticConfiguration(relconfig)]
  {
    assert shells[current..] == [];
    assert relconfig + [] == relconfig;
  }

  lemma SplitShell(shells: seq<Entry<NonRelInfo>>, current: nat, choices: seq<seq<Entry<OrbitalInfo>>>)
    requires current < |shells| && choices == Choices(shells[current])
    ensures Product(choices[..|choices|], Expansions(shells[current + 1..])) == Expansions(shells[current..])
  {
    assert choices[..|choices|] == choices;
    assert shells[current..][1..] == shells[current + 1..];
  }

  /** One more choice for the current shell adds its continuations at the end. */
  lemma SplitStep(relconfig: seq<Entry<OrbitalInfo>>, choices: seq<seq<Entry<OrbitalInfo>>>, i: nat, rest: seq<seq<Entry<OrbitalInfo>>>)
    requires i < |choices|
    ensures Prefixed(relconfig, Product(choices[..i + 1], rest))
         == Prefixed(relconfig, Product(choices[..i], rest)) + Prefixed(relconfig + choices[i], rest)
  {
    assert choices[..i + 1] == choices[..i] + [choices[i]];
    ProductSnoc(choices[..i], choices[i], rest);
    PrefixedConcat(relconfig, Product(choices[..i], rest), Prefixed(choices[i], rest));
    PrefixedPrefixed(relconfig, choices[i], rest);
  }

  lemma AppendStep(start: seq<RelativisticConfiguration>, before: seq<RelativisticConfiguration>, after: seq<RelativisticConfiguration>,
                   done: seq<seq<Entry<OrbitalInfo>>>, added: seq<seq<Entry<OrbitalInfo>>>)
    requires before == start + AsConfigs(done)
    requires after == before + AsConfigs(added)
    ensures after == start + AsConfigs(done + added)
  {
    AsConfigsConcat(done, added);
    Extend(start, before, after, AsConfigs(done), AsConfigs(added), AsConfigs(done + added));
  }

  /** GenerateRelativisticConfigs: fills relconfiglist with the split and returns that same list. */
  method GenerateRelativisticConfigs(c: NonRelConfiguration) returns (r: NonRelConfiguration, rlist: seq<RelativisticConfiguration>)
    ensures r.shells == c.shells && r.relconfiglist == Some(rlist)
    ensures rlist == AsConfigs(Expansions(c.shells))
  {
    var list := new SortedList<RelativisticConfiguration>();
    SplitNonRelInfo(c.shells, 0, [], list);
    assert c.shells[0..] == c.shells;
    PrefixedPrefixed([], [], Expansions(c.shells));
    PrefixedIdentity(Expansions(c.shells));
    rlist := list.items;
    r := c.(relconfiglist := Some(rlist));
  }

  lemma {:induction false} PrefixedIdentity(es: seq<seq<Entry<OrbitalInfo>>>)
    ensures Prefixed([], es) == es
  {
    if es != [] {
      PrefixedIdentity(es[1..]);
      assert [] + es[0] == es[0];
      assert es == [es[0]] + es[1..];
    }
  }

  /**
    What GenerateRelativisticConfigs promises about each configuration in relconfiglist: it is a
    relativistic occupation map that collapses back to this configuration, with the same electron
    number and parity, and within capacity when the configuration is.
   */
  lemma RelConfigListSpec(c: NonRelConfiguration, rlist: seq<RelativisticConfiguration>, r: RelativisticConfiguration)
    requires rlist == AsConfigs(Expansions(c.shells)) && r in rlist
    ensures IsOccupationMap(r.orbitals, OrbitalInfoLess)
    ensures Collapse(r.orbitals) == c.shells
    ensures RelElectronNumber(r) == ConfigElectronNumber(c)
    ensures RelParity(r) == ConfigParity(c)
    ensures WithinCapacity(c.shells) ==> RelWithinCapacity(r.orbitals)
  {
    var i :| 0 <= i < |rlist| && rlist[i] == r;
    var e := Expansions(c.shells)[i];
    assert e in Expansions(c.shells) && r.orbitals == e;
    ExpansionIsMap(c.shells, e);
    ExpansionsCollapse(c.shells, e);
    ExpansionConserves(c.shells, e);
    if WithinCapacity(c.shells) {
      ExpansionWithinCapacity(c.shells, e);
    }
  }

  /** The non-relativistic configurations of the relativistic ones, in order. */
  function CollapseAll(rlist: seq<RelativisticConfiguration>): (r: seq<NonRelConfiguration>)
    ensures |r| == |rlist|
  {
    if rlist == [] then [] else [NonRelConfiguration(Collapse(rlist[0].orbitals), None)] + CollapseAll(rlist[1..])
  }

  lemma {:induction false} CollapseAllAt(rlist: seq<RelativisticConfiguration>, i: int)
    requires 0 <= i < |rlist|
    ensures CollapseAll(rlist)[i] == NonRelConfiguration(Collapse(rlist[i].orbitals), None)
  {
    if i > 0 {
      CollapseAllAt(rlist[1..], i - 1);
    }
  }

  lemma {:induction false} CollapseAllMembers(rlist: seq<RelativisticConfiguration>, c: NonRelConfiguration)
    requires c in CollapseAll(rlist)
    ensures c.relconfiglist == None && exists i :: 0 <= i < |rlist| && c.shells == Collapse(rlist[i].orbitals)
  {
    if c != CollapseAll(rlist)[0] {
      CollapseAllMembers(rlist[1..], c);
      var i :| 0 <= i < |rlist[1..]| && c.shells == Collapse(rlist[1..][i].orbitals);
      assert rlist[1..][i] == rlist[i + 1];
    }
  }

  lemma {:induction false} CollapseAllSnoc(rlist: seq<RelativisticConfiguration>, r: RelativisticConfiguration)
    ensures CollapseAll(rlist + [r]) == CollapseAll(rlist) + [NonRelConfiguration(Collapse(r.orbitals), None)]
  {
    if rlist == [] {
      assert rlist + [r] == [r];
    } else {
      assert (rlist + [r])[1..] == rlist[1..] + [r];
      CollapseAllSnoc(rlist[1..], r);
    }
  }

  /** ConfigList(const RelativisticConfigList&): the unique list of the configurations the relativistic ones belong to. */
  method ConfigListFromRelativistic(rlist: seq<RelativisticConfiguration>) returns (list: SortedList<NonRelConfiguration>)
    ensures fresh(list)
    ensures list.items == SortUnique(CollapseAll(rlist), ConfigLess)
  {
    list := new SortedList<NonRelConfiguration>();
    for i := 0 to |rlist|
      invariant list.items == CollapseAll(rlist[..i])
    {
      list.Add(NonRelConfiguration(Collapse(rlist[i].orbitals), None));
      assert rlist[..i + 1] == rlist[..i] + [rlist[i]];
      CollapseAllSnoc(rlist[..i], rlist[i]);
    }
    assert rlist[..|rlist|] == rlist;
    list.Unique(ConfigLess);
  }

  /**
    The list built from a relativistic list is sorted, free of repeats, and holds exactly the
    configurations of the relativistic ones.
   */
  lemma ConfigListFromRelativisticSpec(rlist: seq<RelativisticConfiguration>)
    ensures StrictlySorted(SortUnique(CollapseAll(rlist), ConfigLess), ConfigLess)
    ensures forall c :: c in SortUnique(CollapseAll(rlist), ConfigLess) ==>
      c.relconfiglist == None && exists i :: 0 <= i < |rlist| && c.shells == Collapse(rlist[i].orbitals)
    ensures forall i :: 0 <= i < |rlist| ==>
      NonRelConfiguration(Collapse(rlist[i].orbitals), None) in SortUnique(CollapseAll(rlist), ConfigLess)
  {
    var all := CollapseAll(rlist);
    var u := SortUnique(all, ConfigLess);
    UniqueConfigs(all);
    forall c | c in u ensures c.relconfiglist == None && exists i :: 0 <= i < |rlist| && c.shells == Collapse(rlist[i].orbitals) {
      CollapseAllMembers(rlist, c);
    }
    forall i | 0 <= i < |rlist| ensures NonRelConfiguration(Collapse(rlist[i].orbitals), None) in u {
      CollapseAllAt(rlist, i);
      assert all[i] in all;
      var y :| y in u && ConfigEq(all[i], y);
      CollapseAllMembers(rlist, y);
    }
  }

  /** unique() on a ConfigList: sorted, drawn from the list, and every entry's occupation map kept. */
  lemma UniqueConfigs(s: seq<NonRelConfiguration>)
    ensures StrictlySorted(SortUnique(s, ConfigLess), ConfigLess)
    ensures forall y :: y in SortUnique(s, ConfigLess) ==> y in s
    ensures forall x :: x in s ==> exists y :: y in SortUnique(s, ConfigLess) && ConfigEq(x, y)
  {
    ConfigOrder();
    SortUniqueCorrect(s, ConfigLess);
    forall x | x in s ensures exists y :: y in SortUnique(s, ConfigLess) && ConfigEq(x, y) {
      var y :| y in SortUnique(s, ConfigLess) && Equivalent(ConfigLess, x, y);
      ConfigEquivalence(x, y);
    }
  }
}
