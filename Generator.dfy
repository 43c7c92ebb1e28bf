/**
  ConfigGenerator: reads the excitation depths and the leading configurations, closes the
  leading configurations under excitation, splits them into relativistic configurations and
  filters those by symmetry, projections and CSFs.

  What the surrounding program supplies is taken as given: the user input (UserInput), the
  orbital sets of the orbital manager, and the angular-momentum algebra (Angular).
 */
module Generator {
  import opened Wrappers
  import opened SortedLists
  import opened Orbitals
  import opened Occupations
  import opened RelConfigs
  import opened NonRelConfigs
  import opened Excitations

  /**
    How one excitation depth was given: the number of entries, the first entry read as an
    integer, and for step k the shell ceilings that ParseBasisSize reads from entry 2k + 1.
   */
  datatype ExcitationInput = ExcitationInput(count: int, first: int, basisLimits: nat -> seq<int>)

  /** The configuration input: both excitation depths, the leading and the extra configurations. */
  datatype UserInput = UserInput(
    electronExcitations: ExcitationInput,
    holeExcitations: ExcitationInput,
    leading: seq<NonRelConfiguration>,
    extra: seq<NonRelConfiguration>)

  /** The usage errors after which the program exits. */
  datatype UsageError =
    | ElectronExcitationsMalformed
    | HoleExcitationsMalformed
    | LeadingConfigurationElectrons(index: nat)
    | ExtraConfigurationElectrons(index: nat)

  /** A number of excitation steps and the number of inputs it was read from (1 when none were given). */
  datatype Depth = Depth(steps: int, inputs: int)

  /**
    No input gives the default depth, one non-negative value gives that depth, inputs in pairs
    (depth, basis) give one step per pair; anything else is a usage error.
   */
  function ParseDepth(input: ExcitationInput, default: int): (r: Option<Depth>)
    ensures default >= 0 && r.Some? ==> r.value.steps >= 0
  {
    if input.count < 1 then Some(Depth(default, 1))
    else if input.count == 1 && input.first >= 0 then Some(Depth(input.first, 1))
    else if input.count % 2 == 0 then Some(Depth(input.count / 2, input.count))
    else None
  }

  /** The depth is read exactly when the input is empty, one non-negative value, or pairs; basis limits apply exactly for pairs. */
  lemma ParseDepthSpec(input: ExcitationInput, default: int)
    requires default >= 0
    ensures ParseDepth(input, default).Some? <==>
      input.count < 1 || (input.count == 1 && input.first >= 0) || (input.count >= 2 && input.count % 2 == 0)
    ensures input.count < 1 ==> ParseDepth(input, default) == Some(Depth(default, 1))
    ensures ParseDepth(input, default).Some? ==>
      && ParseDepth(input, default).value.steps >= 0
      && (ParseDepth(input, default).value.inputs > 1 <==> input.count >= 2)
      && (input.count >= 2 ==> ParseDepth(input, default).value.inputs == 2 * ParseDepth(input, default).value.steps)
  {
  }

  function Max(a: int, b: int): int {
    if a < b then b else a
  }

  /** The index of the first configuration whose electron number is not `n`, or |s| if there is none. */
  function FirstOff(s: seq<NonRelConfiguration>, n: int): (r: nat)
    ensures r <= |s|
    ensures forall i :: 0 <= i < r ==> ConfigElectronNumber(s[i]) == n
    ensures r < |s| ==> ConfigElectronNumber(s[r]) != n
  {
    if s == [] then 0
    else if ConfigElectronNumber(s[0]) != n then 0
    else 1 + FirstOff(s[1..], n)
  }

  /** The electron number of the first leading configuration, 0 when there is none. */
  function ValenceElectrons(leading: seq<NonRelConfiguration>): int {
    if leading == [] then 0 else ConfigElectronNumber(leading[0])
  }

  /** FirstOff is the index of the first mismatch: every entry before `i` matching, and `i` the end or a mismatch, pins it to `i`. */
  lemma {:induction false} FirstOffAt(s: seq<NonRelConfiguration>, n: int, i: nat)
    requires i <= |s|
    requires forall j :: 0 <= j < i ==> ConfigElectronNumber(s[j]) == n
    requires i < |s| ==> ConfigElectronNumber(s[i]) != n
    ensures FirstOff(s, n) == i
  {
    if i > 0 {
      assert ConfigElectronNumber(s[0]) == n;
      assert forall j :: 0 <= j < i - 1 ==> s[1..][j] == s[j + 1];
      FirstOffAt(s[1..], n, i - 1);
    }
  }

  /** The leading configurations, with the vacuum added when they hold no electrons. */
  function LeadingList(leading: seq<NonRelConfiguration>): seq<NonRelConfiguration> {
    leading + (if ValenceElectrons(leading) == 0 then [Vacuum] else [])
  }

  /** Where one kind of excitation target comes from: its depth, its orbitals and its basis limits. */
  datatype Targets = Targets(depth: Depth, orbitals: seq<OrbitalInfo>, basisLimits: nat -> seq<int>)

  /** The shells of a set of orbitals, as the NonRelInfoSet of their NonRelInfo conversions. */
  function ShellsOf(orbitals: seq<OrbitalInfo>): seq<NonRelInfo> {
    if orbitals == [] then []
    else InsertUnique(ShellsOf(orbitals[..|orbitals| - 1]), NonRelOf(orbitals[|orbitals| - 1]), NonRelInfoLess)
  }

  /** A shell is in the basis when limits has an entry for its l and its n does not exceed it. */
  function InBasis(limits: seq<int>): NonRelInfo -> bool {
    (info: NonRelInfo) => info.l < |limits| && info.pqn <= limits[info.l]
  }

  /** The targets of step `step`: none past the depth, otherwise every shell, kept to the basis when pairs were given. */
  function StepTargets(t: Targets, step: nat): seq<NonRelInfo> {
    if step < t.depth.steps then
      if t.depth.inputs > 1 then Filter(ShellsOf(t.orbitals), InBasis(t.basisLimits(step))) else ShellsOf(t.orbitals)
    else []
  }

  /** The electron and hole targets of one excitation step. */
  datatype StepShells = StepShells(electrons: seq<NonRelInfo>, holes: seq<NonRelInfo>)

  /** The targets of every step, from the electron and hole inputs. */
  function Plan(electrons: Targets, holes: Targets): nat -> StepShells {
    (step: nat) => StepShells(StepTargets(electrons, step), StepTargets(holes, step))
  }

  /** `k` excitation steps applied to a list, step `i` with the targets plan(i). */
  function Excite(list: seq<NonRelConfiguration>, k: nat, plan: nat -> StepShells): seq<NonRelConfiguration> {
    if k == 0 then list
    else ExcitationStep(Excite(list, k - 1, plan), plan(k - 1).electrons, plan(k - 1).holes)
  }

  /** The list GenerateNonRelConfigurations returns, or the usage error it stops with. */
  function NonRelConfigurations(input: UserInput, particles: seq<OrbitalInfo>, holes: seq<OrbitalInfo>): Result<seq<NonRelConfiguration>, UsageError> {
    var electronDepth := ParseDepth(input.electronExcitations, 2);
    var holeDepth := ParseDepth(input.holeExcitations, 0);
    var n := ValenceElectrons(input.leading);
    if electronDepth.None? then Failure(ElectronExcitationsMalformed)
    else if holeDepth.None? then Failure(HoleExcitationsMalformed)
    else if FirstOff(input.leading, n) < |input.leading| then Failure(LeadingConfigurationElectrons(FirstOff(input.leading, n)))
    else
      var excited := Excite(LeadingList(input.leading), Max(electronDepth.value.steps, holeDepth.value.steps),
        Plan(Targets(electronDepth.value, particles, input.electronExcitations.basisLimits),
             Targets(holeDepth.value, holes, input.holeExcitations.basisLimits)));
      if FirstOff(input.extra, n) < |input.extra| then Failure(ExtraConfigurationElectrons(FirstOff(input.extra, n)))
      else Success(SortUnique(excited + input.extra, ConfigLess))
  }

  /** The shell set is sorted and holds exactly the shells of the orbitals. */
  lemma {:induction false} ShellsOfSpec(orbitals: seq<OrbitalInfo>)
    ensures StrictlySorted(ShellsOf(orbitals), NonRelInfoLess)
    ensures forall x :: x in ShellsOf(orbitals) <==> exists i :: 0 <= i < |orbitals| && NonRelOf(orbitals[i]) == x
  {
    if orbitals != [] {
      var init := orbitals[..|orbitals| - 1];
      var last := NonRelOf(orbitals[|orbitals| - 1]);
      ShellsOfSpec(init);
      NonRelInfoOrder();
      InsertUniqueCorrect(ShellsOf(init), last, NonRelInfoLess);
      forall x | x in ShellsOf(orbitals) ensures exists i :: 0 <= i < |orbitals| && NonRelOf(orbitals[i]) == x {
        if x != last {
          var i :| 0 <= i < |init| && NonRelOf(init[i]) == x;
          assert orbitals[i] == init[i];
        }
      }
      forall i | 0 <= i < |orbitals| ensures NonRelOf(orbitals[i]) in ShellsOf(orbitals) {
        if i < |init| {
          assert init[i] == orbitals[i];
        }
      }
    }
  }

  /** The targets of a step are sorted shells of the orbitals; none past the depth, and only shells within the basis when pairs were given. */
  lemma StepTargetsSpec(t: Targets, step: nat)
    ensures StrictlySorted(StepTargets(t, step), NonRelInfoLess)
    ensures forall x :: x in StepTargets(t, step) <==>
      && step < t.depth.steps
      && (exists i :: 0 <= i < |t.orbitals| && NonRelOf(t.orbitals[i]) == x)
      && (t.depth.inputs > 1 ==> x.l < |t.basisLimits(step)| && x.pqn <= t.basisLimits(step)[x.l])
  {
    ShellsOfSpec(t.orbitals);
    FilterMembership(ShellsOf(t.orbitals), InBasis(t.basisLimits(step)));
    FilterKeepsOrder(ShellsOf(t.orbitals), InBasis(t.basisLimits(step)), NonRelInfoLess);
  }

  /**
    `after` holds a configuration equal to each one of `list`, and keeps an electron number `n`
    and the shell capacities when all of `list` has them.
   */
  predicate Keeps(list: seq<NonRelConfiguration>, after: seq<NonRelConfiguration>, n: int) {
    && (forall c :: c in list ==> exists y :: y in after && ConfigEq(c, y))
    && ((forall c :: c in list ==> ConfigElectronNumber(c) == n) ==> forall y :: y in after ==> ConfigElectronNumber(y) == n)
    && ((forall c :: c in list ==> WithinCapacity(c.shells)) ==> forall y :: y in after ==> WithinCapacity(y.shells))
  }

  /** Keeping is transitive: two steps that each keep what came before them keep the start. */
  lemma KeepsTransitive(list: seq<NonRelConfiguration>, before: seq<NonRelConfiguration>, after: seq<NonRelConfiguration>, n: int)
    requires Keeps(list, before, n) && Keeps(before, after, n)
    ensures Keeps(list, after, n)
  {
    forall c | c in list ensures exists y :: y in after && ConfigEq(c, y) {
      var x :| x in before && ConfigEq(c, x);
      var y :| y in after && ConfigEq(x, y);
    }
  }

  /** Along a chain of lists from index `i` where each keeps the one before it, the last keeps the one at `i`. */
  lemma {:induction false} KeepsFrom(lists: nat -> seq<NonRelConfiguration>, i: nat, k: nat, n: int)
    requires i <= k
    requires forall j: nat :: i < j <= k ==> Keeps(lists(j - 1), lists(j), n)
    ensures Keeps(lists(i), lists(k), n)
  {
    if k == i {
      forall c | c in lists(i) ensures exists y :: y in lists(i) && ConfigEq(c, y) {
        assert ConfigEq(c, c);
      }
    } else {
      KeepsFrom(lists, i, k - 1, n);
      KeepsTransitive(lists(i), lists(k - 1), lists(k), n);
    }
  }

  /**
    After one or more steps the list is sorted without repeats; every starting configuration is
    still there, and an electron number or capacity bound that all of them share holds for all.
   */
  lemma ExciteSpec(list: seq<NonRelConfiguration>, k: nat, plan: nat -> StepShells, n: int)
    ensures k > 0 ==> StrictlySorted(Excite(list, k, plan), ConfigLess)
    ensures Keeps(list, Excite(list, k, plan), n)
  {
    var lists := (i: nat) => Excite(list, i, plan);
    forall i: nat | 0 < i <= k ensures Keeps(Excite(list, i - 1, plan), Excite(list, i, plan), n) {
      ExciteOneStep(list, i, plan, n);
    }
    assert forall i: nat :: 0 < i <= k ==> Keeps(lists(i - 1), lists(i), n);
    KeepsFrom(lists, 0, k, n);
    if k > 0 {
      ExciteOneStep(list, k, plan, n);
    }
  }

  /** Step `i` sorts the list and keeps the list before it. */
  lemma ExciteOneStep(list: seq<NonRelConfiguration>, i: nat, plan: nat -> StepShells, n: int)
    requires 0 < i
    ensures StrictlySorted(Excite(list, i, plan), ConfigLess)
    ensures Keeps(Excite(list, i - 1, plan), Excite(list, i, plan), n)
  {
    var before := Excite(list, i - 1, plan);
    var after := ExcitationStep(before, plan(i - 1).electrons, plan(i - 1).holes);
    ExcitationStepSpec(before, plan(i - 1).electrons, plan(i - 1).holes, n);
    assert Keeps(before, after, n);
    assert Excite(list, i, plan) == after;
  }

  /** A later step keeps what an earlier one left. */
  lemma ExciteKeepsLater(list: seq<NonRelConfiguration>, i: nat, k: nat, plan: nat -> StepShells, n: int)
    requires i <= k
    ensures Keeps(Excite(list, i, plan), Excite(list, k, plan), n)
  {
    var lists := (j: nat) => Excite(list, j, plan);
    forall j: nat | i < j <= k ensures Keeps(Excite(list, j - 1, plan), Excite(list, j, plan), n) {
      ExciteOneStep(list, j, plan, n);
    }
    assert forall j: nat :: i < j <= k ==> Keeps(lists(j - 1), lists(j), n);
    KeepsFrom(lists, i, k, n);
  }

  /**
    The steps close the list: every candidate that step `i` derives from a configuration present
    before it, with that step's targets, is still in the list after any later number of steps.
   */
  lemma ExciteCloses(list: seq<NonRelConfiguration>, i: nat, k: nat, plan: nat -> StepShells)
    requires i < k
    ensures forall c, x :: c in Excite(list, i, plan) && x in Candidates(c, plan(i).electrons, plan(i).holes) ==>
      exists y :: y in Excite(list, k, plan) && ConfigEq(x, y)
  {
    var before := Excite(list, i, plan);
    var after := Excite(list, i + 1, plan);
    assert after == ExcitationStep(before, plan(i).electrons, plan(i).holes);
    ExcitationStepAdds(before, plan(i).electrons, plan(i).holes);
    ExciteKeepsLater(list, i + 1, k, plan, 0);
    forall c, x | c in before && x in Candidates(c, plan(i).electrons, plan(i).holes)
      ensures exists y :: y in Excite(list, k, plan) && ConfigEq(x, y)
    {
      var z :| z in after && ConfigEq(x, z);
      var y :| y in Excite(list, k, plan) && ConfigEq(z, y);
    }
  }

  /** GenerateNonRelConfigurations fails exactly on a malformed depth or a configuration with the wrong electron number. */
  lemma NonRelConfigurationsFailure(input: UserInput, particles: seq<OrbitalInfo>, holes: seq<OrbitalInfo>)
    ensures NonRelConfigurations(input, particles, holes).Failure? <==>
      || ParseDepth(input.electronExcitations, 2).None?
      || ParseDepth(input.holeExcitations, 0).None?
      || (exists i :: 0 <= i < |input.leading| && ConfigElectronNumber(input.leading[i]) != ValenceElectrons(input.leading))
      || (exists i :: 0 <= i < |input.extra| && ConfigElectronNumber(input.extra[i]) != ValenceElectrons(input.leading))
  {
    var n := ValenceElectrons(input.leading);
    if FirstOff(input.leading, n) < |input.leading| {
      assert ConfigElectronNumber(input.leading[FirstOff(input.leading, n)]) != n;
    }
    if FirstOff(input.extra, n) < |input.extra| {
      assert ConfigElectronNumber(input.extra[FirstOff(input.extra, n)]) != n;
    }
  }

  /**
    Sorting the excited list together with the extra configurations keeps every configuration the
    excited list stood for, and every extra one, and keeps a shared electron number and capacity.
   */
  lemma {:induction false} WithExtraConfigurations(start: seq<NonRelConfiguration>, excited: seq<NonRelConfiguration>, extra: seq<NonRelConfiguration>)
    requires forall c :: c in start ==> exists y :: y in excited && ConfigEq(c, y)
    ensures var r := SortUnique(excited + extra, ConfigLess);
      && StrictlySorted(r, ConfigLess)
      && (forall c :: c in start + extra ==> exists y :: y in r && ConfigEq(c, y))
      && (forall y :: y in r ==> y in excited || y in extra)
  {
    var r := SortUnique(excited + extra, ConfigLess);
    UniqueConfigs(excited + extra);
    forall c | c in start + extra ensures exists y :: y in r && ConfigEq(c, y) {
      if c in start {
        var x :| x in excited && ConfigEq(c, x);
        assert x in excited + extra;
        var y :| y in r && ConfigEq(x, y);
      } else {
        assert c in excited + extra;
      }
    }
  }

  /**
    On success the list is sorted without repeats and holds every leading and extra configuration,
    all with the leading electron number, all within capacity when the input configurations are.
   */
  lemma NonRelConfigurationsSuccess(input: UserInput, particles: seq<OrbitalInfo>, holes: seq<OrbitalInfo>)
    ensures var r := NonRelConfigurations(input, particles, holes);
      r.Success? ==>
        && StrictlySorted(r.value, ConfigLess)
        && (forall c :: c in LeadingList(input.leading) + input.extra ==> exists y :: y in r.value && ConfigEq(c, y))
        && (forall y :: y in r.value ==> ConfigElectronNumber(y) == ValenceElectrons(input.leading))
        && ((forall c :: c in input.leading + input.extra ==> WithinCapacity(c.shells)) ==>
              forall y :: y in r.value ==> WithinCapacity(y.shells))
  {
    var n := ValenceElectrons(input.leading);
    NonRelConfigurationsShape(input, particles, holes);
    if NonRelConfigurations(input, particles, holes).Success? {
      var e, h := ParseDepth(input.electronExcitations, 2).value, ParseDepth(input.holeExcitations, 0).value;
      var start := LeadingList(input.leading);
      var steps := Max(e.steps, h.steps);
      var et := Targets(e, particles, input.electronExcitations.basisLimits);
      var ht := Targets(h, holes, input.holeExcitations.basisLimits);
      var excited := Excite(start, steps, Plan(et, ht));
      ExciteSpec(start, steps, Plan(et, ht), n);
      WithExtraConfigurations(start, excited, input.extra);
      LeadingListShared(input.leading, input.extra);
    }
  }

  /**
    On success the list is closed under the excitation steps: every candidate that step i derives
    from a configuration present before it, with that step's targets, is in the list. With no
    steps at all it is just the leading and extra configurations, sorted without repeats.
   */
  lemma NonRelConfigurationsClosed(input: UserInput, particles: seq<OrbitalInfo>, holes: seq<OrbitalInfo>)
    ensures var r := NonRelConfigurations(input, particles, holes);
      r.Success? ==>
        && ParseDepth(input.electronExcitations, 2).Some? && ParseDepth(input.holeExcitations, 0).Some?
        && var e, h := ParseDepth(input.electronExcitations, 2).value, ParseDepth(input.holeExcitations, 0).value;
           var plan := Plan(Targets(e, particles, input.electronExcitations.basisLimits), Targets(h, holes, input.holeExcitations.basisLimits));
           && (forall i: nat, c, x ::
                 (i < Max(e.steps, h.steps) && c in Excite(LeadingList(input.leading), i, plan) && x in Candidates(c, plan(i).electrons, plan(i).holes))
                 ==> exists y :: y in r.value && ConfigEq(x, y))
           && (Max(e.steps, h.steps) == 0 ==> r.value == SortUnique(LeadingList(input.leading) + input.extra, ConfigLess))
  {
    NonRelConfigurationsShape(input, particles, holes);
    if NonRelConfigurations(input, particles, holes).Success? {
      var e, h := ParseDepth(input.electronExcitations, 2).value, ParseDepth(input.holeExcitations, 0).value;
      var plan := Plan(Targets(e, particles, input.electronExcitations.basisLimits), Targets(h, holes, input.holeExcitations.basisLimits));
      ExciteUniqueCloses(LeadingList(input.leading), Max(e.steps, h.steps), plan, input.extra);
    }
  }

  /** A successful result is the excited leading list with the extra configurations, sorted without repeats. */
  lemma NonRelConfigurationsShape(input: UserInput, particles: seq<OrbitalInfo>, holes: seq<OrbitalInfo>)
    ensures var r := NonRelConfigurations(input, particles, holes);
      r.Success? ==>
        && ParseDepth(input.electronExcitations, 2).Some? && ParseDepth(input.holeExcitations, 0).Some?
        && var e, h := ParseDepth(input.electronExcitations, 2).value, ParseDepth(input.holeExcitations, 0).value;
           var plan := Plan(Targets(e, particles, input.electronExcitations.basisLimits), Targets(h, holes, input.holeExcitations.basisLimits));
           r.value == SortUnique(Excite(LeadingList(input.leading), Max(e.steps, h.steps), plan) + input.extra, ConfigLess)
  {
  }

  /** Adding more configurations and calling `unique()` keeps the closure of the excitation steps; with no steps only the start list is added. */
  lemma ExciteUniqueCloses(start: seq<NonRelConfiguration>, steps: nat, plan: nat -> StepShells, extra: seq<NonRelConfiguration>)
    ensures forall i: nat, c, x ::
      (i < steps && c in Excite(start, i, plan) && x in Candidates(c, plan(i).electrons, plan(i).holes))
      ==> exists y :: y in SortUnique(Excite(start, steps, plan) + extra, ConfigLess) && ConfigEq(x, y)
    ensures steps == 0 ==> SortUnique(Excite(start, steps, plan) + extra, ConfigLess) == SortUnique(start + extra, ConfigLess)
  {
    forall i: nat, c, x | i < steps && c in Excite(start, i, plan) && x in Candidates(c, plan(i).electrons, plan(i).holes)
      ensures exists y :: y in SortUnique(Excite(start, steps, plan) + extra, ConfigLess) && ConfigEq(x, y)
    {
      ExciteCloses(start, i, steps, plan);
      UniqueKeepsEqual(Excite(start, steps, plan), extra, x);
    }
  }

  /** A configuration whose occupation map the first list holds keeps an equal one through concatenation and `unique()`. */
  lemma UniqueKeepsEqual(list: seq<NonRelConfiguration>, extra: seq<NonRelConfiguration>, x: NonRelConfiguration)
    requires exists z :: z in list && ConfigEq(x, z)
    ensures exists y :: y in SortUnique(list + extra, ConfigLess) && ConfigEq(x, y)
  {
    var z :| z in list && ConfigEq(x, z);
    assert z in list + extra;
    UniqueConfigs(list + extra);
    var y :| y in SortUnique(list + extra, ConfigLess) && ConfigEq(z, y);
  }

  /** The leading list, vacuum included, shares the leading electron number, and capacity when the input configurations are within it. */
  lemma LeadingListShared(leading: seq<NonRelConfiguration>, extra: seq<NonRelConfiguration>)
    requires FirstOff(leading, ValenceElectrons(leading)) == |leading|
    ensures forall c :: c in LeadingList(leading) ==> ConfigElectronNumber(c) == ValenceElectrons(leading)
    ensures (forall c :: c in leading + extra ==> WithinCapacity(c.shells)) ==>
      forall c :: c in LeadingList(leading) ==> WithinCapacity(c.shells)
  {
    forall c | c in LeadingList(leading) ensures ConfigElectronNumber(c) == ValenceElectrons(leading) {
      if c !in leading {
        assert c == Vacuum;
      } else {
        var i :| 0 <= i < |leading| && leading[i] == c;
      }
    }
    if forall c :: c in leading + extra ==> WithinCapacity(c.shells) {
      forall c | c in LeadingList(leading) ensures WithinCapacity(c.shells) {
        if c in leading {
          assert c in leading + extra;
        }
      }
    }
  }

  /** One pass of the angular-data directory: a library read, CSF generation or write for a library key. */
  datatype LibraryKey = LibraryKey(electrons: int, sym: Symmetry, twoM: int)

  datatype LibraryEvent = ReadLibrary(key: LibraryKey) | GenerateLibraryCSFs(key: LibraryKey) | WriteLibrary(key: LibraryKey)

  /** The passes of one GenerateProjections call over a non-empty list: read, generate CSFs, write. */
  function ProjectionEvents(key: LibraryKey): seq<LibraryEvent> {
    [ReadLibrary(key), GenerateLibraryCSFs(key), WriteLibrary(key)]
  }

  /**
    The angular-momentum algebra: the twice-maximum projections of both kinds of configuration,
    the projection count the FewestProjectionsFirst comparator sorts by, whether GetProjections
    succeeds against a library, and NumCSFs after the library generated its CSFs.
   */
  datatype Angular = Angular(
    twiceMaxProjection: seq<Entry<NonRelInfo>> -> int,
    relTwiceMaxProjection: seq<Entry<OrbitalInfo>> -> int,
    numProjections: seq<Entry<OrbitalInfo>> -> nat,
    getProjections: (RelativisticConfiguration, LibraryKey) -> bool,
    numCSFs: (RelativisticConfiguration, LibraryKey) -> nat)

  /** The persistent angular-data directory, seen through the passes made on it. */
  class AngularDataStore {
    var events: seq<LibraryEvent>

    constructor ()
      ensures events == []
    {
      events := [];
    }

    method Record(e: LibraryEvent)
      modifies this
      ensures events == old(events) + [e]
    {
      events := events + [e];
    }
  }

  /** FewestProjectionsFirstComparator: fewer projections first, then the configuration order. */
  function FewestProjectionsFirst(alg: Angular): (RelativisticConfiguration, RelativisticConfiguration) -> bool {
    (a: RelativisticConfiguration, b: RelativisticConfiguration) =>
      || alg.numProjections(a.orbitals) < alg.numProjections(b.orbitals)
      || (alg.numProjections(a.orbitals) == alg.numProjections(b.orbitals) && RelLess(a, b))
  }

  lemma FewestProjectionsFirstOrder(alg: Angular)
    ensures StrictTotalOrder(FewestProjectionsFirst(alg))
  {
    OrbitalMapOrder();
    var less := FewestProjectionsFirst(alg);
    forall a: RelativisticConfiguration ensures !less(a, a) {
      assert !OrbitalMapLess(a.orbitals, a.orbitals);
      assert less(a, a) == (alg.numProjections(a.orbitals) < alg.numProjections(a.orbitals) || RelLess(a, a));
    }
    forall a: RelativisticConfiguration, b: RelativisticConfiguration, c: RelativisticConfiguration | less(a, b) && less(b, c)
      ensures less(a, c)
    {
      if RelLess(a, b) && RelLess(b, c) {
        assert OrbitalMapLess(a.orbitals, c.orbitals);
      }
    }
    forall a: RelativisticConfiguration, b: RelativisticConfiguration | a != b ensures less(a, b) || less(b, a) {
      assert a.orbitals != b.orbitals;
      assert RelLess(a, b) || RelLess(b, a);
      assert less(a, b) == (alg.numProjections(a.orbitals) < alg.numProjections(b.orbitals)
        || (alg.numProjections(a.orbitals) == alg.numProjections(b.orbitals) && RelLess(a, b)));
      assert less(b, a) == (alg.numProjections(b.orbitals) < alg.numProjections(a.orbitals)
        || (alg.numProjections(b.orbitals) == alg.numProjections(a.orbitals) && RelLess(b, a)));
    }
  }

  function AnyConfig(): NonRelConfiguration -> bool {
    (c: NonRelConfiguration) => true
  }

  /** The right parity, and room for the total angular momentum. */
  function HasSymmetryRoom(sym: Symmetry, alg: Angular): NonRelConfiguration -> bool {
    (c: NonRelConfiguration) => ConfigParity(c) == sym.parity && sym.twoJ <= alg.twiceMaxProjection(c.shells)
  }

  function HasParity(parity: Parity): NonRelConfiguration -> bool {
    (c: NonRelConfiguration) => ConfigParity(c) == parity
  }

  /** A configuration that `select` accepts, with its relconfiglist generated. */
  function Expanded(c: NonRelConfiguration, select: NonRelConfiguration -> bool): NonRelConfiguration {
    if select(c) then c.(relconfiglist := Some(AsConfigs(Expansions(c.shells)))) else c
  }

  /** For each configuration, the relativistic configurations appended for it. */
  function ExpansionParts(list: seq<NonRelConfiguration>, select: NonRelConfiguration -> bool): (r: seq<seq<RelativisticConfiguration>>)
    ensures |r| == |list|
  {
    if list == [] then []
    else
      var c := list[|list| - 1];
      ExpansionParts(list[..|list| - 1], select) + [if select(c) then AsConfigs(Expansions(c.shells)) else []]
  }

  lemma {:induction false} ExpansionPartsAt(list: seq<NonRelConfiguration>, select: NonRelConfiguration -> bool, k: nat)
    requires k < |list|
    ensures ExpansionParts(list, select)[k] == if select(list[k]) then AsConfigs(Expansions(list[k].shells)) else []
  {
    if k < |list| - 1 {
      ExpansionPartsAt(list[..|list| - 1], select, k);
    }
  }

  /**
    The relativistic configurations appended for the selected configurations are exactly the
    splits of those configurations, each with the electron number and parity of its own.
   */
  lemma ExpansionsSpec(list: seq<NonRelConfiguration>, select: NonRelConfiguration -> bool)
    ensures forall r :: r in Flatten(ExpansionParts(list, select)) ==>
      exists i :: 0 <= i < |list| && select(list[i]) && Collapse(r.orbitals) == list[i].shells
        && RelElectronNumber(r) == ConfigElectronNumber(list[i]) && RelParity(r) == ConfigParity(list[i])
    ensures forall i, r :: 0 <= i < |list| && select(list[i]) && r in AsConfigs(Expansions(list[i].shells)) ==>
      r in Flatten(ExpansionParts(list, select))
  {
    var parts := ExpansionParts(list, select);
    forall r: RelativisticConfiguration | r in Flatten(parts)
      ensures exists i :: (0 <= i < |list| && select(list[i]) && Collapse(r.orbitals) == list[i].shells
        && RelElectronNumber(r) == ConfigElectronNumber(list[i]) && RelParity(r) == ConfigParity(list[i]))
    {
      FlattenMembers(parts, r);
      var i :| 0 <= i < |parts| && r in parts[i];
      ExpansionPartsAt(list, select, i);
      RelConfigListSpec(list[i], AsConfigs(Expansions(list[i].shells)), r);
    }
    forall i, r | 0 <= i < |list| && select(list[i]) && r in AsConfigs(Expansions(list[i].shells))
      ensures r in Flatten(parts)
    {
      ExpansionPartsAt(list, select, i);
      FlattenIncludes(parts, i, r);
    }
  }

  /** The list the unfiltered GenerateRelativisticConfigurations returns. */
  function RelativisticList(list: seq<NonRelConfiguration>, alg: Angular): seq<RelativisticConfiguration> {
    SortUnique(Flatten(ExpansionParts(list, AnyConfig())), FewestProjectionsFirst(alg))
  }

  /** It is sorted fewest projections first, holds every split of every configuration once, and nothing else. */
  lemma RelativisticListSpec(list: seq<NonRelConfiguration>, alg: Angular)
    ensures StrictlySorted(RelativisticList(list, alg), FewestProjectionsFirst(alg))
    ensures forall r :: r in RelativisticList(list, alg) ==>
      exists i :: 0 <= i < |list| && Collapse(r.orbitals) == list[i].shells
        && RelElectronNumber(r) == ConfigElectronNumber(list[i]) && RelParity(r) == ConfigParity(list[i])
    ensures forall i, r :: 0 <= i < |list| && r in AsConfigs(Expansions(list[i].shells)) ==> r in RelativisticList(list, alg)
  {
    var all := Flatten(ExpansionParts(list, AnyConfig()));
    var less := FewestProjectionsFirst(alg);
    FewestProjectionsFirstOrder(alg);
    SortUniqueCorrect(all, less);
    ExpansionsSpec(list, AnyConfig());
    forall i, r | 0 <= i < |list| && r in AsConfigs(Expansions(list[i].shells)) ensures r in RelativisticList(list, alg) {
      assert AnyConfig()(list[i]);
      assert r in all;
      var y :| y in RelativisticList(list, alg) && Equivalent(less, r, y);
    }
  }

  /** The library key of a relativistic list: the first configuration's electron number and parity. */
  function RelKey(front: RelativisticConfiguration, twoM: int, twoJ: int): LibraryKey {
    LibraryKey(RelElectronNumber(front), Symmetry(twoJ, RelParity(front)), twoM)
  }

  function HasProjections(alg: Angular, key: LibraryKey): RelativisticConfiguration -> bool {
    (r: RelativisticConfiguration) => alg.getProjections(r, key)
  }

  function HasCSFs(alg: Angular, key: LibraryKey): RelativisticConfiguration -> bool {
    (r: RelativisticConfiguration) => alg.numCSFs(r, key) >= 1
  }

  /** What GenerateProjections leaves of a relativistic list: those with projections, then those with CSFs. */
  function ProjectedRelList(rl: seq<RelativisticConfiguration>, twoM: int, twoJ: int, alg: Angular): seq<RelativisticConfiguration> {
    if rl == [] then []
    else
      var key := RelKey(rl[0], twoM, twoJ);
      Filter(Filter(rl, HasProjections(alg, key)), HasCSFs(alg, key))
  }

  /** The passes GenerateProjections makes for a relativistic list: none for an empty list. */
  function RelProjectionEvents(rl: seq<RelativisticConfiguration>, twoM: int, twoJ: int): seq<LibraryEvent> {
    if rl == [] then [] else ProjectionEvents(RelKey(rl[0], twoM, twoJ))
  }

  /**
    GenerateProjections only erases: every survivor was in the list, has projections and at
    least one CSF, the list does not grow, and an order the list was sorted in is kept.
   */
  lemma ProjectedRelListSpec(rl: seq<RelativisticConfiguration>, twoM: int, twoJ: int, alg: Angular, less: (RelativisticConfiguration, RelativisticConfiguration) -> bool)
    ensures |ProjectedRelList(rl, twoM, twoJ, alg)| <= |rl|
    ensures rl != [] ==> forall r :: r in ProjectedRelList(rl, twoM, twoJ, alg) <==>
      r in rl && alg.getProjections(r, RelKey(rl[0], twoM, twoJ)) && alg.numCSFs(r, RelKey(rl[0], twoM, twoJ)) >= 1
    ensures StrictlySorted(rl, less) ==> StrictlySorted(ProjectedRelList(rl, twoM, twoJ, alg), less)
  {
    if rl != [] {
      var key := RelKey(rl[0], twoM, twoJ);
      var projected := Filter(rl, HasProjections(alg, key));
      FilterMembership(rl, HasProjections(alg, key));
      FilterMembership(projected, HasCSFs(alg, key));
      if StrictlySorted(rl, less) {
        FilterKeepsOrder(rl, HasProjections(alg, key), less);
        FilterKeepsOrder(projected, HasCSFs(alg, key), less);
      }
    }
  }

  /** The relativistic configurations of the configurations with the right symmetry, filtered by GenerateProjections when asked. */
  function SymmetryRelList(list: seq<NonRelConfiguration>, sym: Symmetry, generateProjections: bool, alg: Angular): seq<RelativisticConfiguration> {
    var rl := Flatten(ExpansionParts(list, HasSymmetryRoom(sym, alg)));
    if generateProjections then ProjectedRelList(rl, sym.twoJ, sym.twoJ, alg) else rl
  }

  /** Only configurations of the target parity with room for twoJ are split, so every result has the target parity. */
  lemma SymmetryRelListSpec(list: seq<NonRelConfiguration>, sym: Symmetry, generateProjections: bool, alg: Angular)
    ensures forall r :: r in SymmetryRelList(list, sym, generateProjections, alg) ==>
      RelParity(r) == sym.parity &&
      exists i :: 0 <= i < |list| && ConfigParity(list[i]) == sym.parity && sym.twoJ <= alg.twiceMaxProjection(list[i].shells)
        && Collapse(r.orbitals) == list[i].shells && RelElectronNumber(r) == ConfigElectronNumber(list[i])
  {
    var rl := Flatten(ExpansionParts(list, HasSymmetryRoom(sym, alg)));
    ExpansionsSpec(list, HasSymmetryRoom(sym, alg));
    ProjectedRelListSpec(rl, sym.twoJ, sym.twoJ, alg, RelLess);
  }

  /** The relativistic list for a symmetry built from the generated configurations of that parity. */
  function SymmetryBaseList(list: seq<NonRelConfiguration>, sym: Symmetry, alg: Angular): seq<RelativisticConfiguration> {
    RelativisticList(SortUnique(Filter(list, HasParity(sym.parity)), ConfigLess), alg)
  }

  /** What GenerateRelativisticConfigurations(sym, generate_projections) returns, or the usage error it stops with. */
  function SymmetryConfigurations(input: UserInput, particles: seq<OrbitalInfo>, holes: seq<OrbitalInfo>, sym: Symmetry,
                                  generateProjections: bool, alg: Angular): Result<seq<RelativisticConfiguration>, UsageError> {
    match NonRelConfigurations(input, particles, holes)
    case Failure(e) => Failure(e)
    case Success(list) =>
      var rl := SymmetryBaseList(list, sym, alg);
      Success(if generateProjections then ProjectedRelList(rl, sym.twoJ, sym.twoJ, alg) else rl)
  }

  /** Every relativistic configuration for a symmetry has its parity and the leading electron number. */
  lemma SymmetryConfigurationsSpec(input: UserInput, particles: seq<OrbitalInfo>, holes: seq<OrbitalInfo>, sym: Symmetry,
                                   generateProjections: bool, alg: Angular)
    ensures var r := SymmetryConfigurations(input, particles, holes, sym, generateProjections, alg);
      && (r.Failure? <==> NonRelConfigurations(input, particles, holes).Failure?)
      && (r.Success? ==> forall x :: x in r.value ==>
            RelParity(x) == sym.parity && RelElectronNumber(x) == ValenceElectrons(input.leading))
  {
    var nr := NonRelConfigurations(input, particles, holes);
    NonRelConfigurationsSuccess(input, particles, holes);
    if nr.Success? {
      var kept := SortUnique(Filter(nr.value, HasParity(sym.parity)), ConfigLess);
      var rl := SymmetryBaseList(nr.value, sym, alg);
      FilterMembership(nr.value, HasParity(sym.parity));
      UniqueConfigs(Filter(nr.value, HasParity(sym.parity)));
      RelativisticListSpec(kept, alg);
      ProjectedRelListSpec(rl, sym.twoJ, sym.twoJ, alg, RelLess);
      forall x | x in rl ensures RelParity(x) == sym.parity && RelElectronNumber(x) == ValenceElectrons(input.leading) {
        var i :| 0 <= i < |kept| && Collapse(x.orbitals) == kept[i].shells
          && RelElectronNumber(x) == ConfigElectronNumber(kept[i]) && RelParity(x) == ConfigParity(kept[i]);
        assert kept[i] in kept;
      }
    }
  }

  /** Every split of every configuration of the target parity is in the symmetry's relativistic list. */
  lemma SymmetryBaseListComplete(list: seq<NonRelConfiguration>, sym: Symmetry, alg: Angular)
    ensures forall c, x :: c in list && ConfigParity(c) == sym.parity && x in AsConfigs(Expansions(c.shells)) ==>
      x in SymmetryBaseList(list, sym, alg)
  {
    forall c, x | c in list && ConfigParity(c) == sym.parity && x in AsConfigs(Expansions(c.shells))
      ensures x in SymmetryBaseList(list, sym, alg)
    {
      SymmetryBaseListHas(list, sym, alg, c, x);
    }
  }

  lemma SymmetryBaseListHas(list: seq<NonRelConfiguration>, sym: Symmetry, alg: Angular, c: NonRelConfiguration, x: RelativisticConfiguration)
    requires c in list && ConfigParity(c) == sym.parity && x in AsConfigs(Expansions(c.shells))
    ensures x in SymmetryBaseList(list, sym, alg)
  {
    var filtered := Filter(list, HasParity(sym.parity));
    FilterMembership(list, HasParity(sym.parity));
    assert c in filtered;
    UniqueConfigs(filtered);
    RelativisticListHas(SortUnique(filtered, ConfigLess), alg, c, x);
  }

  /** A split of a configuration whose occupations the list holds is in the list's relativistic list. */
  lemma RelativisticListHas(list: seq<NonRelConfiguration>, alg: Angular, c: NonRelConfiguration, x: RelativisticConfiguration)
    requires exists y :: y in list && ConfigEq(c, y)
    requires x in AsConfigs(Expansions(c.shells))
    ensures x in RelativisticList(list, alg)
  {
    var y :| y in list && ConfigEq(c, y);
    var i :| 0 <= i < |list| && list[i] == y;
    RelativisticListSpec(list, alg);
    assert x in AsConfigs(Expansions(list[i].shells));
  }

  /**
    Nothing of the target parity is lost: every split of every generated configuration of that
    parity is in the list the symmetry overload builds. Without projections it is returned; with
    them, it is kept exactly when it has projections and a CSF under the list's library key.
   */
  lemma SymmetryConfigurationsComplete(input: UserInput, particles: seq<OrbitalInfo>, holes: seq<OrbitalInfo>, sym: Symmetry,
                                       generateProjections: bool, alg: Angular)
    ensures var nr := NonRelConfigurations(input, particles, holes);
      var r := SymmetryConfigurations(input, particles, holes, sym, generateProjections, alg);
      nr.Success? ==>
        && r.Success?
        && forall c, x :: (c in nr.value && ConfigParity(c) == sym.parity && x in AsConfigs(Expansions(c.shells))) ==>
             var base := SymmetryBaseList(nr.value, sym, alg);
             && x in base
             && (!generateProjections ==> x in r.value)
             && (generateProjections ==>
                   (x in r.value <==> alg.getProjections(x, RelKey(base[0], sym.twoJ, sym.twoJ)) && alg.numCSFs(x, RelKey(base[0], sym.twoJ, sym.twoJ)) >= 1))
  {
    var nr := NonRelConfigurations(input, particles, holes);
    if nr.Success? {
      var base := SymmetryBaseList(nr.value, sym, alg);
      assert SymmetryConfigurations(input, particles, holes, sym, generateProjections, alg)
        == Success(if generateProjections then ProjectedRelList(base, sym.twoJ, sym.twoJ, alg) else base);
      SymmetryBaseListComplete(nr.value, sym, alg);
      ProjectedRelListSpec(base, sym.twoJ, sym.twoJ, alg, RelLess);
    }
  }

  /** The projectable relativistic configurations of a configuration: room for twoJ, and projections in the library. */
  function Projectable(alg: Angular, key: LibraryKey, twoJ: int): RelativisticConfiguration -> bool {
    (r: RelativisticConfiguration) => alg.relTwiceMaxProjection(r.orbitals) >= twoJ && alg.getProjections(r, key)
  }

  /** The first pass of the configuration-list GenerateProjections over one configuration. */
  function ProjectedConfig(c: NonRelConfiguration, sym: Symmetry, key: LibraryKey, alg: Angular): NonRelConfiguration {
    if ConfigParity(c) != sym.parity || alg.twiceMaxProjection(c.shells) < sym.twoJ then c.(relconfiglist := None)
    else c.(relconfiglist := Some(Filter(AsConfigs(Expansions(c.shells)), Projectable(alg, key, sym.twoJ))))
  }

  /** The final pass over one configuration: keep those with CSFs, and drop an emptied list; a configuration without one is passed over. */
  function FinalConfig(c: NonRelConfiguration, key: LibraryKey, alg: Angular): NonRelConfiguration {
    match c.relconfiglist
    case None => c
    case Some(l) =>
      var kept := Filter(l, HasCSFs(alg, key));
      c.(relconfiglist := if |kept| == 0 then None else Some(kept))
  }

  /** The final pass as ConfigGenerator.cpp writes it: a configuration without a relconfiglist is dereferenced, here a failure at its index. */
  function FinalPassAsWritten(list: seq<NonRelConfiguration>, key: LibraryKey, alg: Angular): Result<seq<NonRelConfiguration>, nat> {
    if list == [] then Success([])
    else if list[0].relconfiglist.None? then Failure(0)
    else match FinalPassAsWritten(list[1..], key, alg)
      case Failure(i) => Failure(i + 1)
      case Success(rest) => Success([FinalConfig(list[0], key, alg)] + rest)
  }

  /** The final pass as written fails exactly at the first configuration without a relconfiglist, and otherwise does what FinalConfig does. */
  lemma {:induction false} FinalPassAgreement(list: seq<NonRelConfiguration>, key: LibraryKey, alg: Angular)
    ensures FinalPassAsWritten(list, key, alg).Success? <==> forall i :: 0 <= i < |list| ==> list[i].relconfiglist.Some?
    ensures FinalPassAsWritten(list, key, alg).Success? ==>
      |FinalPassAsWritten(list, key, alg).value| == |list| &&
      forall i :: 0 <= i < |list| ==> FinalPassAsWritten(list, key, alg).value[i] == FinalConfig(list[i], key, alg)
    ensures FinalPassAsWritten(list, key, alg).Failure? ==>
      var i := FinalPassAsWritten(list, key, alg).error;
      i < |list| && list[i].relconfiglist.None? && forall j :: 0 <= j < i ==> list[j].relconfiglist.Some?
  {
    if list != [] && list[0].relconfiglist.Some? {
      FinalPassAgreement(list[1..], key, alg);
      var rest := FinalPassAsWritten(list[1..], key, alg);
      if rest.Success? {
        forall i | 0 <= i < |list| ensures FinalPassAsWritten(list, key, alg).value[i] == FinalConfig(list[i], key, alg) {
          if i > 0 {
            assert list[1..][i - 1] == list[i];
          }
        }
      } else {
        forall j | 0 <= j < rest.error + 1 ensures list[j].relconfiglist.Some? {
          if j > 0 {
            assert list[1..][j - 1] == list[j];
          }
        }
        assert list[1..][rest.error] == list[rest.error + 1];
      }
      if forall i :: 0 <= i < |list| ==> list[i].relconfiglist.Some? {
        forall i | 0 <= i < |list[1..]| ensures list[1..][i].relconfiglist.Some? {
          assert list[1..][i] == list[i + 1];
        }
      }
    }
  }

  /**
    A 2p configuration with one electron is odd, so for J = 1/2 even its relconfiglist is cleared
    in the first pass, and the final pass as written dereferences it; the corrected pass leaves it as it is.
   */
  lemma NullRelConfigListDereference(alg: Angular, twoM: int)
    ensures var c := NonRelConfiguration([Entry(NonRelInfo(2, 1), 1)], None);
      var sym := Symmetry(1, Even);
      var key := LibraryKey(1, sym, twoM);
      && FinalPassAsWritten([ProjectedConfig(c, sym, key, alg)], key, alg) == Failure(0)
      && FinalConfig(ProjectedConfig(c, sym, key, alg), key, alg) == c
  {
    var shells := [Entry(NonRelInfo(2, 1), 1)];
    assert shells[1..] == [];
    assert WeightedSum(shells, ShellL) == 1;
  }

  /**
    A configuration that survives the configuration-list GenerateProjections has the target parity
    and room for twoJ, and each relativistic configuration left in its list is one of its splits,
    with room for twoJ, projections and at least one CSF; the occupation map is never changed.
   */
  lemma ProjectedConfigSpec(c: NonRelConfiguration, sym: Symmetry, key: LibraryKey, alg: Angular)
    ensures FinalConfig(ProjectedConfig(c, sym, key, alg), key, alg).shells == c.shells
    ensures ConfigParity(c) != sym.parity ==> FinalConfig(ProjectedConfig(c, sym, key, alg), key, alg).relconfiglist == None
    ensures match FinalConfig(ProjectedConfig(c, sym, key, alg), key, alg).relconfiglist
      case None => true
      case Some(l) =>
        && ConfigParity(c) == sym.parity && sym.twoJ <= alg.twiceMaxProjection(c.shells)
        && |l| >= 1
        && Subsequence(l, AsConfigs(Expansions(c.shells)))
        && forall r :: r in l ==>
          && r in AsConfigs(Expansions(c.shells))
          && alg.relTwiceMaxProjection(r.orbitals) >= sym.twoJ
          && alg.getProjections(r, key)
          && alg.numCSFs(r, key) >= 1
    ensures ConfigParity(c) == sym.parity && sym.twoJ <= alg.twiceMaxProjection(c.shells) ==>
      forall r :: (&& r in AsConfigs(Expansions(c.shells))
                   && alg.relTwiceMaxProjection(r.orbitals) >= sym.twoJ
                   && alg.getProjections(r, key)
                   && alg.numCSFs(r, key) >= 1) ==>
        && FinalConfig(ProjectedConfig(c, sym, key, alg), key, alg).relconfiglist.Some?
        && r in FinalConfig(ProjectedConfig(c, sym, key, alg), key, alg).relconfiglist.value
  {
    var p := ProjectedConfig(c, sym, key, alg);
    var f := FinalConfig(p, key, alg);
    if ConfigParity(c) != sym.parity || alg.twiceMaxProjection(c.shells) < sym.twoJ {
      assert f == p;
    } else {
      var all := AsConfigs(Expansions(c.shells));
      var projectable, withCSFs := Projectable(alg, key, sym.twoJ), HasCSFs(alg, key);
      var kept := Filter(Filter(all, projectable), withCSFs);
      assert f.relconfiglist == if |kept| == 0 then None else Some(kept);
      FilterFilterSpec(all, projectable, withCSFs);
      forall r | r in all && projectable(r) && withCSFs(r) ensures f.relconfiglist.Some? && r in f.relconfiglist.value {
        assert r in kept;
      }
    }
  }

  /** The library key of a configuration list: the first configuration's electron number and the target symmetry. */
  function NonRelKey(list: seq<NonRelConfiguration>, sym: Symmetry, twoM: int): LibraryKey
    requires list != []
  {
    LibraryKey(ConfigElectronNumber(list[0]), sym, twoM)
  }

  /** ConfigGenerator: the valence shells, the leading configurations, and what it reads and writes. */
  class ConfigGenerator {
    const particles: seq<OrbitalInfo>
    const holes: seq<OrbitalInfo>
    const input: UserInput
    const angular: Angular
    const store: AngularDataStore
    var nonRelSet: seq<NonRelInfo>
    const leadingConfigs: SortedList<NonRelConfiguration>

    /**
      The shells of the valence orbitals with kappa < 0, one per shell. `valence` holds only the
      orbitals the valence map actually has: its null entries are skipped before kappa is read.
     */
    constructor (valence: seq<OrbitalInfo>, particles: seq<OrbitalInfo>, holes: seq<OrbitalInfo>, input: UserInput, angular: Angular)
      ensures nonRelSet == ShellsOf(Filter(valence, NegativeKappa()))
      ensures this.particles == particles && this.holes == holes && this.input == input && this.angular == angular
      ensures fresh(leadingConfigs) && leadingConfigs.items == []
      ensures fresh(store) && store.events == []
    {
      var shells := [];
      for i := 0 to |valence|
        invariant shells == ShellsOf(Filter(valence[..i], NegativeKappa()))
      {
        FilterPrefixStep(valence, i, NegativeKappa());
        ghost var kept := Filter(valence[..i], NegativeKappa());
        if valence[i].kappa < 0 {
          assert Filter(valence[..i + 1], NegativeKappa()) == kept + [valence[i]];
          assert (kept + [valence[i]])[..|kept|] == kept;
          shells := InsertUnique(shells, NonRelOf(valence[i]), NonRelInfoLess);
        } else {
          assert Filter(valence[..i + 1], NegativeKappa()) == kept;
        }
      }
      assert valence[..|valence|] == valence;
      nonRelSet := shells;
      this.particles := particles;
      this.holes := holes;
      this.input := input;
      this.angular := angular;
      leadingConfigs := new SortedList<NonRelConfiguration>();
      store := new AngularDataStore();
    }

    /** Inserts the shell of each orbital into a set. */
    static method CollectShells(orbitals: seq<OrbitalInfo>) returns (shells: seq<NonRelInfo>)
      ensures shells == ShellsOf(orbitals)
    {
      shells := [];
      for i := 0 to |orbitals|
        invariant shells == ShellsOf(orbitals[..i])
      {
        assert orbitals[..i + 1][..i] == orbitals[..i];
        shells := InsertUnique(shells, NonRelOf(orbitals[i]), NonRelInfoLess);
      }
      assert orbitals[..|orbitals|] == orbitals;
    }

    /** The targets of one step: the shells of the orbitals, pruned to the basis of this step when pairs were given. */
    static method CollectTargets(t: Targets, step: nat) returns (targets: seq<NonRelInfo>)
      ensures targets == StepTargets(t, step)
    {
      targets := [];
      if step < t.depth.steps {
        targets := CollectShells(t.orbitals);
        if t.depth.inputs > 1 {
          var limits := t.basisLimits(step);
          targets := EraseUnless(targets, InBasis(limits));
        }
      }
    }

    /** Reads the leading configurations, checking each against the first one's electron number, and adds the vacuum for none. */
    method ReadLeadingConfigurations() returns (r: Result<int, UsageError>)
      modifies leadingConfigs
      ensures var n := ValenceElectrons(input.leading);
        if FirstOff(input.leading, n) < |input.leading| then r == Failure(LeadingConfigurationElectrons(FirstOff(input.leading, n)))
        else r == Success(n) && leadingConfigs.items == LeadingList(input.leading)
    {
      var leading := input.leading;
      leadingConfigs.Clear();
      var numValenceElectrons := 0;
      for i := 0 to |leading|
        invariant leadingConfigs.items == leading[..i]
        invariant numValenceElectrons == if i == 0 then 0 else ValenceElectrons(leading)
        invariant forall j :: 0 <= j < i ==> ConfigElectronNumber(leading[j]) == ValenceElectrons(leading)
      {
        var config := leading[i];
        if i == 0 {
          numValenceElectrons := ConfigElectronNumber(config);
        } else if ConfigElectronNumber(config) != numValenceElectrons {
          return Failure(LeadingConfigurationElectrons(i));
        }
        assert leading[..i + 1] == leading[..i] + [config];
        leadingConfigs.Add(config);
      }
      assert leading[..|leading|] == leading;
      if numValenceElectrons == 0 {
        leadingConfigs.Add(Vacuum);
      }
      return Success(numValenceElectrons);
    }

    /** Runs one excitation step after another, each with its own targets. */
    static method RunExcitations(nrlist: SortedList<NonRelConfiguration>, steps: nat, electrons: Targets, holes: Targets)
      modifies nrlist
      ensures nrlist.items == Excite(old(nrlist.items), steps, Plan(electrons, holes))
    {
      for step := 0 to steps
        invariant nrlist.items == Excite(old(nrlist.items), step, Plan(electrons, holes))
      {
        var valenceElectrons := CollectTargets(electrons, step);
        var valenceHoles := CollectTargets(holes, step);
        assert Plan(electrons, holes)(step) == StepShells(valenceElectrons, valenceHoles);
        GenerateExcitations(nrlist, valenceElectrons, valenceHoles);
      }
    }

    /** Appends the extra configurations, stopping at the first whose electron number is not `n`; returns its index, or |extra| for none. */
    static method AddExtraConfigurations(nrlist: SortedList<NonRelConfiguration>, extra: seq<NonRelConfiguration>, n: int) returns (off: nat)
      modifies nrlist
      ensures off == FirstOff(extra, n)
      ensures off == |extra| ==> nrlist.items == old(nrlist.items) + extra
    {
      for i := 0 to |extra|
        invariant nrlist.items == old(nrlist.items) + extra[..i]
        invariant forall j :: 0 <= j < i ==> ConfigElectronNumber(extra[j]) == n
      {
        if ConfigElectronNumber(extra[i]) != n {
          FirstOffAt(extra, n, i);
          return i;
        }
        assert extra[..i + 1] == extra[..i] + [extra[i]];
        nrlist.Add(extra[i]);
      }
      assert extra[..|extra|] == extra;
      FirstOffAt(extra, n, |extra|);
      return |extra|;
    }

    /**
      GenerateNonRelConfigurations: the leading configurations, closed under the excitation steps,
      with the extra configurations added, sorted and without repeats; or the first usage error.
     */
    method GenerateNonRelConfigurations() returns (r: Result<SortedList<NonRelConfiguration>, UsageError>)
      modifies leadingConfigs
      ensures r.Failure? ==> NonRelConfigurations(input, particles, holes) == Failure(r.error)
      ensures r.Success? ==> fresh(r.value) && NonRelConfigurations(input, particles, holes) == Success(r.value.items)
      ensures r.Success? ==> leadingConfigs.items == LeadingList(input.leading)
    {
      var electronDepth := ParseDepth(input.electronExcitations, 2);
      if electronDepth.None? {
        return Failure(ElectronExcitationsMalformed);
      }
      var holeDepth := ParseDepth(input.holeExcitations, 0);
      if holeDepth.None? {
        return Failure(HoleExcitationsMalformed);
      }
      var leading := ReadLeadingConfigurations();
      if leading.Failure? {
        return Failure(leading.error);
      }
      var numValenceElectrons := leading.value;
      ghost var start := LeadingList(input.leading);
      assert leadingConfigs.items == start;
      var nrlist := new SortedList<NonRelConfiguration>();
      nrlist.Append(leadingConfigs.items);
      assert nrlist.items == start;
      var steps := Max(electronDepth.value.steps, holeDepth.value.steps);
      var electronTargets := Targets(electronDepth.value, particles, input.electronExcitations.basisLimits);
      var holeTargets := Targets(holeDepth.value, holes, input.holeExcitations.basisLimits);
      RunExcitations(nrlist, steps, electronTargets, holeTargets);
      ghost var excited := Excite(start, steps, Plan(electronTargets, holeTargets));
      assert nrlist.items == excited;
      var off := AddExtraConfigurations(nrlist, input.extra, numValenceElectrons);
      if off < |input.extra| {
        assert NonRelConfigurations(input, particles, holes) == Failure(ExtraConfigurationElectrons(off));
        return Failure(ExtraConfigurationElectrons(off));
      }
      assert NonRelConfigurations(input, particles, holes) == Success(SortUnique(excited + input.extra, ConfigLess));
      nrlist.Unique(ConfigLess);
      return Success(nrlist);
    }

    /** Expands configuration `i` when `select` accepts it: fills its relconfiglist and appends its relativistic configurations. */
    static method ExpandOne(nrlist: SortedList<NonRelConfiguration>, i: nat, select: NonRelConfiguration -> bool, rlist: SortedList<RelativisticConfiguration>)
      requires i < |nrlist.items|
      modifies nrlist, rlist
      ensures nrlist.items == old(nrlist.items)[i := Expanded(old(nrlist.items)[i], select)]
      ensures rlist.items == old(rlist.items) + if select(old(nrlist.items)[i]) then AsConfigs(Expansions(old(nrlist.items)[i].shells)) else []
    {
      var c := nrlist.items[i];
      if select(c) {
        var expanded, rl := GenerateRelativisticConfigs(c);
        assert expanded == Expanded(c, select);
        nrlist.Replace(i, expanded);
        rlist.Append(rl);
      } else {
        assert nrlist.items == nrlist.items[i := c];
        assert rlist.items == rlist.items + [];
      }
    }

    /** Appends the relativistic configurations of every configuration `select` accepts, filling its relconfiglist. */
    static method ExpandSelected(nrlist: SortedList<NonRelConfiguration>, select: NonRelConfiguration -> bool, rlist: SortedList<RelativisticConfiguration>)
      modifies nrlist, rlist
      ensures |nrlist.items| == |old(nrlist.items)|
      ensures forall j :: 0 <= j < |nrlist.items| ==> nrlist.items[j] == Expanded(old(nrlist.items)[j], select)
      ensures rlist.items == old(rlist.items) + Flatten(ExpansionParts(old(nrlist.items), select))
    {
      ghost var original := nrlist.items;
      ghost var parts := ExpansionParts(original, select);
      var count := |nrlist.items|;
      for i := 0 to count
        invariant |nrlist.items| == |original|
        invariant forall j :: 0 <= j < |original| ==> nrlist.items[j] == if j < i then Expanded(original[j], select) else original[j]
        invariant rlist.items == old(rlist.items) + Flatten(parts[..i])
      {
        ghost var before := rlist.items;
        ExpansionPartsAt(original, select, i);
        ExpandOne(nrlist, i, select, rlist);
        FlattenStep(parts, i);
        Extend(old(rlist.items), before, rlist.items, Flatten(parts[..i]), parts[i], Flatten(parts[..i + 1]));
      }
      assert parts[..|original|] == parts;
    }

    /** GenerateRelativisticConfigurations(nrlist): every split of every configuration, fewest projections first, without repeats. */
    method GenerateRelativisticConfigurations(nrlist: SortedList<NonRelConfiguration>) returns (rlist: SortedList<RelativisticConfiguration>)
      modifies nrlist
      ensures fresh(rlist)
      ensures rlist.items == RelativisticList(old(nrlist.items), angular)
      ensures |nrlist.items| == |old(nrlist.items)|
      ensures forall j :: 0 <= j < |nrlist.items| ==> nrlist.items[j] == Expanded(old(nrlist.items)[j], AnyConfig())
    {
      rlist := new SortedList<RelativisticConfiguration>();
      ExpandSelected(nrlist, AnyConfig(), rlist);
      assert rlist.items == Flatten(ExpansionParts(old(nrlist.items), AnyConfig()));
      rlist.Unique(FewestProjectionsFirst(angular));
    }

    /**
      GenerateProjections(rlist, two_m, two_j): nothing for a null or empty list; otherwise the
      library is read, the configurations without projections are erased, the library generates
      its CSFs and is written, and the configurations without CSFs are erased.
     */
    method GenerateRelProjections(rlist: SortedList?<RelativisticConfiguration>, twoM: int, twoJ: int)
      modifies rlist, store
      ensures rlist != null ==> rlist.items == ProjectedRelList(old(rlist.items), twoM, twoJ, angular)
      ensures store.events == old(store.events) + (if rlist == null then [] else RelProjectionEvents(old(rlist.items), twoM, twoJ))
    {
      if rlist == null || |rlist.items| == 0 {
        return;
      }
      var key := RelKey(rlist.items[0], twoM, twoJ);
      store.Record(ReadLibrary(key));
      rlist.KeepOnly(HasProjections(angular, key));
      store.Record(GenerateLibraryCSFs(key));
      store.Record(WriteLibrary(key));
      rlist.KeepOnly(HasCSFs(angular, key));
    }

    /**
      GenerateRelativisticConfigurations(nrlist, sym, generate_projections): the splits of the
      configurations of the target parity with room for twoJ, then GenerateProjections when asked.
     */
    method GenerateSymmetryConfigurations(nrlist: SortedList<NonRelConfiguration>, sym: Symmetry, generateProjections: bool)
      returns (rlist: SortedList<RelativisticConfiguration>)
      modifies nrlist, store
      ensures fresh(rlist)
      ensures rlist.items == SymmetryRelList(old(nrlist.items), sym, generateProjections, angular)
      ensures |nrlist.items| == |old(nrlist.items)|
      ensures forall j :: 0 <= j < |nrlist.items| ==> nrlist.items[j] == Expanded(old(nrlist.items)[j], HasSymmetryRoom(sym, angular))
      ensures store.events == old(store.events) +
        (if generateProjections then RelProjectionEvents(Flatten(ExpansionParts(old(nrlist.items), HasSymmetryRoom(sym, angular))), sym.twoJ, sym.twoJ) else [])
    {
      rlist := new SortedList<RelativisticConfiguration>();
      ExpandSelected(nrlist, HasSymmetryRoom(sym, angular), rlist);
      assert rlist.items == Flatten(ExpansionParts(old(nrlist.items), HasSymmetryRoom(sym, angular)));
      if generateProjections {
        GenerateRelProjections(rlist, sym.twoJ, sym.twoJ);
      }
    }

    /**
      GenerateRelativisticConfigurations(sym, generate_projections): the configurations of the
      target parity, split fewest projections first, then GenerateProjections when asked.
     */
    method GenerateConfigurationsFor(sym: Symmetry, generateProjections: bool) returns (r: Result<SortedList<RelativisticConfiguration>, UsageError>)
      modifies leadingConfigs, store
      ensures r.Failure? ==> SymmetryConfigurations(input, particles, holes, sym, generateProjections, angular) == Failure(r.error)
      ensures r.Success? ==> fresh(r.value) && SymmetryConfigurations(input, particles, holes, sym, generateProjections, angular) == Success(r.value.items)
      ensures r.Success? ==> leadingConfigs.items == LeadingList(input.leading)
      ensures r.Success? && generateProjections ==>
        store.events == old(store.events) + RelProjectionEvents(SymmetryBaseList(NonRelConfigurations(input, particles, holes).value, sym, angular), sym.twoJ, sym.twoJ)
      ensures !(r.Success? && generateProjections) ==> store.events == old(store.events)
    {
      var generated := GenerateNonRelConfigurations();
      if generated.Failure? {
        return Failure(generated.error);
      }
      var nrlist := generated.value;
      nrlist.KeepOnly(HasParity(sym.parity));
      nrlist.Unique(ConfigLess);
      var rlist := GenerateRelativisticConfigurations(nrlist);
      if generateProjections {
        GenerateRelProjections(rlist, sym.twoJ, sym.twoJ);
      }
      return Success(rlist);
    }

    /** The first pass: the projectable relativistic configurations of every configuration, or none when it has the wrong parity or too little room. */
    static method ProjectAll(nrlist: SortedList<NonRelConfiguration>, sym: Symmetry, key: LibraryKey, alg: Angular)
      modifies nrlist
      ensures |nrlist.items| == |old(nrlist.items)|
      ensures forall j :: 0 <= j < |nrlist.items| ==> nrlist.items[j] == ProjectedConfig(old(nrlist.items)[j], sym, key, alg)
    {
      ghost var original := nrlist.items;
      var count := |nrlist.items|;
      for i := 0 to count
        invariant |nrlist.items| == |original|
        invariant forall j :: 0 <= j < |original| ==>
          nrlist.items[j] == if j < i then ProjectedConfig(original[j], sym, key, alg) else original[j]
      {
        var c := nrlist.items[i];
        if ConfigParity(c) != sym.parity || alg.twiceMaxProjection(c.shells) < sym.twoJ {
          nrlist.Replace(i, c.(relconfiglist := None));
        } else {
          var expanded, rl := GenerateRelativisticConfigs(c);
          var kept := EraseUnless(rl, Projectable(alg, key, sym.twoJ));
          nrlist.Replace(i, expanded.(relconfiglist := Some(kept)));
        }
      }
    }

    /** The second pass: keeps the relativistic configurations with CSFs, and drops a list left empty. */
    static method KeepWithCSFs(nrlist: SortedList<NonRelConfiguration>, key: LibraryKey, alg: Angular)
      modifies nrlist
      ensures |nrlist.items| == |old(nrlist.items)|
      ensures forall j :: 0 <= j < |nrlist.items| ==> nrlist.items[j] == FinalConfig(old(nrlist.items)[j], key, alg)
    {
      ghost var original := nrlist.items;
      var count := |nrlist.items|;
      for i := 0 to count
        invariant |nrlist.items| == |original|
        invariant forall j :: 0 <= j < |original| ==>
          nrlist.items[j] == if j < i then FinalConfig(original[j], key, alg) else original[j]
      {
        var c := nrlist.items[i];
        if c.relconfiglist.Some? {
          var kept := EraseUnless(c.relconfiglist.value, HasCSFs(alg, key));
          nrlist.Replace(i, c.(relconfiglist := if |kept| == 0 then None else Some(kept)));
        }
      }
    }

    /**
      GenerateProjections(nrlist, sym, two_m), with the final pass passing over configurations
      whose relconfiglist was cleared: nothing for a null or empty list; otherwise each
      configuration of the wrong symmetry loses its relconfiglist and each other one gets its
      projectable splits, the library generates its CSFs and is written, and every
      configuration keeps only the splits with CSFs.
     */
    method GenerateNonRelProjections(nrlist: SortedList?<NonRelConfiguration>, sym: Symmetry, twoM: int)
      modifies nrlist, store
      ensures nrlist != null && |old(nrlist.items)| > 0 ==>
        && |nrlist.items| == |old(nrlist.items)|
        && (forall j :: 0 <= j < |nrlist.items| ==>
              var key := NonRelKey(old(nrlist.items), sym, twoM);
              nrlist.items[j] == FinalConfig(ProjectedConfig(old(nrlist.items)[j], sym, key, angular), key, angular))
        && store.events == old(store.events) + ProjectionEvents(NonRelKey(old(nrlist.items), sym, twoM))
      ensures nrlist == null || |old(nrlist.items)| == 0 ==> store.events == old(store.events)
      ensures nrlist != null && |old(nrlist.items)| == 0 ==> nrlist.items == old(nrlist.items)
    {
      if nrlist == null || |nrlist.items| == 0 {
        return;
      }
      var key := NonRelKey(nrlist.items, sym, twoM);
      ghost var events := store.events;
      store.Record(ReadLibrary(key));
      ProjectAll(nrlist, sym, key, angular);
      store.Record(GenerateLibraryCSFs(key));
      store.Record(WriteLibrary(key));
      assert store.events == events + ProjectionEvents(key);
      KeepWithCSFs(nrlist, key, angular);
    }
  }

  function NegativeKappa(): OrbitalInfo -> bool {
    (info: OrbitalInfo) => info.kappa < 0
  }
}
