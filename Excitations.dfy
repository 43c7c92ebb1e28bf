/**
  The candidates GenerateExcitations derives from one configuration: electron moves, hole moves,
  pair creation and pair annihilation, each listed in the order the loops of
  ConfigGenerator::GenerateExcitations visit them. Target sets (NonRelInfoSet) are sorted
  sequences of shells. Each loop is specified by the list of what each of its steps adds
  (its "parts"), flattened in loop order.
 */
module Excitations {
  import opened Wrappers
  import opened SortedLists
  import opened Orbitals
  import opened Occupations
  import opened NonRelConfigs

  /**
    Two checked changes on a fresh copy: `d1` particles on `k1`, then `d2` on `k2`; the result is
    a candidate only when both calls report success.
   */
  function TwoSteps(c: NonRelConfiguration, k1: NonRelInfo, d1: int, k2: NonRelInfo, d2: int): seq<NonRelConfiguration> {
    var first := ChangeOccupancy(Copy(c), k1, d1);
    var second := ChangeOccupancy(first.config, k2, d2);
    if first.success && second.success then [second.config] else []
  }

  /** The move of shell `s` to target `t`, never to its own shell: an electron of `s` moves to `t` for positive occupancy, a hole otherwise. */
  function MoveResult(c: NonRelConfiguration, s: Entry<NonRelInfo>, t: NonRelInfo): seq<NonRelConfiguration> {
    if t == s.key then []
    else if s.occupancy > 0 then TwoSteps(c, s.key, -1, t, 1)
    else TwoSteps(c, s.key, 1, t, -1)
  }

  /** One part per target. */
  function MoveParts(c: NonRelConfiguration, s: Entry<NonRelInfo>, targets: seq<NonRelInfo>): (r: seq<seq<NonRelConfiguration>>)
    ensures |r| == |targets|
  {
    if targets == [] then []
    else MoveParts(c, s, targets[..|targets| - 1]) + [MoveResult(c, s, targets[|targets| - 1])]
  }

  lemma {:induction false} MovePartsAt(c: NonRelConfiguration, s: Entry<NonRelInfo>, targets: seq<NonRelInfo>, k: nat)
    requires k < |targets|
    ensures MoveParts(c, s, targets)[k] == MoveResult(c, s, targets[k])
  {
    if k < |targets| - 1 {
      MovePartsAt(c, s, targets[..|targets| - 1], k);
    }
  }

  /** The moves of shell `s` to each target in turn. */
  function ShellMoves(c: NonRelConfiguration, s: Entry<NonRelInfo>, targets: seq<NonRelInfo>): seq<NonRelConfiguration> {
    Flatten(MoveParts(c, s, targets))
  }

  /** Electron targets for a shell holding electrons, hole targets otherwise. */
  function TargetsOf(s: Entry<NonRelInfo>, electrons: seq<NonRelInfo>, holes: seq<NonRelInfo>): seq<NonRelInfo> {
    if s.occupancy > 0 then electrons else holes
  }

  /** One part per shell of `shells`, a prefix of the map of `c`. */
  function ParticleMoveParts(c: NonRelConfiguration, electrons: seq<NonRelInfo>, holes: seq<NonRelInfo>, shells: seq<Entry<NonRelInfo>>): (r: seq<seq<NonRelConfiguration>>)
    ensures |r| == |shells|
  {
    if shells == [] then []
    else
      var s := shells[|shells| - 1];
      ParticleMoveParts(c, electrons, holes, shells[..|shells| - 1]) + [ShellMoves(c, s, TargetsOf(s, electrons, holes))]
  }

  lemma {:induction false} ParticleMovePartsAt(c: NonRelConfiguration, electrons: seq<NonRelInfo>, holes: seq<NonRelInfo>, shells: seq<Entry<NonRelInfo>>, k: nat)
    requires k < |shells|
    ensures ParticleMoveParts(c, electrons, holes, shells)[k] == ShellMoves(c, shells[k], TargetsOf(shells[k], electrons, holes))
  {
    if k < |shells| - 1 {
      ParticleMovePartsAt(c, electrons, holes, shells[..|shells| - 1], k);
    }
  }

  /** Every electron and every hole of `c` moved to each other shell of the matching target set. */
  function ParticleMoves(c: NonRelConfiguration, electrons: seq<NonRelInfo>, holes: seq<NonRelInfo>): seq<NonRelConfiguration> {
    Flatten(ParticleMoveParts(c, electrons, holes, c.shells))
  }

  /** One part per hole target: that shell loses an electron, when it can. */
  function HoleParts(withElectron: NonRelConfiguration, holes: seq<NonRelInfo>): (r: seq<seq<NonRelConfiguration>>)
    ensures |r| == |holes|
  {
    if holes == [] then []
    else
      var removed := RemoveSingleParticle(Copy(withElectron), holes[|holes| - 1]);
      HoleParts(withElectron, holes[..|holes| - 1]) + [if removed.success then [removed.config] else []]
  }

  lemma {:induction false} HolePartsAt(withElectron: NonRelConfiguration, holes: seq<NonRelInfo>, k: nat)
    requires k < |holes|
    ensures var removed := RemoveSingleParticle(Copy(withElectron), holes[k]);
      HoleParts(withElectron, holes)[k] == if removed.success then [removed.config] else []
  {
    if k < |holes| - 1 {
      HolePartsAt(withElectron, holes[..|holes| - 1], k);
    }
  }

  /** The second half of pair creation: a hole in each hole target. */
  function HolesCreated(withElectron: NonRelConfiguration, holes: seq<NonRelInfo>): seq<NonRelConfiguration> {
    Flatten(HoleParts(withElectron, holes))
  }

  /** Pair creation with electron target `e`: an electron there, then a hole in each hole target. */
  function CreationResult(c: NonRelConfiguration, e: NonRelInfo, holes: seq<NonRelInfo>): seq<NonRelConfiguration> {
    var added := AddSingleParticle(Copy(c), e);
    if added.success then HolesCreated(added.config, holes) else []
  }

  /** One part per electron target. */
  function CreationParts(c: NonRelConfiguration, electrons: seq<NonRelInfo>, holes: seq<NonRelInfo>): (r: seq<seq<NonRelConfiguration>>)
    ensures |r| == |electrons|
  {
    if electrons == [] then []
    else CreationParts(c, electrons[..|electrons| - 1], holes) + [CreationResult(c, electrons[|electrons| - 1], holes)]
  }

  lemma {:induction false} CreationPartsAt(c: NonRelConfiguration, electrons: seq<NonRelInfo>, holes: seq<NonRelInfo>, k: nat)
    requires k < |electrons|
    ensures CreationParts(c, electrons, holes)[k] == CreationResult(c, electrons[k], holes)
  {
    if k < |electrons| - 1 {
      CreationPartsAt(c, electrons[..|electrons| - 1], holes, k);
    }
  }

  function PairCreations(c: NonRelConfiguration, electrons: seq<NonRelInfo>, holes: seq<NonRelInfo>): seq<NonRelConfiguration> {
    Flatten(CreationParts(c, electrons, holes))
  }

  /** Pair annihilation of shells i < j of opposite sign: the hole is filled and the electron removed. */
  function AnnihilationResult(c: NonRelConfiguration, i: nat, j: nat): seq<NonRelConfiguration>
    requires i < j < |c.shells|
  {
    var p, o := c.shells[i], c.shells[j];
    if p.occupancy < 0 && o.occupancy > 0 then TwoSteps(c, p.key, 1, o.key, -1)
    else if p.occupancy > 0 && o.occupancy < 0 then TwoSteps(c, p.key, -1, o.key, 1)
    else []
  }

  /** One part per shell j with i < j < k. */
  function AnnihilationParts(c: NonRelConfiguration, i: nat, k: nat): (r: seq<seq<NonRelConfiguration>>)
    requires i < k <= |c.shells|
    ensures |r| == k - i - 1
  {
    if k == i + 1 then [] else AnnihilationParts(c, i, k - 1) + [AnnihilationResult(c, i, k - 1)]
  }

  lemma {:induction false} AnnihilationPartsAt(c: NonRelConfiguration, i: nat, k: nat, j: nat)
    requires i < j < k <= |c.shells|
    ensures AnnihilationParts(c, i, k)[j - i - 1] == AnnihilationResult(c, i, j)
  {
    if j < k - 1 {
      AnnihilationPartsAt(c, i, k - 1, j);
    }
  }

  /** The annihilations of shell `i` with each later shell. */
  function AnnihilationsWith(c: NonRelConfiguration, i: nat): seq<NonRelConfiguration>
    requires i < |c.shells|
  {
    Flatten(AnnihilationParts(c, i, |c.shells|))
  }

  /** One part per shell i < k. */
  function AnnihilationShellParts(c: NonRelConfiguration, k: nat): (r: seq<seq<NonRelConfiguration>>)
    requires k <= |c.shells|
    ensures |r| == k
  {
    if k == 0 then [] else AnnihilationShellParts(c, k - 1) + [AnnihilationsWith(c, k - 1)]
  }

  lemma {:induction false} AnnihilationShellPartsAt(c: NonRelConfiguration, k: nat, i: nat)
    requires i < k <= |c.shells|
    ensures AnnihilationShellParts(c, k)[i] == AnnihilationsWith(c, i)
  {
    if i < k - 1 {
      AnnihilationShellPartsAt(c, k - 1, i);
    }
  }

  function Annihilations(c: NonRelConfiguration): seq<NonRelConfiguration> {
    Flatten(AnnihilationShellParts(c, |c.shells|))
  }

  /** Everything one excitation step adds for configuration `c`, in the order it is added. */
  function Candidates(c: NonRelConfiguration, electrons: seq<NonRelInfo>, holes: seq<NonRelInfo>): seq<NonRelConfiguration> {
    ParticleMoves(c, electrons, holes) + PairCreations(c, electrons, holes) + Annihilations(c)
  }

  /** One part per configuration of a list. */
  function CandidateLists(list: seq<NonRelConfiguration>, electrons: seq<NonRelInfo>, holes: seq<NonRelInfo>): (r: seq<seq<NonRelConfiguration>>)
    ensures |r| == |list|
  {
    if list == [] then [] else CandidateLists(list[..|list| - 1], electrons, holes) + [Candidates(list[|list| - 1], electrons, holes)]
  }

  lemma {:induction false} CandidateListsAt(list: seq<NonRelConfiguration>, electrons: seq<NonRelInfo>, holes: seq<NonRelInfo>, k: nat)
    requires k < |list|
    ensures CandidateLists(list, electrons, holes)[k] == Candidates(list[k], electrons, holes)
  {
    if k < |list| - 1 {
      CandidateListsAt(list[..|list| - 1], electrons, holes, k);
    }
  }

  /** Everything one excitation step adds for the configurations of a list, in the order it is added. */
  function AllCandidates(list: seq<NonRelConfiguration>, electrons: seq<NonRelInfo>, holes: seq<NonRelInfo>): seq<NonRelConfiguration> {
    Flatten(CandidateLists(list, electrons, holes))
  }

  /** One excitation step: the list with every candidate added, sorted and without repeats. */
  function ExcitationStep(list: seq<NonRelConfiguration>, electrons: seq<NonRelInfo>, holes: seq<NonRelInfo>): seq<NonRelConfiguration> {
    SortUnique(list + AllCandidates(list, electrons, holes), ConfigLess)
  }

  /** A candidate keeps the electron number of the configuration it came from, starts without relativistic configurations and keeps every shell within capacity. */
  predicate Conserves(c: NonRelConfiguration, x: NonRelConfiguration) {
    && ConfigElectronNumber(x) == ConfigElectronNumber(c)
    && x.relconfiglist == None
    && (WithinCapacity(c.shells) ==> WithinCapacity(x.shells))
  }

  /**
    Two checked changes on distinct shells give a candidate exactly when both stay within capacity,
    and the candidate differs from `c` by `d1` on `k1` and `d2` on `k2` only.
   */
  lemma TwoStepsSpec(c: NonRelConfiguration, k1: NonRelInfo, d1: int, k2: NonRelInfo, d2: int)
    requires k1 != k2
    ensures |TwoSteps(c, k1, d1, k2, d2)| == 1 <==>
      && -MaxNumElectrons(k1) <= Occupancy(c.shells, k1) + d1 <= MaxNumElectrons(k1)
      && -MaxNumElectrons(k2) <= Occupancy(c.shells, k2) + d2 <= MaxNumElectrons(k2)
    ensures |TwoSteps(c, k1, d1, k2, d2)| <= 1
    ensures forall x :: x in TwoSteps(c, k1, d1, k2, d2) ==>
      && (forall y :: Occupancy(x.shells, y) == Occupancy(c.shells, y) + (if y == k1 then d1 else 0) + (if y == k2 then d2 else 0))
      && ConfigElectronNumber(x) == ConfigElectronNumber(c) + d1 + d2
      && x.relconfiglist == None
      && (WithinCapacity(c.shells) ==> WithinCapacity(x.shells))
  {
    var first := ChangeOccupancy(Copy(c), k1, d1);
    ChangeOccupancySpec(Copy(c), k1, d1);
    ChangeOccupancySpec(first.config, k2, d2);
  }

  /**
    A move never targets its own shell. Otherwise it takes one particle out of `s` (an electron
    when `s` has electrons, a hole when it has holes) and puts it into `t`, exactly when both
    shells stay within capacity, and conserves the electron number.
   */
  lemma MoveResultConserves(c: NonRelConfiguration, s: Entry<NonRelInfo>, t: NonRelInfo)
    ensures t == s.key ==> MoveResult(c, s, t) == []
    ensures t != s.key ==>
      var d := if s.occupancy > 0 then -1 else 1;
      (|MoveResult(c, s, t)| == 1 <==>
        && -MaxNumElectrons(s.key) <= Occupancy(c.shells, s.key) + d <= MaxNumElectrons(s.key)
        && -MaxNumElectrons(t) <= Occupancy(c.shells, t) - d <= MaxNumElectrons(t))
    ensures |MoveResult(c, s, t)| <= 1
    ensures forall x :: x in MoveResult(c, s, t) ==>
      forall y :: Occupancy(x.shells, y) == Occupancy(c.shells, y)
        + (if y == s.key then (if s.occupancy > 0 then -1 else 1) else 0)
        + (if y == t then (if s.occupancy > 0 then 1 else -1) else 0)
    ensures forall x :: x in MoveResult(c, s, t) ==> Conserves(c, x)
  {
    if t != s.key {
      if s.occupancy > 0 {
        TwoStepsSpec(c, s.key, -1, t, 1);
      } else {
        TwoStepsSpec(c, s.key, 1, t, -1);
      }
    }
  }

  lemma ShellMovesConserve(c: NonRelConfiguration, s: Entry<NonRelInfo>, targets: seq<NonRelInfo>)
    ensures forall x :: x in ShellMoves(c, s, targets) ==> Conserves(c, x)
  {
    forall x | x in ShellMoves(c, s, targets) ensures Conserves(c, x) {
      FlattenMembers(MoveParts(c, s, targets), x);
      var k :| 0 <= k < |targets| && x in MoveParts(c, s, targets)[k];
      MovePartsAt(c, s, targets, k);
      MoveResultConserves(c, s, targets[k]);
    }
  }

  lemma ParticleMovesConserve(c: NonRelConfiguration, electrons: seq<NonRelInfo>, holes: seq<NonRelInfo>)
    ensures forall x :: x in ParticleMoves(c, electrons, holes) ==> Conserves(c, x)
  {
    forall x | x in ParticleMoves(c, electrons, holes) ensures Conserves(c, x) {
      FlattenMembers(ParticleMoveParts(c, electrons, holes, c.shells), x);
      var k :| 0 <= k < |c.shells| && x in ParticleMoveParts(c, electrons, holes, c.shells)[k];
      ParticleMovePartsAt(c, electrons, holes, c.shells, k);
      ShellMovesConserve(c, c.shells[k], TargetsOf(c.shells[k], electrons, holes));
    }
  }

  /** Each hole made after the extra electron removes one electron again. */
  lemma HolesCreatedSpec(w: NonRelConfiguration, holes: seq<NonRelInfo>)
    ensures forall x :: x in HolesCreated(w, holes) ==>
      && ConfigElectronNumber(x) == ConfigElectronNumber(w) - 1
      && x.relconfiglist == None
      && (WithinCapacity(w.shells) ==> WithinCapacity(x.shells))
  {
    forall x | x in HolesCreated(w, holes)
      ensures ConfigElectronNumber(x) == ConfigElectronNumber(w) - 1 && x.relconfiglist == None
      ensures WithinCapacity(w.shells) ==> WithinCapacity(x.shells)
    {
      FlattenMembers(HoleParts(w, holes), x);
      var k :| 0 <= k < |holes| && x in HoleParts(w, holes)[k];
      HolePartsAt(w, holes, k);
      RemoveSingleParticleSpec(Copy(w), holes[k]);
    }
  }

  lemma PairCreationsConserve(c: NonRelConfiguration, electrons: seq<NonRelInfo>, holes: seq<NonRelInfo>)
    ensures forall x :: x in PairCreations(c, electrons, holes) ==> Conserves(c, x)
  {
    forall x | x in PairCreations(c, electrons, holes) ensures Conserves(c, x) {
      FlattenMembers(CreationParts(c, electrons, holes), x);
      var k :| 0 <= k < |electrons| && x in CreationParts(c, electrons, holes)[k];
      CreationPartsAt(c, electrons, holes, k);
      var added := AddSingleParticle(Copy(c), electrons[k]);
      AddSingleParticleSpec(Copy(c), electrons[k]);
      HolesCreatedSpec(added.config, holes);
    }
  }

  lemma AnnihilationResultConserves(c: NonRelConfiguration, i: nat, j: nat)
    requires i < j < |c.shells|
    ensures forall x :: x in AnnihilationResult(c, i, j) ==> Conserves(c, x)
  {
    var p, o := c.shells[i], c.shells[j];
    NonRelInfoOrder();
    assert NonRelInfoLess(p.key, o.key);
    if p.occupancy < 0 && o.occupancy > 0 {
      TwoStepsSpec(c, p.key, 1, o.key, -1);
    } else if p.occupancy > 0 && o.occupancy < 0 {
      TwoStepsSpec(c, p.key, -1, o.key, 1);
    }
  }

  lemma AnnihilationsWithConserve(c: NonRelConfiguration, i: nat)
    requires i < |c.shells|
    ensures forall x :: x in AnnihilationsWith(c, i) ==> Conserves(c, x)
  {
    var parts := AnnihilationParts(c, i, |c.shells|);
    forall x | x in AnnihilationsWith(c, i) ensures Conserves(c, x) {
      FlattenMembers(parts, x);
      var k :| 0 <= k < |parts| && x in parts[k];
      AnnihilationPartsAt(c, i, |c.shells|, i + 1 + k);
      AnnihilationResultConserves(c, i, i + 1 + k);
    }
  }

  lemma AnnihilationsConserve(c: NonRelConfiguration)
    ensures forall x :: x in Annihilations(c) ==> Conserves(c, x)
  {
    forall x | x in Annihilations(c) ensures Conserves(c, x) {
      FlattenMembers(AnnihilationShellParts(c, |c.shells|), x);
      var i :| 0 <= i < |c.shells| && x in AnnihilationShellParts(c, |c.shells|)[i];
      AnnihilationShellPartsAt(c, |c.shells|, i);
      AnnihilationsWithConserve(c, i);
    }
  }

  /** Every excitation of `c` keeps its electron number and, for a configuration within capacity, stays within capacity. */
  lemma CandidatesConserve(c: NonRelConfiguration, electrons: seq<NonRelInfo>, holes: seq<NonRelInfo>)
    ensures forall x :: x in Candidates(c, electrons, holes) ==> Conserves(c, x)
  {
    ParticleMovesConserve(c, electrons, holes);
    PairCreationsConserve(c, electrons, holes);
    AnnihilationsConserve(c);
  }

  /** Every candidate of a list comes from one of its configurations and conserves what that one has. */
  lemma AllCandidatesConserve(list: seq<NonRelConfiguration>, electrons: seq<NonRelInfo>, holes: seq<NonRelInfo>)
    ensures forall x :: x in AllCandidates(list, electrons, holes) ==> exists i :: 0 <= i < |list| && Conserves(list[i], x)
  {
    forall x | x in AllCandidates(list, electrons, holes) ensures exists i :: 0 <= i < |list| && Conserves(list[i], x) {
      FlattenMembers(CandidateLists(list, electrons, holes), x);
      var i :| 0 <= i < |list| && x in CandidateLists(list, electrons, holes)[i];
      CandidateListsAt(list, electrons, holes, i);
      CandidatesConserve(list[i], electrons, holes);
    }
  }

  /**
    A move as ConfigGenerator.cpp writes it: the result of the first change is not looked at,
    so a candidate is added whenever the second change succeeds.
   */
  function MoveResultAsWritten(c: NonRelConfiguration, s: Entry<NonRelInfo>, t: NonRelInfo): seq<NonRelConfiguration> {
    if t == s.key then []
    else if s.occupancy > 0 then
      var removed := RemoveSingleParticle(Copy(c), s.key);
      var moved := AddSingleParticle(removed.config, t);
      if moved.success then [moved.config] else []
    else
      var filled := AddSingleParticle(Copy(c), s.key);
      var moved := RemoveSingleParticle(filled.config, t);
      if moved.success then [moved.config] else []
  }

  /** A pair annihilation as ConfigGenerator.cpp writes it: neither result is looked at. */
  function AnnihilationResultAsWritten(c: NonRelConfiguration, i: nat, j: nat): seq<NonRelConfiguration>
    requires i < j < |c.shells|
  {
    var p, o := c.shells[i], c.shells[j];
    if p.occupancy < 0 && o.occupancy > 0 then
      var filled := AddSingleParticle(Copy(c), p.key);
      [RemoveSingleParticle(filled.config, o.key).config]
    else if p.occupancy > 0 && o.occupancy < 0 then
      var emptied := RemoveSingleParticle(Copy(c), p.key);
      [AddSingleParticle(emptied.config, o.key).config]
    else []
  }

  /** For a configuration within capacity the unchecked first change always succeeds, so the moves as written are the checked ones. */
  lemma MoveResultAsWrittenAgrees(c: NonRelConfiguration, i: nat, t: NonRelInfo)
    requires i < |c.shells| && WithinCapacity(c.shells)
    ensures MoveResultAsWritten(c, c.shells[i], t) == MoveResult(c, c.shells[i], t)
  {
    var s := c.shells[i];
    NonRelInfoOrder();
    OccupancyOfEntry(c.shells, NonRelInfoLess, i);
    ChangeOccupancySpec(Copy(c), s.key, if s.occupancy > 0 then -1 else 1);
  }

  /** For a configuration within capacity both unchecked changes succeed, so the annihilations as written are the checked ones. */
  lemma AnnihilationAsWrittenAgrees(c: NonRelConfiguration, i: nat, j: nat)
    requires i < j < |c.shells| && WithinCapacity(c.shells)
    ensures AnnihilationResultAsWritten(c, i, j) == AnnihilationResult(c, i, j)
  {
    var p, o := c.shells[i], c.shells[j];
    NonRelInfoOrder();
    assert NonRelInfoLess(p.key, o.key);
    OccupancyOfEntry(c.shells, NonRelInfoLess, i);
    OccupancyOfEntry(c.shells, NonRelInfoLess, j);
    if p.occupancy < 0 && o.occupancy > 0 {
      var filled := AddSingleParticle(Copy(c), p.key);
      AddSingleParticleSpec(Copy(c), p.key);
      RemoveSingleParticleSpec(filled.config, o.key);
    } else if p.occupancy > 0 && o.occupancy < 0 {
      var emptied := RemoveSingleParticle(Copy(c), p.key);
      RemoveSingleParticleSpec(Copy(c), p.key);
      AddSingleParticleSpec(emptied.config, o.key);
    }
  }

  /**
    Four electrons in 1s (over its capacity of two): the removal fails unnoticed and the move to 2s
    as written yields a configuration with five electrons, where the checked move yields nothing.
   */
  lemma OverfilledShellMove()
    ensures var c := NonRelConfiguration([Entry(NonRelInfo(1, 0), 4)], None);
      && MoveResult(c, c.shells[0], NonRelInfo(2, 0)) == []
      && MoveResultAsWritten(c, c.shells[0], NonRelInfo(2, 0)) == [NonRelConfiguration([Entry(NonRelInfo(1, 0), 4), Entry(NonRelInfo(2, 0), 1)], None)]
      && ConfigElectronNumber(c) == 4
      && ConfigElectronNumber(MoveResultAsWritten(c, c.shells[0], NonRelInfo(2, 0))[0]) == 5
  {
    var c := NonRelConfiguration([Entry(NonRelInfo(1, 0), 4)], None);
    var moved := [Entry(NonRelInfo(1, 0), 4), Entry(NonRelInfo(2, 0), 1)];
    assert c.shells[1..] == [];
    assert moved[1..][1..] == [];
    assert Inc(c.shells[1..], NonRelInfo(2, 0), 1, NonRelInfoLess) == [Entry(NonRelInfo(2, 0), 1)];
    assert Inc(c.shells, NonRelInfo(2, 0), 1, NonRelInfoLess) == moved;
    var removed := RemoveSingleParticle(Copy(c), NonRelInfo(1, 0));
    assert Occupancy(c.shells, NonRelInfo(1, 0)) == 4;
    assert !removed.success && removed.config == Copy(c);
    assert Occupancy(c.shells, NonRelInfo(2, 0)) == 0;
    assert AddSingleParticle(removed.config, NonRelInfo(2, 0)) == Outcome(true, NonRelConfiguration(moved, None));
    assert ElectronNumber(moved) == 5;
  }

  /**
    A 1s shell with four holes and one electron in 2s: the hole cannot be filled within capacity, the
    failure goes unnoticed, and the annihilation as written yields a configuration with one electron fewer.
   */
  lemma OverfilledShellAnnihilation()
    ensures var c := NonRelConfiguration([Entry(NonRelInfo(1, 0), -4), Entry(NonRelInfo(2, 0), 1)], None);
      && AnnihilationResult(c, 0, 1) == []
      && AnnihilationResultAsWritten(c, 0, 1) == [NonRelConfiguration([Entry(NonRelInfo(1, 0), -4)], None)]
      && ConfigElectronNumber(c) == -3
      && ConfigElectronNumber(AnnihilationResultAsWritten(c, 0, 1)[0]) == -4
  {
    var shells := [Entry(NonRelInfo(1, 0), -4), Entry(NonRelInfo(2, 0), 1)];
    assert shells[1..][1..] == [];
    assert Inc(shells[1..], NonRelInfo(2, 0), -1, NonRelInfoLess) == [];
    assert Inc(shells, NonRelInfo(2, 0), -1, NonRelInfoLess) == [shells[0]];
    var c := NonRelConfiguration(shells, None);
    var filled := AddSingleParticle(Copy(c), NonRelInfo(1, 0));
    assert Occupancy(shells, NonRelInfo(1, 0)) == -4;
    assert !filled.success && filled.config == Copy(c);
    assert Occupancy(shells, NonRelInfo(2, 0)) == 1;
    assert RemoveSingleParticle(filled.config, NonRelInfo(2, 0)) == Outcome(true, NonRelConfiguration([shells[0]], None));
    assert ElectronNumber(shells) == -3;
  }

  /** Every configuration an excitation step leaves was there before, or comes from one that was and conserves what it has. */
  lemma ExcitationStepOrigin(list: seq<NonRelConfiguration>, electrons: seq<NonRelInfo>, holes: seq<NonRelInfo>)
    ensures forall y :: y in ExcitationStep(list, electrons, holes) ==> y in list || exists i :: 0 <= i < |list| && Conserves(list[i], y)
  {
    var added := AllCandidates(list, electrons, holes);
    UniqueConfigs(list + added);
    AllCandidatesConserve(list, electrons, holes);
  }

  /**
    An excitation step leaves a sorted list without repeats that still holds every configuration
    it started with, and keeps an electron number and capacity that all of those share.
   */
  lemma ExcitationStepSpec(list: seq<NonRelConfiguration>, electrons: seq<NonRelInfo>, holes: seq<NonRelInfo>, n: int)
    ensures StrictlySorted(ExcitationStep(list, electrons, holes), ConfigLess)
    ensures forall c :: c in list ==> exists y :: y in ExcitationStep(list, electrons, holes) && ConfigEq(c, y)
    ensures (forall c :: c in list ==> ConfigElectronNumber(c) == n) ==>
      forall y :: y in ExcitationStep(list, electrons, holes) ==> ConfigElectronNumber(y) == n
    ensures (forall c :: c in list ==> WithinCapacity(c.shells)) ==>
      forall y :: y in ExcitationStep(list, electrons, holes) ==> WithinCapacity(y.shells)
  {
    ExcitationStepKeeps(list, electrons, holes);
    ExcitationStepOrigin(list, electrons, holes);
    OriginsShared(list, ExcitationStep(list, electrons, holes), n);
  }

  /** The step's result is sorted without repeats and holds a configuration equal to each one it started from. */
  lemma ExcitationStepKeeps(list: seq<NonRelConfiguration>, electrons: seq<NonRelInfo>, holes: seq<NonRelInfo>)
    ensures StrictlySorted(ExcitationStep(list, electrons, holes), ConfigLess)
    ensures forall c :: c in list ==> exists y :: y in ExcitationStep(list, electrons, holes) && ConfigEq(c, y)
  {
    var added := AllCandidates(list, electrons, holes);
    UniqueConfigs(list + added);
    forall c | c in list ensures c in list + added {
    }
  }

  /** The step closes the list under one excitation: every candidate of every configuration it started with is in its result. */
  lemma ExcitationStepAdds(list: seq<NonRelConfiguration>, electrons: seq<NonRelInfo>, holes: seq<NonRelInfo>)
    ensures forall c, x :: c in list && x in Candidates(c, electrons, holes) ==>
      exists y :: y in ExcitationStep(list, electrons, holes) && ConfigEq(x, y)
  {
    var added := AllCandidates(list, electrons, holes);
    UniqueConfigs(list + added);
    forall c, x | c in list && x in Candidates(c, electrons, holes)
      ensures exists y :: y in ExcitationStep(list, electrons, holes) && ConfigEq(x, y)
    {
      var i :| 0 <= i < |list| && list[i] == c;
      CandidateListsAt(list, electrons, holes, i);
      FlattenIncludes(CandidateLists(list, electrons, holes), i, x);
      assert x in list + added;
    }
  }

  /** A list whose members each come from `list` or conserve one of its members shares its electron number and capacity. */
  lemma OriginsShared(list: seq<NonRelConfiguration>, r: seq<NonRelConfiguration>, n: int)
    requires forall y :: y in r ==> y in list || exists i :: 0 <= i < |list| && Conserves(list[i], y)
    ensures (forall c :: c in list ==> ConfigElectronNumber(c) == n) ==> forall y :: y in r ==> ConfigElectronNumber(y) == n
    ensures (forall c :: c in list ==> WithinCapacity(c.shells)) ==> forall y :: y in r ==> WithinCapacity(y.shells)
  {
    forall y | y in r && y !in list
      ensures exists i :: 0 <= i < |list| && list[i] in list && Conserves(list[i], y)
    {
      var i :| 0 <= i < |list| && Conserves(list[i], y);
      assert list[i] in list;
    }
  }

  /** The moves of shell `s` of `c` to each target (the innermost move loops). */
  method AddShellMoves(configlist: SortedList<NonRelConfiguration>, c: NonRelConfiguration, s: Entry<NonRelInfo>, targets: seq<NonRelInfo>)
    modifies configlist
    ensures configlist.items == old(configlist.items) + ShellMoves(c, s, targets)
  {
    ghost var parts := MoveParts(c, s, targets);
    for k := 0 to |targets|
      invariant configlist.items == old(configlist.items) + Flatten(parts[..k])
    {
      ghost var before := configlist.items;
      MovePartsAt(c, s, targets, k);
      var t := targets[k];
      if t != s.key {
        if s.occupancy > 0 {
          var removed := RemoveSingleParticle(Copy(c), s.key);
          var moved := AddSingleParticle(removed.config, t);
          if removed.success && moved.success {
            configlist.Add(moved.config);
          }
        } else {
          var filled := AddSingleParticle(Copy(c), s.key);
          var moved := RemoveSingleParticle(filled.config, t);
          if filled.success && moved.success {
            configlist.Add(moved.config);
          }
        }
      }
      FlattenStep(parts, k);
      Extend(old(configlist.items), before, configlist.items, Flatten(parts[..k]), parts[k], Flatten(parts[..k + 1]));
    }
    assert parts[..|targets|] == parts;
  }

  /** Moves every electron and every hole of `c` to another shell of the matching target set. */
  method AddParticleMoves(configlist: SortedList<NonRelConfiguration>, c: NonRelConfiguration, electrons: seq<NonRelInfo>, holes: seq<NonRelInfo>)
    modifies configlist
    ensures configlist.items == old(configlist.items) + ParticleMoves(c, electrons, holes)
  {
    ghost var parts := ParticleMoveParts(c, electrons, holes, c.shells);
    for k := 0 to |c.shells|
      invariant configlist.items == old(configlist.items) + Flatten(parts[..k])
    {
      ghost var before := configlist.items;
      ParticleMovePartsAt(c, electrons, holes, c.shells, k);
      var s := c.shells[k];
      AddShellMoves(configlist, c, s, TargetsOf(s, electrons, holes));
      FlattenStep(parts, k);
      Extend(old(configlist.items), before, configlist.items, Flatten(parts[..k]), parts[k], Flatten(parts[..k + 1]));
    }
    assert parts[..|c.shells|] == parts;
  }

  /** A hole in each hole target of a configuration that already gained an electron (the inner pair-creation loop). */
  method AddHolesCreated(configlist: SortedList<NonRelConfiguration>, withElectron: NonRelConfiguration, holes: seq<NonRelInfo>)
    modifies configlist
    ensures configlist.items == old(configlist.items) + HolesCreated(withElectron, holes)
  {
    ghost var parts := HoleParts(withElectron, holes);
    for k := 0 to |holes|
      invariant configlist.items == old(configlist.items) + Flatten(parts[..k])
    {
      ghost var before := configlist.items;
      HolePartsAt(withElectron, holes, k);
      var removed := RemoveSingleParticle(Copy(withElectron), holes[k]);
      if removed.success {
        configlist.Add(removed.config);
      }
      FlattenStep(parts, k);
      Extend(old(configlist.items), before, configlist.items, Flatten(parts[..k]), parts[k], Flatten(parts[..k + 1]));
    }
    assert parts[..|holes|] == parts;
  }

  /** Pair creation: an electron in each electron target, then a hole in each hole target. */
  method AddPairCreations(configlist: SortedList<NonRelConfiguration>, c: NonRelConfiguration, electrons: seq<NonRelInfo>, holes: seq<NonRelInfo>)
    modifies configlist
    ensures configlist.items == old(configlist.items) + PairCreations(c, electrons, holes)
  {
    ghost var parts := CreationParts(c, electrons, holes);
    for k := 0 to |electrons|
      invariant configlist.items == old(configlist.items) + Flatten(parts[..k])
    {
      ghost var before := configlist.items;
      CreationPartsAt(c, electrons, holes, k);
      var withElectron := AddSingleParticle(Copy(c), electrons[k]);
      if withElectron.success {
        AddHolesCreated(configlist, withElectron.config, holes);
      }
      FlattenStep(parts, k);
      Extend(old(configlist.items), before, configlist.items, Flatten(parts[..k]), parts[k], Flatten(parts[..k + 1]));
    }
    assert parts[..|electrons|] == parts;
  }

  /** Pair annihilation of shells i < j when their occupancies have opposite signs. */
  method AddAnnihilation(configlist: SortedList<NonRelConfiguration>, c: NonRelConfiguration, i: nat, j: nat)
    requires i < j < |c.shells|
    modifies configlist
    ensures configlist.items == old(configlist.items) + AnnihilationResult(c, i, j)
  {
    var p, o := c.shells[i], c.shells[j];
    if p.occupancy < 0 && o.occupancy > 0 {
      var filled := AddSingleParticle(Copy(c), p.key);
      var emptied := RemoveSingleParticle(filled.config, o.key);
      if filled.success && emptied.success {
        configlist.Add(emptied.config);
      }
    } else if p.occupancy > 0 && o.occupancy < 0 {
      var emptied := RemoveSingleParticle(Copy(c), p.key);
      var filled := AddSingleParticle(emptied.config, o.key);
      if emptied.success && filled.success {
        configlist.Add(filled.config);
      }
    }
  }

  /** Pair annihilation of shell `i` with every later shell (the inner annihilation loop). */
  method AddAnnihilationsWith(configlist: SortedList<NonRelConfiguration>, c: NonRelConfiguration, i: nat)
    requires i < |c.shells|
    modifies configlist
    ensures configlist.items == old(configlist.items) + AnnihilationsWith(c, i)
  {
    ghost var parts := AnnihilationParts(c, i, |c.shells|);
    for j := i + 1 to |c.shells|
      invariant configlist.items == old(configlist.items) + Flatten(parts[..j - i - 1])
    {
      ghost var before := configlist.items;
      AnnihilationPartsAt(c, i, |c.shells|, j);
      AddAnnihilation(configlist, c, i, j);
      FlattenStep(parts, j - i - 1);
      Extend(old(configlist.items), before, configlist.items, Flatten(parts[..j - i - 1]), parts[j - i - 1], Flatten(parts[..j - i]));
    }
    assert parts[..|c.shells| - i - 1] == parts;
  }

  /** Pair annihilation over every pair of shells of `c` of opposite sign. */
  method AddAnnihilations(configlist: SortedList<NonRelConfiguration>, c: NonRelConfiguration)
    modifies configlist
    ensures configlist.items == old(configlist.items) + Annihilations(c)
  {
    ghost var parts := AnnihilationShellParts(c, |c.shells|);
    for i := 0 to |c.shells|
      invariant configlist.items == old(configlist.items) + Flatten(parts[..i])
    {
      ghost var before := configlist.items;
      AnnihilationShellPartsAt(c, |c.shells|, i);
      AddAnnihilationsWith(configlist, c, i);
      FlattenStep(parts, i);
      Extend(old(configlist.items), before, configlist.items, Flatten(parts[..i]), parts[i], Flatten(parts[..i + 1]));
    }
    assert parts[..|c.shells|] == parts;
  }

  /** Every candidate of one configuration, in the order of the three loops. */
  method AddCandidates(configlist: SortedList<NonRelConfiguration>, c: NonRelConfiguration, electrons: seq<NonRelInfo>, holes: seq<NonRelInfo>)
    modifies configlist
    ensures configlist.items == old(configlist.items) + Candidates(c, electrons, holes)
  {
    AddParticleMoves(configlist, c, electrons, holes);
    ghost var moved := configlist.items;
    AddPairCreations(configlist, c, electrons, holes);
    Extend(old(configlist.items), moved, configlist.items, ParticleMoves(c, electrons, holes),
           PairCreations(c, electrons, holes), ParticleMoves(c, electrons, holes) + PairCreations(c, electrons, holes));
    ghost var created := configlist.items;
    AddAnnihilations(configlist, c);
    Extend(old(configlist.items), created, configlist.items, ParticleMoves(c, electrons, holes) + PairCreations(c, electrons, holes),
           Annihilations(c), Candidates(c, electrons, holes));
  }

  /**
    GenerateExcitations: adds every candidate of every configuration present on entry, then
    sorts and removes duplicates.
   */
  method GenerateExcitations(configlist: SortedList<NonRelConfiguration>, electrons: seq<NonRelInfo>, holes: seq<NonRelInfo>)
    modifies configlist
    ensures configlist.items == ExcitationStep(old(configlist.items), electrons, holes)
  {
    var oldList := configlist.items;
    ghost var parts := CandidateLists(oldList, electrons, holes);
    for k := 0 to |oldList|
      invariant configlist.items == oldList + Flatten(parts[..k])
    {
      ghost var before := configlist.items;
      CandidateListsAt(oldList, electrons, holes, k);
      AddCandidates(configlist, oldList[k], electrons, holes);
      FlattenStep(parts, k);
      Extend(oldList, before, configlist.items, Flatten(parts[..k]), parts[k], Flatten(parts[..k + 1]));
    }
    assert parts[..|oldList|] == parts;
    configlist.Unique(ConfigLess);
  }
}
