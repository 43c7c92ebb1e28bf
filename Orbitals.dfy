/**
  Single-particle labels: the non-relativistic shell (n, l), the relativistic orbital
  (n, kappa), parity and the (2J, parity) symmetry label that HamiltonianID carries.
 */
module Orbitals {
  import opened SortedLists

  /** A non-relativistic shell n l; it holds up to 2(2l+1) electrons or holes. */
  datatype NonRelInfo = NonRelInfo(pqn: int, l: nat)

  function MaxNumElectrons(info: NonRelInfo): int {
    2 * (2 * info.l + 1)
  }

  /** Shells are ordered by principal quantum number, then by l. */
  predicate NonRelInfoLess(a: NonRelInfo, b: NonRelInfo) {
    a.pqn < b.pqn || (a.pqn == b.pqn && a.l < b.l)
  }

  /** The relativistic quantum number kappa = -(j + 1/2) for j = l + 1/2, j + 1/2 for j = l - 1/2. */
  type Kappa = k: int | k != 0 witness -1

  /** A relativistic orbital n kappa. */
  datatype OrbitalInfo = OrbitalInfo(pqn: int, kappa: Kappa)

  /** Orbital angular momentum of kappa: l = kappa for kappa > 0, l = -kappa - 1 otherwise. */
  function L(kappa: Kappa): nat {
    if kappa > 0 then kappa as nat else -(kappa as int) - 1
  }

  /** 2j + 1 = 2|kappa| states. */
  function OrbitalCapacity(info: OrbitalInfo): int {
    if info.kappa < 0 then -2 * info.kappa else 2 * info.kappa
  }

  /** Orbitals are ordered by principal quantum number, then l, then kappa. */
  predicate OrbitalInfoLess(a: OrbitalInfo, b: OrbitalInfo) {
    || a.pqn < b.pqn
    || (a.pqn == b.pqn && L(a.kappa) < L(b.kappa))
    || (a.pqn == b.pqn && L(a.kappa) == L(b.kappa) && a.kappa < b.kappa)
  }

  /** The shell an orbital belongs to (the NonRelInfo(OrbitalInfo) conversion). */
  function NonRelOf(info: OrbitalInfo): NonRelInfo {
    NonRelInfo(info.pqn, L(info.kappa))
  }

  /** j = l + 1/2, kappa = -(l + 1). */
  function FirstRelativisticInfo(info: NonRelInfo): OrbitalInfo {
    OrbitalInfo(info.pqn, -(info.l + 1))
  }

  /** j = l - 1/2, kappa = l; only exists for l > 0. */
  function SecondRelativisticInfo(info: NonRelInfo): OrbitalInfo
    requires info.l > 0
  {
    OrbitalInfo(info.pqn, info.l)
  }

  lemma RelativisticInfosOfShell(info: NonRelInfo)
    ensures NonRelOf(FirstRelativisticInfo(info)) == info
    ensures OrbitalCapacity(FirstRelativisticInfo(info)) == 2 * info.l + 2
    ensures info.l > 0 ==> NonRelOf(SecondRelativisticInfo(info)) == info
    ensures info.l > 0 ==> OrbitalCapacity(SecondRelativisticInfo(info)) == 2 * info.l
    ensures info.l > 0 ==> OrbitalInfoLess(FirstRelativisticInfo(info), SecondRelativisticInfo(info))
    ensures OrbitalCapacity(FirstRelativisticInfo(info))
            + (if info.l > 0 then OrbitalCapacity(SecondRelativisticInfo(info)) else 0)
            == MaxNumElectrons(info)
  {
  }

  datatype Parity = Even | Odd

  /** Parity of (-1)^x. */
  function ParityOf(x: int): Parity {
    if x % 2 == 0 then Even else Odd
  }

  lemma ParityOfSum(x: int, y: int)
    ensures ParityOf(x + y) == (if ParityOf(x) == ParityOf(y) then Even else Odd)
  {
  }

  /** Total angular momentum, stored doubled, and parity. */
  datatype Symmetry = Symmetry(twoJ: int, parity: Parity)

  /** The symmetry of a single orbital: 2j odd and positive. */
  type OrbitalSymmetry = sym: Symmetry | sym.twoJ >= 1 && sym.twoJ % 2 == 1 witness Symmetry(1, Even)

  /** The symmetry of a single orbital: 2j = 2|kappa| - 1, parity (-1)^l. */
  function SymmetryOfKappa(kappa: Kappa): OrbitalSymmetry {
    var k: int := if kappa < 0 then -(kappa as int) else kappa as int;
    assert (2 * k - 1) % 2 == 1 by {
      assert 2 * k - 1 == 2 * (k - 1) + 1;
    }
    Symmetry(2 * k - 1, ParityOf(L(kappa)))
  }

  /** The kappa with the given 2j and parity: |kappa| = j + 1/2, negative when l = |kappa| - 1. */
  function KappaOf(sym: OrbitalSymmetry): Kappa {
    var k := (sym.twoJ + 1) / 2;
    if ParityOf(k - 1) == sym.parity then -k else k
  }

  /** Symmetry(kappa).GetKappa() gives kappa back. */
  lemma {:induction false} KappaRoundTrip(kappa: Kappa)
    ensures KappaOf(SymmetryOfKappa(kappa)) == kappa
  {
    var k: int := if kappa < 0 then -(kappa as int) else kappa as int;
    assert (SymmetryOfKappa(kappa).twoJ + 1) / 2 == k;
    if kappa > 0 {
      assert L(kappa) == k;
      assert ParityOf(k - 1) != ParityOf(k);
    } else {
      assert L(kappa) == k - 1;
    }
  }

  /** Symmetries are ordered by 2J, then even before odd. */
  predicate SymmetryLess(a: Symmetry, b: Symmetry) {
    a.twoJ < b.twoJ || (a.twoJ == b.twoJ && a.parity == Even && b.parity == Odd)
  }

  lemma NonRelInfoOrder()
    ensures StrictTotalOrder(NonRelInfoLess)
  {
  }

  lemma OrbitalInfoOrder()
    ensures StrictTotalOrder(OrbitalInfoLess)
  {
  }

  lemma SymmetryOrder()
    ensures StrictTotalOrder(SymmetryLess)
  {
  }
}
