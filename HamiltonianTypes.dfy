/**
  The two HamiltonianID variants: SingleOrbitalID (one orbital, told apart by its principal
  quantum number) and NonRelID (the relativistic configurations drawn from one non-relativistic
  configuration). Both are values ordered lexicographically, symmetry first.
 */
module HamiltonianTypes {
  import opened Wrappers
  import opened SortedLists
  import opened Orbitals
  import opened Occupations
  import opened RelConfigs
  import opened NonRelConfigs

  /** A Hamiltonian of one configuration made of one orbital. */
  datatype SingleOrbitalID = SingleOrbitalID(sym: OrbitalSymmetry, pqn: int)

  /** SingleOrbitalID(kappa, pqn) and SingleOrbitalID(OrbitalInfo): the symmetry is that of kappa. */
  function SingleOrbitalIDOf(info: OrbitalInfo): SingleOrbitalID {
    SingleOrbitalID(SymmetryOfKappa(info.kappa), info.pqn)
  }

  /** operator<: by symmetry, then by principal quantum number. */
  predicate SingleOrbitalLess(a: SingleOrbitalID, b: SingleOrbitalID) {
    if SymmetryLess(a.sym, b.sym) then true
    else if SymmetryLess(b.sym, a.sym) then false
    else a.pqn < b.pqn
  }

  /** operator>: the other one is less. */
  predicate SingleOrbitalGreater(a: SingleOrbitalID, b: SingleOrbitalID) {
    SingleOrbitalLess(b, a)
  }

  /** operator==: same symmetry and same principal quantum number. */
  predicate SingleOrbitalEq(a: SingleOrbitalID, b: SingleOrbitalID) {
    a.sym == b.sym && a.pqn == b.pqn
  }

  function GetOrbitalInfo(id: SingleOrbitalID): OrbitalInfo {
    OrbitalInfo(id.pqn, KappaOf(id.sym))
  }

  /** Name and Print: the name of the orbital, given by `orbitalName` (OrbitalInfo::Name). */
  function SingleOrbitalName(id: SingleOrbitalID, orbitalName: OrbitalInfo -> string): string {
    orbitalName(GetOrbitalInfo(id))
  }

  /** Clone: a copy through the copy constructor. */
  function CloneSingleOrbital(id: SingleOrbitalID): SingleOrbitalID {
    SingleOrbitalID(id.sym, id.pqn)
  }

  /** An ID built from an orbital gives that orbital back, and is named after it. */
  lemma SingleOrbitalRoundTrip(info: OrbitalInfo, orbitalName: OrbitalInfo -> string)
    ensures GetOrbitalInfo(SingleOrbitalIDOf(info)) == info
    ensures SingleOrbitalName(SingleOrbitalIDOf(info), orbitalName) == orbitalName(info)
  {
    KappaRoundTrip(info.kappa);
  }

  /** Two orbitals give equal IDs exactly when they are the same orbital. */
  lemma SingleOrbitalIDInjective(a: OrbitalInfo, b: OrbitalInfo)
    ensures SingleOrbitalEq(SingleOrbitalIDOf(a), SingleOrbitalIDOf(b)) <==> a == b
  {
    KappaRoundTrip(a.kappa);
    KappaRoundTrip(b.kappa);
  }

  /** operator< is a strict total order, operator== is identity, and exactly one of <, ==, > holds. */
  lemma SingleOrbitalOrder(a: SingleOrbitalID, b: SingleOrbitalID)
    ensures StrictTotalOrder(SingleOrbitalLess)
    ensures SingleOrbitalEq(a, b) <==> a == b
    ensures SingleOrbitalGreater(a, b) <==> !SingleOrbitalLess(a, b) && !SingleOrbitalEq(a, b)
  {
    SymmetryOrder();
  }

  /** A clone equals the original and orders like it. */
  lemma CloneSingleOrbitalEqual(id: SingleOrbitalID, other: SingleOrbitalID)
    ensures SingleOrbitalEq(CloneSingleOrbital(id), id)
    ensures SingleOrbitalLess(CloneSingleOrbital(id), other) <==> SingleOrbitalLess(id, other)
  {
  }

  /** A Hamiltonian of the relativistic configurations of one non-relativistic configuration. */
  datatype NonRelID = NonRelID(sym: Symmetry, nrconfig: NonRelConfiguration, configs: Option<seq<RelativisticConfiguration>>)

  /** NonRelID(config, two_j, rconfigs): the parity is the configuration's, which is copied. */
  function NonRelIDOf(config: NonRelConfiguration, twoJ: int, rconfigs: Option<seq<RelativisticConfiguration>>): NonRelID {
    NonRelID(Symmetry(twoJ, ConfigParity(config)), Copy(config), rconfigs)
  }

  /** operator<: by symmetry, then by configuration. */
  predicate NonRelIDLess(a: NonRelID, b: NonRelID) {
    if SymmetryLess(a.sym, b.sym) then true
    else if SymmetryLess(b.sym, a.sym) then false
    else ConfigLess(a.nrconfig, b.nrconfig)
  }

  predicate NonRelIDGreater(a: NonRelID, b: NonRelID) {
    NonRelIDLess(b, a)
  }

  /** operator==: same symmetry and the same configuration. */
  predicate NonRelIDEq(a: NonRelID, b: NonRelID) {
    a.sym == b.sym && ConfigEq(a.nrconfig, b.nrconfig)
  }

  /** Name: the configuration's name, a dot, then the name of the symmetry. */
  function NonRelIDName(configName: string, symmetryName: string): string {
    configName + "." + symmetryName
  }

  /** Clone: the copy constructor, which copies the configuration through its own copy constructor. */
  function CloneNonRelID(id: NonRelID): NonRelID {
    NonRelID(id.sym, Copy(id.nrconfig), id.configs)
  }

  /** operator< is a strict order, and for any two IDs exactly one of <, ==, > holds. */
  lemma NonRelIDOrder(a: NonRelID, b: NonRelID)
    ensures StrictOrder(NonRelIDLess)
    ensures NonRelIDGreater(a, b) <==> !NonRelIDLess(a, b) && !NonRelIDEq(a, b)
    ensures NonRelIDEq(a, b) ==> !NonRelIDLess(a, b) && !NonRelIDLess(b, a)
  {
    SymmetryOrder();
    ConfigOrder();
    ConfigEquivalence(a.nrconfig, b.nrconfig);
  }

  /** A clone equals the original and orders like it, though it does not keep the configuration's relconfiglist. */
  lemma CloneNonRelIDEqual(id: NonRelID, other: NonRelID)
    ensures NonRelIDEq(CloneNonRelID(id), id)
    ensures NonRelIDLess(CloneNonRelID(id), other) <==> NonRelIDLess(id, other)
    ensures CloneNonRelID(id).nrconfig.relconfiglist == None
  {
  }

  /** The ID's parity is that of every relativistic configuration its configuration splits into. */
  lemma NonRelIDParity(config: NonRelConfiguration, twoJ: int, rconfigs: Option<seq<RelativisticConfiguration>>, r: RelativisticConfiguration)
    requires r in AsConfigs(Expansions(config.shells))
    ensures RelParity(r) == NonRelIDOf(config, twoJ, rconfigs).sym.parity
    ensures NonRelIDEq(NonRelIDOf(config, twoJ, rconfigs), NonRelIDOf(Copy(config), twoJ, None))
  {
    RelConfigListSpec(config, AsConfigs(Expansions(config.shells)), r);
  }

  /** The dot after the configuration's name splits the name back into its two parts. */
  lemma {:induction false} NonRelIDNameSplit(configName: string, symmetryName: string)
    requires '.' !in configName
    ensures var name := NonRelIDName(configName, symmetryName);
      && |configName| < |name| && name[|configName|] == '.'
      && (forall i :: 0 <= i < |configName| ==> name[i] != '.')
      && name[..|configName|] == configName && name[|configName| + 1..] == symmetryName
  {
    var name := NonRelIDName(configName, symmetryName);
    assert name[..|configName|] == configName;
    assert name[|configName| + 1..] == symmetryName;
    forall i | 0 <= i < |configName| ensures name[i] != '.' {
      assert name[i] == configName[i];
    }
  }
}
