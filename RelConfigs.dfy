/**
  Relativistic configurations, the split of a non-relativistic configuration into them
  (SplitNonRelInfo: each shell n l divided between j = l + 1/2 and j = l - 1/2, the
  Cartesian product over shells) and the way back (NonRelConfiguration(RelativisticConfiguration)).
 */
module RelConfigs {
  import opened SortedLists
  import opened Orbitals
  import opened Occupations

  /** A relativistic configuration: its occupation map over orbitals n kappa. */
  datatype RelativisticConfiguration = RelativisticConfiguration(orbitals: seq<Entry<OrbitalInfo>>)

  function OrbitalL(info: OrbitalInfo): int {
    L(info.kappa)
  }

  function RelElectronNumber(r: RelativisticConfiguration): int {
    ElectronNumber(r.orbitals)
  }

  /** (-1)^(sum of l over the occupied orbitals). */
  function RelParity(r: RelativisticConfiguration): Parity {
    ParityOf(WeightedSum(r.orbitals, OrbitalL))
  }

  /** RelativisticConfiguration::operator<, through its occupation map. */
  predicate RelLess(a: RelativisticConfiguration, b: RelativisticConfiguration) {
    OrbitalMapLess(a.orbitals, b.orbitals)
  }

  /** Every occupancy within the orbital's 2|kappa|. */
  predicate RelWithinCapacity(s: seq<Entry<OrbitalInfo>>) {
    forall i :: 0 <= i < |s| ==> -OrbitalCapacity(s[i].key) <= s[i].occupancy <= OrbitalCapacity(s[i].key)
  }

  /** `a` particles in j = l + 1/2 and `k - a` in j = l - 1/2; empty orbitals are not listed. */
  function SplitAt(info: NonRelInfo, k: int, a: int): seq<Entry<OrbitalInfo>>
    requires info.l > 0
  {
    (if a != 0 then [Entry(FirstRelativisticInfo(info), a)] else [])
    + (if k - a != 0 then [Entry(SecondRelativisticInfo(info), k - a)] else [])
  }

  /** The splits with a = lo, lo + 1, ..., hi. */
  function SplitRange(info: NonRelInfo, k: int, lo: int, hi: int): seq<seq<Entry<OrbitalInfo>>>
    requires info.l > 0
    decreases hi - lo
  {
    if lo > hi then [] else [SplitAt(info, k, lo)] + SplitRange(info, k, lo + 1, hi)
  }

  /**
    The ways of dividing the occupancy k of one shell between its relativistic orbitals: an s shell
    has only kappa = -1; otherwise j = l + 1/2 takes a, with the sign of k, |a| <= 2l + 2 and
    |k - a| <= 2l.
   */
  function Choices(shell: Entry<NonRelInfo>): seq<seq<Entry<OrbitalInfo>>> {
    var info, k := shell.key, shell.occupancy;
    if info.l == 0 then [[Entry(FirstRelativisticInfo(info), k)]]
    else if k > 0 then
      SplitRange(info, k, if k - 2 * info.l > 0 then k - 2 * info.l else 0,
                          if k < 2 * info.l + 2 then k else 2 * info.l + 2)
    else
      SplitRange(info, k, if k > -(2 * info.l + 2) then k else -(2 * info.l + 2),
                          if k + 2 * info.l < 0 then k + 2 * info.l else 0)
  }

  /** `c` put in front of each of `es`. */
  function Prefixed(c: seq<Entry<OrbitalInfo>>, es: seq<seq<Entry<OrbitalInfo>>>): seq<seq<Entry<OrbitalInfo>>> {
    if es == [] then [] else [c + es[0]] + Prefixed(c, es[1..])
  }

  /** Every choice in `cs` followed by every continuation in `es`, choices outermost. */
  function Product(cs: seq<seq<Entry<OrbitalInfo>>>, es: seq<seq<Entry<OrbitalInfo>>>): seq<seq<Entry<OrbitalInfo>>> {
    if cs == [] then [] else Prefixed(cs[0], es) + Product(cs[1..], es)
  }

  /** The relativistic configurations SplitNonRelInfo reaches from shell `m[0]` onwards, in order. */
  function Expansions(m: seq<Entry<NonRelInfo>>): seq<seq<Entry<OrbitalInfo>>> {
    if m == [] then [[]] else Product(Choices(m[0]), Expansions(m[1..]))
  }

  /** The non-relativistic map of a relativistic one: occupancies summed per shell n l. */
  function Collapse(r: seq<Entry<OrbitalInfo>>): ShellMap {
    if r == [] then []
    else ShellInc(Collapse(r[1..]), NonRelOf(r[0].key), r[0].occupancy)
  }

  lemma {:induction false} PrefixedMembers(c: seq<Entry<OrbitalInfo>>, es: seq<seq<Entry<OrbitalInfo>>>)
    ensures forall e :: e in Prefixed(c, es) <==> exists x :: x in es && e == c + x
  {
    if es != [] {
      PrefixedMembers(c, es[1..]);
      assert es == [es[0]] + es[1..];
    }
  }

  lemma {:induction false} ProductMembers(cs: seq<seq<Entry<OrbitalInfo>>>, es: seq<seq<Entry<OrbitalInfo>>>)
    ensures forall e :: e in Product(cs, es) <==> exists c, x :: c in cs && x in es && e == c + x
  {
    if cs != [] {
      ProductMembers(cs[1..], es);
      PrefixedMembers(cs[0], es);
      assert cs == [cs[0]] + cs[1..];
      forall e | exists c, x :: c in cs && x in es && e == c + x
        ensures e in Product(cs, es)
      {
        var c, x :| c in cs && x in es && e == c + x;
        if c != cs[0] {
          assert c in cs[1..];
        }
      }
    }
  }

  lemma {:induction false} SplitRangeMembers(info: NonRelInfo, k: int, lo: int, hi: int)
    requires info.l > 0
    ensures forall c :: c in SplitRange(info, k, lo, hi) <==> exists a :: lo <= a <= hi && c == SplitAt(info, k, a)
    decreases hi - lo
  {
    if lo <= hi {
      SplitRangeMembers(info, k, lo + 1, hi);
    }
  }

  /** What a choice for a shell with occupancy k looks like. */
  lemma ChoiceShape(shell: Entry<NonRelInfo>, c: seq<Entry<OrbitalInfo>>)
    requires c in Choices(shell)
    ensures shell.key.l == 0 ==> c == [Entry(FirstRelativisticInfo(shell.key), shell.occupancy)]
    ensures shell.key.l > 0 ==> exists a ::
      && (shell.occupancy > 0 ==> 0 <= a <= shell.occupancy)
      && (shell.occupancy <= 0 ==> shell.occupancy <= a <= 0)
      && -(2 * shell.key.l + 2) <= a <= 2 * shell.key.l + 2
      && -2 * shell.key.l <= shell.occupancy - a <= 2 * shell.key.l
      && c == SplitAt(shell.key, shell.occupancy, a)
  {
    var info, k := shell.key, shell.occupancy;
    if info.l > 0 {
      if k > 0 {
        SplitRangeMembers(info, k, if k - 2 * info.l > 0 then k - 2 * info.l else 0,
                                   if k < 2 * info.l + 2 then k else 2 * info.l + 2);
      } else {
        SplitRangeMembers(info, k, if k > -(2 * info.l + 2) then k else -(2 * info.l + 2),
                                   if k + 2 * info.l < 0 then k + 2 * info.l else 0);
      }
    }
  }

  /** Inserting a key below every key of a map puts it in front. */
  lemma IncBelow(m: ShellMap, n: NonRelInfo, d: int)
    requires d != 0
    requires forall i :: 0 <= i < |m| ==> NonRelInfoLess(n, m[i].key)
    ensures Inc(m, n, d, NonRelInfoLess) == [Entry(n, d)] + m
  {
    if m != [] {
      assert NonRelInfoLess(n, m[0].key);
    }
  }

  /** An orbital whose shell lies below every shell of the rest collapses to that shell in front. */
  lemma CollapseFront(e: Entry<OrbitalInfo>, x: seq<Entry<OrbitalInfo>>)
    requires e.occupancy != 0
    requires forall i :: 0 <= i < |Collapse(x)| ==> NonRelInfoLess(NonRelOf(e.key), Collapse(x)[i].key)
    ensures Collapse([e] + x) == [Entry(NonRelOf(e.key), e.occupancy)] + Collapse(x)
  {
    assert ([e] + x)[1..] == x;
    IncBelow(Collapse(x), NonRelOf(e.key), e.occupancy);
  }

  /** Collapsing one shell's choice in front of the rest puts that shell back in front. */
  lemma {:induction false} CollapseChoice(shell: Entry<NonRelInfo>, c: seq<Entry<OrbitalInfo>>, x: seq<Entry<OrbitalInfo>>)
    requires c in Choices(shell) && shell.occupancy != 0
    requires forall i :: 0 <= i < |Collapse(x)| ==> NonRelInfoLess(shell.key, Collapse(x)[i].key)
    ensures Collapse(c + x) == [shell] + Collapse(x)
  {
    ChoiceShape(shell, c);
    var n, k := shell.key, shell.occupancy;
    RelativisticInfosOfShell(n);
    if n.l == 0 {
      CollapseFront(Entry(FirstRelativisticInfo(n), k), x);
    } else {
      var a :| && (k > 0 ==> 0 <= a <= k) && (k <= 0 ==> k <= a <= 0)
               && -(2 * n.l + 2) <= a <= 2 * n.l + 2 && -2 * n.l <= k - a <= 2 * n.l
               && c == SplitAt(n, k, a);
      var first, second := FirstRelativisticInfo(n), SecondRelativisticInfo(n);
      if a == 0 {
        assert c == [Entry(second, k)];
        CollapseFront(Entry(second, k), x);
      } else if k - a == 0 {
        assert c == [Entry(first, k)];
        CollapseFront(Entry(first, k), x);
      } else {
        assert c == [Entry(first, a), Entry(second, k - a)];
        var tail := [Entry(second, k - a)] + x;
        assert c + x == [Entry(first, a)] + tail;
        assert ([Entry(first, a)] + tail)[1..] == tail;
        CollapseFront(Entry(second, k - a), x);
      }
    }
  }

  /** Every relativistic configuration of the split collapses back to the configuration split. */
  lemma {:induction false} ExpansionsCollapse(m: ShellMap, e: seq<Entry<OrbitalInfo>>)
    requires e in Expansions(m)
    ensures Collapse(e) == m
    decreases |m|
  {
    if m == [] {
    } else {
      ProductMembers(Choices(m[0]), Expansions(m[1..]));
      var c: seq<Entry<OrbitalInfo>>, x: seq<Entry<OrbitalInfo>> :| c in Choices(m[0]) && x in Expansions(m[1..]) && e == c + x;
      var tail: ShellMap := m[1..];
      ExpansionsCollapse(tail, x);
      CollapseChoice(m[0], c, x);
      assert m == [m[0]] + tail;
    }
  }

  lemma {:induction false} ExpansionKeys(m: seq<Entry<NonRelInfo>>, e: seq<Entry<OrbitalInfo>>)
    requires e in Expansions(m)
    ensures forall i :: 0 <= i < |e| ==> exists j :: 0 <= j < |m| && NonRelOf(e[i].key) == m[j].key
    decreases |m|
  {
    if m != [] {
      ProductMembers(Choices(m[0]), Expansions(m[1..]));
      var c: seq<Entry<OrbitalInfo>>, x: seq<Entry<OrbitalInfo>> :| c in Choices(m[0]) && x in Expansions(m[1..]) && e == c + x;
      ExpansionKeys(m[1..], x);
      ChoiceShape(m[0], c);
      forall i | 0 <= i < |e| ensures exists j :: 0 <= j < |m| && NonRelOf(e[i].key) == m[j].key {
        if i < |c| {
          assert NonRelOf(e[i].key) == m[0].key;
        } else {
          assert e[i] == x[i - |c|];
          var j :| 0 <= j < |m[1..]| && NonRelOf(x[i - |c|].key) == m[1..][j].key;
          assert m[j + 1] == m[1..][j];
        }
      }
    }
  }

  /** One shell's choice is an occupation map over that shell's orbitals, within their capacity when the shell is. */
  lemma ChoiceIsMap(shell: Entry<NonRelInfo>, c: seq<Entry<OrbitalInfo>>)
    requires c in Choices(shell) && shell.occupancy != 0
    ensures IsOccupationMap(c, OrbitalInfoLess)
    ensures forall i :: 0 <= i < |c| ==> NonRelOf(c[i].key) == shell.key
    ensures -MaxNumElectrons(shell.key) <= shell.occupancy <= MaxNumElectrons(shell.key) ==> RelWithinCapacity(c)
  {
    ChoiceShape(shell, c);
  }

  lemma ConcatIsMap(c: seq<Entry<OrbitalInfo>>, x: seq<Entry<OrbitalInfo>>)
    requires IsOccupationMap(c, OrbitalInfoLess) && IsOccupationMap(x, OrbitalInfoLess)
    requires forall i, j :: 0 <= i < |c| && 0 <= j < |x| ==> OrbitalInfoLess(c[i].key, x[j].key)
    ensures IsOccupationMap(c + x, OrbitalInfoLess)
  {
    var e := c + x;
    forall i, j | 0 <= i < j < |e| ensures OrbitalInfoLess(e[i].key, e[j].key) {
      if j < |c| {
        assert e[i] == c[i] && e[j] == c[j];
      } else if i >= |c| {
        assert e[i] == x[i - |c|] && e[j] == x[j - |c|];
      } else {
        assert e[i] == c[i] && e[j] == x[j - |c|];
      }
    }
  }

  /** Each split is a genuine relativistic occupation map: orbitals in order, no empty orbital. */
  lemma {:induction false} ExpansionIsMap(m: ShellMap, e: seq<Entry<OrbitalInfo>>)
    requires e in Expansions(m)
    ensures IsOccupationMap(e, OrbitalInfoLess)
    decreases |m|
  {
    if m != [] {
      ProductMembers(Choices(m[0]), Expansions(m[1..]));
      var c: seq<Entry<OrbitalInfo>>, x: seq<Entry<OrbitalInfo>> :| c in Choices(m[0]) && x in Expansions(m[1..]) && e == c + x;
      var tail: ShellMap := m[1..];
      ExpansionIsMap(tail, x);
      ExpansionKeys(tail, x);
      ChoiceIsMap(m[0], c);
      forall i, j | 0 <= i < |c| && 0 <= j < |x| ensures OrbitalInfoLess(c[i].key, x[j].key) {
        var k :| 0 <= k < |tail| && NonRelOf(x[j].key) == tail[k].key;
        assert NonRelInfoLess(m[0].key, m[k + 1].key);
      }
      ConcatIsMap(c, x);
    }
  }

  /** A split keeps every occupancy within its orbital when the configuration is within capacity. */
  lemma {:induction false} ExpansionWithinCapacity(m: ShellMap, e: seq<Entry<OrbitalInfo>>)
    requires e in Expansions(m) && WithinCapacity(m)
    ensures RelWithinCapacity(e)
    decreases |m|
  {
    if m != [] {
      ProductMembers(Choices(m[0]), Expansions(m[1..]));
      var c: seq<Entry<OrbitalInfo>>, x: seq<Entry<OrbitalInfo>> :| c in Choices(m[0]) && x in Expansions(m[1..]) && e == c + x;
      var tail: ShellMap := m[1..];
      ExpansionWithinCapacity(tail, x);
      ChoiceIsMap(m[0], c);
      assert RelWithinCapacity(c);
      assert forall i :: 0 <= i < |x| ==> e[|c| + i] == x[i];
    }
  }

  /** Summing over orbitals or over the shells they collapse to gives the same total. */
  lemma {:induction false} CollapseWeightedSum(r: seq<Entry<OrbitalInfo>>, w: NonRelInfo -> int, v: OrbitalInfo -> int)
    requires forall o :: v(o) == w(NonRelOf(o))
    ensures WeightedSum(Collapse(r), w) == WeightedSum(r, v)
  {
    if r != [] {
      CollapseWeightedSum(r[1..], w, v);
      IncWeightedSum(Collapse(r[1..]), NonRelOf(r[0].key), r[0].occupancy, NonRelInfoLess, w);
    }
  }

  /** Electron number and parity of every split are those of the configuration split. */
  lemma ExpansionConserves(m: ShellMap, e: seq<Entry<OrbitalInfo>>)
    requires e in Expansions(m)
    ensures ElectronNumber(e) == ElectronNumber(m)
    ensures RelParity(RelativisticConfiguration(e)) == ShellParity(m)
  {
    ExpansionsCollapse(m, e);
    CollapseWeightedSum(e, One, One);
    CollapseWeightedSum(e, ShellL, OrbitalL);
  }

  lemma {:induction false} PrefixedConcat(p: seq<Entry<OrbitalInfo>>, a: seq<seq<Entry<OrbitalInfo>>>, b: seq<seq<Entry<OrbitalInfo>>>)
    ensures Prefixed(p, a + b) == Prefixed(p, a) + Prefixed(p, b)
  {
    if a != [] {
      assert (a + b)[1..] == a[1..] + b;
      PrefixedConcat(p, a[1..], b);
    } else {
      assert a + b == b;
    }
  }

  lemma {:induction false} PrefixedPrefixed(p: seq<Entry<OrbitalInfo>>, c: seq<Entry<OrbitalInfo>>, es: seq<seq<Entry<OrbitalInfo>>>)
    ensures Prefixed(p, Prefixed(c, es)) == Prefixed(p + c, es)
  {
    if es != [] {
      PrefixedPrefixed(p, c, es[1..]);
      assert p + (c + es[0]) == (p + c) + es[0];
    }
  }

  lemma {:induction false} ProductSnoc(cs: seq<seq<Entry<OrbitalInfo>>>, c: seq<Entry<OrbitalInfo>>, es: seq<seq<Entry<OrbitalInfo>>>)
    ensures Product(cs + [c], es) == Product(cs, es) + Prefixed(c, es)
  {
    if cs == [] {
      assert cs + [c] == [c];
    } else {
      assert (cs + [c])[1..] == cs[1..] + [c];
      ProductSnoc(cs[1..], c, es);
    }
  }

  /** The relativistic configurations with the given occupation maps, in order. */
  function AsConfigs(es: seq<seq<Entry<OrbitalInfo>>>): (r: seq<RelativisticConfiguration>)
    ensures |r| == |es| && forall i :: 0 <= i < |es| ==> r[i].orbitals == es[i]
  {
    if es == [] then [] else [RelativisticConfiguration(es[0])] + AsConfigs(es[1..])
  }

  lemma AsConfigsConcat(a: seq<seq<Entry<OrbitalInfo>>>, b: seq<seq<Entry<OrbitalInfo>>>)
    ensures AsConfigs(a + b) == AsConfigs(a) + AsConfigs(b)
  {
    var l, r := AsConfigs(a + b), AsConfigs(a) + AsConfigs(b);
    assert |l| == |r|;
    forall i | 0 <= i < |l| ensures l[i] == r[i] {
      if i < |a| {
        assert (a + b)[i] == a[i];
      } else {
        assert (a + b)[i] == b[i - |a|];
      }
    }
  }
}
