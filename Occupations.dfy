/**
  Configuration<Key, int>: an ordered map from single-particle labels to signed occupations
  (negative for holes), kept as its sequence of entries in key order with no zero entry.
  ShellMap is the map of a NonRelConfiguration, over (n, l) shells.
 */
module Occupations {
  import opened SortedLists
  import opened Orbitals

  datatype Entry<K> = Entry(key: K, occupancy: int)

  /** Entries in strictly increasing key order, none with occupancy 0 (a std::map with zeros erased). */
  predicate IsOccupationMap<K>(s: seq<Entry<K>>, less: (K, K) -> bool) {
    && (forall i :: 0 <= i < |s| ==> s[i].occupancy != 0)
    && (forall i, j :: 0 <= i < j < |s| ==> less(s[i].key, s[j].key))
  }

  /** The occupation map of a non-relativistic configuration. */
  type ShellMap = s: seq<Entry<NonRelInfo>> | IsOccupationMap(s, NonRelInfoLess) witness []

  /** The occupancy stored for `k`, 0 when `k` is absent. */
  function Occupancy<K(==)>(s: seq<Entry<K>>, k: K): int {
    if s == [] then 0
    else if s[0].key == k then s[0].occupancy
    else Occupancy(s[1..], k)
  }

  /** The sum of w(key) * occupancy over the entries. */
  function WeightedSum<K>(s: seq<Entry<K>>, w: K -> int): int {
    if s == [] then 0 else w(s[0].key) * s[0].occupancy + WeightedSum(s[1..], w)
  }

  function One<K>(k: K): int {
    1
  }

  /** Electrons minus holes. */
  function ElectronNumber<K>(s: seq<Entry<K>>): int {
    WeightedSum(s, One)
  }

  /** Adds `d` to the occupancy of `k`, inserting the key in order or erasing it when it reaches 0. */
  function Inc<K(==)>(s: seq<Entry<K>>, k: K, d: int, less: (K, K) -> bool): seq<Entry<K>> {
    if s == [] then (if d == 0 then [] else [Entry(k, d)])
    else if s[0].key == k then
      (if s[0].occupancy + d == 0 then s[1..] else [Entry(k, s[0].occupancy + d)] + s[1..])
    else if less(k, s[0].key) then (if d == 0 then s else [Entry(k, d)] + s)
    else [s[0]] + Inc(s[1..], k, d, less)
  }

  lemma {:induction false} IncKeys<K>(s: seq<Entry<K>>, k: K, d: int, less: (K, K) -> bool)
    ensures forall e :: e in Inc(s, k, d, less) ==> e.key == k || exists i :: 0 <= i < |s| && s[i].key == e.key
  {
    if s != [] && s[0].key != k && !less(k, s[0].key) {
      IncKeys(s[1..], k, d, less);
      forall e | e in Inc(s, k, d, less)
        ensures e.key == k || exists i :: 0 <= i < |s| && s[i].key == e.key
      {
        if e != s[0] {
          assert e in Inc(s[1..], k, d, less);
          if e.key != k {
            var i :| 0 <= i < |s[1..]| && s[1..][i].key == e.key;
            assert s[i + 1].key == e.key;
          }
        }
      }
    }
  }

  /** An entry below every key of a map extends it to a map. */
  lemma PrependIsMap<K>(e: Entry<K>, s: seq<Entry<K>>, less: (K, K) -> bool)
    requires IsOccupationMap(s, less) && e.occupancy != 0
    requires forall i :: 0 <= i < |s| ==> less(e.key, s[i].key)
    ensures IsOccupationMap([e] + s, less)
  {
    var r := [e] + s;
    forall i, j | 0 <= i < j < |r| ensures less(r[i].key, r[j].key) {
      assert r[j] == s[j - 1];
      if i > 0 {
        assert r[i] == s[i - 1];
      }
    }
  }

  lemma TailIsMap<K>(s: seq<Entry<K>>, less: (K, K) -> bool)
    requires IsOccupationMap(s, less) && s != []
    ensures IsOccupationMap(s[1..], less)
    ensures forall i :: 0 <= i < |s[1..]| ==> less(s[0].key, s[1..][i].key)
  {
    forall i, j | 0 <= i < j < |s[1..]| ensures less(s[1..][i].key, s[1..][j].key) {
      assert s[1..][i] == s[i + 1] && s[1..][j] == s[j + 1];
    }
    forall i | 0 <= i < |s[1..]| ensures less(s[0].key, s[1..][i].key) {
      assert s[1..][i] == s[i + 1];
    }
  }

  lemma {:induction false} IncIsMap<K(!new)>(s: seq<Entry<K>>, k: K, d: int, less: (K, K) -> bool)
    requires StrictTotalOrder(less) && IsOccupationMap(s, less)
    ensures IsOccupationMap(Inc(s, k, d, less), less)
  {
    if s == [] {
    } else if s[0].key == k {
      TailIsMap(s, less);
      if s[0].occupancy + d != 0 {
        PrependIsMap(Entry(k, s[0].occupancy + d), s[1..], less);
      }
    } else if less(k, s[0].key) {
      if d != 0 {
        forall i | 0 <= i < |s| ensures less(k, s[i].key) {
          if i > 0 {
            assert less(s[0].key, s[i].key);
          }
        }
        PrependIsMap(Entry(k, d), s, less);
      }
    } else {
      assert less(s[0].key, k);
      TailIsMap(s, less);
      IncIsMap(s[1..], k, d, less);
      IncKeys(s[1..], k, d, less);
      var t := Inc(s[1..], k, d, less);
      forall j | 0 <= j < |t| ensures less(s[0].key, t[j].key) {
        assert t[j] in t;
        if t[j].key != k {
          var m :| 0 <= m < |s[1..]| && s[1..][m].key == t[j].key;
        }
      }
      PrependIsMap(s[0], t, less);
    }
  }

  /** A key below every key of the map is absent from it. */
  lemma {:induction false} OccupancyOfSmallerKey<K(!new)>(s: seq<Entry<K>>, k: K, less: (K, K) -> bool)
    requires Irreflexive(less)
    requires forall i :: 0 <= i < |s| ==> less(k, s[i].key)
    ensures Occupancy(s, k) == 0
  {
    if s != [] {
      assert less(k, s[0].key);
      OccupancyOfSmallerKey(s[1..], k, less);
    }
  }

  lemma {:induction false} IncOccupancy<K(!new)>(s: seq<Entry<K>>, k: K, d: int, less: (K, K) -> bool, x: K)
    requires StrictTotalOrder(less) && IsOccupationMap(s, less)
    ensures Occupancy(Inc(s, k, d, less), x) == Occupancy(s, x) + (if x == k then d else 0)
  {
    if s == [] {
    } else if s[0].key == k {
      if x != k && s[0].occupancy + d != 0 {
        assert Inc(s, k, d, less)[1..] == s[1..];
      } else if x == k {
        OccupancyOfSmallerKey(s[1..], k, less);
      }
    } else if less(k, s[0].key) {
      if x == k && d != 0 {
        assert Inc(s, k, d, less) == [Entry(k, d)] + s;
        OccupancyOfSmallerKey(s, k, less);
      } else if x == k {
        OccupancyOfSmallerKey(s, k, less);
      }
    } else {
      IncOccupancy(s[1..], k, d, less, x);
      assert Inc(s, k, d, less) == [s[0]] + Inc(s[1..], k, d, less);
    }
  }

  lemma {:induction false} IncWeightedSum<K>(s: seq<Entry<K>>, k: K, d: int, less: (K, K) -> bool, w: K -> int)
    ensures WeightedSum(Inc(s, k, d, less), w) == WeightedSum(s, w) + w(k) * d
  {
    if s == [] {
    } else if s[0].key == k {
      assert w(k) * (s[0].occupancy + d) == w(k) * s[0].occupancy + w(k) * d;
      if s[0].occupancy + d != 0 {
        assert Inc(s, k, d, less)[1..] == s[1..];
      }
    } else if less(k, s[0].key) {
      if d != 0 {
        assert Inc(s, k, d, less)[1..] == s;
      }
    } else {
      IncWeightedSum(s[1..], k, d, less, w);
      assert Inc(s, k, d, less)[1..] == Inc(s[1..], k, d, less);
    }
  }

  /** The first entry's key has the first entry's occupancy. */
  lemma OccupancyOfHead<K>(s: seq<Entry<K>>)
    ensures s != [] ==> Occupancy(s, s[0].key) == s[0].occupancy
  {
  }

  /** A key below the first key of an occupation map is absent from it. */
  lemma OccupancyBelowHead<K(!new)>(s: seq<Entry<K>>, k: K, less: (K, K) -> bool)
    ensures StrictOrder(less) && IsOccupationMap(s, less) && s != [] && less(k, s[0].key) ==> Occupancy(s, k) == 0
  {
    if StrictOrder(less) && IsOccupationMap(s, less) && s != [] && less(k, s[0].key) {
      forall i | 0 <= i < |s| ensures less(k, s[i].key) {
        if i > 0 {
          assert less(s[0].key, s[i].key);
        }
      }
      OccupancyOfSmallerKey(s, k, less);
    }
  }

  /** Two occupation maps that agree on every key are the same map. */
  lemma {:induction false} OccupationMapExtensionality<K(!new)>(s: seq<Entry<K>>, t: seq<Entry<K>>, less: (K, K) -> bool)
    requires StrictTotalOrder(less) && IsOccupationMap(s, less) && IsOccupationMap(t, less)
    requires forall x :: Occupancy(s, x) == Occupancy(t, x)
    ensures s == t
  {
    if s == [] && t == [] {
    } else if s == [] || t == [] {
      OccupancyOfHead(s);
      OccupancyOfHead(t);
      assert false;
    } else {
      var a, b := s[0].key, t[0].key;
      if less(a, b) {
        OccupancyBelowHead(t, a, less);
        OccupancyOfHead(s);
        assert false;
      } else if less(b, a) {
        OccupancyBelowHead(s, b, less);
        OccupancyOfHead(t);
        assert false;
      } else {
        assert a == b;
        assert Occupancy(s, a) == s[0].occupancy && Occupancy(t, a) == t[0].occupancy;
        forall x ensures Occupancy(s[1..], x) == Occupancy(t[1..], x) {
          if x == a {
            OccupancyOfSmallerKey(s[1..], a, less);
            OccupancyOfSmallerKey(t[1..], a, less);
          } else {
            assert Occupancy(s, x) == Occupancy(s[1..], x);
            assert Occupancy(t, x) == Occupancy(t[1..], x);
          }
        }
        OccupationMapExtensionality(s[1..], t[1..], less);
        assert s == [s[0]] + s[1..] && t == [t[0]] + t[1..];
      }
    }
  }

  /** Configuration::operator<: entry by entry, key then occupancy; a proper prefix comes first. */
  predicate LexLess<K(==)>(a: seq<Entry<K>>, b: seq<Entry<K>>, less: (K, K) -> bool) {
    if a == [] then b != []
    else if b == [] then false
    else if less(a[0].key, b[0].key) then true
    else if less(b[0].key, a[0].key) then false
    else if a[0].occupancy < b[0].occupancy then true
    else if b[0].occupancy < a[0].occupancy then false
    else LexLess(a[1..], b[1..], less)
  }

  lemma {:induction false} LexLessIrreflexive<K(!new)>(a: seq<Entry<K>>, less: (K, K) -> bool)
    requires Irreflexive(less)
    ensures !LexLess(a, a, less)
  {
    if a != [] {
      LexLessIrreflexive(a[1..], less);
    }
  }

  lemma {:induction false} LexLessTransitive<K(!new)>(a: seq<Entry<K>>, b: seq<Entry<K>>, c: seq<Entry<K>>, less: (K, K) -> bool)
    requires StrictTotalOrder(less)
    requires LexLess(a, b, less) && LexLess(b, c, less)
    ensures LexLess(a, c, less)
  {
    if a != [] && b != [] && c != [] {
      if a[0].key == b[0].key && b[0].key == c[0].key
         && a[0].occupancy == b[0].occupancy && b[0].occupancy == c[0].occupancy {
        LexLessTransitive(a[1..], b[1..], c[1..], less);
      }
    }
  }

  lemma {:induction false} LexLessTotal<K(!new)>(a: seq<Entry<K>>, b: seq<Entry<K>>, less: (K, K) -> bool)
    requires StrictTotalOrder(less)
    requires a != b
    ensures LexLess(a, b, less) || LexLess(b, a, less)
  {
    if a != [] && b != [] && a[0] == b[0] {
      assert a == [a[0]] + a[1..] && b == [b[0]] + b[1..];
      LexLessTotal(a[1..], b[1..], less);
    }
  }

  /** The order of non-relativistic occupation maps. */
  predicate ShellMapLess(a: seq<Entry<NonRelInfo>>, b: seq<Entry<NonRelInfo>>) {
    LexLess(a, b, NonRelInfoLess)
  }

  /** The order of relativistic occupation maps. */
  predicate OrbitalMapLess(a: seq<Entry<OrbitalInfo>>, b: seq<Entry<OrbitalInfo>>) {
    LexLess(a, b, OrbitalInfoLess)
  }

  lemma ShellMapOrder()
    ensures StrictTotalOrder(ShellMapLess)
  {
    NonRelInfoOrder();
    forall a ensures !ShellMapLess(a, a) {
      LexLessIrreflexive(a, NonRelInfoLess);
    }
    forall a, b, c | ShellMapLess(a, b) && ShellMapLess(b, c) ensures ShellMapLess(a, c) {
      LexLessTransitive(a, b, c, NonRelInfoLess);
    }
    forall a, b | a != b ensures ShellMapLess(a, b) || ShellMapLess(b, a) {
      LexLessTotal(a, b, NonRelInfoLess);
    }
  }

  lemma OrbitalMapOrder()
    ensures StrictTotalOrder(OrbitalMapLess)
  {
    OrbitalInfoOrder();
    forall a ensures !OrbitalMapLess(a, a) {
      LexLessIrreflexive(a, OrbitalInfoLess);
    }
    forall a, b, c | OrbitalMapLess(a, b) && OrbitalMapLess(b, c) ensures OrbitalMapLess(a, c) {
      LexLessTransitive(a, b, c, OrbitalInfoLess);
    }
    forall a, b | a != b ensures OrbitalMapLess(a, b) || OrbitalMapLess(b, a) {
      LexLessTotal(a, b, OrbitalInfoLess);
    }
  }

  function ShellL(info: NonRelInfo): int {
    info.l
  }

  /** (-1)^(sum of l over the occupied shells), the parity of a non-relativistic configuration. */
  function ShellParity(m: seq<Entry<NonRelInfo>>): Parity {
    ParityOf(WeightedSum(m, ShellL))
  }

  /** Every |occupancy| within the shell's 2(2l+1). */
  predicate WithinCapacity(m: seq<Entry<NonRelInfo>>) {
    forall i :: 0 <= i < |m| ==> -MaxNumElectrons(m[i].key) <= m[i].occupancy <= MaxNumElectrons(m[i].key)
  }

  /** Adds `d` to the occupancy of shell `n` of a configuration's map. */
  function ShellInc(m: ShellMap, n: NonRelInfo, d: int): ShellMap {
    NonRelInfoOrder();
    IncIsMap(m, n, d, NonRelInfoLess);
    Inc(m, n, d, NonRelInfoLess)
  }

  /** In a map every stored entry is what Occupancy finds for its key. */
  lemma {:induction false} OccupancyOfEntry<K(!new)>(s: seq<Entry<K>>, less: (K, K) -> bool, i: int)
    requires StrictOrder(less) && IsOccupationMap(s, less) && 0 <= i < |s|
    ensures Occupancy(s, s[i].key) == s[i].occupancy
  {
    if i > 0 {
      assert less(s[0].key, s[i].key);
      assert s[1..][i - 1] == s[i];
      OccupancyOfEntry(s[1..], less, i - 1);
    }
  }

  /** A nonzero occupancy is stored in some entry. */
  lemma {:induction false} OccupancyInEntry<K>(s: seq<Entry<K>>, x: K)
    requires Occupancy(s, x) != 0
    ensures exists i :: 0 <= i < |s| && s[i].key == x && s[i].occupancy == Occupancy(s, x)
  {
    if s[0].key != x {
      OccupancyInEntry(s[1..], x);
      var i :| 0 <= i < |s[1..]| && s[1..][i].key == x && s[1..][i].occupancy == Occupancy(s, x);
      assert s[i + 1] == s[1..][i];
    }
  }

  /** Capacity stated key by key. */
  lemma WithinCapacityByOccupancy(m: ShellMap)
    ensures WithinCapacity(m) <==> forall x :: -MaxNumElectrons(x) <= Occupancy(m, x) <= MaxNumElectrons(x)
  {
    NonRelInfoOrder();
    if WithinCapacity(m) {
      forall x ensures -MaxNumElectrons(x) <= Occupancy(m, x) <= MaxNumElectrons(x) {
        if Occupancy(m, x) != 0 {
          OccupancyInEntry(m, x);
        }
      }
    }
    if forall x :: -MaxNumElectrons(x) <= Occupancy(m, x) <= MaxNumElectrons(x) {
      forall i | 0 <= i < |m| ensures -MaxNumElectrons(m[i].key) <= m[i].occupancy <= MaxNumElectrons(m[i].key) {
        OccupancyOfEntry(m, NonRelInfoLess, i);
      }
    }
  }
}
