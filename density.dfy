/**
 * Density classification: generate_heatmap maps a day's commit count to a
 * density level with `next(idx for idx, func in enumerate(density_map) if func(value))`,
 * the index of the first predicate of the ordered `density_map` that accepts
 * the count. `run` passes a fixed five-predicate map.
 */
module Density {
  import opened Wrappers

  /** An ordered list of predicates over a commit count; the index of a predicate is its level. */
  type DensityMap = seq<int -> bool>

  /**
   * The index of the first predicate that accepts `value`, or None when no
   * predicate does (where `next` raises StopIteration).
   */
  function FirstMatch(densityMap: DensityMap, value: int): (r: Option<nat>)
    ensures r.Some? ==> r.value < |densityMap| && densityMap[r.value](value)
    ensures r.Some? ==> forall j :: 0 <= j < r.value ==> !densityMap[j](value)
    ensures r.None? <==> forall j :: 0 <= j < |densityMap| ==> !densityMap[j](value)
  {
    if densityMap == [] then None
    else if densityMap[0](value) then Some(0)
    else
      match FirstMatch(densityMap[1..], value)
      case None => None
      case Some(k) => Some(k + 1)
  }

  /** The map `run` passes: `not x`, `1 <= x < 3`, `3 <= x < 6`, `6 <= x < 8`, `8 <= x`. */
  function DefaultDensityMap(): DensityMap
  {
    [x => x == 0, x => 1 <= x < 3, x => 3 <= x < 6, x => 6 <= x < 8, x => 8 <= x]
  }

  /** The default thresholds as a plain case analysis: 0, 1-2, 3-5, 6-7, 8 and more. */
  function DefaultLevel(count: nat): (level: nat)
    ensures level <= 4
  {
    if count == 0 then 0
    else if count < 3 then 1
    else if count < 6 then 2
    else if count < 8 then 3
    else 4
  }

  /** With the default map every count is classified, and at the level the thresholds give. */
  lemma DefaultClassification(count: nat)
    ensures FirstMatch(DefaultDensityMap(), count) == Some(DefaultLevel(count))
  {
    var m := DefaultDensityMap();
    var m1, m2, m3, m4 := m[1..], m[2..], m[3..], m[4..];
    assert m1[1..] == m2 && m2[1..] == m3 && m3[1..] == m4;
    assert m4[0](count) == (8 <= count) && m4[1..] == [];
    var r4 := FirstMatch(m4, count);
    var r3 := FirstMatch(m3, count);
    var r2 := FirstMatch(m2, count);
    var r1 := FirstMatch(m1, count);
    if count >= 8 {
      assert r4 == Some(0) && r3 == Some(1) && r2 == Some(2) && r1 == Some(3);
    } else if count >= 6 {
      assert r3 == Some(0) && r2 == Some(1) && r1 == Some(2);
    } else if count >= 3 {
      assert r2 == Some(0) && r1 == Some(1);
    } else if count >= 1 {
      assert r1 == Some(0);
    }
  }

  /** The default predicates accept exactly the non-negative counts ... */
  lemma DefaultMapExhaustive(count: int)
    ensures (exists j :: 0 <= j < |DefaultDensityMap()| && DefaultDensityMap()[j](count)) <==> count >= 0
  {
    if count >= 0 {
      DefaultClassification(count);
    }
  }

  /** ... and no count is accepted by two of them. */
  lemma DefaultMapDisjoint(count: int, j: nat, k: nat)
    requires j < |DefaultDensityMap()| && k < |DefaultDensityMap()|
    requires DefaultDensityMap()[j](count) && DefaultDensityMap()[k](count)
    ensures j == k
  {
  }
}
