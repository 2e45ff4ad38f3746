/** Values the voxel engine stores but never inspects. */
module Materials {
  /** A MaterialState: compared with `equals` only. */
  type Material(==, !new)
}

/**
 * The material dictionary of a ComplexMaterialShape: a Guava HashBiMap from short ids
 * to materials, together with its inverse view. Both directions are kept here as two
 * maps; `Valid` says they are each other's inverse, which is the bimap's invariant.
 */
module Dictionaries {
  import opened Wrappers
  import opened Materials

  datatype Dictionary = Dictionary(byId: map<int, Material>, byMaterial: map<Material, int>)

  ghost predicate Valid(d: Dictionary) {
    && (forall k | k in d.byId :: d.byId[k] in d.byMaterial && d.byMaterial[d.byId[k]] == k)
    && (forall m | m in d.byMaterial :: d.byMaterial[m] in d.byId && d.byId[d.byMaterial[m]] == m)
  }

  /** No two ids name the same material. */
  ghost predicate Injective(byId: map<int, Material>) {
    forall j, k | j in byId && k in byId && byId[j] == byId[k] :: j == k
  }

  lemma ValidIsInjective(d: Dictionary)
    requires Valid(d)
    ensures Injective(d.byId)
  {
  }

  /** A dictionary holding the single binding k <-> m. */
  function Single(k: int, m: Material): (d: Dictionary)
    ensures Valid(d) && d.byId == map[k := m]
  {
    Dictionary(map[k := m], map[m := k])
  }

  /**
   * materialDictionary.put(k, m): refused with IllegalArgumentException when m is
   * already bound to another id; otherwise binds k to m, dropping k's previous material.
   */
  function Put(d: Dictionary, k: int, m: Material): (r: Outcome<Dictionary>)
    requires Valid(d)
    ensures r.Thrown? <==> m in d.byMaterial && d.byMaterial[m] != k
    ensures r.Thrown? ==> r.fault == IllegalArgument
    ensures r.Ok? ==> Valid(r.value) && r.value.byId == d.byId[k := m]
  {
    if m in d.byMaterial && d.byMaterial[m] != k then Thrown(IllegalArgument)
    else
      var back := if k in d.byId then d.byMaterial - {d.byId[k]} else d.byMaterial;
      Ok(Dictionary(d.byId[k := m], back[m := k]))
  }

  /**
   * inverseDictionary.put(m, k): refused when the id k is already bound to another
   * material; otherwise binds m to k, dropping m's previous id.
   */
  function InversePut(d: Dictionary, m: Material, k: int): (r: Outcome<Dictionary>)
    requires Valid(d)
    ensures r.Thrown? <==> k in d.byId && d.byId[k] != m
    ensures r.Thrown? ==> r.fault == IllegalArgument
    ensures r.Ok? ==> Valid(r.value) && r.value.byMaterial == d.byMaterial[m := k]
  {
    if k in d.byId && d.byId[k] != m then Thrown(IllegalArgument)
    else
      var fwd := if m in d.byMaterial then d.byId - {d.byMaterial[m]} else d.byId;
      Ok(Dictionary(fwd[k := m], d.byMaterial[m := k]))
  }
}
