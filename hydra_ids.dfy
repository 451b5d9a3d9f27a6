/**
 * Prim ids of the Hydra scene delegate: the delegate's own path with one
 * element appended, "O_", "M_" or "W_" followed by the 64-bit address of
 * the Blender datablock in 16 lower-case hex digits; and which Blender
 * object types the delegate exports.
 */
module HydraIds {
  import opened Text

  /** An SdfPath as its list of elements; the empty list is SdfPath::EmptyPath(). */
  datatype SdfPath = SdfPath(elements: seq<string>)

  const EmptyPath := SdfPath([])

  function AppendElement(p: SdfPath, e: string): (r: SdfPath)
    ensures |r.elements| == |p.elements| + 1 && r.elements[..|p.elements|] == p.elements
    ensures r.elements[|p.elements|] == e
  {
    SdfPath(p.elements + [e])
  }

  /** A datablock address as `uint64_t`. */
  type Pointer = p: nat | p < 0x1_0000_0000_0000_0000

  lemma Pow16Of16()
    ensures Pow16(16) == 0x1_0000_0000_0000_0000
  {
    assert Pow16(4) == 0x1_0000;
    assert Pow16(8) == 0x1_0000 * Pow16(4) by {
      assert Pow16(8) == 16 * Pow16(7) && Pow16(7) == 16 * Pow16(6);
      assert Pow16(6) == 16 * Pow16(5) && Pow16(5) == 16 * Pow16(4);
    }
    assert Pow16(12) == 0x1_0000 * Pow16(8) by {
      assert Pow16(12) == 16 * Pow16(11) && Pow16(11) == 16 * Pow16(10);
      assert Pow16(10) == 16 * Pow16(9) && Pow16(9) == 16 * Pow16(8);
    }
    assert Pow16(16) == 0x1_0000 * Pow16(12) by {
      assert Pow16(16) == 16 * Pow16(15) && Pow16(15) == 16 * Pow16(14);
      assert Pow16(14) == 16 * Pow16(13) && Pow16(13) == 16 * Pow16(12);
    }
  }

  /** `<prefix>%016llx` of a pointer. */
  function Element(prefix: string, p: Pointer): (e: string)
    ensures |e| == |prefix| + 16 && e[..|prefix|] == prefix
    ensures AllHex(e[|prefix|..]) && ParseHex(e[|prefix|..]) == p
  {
    Pow16Of16();
    HexRoundTrip(p, 16);
    var e := prefix + HexFixed(p, 16);
    assert e[|prefix|..] == HexFixed(p, 16);
    e
  }

  /** object_id, material_id and world_id. */
  function ObjectId(delegate: SdfPath, ob: Pointer): SdfPath { AppendElement(delegate, Element("O_", ob)) }
  function MaterialId(delegate: SdfPath, material: Pointer): SdfPath { AppendElement(delegate, Element("M_", material)) }
  function WorldId(delegate: SdfPath, shading: Pointer): SdfPath { AppendElement(delegate, Element("W_", shading)) }

  /** The element an id appends: two prefix characters and sixteen hex digits. */
  lemma IdShape(delegate: SdfPath, p: Pointer)
    ensures var e := ObjectId(delegate, p).elements[|delegate.elements|];
      |e| == 18 && e[..2] == "O_" && AllHex(e[2..])
    ensures var e := MaterialId(delegate, p).elements[|delegate.elements|];
      |e| == 18 && e[..2] == "M_" && AllHex(e[2..])
    ensures var e := WorldId(delegate, p).elements[|delegate.elements|];
      |e| == 18 && e[..2] == "W_" && AllHex(e[2..])
  {
  }

  /** Distinct datablocks get distinct ids; the pointer is read back from the id. */
  lemma IdsInjective(delegate: SdfPath, p: Pointer, q: Pointer)
    ensures ObjectId(delegate, p) == ObjectId(delegate, q) <==> p == q
    ensures MaterialId(delegate, p) == MaterialId(delegate, q) <==> p == q
    ensures WorldId(delegate, p) == WorldId(delegate, q) <==> p == q
  {
    var n := |delegate.elements|;
    if ObjectId(delegate, p) == ObjectId(delegate, q) {
      assert ObjectId(delegate, p).elements[n] == ObjectId(delegate, q).elements[n];
    }
    if MaterialId(delegate, p) == MaterialId(delegate, q) {
      assert MaterialId(delegate, p).elements[n] == MaterialId(delegate, q).elements[n];
    }
    if WorldId(delegate, p) == WorldId(delegate, q) {
      assert WorldId(delegate, p).elements[n] == WorldId(delegate, q).elements[n];
    }
  }

  /** An object, a material and a world never share an id, whatever the addresses. */
  lemma KindsDisjoint(delegate: SdfPath, p: Pointer, q: Pointer)
    ensures ObjectId(delegate, p) != MaterialId(delegate, q)
    ensures ObjectId(delegate, p) != WorldId(delegate, q)
    ensures MaterialId(delegate, p) != WorldId(delegate, q)
    ensures ObjectId(delegate, p) != EmptyPath && MaterialId(delegate, p) != EmptyPath
  {
    var n := |delegate.elements|;
    assert ObjectId(delegate, p).elements[n][0] == 'O';
    assert MaterialId(delegate, q).elements[n][0] == 'M';
    assert WorldId(delegate, q).elements[n][0] == 'W';
    assert MaterialId(delegate, p).elements[n][0] == 'M';
  }

  /** Blender object types (Object.type). */
  const OB_EMPTY := 0
  const OB_MESH := 1
  const OB_CURVES_LEGACY := 2
  const OB_SURF := 3
  const OB_FONT := 4
  const OB_MBALL := 5
  const OB_LAMP := 10
  const OB_CAMERA := 11
  const OB_CURVES := 27

  /** supported_object: the types exported to Hydra. */
  predicate SupportedObject(obType: int)
  {
    obType == OB_MESH || obType == OB_LAMP || obType == OB_SURF || obType == OB_FONT ||
    obType == OB_CURVES || obType == OB_CURVES_LEGACY || obType == OB_MBALL
  }

  /** Exactly seven types are exported; empties and cameras are not. */
  lemma SupportedTypes()
    ensures (set t | 0 <= t < 64 && SupportedObject(t)) == {1, 2, 3, 4, 5, 10, 27}
    ensures !SupportedObject(OB_EMPTY) && !SupportedObject(OB_CAMERA)
  {
    assert forall t :: t in {1, 2, 3, 4, 5, 10, 27} ==> SupportedObject(t);
  }
}
