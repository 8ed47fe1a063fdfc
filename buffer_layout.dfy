/** Vertex buffer layout: an ordered list of (attribute type, byte offset)
    with a running stride, and the binding/attribute descriptions derived
    from it for pipeline creation. */
module BufferLayouts {
  import opened Vk

  /** An attribute type is the VkFormat value of the attribute (the enum is
      declared with VkFormat enumerants and cast back to VkFormat). Any other
      value can be stored too, e.g. the zero a resize fills in. */
  type AttributeType = int

  const FLOAT: AttributeType := FORMAT_R32_SFLOAT
  const VEC2: AttributeType := FORMAT_R32G32_SFLOAT
  const VEC3: AttributeType := FORMAT_R32G32B32_SFLOAT

  /** Byte size of one attribute: 4 bytes per 32-bit float component,
      nothing for a value outside the enum. */
  function SizeofAttribute(t: AttributeType): (n: nat)
    ensures n % 4 == 0 && n <= 12
    ensures n != 0 <==> t == FLOAT || t == VEC2 || t == VEC3
    ensures t == FLOAT ==> n == 4
    ensures t == VEC2 ==> n == 8
    ensures t == VEC3 ==> n == 12
  {
    if t == FLOAT then 4
    else if t == VEC2 then 8
    else if t == VEC3 then 12
    else 0
  }

  /** Sum of the byte sizes of a list of attribute types. */
  function StrideOf(types: seq<AttributeType>): nat
  {
    if types == [] then 0
    else StrideOf(types[..|types| - 1]) + SizeofAttribute(types[|types| - 1])
  }

  datatype Attribute = Attribute(kind: AttributeType, offset: nat)

  function TypesOf(attribs: seq<Attribute>): (types: seq<AttributeType>)
    ensures |types| == |attribs|
    ensures forall i :: 0 <= i < |attribs| ==> types[i] == attribs[i].kind
  {
    seq(|attribs|, i requires 0 <= i < |attribs| => attribs[i].kind)
  }

  lemma TypesOfPrefix(attribs: seq<Attribute>, n: nat)
    requires n <= |attribs|
    ensures TypesOf(attribs[..n]) == TypesOf(attribs)[..n]
  {
  }

  /** Every attribute's offset is the total size of the attributes before it,
      and the stride is the total size of all of them. */
  ghost predicate WellLaidOut(attribs: seq<Attribute>, stride: nat)
  {
    && stride == StrideOf(TypesOf(attribs))
    && forall i :: 0 <= i < |attribs| ==> attribs[i].offset == StrideOf(TypesOf(attribs)[..i])
  }

  /** Appending an attribute at offset `stride` and growing the stride by its
      size keeps a layout well laid out. */
  lemma {:induction false} AppendKeepsLaidOut(attribs: seq<Attribute>, stride: nat, t: AttributeType)
    requires WellLaidOut(attribs, stride)
    ensures WellLaidOut(attribs + [Attribute(t, stride)], stride + SizeofAttribute(t))
  {
    var a' := attribs + [Attribute(t, stride)];
    var ts := TypesOf(attribs);
    var ts' := TypesOf(a');
    assert ts' == ts + [t];
    assert ts'[..|ts'| - 1] == ts;
    forall i | 0 <= i < |a'|
      ensures a'[i].offset == StrideOf(ts'[..i])
    {
      if i < |attribs| {
        assert ts'[..i] == ts[..i];
      } else {
        assert ts'[..i] == ts;
      }
    }
  }

  datatype BindingDescription = BindingDescription(binding: int, stride: int, inputRate: int)

  datatype AttributeDescription =
    AttributeDescription(location: int, binding: int, format: int, offset: int)

  /** `v` resized to `n` elements as std::vector::resize does it: truncated,
      or extended with value-initialised attributes (type 0, offset 0). */
  function Resized(v: seq<Attribute>, n: nat): (r: seq<Attribute>)
    ensures |r| == n
    ensures forall i :: 0 <= i < n && i < |v| ==> r[i] == v[i]
    ensures forall i :: |v| <= i < n ==> r[i] == Attribute(0, 0)
  {
    if n <= |v| then v[..n] else v + seq(n - |v|, _ => Attribute(0, 0))
  }

  class BufferLayout {
    var stride: nat
    var attribs: seq<Attribute>

    ghost predicate Valid()
      reads this
    {
      WellLaidOut(attribs, stride)
    }

    constructor ()
      ensures Valid()
      ensures stride == 0 && attribs == []
    {
      stride := 0;
      attribs := [];
    }

    /** Construction from an initializer list of types: one AddAttribute per
        type, in order. */
    constructor FromTypes(types: seq<AttributeType>)
      ensures Valid()
      ensures TypesOf(attribs) == types
      ensures stride == StrideOf(types)
      ensures forall i :: 0 <= i < |types| ==> attribs[i].offset == StrideOf(types[..i])
    {
      stride := 0;
      attribs := [];
      new;
      var k := 0;
      while k < |types|
        invariant 0 <= k <= |types|
        invariant Valid()
        invariant TypesOf(attribs) == types[..k]
      {
        AddAttribute(types[k]);
        assert types[..k + 1] == types[..k] + [types[k]];
        k := k + 1;
      }
      assert types[..k] == types;
    }

    method AddAttribute(t: AttributeType)
      modifies this
      ensures attribs == old(attribs) + [Attribute(t, old(stride))]
      ensures stride == old(stride) + SizeofAttribute(t)
      ensures old(Valid()) ==> Valid()
    {
      ghost var wasValid := Valid();
      if wasValid {
        AppendKeepsLaidOut(attribs, stride, t);
      }
      attribs := attribs + [Attribute(t, stride)];
      stride := stride + SizeofAttribute(t);
    }

    /** Binding 0, per-vertex rate, stride narrowed to 32 bits; on a valid
        layout of a realistic size the stride is the byte size of a vertex. */
    function GetBindingDescription(): (d: BindingDescription)
      reads this
      ensures d.binding == 0 && d.inputRate == VERTEX_INPUT_RATE_VERTEX
      ensures 0 <= d.stride < U32_MODULUS
      ensures Valid() && StrideOf(TypesOf(attribs)) < U32_MODULUS ==>
                d.stride == StrideOf(TypesOf(attribs))
    {
      BindingDescription(0, U32(stride), VERTEX_INPUT_RATE_VERTEX)
    }

    /** One description per attribute: location i, binding 0, the attribute's
        type as its format and its stored offset (both narrowed to 32 bits). */
    method GetAttributeDescriptions() returns (descriptions: seq<AttributeDescription>)
      ensures |descriptions| == |attribs|
      ensures forall i :: 0 <= i < |attribs| ==>
                descriptions[i] == AttributeDescription(U32(i), 0, attribs[i].kind, U32(attribs[i].offset))
      ensures Valid() ==> forall i :: 0 <= i < |attribs| && StrideOf(TypesOf(attribs)) < U32_MODULUS ==>
                descriptions[i].offset == StrideOf(TypesOf(attribs)[..i])
    {
      var out := new AttributeDescription[|attribs|];
      var i := 0;
      while i < out.Length
        invariant 0 <= i <= out.Length == |attribs|
        invariant forall k :: 0 <= k < i ==>
                    out[k] == AttributeDescription(U32(k), 0, attribs[k].kind, U32(attribs[k].offset))
      {
        out[i] := AttributeDescription(U32(i), 0, attribs[i].kind, U32(attribs[i].offset));
        i := i + 1;
      }
      descriptions := out[..];
      if Valid() {
        forall i | 0 <= i < |attribs| && StrideOf(TypesOf(attribs)) < U32_MODULUS
          ensures descriptions[i].offset == StrideOf(TypesOf(attribs)[..i])
        {
          PrefixStrideBounded(TypesOf(attribs), i);
        }
      }
    }

    /** Positional type comparison over this layout's attributes; `other`
        must have at least as many (the source indexes it unchecked). */
    method Equals(other: BufferLayout) returns (eq: bool)
      requires |attribs| <= |other.attribs|
      ensures eq <==> forall i :: 0 <= i < |attribs| ==> attribs[i].kind == other.attribs[i].kind
      ensures eq <==> TypesOf(attribs) <= TypesOf(other.attribs)
    {
      var i := 0;
      while i < |attribs|
        invariant 0 <= i <= |attribs|
        invariant forall k :: 0 <= k < i ==> attribs[k].kind == other.attribs[k].kind
      {
        if attribs[i].kind != other.attribs[i].kind {
          return false;
        }
        i := i + 1;
      }
      assert TypesOf(attribs) == TypesOf(other.attribs)[..|attribs|];
      return true;
    }

    /** Resize of the attribute list only: the stride is left as it was. */
    method Resize(size: nat)
      modifies this
      ensures attribs == Resized(old(attribs), size)
      ensures stride == old(stride)
      ensures old(attribs) == [] && old(stride) == 0 ==> Valid()
    {
      ghost var wasEmpty := attribs == [] && stride == 0;
      attribs := Resized(attribs, size);
      if wasEmpty {
        forall i | 0 <= i <= |attribs|
          ensures StrideOf(TypesOf(attribs)[..i]) == 0
        {
          ZeroTypesHaveNoSize(TypesOf(attribs)[..i]);
        }
        assert TypesOf(attribs)[..|attribs|] == TypesOf(attribs);
      }
    }
  }

  /** Types outside the enum, such as the zero a resize fills in, add
      nothing to the stride. */
  lemma {:induction false} ZeroTypesHaveNoSize(types: seq<AttributeType>)
    requires forall i :: 0 <= i < |types| ==> types[i] != FLOAT && types[i] != VEC2 && types[i] != VEC3
    ensures StrideOf(types) == 0
  {
    if types != [] {
      ZeroTypesHaveNoSize(types[..|types| - 1]);
    }
  }

  /** The stride of a prefix never exceeds the stride of the whole list. */
  lemma {:induction false} PrefixStrideBounded(types: seq<AttributeType>, n: nat)
    requires n <= |types|
    ensures StrideOf(types[..n]) <= StrideOf(types)
    decreases |types|
  {
    if n < |types| {
      PrefixStrideBounded(types[..|types| - 1], n);
      assert types[..|types| - 1][..n] == types[..n];
    } else {
      assert types[..n] == types;
    }
  }

  /** Example layout from the engine: position and normal as two Vec3s give
      a 24-byte vertex with the normal at offset 12. */
  lemma PositionNormalLayout()
    ensures StrideOf([VEC3, VEC3]) == 24
    ensures StrideOf([VEC3, VEC3][..1]) == 12
  {
    assert [VEC3, VEC3][..1] == [VEC3];
    assert [VEC3][..0] == [];
    assert StrideOf([VEC3]) == 12;
  }
}
