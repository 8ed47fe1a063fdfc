/** The entity-component registry: one append-only byte buffer of
    (header, component) records, where a header is an entity ID and a
    32-bit hash of the component class's name, scanned with a fixed stride
    per component class. The buffer is modelled as its byte length plus the
    records at their byte offsets; a scan that lands between record
    boundaries reads whatever bytes are there, which the caller supplies. */
module Ecs {
  import opened Vk

  type Byte = b: int | 0 <= b < 256

  /** sizeof(ComponentInfo): two uint32 fields. */
  const HEADER_SIZE: nat := 8

  datatype ComponentInfo = ComponentInfo(entity: u32, id: u32)

  /** One record: its header at `offset`, the component right after it. */
  datatype Record<C> = Record(offset: nat, info: ComponentInfo, classSize: nat, component: C)

  function RecordEnd<C>(r: Record<C>): nat
  {
    r.offset + HEADER_SIZE + r.classSize
  }

  /** Each record starts where the previous one ends, the first at byte 0. */
  ghost predicate Contiguous<C>(rs: seq<Record<C>>)
  {
    && (|rs| > 0 ==> rs[0].offset == 0)
    && forall k :: 0 < k < |rs| ==> rs[k].offset == RecordEnd(rs[k - 1])
  }

  /** Bytes occupied by the records. */
  function EndOf<C>(rs: seq<Record<C>>): nat
  {
    if rs == [] then 0 else RecordEnd(rs[|rs| - 1])
  }

  // ---------------------------------------------------------------------
  // Name hash

  /** A `char` of the class name widened to uint32: `char` is signed, so
      bytes from 128 up are sign-extended. */
  function CharWord(b: Byte): (w: u32)
    ensures b < 128 ==> w == b
    ensures b >= 128 ==> w == U32(b - 256)
  {
    if b < 128 then b else b + (U32_MODULUS - 256)
  }

  /** Sum over positions i of i times the widened byte, without wrap-around. */
  function HashSum(s: seq<Byte>): int
  {
    if s == [] then 0 else HashSum(s[..|s| - 1]) + (|s| - 1) * CharWord(s[|s| - 1])
  }

  /** The class-name hash: the position-weighted byte sum modulo 2^32. */
  function HashOf(s: seq<Byte>): u32
  {
    HashSum(s) % U32_MODULUS
  }

  lemma ModOfMultiplePlus(q: int, r: int)
    ensures (q * U32_MODULUS + r) % U32_MODULUS == r % U32_MODULUS
  {
  }

  /** One uint32 step of the hash loop, in modular terms. */
  lemma {:induction false} HashStep(acc: int, i: nat, w: int)
    ensures U32(acc % U32_MODULUS + U32(U32(i) * w)) == (acc + i * w) % U32_MODULUS
  {
    var m := U32_MODULUS;
    var iq := i / m;
    assert i == iq * m + U32(i);
    assert i * w == (iq * w) * m + U32(i) * w;
    ModOfMultiplePlus(iq * w, U32(i) * w);
    var a := acc / m;
    var p := (U32(i) * w) / m;
    assert U32(i) * w == p * m + U32(U32(i) * w);
    assert acc == a * m + acc % m;
    assert acc + i * w == (a + iq * w + p) * m + (acc % m + U32(U32(i) * w));
    ModOfMultiplePlus(a + iq * w + p, acc % m + U32(U32(i) * w));
  }

  /** Accumulates `result += uint32(i) * uint32(string[i])` with uint32
      wrap-around on both the product and the sum. */
  method HashString(s: seq<Byte>) returns (result: u32)
    ensures result == HashOf(s)
  {
    result := 0;
    var i := 0;
    while i < |s|
      invariant 0 <= i <= |s|
      invariant result == HashSum(s[..i]) % U32_MODULUS
    {
      var term := U32(U32(i) * CharWord(s[i]));
      HashStep(HashSum(s[..i]), i, CharWord(s[i]));
      assert s[..i + 1][..i] == s[..i];
      result := U32(result + term);
      i := i + 1;
    }
    assert s[..i] == s;
  }

  /** The first byte is weighted by 0, so it never affects the hash. */
  lemma {:induction false} HashSumIgnoresFirstByte(a: Byte, b: Byte, s: seq<Byte>)
    ensures HashSum([a] + s) == HashSum([b] + s)
    decreases |s|
  {
    if s != [] {
      var s' := s[..|s| - 1];
      HashSumIgnoresFirstByte(a, b, s');
      assert ([a] + s)[..|[a] + s| - 1] == [a] + s';
      assert ([b] + s)[..|[b] + s| - 1] == [b] + s';
    }
  }

  /** Names differing only in their first byte collide; in particular the
      empty name and every one-byte name hash to 0. */
  lemma HashOfIgnoresFirstByte(a: Byte, b: Byte, s: seq<Byte>)
    ensures HashOf([a] + s) == HashOf([b] + s)
    ensures HashOf([]) == 0 && HashOf([a]) == 0
  {
    HashSumIgnoresFirstByte(a, b, s);
    assert [a][..0] == [];
  }

  /** Distinct names can hash alike: "Ab" and "Cb" both hash to 'b'. */
  lemma HashCollisionExample()
    ensures HashOf([0x41, 0x62]) == HashOf([0x43, 0x62]) == 0x62
  {
    assert [0x41, 0x62][..1] == [0x41];
    assert [0x43, 0x62][..1] == [0x43];
    assert [0x41][..0] == [] && [0x43][..0] == [];
  }

  // ---------------------------------------------------------------------
  // Scanning

  /** The ID read from the header bytes at `i`: the header of the record that
      starts there, otherwise whatever other bytes lie at `i`. */
  function IdAt<C>(rs: seq<Record<C>>, i: nat, misread: nat -> u32): u32
  {
    if rs == [] then misread(i)
    else if rs[0].offset == i then rs[0].info.id
    else IdAt(rs[1..], i, misread)
  }

  /** The component found at address `a`, if a record's component starts
      there. */
  function PayloadAt<C>(rs: seq<Record<C>>, a: nat): Option<C>
  {
    if rs == [] then None
    else if rs[0].offset + HEADER_SIZE == a then Some(rs[0].component)
    else PayloadAt(rs[1..], a)
  }

  /** One call of the ForEach callback: the address it is handed and the
      component actually stored there, if any. */
  datatype Visit<C> = Visit(address: nat, component: Option<C>)

  /** The callback calls a scan makes from byte `i` on: a header is read at
      `i`, the callback runs on the bytes after it when the header's ID is
      the class's, and the scan moves on by header plus class size. */
  function Scan<C>(rs: seq<Record<C>>, size: nat, stride: nat, classID: u32, misread: nat -> u32, i: nat): seq<Visit<C>>
    requires stride > 0
    decreases size - i
  {
    if i >= size then []
    else
      (if IdAt(rs, i, misread) == classID then [Visit(i + HEADER_SIZE, PayloadAt(rs, i + HEADER_SIZE))] else [])
      + Scan(rs, size, stride, classID, misread, i + stride)
  }

  /** Every record has the same class: same size and same ID. */
  ghost predicate SingleClass<C>(rs: seq<Record<C>>, classID: u32, classSize: nat)
  {
    forall k :: 0 <= k < |rs| ==> rs[k].info.id == classID && rs[k].classSize == classSize
  }

  /** Where record j starts; past the last record, the end of the buffer. */
  function StartOf<C>(rs: seq<Record<C>>, j: nat): nat
    requires j <= |rs|
  {
    if j < |rs| then rs[j].offset else EndOf(rs)
  }

  /** A record placed at the end of laid-out records keeps them laid out. */
  lemma AppendContiguous<C>(rs: seq<Record<C>>, r: Record<C>)
    requires Contiguous(rs) && r.offset == EndOf(rs)
    ensures Contiguous(rs + [r]) && EndOf(rs + [r]) == RecordEnd(r)
  {
    var rs' := rs + [r];
    forall k | 0 < k < |rs'|
      ensures rs'[k].offset == RecordEnd(rs'[k - 1])
    {
      if k < |rs| {
        assert rs'[k] == rs[k];
        if k > 0 {
          assert rs'[k - 1] == rs[k - 1];
        }
      } else if k > 0 {
        assert rs'[k] == r && rs'[k - 1] == rs[|rs| - 1];
      }
    }
  }

  /** Laid-out records start at strictly increasing offsets. */
  lemma {:induction false} OffsetsIncrease<C>(rs: seq<Record<C>>)
    requires Contiguous(rs)
    ensures forall i, j :: 0 <= i < j < |rs| ==> rs[i].offset < rs[j].offset
  {
    var k := 0;
    while k < |rs|
      invariant 0 <= k <= |rs|
      invariant forall i, j :: 0 <= i < j < k ==> rs[i].offset < rs[j].offset
    {
      if k > 0 {
        assert rs[k - 1].offset < rs[k].offset;
      }
      k := k + 1;
    }
  }

  lemma {:induction false} IdAtFindsRecord<C>(rs: seq<Record<C>>, k: nat, misread: nat -> u32)
    requires k < |rs|
    requires forall j :: 0 <= j < k ==> rs[j].offset != rs[k].offset
    ensures IdAt(rs, rs[k].offset, misread) == rs[k].info.id
  {
    if k > 0 {
      IdAtFindsRecord(rs[1..], k - 1, misread);
    }
  }

  lemma {:induction false} PayloadAtFindsRecord<C>(rs: seq<Record<C>>, k: nat)
    requires k < |rs|
    requires forall j :: 0 <= j < k ==> rs[j].offset != rs[k].offset
    ensures PayloadAt(rs, rs[k].offset + HEADER_SIZE) == Some(rs[k].component)
  {
    if k > 0 {
      PayloadAtFindsRecord(rs[1..], k - 1);
    }
  }

  /** With records of one class laid out back to back, a scan for that class
      started at record j calls back once per record from j on, in order,
      each time on that record's component. */
  lemma {:induction false} AlignedScanFrom<C>(rs: seq<Record<C>>, classID: u32, classSize: nat, misread: nat -> u32, j: nat)
    requires Contiguous(rs) && SingleClass(rs, classID, classSize)
    requires j <= |rs|
    ensures Scan(rs, EndOf(rs), HEADER_SIZE + classSize, classID, misread, StartOf(rs, j))
            == seq(|rs| - j, k requires 0 <= k < |rs| - j => Visit(rs[j + k].offset + HEADER_SIZE, Some(rs[j + k].component)))
    decreases |rs| - j
  {
    if j < |rs| {
      var stride := HEADER_SIZE + classSize;
      var i := rs[j].offset;
      StartBeforeEnd(rs, j);
      IdAtFindsRecord(rs, j, misread);
      PayloadAtFindsRecord(rs, j);
      var head := Visit(i + HEADER_SIZE, Some(rs[j].component));
      assert Scan(rs, EndOf(rs), stride, classID, misread, i)
             == [head] + Scan(rs, EndOf(rs), stride, classID, misread, i + stride);
      assert StartOf(rs, j + 1) == i + stride;
      AlignedScanFrom(rs, classID, classSize, misread, j + 1);
      var expected := seq(|rs| - j, k requires 0 <= k < |rs| - j => Visit(rs[j + k].offset + HEADER_SIZE, Some(rs[j + k].component)));
      var rest := seq(|rs| - (j + 1), k requires 0 <= k < |rs| - (j + 1) => Visit(rs[j + 1 + k].offset + HEADER_SIZE, Some(rs[j + 1 + k].component)));
      assert expected == [head] + rest;
    }
  }

  /** A record starts before the end of the laid-out buffer. */
  lemma StartBeforeEnd<C>(rs: seq<Record<C>>, j: nat)
    requires Contiguous(rs) && j < |rs|
    ensures rs[j].offset < EndOf(rs)
    ensures forall i :: 0 <= i < j ==> rs[i].offset != rs[j].offset
  {
    OffsetsIncrease(rs);
    if j < |rs| - 1 {
      assert rs[j].offset < rs[|rs| - 1].offset;
    }
  }

  /** A two-record registry holding a 4-byte class A then a 16-byte class B:
      a scan for B strides 24 bytes, reads A's header at 0 and then bytes
      inside B's record at 24, and (unless those bytes happen to equal B's
      ID) never calls back on the B component. */
  lemma MixedClassesSkipComponent(idA: u32, idB: u32, a: int, b: int, misread: nat -> u32)
    requires idA != idB && misread(24) != idB
    ensures var rs := [Record(0, ComponentInfo(0, idA), 4, a), Record(12, ComponentInfo(1, idB), 16, b)];
            Contiguous(rs) && EndOf(rs) == 36
            && Scan(rs, 36, HEADER_SIZE + 16, idB, misread, 0) == []
  {
    var rs := [Record(0, ComponentInfo(0, idA), 4, a), Record(12, ComponentInfo(1, idB), 16, b)];
    assert rs[1..] == [Record(12, ComponentInfo(1, idB), 16, b)];
    assert rs[1..][1..] == [];
    assert IdAt(rs, 24, misread) == misread(24) by {
      assert IdAt(rs[1..][1..], 24, misread) == misread(24);
    }
    assert IdAt(rs, 0, misread) == idA;
    assert Scan(rs, 36, 24, idB, misread, 48) == [];
    assert Scan(rs, 36, 24, idB, misread, 24) == [];
  }

  // ---------------------------------------------------------------------
  // The registry

  class Registry<C> {
    var availableEntityID: u32
    var size: nat
    var records: seq<Record<C>>
    var hasBuffer: bool  // the buffer pointer is non-null
    ghost var issued: seq<u32>  // every entity ID handed out so far

    ghost predicate Valid()
      reads this
    {
      && Contiguous(records)
      && size == EndOf(records)
      && (hasBuffer <==> records != [])
      && availableEntityID == U32(|issued|)
      && forall k :: 0 <= k < |issued| ==> issued[k] == U32(k)
    }

    constructor ()
      ensures Valid()
      ensures availableEntityID == 0 && size == 0 && records == [] && !hasBuffer && issued == []
    {
      availableEntityID := 0;
      size := 0;
      records := [];
      hasBuffer := false;
      issued := [];
    }

    /** Hands out the counter's value, then increments it (wrapping as
        uint32): the n-th ID is n - 1, and none repeats before 2^32 IDs. */
    method NewEntityID() returns (id: u32)
      modifies this
      ensures id == old(availableEntityID)
      ensures availableEntityID == U32(old(availableEntityID) + 1)
      ensures issued == old(issued) + [id]
      ensures size == old(size) && records == old(records) && hasBuffer == old(hasBuffer)
      ensures old(Valid()) ==> Valid() && id == U32(|old(issued)|)
      ensures old(Valid()) && |old(issued)| < U32_MODULUS ==> id !in old(issued)
    {
      id := availableEntityID;
      availableEntityID := U32(availableEntityID + 1);
      issued := issued + [id];
      if old(Valid()) {
        assert U32(|old(issued)| + 1) == U32(U32(|old(issued)|) + 1);
      }
    }

    /** Grows the byte size by a header plus the component, reallocates, and
        writes the header (entity, class-name hash) at the old size followed
        by the component. A failed reallocation is fatal: `ok` is false,
        with the size already grown and no record written. */
    method AddComponent(entity: u32, className: seq<Byte>, classSize: nat, component: C, reallocSucceeds: bool)
      returns (ok: bool)
      modifies this
      ensures ok == reallocSucceeds
      ensures size == old(size) + HEADER_SIZE + classSize
      ensures ok ==> records == old(records) + [Record(old(size), ComponentInfo(entity, HashOf(className)), classSize, component)]
      ensures ok ==> hasBuffer
      ensures !ok ==> records == old(records) && hasBuffer == old(hasBuffer)
      ensures availableEntityID == old(availableEntityID) && issued == old(issued)
      ensures ok && old(Valid()) ==> Valid()
    {
      var oldSize := size;
      size := size + HEADER_SIZE + classSize;
      if !reallocSucceeds {
        return false;
      }
      hasBuffer := true;
      var id := HashString(className);
      if old(Valid()) {
        AppendContiguous(records, Record(oldSize, ComponentInfo(entity, id), classSize, component));
      }
      records := records + [Record(oldSize, ComponentInfo(entity, id), classSize, component)];
      return true;
    }

    /** Walks the buffer from byte 0 with stride header-plus-class-size,
        calling back after every header whose ID is the class-name hash.
        Changes nothing. */
    method ForEach(className: seq<Byte>, classSize: nat, misread: nat -> u32) returns (visits: seq<Visit<C>>)
      ensures visits == Scan(records, size, HEADER_SIZE + classSize, HashOf(className), misread, 0)
    {
      var classID := HashString(className);
      var stride := HEADER_SIZE + classSize;
      visits := [];
      var i := 0;
      while i < size
        invariant visits + Scan(records, size, stride, classID, misread, i)
                  == Scan(records, size, stride, classID, misread, 0)
        decreases size - i
      {
        var id := IdAt(records, i, misread);
        i := i + HEADER_SIZE;
        if id == classID {
          visits := visits + [Visit(i, PayloadAt(records, i))];
        }
        i := i + classSize;
      }
    }

    /** Frees the buffer exactly when one was hasBuffer, i.e. when some
        component was added. Changes nothing itself. */
    method Destroy() returns (freed: bool)
      requires Valid()
      ensures freed <==> records != []
    {
      freed := false;
      if hasBuffer {
        freed := true;
      }
    }
  }

  /** A registry whose every component has one class gets, from ForEach for
      that class, one callback per AddComponent, in insertion order, each on
      the component that call stored. */
  lemma SingleClassForEachVisitsAll<C>(records: seq<Record<C>>, size: nat, classID: u32, classSize: nat, misread: nat -> u32)
    requires Contiguous(records) && size == EndOf(records)
    requires SingleClass(records, classID, classSize)
    ensures Scan(records, size, HEADER_SIZE + classSize, classID, misread, 0)
            == seq(|records|, k requires 0 <= k < |records| => Visit(records[k].offset + HEADER_SIZE, Some(records[k].component)))
  {
    AlignedScanFrom(records, classID, classSize, misread, 0);
    assert StartOf(records, 0) == 0;
  }
}
