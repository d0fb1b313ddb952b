/** The communications buffer and its partition into mappings
    (acq200.h, acq200_bigbuf_alloc.c). */
module DmaBuffer {
  import opened Bits
  import opened Pool

  const PAGE_SIZE: nat := 4096

  /** A buffer of `2^order` pages; `va` is 0 when none was allocated. */
  datatype DmaBuf = DmaBuf(order: nat, va: nat, pa: nat)

  datatype IoMapping = IoMapping(va: nat, pa: nat, len: nat)

  function DmaBufLen(b: DmaBuf): nat {
    if b.va != 0 then Pow2(b.order) * PAGE_SIZE else 0
  }

  /** The address within the PCI window that requests carry to the card. */
  function DmaBufOffset(m: IoMapping, b: DmaBuf): nat
    requires b.va != 0
  {
    And(m.pa, DmaBufLen(b) - 1)
  }

  /** The addresses a mapping covers. */
  ghost predicate Covers(m: IoMapping, address: int) {
    m.pa <= address < m.pa + m.len
  }

  ghost predicate InBuffer(b: DmaBuf, address: int) {
    b.pa <= address < b.pa + DmaBufLen(b)
  }

  /** Mapping `i` of the buffer starts `i` parts into it, in both address spaces. */
  ghost predicate Partition(ms: seq<IoMapping>, b: DmaBuf) {
    && |ms| == NMAPPINGS
    && forall i :: 0 <= i < NMAPPINGS ==>
      var part := DmaBufLen(b) / NMAPPINGS;
      ms[i] == IoMapping(b.va + i * part, b.pa + i * part, part)
  }

  method CreateMappings(b: DmaBuf) returns (mappings: array<IoMapping>)
    ensures fresh(mappings) && Partition(mappings[..], b)
  {
    mappings := new IoMapping[NMAPPINGS](_ => IoMapping(0, 0, 0));
    var buflen := DmaBufLen(b) / NMAPPINGS;
    var offset := 0;
    var ii := 0;
    while ii != NMAPPINGS
      invariant ii <= NMAPPINGS && offset == ii * buflen
      invariant forall j :: 0 <= j < ii ==> mappings[j] == IoMapping(b.va + j * buflen, b.pa + j * buflen, buflen)
    {
      mappings[ii] := IoMapping(b.va + offset, b.pa + offset, buflen);
      ii, offset := ii + 1, offset + buflen;
    }
  }

  lemma LenIsPow2(b: DmaBuf)
    requires b.va != 0
    ensures DmaBufLen(b) == Pow2(b.order + 12) && DmaBufLen(b) % NMAPPINGS == 0 && DmaBufLen(b) > 0
  {
    PageIsPow2(b.order);
  }

  lemma FourSteps(k: nat)
    ensures Pow2(k + 4) == 16 * Pow2(k)
  {
    assert Pow2(k + 2) == 4 * Pow2(k);
  }

  lemma PageIsPow2(k: nat)
    ensures Pow2(k + 12) == 4096 * Pow2(k)
  {
    FourSteps(k);
    FourSteps(k + 4);
    FourSteps(k + 8);
  }

  lemma QuarterLength(b: DmaBuf)
    ensures DmaBufLen(b) == 4 * (DmaBufLen(b) / NMAPPINGS)
  {
    if b.va != 0 {
      LenIsPow2(b);
    }
  }

  lemma MappingsDisjoint(ms: seq<IoMapping>, b: DmaBuf, i: nat, j: nat, address: int)
    requires Partition(ms, b) && i < j < |ms|
    ensures !(Covers(ms[i], address) && Covers(ms[j], address))
  {
    var part := DmaBufLen(b) / NMAPPINGS;
    assert j * part >= (i + 1) * part == i * part + part;
  }

  lemma MappingsCover(ms: seq<IoMapping>, b: DmaBuf, address: int)
    requires Partition(ms, b)
    ensures InBuffer(b, address) <==>
      Covers(ms[0], address) || Covers(ms[1], address) || Covers(ms[2], address) || Covers(ms[3], address)
  {
    QuarterLength(b);
  }

  /** For every page order the mappings are equally long, pairwise disjoint and
      together cover exactly the buffer, an address lying equally deep in both
      address spaces. */
  lemma MappingsTileBuffer(ms: seq<IoMapping>, b: DmaBuf, address: int)
    requires Partition(ms, b)
    ensures forall i :: 0 <= i < |ms| ==> ms[i].len == ms[0].len && ms[i].va - b.va == ms[i].pa - b.pa
    ensures forall i, j :: 0 <= i < j < |ms| ==> !(Covers(ms[i], address) && Covers(ms[j], address))
    ensures InBuffer(b, address) <==> exists i :: 0 <= i < |ms| && Covers(ms[i], address)
  {
    MappingsCover(ms, b, address);
    forall i, j | 0 <= i < j < |ms| ensures !(Covers(ms[i], address) && Covers(ms[j], address)) {
      MappingsDisjoint(ms, b, i, j, address);
    }
  }

  /** The masked addresses sent to the card are the mappings' true offsets exactly
      when the buffer is aligned to its own length. */
  lemma MaskedOffsetTrueIffAligned(ms: seq<IoMapping>, b: DmaBuf)
    requires b.va != 0 && Partition(ms, b)
    ensures (forall i :: 0 <= i < |ms| ==> DmaBufOffset(ms[i], b) == ms[i].pa - b.pa)
       <==> b.pa % DmaBufLen(b) == 0
  {
    LenIsPow2(b);
    var len := DmaBufLen(b);
    forall i | 0 <= i < |ms|
      ensures DmaBufOffset(ms[i], b) == ms[i].pa % len
    {
      MaskIsMod(ms[i].pa, b.order + 12);
    }
    assert DmaBufOffset(ms[0], b) == b.pa % len;
    if b.pa % len == 0 {
      forall i | 0 <= i < |ms|
        ensures ms[i].pa % len == ms[i].pa - b.pa
      {
        assert b.pa == len * (b.pa / len);
        assert i * (len / 4) < len;
        ModUnique(ms[i].pa, len, b.pa / len, i * (len / 4));
      }
    }
  }
}
