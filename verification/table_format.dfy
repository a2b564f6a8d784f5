/** Block handles, the footer and raw blocks of a table file (table/format.h, table/format.cc). */
module TableFormat {
  import opened Coding
  import opened Wrappers

  /** Where a block lies in the file, without its trailer. */
  datatype Handle = Handle(offset: nat, size: nat)

  datatype Footer = Footer(metaindex: Handle, index: Handle)

  const MAX_HANDLE := 20
  const FOOTER_LENGTH := 48
  const TRAILER_SIZE := 5
  const NO_COMPRESSION: byte := 0

  /** kTableMagicNumber, low half first. */
  const MAGIC: nat := 0xdb4775248b80fb57

  predicate HandleOk(h: Handle) {
    h.offset < Pow2(64) && h.size < Pow2(64)
  }

  function EncodeHandle(h: Handle): Bytes {
    Varint(h.offset) + Varint(h.size)
  }

  /** What is behind the handle is left for later extensions. */
  function DecodeHandle(s: Bytes): Option<Parsed<Handle>> {
    match GetVarint(s, 64)
    case None => None
    case Some(a) =>
      match GetVarint(a.rest, 64)
      case None => None
      case Some(b) => Some(Parsed(Handle(a.value, b.value), b.rest))
  }

  lemma HandleRoundTrip(h: Handle, rest: Bytes)
    requires HandleOk(h)
    ensures DecodeHandle(EncodeHandle(h) + rest) == Some(Parsed(h, rest))
  {
    assert EncodeHandle(h) + rest == Varint(h.offset) + (Varint(h.size) + rest);
    VarintRoundTrip(h.offset, Varint(h.size) + rest, 64);
    VarintRoundTrip(h.size, rest, 64);
  }

  lemma {:induction false} VarintIsShort(n: nat, k: nat)
    requires k >= 1 && n < Pow2(7 * k)
    ensures |Varint(n)| <= k
  {
    Pow2Seven(7 * k - 7);
    if n >= 128 {
      Pow2OfSeven();
      if k == 1 { assert false; }
      VarintIsShort(n / 128, k - 1);
    }
  }

  lemma Pow2OfSeven()
    ensures Pow2(7) == 128 && Pow2(0) == 1
  {
    Pow2Seven(0);
  }

  lemma HandleIsShort(h: Handle)
    requires HandleOk(h)
    ensures |EncodeHandle(h)| <= MAX_HANDLE
  {
    Pow2Monotone(64, 70);
    VarintIsShort(h.offset, 10);
    VarintIsShort(h.size, 10);
  }

  function Resized(s: Bytes, n: nat): (r: Bytes)
    ensures |r| == n
  {
    if |s| <= n then s + Zeros(n - |s|) else s[..n]
  }

  /** Both handles, padding, and the magic number. */
  function EncodeFooter(f: Footer): (s: Bytes)
    ensures |s| == FOOTER_LENGTH
  {
    Resized(EncodeHandle(f.metaindex) + EncodeHandle(f.index), 2 * MAX_HANDLE) + Fixed(MAGIC, 8)
  }

  function DecodeFooter(s: Bytes): Option<Footer>
    requires |s| >= FOOTER_LENGTH
  {
    if Unfixed(s[FOOTER_LENGTH - 8..FOOTER_LENGTH]) != MAGIC then None
    else
      match DecodeHandle(s)
      case None => None
      case Some(meta) =>
        match DecodeHandle(meta.rest)
        case None => None
        case Some(index) => Some(Footer(meta.value, index.value))
  }

  lemma MagicFits()
    ensures MAGIC < Pow2(64)
  {
    assert Pow2(8) == 0x100 by { Pow2Step(8); }
    hide Pow2;
    Pow2Step(16);
    Pow2Step(24);
    Pow2Step(32);
    Pow2Step(40);
    Pow2Step(48);
    Pow2Step(56);
    Pow2Step(64);
  }

  lemma FooterRoundTrip(f: Footer)
    requires HandleOk(f.metaindex) && HandleOk(f.index)
    ensures DecodeFooter(EncodeFooter(f)) == Some(f)
  {
    hide EncodeHandle, HandleOk, Zeros, Fixed, Pow2;
    HandleIsShort(f.metaindex);
    HandleIsShort(f.index);
    var a, b := EncodeHandle(f.metaindex), EncodeHandle(f.index);
    var padding := Zeros(2 * MAX_HANDLE - |a + b|);
    var s := EncodeFooter(f);
    MagicFits();
    FixedRoundTrip(MAGIC, 8);
    assert s[FOOTER_LENGTH - 8..FOOTER_LENGTH] == Fixed(MAGIC, 8);
    FooterRegroups(a, b, padding, Fixed(MAGIC, 8));
    HandleRoundTrip(f.metaindex, b + (padding + Fixed(MAGIC, 8)));
    HandleRoundTrip(f.index, padding + Fixed(MAGIC, 8));
  }

  lemma FooterRegroups(a: Bytes, b: Bytes, c: Bytes, d: Bytes)
    ensures (a + b) + c + d == a + (b + (c + d))
  {
  }

  // ---------------------------------------------------------------- raw blocks

  /** The masked checksum of some bytes: any function. */
  type Checksum = Bytes -> nat

  /** The type and the checksum of contents and type. */
  function Trailer(crc: Checksum, contents: Bytes): (s: Bytes)
    ensures |s| == TRAILER_SIZE
  {
    [NO_COMPRESSION] + Fixed(crc(contents + [NO_COMPRESSION]), 4)
  }

  datatype ReadResult = Contents(data: Bytes) | Truncated | Mismatch | BadType

  /** ReadBlock for files without compressed blocks. */
  function ReadBlock(file: Bytes, crc: Checksum, verify: bool, h: Handle): ReadResult {
    if |file| < h.offset + h.size + TRAILER_SIZE then Truncated
    else
      var contents := file[h.offset..h.offset + h.size];
      var kind := file[h.offset + h.size];
      if verify && Unfixed(file[h.offset + h.size + 1..h.offset + h.size + 5]) != crc(contents + [kind]) then Mismatch
      else if kind != NO_COMPRESSION then BadType
      else Contents(contents)
  }

  /** The block with these contents lies where the handle says. */
  ghost predicate BlockAt(file: Bytes, crc: Checksum, h: Handle, contents: Bytes) {
    && h.size == |contents| && h.offset + h.size + TRAILER_SIZE <= |file|
    && file[h.offset..h.offset + h.size] == contents
    && file[h.offset + h.size..h.offset + h.size + TRAILER_SIZE] == Trailer(crc, contents)
  }

  lemma AppendedBlock(file: Bytes, crc: Checksum, contents: Bytes, rest: Bytes)
    ensures BlockAt(file + contents + Trailer(crc, contents) + rest, crc, Handle(|file|, |contents|), contents)
  {
    var all := file + contents + Trailer(crc, contents) + rest;
    assert all[|file|..|file| + |contents|] == contents;
    assert all[|file| + |contents|..|file| + |contents| + TRAILER_SIZE] == Trailer(crc, contents);
  }

  /** What was written stays when the file grows. */
  lemma BlockStays(file: Bytes, more: Bytes, crc: Checksum, h: Handle, contents: Bytes)
    requires BlockAt(file, crc, h, contents)
    ensures BlockAt(file + more, crc, h, contents)
  {
    assert (file + more)[h.offset..h.offset + h.size] == file[h.offset..h.offset + h.size];
    assert (file + more)[h.offset + h.size..h.offset + h.size + TRAILER_SIZE] ==
           file[h.offset + h.size..h.offset + h.size + TRAILER_SIZE];
  }

  /** A block that was written is read, whether checksums are verified or not. */
  lemma BlockReads(file: Bytes, crc: Checksum, verify: bool, h: Handle, contents: Bytes)
    requires BlockAt(file, crc, h, contents) && crc(contents + [NO_COMPRESSION]) < Pow2(32)
    ensures ReadBlock(file, crc, verify, h) == Contents(contents)
  {
    var trailer := file[h.offset + h.size..h.offset + h.size + TRAILER_SIZE];
    assert trailer[0] == file[h.offset + h.size];
    assert trailer[1..5] == file[h.offset + h.size + 1..h.offset + h.size + 5];
    assert Trailer(crc, contents)[1..5] == Fixed(crc(contents + [NO_COMPRESSION]), 4);
    FixedRoundTrip(crc(contents + [NO_COMPRESSION]), 4);
  }
}
