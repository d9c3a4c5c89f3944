/**
 The segment container: a header, sections aligned to eight bytes, and a checksummed section table at the end.
 */
module SegmentBytes {
  import opened Common

  type byte = b: int | 0 <= b < 256

  const MAGIC: seq<byte> := [67, 72, 88, 83, 69, 71, 0, 1]
  const VERSION: nat := 5
  const HEADER: nat := 64
  const ENTRY: nat := 32
  const SECTIONS: nat := 20

  /** A 64-bit hash of bytes. */
  type Hash = seq<byte> -> nat

  /** An image's kind, generation and sections in order. */
  datatype Container = Container(kind: nat, generation: nat, sections: seq<seq<byte>>)

  // ---------------------------------------------------------------------------------------------
  // Little-endian numbers

  function Pow256(w: nat): nat
  {
    if w == 0 then 1 else 256 * Pow256(w - 1)
  }

  /** The low w bytes of n, least first. */
  function LE(n: nat, w: nat): (s: seq<byte>)
    ensures |s| == w
  {
    if w == 0 then [] else [n % 256] + LE(n / 256, w - 1)
  }

  function UnLE(s: seq<byte>): nat
  {
    if s == [] then 0 else s[0] + 256 * UnLE(s[1..])
  }

  /** Reading w bytes gives back a number that fits them. */
  lemma {:induction false} UnLEOfLE(n: nat, w: nat)
    requires n < Pow256(w)
    ensures UnLE(LE(n, w)) == n
  {
    if w > 0 {
      UnLEOfLE(n / 256, w - 1);
      assert LE(n, w)[1..] == LE(n / 256, w - 1);
    }
  }

  lemma {:induction false} Powers()
    ensures Pow256(1) == 0x100 && Pow256(2) == 0x1_0000 && Pow256(4) == 0x1_0000_0000 && Pow256(8) == 0x1_0000_0000_0000_0000
  {
    assert Pow256(2) == 256 * Pow256(1) && Pow256(3) == 256 * Pow256(2) && Pow256(4) == 256 * Pow256(3);
    assert Pow256(5) == 256 * Pow256(4) && Pow256(6) == 256 * Pow256(5) && Pow256(7) == 256 * Pow256(6) && Pow256(8) == 256 * Pow256(7);
  }

  // ---------------------------------------------------------------------------------------------
  // Parts laid end to end

  function Flat(parts: seq<seq<byte>>): (s: seq<byte>)
    ensures |s| == Start(parts, |parts|)
  {
    if parts == [] then []
    else
      StartOfFront(parts, |parts| - 1);
      Flat(parts[..|parts| - 1]) + parts[|parts| - 1]
  }

  /** Where part i starts. */
  function Start(parts: seq<seq<byte>>, i: nat): nat
    requires i <= |parts|
  {
    if i == 0 then 0 else Start(parts, i - 1) + |parts[i - 1]|
  }

  lemma {:induction false} StartOfFront(parts: seq<seq<byte>>, i: nat)
    requires i < |parts|
    ensures forall k :: 0 <= k <= i ==> Start(parts[..i], k) == Start(parts, k)
  {
    forall k | 0 <= k <= i ensures Start(parts[..i], k) == Start(parts, k) { StartAgrees(parts, i, k); }
  }

  lemma {:induction false} StartAgrees(parts: seq<seq<byte>>, i: nat, k: nat)
    requires k <= i <= |parts|
    ensures Start(parts[..i], k) == Start(parts, k)
  {
    if k > 0 { StartAgrees(parts, i, k - 1); }
  }

  /** Part i is found where it starts. */
  lemma {:induction false} FlatHolds(parts: seq<seq<byte>>, i: nat)
    requires i < |parts|
    ensures Start(parts, i) + |parts[i]| <= |Flat(parts)|
    ensures Flat(parts)[Start(parts, i)..Start(parts, i) + |parts[i]|] == parts[i]
    decreases |parts|
  {
    var n := |parts| - 1;
    StartOfFront(parts, n);
    var front := Flat(parts[..n]);
    if i < n {
      FlatHolds(parts[..n], i);
      assert Flat(parts)[..|front|] == front;
      assert Flat(parts)[Start(parts, i)..Start(parts, i) + |parts[i]|] == front[Start(parts, i)..Start(parts, i) + |parts[i]|];
    }
  }

  /** A number written as part i reads back from there. */
  lemma {:induction false} FlatReads(parts: seq<seq<byte>>, i: nat, n: nat, w: nat)
    requires i < |parts| && parts[i] == LE(n, w) && n < Pow256(w)
    ensures Start(parts, i) + w <= |Flat(parts)| && U(Flat(parts), Start(parts, i), w) == n
  {
    FlatHolds(parts, i);
    UnLEOfLE(n, w);
  }

  // ---------------------------------------------------------------------------------------------
  // Layout

  function Align8(n: nat): (r: nat)
    ensures n <= r < n + 8 && r % 8 == 0
  {
    (n + 7) / 8 * 8
  }

  /** Where section i starts; for i one past the last, where the table starts. */
  function Offset(sections: seq<seq<byte>>, i: nat): (r: nat)
    requires i <= |sections|
    ensures r >= HEADER && r % 8 == 0
  {
    if i == 0 then HEADER else Align8(Offset(sections, i - 1) + |sections[i - 1]|)
  }

  function Zeros(n: nat): (s: seq<byte>)
    ensures |s| == n
  {
    seq(n, _ => 0)
  }

  /** Sections 0..i, each padded to eight bytes. */
  function Body(sections: seq<seq<byte>>, i: nat): (s: seq<byte>)
    requires i <= |sections|
    ensures |s| == Offset(sections, i) - HEADER
  {
    if i == 0 then []
    else
      var front := Body(sections, i - 1);
      front + sections[i - 1] + Zeros(Offset(sections, i) - Offset(sections, i - 1) - |sections[i - 1]|)
  }

  /** The fields of entry i: section number, unused, offset, length, checksum. */
  function EntryParts(sections: seq<seq<byte>>, i: nat, hash: Hash): seq<seq<byte>>
    requires i < |sections|
  {
    [LE(i + 1, 4), Zeros(4), LE(Offset(sections, i), 8), LE(|sections[i]|, 8), LE(hash(sections[i]), 8)]
  }

  function Entry(sections: seq<seq<byte>>, i: nat, hash: Hash): (s: seq<byte>)
    requires i < |sections|
    ensures |s| == ENTRY
  {
    EntryStarts(EntryParts(sections, i, hash));
    Flat(EntryParts(sections, i, hash))
  }

  lemma {:induction false} EntryStarts(parts: seq<seq<byte>>)
    requires |parts| == 5 && |parts[0]| == 4 && |parts[1]| == 4 && |parts[2]| == 8 && |parts[3]| == 8 && |parts[4]| == 8
    ensures Start(parts, 0) == 0 && Start(parts, 2) == 8 && Start(parts, 3) == 16 && Start(parts, 4) == 24 && Start(parts, 5) == 32
  {
    assert Start(parts, 1) == 4;
  }

  function Table(sections: seq<seq<byte>>, i: nat, hash: Hash): (s: seq<byte>)
    requires i <= |sections|
    ensures |s| == i * ENTRY
  {
    if i == 0 then [] else Table(sections, i - 1, hash) + Entry(sections, i - 1, hash)
  }

  /** The header's first fields: magic, version, kind, section count, generation, table offset, table checksum. */
  function HeaderParts(c: Container, hash: Hash): seq<seq<byte>>
  {
    var n := |c.sections|;
    [MAGIC, LE(VERSION, 2), LE(c.kind, 2), LE(n, 4), LE(c.generation, 8), LE(Offset(c.sections, n), 8), LE(hash(Table(c.sections, n, hash)), 8)]
  }

  function HeaderStart(c: Container, hash: Hash): (s: seq<byte>)
    ensures |s| == 40
  {
    HeaderStarts(HeaderParts(c, hash));
    Flat(HeaderParts(c, hash))
  }

  lemma {:induction false} HeaderStarts(parts: seq<seq<byte>>)
    requires |parts| == 7 && |parts[0]| == 8 && |parts[1]| == 2 && |parts[2]| == 2 && |parts[3]| == 4
    requires |parts[4]| == 8 && |parts[5]| == 8 && |parts[6]| == 8
    ensures Start(parts, 0) == 0 && Start(parts, 1) == 8 && Start(parts, 2) == 10 && Start(parts, 3) == 12
    ensures Start(parts, 4) == 16 && Start(parts, 5) == 24 && Start(parts, 6) == 32 && Start(parts, 7) == 40
  {
    assert Start(parts, 1) == 8 && Start(parts, 2) == 10 && Start(parts, 3) == 12 && Start(parts, 4) == 16;
  }

  /** The whole image. */
  function Image(c: Container, hash: Hash): (s: seq<byte>)
    ensures |s| == Offset(c.sections, |c.sections|) + |c.sections| * ENTRY
  {
    var n := |c.sections|;
    var start := HeaderStart(c, hash);
    start + LE(hash(start), 8) + Zeros(16) + Body(c.sections, n) + Table(c.sections, n, hash)
  }

  // ---------------------------------------------------------------------------------------------
  // Parsing

  function U(data: seq<byte>, off: nat, w: nat): nat
    requires off + w <= |data|
  {
    UnLE(data[off..off + w])
  }

  /** Section i as its table entry describes it, when the entry is in order. */
  function SectionAt(data: seq<byte>, tableOff: nat, i: nat, hash: Hash): Option<seq<byte>>
    requires tableOff + (i + 1) * ENTRY <= |data|
  {
    var e := tableOff + i * ENTRY;
    var off, n := U(data, e + 8, 8), U(data, e + 16, 8);
    if U(data, e, 4) != i + 1 || off < HEADER || off > tableOff || n > tableOff - off then None
    else if hash(data[off..off + n]) != U(data, e + 24, 8) then None
    else Some(data[off..off + n])
  }

  function SectionsUpTo(data: seq<byte>, tableOff: nat, i: nat, hash: Hash): (r: Option<seq<seq<byte>>>)
    requires tableOff + i * ENTRY <= |data|
    ensures r.Some? ==> |r.value| == i
  {
    if i == 0 then Some([])
    else match SectionsUpTo(data, tableOff, i - 1, hash)
      case None => None
      case Some(front) =>
        match SectionAt(data, tableOff, i - 1, hash)
        case None => None
        case Some(s) => Some(front + [s])
  }

  /** The header is in order and the table fills the rest of the data. */
  predicate HeaderOk(data: seq<byte>, hash: Hash)
  {
    && |data| >= HEADER && data[..8] == MAGIC
    && hash(data[..40]) == U(data, 40, 8)
    && U(data, 8, 2) == VERSION && U(data, 12, 4) == SECTIONS
    && var tableOff := U(data, 24, 8);
       tableOff <= |data| && |data| - tableOff == SECTIONS * ENTRY && hash(data[tableOff..]) == U(data, 32, 8)
  }

  /** The first half of Parse: the container, or None when the data is corrupt. */
  function Opened(data: seq<byte>, hash: Hash): Option<Container>
  {
    if !HeaderOk(data, hash) then None
    else match SectionsUpTo(data, U(data, 24, 8), SECTIONS, hash)
      case None => None
      case Some(sections) => Some(Container(U(data, 10, 2), U(data, 16, 8), sections))
  }

  method Open(data: seq<byte>, hash: Hash) returns (c: Option<Container>)
    ensures c == Opened(data, hash)
  {
    if |data| < HEADER || data[..8] != MAGIC { return None; }
    if hash(data[..40]) != U(data, 40, 8) { return None; }
    if U(data, 8, 2) != VERSION { return None; }
    if U(data, 12, 4) != SECTIONS { return None; }
    var tableOff := U(data, 24, 8);
    if tableOff > |data| || |data| - tableOff != SECTIONS * ENTRY { return None; }
    if hash(data[tableOff..]) != U(data, 32, 8) { return None; }
    var secs: seq<seq<byte>> := [];
    for i := 0 to SECTIONS
      invariant SectionsUpTo(data, tableOff, i, hash) == Some(secs)
    {
      var s := SectionAt(data, tableOff, i, hash);
      if s.None? {
        StaysCorrupt(data, tableOff, i + 1, SECTIONS, hash);
        return None;
      }
      secs := secs + [s.value];
    }
    return Some(Container(U(data, 10, 2), U(data, 16, 8), secs));
  }

  lemma {:induction false} StaysCorrupt(data: seq<byte>, tableOff: nat, i: nat, n: nat, hash: Hash)
    requires i <= n && tableOff + n * ENTRY <= |data| && SectionsUpTo(data, tableOff, i, hash).None?
    ensures SectionsUpTo(data, tableOff, n, hash).None?
  {
    if i < n { StaysCorrupt(data, tableOff, i, n - 1, hash); }
  }

  // ---------------------------------------------------------------------------------------------
  // Round trip

  const MAX_INT64: nat := 0x7FFF_FFFF_FFFF_FFFF

  ghost predicate Fits(c: Container, hash: Hash)
  {
    && |c.sections| == SECTIONS && c.kind < 0x1_0000 && c.generation <= 0xFFFF_FFFF_FFFF_FFFF
    && Offset(c.sections, SECTIONS) + SECTIONS * ENTRY <= MAX_INT64
    && forall s :: hash(s) <= 0xFFFF_FFFF_FFFF_FFFF
  }

  /** The bytes of t within s + t + u. */
  lemma {:induction false} Middle(s: seq<byte>, t: seq<byte>, u: seq<byte>)
    ensures (s + t + u)[|s|..|s| + |t|] == t
  {
  }

  /** A field written after some bytes reads back. */
  lemma {:induction false} FieldReads(s: seq<byte>, n: nat, w: nat, u: seq<byte>)
    requires n < Pow256(w)
    ensures U(s + LE(n, w) + u, |s|, w) == n
  {
    Middle(s, LE(n, w), u);
    UnLEOfLE(n, w);
  }

  lemma {:induction false} OffsetsGrow(sections: seq<seq<byte>>, i: nat, j: nat)
    requires i <= j <= |sections|
    ensures Offset(sections, i) <= Offset(sections, j)
    ensures i < j ==> Offset(sections, i) + |sections[i]| <= Offset(sections, j)
  {
    if i < j { OffsetsGrow(sections, i, j - 1); }
  }

  /** Section i lies in the body at its offset. */
  lemma {:induction false} BodyHolds(sections: seq<seq<byte>>, i: nat, n: nat)
    requires i < n <= |sections|
    ensures Offset(sections, i) - HEADER + |sections[i]| <= |Body(sections, n)|
    ensures Body(sections, n)[Offset(sections, i) - HEADER..Offset(sections, i) - HEADER + |sections[i]|] == sections[i]
  {
    OffsetsGrow(sections, i, n);
    var front := Body(sections, n - 1);
    if i < n - 1 {
      BodyHolds(sections, i, n - 1);
      OffsetsGrow(sections, i, n - 1);
      assert Body(sections, n)[..|front|] == front;
      var at := Offset(sections, i) - HEADER;
      assert Body(sections, n)[at..at + |sections[i]|] == front[at..at + |sections[i]|];
    } else {
      Middle(front, sections[i], Zeros(Offset(sections, n) - Offset(sections, i) - |sections[i]|));
    }
  }

  /** Entry i lies in the table at i * ENTRY. */
  lemma {:induction false} TableHolds(sections: seq<seq<byte>>, i: nat, n: nat, hash: Hash)
    requires i < n <= |sections|
    ensures Table(sections, n, hash)[i * ENTRY..(i + 1) * ENTRY] == Entry(sections, i, hash)
  {
    var front := Table(sections, n - 1, hash);
    assert Table(sections, n, hash)[..|front|] == front;
    if i < n - 1 { TableHolds(sections, i, n - 1, hash); }
  }

  /** The fields of a table entry. */
  lemma {:induction false} EntryReads(sections: seq<seq<byte>>, i: nat, hash: Hash)
    requires i < |sections| && i + 1 < Pow256(4) && Offset(sections, i) < Pow256(8) && |sections[i]| < Pow256(8)
    requires hash(sections[i]) < Pow256(8)
    ensures var e := Entry(sections, i, hash);
      U(e, 0, 4) == i + 1 && U(e, 8, 8) == Offset(sections, i) && U(e, 16, 8) == |sections[i]| && U(e, 24, 8) == hash(sections[i])
  {
    hide Offset, LE, UnLE, Pow256, Flat, U;
    var parts := EntryParts(sections, i, hash);
    EntryStarts(parts);
    FlatReads(parts, 0, i + 1, 4);
    FlatReads(parts, 2, Offset(sections, i), 8);
    FlatReads(parts, 3, |sections[i]|, 8);
    FlatReads(parts, 4, hash(sections[i]), 8);
  }

  /** Reading a field of a slice is reading it in the whole. */
  lemma {:induction false} SliceReads(data: seq<byte>, at: nat, n: nat, off: nat, w: nat)
    requires at + n <= |data| && off + w <= n
    ensures U(data, at + off, w) == U(data[at..at + n], off, w)
  {
    var x := data[at..at + n];
    assert forall k :: 0 <= k < n ==> x[k] == data[at + k];
    assert data[at + off..at + off + w] == x[off..off + w];
  }

  ghost predicate Sized(c: Container, hash: Hash, i: nat)
    requires i < |c.sections|
  {
    i + 1 < Pow256(4) && Offset(c.sections, i) < Pow256(8) && |c.sections[i]| < Pow256(8) && hash(c.sections[i]) < Pow256(8)
  }

  lemma {:induction false} FittingIsSized(c: Container, hash: Hash, i: nat)
    requires Fits(c, hash) && i < SECTIONS
    ensures Sized(c, hash, i)
  {
    Powers();
    OffsetsGrow(c.sections, i, SECTIONS);
  }

  /** Where an image keeps its body and table. */
  lemma {:induction false} ImageParts(c: Container, hash: Hash)
    ensures var n := |c.sections|; var tableOff := Offset(c.sections, n); var data := Image(c, hash);
      |data| == tableOff + n * ENTRY && data[HEADER..tableOff] == Body(c.sections, n) && data[tableOff..] == Table(c.sections, n, hash)
  {
    hide Body, Table, Offset, HeaderStart, LE;
    var start := HeaderStart(c, hash) + LE(hash(HeaderStart(c, hash)), 8) + Zeros(16);
    assert Image(c, hash) == start + Body(c.sections, |c.sections|) + Table(c.sections, |c.sections|, hash);
  }

  lemma {:induction false} EntryLands(c: Container, hash: Hash, i: nat)
    requires i < |c.sections|
    ensures var e := Offset(c.sections, |c.sections|) + i * ENTRY;
      e + ENTRY <= |Image(c, hash)| && Image(c, hash)[e..e + ENTRY] == Entry(c.sections, i, hash)
  {
    hide Image, Body, Table, Offset, Entry;
    ImageParts(c, hash);
    TableHolds(c.sections, i, |c.sections|, hash);
    Shifted(Image(c, hash), Offset(c.sections, |c.sections|), i * ENTRY, (i + 1) * ENTRY);
  }

  lemma {:induction false} SectionLands(c: Container, hash: Hash, i: nat)
    requires i < |c.sections|
    ensures var off := Offset(c.sections, i);
      && off + |c.sections[i]| <= Offset(c.sections, |c.sections|) <= |Image(c, hash)|
      && Image(c, hash)[off..off + |c.sections[i]|] == c.sections[i]
  {
    hide Image, Body, Table, Offset;
    var n, off := |c.sections|, Offset(c.sections, i);
    ImageParts(c, hash);
    BodyHolds(c.sections, i, n);
    OffsetsGrow(c.sections, i, n);
    var body := Body(c.sections, n);
    Between(Image(c, hash), HEADER, Offset(c.sections, n), off - HEADER, off - HEADER + |c.sections[i]|);
    assert Image(c, hash)[off..off + |c.sections[i]|] == body[off - HEADER..off - HEADER + |c.sections[i]|];
  }

  lemma {:induction false} Between(data: seq<byte>, lo: nat, hi: nat, i: nat, j: nat)
    requires lo <= hi <= |data| && i <= j <= hi - lo
    ensures data[lo..hi][i..j] == data[lo + i..lo + j]
  {
    var x := data[lo..hi];
    assert forall k :: 0 <= k < hi - lo ==> x[k] == data[lo + k];
    assert x[i..j] == data[lo + i..lo + j];
  }

  lemma {:induction false} Shifted(data: seq<byte>, at: nat, i: nat, j: nat)
    requires i <= j && at + j <= |data|
    ensures data[at + i..at + j] == data[at..][i..j]
  {
  }

  /** The table entry of an image finds its section. */
  lemma {:induction false} ImageHolds(c: Container, hash: Hash, i: nat)
    requires i < |c.sections| && Sized(c, hash, i)
    ensures var n := |c.sections|; var tableOff := Offset(c.sections, n); var data := Image(c, hash);
      && tableOff + (i + 1) * ENTRY <= |data|
      && SectionAt(data, tableOff, i, hash) == Some(c.sections[i])
  {
    hide LE, UnLE, Pow256, Offset, Image, U, Entry;
    var data := Image(c, hash);
    var e := Offset(c.sections, |c.sections|) + i * ENTRY;
    EntryLands(c, hash, i);
    SectionLands(c, hash, i);
    EntryReads(c.sections, i, hash);
    SliceReads(data, e, ENTRY, 0, 4);
    SliceReads(data, e, ENTRY, 8, 8);
    SliceReads(data, e, ENTRY, 16, 8);
    SliceReads(data, e, ENTRY, 24, 8);
  }

  lemma {:induction false} AllSections(c: Container, hash: Hash, i: nat)
    requires i <= |c.sections| && forall k :: 0 <= k < |c.sections| ==> Sized(c, hash, k)
    ensures var n := |c.sections|; var tableOff := Offset(c.sections, n);
      tableOff + i * ENTRY <= |Image(c, hash)| && SectionsUpTo(Image(c, hash), tableOff, i, hash) == Some(c.sections[..i])
  {
    hide Image, Offset, Sized, SectionAt;
    if i > 0 {
      AllSections(c, hash, i - 1);
      assert Sized(c, hash, i - 1);
      ImageHolds(c, hash, i - 1);
      assert c.sections[..i] == c.sections[..i - 1] + [c.sections[i - 1]];
    }
  }

  lemma {:induction false} HeaderReads(c: Container, hash: Hash)
    requires Fits(c, hash)
    ensures var data := Image(c, hash);
      && |data| >= HEADER && HeaderOk(data, hash) && U(data, 24, 8) == Offset(c.sections, SECTIONS)
      && U(data, 10, 2) == c.kind && U(data, 16, 8) == c.generation
  {
    hide LE, UnLE, Pow256, Offset, Body, Table, U, Flat, Start, HeaderStart;
    Powers();
    StartReads(c, hash);
    var start := HeaderStart(c, hash);
    var y := LE(hash(start), 8);
    var data := Image(c, hash);
    var rest := y + Zeros(16) + Body(c.sections, SECTIONS) + Table(c.sections, SECTIONS, hash);
    assert data == start + rest;
    assert data[0..40] == start && data[..40] == start;
    SliceReads(data, 0, 40, 8, 2);
    SliceReads(data, 0, 40, 10, 2);
    SliceReads(data, 0, 40, 12, 4);
    SliceReads(data, 0, 40, 16, 8);
    SliceReads(data, 0, 40, 24, 8);
    SliceReads(data, 0, 40, 32, 8);
    assert data[..8] == start[..8];
    assert data == start + y + (Zeros(16) + Body(c.sections, SECTIONS) + Table(c.sections, SECTIONS, hash));
    FieldReads(start, hash(start), 8, Zeros(16) + Body(c.sections, SECTIONS) + Table(c.sections, SECTIONS, hash));
    assert data[Offset(c.sections, SECTIONS)..] == Table(c.sections, SECTIONS, hash);
  }

  lemma {:induction false} StartReads(c: Container, hash: Hash)
    requires Fits(c, hash)
    ensures var start := HeaderStart(c, hash);
      && start[..8] == MAGIC && U(start, 8, 2) == VERSION && U(start, 10, 2) == c.kind && U(start, 12, 4) == SECTIONS
      && U(start, 16, 8) == c.generation && U(start, 24, 8) == Offset(c.sections, SECTIONS)
      && U(start, 32, 8) == hash(Table(c.sections, SECTIONS, hash))
  {
    hide LE, UnLE, Pow256, Offset, Table, U, Flat, Start;
    Powers();
    var parts := HeaderParts(c, hash);
    HeaderStarts(parts);
    FlatHolds(parts, 0);
    FlatReads(parts, 1, VERSION, 2);
    FlatReads(parts, 2, c.kind, 2);
    FlatReads(parts, 3, SECTIONS, 4);
    FlatReads(parts, 4, c.generation, 8);
    FlatReads(parts, 5, Offset(c.sections, SECTIONS), 8);
    FlatReads(parts, 6, hash(Table(c.sections, SECTIONS, hash)), 8);
  }

  /** Opening an image gives back exactly what it was made from, for any hash. */
  lemma {:induction false} OpenedImage(c: Container, hash: Hash)
    requires Fits(c, hash)
    ensures Opened(Image(c, hash), hash) == Some(c)
  {
    hide Image, HeaderOk, U, SectionsUpTo, Sized;
    HeaderReads(c, hash);
    forall k | 0 <= k < |c.sections| ensures Sized(c, hash, k) { FittingIsSized(c, hash, k); }
    AllSections(c, hash, SECTIONS);
    assert c.sections[..SECTIONS] == c.sections;
  }

  /** Every section of an accepted image lies between the header and the table. */
  lemma {:induction false} SectionsAreInside(data: seq<byte>, hash: Hash, i: nat)
    requires Opened(data, hash).Some? && i < SECTIONS
    ensures var tableOff := U(data, 24, 8); var e := tableOff + i * ENTRY;
      && e + ENTRY <= |data|
      && var off := U(data, e + 8, 8);
         && HEADER <= off && off + |Opened(data, hash).value.sections[i]| <= tableOff
         && data[off..off + |Opened(data, hash).value.sections[i]|] == Opened(data, hash).value.sections[i]
  {
    SectionInside(data, U(data, 24, 8), SECTIONS, hash, i);
  }

  lemma {:induction false} SectionInside(data: seq<byte>, tableOff: nat, n: nat, hash: Hash, i: nat)
    requires tableOff + n * ENTRY <= |data| && SectionsUpTo(data, tableOff, n, hash).Some? && i < n
    ensures var s, e := SectionsUpTo(data, tableOff, n, hash).value[i], tableOff + i * ENTRY;
      var off := U(data, e + 8, 8); HEADER <= off && off + |s| <= tableOff && data[off..off + |s|] == s
  {
    if i < n - 1 { SectionInside(data, tableOff, n - 1, hash, i); }
  }

  // ---------------------------------------------------------------------------------------------
  // Writing

  /** s with t in place from off on. */
  function Overwritten(s: seq<byte>, off: nat, t: seq<byte>): (r: seq<byte>)
    requires off + |t| <= |s|
    ensures |r| == |s|
  {
    s[..off] + t + s[off + |t|..]
  }

  method CopyAt(out: array<byte>, off: nat, t: seq<byte>)
    requires off + |t| <= out.Length
    modifies out
    ensures out[..] == Overwritten(old(out[..]), off, t)
  {
    ghost var was := out[..];
    for i := 0 to |t|
      invariant out[..] == Overwritten(was, off, t[..i])
    {
      ghost var before := out[..];
      out[off + i] := t[i];
      assert out[..] == before[off + i := t[i]];
      assert Overwritten(was, off, t[..i])[off + i := t[i]] == Overwritten(was, off, t[..i + 1]);
    }
    assert t[..|t|] == t;
  }

  /** Replacing the middle of three parts. */
  lemma {:induction false} OverwriteMiddle(a: seq<byte>, b: seq<byte>, z: seq<byte>, t: seq<byte>)
    requires |b| == |t|
    ensures Overwritten(a + b + z, |a|, t) == a + t + z
  {
  }

  /** The image while sections 0..i are in place. */
  function Partial(sections: seq<seq<byte>>, i: nat, hash: Hash): (s: seq<byte>)
    requires i <= |sections|
    ensures |s| == Offset(sections, |sections|) + |sections| * ENTRY
  {
    OffsetsGrow(sections, i, |sections|);
    Zeros(HEADER) + Body(sections, i) + Zeros(Offset(sections, |sections|) - Offset(sections, i))
    + (Table(sections, i, hash) + Zeros((|sections| - i) * ENTRY))
  }

  lemma {:induction false} ZerosSplit(a: nat, b: nat)
    ensures Zeros(a + b) == Zeros(a) + Zeros(b)
  {
  }

  /** The gap before the table once section i is in place, its entry not yet. */
  function Placed(sections: seq<seq<byte>>, i: nat, hash: Hash): (s: seq<byte>)
    requires i < |sections|
    ensures |s| == Offset(sections, |sections|) + |sections| * ENTRY
  {
    OffsetsGrow(sections, i + 1, |sections|);
    Zeros(HEADER) + Body(sections, i + 1) + Zeros(Offset(sections, |sections|) - Offset(sections, i + 1))
    + (Table(sections, i, hash) + Zeros((|sections| - i) * ENTRY))
  }

  lemma {:induction false} SectionPlaced(sections: seq<seq<byte>>, i: nat, hash: Hash)
    requires i < |sections|
    ensures Offset(sections, i) + |sections[i]| <= |Partial(sections, i, hash)|
    ensures Overwritten(Partial(sections, i, hash), Offset(sections, i), sections[i]) == Placed(sections, i, hash)
  {
    hide Body, Table, Overwritten, Align8;
    var n, s := |sections|, sections[i];
    OffsetsGrow(sections, i + 1, n);
    BodyStep(sections, i);
    var pad := Offset(sections, i + 1) - Offset(sections, i) - |s|;
    var left := Offset(sections, n) - Offset(sections, i + 1);
    var head := Zeros(HEADER) + Body(sections, i);
    var table := Table(sections, i, hash) + Zeros((n - i) * ENTRY);
    ZerosSplit(|s|, pad + left);
    ZerosSplit(pad, left);
    var tail := Zeros(pad) + Zeros(left) + table;
    assert Partial(sections, i, hash) == head + Zeros(|s|) + tail;
    OverwriteMiddle(head, Zeros(|s|), tail, s);
    assert head + s + tail == Placed(sections, i, hash);
  }

  lemma {:induction false} EntryPlaced(sections: seq<seq<byte>>, i: nat, hash: Hash)
    requires i < |sections|
    ensures Offset(sections, |sections|) + i * ENTRY + ENTRY <= |Placed(sections, i, hash)|
    ensures Overwritten(Placed(sections, i, hash), Offset(sections, |sections|) + i * ENTRY, Entry(sections, i, hash)) == Partial(sections, i + 1, hash)
  {
    hide Offset, Body, Table, Overwritten, Zeros, Entry;
    var n := |sections|;
    OffsetsGrow(sections, i + 1, n);
    TableStep(sections, i, hash);
    var front := Zeros(HEADER) + Body(sections, i + 1) + Zeros(Offset(sections, n) - Offset(sections, i + 1)) + Table(sections, i, hash);
    var tail := Zeros((n - i - 1) * ENTRY);
    ZerosSplit(ENTRY, (n - i - 1) * ENTRY);
    assert Placed(sections, i, hash) == front + Zeros(ENTRY) + tail;
    OverwriteMiddle(front, Zeros(ENTRY), tail, Entry(sections, i, hash));
    assert front + Entry(sections, i, hash) + tail == Partial(sections, i + 1, hash);
  }

  lemma {:induction false} BodyStep(sections: seq<seq<byte>>, i: nat)
    requires i < |sections|
    ensures Offset(sections, i) + |sections[i]| <= Offset(sections, i + 1)
    ensures Body(sections, i + 1) == Body(sections, i) + sections[i] + Zeros(Offset(sections, i + 1) - Offset(sections, i) - |sections[i]|)
  {
  }

  lemma {:induction false} TableStep(sections: seq<seq<byte>>, i: nat, hash: Hash)
    requires i < |sections|
    ensures Table(sections, i + 1, hash) == Table(sections, i, hash) + Entry(sections, i, hash)
  {
  }

  /** assemble: lay the sections out, fill in the table, then the header. */
  method Assemble(c: Container, hash: Hash) returns (out: array<byte>)
    ensures fresh(out) && out[..] == Image(c, hash)
  {
    hide *;
    var n := |c.sections|;
    var offs, size := Offsets(c.sections);
    out := new byte[size + n * ENTRY](_ => 0);
    PartialStart(c.sections, hash);
    ZeroBytes(out[..]);
    for i := 0 to n
      invariant out[..] == Partial(c.sections, i, hash)
    {
      SectionPlaced(c.sections, i, hash);
      EntryPlaced(c.sections, i, hash);
      CopyAt(out, offs[i], c.sections[i]);
      CopyAt(out, size + i * ENTRY, Entry(c.sections, i, hash));
    }
    var start := HeaderStart(c, hash);
    HeaderFits(c, hash);
    assert |out[..]| == out.Length;
    CopyAt(out, 0, start);
    CopyAt(out, 40, LE(hash(start), 8));
  }

  /** The offset of every section, and where the table starts. */
  method Offsets(sections: seq<seq<byte>>) returns (offs: seq<nat>, size: nat)
    ensures |offs| == |sections| && size == Offset(sections, |sections|)
    ensures forall k :: 0 <= k < |sections| ==> offs[k] == Offset(sections, k)
  {
    hide Align8, Offset;
    OffsetStart(sections);
    size := HEADER;
    offs := [];
    for i := 0 to |sections|
      invariant size == Offset(sections, i) && |offs| == i && forall k :: 0 <= k < i ==> offs[k] == Offset(sections, k)
    {
      offs := offs + [size];
      OffsetStep(sections, i);
      size := Align8(size + |sections[i]|);
    }
  }

  lemma {:induction false} OffsetStep(sections: seq<seq<byte>>, i: nat)
    requires i < |sections|
    ensures Offset(sections, i + 1) == Align8(Offset(sections, i) + |sections[i]|)
  {
  }

  lemma {:induction false} OffsetStart(sections: seq<seq<byte>>)
    ensures Offset(sections, 0) == HEADER
  {
  }

  lemma {:induction false} ZeroBytes(s: seq<byte>)
    requires forall k :: 0 <= k < |s| ==> s[k] == 0
    ensures s == Zeros(|s|)
  {
  }

  lemma {:induction false} PartialStart(sections: seq<seq<byte>>, hash: Hash)
    ensures Partial(sections, 0, hash) == Zeros(Offset(sections, |sections|) + |sections| * ENTRY)
  {
    hide Offset;
    OffsetStart(sections);
  }

  lemma {:induction false} HeaderFits(c: Container, hash: Hash)
    ensures var n := |c.sections|; var part := Partial(c.sections, n, hash); var start := HeaderStart(c, hash);
      && |part| >= 64 && |start| == 40 && |LE(hash(start), 8)| == 8
      && Overwritten(Overwritten(part, 0, start), 40, LE(hash(start), 8)) == Image(c, hash)
  {
    hide Offset, Body, Table, LE, HeaderStart, Overwritten;
    var n := |c.sections|;
    var start, y := HeaderStart(c, hash), LE(hash(HeaderStart(c, hash)), 8);
    var rest := Body(c.sections, n) + Table(c.sections, n, hash);
    assert Partial(c.sections, n, hash) == [] + Zeros(40) + (Zeros(8) + Zeros(16) + rest);
    OverwriteMiddle([], Zeros(40), Zeros(8) + Zeros(16) + rest, start);
    assert [] + start + (Zeros(8) + Zeros(16) + rest) == start + Zeros(8) + (Zeros(16) + rest);
    OverwriteMiddle(start, Zeros(8), Zeros(16) + rest, y);
    assert start + y + (Zeros(16) + rest) == Image(c, hash);
  }
}
