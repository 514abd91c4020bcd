/** Reading the identifying fields of an RPM package header (LSB Core Generic 5.0, section 25.2). */
module RpmHeader {
  import opened Common
  import opened GoText

  type Byte = b: int | 0 <= b < 0x100
  type Uint32 = n: int | 0 <= n < 0x1_0000_0000

  type Bytes = seq<Byte>

  const LEAD_SIZE := 96
  const LEAD_MAGIC: Bytes := [0xed, 0xab, 0xee, 0xdb]
  const HEADER_MAGIC: Bytes := [0x8e, 0xad, 0xe8]

  const TAG_NAME: Uint32 := 1000
  const TAG_VERSION: Uint32 := 1001
  const TAG_RELEASE: Uint32 := 1002
  const TAG_EPOCH: Uint32 := 1003
  const TAG_ARCH: Uint32 := 1022
  const TAG_SOURCE_RPM: Uint32 := 1044

  const TYPE_INT32: Uint32 := 4
  const TYPE_STRING: Uint32 := 6

  datatype Entry = Entry(typ: Uint32, offset: Uint32)

  datatype Header = Header(name: Bytes, epoch: string, version: Bytes, release: Bytes, arch: Bytes, source: bool)

  datatype Error = NotRpm | BadMagic | Truncated | Incomplete

  datatype Parsed = Parsed(entries: map<Uint32, Entry>, store: Bytes, size: int)

  // ---------------------------------------------------------------------------------------------------------------
  // What the parser computes
  // ---------------------------------------------------------------------------------------------------------------

  /** The big-endian 32-bit number at `i`. */
  function U32(data: Bytes, i: int): Uint32
    requires 0 <= i && i + 4 <= |data|
  {
    data[i] as int * 0x100_0000 + data[i + 1] as int * 0x1_0000 + data[i + 2] as int * 0x100 + data[i + 3] as int
  }

  /** The first `n` index entries from `base` on; a later entry for a tag overrides an earlier one. */
  function IndexEntries(data: Bytes, base: int, n: nat): map<Uint32, Entry>
    requires 0 <= base && base + 16 * n <= |data|
  {
    if n == 0 then map[]
    else
      var at := base + 16 * (n - 1);
      IndexEntries(data, base, n - 1)[U32(data, at) := Entry(U32(data, at + 4), U32(data, at + 8))]
  }

  /** A section may start at `off`: there is room for its two lengths, and the magic is there. */
  predicate HasSection(data: Bytes, off: int) {
    0 <= off && off + 16 <= |data| && data[off..off + 3] == HEADER_MAGIC
  }

  /** Where the section says its store starts. */
  function StoreStart(data: Bytes, off: int): int
    requires HasSection(data, off)
  {
    off + 16 + 16 * U32(data, off + 8)
  }

  /** Where the section says it ends; nothing says that the data reach so far. */
  function SectionEnd(data: Bytes, off: int): int
    requires HasSection(data, off)
  {
    StoreStart(data, off) + U32(data, off + 12)
  }

  function ParseSection(data: Bytes, off: int): (r: Result<Parsed, Error>)
    requires 0 <= off
    ensures r.Ok? ==> 16 <= r.value.size && off + r.value.size <= |data|
  {
    if !HasSection(data, off) then Err(BadMagic)
    else if SectionEnd(data, off) > |data| then Err(Truncated)
    else Ok(Parsed(IndexEntries(data, off + 16, U32(data, off + 8)),
                   data[StoreStart(data, off)..SectionEnd(data, off)], SectionEnd(data, off) - off))
  }

  /** The bytes up to the first NUL, or all of them. */
  function UpToNul(s: Bytes): Bytes {
    if s == [] || s[0] == 0 then [] else [s[0]] + UpToNul(s[1..])
  }

  function ReadString(p: Parsed, tag: Uint32): Bytes {
    if tag !in p.entries || p.entries[tag].typ != TYPE_STRING || p.entries[tag].offset >= |p.store| then []
    else UpToNul(p.store[p.entries[tag].offset..])
  }

  function ReadEpoch(p: Parsed): string {
    if TAG_EPOCH in p.entries && p.entries[TAG_EPOCH].typ == TYPE_INT32 && p.entries[TAG_EPOCH].offset + 4 <= |p.store|
    then FormatNat(U32(p.store, p.entries[TAG_EPOCH].offset))
    else ""
  }

  /** Where the main header starts, behind a signature section of `size` bytes. */
  function MainOffset(size: int): int {
    LEAD_SIZE + size + (8 - size % 8) % 8
  }

  function Fields(p: Parsed): Header {
    Header(ReadString(p, TAG_NAME), ReadEpoch(p), ReadString(p, TAG_VERSION), ReadString(p, TAG_RELEASE),
           ReadString(p, TAG_ARCH), TAG_SOURCE_RPM !in p.entries)
  }

  predicate IsComplete(h: Header) {
    h.name != [] && h.version != [] && h.release != [] && h.arch != []
  }

  /** The main section, behind the lead and the signature section. */
  function MainSection(data: Bytes): Result<Parsed, Error> {
    if |data| < LEAD_SIZE || data[..4] != LEAD_MAGIC then Err(NotRpm)
    else
      var sig := ParseSection(data, LEAD_SIZE);
      if sig.Err? then sig else ParseSection(data, MainOffset(sig.value.size))
  }

  function ReadHeader(data: Bytes): Result<Header, Error> {
    var main := MainSection(data);
    if main.Err? then Err(main.error)
    else if !IsComplete(Fields(main.value)) then Err(Incomplete)
    else Ok(Fields(main.value))
  }

  // ---------------------------------------------------------------------------------------------------------------
  // The parser as it runs
  // ---------------------------------------------------------------------------------------------------------------

  const FAR: int := 0x20_0000_0000

  /** The main header starts at the least multiple of 8 at or behind the end of the signature section. */
  lemma MainOffsetIsAligned(size: int)
    requires 0 <= size
    ensures var end, main := LEAD_SIZE + size, MainOffset(size);
            main % 8 == 0 && end <= main && forall k :: end <= k && k % 8 == 0 ==> main <= k
  {
  }

  /** Parses one section. Every index and slice is in range on any input, and the two offsets computed from the
      lengths in the section, whatever these claim, stay below 2^37 plus the length of the data. */
  method ParseSectionBytes(data: Bytes, off: int) returns (r: Result<Parsed, Error>)
    requires 0 <= off <= |data| + 7
    ensures r == ParseSection(data, off)
    ensures off + 16 < FAR + |data|
    ensures HasSection(data, off) ==> off + 16 <= StoreStart(data, off) <= SectionEnd(data, off) < FAR + |data|
  {
    if |data| < off + 16 || data[off..off + 3] != HEADER_MAGIC {
      return Err(BadMagic);
    }
    var count: int, size: int := U32(data, off + 8), U32(data, off + 12);
    var storeStart := off + 16 + 16 * count;
    var end := storeStart + size;
    if end > |data| {
      return Err(Truncated);
    }
    var entries: map<Uint32, Entry> := map[];
    for i := 0 to count
      invariant entries == IndexEntries(data, off + 16, i)
    {
      var e := data[off + 16 + 16 * i..];
      SliceU32(data, off + 16 + 16 * i);
      entries := entries[U32(e, 0) := Entry(U32(e, 4), U32(e, 8))];
    }
    r := Ok(Parsed(entries, data[storeStart..end], end - off));
  }

  lemma SliceU32(data: Bytes, at: int)
    requires 0 <= at && at + 16 <= |data|
    ensures U32(data[at..], 0) == U32(data, at)
    ensures U32(data[at..], 4) == U32(data, at + 4)
    ensures U32(data[at..], 8) == U32(data, at + 8)
  {
  }

  /** Where the second section is looked for: as far as the signature section goes, and up to seven bytes behind
      it. */
  predicate MainIsNear(data: Bytes) {
    var sig := ParseSection(data, LEAD_SIZE);
    sig.Ok? ==>
      var main := MainOffset(sig.value.size);
      && LEAD_SIZE + sig.value.size <= main <= |data| + 7
      && (HasSection(data, main) ==> main + 16 <= StoreStart(data, main) <= SectionEnd(data, main) < FAR + |data|)
  }

  lemma OffsetsAreNear(data: Bytes, off: int)
    ensures HasSection(data, off) ==> off + 16 <= StoreStart(data, off) <= SectionEnd(data, off) < FAR + |data|
  {
  }

  lemma MainIsAlwaysNear(data: Bytes)
    ensures MainIsNear(data)
  {
    var sig := ParseSection(data, LEAD_SIZE);
    if sig.Ok? {
      OffsetsAreNear(data, MainOffset(sig.value.size));
    }
  }

  method ReadMainSection(data: Bytes) returns (r: Result<Parsed, Error>)
    ensures r == MainSection(data)
    ensures HasSection(data, LEAD_SIZE) ==> StoreStart(data, LEAD_SIZE) <= SectionEnd(data, LEAD_SIZE) < FAR + |data|
    ensures MainIsNear(data)
  {
    OffsetsAreNear(data, LEAD_SIZE);
    MainIsAlwaysNear(data);
    if |data| < LEAD_SIZE || data[..4] != LEAD_MAGIC {
      return Err(NotRpm);
    }
    r := ParseSectionBytes(data, LEAD_SIZE);
    if r.Ok? {
      r := ParseSectionBytes(data, MainOffset(r.value.size));
    }
  }

  method ReadHeaderBytes(data: Bytes) returns (r: Result<Header, Error>)
    ensures r == ReadHeader(data)
  {
    var main := ReadMainSection(data);
    if main.Err? {
      return Err(main.error);
    }
    var h := ReadFields(main.value);
    if !IsComplete(h) {
      return Err(Incomplete);
    }
    r := Ok(h);
  }

  method ReadFields(p: Parsed) returns (h: Header)
    ensures h == Fields(p)
  {
    h := Header(ReadString(p, TAG_NAME), "", ReadString(p, TAG_VERSION), ReadString(p, TAG_RELEASE),
                ReadString(p, TAG_ARCH), false);
    if TAG_EPOCH in p.entries && p.entries[TAG_EPOCH].typ == TYPE_INT32
        && p.entries[TAG_EPOCH].offset + 4 <= |p.store| {
      h := h.(epoch := FormatNat(U32(p.store, p.entries[TAG_EPOCH].offset)));
    }
    h := h.(source := TAG_SOURCE_RPM !in p.entries);
  }

  // ---------------------------------------------------------------------------------------------------------------
  // The file layout
  // ---------------------------------------------------------------------------------------------------------------

  function PutU32(n: Uint32): (bytes: Bytes)
    ensures |bytes| == 4
  {
    [n / 0x100_0000, n / 0x1_0000 % 0x100, n / 0x100 % 0x100, n % 0x100]
  }

  lemma LastDigit(n: int)
    ensures n == n / 0x100 * 0x100 + n % 0x100
    ensures n / 0x100 / 0x100 == n / 0x1_0000 && n / 0x1_0000 / 0x100 == n / 0x100_0000
  {
  }

  lemma DigitsOf(n: int)
    ensures n == n / 0x100_0000 * 0x100_0000 + n / 0x1_0000 % 0x100 * 0x1_0000 + n / 0x100 % 0x100 * 0x100 + n % 0x100
  {
    LastDigit(n);
    LastDigit(n / 0x100);
    LastDigit(n / 0x1_0000);
  }

  lemma SameBytesSameNumber(a: Bytes, i: int, b: Bytes)
    requires 0 <= i && i + 4 <= |a| && |b| == 4 && a[i..i + 4] == b
    ensures U32(a, i) == U32(b, 0)
  {
    var m := a[i..i + 4];
    assert m[0] == a[i] && m[1] == a[i + 1] && m[2] == a[i + 2] && m[3] == a[i + 3];
  }

  lemma MiddleOf(a: Bytes, b: Bytes, c: Bytes)
    ensures (a + b + c)[|a|..|a| + |b|] == b
  {
  }

  lemma PutThenU32(n: Uint32)
    ensures U32(PutU32(n), 0) == n
  {
    DigitsOf(n);
  }

  lemma U32OfPut(n: Uint32, before: Bytes, after: Bytes)
    ensures U32(before + PutU32(n) + after, |before|) == n
  {
    PutThenU32(n);
    MiddleOf(before, PutU32(n), after);
    SameBytesSameNumber(before + PutU32(n) + after, |before|, PutU32(n));
  }

  /** One index record; the parser does not look at the count. */
  datatype Index = Index(tag: Uint32, typ: Uint32, offset: Uint32, count: Uint32)

  /** A header section: reserved bytes behind the magic, an index, and a store. */
  datatype Section = Section(reserved: Bytes, index: seq<Index>, store: Bytes)

  predicate Fits(s: Section) {
    |s.reserved| == 5 && |s.index| < 0x1_0000_0000 && |s.store| < 0x1_0000_0000
  }

  function IndexRecord(x: Index): (bytes: Bytes)
    ensures |bytes| == 16
  {
    PutU32(x.tag) + PutU32(x.typ) + PutU32(x.offset) + PutU32(x.count)
  }

  function IndexBytes(xs: seq<Index>): (bytes: Bytes)
    ensures |bytes| == 16 * |xs|
  {
    if xs == [] then [] else IndexBytes(xs[..|xs| - 1]) + IndexRecord(xs[|xs| - 1])
  }

  function Preamble(s: Section): (bytes: Bytes)
    requires Fits(s)
    ensures |bytes| == 16
  {
    [0x8e, 0xad, 0xe8] + s.reserved + PutU32(|s.index|) + PutU32(|s.store|)
  }

  function SectionBytes(s: Section): (bytes: Bytes)
    requires Fits(s)
    ensures |bytes| == 16 + 16 * |s.index| + |s.store|
  {
    Preamble(s) + IndexBytes(s.index) + s.store
  }

  /** The index as a table; a later record for a tag overrides an earlier one. */
  function Table(xs: seq<Index>): map<Uint32, Entry> {
    if xs == [] then map[]
    else Table(xs[..|xs| - 1])[xs[|xs| - 1].tag := Entry(xs[|xs| - 1].typ, xs[|xs| - 1].offset)]
  }

  /** A whole file: lead, signature section, padding to 8 bytes, main section, payload. */
  function FileBytes(lead: Bytes, sig: Section, pad: Bytes, main: Section, payload: Bytes): Bytes
    requires Fits(sig) && Fits(main)
  {
    lead + SectionBytes(sig) + pad + SectionBytes(main) + payload
  }

  predicate IsLead(lead: Bytes) {
    |lead| == 96 && lead[..4] == [0xed, 0xab, 0xee, 0xdb]
  }

  // ---------------------------------------------------------------------------------------------------------------
  // Parsing what was laid out
  // ---------------------------------------------------------------------------------------------------------------

  lemma RecordReads(x: Index, before: Bytes, after: Bytes)
    ensures var data, at := before + IndexRecord(x) + after, |before|;
            U32(data, at) == x.tag && U32(data, at + 4) == x.typ && U32(data, at + 8) == x.offset
  {
    var data := before + IndexRecord(x) + after;
    U32OfPut(x.tag, before, PutU32(x.typ) + PutU32(x.offset) + PutU32(x.count) + after);
    assert data == before + PutU32(x.tag) + (PutU32(x.typ) + PutU32(x.offset) + PutU32(x.count) + after);
    var b1 := before + PutU32(x.tag);
    U32OfPut(x.typ, b1, PutU32(x.offset) + PutU32(x.count) + after);
    assert data == b1 + PutU32(x.typ) + (PutU32(x.offset) + PutU32(x.count) + after);
    var b2 := b1 + PutU32(x.typ);
    U32OfPut(x.offset, b2, PutU32(x.count) + after);
    assert data == b2 + PutU32(x.offset) + (PutU32(x.count) + after);
  }

  lemma RegroupIndex(xs: seq<Index>, before: Bytes, after: Bytes)
    requires xs != []
    ensures var init, last := IndexBytes(xs[..|xs| - 1]), IndexRecord(xs[|xs| - 1]);
            && before + IndexBytes(xs) + after == before + init + (last + after)
            && before + IndexBytes(xs) + after == (before + init) + last + after
  {
    Regroup(before, IndexBytes(xs[..|xs| - 1]), IndexRecord(xs[|xs| - 1]), after);
  }

  lemma Regroup(a: Bytes, b: Bytes, c: Bytes, d: Bytes)
    ensures a + (b + c) + d == a + b + (c + d) && a + (b + c) + d == (a + b) + c + d
  {
  }

  lemma {:induction false} IndexReads(xs: seq<Index>, before: Bytes, after: Bytes)
    ensures IndexEntries(before + IndexBytes(xs) + after, |before|, |xs|) == Table(xs)
    decreases |xs|
  {
    if xs != [] {
      var n := |xs| - 1;
      var init, last := xs[..n], xs[n];
      IndexReads(init, before, IndexRecord(last) + after);
      RegroupIndex(xs, before, after);
      RecordReads(last, before + IndexBytes(init), after);
    }
  }

  lemma PreambleReads(s: Section, before: Bytes, after: Bytes)
    requires Fits(s)
    ensures var data, off := before + Preamble(s) + after, |before|;
            && data[off..off + 3] == HEADER_MAGIC
            && U32(data, off + 8) == |s.index| && U32(data, off + 12) == |s.store|
  {
    var data := before + Preamble(s) + after;
    assert data == before + HEADER_MAGIC + (s.reserved + PutU32(|s.index|) + PutU32(|s.store|) + after);
    var b1 := before + HEADER_MAGIC + s.reserved;
    U32OfPut(|s.index|, b1, PutU32(|s.store|) + after);
    assert data == b1 + PutU32(|s.index|) + (PutU32(|s.store|) + after);
    var b2 := b1 + PutU32(|s.index|);
    U32OfPut(|s.store|, b2, after);
    assert data == b2 + PutU32(|s.store|) + after;
  }

  lemma RegroupSection(s: Section, before: Bytes, after: Bytes)
    requires Fits(s)
    ensures var data := before + SectionBytes(s) + after;
            && data == before + Preamble(s) + (IndexBytes(s.index) + s.store + after)
            && data == (before + Preamble(s)) + IndexBytes(s.index) + (s.store + after)
            && data == (before + Preamble(s) + IndexBytes(s.index)) + s.store + after
  {
  }

  /** A section that was laid out is parsed back: its table, its store, its size, wherever it stands. */
  lemma SectionReads(s: Section, before: Bytes, after: Bytes)
    requires Fits(s)
    ensures ParseSection(before + SectionBytes(s) + after, |before|)
         == Ok(Parsed(Table(s.index), s.store, |SectionBytes(s)|))
  {
    RegroupSection(s, before, after);
    PreambleReads(s, before, IndexBytes(s.index) + s.store + after);
    IndexReads(s.index, before + Preamble(s), s.store + after);
    MiddleOf(before + Preamble(s) + IndexBytes(s.index), s.store, after);
  }

  // ---------------------------------------------------------------------------------------------------------------
  // Packages
  // ---------------------------------------------------------------------------------------------------------------

  datatype Package = Package(name: Bytes, epoch: Option<Uint32>, version: Bytes, release: Bytes, arch: Bytes,
                             source: bool)

  /** The store holds a text at an offset, which ends with a NUL or with the store. */
  predicate HoldsText(store: Bytes, offset: int, text: Bytes) {
    && 0 !in text
    && 0 <= offset && offset + |text| <= |store|
    && store[offset..offset + |text|] == text && (offset + |text| < |store| ==> store[offset + |text|] == 0)
  }

  predicate HoldsNumber(store: Bytes, offset: int, n: Uint32) {
    0 <= offset && offset + 4 <= |store| && store[offset..offset + 4] == PutU32(n)
  }

  /** The record that counts for its tag is the last one. */
  ghost predicate IsLast(xs: seq<Index>, i: int) {
    0 <= i < |xs| && forall j :: i < j < |xs| ==> xs[j].tag != xs[i].tag
  }

  /** A record of a text (type 6) that starts within the store. */
  ghost predicate RecordsText(s: Section, tag: Uint32, i: int) {
    IsLast(s.index, i) && s.index[i].tag == tag && s.index[i].typ == 6 && s.index[i].offset < |s.store|
  }

  ghost predicate HasText(s: Section, tag: Uint32, text: Bytes) {
    if exists i :: RecordsText(s, tag, i)
    then exists i :: RecordsText(s, tag, i) && HoldsText(s.store, s.index[i].offset, text)
    else text == []
  }

  ghost predicate HasTag(s: Section, tag: Uint32) {
    exists x :: x in s.index && x.tag == tag
  }

  /** A record of a 32-bit number (type 4) within the store. */
  ghost predicate RecordsNumber(s: Section, tag: Uint32, i: int) {
    IsLast(s.index, i) && s.index[i].tag == tag && s.index[i].typ == 4 && s.index[i].offset + 4 <= |s.store|
  }

  ghost predicate HasNumber(s: Section, tag: Uint32, n: Option<Uint32>) {
    if exists i :: RecordsNumber(s, tag, i)
    then n.Some? && exists i :: RecordsNumber(s, tag, i) && HoldsNumber(s.store, s.index[i].offset, n.value)
    else n.None?
  }

  /** The section describes the package, among whatever else it holds and in whatever order. The numbers are the tags
      of LSB Core Generic 5.0, section 25.2. */
  ghost predicate Describes(s: Section, p: Package) {
    && HasText(s, 1000, p.name) && HasText(s, 1001, p.version)
    && HasText(s, 1002, p.release) && HasText(s, 1022, p.arch)
    && HasNumber(s, 1003, p.epoch)
    && (p.source <==> !HasTag(s, 1044))
  }

  function HeaderOf(p: Package): Header {
    Header(p.name, if p.epoch.Some? then FormatNat(p.epoch.value) else "", p.version, p.release, p.arch, p.source)
  }

  lemma {:induction false} TableOf(xs: seq<Index>, i: int)
    requires IsLast(xs, i)
    ensures xs[i].tag in Table(xs) && Table(xs)[xs[i].tag] == Entry(xs[i].typ, xs[i].offset)
    decreases |xs|
  {
    var n := |xs| - 1;
    if i < n {
      assert xs[..n][i] == xs[i];
      TableOf(xs[..n], i);
    }
  }

  lemma {:induction false} TableHas(xs: seq<Index>, tag: Uint32) returns (i: int)
    requires tag in Table(xs)
    ensures IsLast(xs, i) && xs[i].tag == tag
    decreases |xs|
  {
    var n := |xs| - 1;
    if xs[n].tag == tag {
      i := n;
    } else {
      i := TableHas(xs[..n], tag);
    }
  }

  lemma {:induction false} HasLast(xs: seq<Index>, x: Index) returns (i: int)
    requires x in xs
    ensures IsLast(xs, i) && xs[i].tag == x.tag
    decreases |xs|
  {
    var n := |xs| - 1;
    if xs[n].tag == x.tag {
      i := n;
    } else {
      assert xs == xs[..n] + [xs[n]];
      i := HasLast(xs[..n], x);
    }
  }

  lemma {:induction false} UpToNulOf(s: Bytes)
    ensures HoldsText(s, 0, UpToNul(s))
  {
    if s != [] && s[0] != 0 {
      UpToNulOf(s[1..]);
      assert s == [s[0]] + s[1..];
      var text := UpToNul(s[1..]);
      assert s[..1 + |text|] == [s[0]] + s[1..][..|text|];
    }
  }

  lemma NoNulWithin(store: Bytes, offset: int, text: Bytes)
    requires HoldsText(store, offset, text)
    ensures forall k :: offset <= k < offset + |text| ==> store[k] != 0
  {
    forall k | offset <= k < offset + |text|
      ensures store[k] != 0
    {
      assert store[k] == text[k - offset];
    }
  }

  lemma TextsAgree(store: Bytes, offset: int, a: Bytes, b: Bytes)
    requires HoldsText(store, offset, a) && HoldsText(store, offset, b)
    ensures a == b
  {
    forall k | 0 <= k < |a| && k < |b|
      ensures a[k] == b[k]
    {
      assert store[offset..offset + |a|][k] == store[offset + k] == store[offset..offset + |b|][k];
    }
    NoNulWithin(store, offset, a);
    NoNulWithin(store, offset, b);
  }

  /** The text a field is read as: what the last record for the tag points to, up to a NUL or the end of the store, and
      nothing when that record is of another type or points behind the store. */
  lemma ReadsText(s: Section, size: int, tag: Uint32, text: Bytes)
    requires HasText(s, tag, text)
    ensures ReadString(Parsed(Table(s.index), s.store, size), tag) == text
  {
    if exists i :: RecordsText(s, tag, i) {
      var i :| RecordsText(s, tag, i) && HoldsText(s.store, s.index[i].offset, text);
      TableOf(s.index, i);
      TextBehind(s.store, s.index[i].offset, text);
    } else if tag in Table(s.index) {
      var i := TableHas(s.index, tag);
      TableOf(s.index, i);
      assert !RecordsText(s, tag, i);
    }
  }

  lemma TextBehind(store: Bytes, offset: int, text: Bytes)
    requires 0 <= offset < |store| && HoldsText(store, offset, text)
    ensures UpToNul(store[offset..]) == text
  {
    UpToNulOf(store[offset..]);
    assert store[offset..][0..|text|] == store[offset..offset + |text|];
    TextsAgree(store[offset..], 0, UpToNul(store[offset..]), text);
  }

  lemma ReadsEpoch(s: Section, size: int, p: Package)
    requires Describes(s, p)
    ensures ReadEpoch(Parsed(Table(s.index), s.store, size)) == HeaderOf(p).epoch
  {
    if exists i :: RecordsNumber(s, 1003, i) {
      var i :| RecordsNumber(s, 1003, i) && HoldsNumber(s.store, s.index[i].offset, p.epoch.value);
      TableOf(s.index, i);
      SameBytesSameNumber(s.store, s.index[i].offset, PutU32(p.epoch.value));
      PutThenU32(p.epoch.value);
    } else if TAG_EPOCH in Table(s.index) {
      var i := TableHas(s.index, TAG_EPOCH);
      TableOf(s.index, i);
      assert !RecordsNumber(s, 1003, i);
    }
  }

  lemma ReadsFields(s: Section, size: int, p: Package)
    requires Describes(s, p)
    ensures Fields(Parsed(Table(s.index), s.store, size)) == HeaderOf(p)
  {
    ReadsText(s, size, TAG_NAME, p.name);
    ReadsText(s, size, TAG_VERSION, p.version);
    ReadsText(s, size, TAG_RELEASE, p.release);
    ReadsText(s, size, TAG_ARCH, p.arch);
    ReadsEpoch(s, size, p);
    if TAG_SOURCE_RPM in Table(s.index) {
      var i := TableHas(s.index, TAG_SOURCE_RPM);
      assert s.index[i] in s.index;
    } else if HasTag(s, TAG_SOURCE_RPM) {
      var x :| x in s.index && x.tag == TAG_SOURCE_RPM;
      var i := HasLast(s.index, x);
      TableOf(s.index, i);
    }
  }

  /** Every section describes exactly one package, so that the results below speak of every section. */
  lemma EverySectionDescribes(s: Section) returns (p: Package)
    ensures Describes(s, p) && forall q :: Describes(s, q) ==> HeaderOf(q) == HeaderOf(p)
  {
    var parsed := Parsed(Table(s.index), s.store, 0);
    var epoch: Option<Uint32> := None;
    if i :| RecordsNumber(s, 1003, i) {
      var at := s.index[i].offset;
      epoch := Some(U32(s.store, at));
      NumberIsHeld(s.store, at);
    }
    p := Package(ReadString(parsed, 1000), epoch, ReadString(parsed, 1001), ReadString(parsed, 1002),
                 ReadString(parsed, 1022), !HasTag(s, 1044));
    ReadStringIsHeld(s, 1000);
    ReadStringIsHeld(s, 1001);
    ReadStringIsHeld(s, 1002);
    ReadStringIsHeld(s, 1022);
    forall q | Describes(s, q)
      ensures HeaderOf(q) == HeaderOf(p)
    {
      ReadsFields(s, 0, q);
      ReadsFields(s, 0, p);
    }
  }

  lemma ReadStringIsHeld(s: Section, tag: Uint32)
    ensures HasText(s, tag, ReadString(Parsed(Table(s.index), s.store, 0), tag))
  {
    if i :| RecordsText(s, tag, i) {
      TableOf(s.index, i);
      var at := s.index[i].offset;
      var text := UpToNul(s.store[at..]);
      UpToNulOf(s.store[at..]);
      assert s.store[at..][0..|text|] == s.store[at..at + |text|];
      assert HoldsText(s.store, s.index[i].offset, text);
    } else if tag in Table(s.index) {
      var i := TableHas(s.index, tag);
      TableOf(s.index, i);
      assert !RecordsText(s, tag, i);
    }
  }

  lemma NumberIsHeld(store: Bytes, at: int)
    requires 0 <= at && at + 4 <= |store|
    ensures HoldsNumber(store, at, U32(store, at))
  {
    DigitsOfBytes(store[at], store[at + 1], store[at + 2], store[at + 3]);
  }

  lemma DigitsOfBytes(a: Byte, b: Byte, c: Byte, d: Byte)
    ensures var n := a as int * 0x100_0000 + b as int * 0x1_0000 + c as int * 0x100 + d as int;
            n / 0x100_0000 == a && n / 0x1_0000 % 0x100 == b && n / 0x100 % 0x100 == c && n % 0x100 == d
  {
    var n := a as int * 0x100_0000 + b as int * 0x1_0000 + c as int * 0x100 + d as int;
    LastDigit(n);
    assert n / 0x100 == a as int * 0x1_0000 + b as int * 0x100 + c as int;
    assert n / 0x1_0000 == a as int * 0x100 + b as int;
  }

  /** Reading a laid-out file gives exactly the fields of the package its main section describes, whatever the lead,
      the signature section, the padding bytes and the payload hold; only an empty field makes the header
      incomplete. */
  lemma ReadHeaderOfFile(lead: Bytes, sig: Section, pad: Bytes, main: Section, payload: Bytes, p: Package)
    requires IsLead(lead) && Fits(sig) && Fits(main) && Describes(main, p)
    requires |pad| == (8 - |SectionBytes(sig)| % 8) % 8
    ensures ReadHeader(FileBytes(lead, sig, pad, main, payload))
         == if p.name != [] && p.version != [] && p.release != [] && p.arch != [] then Ok(HeaderOf(p))
            else Err(Incomplete)
  {
    SignatureReads(lead, sig, pad, main, payload);
    MainReads(lead, sig, pad, main, payload);
    ReadsFields(main, |SectionBytes(main)|, p);
    TwoSectionsRead(FileBytes(lead, sig, pad, main, payload), ParsedOf(sig), ParsedOf(main));
  }

  /** Whatever the data, a header that is returned has all four fields. */
  lemma ReturnedHeadersAreComplete(data: Bytes)
    ensures var r := ReadHeader(data);
            r.Ok? ==> r.value.name != [] && r.value.version != [] && r.value.release != [] && r.value.arch != []
  {
  }

  /** A file cut short anywhere before the end of its main section is refused, and the place decides the error. */
  lemma CutFileIsRefused(lead: Bytes, sig: Section, pad: Bytes, main: Section, n: nat)
    requires IsLead(lead) && Fits(sig) && Fits(main) && |pad| == (8 - |SectionBytes(sig)| % 8) % 8
    requires n < |FileBytes(lead, sig, pad, main, [])|
    ensures ReadHeader(FileBytes(lead, sig, pad, main, [])[..n])
         == Err(if n < 96 then NotRpm
                else if n < 96 + 16 then BadMagic
                else if n < 96 + |SectionBytes(sig)| then Truncated
                else if n < |lead + SectionBytes(sig) + pad| + 16 then BadMagic
                else Truncated)
  {
    if n >= 96 {
      SignatureCut(lead, sig, pad, main, n);
      LengthBeforeMain(lead, SectionBytes(sig), pad);
      assert FileBytes(lead, sig, pad, main, []) == (lead + SectionBytes(sig) + pad) + SectionBytes(main) + [];
      SectionCut(main, lead + SectionBytes(sig) + pad, [], n);
    }
  }

  lemma SignatureCut(lead: Bytes, sig: Section, pad: Bytes, main: Section, n: nat)
    requires IsLead(lead) && Fits(sig) && Fits(main) && 96 <= n < |FileBytes(lead, sig, pad, main, [])|
    ensures var data := FileBytes(lead, sig, pad, main, [])[..n];
            && data[..4] == LEAD_MAGIC
            && ParseSection(data, 96) == if n < 96 + 16 then Err(BadMagic)
                                         else if n < 96 + |SectionBytes(sig)| then Err(Truncated)
                                         else Ok(ParsedOf(sig))
  {
    var data := FileBytes(lead, sig, pad, main, []);
    RegroupFile(lead, sig, pad, main, []);
    SectionCut(sig, lead, pad + SectionBytes(main) + [], n);
    assert data[..n][..4] == data[..4];
  }

  /** Of any other data: what does not start as an RPM file is no RPM file, what does not start as a section has a bad
      magic, and a section whose lengths lead behind the end of the data is truncated. */
  lemma RefusalsOf(data: Bytes, off: nat)
    ensures ReadHeader(data) == Err(NotRpm) <==> |data| < 96 || data[..4] != [0xed, 0xab, 0xee, 0xdb]
    ensures ParseSection(data, off) == Err(BadMagic) <==>
              |data| < off + 16 || data[off..off + 3] != [0x8e, 0xad, 0xe8]
    ensures ParseSection(data, off) == Err(Truncated) <==>
              && |data| >= off + 16 && data[off..off + 3] == [0x8e, 0xad, 0xe8]
              && off + 16 + 16 * U32(data, off + 8) + U32(data, off + 12) > |data|
  {
  }

  lemma SectionCut(s: Section, before: Bytes, after: Bytes, n: nat)
    requires Fits(s) && n <= |before + SectionBytes(s) + after|
    ensures ParseSection((before + SectionBytes(s) + after)[..n], |before|)
         == if n < |before| + 16 then Err(BadMagic)
            else if n < |before| + |SectionBytes(s)| then Err(Truncated)
            else Ok(ParsedOf(s))
  {
    var data := before + SectionBytes(s) + after;
    if n >= |before| + |SectionBytes(s)| {
      assert data[..n] == before + SectionBytes(s) + after[..n - |before| - |SectionBytes(s)|];
      SectionReads(s, before, after[..n - |before| - |SectionBytes(s)|]);
    } else if n >= |before| + 16 {
      RegroupSection(s, before, after);
      var rest := (IndexBytes(s.index) + s.store + after)[..n - |before| - 16];
      assert data[..n] == before + Preamble(s) + rest;
      PreambleReads(s, before, rest);
    }
  }

  function ParsedOf(s: Section): Parsed
    requires Fits(s)
  {
    Parsed(Table(s.index), s.store, |SectionBytes(s)|)
  }

  lemma SignatureReads(lead: Bytes, sig: Section, pad: Bytes, main: Section, payload: Bytes)
    requires IsLead(lead) && Fits(sig) && Fits(main)
    ensures var data := FileBytes(lead, sig, pad, main, payload);
            && |data| >= LEAD_SIZE && data[..4] == LEAD_MAGIC
            && ParseSection(data, LEAD_SIZE) == Ok(ParsedOf(sig))
  {
    RegroupFile(lead, sig, pad, main, payload);
    SectionReads(sig, lead, pad + SectionBytes(main) + payload);
  }

  lemma MainReads(lead: Bytes, sig: Section, pad: Bytes, main: Section, payload: Bytes)
    requires IsLead(lead) && Fits(sig) && Fits(main) && |pad| == (8 - |SectionBytes(sig)| % 8) % 8
    ensures ParseSection(FileBytes(lead, sig, pad, main, payload), MainOffset(|SectionBytes(sig)|))
              == Ok(ParsedOf(main))
  {
    var before := lead + SectionBytes(sig) + pad;
    assert FileBytes(lead, sig, pad, main, payload) == before + SectionBytes(main) + payload;
    LengthBeforeMain(lead, SectionBytes(sig), pad);
    SectionReads(main, before, payload);
  }

  lemma LengthBeforeMain(lead: Bytes, sig: Bytes, pad: Bytes)
    requires |lead| == LEAD_SIZE && |pad| == (8 - |sig| % 8) % 8
    ensures |lead + sig + pad| == MainOffset(|sig|)
  {
  }

  lemma TwoSectionsRead(data: Bytes, sig: Parsed, main: Parsed)
    requires |data| >= LEAD_SIZE && data[..4] == LEAD_MAGIC && sig.size >= 0
    requires ParseSection(data, LEAD_SIZE) == Ok(sig)
    requires ParseSection(data, MainOffset(sig.size)) == Ok(main)
    ensures ReadHeader(data) == if IsComplete(Fields(main)) then Ok(Fields(main)) else Err(Incomplete)
  {
  }

  lemma RegroupFile(lead: Bytes, sig: Section, pad: Bytes, main: Section, payload: Bytes)
    requires IsLead(lead) && Fits(sig) && Fits(main)
    ensures var data := FileBytes(lead, sig, pad, main, payload);
            && |data| >= LEAD_SIZE && data[..4] == LEAD_MAGIC
            && data == lead + SectionBytes(sig) + (pad + SectionBytes(main) + payload)
            && data == (lead + SectionBytes(sig) + pad) + SectionBytes(main) + payload
  {
    var data := FileBytes(lead, sig, pad, main, payload);
    assert data[..4] == lead[..4];
  }
}
