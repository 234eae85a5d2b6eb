/**
 * The stored (uncompressed) ZIP writer, and an independent reader that follows PKWARE's APPNOTE from
 * the end record through the central directory to each local header.
 */
module Zip {
  import opened ByteStrings
  import opened Options

  // ---- Writer ----

  /**
   * One planned file: its encoded name, the size and DOS time stamps noted when planning, and what
   * reading it gives now (`None` when it cannot be read).
   */
  datatype Entry = Entry(name: Bytes, size: nat, dosTime: nat, dosDate: nat, content: Option<Bytes>)

  function U16(n: nat): (b: Bytes)
    ensures |b| == 2
  {
    [n % 0x100, n / 0x100 % 0x100]
  }

  function U32(n: nat): (b: Bytes)
    ensures |b| == 4
  {
    U16(n) + U16(n / 0x1_0000)
  }

  const LOCAL_MARK: Bytes := [0x50, 0x4b, 0x03, 0x04]
  const CENTRAL_MARK: Bytes := [0x50, 0x4b, 0x01, 0x02]
  const END_MARK: Bytes := [0x50, 0x4b, 0x05, 0x06]

  function Zeros(n: nat): (b: Bytes)
    ensures |b| == n
  {
    seq(n, _ => 0)
  }

  /** The bytes written for a file: what was read, cut or zero-filled to the planned size. */
  function Data(e: Entry): (b: Bytes)
    ensures |b| == e.size
    ensures forall k :: 0 <= k < e.size ==>
              b[k] == if e.content.Some? && k < |e.content.value| then e.content.value[k] else 0
  {
    match e.content
    case None => Zeros(e.size)
    case Some(read) => if |read| >= e.size then read[..e.size] else read + Zeros(e.size - |read|)
  }

  function LocalHeader(e: Entry, crc: nat): (b: Bytes)
    ensures |b| == 30 + |e.name|
  {
    LOCAL_MARK + U16(20) + U16(0x0800) + U16(0) + U16(e.dosTime) + U16(e.dosDate) + U32(crc) +
    U32(e.size) + U32(e.size) + U16(|e.name|) + U16(0) + e.name
  }

  function CentralHeader(e: Entry, crc: nat, offset: nat): (b: Bytes)
    ensures |b| == 46 + |e.name|
  {
    CENTRAL_MARK + U16(20) + U16(20) + U16(0x0800) + U16(0) + U16(e.dosTime) + U16(e.dosDate) + U32(crc) +
    U32(e.size) + U32(e.size) + U16(|e.name|) + U16(0) + U16(0) + U16(0) + U16(0) + U32(0) + U32(offset) + e.name
  }

  function EndRecord(count: nat, centralSize: nat, offset: nat): (b: Bytes)
    ensures |b| == 22
  {
    END_MARK + U16(0) + U16(0) + U16(count) + U16(count) + U32(centralSize) + U32(offset) + U16(0)
  }

  function Body(e: Entry, crc: Bytes -> nat): Bytes { LocalHeader(e, crc(Data(e))) + Data(e) }

  function Flatten(parts: seq<Bytes>): Bytes {
    if parts == [] then [] else Flatten(parts[..|parts| - 1]) + parts[|parts| - 1]
  }

  function BodyList(es: seq<Entry>, crc: Bytes -> nat): (parts: seq<Bytes>)
    ensures |parts| == |es|
  {
    seq(|es|, i requires 0 <= i < |es| => Body(es[i], crc))
  }

  function Bodies(es: seq<Entry>, crc: Bytes -> nat): Bytes { Flatten(BodyList(es, crc)) }

  /** The directory record of file `i`, which points at the body behind the `i` bodies before it. */
  function Central(es: seq<Entry>, i: nat, crc: Bytes -> nat): Bytes
    requires i < |es|
  {
    CentralHeader(es[i], crc(Data(es[i])), |Bodies(es[..i], crc)|)
  }

  function CentralList(es: seq<Entry>, crc: Bytes -> nat): (parts: seq<Bytes>)
    ensures |parts| == |es|
  {
    seq(|es|, i requires 0 <= i < |es| => Central(es, i, crc))
  }

  function Centrals(es: seq<Entry>, crc: Bytes -> nat): Bytes { Flatten(CentralList(es, crc)) }

  function Archive(es: seq<Entry>, crc: Bytes -> nat): Bytes {
    Bodies(es, crc) + Centrals(es, crc) +
    EndRecord(|es|, |Centrals(es, crc)|, |Bodies(es, crc)|)
  }

  /** `archiveSize`: the length announced before a byte is produced. */
  function ArchiveSize(es: seq<Entry>): nat {
    if es == [] then 22 else
    var e := es[|es| - 1];
    ArchiveSize(es[..|es| - 1]) + 30 + |e.name| + e.size + 46 + |e.name|
  }

  lemma ListsGrow(es: seq<Entry>, i: nat, crc: Bytes -> nat)
    requires i < |es|
    ensures BodyList(es[..i + 1], crc) == BodyList(es[..i], crc) + [Body(es[i], crc)]
    ensures CentralList(es[..i + 1], crc) == CentralList(es[..i], crc) + [Central(es, i, crc)]
  {
    forall k | 0 <= k <= i
      ensures Central(es[..i + 1], k, crc) == Central(es, k, crc)
      ensures k < i ==> Central(es[..i], k, crc) == Central(es, k, crc)
    {
      assert es[..i + 1][..k] == es[..k];
      if k < i { assert es[..i][..k] == es[..k]; }
    }
  }

  method ZipStream(es: seq<Entry>, crc: Bytes -> nat) returns (out: Bytes)
    ensures out == Archive(es, crc)
  {
    out := [];
    var central: Bytes := [];
    var offset := 0;
    for i := 0 to |es|
      invariant out == Bodies(es[..i], crc) && offset == |out|
      invariant central == Centrals(es[..i], crc)
    {
      ListsGrow(es, i, crc);
      var e := es[i];
      var data := if e.content.Some? then e.content.value else Zeros(e.size);
      if |data| != e.size {
        var kept := if |data| >= e.size then data[..e.size] else data;
        data := kept + Zeros(e.size - |kept|);
      }
      assert data == Data(e);
      var head := LocalHeader(e, crc(data));
      central := central + CentralHeader(e, crc(data), offset);
      out := out + (head + data);
      offset := offset + |head| + |data|;
    }
    assert es[..|es|] == es;
    out := out + central + EndRecord(|es|, |central|, offset);
  }

  lemma {:induction false} PartSizes(es: seq<Entry>, crc: Bytes -> nat)
    ensures |Bodies(es, crc)| + |Centrals(es, crc)| + 22 == ArchiveSize(es)
  {
    if es != [] {
      var n := |es| - 1;
      PartSizes(es[..n], crc);
      ListsGrow(es, n, crc);
      assert es[..n + 1] == es;
    }
  }

  /** The stream is exactly as long as announced, whatever the files on disk have become. */
  lemma StreamLengthAsAnnounced(es: seq<Entry>, crc: Bytes -> nat)
    ensures |Archive(es, crc)| == ArchiveSize(es)
  {
    PartSizes(es, crc);
  }

  // ---- Reader ----

  datatype Stored = Stored(name: Bytes, data: Bytes, time: nat, date: nat)

  /** What the headers say about a file: both headers of it have to say the same. */
  datatype Facts = Facts(name: Bytes, size: nat, time: nat, date: nat, crc: nat)

  /** The flags of a file stored as it is, with its name in UTF-8 and its sizes in front of the data. */
  const NAME_IN_UTF8: nat := 0x0800

  /** The lowest version a reader needs for that. */
  const VERSION: nat := 20

  function Read16(b: Bytes, p: nat): nat
    requires p + 2 <= |b|
  {
    b[p] as int + 0x100 * b[p + 1] as int
  }

  function Read32(b: Bytes, p: nat): nat
    requires p + 4 <= |b|
  {
    Read16(b, p) + 0x1_0000 * Read16(b, p + 2)
  }

  /** A header that begins a stored file's facts at `p`: version, flags, method, then time and date. */
  predicate StoredAt(b: Bytes, p: nat, time: nat, date: nat)
    requires p + 10 <= |b|
  {
    && Read16(b, p) == VERSION && Read16(b, p + 2) == NAME_IN_UTF8 && Read16(b, p + 4) == 0
    && Read16(b, p + 6) == time && Read16(b, p + 8) == date
  }

  /** A stored file behind its local header at `p`: the header agrees with the directory, the CRC with the data. */
  function ReadLocal(b: Bytes, p: nat, f: Facts, crc: Bytes -> nat): Option<Stored> {
    if p + 30 > |b| || !At(b, p, LOCAL_MARK) || !StoredAt(b, p + 4, f.time, f.date) then None else
    var n, extra := Read16(b, p + 26), Read16(b, p + 28);
    var start := p + 30 + n + extra;
    if start + f.size > |b| || b[p + 30..p + 30 + n] != f.name then None else
    if Read32(b, p + 18) != f.size || Read32(b, p + 22) != f.size then None else
    var data := b[start..start + f.size];
    if Read32(b, p + 14) != f.crc || crc(data) % 0x1_0000_0000 != f.crc then None
    else Some(Stored(f.name, data, f.time, f.date))
  }

  datatype Record = Record(facts: Facts, offset: nat, next: nat)

  /** The directory record at `p`: a stored file's facts, its local offset on the one disk, and the record's end. */
  function ReadRecord(b: Bytes, p: nat, end: nat): Option<Record>
    requires end <= |b|
  {
    if p + 46 > end || !At(b, p, CENTRAL_MARK) || Read16(b, p + 34) != 0 then None else
    if !StoredAt(b, p + 6, Read16(b, p + 12), Read16(b, p + 14)) then None else
    var n := Read16(b, p + 28);
    if p + 46 + n > end || Read32(b, p + 20) != Read32(b, p + 24) then None
    else Some(Record(Facts(b[p + 46..p + 46 + n], Read32(b, p + 24), Read16(b, p + 12), Read16(b, p + 14),
                           Read32(b, p + 16)),
                     Read32(b, p + 42), p + 46 + n + Read16(b, p + 30) + Read16(b, p + 32)))
  }

  /**
   * Following `count` directory records from `p`, up to exactly `end`: `records` reads the record at a
   * position and `open` the file that a record points at.
   */
  function Walk(records: nat -> Option<Record>, open: Record -> Option<Stored>, p: nat, end: nat, count: nat)
    : Option<seq<Stored>>
    decreases count
  {
    if count == 0 then (if p == end then Some([]) else None) else
    match records(p)
    case None => None
    case Some(r) =>
      var rest := Walk(records, open, r.next, end, count - 1);
      if open(r).None? || rest.None? then None else Some([open(r).value] + rest.value)
  }

  function RecordsOf(b: Bytes, end: nat): nat -> Option<Record>
    requires end <= |b|
  {
    (p: nat) => ReadRecord(b, p, end)
  }

  function FilesOf(b: Bytes, crc: Bytes -> nat): Record -> Option<Stored> {
    (r: Record) => ReadLocal(b, r.offset, r.facts, crc)
  }

  /** An archive without a comment: its end record is the last 22 bytes. */
  function ReadArchive(b: Bytes, crc: Bytes -> nat): Option<seq<Stored>> {
    if |b| < 22 || !At(b, |b| - 22, END_MARK) || Read16(b, |b| - 2) != 0 then None else
    var e := |b| - 22;
    if Read16(b, e + 4) != 0 || Read16(b, e + 6) != 0 then None else
    var count, size, offset := Read16(b, e + 10), Read32(b, e + 12), Read32(b, e + 16);
    if Read16(b, e + 8) != count || offset + size != e then None
    else Walk(RecordsOf(b, e), FilesOf(b, crc), offset, e, count)
  }

  function File(e: Entry): Stored { Stored(e.name, Data(e), e.dosTime, e.dosDate) }

  function Planned(es: seq<Entry>): seq<Stored> {
    if es == [] then [] else [File(es[0])] + Planned(es[1..])
  }

  // ---- What the reader finds in what the writer wrote ----

  lemma ReadU16(b: Bytes, p: nat, n: nat)
    requires At(b, p, U16(n))
    ensures Read16(b, p) == n % 0x1_0000
  {
    assert b[p] == b[p..p + 2][0] && b[p + 1] == b[p..p + 2][1];
    assert n % 0x1_0000 == n % 0x100 + 0x100 * (n / 0x100 % 0x100);
  }

  lemma ReadU32(b: Bytes, p: nat, n: nat)
    requires At(b, p, U32(n))
    ensures Read32(b, p) == n % 0x1_0000_0000
  {
    AtSplit(b, p, U16(n), U16(n / 0x1_0000));
    ReadU16(b, p, n);
    ReadU16(b, p + 2, n / 0x1_0000);
    TwoHalves(n);
  }

  lemma TwoHalves(n: nat)
    ensures n % 0x1_0000_0000 == n % 0x1_0000 + 0x1_0000 * (n / 0x1_0000 % 0x1_0000)
  {}

  function FactsOf(file: Stored, crc: Bytes -> nat): Facts {
    Facts(file.name, |file.data|, file.time, file.date, crc(file.data) % 0x1_0000_0000)
  }

  /** A local header with these facts (APPNOTE section 4.3.7). */
  ghost predicate IsLocal(h: Bytes, f: Facts) {
    && |h| == 30 + |f.name| && At(h, 0, [0x50, 0x4b, 0x03, 0x04]) && At(h, 30, f.name) && StoredAt(h, 4, f.time, f.date)
    && Read32(h, 14) == f.crc && Read32(h, 18) == f.size && Read32(h, 22) == f.size
    && Read16(h, 26) == |f.name| && Read16(h, 28) == 0
  }

  /** A central directory record with these facts, which points at `offset` (APPNOTE section 4.3.12). */
  ghost predicate IsCentral(h: Bytes, f: Facts, offset: nat) {
    && |h| == 46 + |f.name| && At(h, 0, [0x50, 0x4b, 0x01, 0x02]) && At(h, 46, f.name) && StoredAt(h, 6, f.time, f.date)
    && Read32(h, 16) == f.crc && Read32(h, 20) == f.size && Read32(h, 24) == f.size
    && Read16(h, 28) == |f.name| && Read16(h, 30) == 0 && Read16(h, 32) == 0 && Read16(h, 34) == 0
    && Read32(h, 42) == offset
  }

  /** What a reader looks at in the end record (APPNOTE section 4.3.16). */
  ghost predicate IsEnd(r: Bytes, count: nat, size: nat, offset: nat) {
    && |r| == 22 && At(r, 0, [0x50, 0x4b, 0x05, 0x06]) && Read16(r, 4) == 0 && Read16(r, 6) == 0
    && Read16(r, 8) == count && Read16(r, 10) == count && Read32(r, 12) == size
    && Read32(r, 16) == offset && Read16(r, 20) == 0
  }

  /** A field of a header: what was written with `U16` or `U32` behind `before` reads as written. */
  lemma Field16(before: Bytes, n: nat, after: Bytes)
    requires n <= 0xffff
    ensures Read16(before + U16(n) + after, |before|) == n
  {
    assert At(before + U16(n) + after, |before|, U16(n));
    ReadU16(before + U16(n) + after, |before|, n);
  }

  lemma Field32(before: Bytes, n: nat, after: Bytes)
    ensures Read32(before + U32(n) + after, |before|) == n % 0x1_0000_0000
  {
    assert At(before + U32(n) + after, |before|, U32(n));
    ReadU32(before + U32(n) + after, |before|, n);
  }

  /** The five fields from the version on, wherever they stand. */
  lemma StoredFields(before: Bytes, time: nat, date: nat, after: Bytes)
    requires time <= 0xffff && date <= 0xffff
    ensures
      var h := before + U16(20) + U16(0x0800) + U16(0) + U16(time) + U16(date) + after;
      StoredAt(h, |before|, time, date)
  {
    var h := before + U16(20) + U16(0x0800) + U16(0) + U16(time) + U16(date) + after;
    var n := |before|;
    Field16(before, 20, h[n + 2..]);
    assert h == before + U16(20) + h[n + 2..];
    Field16(before + U16(20), 0x0800, h[n + 4..]);
    assert h == before + U16(20) + U16(0x0800) + h[n + 4..];
    Field16(before + U16(20) + U16(0x0800), 0, h[n + 6..]);
    assert h == before + U16(20) + U16(0x0800) + U16(0) + h[n + 6..];
    Field16(before + U16(20) + U16(0x0800) + U16(0), time, h[n + 8..]);
    assert h == before + U16(20) + U16(0x0800) + U16(0) + U16(time) + h[n + 8..];
    Field16(before + U16(20) + U16(0x0800) + U16(0) + U16(time), date, after);
  }

  /** The CRC and the two sizes behind them. */
  lemma SizeFields(before: Bytes, crc: nat, size: nat, after: Bytes)
    requires size <= 0xffff_ffff
    ensures
      var h, n := before + U32(crc) + U32(size) + U32(size) + after, |before|;
      Read32(h, n) == crc % 0x1_0000_0000 && Read32(h, n + 4) == size && Read32(h, n + 8) == size
  {
    var h, n := before + U32(crc) + U32(size) + U32(size) + after, |before|;
    Field32(before, crc, h[n + 4..]);
    assert h == before + U32(crc) + h[n + 4..];
    Field32(before + U32(crc), size, h[n + 8..]);
    assert h == before + U32(crc) + U32(size) + h[n + 8..];
    Field32(before + U32(crc) + U32(size), size, after);
  }

  lemma LocalFields(e: Entry, crc: nat)
    requires |e.name| <= 0xffff && e.size <= 0xffff_ffff && e.dosTime <= 0xffff && e.dosDate <= 0xffff
    ensures IsLocal(LocalHeader(e, crc), Facts(e.name, e.size, e.dosTime, e.dosDate, crc % 0x1_0000_0000))
  {
    var h := LocalHeader(e, crc);
    var p14 := LOCAL_MARK + U16(20) + U16(0x0800) + U16(0) + U16(e.dosTime) + U16(e.dosDate);
    var p26 := p14 + U32(crc) + U32(e.size) + U32(e.size);
    assert h == p14 + h[14..];
    StoredFields(LOCAL_MARK, e.dosTime, e.dosDate, h[14..]);
    assert h == p26 + h[26..];
    SizeFields(p14, crc, e.size, h[26..]);
    Field16(p26, |e.name|, h[28..]);
    assert h == p26 + U16(|e.name|) + h[28..];
    Field16(p26 + U16(|e.name|), 0, h[30..]);
    assert h == p26 + U16(|e.name|) + U16(0) + h[30..];
  }

  lemma CentralFields(e: Entry, crc: nat, offset: nat)
    requires |e.name| <= 0xffff && e.size <= 0xffff_ffff && e.dosTime <= 0xffff && e.dosDate <= 0xffff &&
             offset <= 0xffff_ffff
    ensures IsCentral(CentralHeader(e, crc, offset), Facts(e.name, e.size, e.dosTime, e.dosDate, crc % 0x1_0000_0000),
                      offset)
    ensures
      var h := CentralHeader(e, crc, offset);
      Read16(h, 4) == 20 && Read16(h, 36) == 0 && Read32(h, 38) == 0
  {
    var h := CentralHeader(e, crc, offset);
    var p6 := CENTRAL_MARK + U16(20);
    var p16 := p6 + U16(20) + U16(0x0800) + U16(0) + U16(e.dosTime) + U16(e.dosDate);
    var p28 := p16 + U32(crc) + U32(e.size) + U32(e.size);
    assert h == CENTRAL_MARK + U16(20) + h[6..];
    Field16(CENTRAL_MARK, 20, h[6..]);
    assert h == p16 + h[16..];
    StoredFields(p6, e.dosTime, e.dosDate, h[16..]);
    assert h == p28 + h[28..];
    SizeFields(p16, crc, e.size, h[28..]);
    CentralTail(h, p28, e.name, offset);
  }

  lemma CentralTail(h: Bytes, p28: Bytes, name: Bytes, offset: nat)
    requires |name| <= 0xffff && offset <= 0xffff_ffff && |p28| == 28
    requires h == p28 + U16(|name|) + U16(0) + U16(0) + U16(0) + U16(0) + U32(0) + U32(offset) + name
    ensures Read16(h, 28) == |name| && Read16(h, 30) == 0 && Read16(h, 32) == 0 && Read16(h, 34) == 0 &&
            Read32(h, 42) == offset
    ensures Read16(h, 36) == 0 && Read32(h, 38) == 0
    ensures At(h, 46, name)
  {
    var p34 := p28 + U16(|name|) + U16(0) + U16(0);
    Field16(p28, |name|, h[30..]);
    assert h == p28 + U16(|name|) + h[30..];
    Field16(p28 + U16(|name|), 0, h[32..]);
    assert h == p28 + U16(|name|) + U16(0) + h[32..];
    Field16(p28 + U16(|name|) + U16(0), 0, h[34..]);
    assert h == p34 + h[34..];
    Field16(p34, 0, h[36..]);
    assert h == p34 + U16(0) + h[36..];
    Field16(p34 + U16(0), 0, h[38..]);
    assert h == p34 + U16(0) + U16(0) + h[38..];
    Field32(p34 + U16(0) + U16(0), 0, h[42..]);
    assert h == p34 + U16(0) + U16(0) + U32(0) + h[42..];
    Field32(p34 + U16(0) + U16(0) + U32(0), offset, name);
  }

  lemma EndFields(count: nat, size: nat, offset: nat)
    requires count <= 0xffff && size <= 0xffff_ffff && offset <= 0xffff_ffff
    ensures IsEnd(EndRecord(count, size, offset), count, size, offset)
  {
    var r := EndRecord(count, size, offset);
    var p8 := END_MARK + U16(0) + U16(0);
    Field16(END_MARK, 0, r[6..]);
    assert r == END_MARK + U16(0) + r[6..];
    Field16(END_MARK + U16(0), 0, r[8..]);
    assert r == END_MARK + U16(0) + U16(0) + r[8..];
    var p12 := p8 + U16(count) + U16(count);
    Field16(p8, count, r[10..]);
    assert r == p8 + U16(count) + r[10..];
    Field16(p8 + U16(count), count, r[12..]);
    assert r == p12 + r[12..];
    Field32(p12, size, r[16..]);
    assert r == p12 + U32(size) + r[16..];
    Field32(p12 + U32(size), offset, r[20..]);
    assert r == p12 + U32(size) + U32(offset) + r[20..];
    Field16(p12 + U32(size) + U32(offset), 0, []);
    assert r == p12 + U32(size) + U32(offset) + U16(0) + [];
  }

  lemma Read16Inside(b: Bytes, p: nat, h: Bytes, k: nat)
    requires At(b, p, h) && k + 2 <= |h|
    ensures Read16(b, p + k) == Read16(h, k)
  {
    assert h[k] == b[p..p + |h|][k] && h[k + 1] == b[p..p + |h|][k + 1];
  }

  lemma Read32Inside(b: Bytes, p: nat, h: Bytes, k: nat)
    requires At(b, p, h) && k + 4 <= |h|
    ensures Read32(b, p + k) == Read32(h, k)
  {
    Read16Inside(b, p, h, k);
    Read16Inside(b, p, h, k + 2);
  }

  lemma StoredInside(b: Bytes, p: nat, h: Bytes, k: nat, time: nat, date: nat)
    requires At(b, p, h) && k + 10 <= |h| && StoredAt(h, k, time, date)
    ensures StoredAt(b, p + k, time, date)
  {
    Read16Inside(b, p, h, k);
    Read16Inside(b, p, h, k + 2);
    Read16Inside(b, p, h, k + 4);
    Read16Inside(b, p, h, k + 6);
    Read16Inside(b, p, h, k + 8);
  }

  /** Any local header with the right fields, in front of the data it describes, reads as that file. */
  lemma LocalIsRead(b: Bytes, p: nat, h: Bytes, file: Stored, crc: Bytes -> nat)
    requires At(b, p, h) && At(b, p + |h|, file.data) && IsLocal(h, FactsOf(file, crc))
    ensures ReadLocal(b, p, FactsOf(file, crc), crc) == Some(file)
  {
    AtInside(b, p, h, 0, LOCAL_MARK);
    AtInside(b, p, h, 30, file.name);
    StoredInside(b, p, h, 4, file.time, file.date);
    Read32Inside(b, p, h, 14);
    Read32Inside(b, p, h, 18);
    Read32Inside(b, p, h, 22);
    Read16Inside(b, p, h, 26);
    Read16Inside(b, p, h, 28);
  }

  lemma CentralInside(b: Bytes, p: nat, h: Bytes, f: Facts, offset: nat)
    requires At(b, p, h) && IsCentral(h, f, offset)
    ensures Read32(b, p + 16) == f.crc && Read32(b, p + 20) == f.size && Read32(b, p + 24) == f.size
    ensures Read16(b, p + 28) == |f.name| && Read16(b, p + 30) == 0 && Read16(b, p + 32) == 0 && Read16(b, p + 34) == 0
    ensures Read32(b, p + 42) == offset
  {
    Read32Inside(b, p, h, 16);
    Read32Inside(b, p, h, 20);
    Read32Inside(b, p, h, 24);
    Read16Inside(b, p, h, 28);
    Read16Inside(b, p, h, 30);
    Read16Inside(b, p, h, 32);
    Read16Inside(b, p, h, 34);
    Read32Inside(b, p, h, 42);
  }

  /** A directory record with the right fields reads as such. */
  lemma RecordIsRead(b: Bytes, p: nat, end: nat, h: Bytes, f: Facts, offset: nat)
    requires At(b, p, h) && IsCentral(h, f, offset) && p + |h| <= end <= |b|
    ensures ReadRecord(b, p, end) == Some(Record(f, offset, p + |h|))
  {
    AtInside(b, p, h, 0, CENTRAL_MARK);
    AtInside(b, p, h, 46, f.name);
    StoredInside(b, p, h, 6, f.time, f.date);
    CentralInside(b, p, h, f, offset);
  }

  /** Every part lies behind the parts in front of it. */
  lemma {:induction false} PartAt(parts: seq<Bytes>, i: nat)
    requires i < |parts|
    ensures At(Flatten(parts), |Flatten(parts[..i])|, parts[i])
    ensures |Flatten(parts[..i + 1])| == |Flatten(parts[..i])| + |parts[i]|
  {
    var n := |parts| - 1;
    assert parts[..i + 1][..i] == parts[..i];
    if i < n {
      PartAt(parts[..n], i);
      assert parts[..n][..i] == parts[..i];
      AtFront(Flatten(parts[..n]), parts[n], |Flatten(parts[..i])|, parts[i]);
    } else {
      AtBack(Flatten(parts[..n]), parts[n]);
    }
  }

  predicate Fits(es: seq<Entry>) {
    && |es| <= 0xffff && ArchiveSize(es) <= 0xffff_ffff
    && forall i :: 0 <= i < |es| ==> |es[i].name| <= 0xffff && es[i].dosTime <= 0xffff && es[i].dosDate <= 0xffff
  }

  lemma {:induction false} SizeBounds(es: seq<Entry>, i: nat)
    requires i < |es|
    ensures es[i].size <= ArchiveSize(es)
  {
    if i < |es| - 1 { SizeBounds(es[..|es| - 1], i); }
  }

  /** A body: a local header that describes the data right behind it. */
  ghost predicate IsBody(body: Bytes, file: Stored, crc: Bytes -> nat) {
    exists h :: body == h + file.data && IsLocal(h, FactsOf(file, crc))
  }

  /** The bodies hold the files. */
  ghost predicate Hold(bodies: seq<Bytes>, files: seq<Stored>, crc: Bytes -> nat) {
    && |bodies| == |files|
    && forall i: nat {:trigger files[i]} :: i < |files| ==> IsBody(bodies[i], files[i], crc)
  }

  /** The directory records name the files and point at their bodies. */
  ghost predicate Point(records: seq<Bytes>, bodies: seq<Bytes>, files: seq<Stored>, crc: Bytes -> nat) {
    && |records| == |bodies| == |files|
    && forall i: nat {:trigger files[i]} :: i < |files| ==>
         IsCentral(records[i], FactsOf(files[i], crc), |Flatten(bodies[..i])|)
  }

  /** An archive seen as its parts: bodies, directory records that point at them, and the end record. */
  ghost predicate IsLayout(bodies: seq<Bytes>, records: seq<Bytes>, end: Bytes, files: seq<Stored>, crc: Bytes -> nat) {
    && IsEnd(end, |files|, |Flatten(records)|, |Flatten(bodies)|)
    && Hold(bodies, files, crc) && Point(records, bodies, files, crc)
  }

  /** What the writer emits is laid out that way. */
  lemma ArchiveLayout(es: seq<Entry>, crc: Bytes -> nat) returns (bodies: seq<Bytes>, records: seq<Bytes>, end: Bytes)
    requires Fits(es)
    ensures Archive(es, crc) == Flatten(bodies) + Flatten(records) + end
    ensures IsLayout(bodies, records, end, Planned(es), crc)
  {
    bodies, records := BodyList(es, crc), CentralList(es, crc);
    end := EndRecord(|es|, |Centrals(es, crc)|, |Bodies(es, crc)|);
    PartSizes(es, crc);
    PlannedIs(es);
    EndFields(|es|, |Centrals(es, crc)|, |Bodies(es, crc)|);
    forall i: nat | i < |es|
      ensures IsBody(bodies[i], Planned(es)[i], crc)
      ensures IsCentral(records[i], FactsOf(File(es[i]), crc), |Flatten(bodies[..i])|)
    {
      SizeBounds(es, i);
      BodyListed(es, i, crc);
      RecordListed(es, i, crc);
    }
  }

  lemma BodyListed(es: seq<Entry>, i: nat, crc: Bytes -> nat)
    requires i < |es| && Fits(es) && es[i].size <= 0xffff_ffff
    ensures IsBody(BodyList(es, crc)[i], File(es[i]), crc)
  {
    LocalFields(es[i], crc(Data(es[i])));
  }

  lemma RecordListed(es: seq<Entry>, i: nat, crc: Bytes -> nat)
    requires i < |es| && Fits(es) && es[i].size <= 0xffff_ffff
    ensures IsCentral(CentralList(es, crc)[i], FactsOf(File(es[i]), crc), |Flatten(BodyList(es, crc)[..i])|)
  {
    var offset := |Flatten(BodyList(es, crc)[..i])|;
    PartAt(BodyList(es, crc), i);
    PartSizes(es, crc);
    ListPrefix(es, i, crc);
    CentralFields(es[i], crc(Data(es[i])), offset);
  }

  lemma ListPrefix(es: seq<Entry>, i: nat, crc: Bytes -> nat)
    requires i <= |es|
    ensures BodyList(es, crc)[..i] == BodyList(es[..i], crc)
  {}

  lemma {:induction false} PlannedIs(es: seq<Entry>)
    ensures |Planned(es)| == |es|
    ensures forall i :: 0 <= i < |es| ==> Planned(es)[i] == File(es[i])
  {
    if es != [] { PlannedIs(es[1..]); }
  }

  /** A part of a string of parts stands behind those before it, and ends within the string. */
  lemma PartStands(b: Bytes, base: nat, parts: seq<Bytes>, i: nat)
    requires At(b, base, Flatten(parts)) && i < |parts|
    ensures At(b, base + |Flatten(parts[..i])|, parts[i])
    ensures |Flatten(parts[..i + 1])| == |Flatten(parts[..i])| + |parts[i]| <= |Flatten(parts)|
  {
    PartAt(parts, i);
    AtInside(b, base, Flatten(parts), |Flatten(parts[..i])|, parts[i]);
  }

  lemma BodyIsRead(b: Bytes, p: nat, body: Bytes, file: Stored, crc: Bytes -> nat)
    requires At(b, p, body) && IsBody(body, file, crc)
    ensures ReadLocal(b, p, FactsOf(file, crc), crc) == Some(file)
  {
    var h :| body == h + file.data && IsLocal(h, FactsOf(file, crc));
    AtSplit(b, p, h, file.data);
    LocalIsRead(b, p, h, file, crc);
  }

  /** `records` finds the records `rs` at the positions `ps`, each leading to the next position. */
  ghost predicate Finds(records: nat -> Option<Record>, ps: seq<nat>, rs: seq<Record>) {
    && |ps| == |rs| + 1
    && forall k: nat {:trigger rs[k]} :: k < |rs| ==> records(ps[k]) == Some(rs[k]) && rs[k].next == ps[k + 1]
  }

  /** `open` finds the files behind the records `rs`. */
  ghost predicate Opens(open: Record -> Option<Stored>, rs: seq<Record>, files: seq<Stored>) {
    && |rs| == |files|
    && forall k: nat {:trigger rs[k]} :: k < |rs| ==> open(rs[k]) == Some(files[k])
  }

  /** A chain of records, each leading to the next and the last to the end, reads as its files. */
  lemma {:induction false} ChainIsRead(records: nat -> Option<Record>, open: Record -> Option<Stored>,
                                       ps: seq<nat>, rs: seq<Record>, files: seq<Stored>, i: nat)
    requires Finds(records, ps, rs) && Opens(open, rs, files) && i <= |files|
    ensures Walk(records, open, ps[i], ps[|files|], |files| - i) == Some(files[i..])
    decreases |files| - i
  {
    if i < |files| {
      ChainIsRead(records, open, ps, rs, files, i + 1);
      assert rs[i].next == ps[i + 1];
      assert files[i..] == [files[i]] + files[i + 1..];
    }
  }

  /** Where each record starts, and at last where the directory ends. */
  function Starts(base: nat, records: seq<Bytes>): (ps: seq<nat>)
    ensures |ps| == |records| + 1
  {
    seq(|records| + 1, k requires 0 <= k <= |records| => base + |Flatten(records[..k])|)
  }

  /** The records as a reader should see them. */
  function Listing(ps: seq<nat>, bodies: seq<Bytes>, files: seq<Stored>, crc: Bytes -> nat): (rs: seq<Record>)
    requires |bodies| == |files| == |ps| - 1
    ensures |rs| == |files|
  {
    seq(|files|, k requires 0 <= k < |files| => Record(FactsOf(files[k], crc), |Flatten(bodies[..k])|, ps[k + 1]))
  }

  /** The parts stand at the positions `ps`, one behind the other up to `end`. */
  ghost predicate Stand(b: Bytes, ps: seq<nat>, parts: seq<Bytes>, end: nat) {
    && |ps| == |parts| + 1 && end <= |b|
    && forall k: nat {:trigger parts[k]} :: k < |parts| ==>
         ps[k] + |parts[k]| == ps[k + 1] <= end && At(b, ps[k], parts[k])
  }

  lemma PartStandsAt(b: Bytes, base: nat, parts: seq<Bytes>, k: nat)
    requires At(b, base, Flatten(parts)) && k < |parts|
    ensures
      var ps := Starts(base, parts);
      ps[k] + |parts[k]| == ps[k + 1] <= base + |Flatten(parts)| && At(b, ps[k], parts[k])
  {
    PartStands(b, base, parts, k);
  }

  lemma PartsStand(b: Bytes, base: nat, parts: seq<Bytes>)
    requires At(b, base, Flatten(parts))
    ensures Stand(b, Starts(base, parts), parts, base + |Flatten(parts)|)
  {
    var ps, end := Starts(base, parts), base + |Flatten(parts)|;
    forall k: nat {:trigger parts[k]} | k < |parts|
      ensures ps[k] + |parts[k]| == ps[k + 1] <= end && At(b, ps[k], parts[k])
    {
      PartStandsAt(b, base, parts, k);
    }
  }

  lemma RecordAt(b: Bytes, p: nat, end: nat, h: Bytes, f: Facts, offset: nat, next: nat)
    requires At(b, p, h) && IsCentral(h, f, offset) && p + |h| == next <= end <= |b|
    ensures RecordsOf(b, end)(p) == Some(Record(f, offset, next))
  {
    RecordIsRead(b, p, end, h, f, offset);
  }

  lemma RecordsAreFound(b: Bytes, ps: seq<nat>, end: nat, bodies: seq<Bytes>, records: seq<Bytes>, files: seq<Stored>,
                        crc: Bytes -> nat)
    requires Point(records, bodies, files, crc) && Stand(b, ps, records, end)
    ensures Finds(RecordsOf(b, end), ps, Listing(ps, bodies, files, crc))
  {
    forall k: nat | k < |files|
      ensures RecordsOf(b, end)(ps[k]) == Some(Listing(ps, bodies, files, crc)[k])
    {
      var file := files[k];
      RecordAt(b, ps[k], end, records[k], FactsOf(file, crc), |Flatten(bodies[..k])|, ps[k + 1]);
    }
  }

  lemma FilesAreOpened(b: Bytes, ps: seq<nat>, bodies: seq<Bytes>, files: seq<Stored>, crc: Bytes -> nat)
    requires Hold(bodies, files, crc) && At(b, 0, Flatten(bodies)) && |ps| == |files| + 1
    ensures Opens(FilesOf(b, crc), Listing(ps, bodies, files, crc), files)
  {
    forall k: nat | k < |files|
      ensures ReadLocal(b, |Flatten(bodies[..k])|, FactsOf(files[k], crc), crc) == Some(files[k])
    {
      PartStands(b, 0, bodies, k);
      BodyIsRead(b, |Flatten(bodies[..k])|, bodies[k], files[k], crc);
    }
  }

  lemma StartsRange(base: nat, records: seq<Bytes>)
    ensures Starts(base, records)[0] == base
    ensures Starts(base, records)[|records|] == base + |Flatten(records)|
  {
    assert records[..0] == [] && records[..|records|] == records;
  }

  lemma WalkIsRead(records: nat -> Option<Record>, open: Record -> Option<Stored>, ps: seq<nat>, rs: seq<Record>,
                   files: seq<Stored>)
    requires Finds(records, ps, rs) && Opens(open, rs, files)
    ensures Walk(records, open, ps[0], ps[|files|], |files|) == Some(files)
  {
    ChainIsRead(records, open, ps, rs, files, 0);
    assert files[0..] == files;
  }

  lemma DirectoryIsLinked(b: Bytes, bodies: seq<Bytes>, records: seq<Bytes>, files: seq<Stored>, crc: Bytes -> nat)
    returns (ps: seq<nat>, rs: seq<Record>)
    requires Hold(bodies, files, crc) && Point(records, bodies, files, crc)
    requires At(b, 0, Flatten(bodies)) && At(b, |Flatten(bodies)|, Flatten(records))
    ensures Finds(RecordsOf(b, |Flatten(bodies)| + |Flatten(records)|), ps, rs) && Opens(FilesOf(b, crc), rs, files)
    ensures ps[0] == |Flatten(bodies)| && ps[|files|] == |Flatten(bodies)| + |Flatten(records)|
  {
    var base := |Flatten(bodies)|;
    ps := Starts(base, records);
    rs := Listing(ps, bodies, files, crc);
    StartsRange(base, records);
    PartsStand(b, base, records);
    RecordsAreFound(b, ps, base + |Flatten(records)|, bodies, records, files, crc);
    FilesAreOpened(b, ps, bodies, files, crc);
  }

  lemma ArchiveParts(a: Bytes, c: Bytes, r: Bytes)
    ensures At(a + c + r, 0, a) && At(a + c + r, |a|, c) && At(a + c + r, |a| + |c|, r)
  {
    AtBack(a + c, r);
    AtFront(a, c, 0, a);
    AtBack(a, c);
    AtFront(a + c, r, 0, a);
    AtFront(a + c, r, |a|, c);
  }

  lemma EndIsRead(b: Bytes, e: nat, r: Bytes, count: nat, size: nat, offset: nat)
    requires At(b, e, r) && IsEnd(r, count, size, offset)
    ensures At(b, e, END_MARK) && Read16(b, e + 4) == Read16(b, e + 6) == 0 && Read16(b, e + 20) == 0
    ensures Read16(b, e + 8) == Read16(b, e + 10) == count
    ensures Read32(b, e + 12) == size && Read32(b, e + 16) == offset
  {
    AtInside(b, e, r, 0, END_MARK);
    Read16Inside(b, e, r, 4);
    Read16Inside(b, e, r, 6);
    Read16Inside(b, e, r, 8);
    Read16Inside(b, e, r, 10);
    Read32Inside(b, e, r, 12);
    Read32Inside(b, e, r, 16);
    Read16Inside(b, e, r, 20);
  }

  lemma FromEndRecord(b: Bytes, e: nat, count: nat, size: nat, offset: nat, files: seq<Stored>, crc: Bytes -> nat)
    requires |b| == e + 22 && e == offset + size
    requires At(b, e, END_MARK) && Read16(b, e + 4) == Read16(b, e + 6) == 0 &&
             Read16(b, e + 8) == Read16(b, e + 10) == count
    requires Read16(b, e + 20) == 0 && Read32(b, e + 12) == size && Read32(b, e + 16) == offset
    requires Walk(RecordsOf(b, e), FilesOf(b, crc), offset, e, count) == Some(files)
    ensures ReadArchive(b, crc) == Some(files)
  {}

  lemma EndLeads(b: Bytes, e: nat, end: Bytes, count: nat, size: nat, offset: nat, files: seq<Stored>,
                 crc: Bytes -> nat)
    requires At(b, e, end) && IsEnd(end, count, size, offset) && |b| == e + 22 && e == offset + size
    requires Walk(RecordsOf(b, e), FilesOf(b, crc), offset, e, count) == Some(files)
    ensures ReadArchive(b, crc) == Some(files)
  {
    EndIsRead(b, e, end, count, size, offset);
    FromEndRecord(b, e, count, size, offset, files, crc);
  }

  /** Any archive laid out that way reads back as its files. */
  lemma LayoutReadsBack(b: Bytes, bodies: seq<Bytes>, records: seq<Bytes>, end: Bytes, files: seq<Stored>,
                        crc: Bytes -> nat)
    requires b == Flatten(bodies) + Flatten(records) + end && IsLayout(bodies, records, end, files, crc)
    ensures ReadArchive(b, crc) == Some(files)
  {
    var base, size := |Flatten(bodies)|, |Flatten(records)|;
    ArchiveParts(Flatten(bodies), Flatten(records), end);
    var ps, rs := DirectoryIsLinked(b, bodies, records, files, crc);
    LinkedReadsBack(b, end, base, size, ps, rs, files, crc);
  }

  lemma LinkedReadsBack(b: Bytes, end: Bytes, base: nat, size: nat, ps: seq<nat>, rs: seq<Record>, files: seq<Stored>,
                        crc: Bytes -> nat)
    requires At(b, base + size, end) && |b| == base + size + 22 && IsEnd(end, |files|, size, base)
    requires Finds(RecordsOf(b, base + size), ps, rs) && Opens(FilesOf(b, crc), rs, files)
    requires ps[0] == base && ps[|files|] == base + size
    ensures ReadArchive(b, crc) == Some(files)
  {
    WalkIsRead(RecordsOf(b, base + size), FilesOf(b, crc), ps, rs, files);
    EndLeads(b, base + size, end, |files|, size, base, files, crc);
  }

  /**
   * Reading the archive back from its end record gives exactly the planned names with the planned
   * amount of data, for any files (within the format's 16-bit names and counts and 32-bit total).
   */
  lemma ArchiveReadsBack(es: seq<Entry>, crc: Bytes -> nat)
    requires Fits(es)
    ensures ReadArchive(Archive(es, crc), crc) == Some(Planned(es))
    ensures |Planned(es)| == |es| && forall i :: 0 <= i < |es| ==>
              Planned(es)[i] == Stored(es[i].name, Data(es[i]), es[i].dosTime, es[i].dosDate)
  {
    PlannedIs(es);
    var bodies, records, end := ArchiveLayout(es, crc);
    LayoutReadsBack(Archive(es, crc), bodies, records, end, Planned(es), crc);
  }

  // ---- DOS time stamps ----

  /** A local calendar time. */
  datatype Moment = Moment(year: int, month: nat, day: nat, hour: nat, minute: nat, second: nat)

  predicate Calendar(m: Moment) {
    1 <= m.month <= 12 && 1 <= m.day <= 31 && m.hour < 24 && m.minute < 60 && m.second < 60
  }

  function DosYear(m: Moment): int { if m.year < 1980 then 1980 else if m.year > 2107 then 2107 else m.year }

  /** The bit fields do not overlap, so shifting and or-ing them is this sum. */
  function DosTime(m: Moment): nat { m.hour * 2048 + m.minute * 32 + m.second / 2 }

  function DosDate(m: Moment): nat { (DosYear(m) - 1980) * 512 + m.month * 32 + m.day }

  /** Both stamps fit their 16 bits and give the fields back: the year clamped, the second to two. */
  lemma DosStampsReadBack(m: Moment)
    requires Calendar(m)
    ensures DosTime(m) < 0x1_0000 && DosDate(m) < 0x1_0000
    ensures DosTime(m) / 2048 == m.hour && DosTime(m) / 32 % 64 == m.minute &&
            DosTime(m) % 32 * 2 == m.second - m.second % 2
    ensures DosDate(m) / 512 + 1980 == if m.year < 1980 then 1980 else if m.year <= 2107 then m.year else 2107
    ensures DosDate(m) / 32 % 16 == m.month && DosDate(m) % 32 == m.day
  {
    Fields(m.hour, m.minute, m.second / 2, 64);
    Fields(DosYear(m) - 1980, m.month, m.day, 16);
  }

  /** Two fields above a five-bit one come apart again. */
  lemma Fields(high: nat, middle: nat, low: nat, base: nat)
    requires (base == 16 || base == 64) && middle < base && low < 32
    ensures
      var n := (high * base + middle) * 32 + low;
      n % 32 == low && n / 32 % base == middle && n / (base * 32) == high
  {
    var n := (high * base + middle) * 32 + low;
    assert n / 32 == high * base + middle && n % 32 == low;
    if base == 16 {
      assert (high * 16 + middle) / 16 == high && (high * 16 + middle) % 16 == middle;
      assert n / 512 == n / 32 / 16;
    } else {
      assert (high * 64 + middle) / 64 == high && (high * 64 + middle) % 64 == middle;
      assert n / 2048 == n / 32 / 64;
    }
  }

  /** The calendar time that a reader takes from the stamps of a file. */
  function MomentOf(f: Stored): Moment {
    Moment(f.date / 512 + 1980, f.date / 32 % 16, f.date % 32, f.time / 2048, f.time / 32 % 64, f.time % 32 * 2)
  }

  /** A file stamped with a time has it in the archive read back: the year clamped, the second to two. */
  lemma TimesReadBack(es: seq<Entry>, crc: Bytes -> nat, i: nat, m: Moment) returns (files: seq<Stored>)
    requires Fits(es) && i < |es| && Calendar(m) && es[i].dosTime == DosTime(m) && es[i].dosDate == DosDate(m)
    ensures |files| == |es| && MomentOf(files[i]) == m.(year := DosYear(m), second := m.second - m.second % 2)
    ensures ReadArchive(Archive(es, crc), crc) == Some(files)
  {
    files := Planned(es);
    ArchiveReadsBack(es, crc);
    PlannedIs(es);
    DosStampsReadBack(m);
  }
}
