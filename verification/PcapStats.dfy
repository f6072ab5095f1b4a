/**
 Counting ECN codepoints in a pcap file. Reading is proved to invert a pcap writer in either
 byte order, and to survive a file that ends anywhere: what is counted is the complete records.
 */
module PcapStats {
  import opened Words
  import opened Bytes

  const TYPE_IPV4: nat := 0x0800
  const LINK_ETHERNET: nat := 1
  const GLOBAL_HEADER: nat := 24
  const RECORD_HEADER: nat := 16

  predicate IsTag(etherType: nat) { etherType == 0x8100 || etherType == 0x88A8 || etherType == 0x9100 }

  // ---------- one frame ----------

  /** Exactly `n` tags, then IPv4, and its ToS byte. */
  ghost predicate Tagged(frame: seq<u8>, n: nat) {
    && |frame| >= 14 + 4 * n + 2
    && (forall i: nat :: i < n ==> IsTag(Be16(frame, 12 + 4 * i)))
    && Be16(frame, 12 + 4 * n) == TYPE_IPV4
  }

  ghost predicate IsIpv4(frame: seq<u8>) { exists n: nat :: Tagged(frame, n) }

  /** The low two bits of the ToS byte of an IPv4 frame. */
  ghost function Ecn(frame: seq<u8>): Option<nat> {
    if IsIpv4(frame) then var n: nat :| Tagged(frame, n); Some(frame[14 + 4 * n + 1] % 4) else None
  }

  lemma EcnIs(frame: seq<u8>, n: nat)
    requires Tagged(frame, n)
    ensures Ecn(frame) == Some(frame[14 + 4 * n + 1] % 4)
  {
    assert IsIpv4(frame);
    var m: nat :| Tagged(frame, m) && Ecn(frame) == Some(frame[14 + 4 * m + 1] % 4);
    assert m == n;
  }

  lemma NotIpv4(frame: seq<u8>, n: nat)
    requires |frame| >= 14 + 4 * n
    requires forall i: nat :: i < n ==> IsTag(Be16(frame, 12 + 4 * i))
    requires Be16(frame, 12 + 4 * n) != TYPE_IPV4 || |frame| < 14 + 4 * n + 2
    requires IsTag(Be16(frame, 12 + 4 * n)) ==> |frame| < 14 + 4 * n + 4
    ensures Ecn(frame) == None
  {
    forall m: nat ensures !Tagged(frame, m) {
    }
  }

  method EcnOfFrame(frame: seq<u8>) returns (r: Option<nat>)
    ensures r == Ecn(frame)
  {
    if |frame| < 14 {
      assert forall m: nat :: !Tagged(frame, m);
      return None;
    }
    var etherType := Be16(frame, 12);
    var offset := 14;
    ghost var n := 0;
    while IsTag(etherType)
      invariant offset == 14 + 4 * n <= |frame| && etherType == Be16(frame, 12 + 4 * n)
      invariant forall i: nat :: i < n ==> IsTag(Be16(frame, 12 + 4 * i))
      decreases |frame| - offset
    {
      if |frame| < offset + 4 {
        NotIpv4(frame, n);
        return None;
      }
      etherType := Be16(frame, offset + 2);
      offset := offset + 4;
      n := n + 1;
    }
    if etherType != TYPE_IPV4 || |frame| < offset + 2 {
      NotIpv4(frame, n);
      return None;
    }
    EcnIs(frame, n);
    return Some(frame[offset + 1] % 4);
  }

  // ---------- the counts ----------

  datatype Counts = Counts(packets: nat, ipv4: nat, notEct: nat, ect0: nat, ect1: nat, ce: nat, truncated: nat)

  const ZERO := Counts(0, 0, 0, 0, 0, 0, 0)

  function AddPacket(c: Counts, ecn: Option<nat>): Counts {
    var d := c.(packets := c.packets + 1);
    match ecn
    case None => d
    case Some(e) =>
      var f := d.(ipv4 := d.ipv4 + 1);
      if e == 0 then f.(notEct := f.notEct + 1)
      else if e == 2 then f.(ect0 := f.ect0 + 1)
      else if e == 1 then f.(ect1 := f.ect1 + 1)
      else f.(ce := f.ce + 1)
  }

  function Cut(c: Counts, short: bool): Counts { if short then c.(truncated := c.truncated + 1) else c }

  function U32(b: seq<u8>, i: nat, big: bool): u32
    requires i + 4 <= |b|
  {
    if big then Be32(b, i) else Le32(b, i)
  }

  /** A complete record at the front. */
  predicate HasRecord(b: seq<u8>, big: bool) { |b| >= RECORD_HEADER && |b| - RECORD_HEADER >= U32(b, 8, big) }

  function FrameOf(b: seq<u8>, big: bool): seq<u8>
    requires HasRecord(b, big)
  {
    b[RECORD_HEADER..RECORD_HEADER + U32(b, 8, big)]
  }

  function Behind(b: seq<u8>, big: bool): (r: seq<u8>)
    requires HasRecord(b, big)
    ensures |r| < |b|
  {
    b[RECORD_HEADER + U32(b, 8, big)..]
  }

  /** The counts of the remaining bytes, record after record. */
  ghost function Scan(b: seq<u8>, big: bool, c: Counts): Counts
    decreases |b|
  {
    if HasRecord(b, big) then Scan(Behind(b, big), big, AddPacket(c, Ecn(FrameOf(b, big)))) else Cut(c, |b| > 0)
  }

  datatype Result<T> = Ok(value: T) | TooShort | NotPcap | WrongLinkType(linkType: u32)

  /** The byte order of one of the four magics. */
  function Endian(magic: seq<u8>): Option<bool> {
    if magic == [0xD4, 0xC3, 0xB2, 0xA1] || magic == [0x4D, 0x3C, 0xB2, 0xA1] then Some(false)
    else if magic == [0xA1, 0xB2, 0xC3, 0xD4] || magic == [0xA1, 0xB2, 0x3C, 0x4D] then Some(true)
    else None
  }

  ghost function Read(b: seq<u8>): Result<Counts> {
    if |b| < GLOBAL_HEADER then TooShort
    else
      match Endian(b[..4])
      case None => NotPcap
      case Some(big) =>
        if U32(b, 20, big) != LINK_ETHERNET then WrongLinkType(U32(b, 20, big))
        else Ok(Scan(b[GLOBAL_HEADER..], big, ZERO))
  }

  class File {
    const data: seq<u8>
    var pos: nat

    ghost predicate Valid()
      reads this
    {
      pos <= |data|
    }

    ghost function Rest(): seq<u8>
      requires Valid()
      reads this
    {
      data[pos..]
    }

    constructor (data: seq<u8>)
      ensures Valid() && Rest() == data
    {
      this.data := data;
      pos := 0;
    }

    /** Up to `n` bytes: fewer only at the end of the file. */
    method ReadBytes(n: nat) returns (r: seq<u8>)
      requires Valid()
      modifies this
      ensures Valid() && |r| == Min(n, |old(Rest())|)
      ensures r == old(Rest())[..|r|] && Rest() == old(Rest())[|r|..]
    {
      var k := Min(n, |data| - pos);
      r := data[pos..pos + k];
      pos := pos + k;
    }
  }

  /** The next frame, or none and whether the file ends inside a record. */
  method ReadRecord(f: File, big: bool) returns (frame: Option<seq<u8>>, short: bool)
    requires f.Valid()
    modifies f
    ensures f.Valid() && (frame.Some? <==> HasRecord(old(f.Rest()), big))
    ensures frame.Some? ==> frame.value == FrameOf(old(f.Rest()), big) && f.Rest() == Behind(old(f.Rest()), big)
    ensures frame.None? ==> short == (|old(f.Rest())| > 0)
  {
    ghost var b := f.Rest();
    var record := f.ReadBytes(RECORD_HEADER);
    if |record| < RECORD_HEADER {
      return None, |record| > 0;
    }
    var caplen := U32(record, 8, big);
    assert caplen == U32(b, 8, big);
    var bytes := f.ReadBytes(caplen);
    if |bytes| < caplen {
      return None, true;
    }
    return Some(bytes), false;
  }

  method ReadRecords(f: File, big: bool) returns (counts: Counts)
    requires f.Valid()
    modifies f
    ensures counts == Scan(old(f.Rest()), big, ZERO)
  {
    counts := ZERO;
    ghost var all := f.Rest();
    while true
      invariant f.Valid() && Scan(f.Rest(), big, counts) == Scan(all, big, ZERO)
      decreases |f.Rest()|
    {
      var frame, short := ReadRecord(f, big);
      if frame.None? {
        counts := if short then counts.(truncated := counts.truncated + 1) else counts;
        break;
      }
      var ecn := EcnOfFrame(frame.value);
      counts := AddPacket(counts, ecn);
    }
  }

  method ReadPcap(f: File) returns (r: Result<Counts>)
    requires f.Valid()
    modifies f
    ensures r == Read(old(f.Rest()))
  {
    var header := f.ReadBytes(GLOBAL_HEADER);
    if |header| < GLOBAL_HEADER {
      return TooShort;
    }
    assert header[..4] == old(f.Rest())[..4];
    var endian := Endian(header[..4]);
    if endian.None? {
      return NotPcap;
    }
    var linkType := U32(header, 20, endian.value);
    assert linkType == U32(old(f.Rest()), 20, endian.value);
    if linkType != LINK_ETHERNET {
      return WrongLinkType(linkType);
    }
    var counts := ReadRecords(f, endian.value);
    return Ok(counts);
  }

  // ---------- laws for any file ----------

  ghost predicate AddsUp(c: Counts) { c.ipv4 == c.notEct + c.ect0 + c.ect1 + c.ce && c.ipv4 <= c.packets }

  lemma {:induction false} ScanAddsUp(b: seq<u8>, big: bool, c: Counts)
    requires AddsUp(c)
    ensures AddsUp(Scan(b, big, c)) && c.truncated <= Scan(b, big, c).truncated <= c.truncated + 1
    decreases |b|
  {
    if HasRecord(b, big) { ScanAddsUp(Behind(b, big), big, AddPacket(c, Ecn(FrameOf(b, big)))); }
  }

  /** Whatever the bytes: IPv4 is the sum of the four codepoints, at most all packets, and at most one cut. */
  lemma ReadAddsUp(b: seq<u8>)
    requires Read(b).Ok?
    ensures AddsUp(Read(b).value) && Read(b).value.truncated <= 1
  {
    ScanAddsUp(b[GLOBAL_HEADER..], Endian(b[..4]).value, ZERO);
  }

  ghost predicate NoLess(c: Counts, d: Counts) {
    c.packets <= d.packets && c.ipv4 <= d.ipv4 && c.notEct <= d.notEct && c.ect0 <= d.ect0 && c.ect1 <= d.ect1 &&
      c.ce <= d.ce
  }

  lemma {:induction false} ScanGrows(b: seq<u8>, big: bool, c: Counts)
    ensures NoLess(c, Scan(b, big, c))
    decreases |b|
  {
    if HasRecord(b, big) { ScanGrows(Behind(b, big), big, AddPacket(c, Ecn(FrameOf(b, big)))); }
  }

  lemma RecordOfPrefix(b: seq<u8>, k: nat, big: bool)
    requires k <= |b| && HasRecord(b[..k], big)
    ensures HasRecord(b, big) && FrameOf(b[..k], big) == FrameOf(b, big)
    ensures var n := |b| - |Behind(b, big)|; n <= k && Behind(b[..k], big) == Behind(b, big)[..k - n]
  {
    assert U32(b[..k], 8, big) == U32(b, 8, big);
  }

  /** A file still being appended to: reading it later never counts less. */
  lemma {:induction false} LaterCountsMore(b: seq<u8>, k: nat, big: bool, c: Counts)
    requires k <= |b|
    ensures NoLess(Scan(b[..k], big, c), Scan(b, big, c))
    decreases |b|
  {
    if HasRecord(b[..k], big) {
      RecordOfPrefix(b, k, big);
      LaterCountsMore(Behind(b, big), k - (|b| - |Behind(b, big)|), big, AddPacket(c, Ecn(FrameOf(b, big))));
    } else {
      ScanGrows(b, big, c);
    }
  }

  // ---------- a writer, and cutting its output ----------

  datatype Record = Record(times: seq<u8>, original: seq<u8>, frame: seq<u8>)

  predicate ValidRecord(r: Record) { |r.times| == 8 && |r.original| == 4 && |r.frame| < TWO_32 }

  ghost predicate ValidRecords(rs: seq<Record>) { forall i :: 0 <= i < |rs| ==> ValidRecord(rs[i]) }

  function Put(x: u32, big: bool): (r: seq<u8>)
    ensures |r| == 4 && U32(r, 0, big) == x
  { if big then Put32(x) else PutLe32(x) }

  function Size(r: Record): nat { RECORD_HEADER + |r.frame| }

  function PutRecord(r: Record, big: bool): (b: seq<u8>)
    requires ValidRecord(r)
    ensures |b| == Size(r)
  {
    r.times + Put(|r.frame|, big) + r.original + r.frame
  }

  ghost function Body(rs: seq<Record>, big: bool): seq<u8>
    requires ValidRecords(rs)
  {
    if |rs| == 0 then [] else PutRecord(rs[0], big) + Body(rs[1..], big)
  }

  function Magic(big: bool, nano: bool): (m: seq<u8>)
    ensures |m| == 4 && Endian(m) == Some(big)
  {
    if big then (if nano then [0xA1, 0xB2, 0x3C, 0x4D] else [0xA1, 0xB2, 0xC3, 0xD4])
    else (if nano then [0x4D, 0x3C, 0xB2, 0xA1] else [0xD4, 0xC3, 0xB2, 0xA1])
  }

  function Header(big: bool, nano: bool, middle: seq<u8>): (h: seq<u8>)
    requires |middle| == 16
    ensures |h| == GLOBAL_HEADER
  {
    Magic(big, nano) + middle + Put(LINK_ETHERNET, big)
  }

  ghost function Write(big: bool, nano: bool, middle: seq<u8>, rs: seq<Record>): seq<u8>
    requires |middle| == 16 && ValidRecords(rs)
  {
    Header(big, nano, middle) + Body(rs, big)
  }

  /** Bytes of the first `k` records. */
  function Boundary(rs: seq<Record>, k: nat): nat
    requires k <= |rs|
  {
    if k == 0 then 0 else Size(rs[0]) + Boundary(rs[1..], k - 1)
  }

  /** How many records are complete after `n` bytes: the last boundary not beyond them. */
  function Complete(rs: seq<Record>, n: nat): (k: nat)
    ensures k <= |rs| && Boundary(rs, k) <= n && (k < |rs| ==> n < Boundary(rs, k + 1))
  {
    if |rs| == 0 || n < Size(rs[0]) then 0 else 1 + Complete(rs[1..], n - Size(rs[0]))
  }

  ghost function Tally(rs: seq<Record>, c: Counts): Counts {
    if |rs| == 0 then c else Tally(rs[1..], AddPacket(c, Ecn(rs[0].frame)))
  }

  lemma RecordFields(r: Record, big: bool, b: seq<u8>)
    requires ValidRecord(r) && PutRecord(r, big) <= b
    ensures U32(b, 8, big) == |r.frame| && b[RECORD_HEADER..Size(r)] == r.frame
  {
    var p := PutRecord(r, big);
    assert b[..Size(r)] == p;
    assert p[8..12] == Put(|r.frame|, big);
    assert b[8] == p[8..12][0] && b[9] == p[8..12][1] && b[10] == p[8..12][2] && b[11] == p[8..12][3];
    assert p[RECORD_HEADER..] == r.frame;
  }

  /** A record cut short is not counted, and is noticed. */
  lemma CutRecord(r: Record, big: bool, b: seq<u8>, c: Counts)
    requires ValidRecord(r) && b <= PutRecord(r, big) && |b| < Size(r)
    ensures Scan(b, big, c) == Cut(c, |b| > 0)
  {
    if |b| >= RECORD_HEADER {
      var p := PutRecord(r, big);
      RecordFields(r, big, p);
      assert forall i :: 8 <= i < 12 ==> b[i] == p[i];
    }
  }

  /** A complete record is counted, and the scan goes on behind it. */
  lemma ScanRecord(r: Record, big: bool, b: seq<u8>, c: Counts)
    requires ValidRecord(r) && PutRecord(r, big) <= b
    ensures Scan(b, big, c) == Scan(b[Size(r)..], big, AddPacket(c, Ecn(r.frame)))
  {
    RecordFields(r, big, b);
  }

  lemma CutParts(header: seq<u8>, body: seq<u8>, cut: nat)
    requires |header| <= cut <= |header| + |body|
    ensures var b := (header + body)[..cut]; header <= b && b[|header|..] == body[..cut - |header|]
  {
  }

  lemma CutEarly(header: seq<u8>, body: seq<u8>, cut: nat)
    requires cut <= |header|
    ensures (header + body)[..cut] == header[..cut]
  {
  }

  /** What is counted of `rs` when only `n` bytes are left. */
  ghost function CutTally(rs: seq<Record>, n: nat, c: Counts): Counts {
    Cut(Tally(rs[..Complete(rs, n)], c), n != Boundary(rs, Complete(rs, n)))
  }

  lemma CutTallyFirst(rs: seq<Record>, n: nat, c: Counts)
    requires |rs| > 0
    ensures n < Size(rs[0]) ==> CutTally(rs, n, c) == Cut(c, n > 0)
    ensures n >= Size(rs[0]) ==>
            CutTally(rs, n, c) == CutTally(rs[1..], n - Size(rs[0]), AddPacket(c, Ecn(rs[0].frame)))
  {
    if n < Size(rs[0]) {
      assert rs[..0] == [];
    } else {
      TallyFirst(rs, Complete(rs[1..], n - Size(rs[0])), c);
    }
  }

  lemma {:induction false} CutBody(rs: seq<Record>, big: bool, n: nat, c: Counts)
    requires ValidRecords(rs) && n <= |Body(rs, big)|
    ensures Scan(Body(rs, big)[..n], big, c) == CutTally(rs, n, c)
  {
    if |rs| == 0 {
      assert Body(rs, big)[..n] == [];
    } else {
      CutTallyFirst(rs, n, c);
      CutFirst(rs[0], Body(rs[1..], big), big, n, c);
      if n >= Size(rs[0]) { CutBody(rs[1..], big, n - Size(rs[0]), AddPacket(c, Ecn(rs[0].frame))); }
    }
  }

  lemma CutFirst(r: Record, rest: seq<u8>, big: bool, n: nat, c: Counts)
    requires ValidRecord(r) && n <= Size(r) + |rest|
    ensures Scan((PutRecord(r, big) + rest)[..n], big, c) ==
      if n < Size(r) then Cut(c, n > 0) else Scan(rest[..n - Size(r)], big, AddPacket(c, Ecn(r.frame)))
  {
    var b := (PutRecord(r, big) + rest)[..n];
    if n < Size(r) {
      CutEarly(PutRecord(r, big), rest, n);
      CutRecord(r, big, b, c);
    } else {
      CutParts(PutRecord(r, big), rest, n);
      ScanRecord(r, big, b, c);
    }
  }

  lemma TallyFirst(rs: seq<Record>, k: nat, c: Counts)
    requires k < |rs|
    ensures Tally(rs[..k + 1], c) == Tally(rs[1..][..k], AddPacket(c, Ecn(rs[0].frame)))
  {
    assert rs[..k + 1][0] == rs[0] && rs[..k + 1][1..] == rs[1..][..k];
  }

  ghost predicate Opened(b: seq<u8>, big: bool) {
    |b| >= GLOBAL_HEADER && Endian(b[..4]) == Some(big) && U32(b, 20, big) == LINK_ETHERNET
  }

  lemma HeaderOpens(big: bool, nano: bool, middle: seq<u8>)
    requires |middle| == 16
    ensures Opened(Header(big, nano, middle), big)
  {
    var h := Header(big, nano, middle);
    assert h[..4] == Magic(big, nano);
    assert h[20..24] == Put(LINK_ETHERNET, big);
    assert h[20] == h[20..24][0] && h[21] == h[20..24][1] && h[22] == h[20..24][2] && h[23] == h[20..24][3];
  }

  lemma StaysOpened(h: seq<u8>, b: seq<u8>, big: bool)
    requires Opened(h, big) && h <= b
    ensures Opened(b, big)
  {
    assert b[..4] == h[..4];
  }

  lemma ReadOpened(h: seq<u8>, body: seq<u8>, cut: nat, big: bool)
    requires |h| == GLOBAL_HEADER <= cut <= |h| + |body| && Opened(h, big)
    ensures Read((h + body)[..cut]) == Ok(Scan(body[..cut - GLOBAL_HEADER], big, ZERO))
  {
    CutParts(h, body, cut);
    StaysOpened(h, (h + body)[..cut], big);
  }

  /**
   Reading inverts writing, cut anywhere: too short to be a capture before byte 24, and from
   there on exactly the complete records are counted, with `truncated` set exactly off a boundary.
   */
  lemma ReadCut(big: bool, nano: bool, middle: seq<u8>, rs: seq<Record>, cut: nat)
    requires |middle| == 16 && ValidRecords(rs) && cut <= |Write(big, nano, middle, rs)|
    ensures var b := Write(big, nano, middle, rs)[..cut];
      Read(b) == if cut < GLOBAL_HEADER then TooShort else Ok(CutTally(rs, cut - GLOBAL_HEADER, ZERO))
  {
    if cut >= GLOBAL_HEADER {
      HeaderOpens(big, nano, middle);
      ReadOpened(Header(big, nano, middle), Body(rs, big), cut, big);
      CutBody(rs, big, cut - GLOBAL_HEADER, ZERO);
    }
  }

  /** Off a boundary the cut shows as one, on a boundary as none; the complete records are never hidden. */
  lemma TruncatedIff(rs: seq<Record>, n: nat)
    ensures var k := Complete(rs, n); var c := CutTally(rs, n, ZERO);
      && (c.truncated == 1 <==> n != Boundary(rs, k)) && (c.truncated == 0 <==> n == Boundary(rs, k))
      && c.packets == k
  {
    TallyWhole(rs[..Complete(rs, n)], ZERO);
  }

  lemma {:induction false} TallyWhole(rs: seq<Record>, c: Counts)
    ensures Tally(rs, c).truncated == c.truncated && Tally(rs, c).packets == c.packets + |rs|
  {
    if |rs| > 0 { TallyWhole(rs[1..], AddPacket(c, Ecn(rs[0].frame))); }
  }

  // ---------- the counts, told from the records ----------

  /** Two bytes of the frame. */
  predicate TypeIs(frame: seq<u8>, i: nat, hi: u8, lo: u8) { i + 2 <= |frame| && frame[i] == hi && frame[i + 1] == lo }

  predicate TagBytes(frame: seq<u8>, i: nat) {
    TypeIs(frame, i, 0x81, 0x00) || TypeIs(frame, i, 0x88, 0xA8) || TypeIs(frame, i, 0x91, 0x00)
  }

  /** Byte by byte: behind the two addresses `n` tags of the three kinds, then IPv4 and two more bytes. */
  lemma TaggedIs(frame: seq<u8>, n: nat)
    ensures Tagged(frame, n) <==>
            |frame| >= 16 + 4 * n && TypeIs(frame, 12 + 4 * n, 0x08, 0x00) &&
            forall i: nat :: i < n ==> TagBytes(frame, 12 + 4 * i)
  {
    if |frame| >= 16 + 4 * n {
      Word(frame, 12 + 4 * n, 0x08, 0x00);
      forall i: nat | i < n ensures IsTag(Be16(frame, 12 + 4 * i)) <==> TagBytes(frame, 12 + 4 * i) {
        Word(frame, 12 + 4 * i, 0x81, 0x00);
        Word(frame, 12 + 4 * i, 0x88, 0xA8);
        Word(frame, 12 + 4 * i, 0x91, 0x00);
      }
    }
  }

  /** An IPv4 frame whose ToS byte has these low two bits. */
  ghost predicate HasCodepoint(frame: seq<u8>, codepoint: nat) {
    exists n: nat :: Tagged(frame, n) && frame[15 + 4 * n] % 4 == codepoint
  }

  ghost function Ipv4Records(rs: seq<Record>): nat {
    if |rs| == 0 then 0 else (if IsIpv4(rs[0].frame) then 1 else 0) + Ipv4Records(rs[1..])
  }

  ghost function Marked(rs: seq<Record>, codepoint: nat): nat {
    if |rs| == 0 then 0 else (if HasCodepoint(rs[0].frame, codepoint) then 1 else 0) + Marked(rs[1..], codepoint)
  }

  lemma EcnMeans(frame: seq<u8>)
    ensures Ecn(frame).Some? <==> IsIpv4(frame)
    ensures forall c: nat :: HasCodepoint(frame, c) <==> Ecn(frame) == Some(c)
    ensures Ecn(frame).Some? ==> Ecn(frame).value < 4
  {
    if IsIpv4(frame) {
      var n: nat :| Tagged(frame, n);
      EcnIs(frame, n);
      forall c: nat | HasCodepoint(frame, c) ensures Ecn(frame) == Some(c) {
        var m: nat :| Tagged(frame, m) && frame[15 + 4 * m] % 4 == c;
        EcnIs(frame, m);
      }
    }
  }

  lemma {:induction false} TallyCounts(rs: seq<Record>, c: Counts)
    ensures var d := Tally(rs, c);
      && d.packets == c.packets + |rs| && d.ipv4 == c.ipv4 + Ipv4Records(rs)
      && d.notEct == c.notEct + Marked(rs, 0) && d.ect1 == c.ect1 + Marked(rs, 1)
      && d.ect0 == c.ect0 + Marked(rs, 2) && d.ce == c.ce + Marked(rs, 3)
  {
    if |rs| > 0 {
      EcnMeans(rs[0].frame);
      TallyCounts(rs[1..], AddPacket(c, Ecn(rs[0].frame)));
    }
  }

  lemma CutCounts(rs: seq<Record>, n: nat)
    ensures var k := Complete(rs, n);
      CutTally(rs, n, ZERO) ==
      Counts(k, Ipv4Records(rs[..k]), Marked(rs[..k], 0), Marked(rs[..k], 2), Marked(rs[..k], 1), Marked(rs[..k], 3),
             if n == Boundary(rs, k) then 0 else 1)
  {
    TallyCounts(rs[..Complete(rs, n)], ZERO);
    TruncatedIff(rs, n);
  }

  /**
   Of a written file, cut anywhere behind its header, the counts are those of the complete records:
   how many there are, how many carry IPv4, and how many of these have each of the four codepoints.
   */
  lemma ReadCounts(big: bool, nano: bool, middle: seq<u8>, rs: seq<Record>, cut: nat)
    requires |middle| == 16 && ValidRecords(rs) && GLOBAL_HEADER <= cut <= |Write(big, nano, middle, rs)|
    ensures var k := Complete(rs, cut - GLOBAL_HEADER);
      Read(Write(big, nano, middle, rs)[..cut]) ==
      Ok(Counts(k, Ipv4Records(rs[..k]), Marked(rs[..k], 0), Marked(rs[..k], 2), Marked(rs[..k], 1), Marked(rs[..k], 3),
                if cut - GLOBAL_HEADER == Boundary(rs, k) then 0 else 1))
  {
    ReadCut(big, nano, middle, rs, cut);
    CutCounts(rs, cut - GLOBAL_HEADER);
  }

  /** What is refused, and why: fewer than 24 bytes, none of the four magics, or another link type. */
  lemma Refusals(b: seq<u8>)
    ensures Read(b).TooShort? <==> |b| < 24
    ensures Read(b).NotPcap? <==>
            |b| >= 24 && b[..4] != [0xD4, 0xC3, 0xB2, 0xA1] && b[..4] != [0xA1, 0xB2, 0xC3, 0xD4] &&
            b[..4] != [0x4D, 0x3C, 0xB2, 0xA1] && b[..4] != [0xA1, 0xB2, 0x3C, 0x4D]
    ensures Read(b).WrongLinkType? ==> Read(b).linkType != 1
  {
  }

  // ---------- a frame encoder ----------

  datatype Tag = Tag(etherType: u16, tci: u16)

  function PutTags(tags: seq<Tag>): (r: seq<u8>)
    ensures |r| == 4 * |tags|
  {
    if |tags| == 0 then []
    else
      var t := tags[|tags| - 1];
      PutTags(tags[..|tags| - 1]) + Put16(t.etherType) + Put16(t.tci)
  }

  /** Two addresses, any VLAN tags, IPv4, the version byte, the ToS byte and the rest. */
  function PutFrame(macs: seq<u8>, tags: seq<Tag>, version: u8, tos: u8, rest: seq<u8>): seq<u8> {
    macs + PutTags(tags) + Put16(TYPE_IPV4) + [version, tos] + rest
  }

  lemma {:induction false} TagAt(tags: seq<Tag>, i: nat)
    requires i < |tags|
    ensures Be16(PutTags(tags), 4 * i) == tags[i].etherType
  {
    var n := |tags| - 1;
    var front := PutTags(tags[..n]);
    if i < n {
      TagAt(tags[..n], i);
      SliceWords(PutTags(tags), 4 * i, front, 4 * i);
    } else {
      SliceWords(PutTags(tags), 4 * i, Put16(tags[i].etherType), 0);
    }
  }

  /** The codepoint of such a frame is the low two bits of its ToS byte, behind any number of tags. */
  lemma FrameCodepoint(macs: seq<u8>, tags: seq<Tag>, version: u8, tos: u8, rest: seq<u8>)
    requires |macs| == 12 && forall i :: 0 <= i < |tags| ==> IsTag(tags[i].etherType)
    ensures Ecn(PutFrame(macs, tags, version, tos, rest)) == Some(tos % 4)
  {
    var f, n := PutFrame(macs, tags, version, tos, rest), |tags|;
    forall i: nat | i < n ensures IsTag(Be16(f, 12 + 4 * i)) {
      TagAt(tags, i);
      SliceWords(f, 12 + 4 * i, PutTags(tags), 4 * i);
    }
    SliceWords(f, 12 + 4 * n, Put16(TYPE_IPV4), 0);
    assert f[15 + 4 * n] == tos;
    EcnIs(f, n);
  }
}
