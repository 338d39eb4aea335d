/**
 One segment file: length, checksum and payload per frame. Opening scans forward and
 keeps every whole frame with a good checksum; what follows is a torn tail and is cut
 off. Whatever bytes the file holds, the entries are the frames before the cut.
 */
module SegmentRecovery {
  import opened Basics

  const WORD: int := 0x1_0000_0000

  type Word = x: int | 0 <= x < 0x1_0000_0000

  type Checksum = Bytes -> Word

  const HEADER: nat := 8

  /** Little-endian, four bytes. */
  function Encode(w: Word): Bytes {
    [(w % 256) as Byte, (w / 256 % 256) as Byte, (w / 256 / 256 % 256) as Byte, (w / 256 / 256 / 256) as Byte]
  }

  function Decode(b: Bytes): Word
    requires |b| == 4
  {
    b[0] as int + 256 * (b[1] as int + 256 * (b[2] as int + 256 * (b[3] as int)))
  }

  lemma EncodeDecode(w: Word)
    ensures |Encode(w)| == 4 && Decode(Encode(w)) == w
  {
  }

  /** The length field holds the payload's length modulo 2^32. */
  function Frame(crc: Checksum, payload: Bytes): Bytes {
    Encode(|payload| % WORD) + Encode(crc(payload)) + payload
  }

  /** The payload of the first frame, if there is a whole one with a good checksum. */
  function First(crc: Checksum, b: Bytes): Option<Bytes> {
    if |b| < HEADER then None
    else
      var n := Decode(b[..4]);
      if |b| - HEADER < n then None
      else
        var payload := b[HEADER..HEADER + n];
        if crc(payload) != Decode(b[4..HEADER]) then None else Some(payload)
  }

  lemma FirstFits(crc: Checksum, b: Bytes)
    requires First(crc, b).Some?
    ensures HEADER + |First(crc, b).value| <= |b| && |First(crc, b).value| < WORD
  {
  }

  /** Every frame up to the first that is torn or bad. */
  function Parse(crc: Checksum, b: Bytes): seq<Bytes>
    decreases |b|
  {
    var p := First(crc, b);
    if p.None? then []
    else
      FirstFits(crc, b);
      [p.value] + Parse(crc, b[HEADER + |p.value|..])
  }

  function Frames(crc: Checksum, ps: seq<Bytes>): Bytes {
    if ps == [] then [] else Frame(crc, ps[0]) + Frames(crc, ps[1..])
  }

  ghost predicate Short(ps: seq<Bytes>) {
    forall i :: 0 <= i < |ps| ==> |ps[i]| < WORD
  }

  // ---- one frame ----

  lemma FrameShape(crc: Checksum, p: Bytes, rest: Bytes)
    requires |p| < WORD
    ensures var b := Frame(crc, p) + rest;
            && |Frame(crc, p)| == HEADER + |p|
            && b[..4] == Encode(|p|) && b[4..8] == Encode(crc(p)) && b[8..8 + |p|] == p && b[8 + |p|..] == rest
  {
    assert |p| % WORD == |p|;
  }

  /** A frame followed by anything reads back as its payload. */
  lemma FrameReads(crc: Checksum, p: Bytes, rest: Bytes)
    requires |p| < WORD
    ensures First(crc, Frame(crc, p) + rest) == Some(p)
    ensures (Frame(crc, p) + rest)[HEADER + |p|..] == rest && |Frame(crc, p)| == HEADER + |p|
  {
    FrameShape(crc, p, rest);
    EncodeDecode(|p|);
    EncodeDecode(crc(p));
    hide Encode, Decode, Frame;
  }

  /** A proper prefix of a frame is never mistaken for one. */
  lemma TornFrame(crc: Checksum, p: Bytes, t: Bytes)
    requires |p| < WORD && t < Frame(crc, p)
    ensures First(crc, t) == None
  {
    FrameShape(crc, p, []);
    assert Frame(crc, p) + [] == Frame(crc, p);
    EncodeDecode(|p|);
    hide Encode, Decode, Frame;
    if |t| >= HEADER {
      assert t[..4] == Frame(crc, p)[..4];
    }
  }

  /** What reads as a frame is that frame. */
  lemma ReadsFrame(crc: Checksum, b: Bytes)
    requires First(crc, b).Some?
    ensures var p := First(crc, b).value;
            |p| < WORD && |Frame(crc, p)| == HEADER + |p| <= |b| && b[..HEADER + |p|] == Frame(crc, p)
  {
    var p := First(crc, b).value;
    FirstFits(crc, b);
    FrameShape(crc, p, []);
    DecodeEncode(b[..4]);
    DecodeEncode(b[4..8]);
    hide Encode, Decode;
    assert b[..HEADER + |p|] == b[..4] + b[4..8] + b[8..8 + |p|];
    assert |p| % WORD == |p|;
  }

  lemma DivMod(a: int, q: int)
    requires 0 <= a < 256
    ensures (a + 256 * q) % 256 == a && (a + 256 * q) / 256 == q
  {
  }

  lemma DecodeEncode(b: Bytes)
    requires |b| == 4
    ensures Encode(Decode(b)) == b
  {
    var q2 := b[2] as int + 256 * (b[3] as int);
    var q1 := b[1] as int + 256 * q2;
    DivMod(b[0] as int, q1);
    DivMod(b[1] as int, q2);
    DivMod(b[2] as int, b[3] as int);
  }

  // ---- whole files ----

  lemma ParseStep(crc: Checksum, p: Bytes, rest: Bytes)
    requires |p| < WORD
    ensures Parse(crc, Frame(crc, p) + rest) == [p] + Parse(crc, rest)
  {
    FrameReads(crc, p, rest);
    hide First, Frame;
  }

  /** Recovery reads back exactly the frames that were written, and stops at the tail. */
  lemma {:induction false} ParseFrames(crc: Checksum, ps: seq<Bytes>, tail: Bytes)
    requires Short(ps)
    ensures Parse(crc, Frames(crc, ps) + tail) == ps + Parse(crc, tail)
  {
    hide Parse, Frame;
    if ps == [] {
      assert [] + tail == tail;
    } else {
      ParseFrames(crc, ps[1..], tail);
      assert Frames(crc, ps) + tail == Frame(crc, ps[0]) + (Frames(crc, ps[1..]) + tail);
      ParseStep(crc, ps[0], Frames(crc, ps[1..]) + tail);
      assert [ps[0]] + (ps[1..] + Parse(crc, tail)) == ps + Parse(crc, tail);
    }
  }

  /** Any list of payloads, and any torn prefix of one more frame. */
  lemma TornTailIgnored(crc: Checksum, ps: seq<Bytes>, p: Bytes, t: Bytes)
    requires Short(ps) && |p| < WORD && t < Frame(crc, p)
    ensures Parse(crc, Frames(crc, ps) + t) == ps
  {
    ParseFrames(crc, ps, t);
    TornFrame(crc, p, t);
  }

  lemma ParseIs(crc: Checksum, b: Bytes)
    ensures First(crc, b).None? ==> Parse(crc, b) == []
    ensures First(crc, b).Some? ==>
              && HEADER + |First(crc, b).value| <= |b|
              && Parse(crc, b) == [First(crc, b).value] + Parse(crc, b[HEADER + |First(crc, b).value|..])
  {
    if First(crc, b).Some? {
      FirstFits(crc, b);
    }
    hide First;
  }

  lemma FramesAre(crc: Checksum, p: Bytes, rest: seq<Bytes>)
    ensures Frames(crc, [p] + rest) == Frame(crc, p) + Frames(crc, rest)
    ensures Short(rest) && |p| < WORD ==> Short([p] + rest)
  {
    assert ([p] + rest)[1..] == rest;
    hide Frame;
  }

  lemma PrefixOn(b: Bytes, head: Bytes, more: Bytes)
    requires |head| <= |b| && b[..|head|] == head
    requires |more| <= |b| - |head| && b[|head|..][..|more|] == more
    ensures |head + more| <= |b| && b[..|head + more|] == head + more && b[|head + more|..] == b[|head|..][|more|..]
  {
    assert b[..|head| + |more|] == b[..|head|] + b[|head|..][..|more|];
  }

  /** Whatever the bytes, the accepted part is a list of frames and the rest holds none. */
  lemma {:induction false} ParsedPrefix(crc: Checksum, b: Bytes)
    ensures var ps := Parse(crc, b);
            && Short(ps) && |Frames(crc, ps)| <= |b| && b[..|Frames(crc, ps)|] == Frames(crc, ps)
            && First(crc, b[|Frames(crc, ps)|..]) == None
    decreases |b|
  {
    ParseIs(crc, b);
    if First(crc, b).None? {
      assert b[0..] == b;
    } else {
      var p := First(crc, b).value;
      ReadsFrame(crc, b);
      hide *;
      var rest := Parse(crc, b[HEADER + |p|..]);
      ParsedPrefix(crc, b[HEADER + |p|..]);
      FramesAre(crc, p, rest);
      PrefixOn(b, Frame(crc, p), Frames(crc, rest));
    }
  }

  /** Cutting the tail off changes nothing that is read, and leaves nothing to cut. */
  lemma TruncationIsFinal(crc: Checksum, b: Bytes)
    ensures var kept := Frames(crc, Parse(crc, b)); Parse(crc, kept) == Parse(crc, b)
  {
    ParsedPrefix(crc, b);
    var ps := Parse(crc, b);
    ParseFrames(crc, ps, []);
    assert Frames(crc, ps) + [] == Frames(crc, ps);
    assert ps + [] == ps;
  }

  lemma {:induction false} FramesJoin(crc: Checksum, a: seq<Bytes>, b: seq<Bytes>)
    ensures Frames(crc, a + b) == Frames(crc, a) + Frames(crc, b)
  {
    hide Frame;
    if a == [] {
      assert a + b == b;
    } else {
      FramesJoin(crc, a[1..], b);
      assert (a + b)[1..] == a[1..] + b;
      assert Frames(crc, a + b) == Frame(crc, a[0]) + (Frames(crc, a[1..]) + Frames(crc, b));
    }
  }

  lemma OneFrame(crc: Checksum, p: Bytes)
    ensures Frames(crc, [p]) == Frame(crc, p)
  {
    assert [p][1..] == [];
    assert Frame(crc, p) + [] == Frame(crc, p);
  }

  // ---- the open segment ----

  /** Where each entry starts: behind the header, if any, and the entries before it. */
  ghost predicate Offsets(crc: Checksum, before: nat, entries: seq<Bytes>, offsets: seq<nat>) {
    && |offsets| == |entries|
    && forall i :: 0 <= i < |entries| ==> offsets[i] == before + |Frames(crc, entries[..i])|
  }

  function Lead(header: Option<Bytes>): seq<Bytes> {
    if header.Some? then [header.value] else []
  }

  /** `off` bytes hold the header and the entries seen so far. */
  ghost predicate Scanned(crc: Checksum, file: Bytes, off: nat, head: Option<Bytes>, seen: seq<Bytes>) {
    && off <= |file| && Short(Lead(head) + seen) && file[..off] == Frames(crc, Lead(head) + seen)
    && Parse(crc, file) == Lead(head) + seen + Parse(crc, file[off..])
  }

  lemma Begin(crc: Checksum, file: Bytes)
    ensures Scanned(crc, file, 0, None, []) && Offsets(crc, |Frames(crc, Lead(None))|, [], [])
  {
    assert file[0..] == file;
  }

  lemma ShortOn(ps: seq<Bytes>, p: Bytes)
    requires Short(ps) && |p| < WORD
    ensures Short(ps + [p])
  {
  }

  lemma FramesOn(crc: Checksum, ps: seq<Bytes>, p: Bytes)
    requires |p| < WORD
    ensures Frames(crc, ps + [p]) == Frames(crc, ps) + Frame(crc, p) && |Frame(crc, p)| == HEADER + |p|
  {
    FramesJoin(crc, ps, [p]);
    OneFrame(crc, p);
    FrameShape(crc, p, []);
  }

  lemma SliceOn(file: Bytes, off: nat, n: nat)
    requires off + n <= |file|
    ensures file[..off + n] == file[..off] + file[off..][..n] && file[off..][n..] == file[off + n..]
  {
  }

  lemma Regroup(a: seq<Bytes>, p: Bytes, c: seq<Bytes>)
    ensures a + ([p] + c) == a + [p] + c && (a + [p]) + c == a + [p] + c
  {
  }

  /** One more frame of the scan. */
  lemma Advance(crc: Checksum, file: Bytes, off: nat, ps: seq<Bytes>)
    requires off <= |file| && First(crc, file[off..]).Some? && Short(ps) && file[..off] == Frames(crc, ps)
    requires Parse(crc, file) == ps + Parse(crc, file[off..])
    ensures var p := First(crc, file[off..]).value;
            var end := off + HEADER + |p|;
            && off < end <= |file| && Short(ps + [p]) && file[..end] == Frames(crc, ps + [p])
            && Parse(crc, file) == ps + [p] + Parse(crc, file[end..])
  {
    hide *;
    var b := file[off..];
    var p := First(crc, b).value;
    ReadsFrame(crc, b);
    ParseIs(crc, b);
    ShortOn(ps, p);
    FramesOn(crc, ps, p);
    SliceOn(file, off, HEADER + |p|);
    Regroup(ps, p, Parse(crc, b[HEADER + |p|..]));
  }

  lemma OffsetsOn(crc: Checksum, before: nat, seen: seq<Bytes>, offs: seq<nat>, p: Bytes, off: nat)
    requires Offsets(crc, before, seen, offs) && off == before + |Frames(crc, seen)|
    ensures Offsets(crc, before, seen + [p], offs + [off])
  {
    hide Frames;
    var more := seen + [p];
    forall i | 0 <= i < |more| ensures (offs + [off])[i] == before + |Frames(crc, more[..i])| {
      if i < |seen| {
        assert more[..i] == seen[..i];
      } else {
        assert more[..i] == seen;
      }
    }
  }

  lemma ScannedHead(crc: Checksum, file: Bytes, off: nat)
    requires Scanned(crc, file, off, None, []) && First(crc, file[off..]).Some?
    ensures var p := First(crc, file[off..]).value;
            var end := off + HEADER + |p|;
            && off < end <= |file| && Scanned(crc, file, end, Some(p), [])
                && Offsets(crc, |Frames(crc, Lead(Some(p)))|, [], [])
  {
    Advance(crc, file, off, Lead(None) + []);
    hide First, Frames, Parse, Short;
    var p := First(crc, file[off..]).value;
    assert Lead(None) + [] + [p] == Lead(Some(p)) + [];
    NoOffsets(crc, |Frames(crc, Lead(Some(p)))|);
  }

  lemma ScannedEntry(crc: Checksum, file: Bytes, off: nat, head: Option<Bytes>, seen: seq<Bytes>, offs: seq<nat>)
    requires Scanned(crc, file, off, head, seen) && First(crc, file[off..]).Some?
    requires Offsets(crc, |Frames(crc, Lead(head))|, seen, offs)
    ensures var p := First(crc, file[off..]).value;
            var end := off + HEADER + |p|;
            && off < end <= |file| && Scanned(crc, file, end, head, seen + [p])
            && Offsets(crc, |Frames(crc, Lead(head))|, seen + [p], offs + [off])
  {
    Advance(crc, file, off, Lead(head) + seen);
    FramesJoin(crc, Lead(head), seen);
    hide First, Frames, Parse, Short, Lead;
    var p := First(crc, file[off..]).value;
    assert off == |file[..off]|;
    OffsetsOn(crc, |Frames(crc, Lead(head))|, seen, offs, p, off);
    Regroup2(Lead(head), seen, p);
  }

  lemma Regroup2(a: seq<Bytes>, b: seq<Bytes>, p: Bytes)
    ensures a + b + [p] == a + (b + [p])
  {
  }

  lemma ScannedOff(crc: Checksum, file: Bytes, off: nat, head: Option<Bytes>, seen: seq<Bytes>)
    requires Scanned(crc, file, off, head, seen)
    ensures off <= |file| && (Lead(head) + seen != [] <==> head.Some? || seen != [])
  {
  }

  /** Scan forward: the header if the segment has one, then the entries and where each
      begins, until a frame is torn or bad. */
  method Scan(crc: Checksum, file: Bytes, hasHeader: bool)
    returns (off: nat, head: Option<Bytes>, offs: seq<nat>, ghost seen: seq<Bytes>)
    ensures off <= |file| && Scanned(crc, file, off, head, seen) && Offsets(crc, |Frames(crc, Lead(head))|, seen, offs)
    ensures First(crc, file[off..]).None?
    ensures head.Some? <==> hasHeader && Lead(head) + seen != []
  {
    hide *;
    off, head, offs, seen := 0, None, [], [];
    var first := true;
    Begin(crc, file);
    var next := First(crc, file[off..]);
    while next.Some?
      invariant off <= |file| && next == First(crc, file[off..]) && Scanned(crc, file, off, head, seen)
      invariant first ==> head.None? && seen == [] && offs == []
      invariant !first ==> head.Some? || seen != []
      invariant head.Some? <==> hasHeader && !first
      invariant Offsets(crc, |Frames(crc, Lead(head))|, seen, offs)
      decreases |file| - off
    {
      var end := off + HEADER + |next.value|;
      if hasHeader && first {
        ScannedHead(crc, file, off);
        head := next;
      } else {
        ScannedEntry(crc, file, off, head, seen, offs);
        offs := offs + [off];
        seen := seen + [next.value];
      }
      first := false;
      off := end;
      next := First(crc, file[off..]);
    }
    ScannedOff(crc, file, off, head, seen);
  }

  lemma NoOffsets(crc: Checksum, before: nat)
    ensures Offsets(crc, before, [], [])
  {
  }

  /** The bytes are the header and the entries, and the offsets point at them. */
  ghost predicate Shape(crc: Checksum, file: Bytes, size: nat, header: Option<Bytes>, entries: seq<Bytes>,
                        offsets: seq<nat>) {
    && Short(Lead(header) + entries) && size == |file| && file == Frames(crc, Lead(header) + entries)
    && Offsets(crc, |Frames(crc, Lead(header))|, entries, offsets)
  }

  lemma Extended(crc: Checksum, file: Bytes, size: nat, header: Option<Bytes>, entries: seq<Bytes>, offsets: seq<nat>,
                 p: Bytes)
    requires Shape(crc, file, size, header, entries, offsets) && |p| < WORD
    ensures Shape(crc, file + Frame(crc, p), size + |Frame(crc, p)|, header, entries + [p], offsets + [size])
  {
    hide Short, Frames, Frame, Offsets, Lead;
    var ps := Lead(header) + entries;
    FramesOn(crc, ps, p);
    ShortOn(ps, p);
    FramesJoin(crc, Lead(header), entries);
    OffsetsOn(crc, |Frames(crc, Lead(header))|, entries, offsets, p, size);
    Regroup2(Lead(header), entries, p);
  }

  lemma Reread(crc: Checksum, file: Bytes, header: Option<Bytes>, entries: seq<Bytes>)
    requires exists offsets :: Shape(crc, file, |file|, header, entries, offsets)
    ensures Parse(crc, file) == Lead(header) + entries
  {
    var ps := Lead(header) + entries;
    ParseFrames(crc, ps, []);
    NothingLeft(crc);
    hide Short, Frames, Frame, Offsets, Lead, Parse;
    assert Frames(crc, ps) + [] == Frames(crc, ps) && ps + [] == ps;
  }

  /** The entries a reopening finds: every frame, less the first if it is taken for the
      header. */
  function EntriesOf(crc: Checksum, file: Bytes, hasHeader: bool): seq<Bytes> {
    var ps := Parse(crc, file);
    if hasHeader && ps != [] then ps[1..] else ps
  }

  lemma EntriesAre(crc: Checksum, file: Bytes, hasHeader: bool, header: Option<Bytes>, entries: seq<Bytes>)
    requires Parse(crc, file) == Lead(header) + entries && (header.Some? ==> hasHeader)
    ensures entries != [] ==> (EntriesOf(crc, file, hasHeader) == entries <==> hasHeader == header.Some?)
    ensures hasHeader == header.Some? || entries == [] ==> EntriesOf(crc, file, hasHeader) == entries
  {
    hide Parse;
  }

  class Segment {
    const crc: Checksum
    const readOnly: bool
    const maxSize: nat
    var file: Bytes
    var hasHeader: bool
    var header: Option<Bytes>
    var offsets: seq<nat>
    var count: nat
    var size: nat
    ghost var entries: seq<Bytes>

    ghost predicate Valid()
      reads this
    {
      && Short(Lead(header) + entries) && (header.Some? ==> hasHeader)
      && size == |Frames(crc, Lead(header) + entries)| <= |file|
      && file[..size] == Frames(crc, Lead(header) + entries)
      && (!readOnly ==> |file| == size)
      && count == |entries| && Offsets(crc, |Frames(crc, Lead(header))|, entries, offsets)
    }

    /** Open: scan the file, then cut a writable one at the last good frame. */
    constructor (crc: Checksum, readOnly: bool, maxSize: nat, file: Bytes, hasHeader: bool)
      ensures Valid() && this.crc == crc && this.readOnly == readOnly && this.maxSize == maxSize
                && this.hasHeader == hasHeader
      ensures Lead(header) + entries == Parse(crc, file) && entries == EntriesOf(crc, file, hasHeader)
      ensures header.Some? <==> hasHeader && Parse(crc, file) != []
      ensures this.file == if readOnly then file else Frames(crc, Parse(crc, file))
    {
      var off, head, offs, seen := Scan(crc, file, hasHeader);
      ParseIs(crc, file[off..]);
      assert Lead(head) + seen + [] == Lead(head) + seen;
      hide First, Frames, Parse, Short, Offsets;
      this.crc, this.readOnly, this.maxSize, this.hasHeader := crc, readOnly, maxSize, hasHeader;
      this.header, this.offsets, this.count, this.size, this.entries := head, offs, |offs|, off, seen;
      this.file := if |file| > off && !readOnly then file[..off] else file;
      new;
      OffsetsLength(crc, |Frames(crc, Lead(head))|, seen, offs);
      assert file[..off][..off] == file[..off];
      assert |file| == off ==> file[..off] == file;
      EntriesAre(crc, file, hasHeader, head, seen);
    }

    /** Append one entry behind the last. Reopening the file finds exactly the old entries
        and the new one, unless the file is opened as headered and has lost its header:
        then the first entry is taken for it. */
    method Append(payload: Bytes) returns (offset: Option<nat>)
      requires Valid() && |payload| < WORD
      modifies this
      ensures Valid() && hasHeader == old(hasHeader) && header == old(header)
      ensures offset.Some? <==> !readOnly && (maxSize == 0 || old(size) + HEADER + |payload| <= maxSize)
      ensures offset.None? ==> file == old(file) && entries == old(entries)
      ensures offset.Some? ==> offset.value == old(size) && entries == old(entries) + [payload]
      ensures offset.Some? ==> Parse(crc, file) == Lead(header) + old(entries) + [payload]
      ensures offset.Some? ==>
                (EntriesOf(crc, file, hasHeader) == old(entries) + [payload] <==> hasHeader == header.Some?)
    {
      hide *;
      if readOnly {
        return None;
      }
      var frame := Frame(crc, payload);
      FramesOn(crc, [], payload);
      if maxSize > 0 && size + |frame| > maxSize {
        return None;
      }
      Whole();
      Extended(crc, file, size, header, entries, offsets, payload);
      offset := Some(size);
      file := file + frame;
      offsets := offsets + [size];
      size := size + |frame|;
      count := count + 1;
      entries := entries + [payload];
      Settled();
      Reread(crc, file, header, entries);
      EntriesAre(crc, file, hasHeader, header, entries);
      Regroup2(Lead(header), old(entries), payload);
    }

    lemma Whole()
      requires Valid()
      ensures Shape(crc, file[..size], size, header, entries, offsets) && size <= |file| && count == |entries|
      ensures !readOnly ==> file[..size] == file && |file| == size
      ensures header.Some? ==> hasHeader
    {
    }

    lemma Settled()
      requires Shape(crc, file, size, header, entries, offsets) && count == |entries| && |file| == size
      requires header.Some? ==> hasHeader
      ensures Valid()
    {
      assert file[..size] == file;
    }

    /** Write the block-0 header of a fresh segment; it is never an entry. */
    method WriteHeader(payload: Bytes) returns (ok: bool)
      requires Valid() && |payload| < WORD
      modifies this
      ensures Valid() && ok == (!readOnly && old(size) == 0 && old(count) == 0)
      ensures ok ==> header == Some(payload) && entries == [] && file == Frame(crc, payload) && hasHeader
      ensures !ok ==> file == old(file) && entries == old(entries) && header == old(header)
    {
      if readOnly || size != 0 || count != 0 {
        return false;
      }
      OneFrame(crc, payload);
      FrameShape(crc, payload, []);
      NoOffsets(crc, |Frames(crc, [payload])|);
      hide Frames, Frame;
      assert offsets == [] by {
        OffsetsLength(crc, |Frames(crc, Lead(header))|, entries, offsets);
      }
      file := Frame(crc, payload);
      size := |file|;
      hasHeader, header, entries := true, Some(payload), [];
      assert Lead(header) + entries == [payload];
      assert file[..size] == file;
      return true;
    }

    /** Entry `i`, read between its offset and the next. */
    method ReadIndex(i: nat) returns (r: Option<Bytes>)
      requires Valid()
      ensures r == if i < |entries| then Some(entries[i]) else None
    {
      hide *;
      Whole();
      if i >= count {
        return None;
      }
      var off := OffsetOf(i);
      var nextOff := OffsetOf(i + 1);
      FrameAt(crc, file, size, header, entries, offsets, i);
      r := ReadFrame(crc, file, off, nextOff, entries[i]);
    }

    /** Where entry `i` begins, or where the last one ends. */
    method OffsetOf(i: nat) returns (off: nat)
      requires Valid() && i <= count
      ensures i <= |entries| && off == |Frames(crc, Lead(header) + entries[..i])|
    {
      hide *;
      Whole();
      OffsetsAre(crc, file[..size], size, header, entries, offsets, i);
      if i < |offsets| {
        return offsets[i];
      }
      return size;
    }
  }

  lemma OffsetsAre(crc: Checksum, file: Bytes, size: nat, header: Option<Bytes>, entries: seq<Bytes>,
                   offsets: seq<nat>, i: nat)
    requires Shape(crc, file, size, header, entries, offsets) && i <= |entries|
    ensures |offsets| == |entries|
    ensures |Frames(crc, Lead(header) + entries[..i])| == if i < |offsets| then offsets[i] else size
  {
    hide Frames, Short, Lead;
    FramesJoin(crc, Lead(header), entries[..i]);
    assert entries[..|entries|] == entries;
  }

  lemma FrameAt(crc: Checksum, file: Bytes, size: nat, header: Option<Bytes>, entries: seq<Bytes>, offsets: seq<nat>,
                i: nat)
    requires size <= |file| && Shape(crc, file[..size], size, header, entries, offsets) && i < |entries|
    ensures var a, b := |Frames(crc, Lead(header) + entries[..i])|, |Frames(crc, Lead(header) + entries[..i + 1])|;
            |entries[i]| < WORD && a <= b <= |file| && file[a..b] == Frame(crc, entries[i])
  {
    hide Frames, Frame, Lead, Offsets;
    assert (Lead(header) + entries)[|Lead(header)| + i] == entries[i];
    EntryAt(crc, Lead(header), entries, i);
    var a, b := |Frames(crc, Lead(header) + entries[..i])|, |Frames(crc, Lead(header) + entries[..i + 1])|;
    assert file[..size][a..b] == file[a..b];
  }

  lemma OffsetsLength(crc: Checksum, before: nat, seen: seq<Bytes>, offs: seq<nat>)
    requires Offsets(crc, before, seen, offs)
    ensures |offs| == |seen|
  {
  }

  lemma NothingLeft(crc: Checksum)
    ensures Parse(crc, []) == []
  {
  }

  /** The bytes between an entry's offset and the next are its frame. */
  lemma EntryAt(crc: Checksum, lead: seq<Bytes>, entries: seq<Bytes>, i: nat)
    requires i < |entries| && |entries[i]| < WORD
    ensures var a, b := |Frames(crc, lead + entries[..i])|, |Frames(crc, lead + entries[..i + 1])|;
            && a <= b <= |Frames(crc, lead + entries)| && b == a + HEADER + |entries[i]|
            && Frames(crc, lead + entries)[a..b] == Frame(crc, entries[i])
  {
    var front, rest := lead + entries[..i], entries[i + 1..];
    assert lead + entries[..i + 1] == front + [entries[i]];
    assert lead + entries == front + [entries[i]] + rest;
    FramesOn(crc, front, entries[i]);
    FramesJoin(crc, front + [entries[i]], rest);
    hide Frames, Frame;
  }

  /** A frame between two known offsets; its length field must agree with them. */
  method ReadFrame(crc: Checksum, file: Bytes, off: nat, nextOff: nat, ghost payload: Bytes) returns (r: Option<Bytes>)
    requires off <= nextOff <= |file| && |payload| < WORD && file[off..nextOff] == Frame(crc, payload)
    ensures r == Some(payload)
  {
    FrameShape(crc, payload, []);
    EncodeDecode(|payload|);
    assert Frame(crc, payload) + [] == Frame(crc, payload);
    hide Frame, Encode, Decode;
    var length := nextOff - off;
    if length < HEADER {
      return None;
    }
    var buf := file[off..nextOff];
    var n := Decode(buf[..4]);
    if n + HEADER != length {
      return None;
    }
    return Some(buf[HEADER..]);
  }

  /** A headered file whose header never reached it, one record, and a reopening: the
      record has become the header. */
  method HeaderlessAppend(crc: Checksum, p: Bytes) returns (s: Segment, again: Segment)
    requires |p| < WORD
    ensures fresh(s) && s.Valid() && s.entries == [p]
    ensures fresh(again) && again.Valid() && again.header == Some(p) && again.entries == []
  {
    NothingLeft(crc);
    s := new Segment(crc, false, 0, [], true);
    hide Parse, Frames, Frame, First;
    var at := s.Append(p);
    again := new Segment(crc, false, 0, s.file, true);
  }
}
