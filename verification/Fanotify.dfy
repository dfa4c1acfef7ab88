/** The two walks over the bytes fanotify delivers: event records in a read buffer, and
    info records inside an event (internal/watcher/watcher.go:212-228,
    internal/watcher/watcher.go:291-348). Offsets are 64-bit ints in the source. */
module Fanotify {

  newtype Byte = x: int | 0 <= x < 256

  const INT_LIMIT: int := 0x8000_0000_0000_0000

  /** The size of the fixed part of an event, and of the buffer pollLoop allocates. */
  const META_SIZE: nat := 24
  const BUFFER_SIZE: nat := 4096 * 24
  const METADATA_VERSION: Byte := 3

  const FID: Byte := 1
  const DFID_NAME: Byte := 2
  const DFID: Byte := 3

  function U16(s: seq<Byte>, i: nat): nat
    requires i + 2 <= |s|
  {
    s[i] as int + 256 * s[i + 1] as int
  }

  function U32(s: seq<Byte>, i: nat): (n: nat)
    requires i + 4 <= |s|
    ensures n < 0x1_0000_0000
  {
    U16(s, i) + 0x1_0000 * U16(s, i + 2)
  }

  /* ---- events in the read buffer ---- */

  /** Only records of the known version are handed on. */
  function Keep(events: seq<seq<Byte>>, r: seq<Byte>): seq<seq<Byte>>
    requires |r| >= META_SIZE
  {
    if r[4] == METADATA_VERSION then events + [r] else events
  }

  /** What is handed on from offset `i`, after `events`: record after record, up to the
      first that does not fit. */
  function Walk(data: seq<Byte>, i: nat, events: seq<seq<Byte>>): seq<seq<Byte>>
    requires i <= |data|
    decreases |data| - i
  {
    if i + META_SIZE > |data| then events
    else
      var len := U32(data, i);
      if len < META_SIZE || i + len > |data| then events
      else Walk(data, i + len, Keep(events, data[i..i + len]))
  }

  /** readEvents after the read of `n` bytes: every index it uses is in range and every
      offset fits an int, whatever the bytes are. */
  method ReadEvents(buf: array<Byte>, n: nat) returns (events: seq<seq<Byte>>)
    requires n <= buf.Length <= BUFFER_SIZE
    ensures events == Walk(buf[..n], 0, [])
  {
    events := [];
    if n < META_SIZE {
      return;
    }
    var data := buf[..n];
    var i := 0;
    while i + META_SIZE <= n
      invariant i <= n && Walk(data, i, events) == Walk(data, 0, [])
      decreases n - i
    {
      var len := U32(data, i);
      assert i + len < INT_LIMIT;
      if len < META_SIZE || i + len > n {
        break;
      }
      var record := data[i..i + len];
      if record[4] == METADATA_VERSION {
        events := events + [record];
      }
      i := i + len;
    }
  }

  predicate WellFormed(r: seq<Byte>) {
    |r| >= 24 && U32(r, 0) == |r|
  }

  predicate AllWellFormed(rs: seq<seq<Byte>>) {
    rs == [] || (WellFormed(rs[0]) && AllWellFormed(rs[1..]))
  }

  function Flatten(rs: seq<seq<Byte>>): seq<Byte> {
    if rs == [] then [] else rs[0] + Flatten(rs[1..])
  }

  /** The records of the known version, in order. */
  function KnownVersion(rs: seq<seq<Byte>>): seq<seq<Byte>>
    requires AllWellFormed(rs)
  {
    if rs == [] then [] else (if rs[0][4] == METADATA_VERSION then [rs[0]] else []) + KnownVersion(rs[1..])
  }

  lemma WalkStep(data: seq<Byte>, i: nat, r: seq<Byte>, events: seq<seq<Byte>>)
    requires WellFormed(r) && i + |r| <= |data| && data[i..i + |r|] == r
    ensures Walk(data, i, events) == Walk(data, i + |r|, Keep(events, r))
  {
    assert forall j | 0 <= j < |r| :: data[i + j] == r[j];
    assert U32(data, i) == U32(r, 0);
  }

  /** The pieces `rs` lie in `data` from `i` on, one after another, and `rest` after them. */
  predicate Lies(data: seq<Byte>, i: nat, rs: seq<seq<Byte>>, rest: seq<Byte>)
    decreases |rs|
  {
    if rs == [] then i <= |data| && data[i..] == rest
    else i + |rs[0]| <= |data| && data[i..i + |rs[0]|] == rs[0] && Lies(data, i + |rs[0]|, rs[1..], rest)
  }

  lemma {:induction false} FlattenLies(before: seq<Byte>, rs: seq<seq<Byte>>, rest: seq<Byte>)
    ensures Lies(before + (Flatten(rs) + rest), |before|, rs, rest)
    decreases |rs|
  {
    if rs == [] {
      assert Flatten(rs) + rest == rest;
    } else {
      var r, tail := rs[0], Flatten(rs[1..]) + rest;
      assert before + (Flatten(rs) + rest) == (before + r) + tail;
      FlattenLies(before + r, rs[1..], rest);
    }
  }

  /** Too short for an event, or its length is less than an event's or runs past the end. */
  predicate Broken(rest: seq<Byte>) {
    |rest| < 24 || U32(rest, 0) < 24 || U32(rest, 0) > |rest|
  }

  lemma WalkEnds(data: seq<Byte>, i: nat, events: seq<seq<Byte>>)
    requires i <= |data| && Broken(data[i..])
    ensures Walk(data, i, events) == events
  {
    var rest := data[i..];
    assert forall j | 0 <= j < |rest| :: data[i + j] == rest[j];
    assert |rest| >= META_SIZE ==> U32(data, i) == U32(rest, 0);
  }

  lemma KeepThenRest(rs: seq<seq<Byte>>, events: seq<seq<Byte>>)
    requires AllWellFormed(rs) && rs != []
    ensures Keep(events, rs[0]) + KnownVersion(rs[1..]) == events + KnownVersion(rs)
  {
    Regroup(events, if rs[0][4] == METADATA_VERSION then [rs[0]] else [], KnownVersion(rs[1..]));
  }

  lemma Regroup<T>(a: seq<T>, b: seq<T>, c: seq<T>)
    ensures a + (b + c) == (a + b) + c && a + [] == a
  {
  }

  lemma {:induction false} WalkFrom(data: seq<Byte>, i: nat, rs: seq<seq<Byte>>, rest: seq<Byte>,
                                    events: seq<seq<Byte>>)
    requires AllWellFormed(rs) && Lies(data, i, rs, rest) && Broken(rest)
    ensures i <= |data| && Walk(data, i, events) == events + KnownVersion(rs)
    decreases |rs|
  {
    if rs == [] {
      WalkEnds(data, i, events);
    } else {
      var r := rs[0];
      WalkFrom(data, i + |r|, rs[1..], rest, Keep(events, r));
      WalkStep(data, i, r, events);
      KeepThenRest(rs, events);
    }
  }

  /** On a concatenation of well-formed events, whatever follows the last of them, the walk
      hands on exactly those of version 3, in order. */
  lemma WalkVisitsAll(rs: seq<seq<Byte>>, rest: seq<Byte>)
    requires AllWellFormed(rs) && Broken(rest)
    ensures Walk(Flatten(rs) + rest, 0, []) == KnownVersion(rs)
  {
    var data := Flatten(rs) + rest;
    FlattenLies([], rs, rest);
    assert [] + data == data;
    WalkFrom(data, 0, rs, rest, []);
  }

  /** How many of the first `j` events are of version 3. */
  function KnownBefore(rs: seq<seq<Byte>>, j: nat): nat
    requires AllWellFormed(rs) && j <= |rs|
  {
    if j == 0 then 0 else (if rs[0][4] == 3 then 1 else 0) + KnownBefore(rs[1..], j - 1)
  }

  /** As many events are handed on as are of that version, and each of them at the place that
      follows those before it. */
  lemma {:induction false} KnownPlaces(rs: seq<seq<Byte>>, j: nat)
    requires AllWellFormed(rs) && j < |rs|
    ensures |KnownVersion(rs)| == KnownBefore(rs, |rs|) && |rs[j]| >= META_SIZE
    ensures rs[j][4] == 3 ==>
      KnownBefore(rs, j) < |KnownVersion(rs)| && KnownVersion(rs)[KnownBefore(rs, j)] == rs[j]
    decreases |rs|
  {
    var first: seq<seq<Byte>> := if rs[0][4] == METADATA_VERSION then [rs[0]] else [];
    if |rs| == 1 {
      assert rs[1..] == [];
    } else {
      KnownPlaces(rs[1..], if j == 0 then 0 else j - 1);
    }
    Offset(first, KnownVersion(rs[1..]));
  }

  lemma Offset<T>(a: seq<T>, b: seq<T>)
    ensures |a + b| == |a| + |b| && (forall k | 0 <= k < |a| :: (a + b)[k] == a[k])
    ensures forall k | 0 <= k < |b| :: (a + b)[|a| + k] == b[k]
  {
  }

  /** In particular one event of that version is handed on. */
  lemma OneEvent(r: seq<Byte>)
    requires WellFormed(r) && r[4] == 3
    ensures Walk(r, 0, []) == [r]
  {
    assert r[0..|r|] == r;
    WalkStep(r, 0, r, []);
  }

  /* ---- info records in an event ---- */

  /** A handle opens to a path, or to "" if it cannot be resolved. */
  type Opener = (nat, seq<Byte>) -> string

  predicate IsHandleKind(kind: Byte) { kind == DFID_NAME || kind == DFID || kind == FID }

  /** The bytes of a name: up to a NUL or the end of the record. */
  function NameEnd(data: seq<Byte>, from: nat, to: nat): (end: nat)
    requires from <= to <= |data|
    ensures from <= end <= to && 0 !in data[from..end] && (end < to ==> data[end] == 0)
    decreases |data| - from
  {
    if from < to && data[from] != 0 then
      var end := NameEnd(data, from + 1, to);
      assert data[from..end] == [data[from]] + data[from + 1..end];
      end
    else from
  }

  /** The name that starts at `from`, or the known one if that is empty. */
  function NameFrom(data: seq<Byte>, from: nat, to: nat, known: seq<Byte>): seq<Byte>
    requires from <= to <= |data|
  {
    var end := NameEnd(data, from, to);
    if end > from then data[from..end] else known
  }

  /** The record is of a kind with a handle, and the handle lies inside it. */
  predicate HasHandle(data: seq<Byte>, off: nat, len: nat)
    requires 4 <= |data| - off && off + len <= |data|
  {
    IsHandleKind(data[off]) && 20 <= len && 20 + U32(data, off + 12) <= len
  }

  function DirFrom(data: seq<Byte>, off: nat, len: nat, open: Opener): string
    requires 4 <= |data| - off && off + len <= |data| && HasHandle(data, off, len)
  {
    open(U32(data, off + 16), data[off + 20..off + 20 + U32(data, off + 12)])
  }

  /** One record's outcome: the directory it resolves to, and the file name known after it. */
  function Visit(data: seq<Byte>, off: nat, len: nat, name: seq<Byte>, open: Opener): (string, seq<Byte>)
    requires 4 <= |data| - off && off + len <= |data|
  {
    if !HasHandle(data, off, len) then ("", name)
    else if data[off] != DFID_NAME then (DirFrom(data, off, len, open), name)
    else (DirFrom(data, off, len, open), NameFrom(data, off + 20 + U32(data, off + 12), off + len, name))
  }

  function Scan(data: seq<Byte>, off: nat, name: seq<Byte>, open: Opener): (string, seq<Byte>)
    decreases |data| - off
  {
    if off + 4 > |data| then ("", [])
    else
      var len := U16(data, off + 2);
      if len == 0 || off + len > |data| then ("", [])
      else
        var (dir, name') := Visit(data, off, len, name, open);
        if dir != "" then (dir, name') else Scan(data, off + len, name', open)
  }

  /** The name loop of resolveFIDPath: an empty name leaves the known one. */
  method ReadName(data: seq<Byte>, nameOff: nat, to: nat, known: seq<Byte>) returns (fileName: seq<Byte>)
    requires nameOff <= to <= |data|
    ensures fileName == NameFrom(data, nameOff, to, known)
  {
    var end := nameOff;
    while end < to && data[end] != 0
      invariant nameOff <= end <= to
      invariant NameEnd(data, nameOff, to) == NameEnd(data, end, to)
    {
      end := end + 1;
    }
    fileName := if end > nameOff then data[nameOff..end] else known;
  }

  /** The switch of resolveFIDPath on one record; leaving the switch early goes on to the
      next record. */
  method VisitRecord(data: seq<Byte>, off: nat, infoLen: nat, known: seq<Byte>, open: Opener)
    returns (dirPath: string, fileName: seq<Byte>)
    requires off + 4 <= |data| && off + infoLen <= |data| <= BUFFER_SIZE
    ensures (dirPath, fileName) == Visit(data, off, infoLen, known, open)
  {
    dirPath, fileName := "", known;
    var infoType := data[off];
    if IsHandleKind(infoType) {
      var hOff := off + 4 + 8;
      if hOff + 8 > off + infoLen {
        return;
      }
      var handleBytes := U32(data, hOff);
      var handleType := U32(data, hOff + 4);
      var hDataOff := hOff + 8;
      assert hDataOff + handleBytes < INT_LIMIT;
      if hDataOff + handleBytes > off + infoLen {
        return;
      }
      assert hDataOff == off + 20 && handleBytes == U32(data, off + 12) && handleType == U32(data, off + 16);
      dirPath := open(handleType, data[hDataOff..hDataOff + handleBytes]);
      if infoType == DFID_NAME {
        fileName := ReadName(data, hDataOff + handleBytes, off + infoLen, known);
      }
    }
  }

  /** resolveFIDPath: terminates and stays in range on every byte sequence, however the
      lengths inside it lie. */
  method ResolveFidPath(data: seq<Byte>, metaLen: nat, open: Opener) returns (dirPath: string, fileName: seq<Byte>)
    requires |data| <= BUFFER_SIZE && metaLen < 0x1_0000
    ensures (dirPath, fileName) == Scan(data, metaLen, [], open)
  {
    var off := metaLen;
    dirPath, fileName := "", [];
    while off + 4 <= |data|
      invariant Scan(data, metaLen, [], open) == Scan(data, off, fileName, open)
      decreases |data| - off
    {
      var infoLen := U16(data, off + 2);
      if infoLen == 0 || off + infoLen > |data| {
        break;
      }
      dirPath, fileName := VisitRecord(data, off, infoLen, fileName, open);
      if dirPath != "" {
        return;
      }
      off := off + infoLen;
    }
    return "", [];
  }

  /* ---- the walk on well-formed info records ---- */

  /** An info record by its parts; `pad` zero bytes follow the name. */
  datatype Info = Info(kind: Byte, fsid: seq<Byte>, handleType: nat, handle: seq<Byte>, name: seq<Byte>, pad: nat)

  function Size(r: Info): nat { 20 + |r.handle| + |r.name| + r.pad }

  predicate ValidInfo(r: Info) {
    && |r.fsid| == 8 && r.handleType < 0x1_0000_0000 && Size(r) < 0x1_0000
    && 0 !in r.name && (r.kind != 2 ==> r.name == [])
  }

  function Bytes16(n: nat): (s: seq<Byte>)
    requires n < 0x1_0000
    ensures |s| == 2 && U16(s, 0) == n
  {
    [(n % 256) as Byte, (n / 256) as Byte]
  }

  function Bytes32(n: nat): (s: seq<Byte>)
    requires n < 0x1_0000_0000
    ensures |s| == 4 && U32(s, 0) == n
  {
    var (lo, hi) := (Bytes16(n % 0x1_0000), Bytes16(n / 0x1_0000));
    assert (lo + hi)[2] == hi[0] && (lo + hi)[3] == hi[1];
    lo + hi
  }

  function NulBytes(n: nat): seq<Byte> { seq(n, _ => 0) }

  function Header(r: Info): (s: seq<Byte>)
    requires ValidInfo(r)
    ensures |s| == 20
  {
    [r.kind, 0] + Bytes16(Size(r)) + r.fsid + (Bytes32(|r.handle|) + Bytes32(r.handleType))
  }

  function Encode(r: Info): (s: seq<Byte>)
    requires ValidInfo(r)
    ensures |s| == Size(r)
  {
    Header(r) + r.handle + (r.name + NulBytes(r.pad))
  }

  predicate AllValid(rs: seq<Info>) { rs == [] || (ValidInfo(rs[0]) && AllValid(rs[1..])) }

  function Encodings(rs: seq<Info>): seq<seq<Byte>>
    requires AllValid(rs)
  {
    if rs == [] then [] else [Encode(rs[0])] + Encodings(rs[1..])
  }

  /** The directory a record stands for, "" if none: the kinds 1 (a file handle), 2 (a
      directory's with a name) and 3 (a directory's) carry a handle. */
  function DirOf(r: Info, open: Opener): string {
    if r.kind == 1 || r.kind == 2 || r.kind == 3 then open(r.handleType, r.handle) else ""
  }

  /** The first resolvable record decides the directory; the name is the last non-empty one
      up to there. */
  function FirstResolved(rs: seq<Info>, name: seq<Byte>, open: Opener): (string, seq<Byte>) {
    if rs == [] then ("", [])
    else
      var name' := if rs[0].name != [] then rs[0].name else name;
      if DirOf(rs[0], open) != "" then (DirOf(rs[0], open), name') else FirstResolved(rs[1..], name', open)
  }

  lemma {:induction false} NameEndAt(data: seq<Byte>, from: nat, to: nat, end: nat)
    requires from <= end <= to <= |data| && 0 !in data[from..end] && (end < to ==> data[end] == 0)
    ensures NameEnd(data, from, to) == end
    decreases end - from
  {
    if from < end {
      assert data[from] == data[from..end][0];
      assert data[from + 1..end] == data[from..end][1..];
      NameEndAt(data, from + 1, to, end);
    }
  }

  lemma HeaderFields(r: Info)
    requires ValidInfo(r)
    ensures var s := Header(r);
      s[0] == r.kind && U16(s, 2) == Size(r) && U32(s, 12) == |r.handle| && U32(s, 16) == r.handleType
  {
    var s := Header(r);
    assert s[2..4] == Bytes16(Size(r));
    assert s[12..16] == Bytes32(|r.handle|);
    assert s[16..20] == Bytes32(r.handleType);
    assert U32(s, 12) == U32(s[12..16], 0) && U32(s, 16) == U32(s[16..20], 0) && U16(s, 2) == U16(s[2..4], 0);
  }

  lemma EncodedFields(r: Info)
    requires ValidInfo(r)
    ensures var s, h := Encode(r), 20 + |r.handle|;
      && s[0] == r.kind && U16(s, 2) == Size(r) && U32(s, 12) == |r.handle| && U32(s, 16) == r.handleType
      && s[20..h] == r.handle && s[h..h + |r.name|] == r.name
      && (r.pad > 0 ==> s[h + |r.name|] == 0)
  {
    var s, h, tail := Encode(r), 20 + |r.handle|, r.name + NulBytes(r.pad);
    HeaderFields(r);
    assert s[..20] == Header(r) && s[20..h] == r.handle && s[h..] == tail;
    assert tail[..|r.name|] == r.name;
    assert s[h..h + |r.name|] == s[h..][..|r.name|];
  }

  /** `r` is encoded in `data` from `off` on. */
  predicate LiesAt(data: seq<Byte>, off: nat, r: Info)
    requires ValidInfo(r)
  {
    off + Size(r) <= |data| && data[off..off + Size(r)] == Encode(r)
  }

  /** Every part of `r` stands in `data` where the walk looks for it. */
  predicate Holds(data: seq<Byte>, off: nat, r: Info) {
    var h := 20 + |r.handle|;
    && off + Size(r) <= |data|
    && data[off] == r.kind && U16(data, off + 2) == Size(r)
    && U32(data, off + 12) == |r.handle| && U32(data, off + 16) == r.handleType
    && data[off + 20..off + h] == r.handle
    && data[off + h..off + h + |r.name|] == r.name
    && (r.pad > 0 ==> data[off + h + |r.name|] == 0)
  }

  lemma SliceOfSlice(data: seq<Byte>, from: nat, to: nat, a: nat, b: nat)
    requires from <= to <= |data| && a <= b <= to - from
    ensures data[from..to][a..b] == data[from + a..from + b]
  {
    var x := data[from..to][a..b];
    assert forall j | 0 <= j < |x| :: x[j] == data[from + a + j];
    assert x == data[from + a..from + b];
  }

  lemma EncodedHolds(data: seq<Byte>, off: nat, r: Info)
    requires ValidInfo(r) && LiesAt(data, off, r)
    ensures Holds(data, off, r)
  {
    var s, h := data[off..off + Size(r)], 20 + |r.handle|;
    EncodedFields(r);
    assert forall j | 0 <= j < |s| :: data[off + j] == s[j];
    SliceOfSlice(data, off, off + Size(r), 20, h);
    SliceOfSlice(data, off, off + Size(r), h, h + |r.name|);
  }

  lemma NameHeld(data: seq<Byte>, off: nat, r: Info, known: seq<Byte>)
    requires ValidInfo(r) && Holds(data, off, r)
    ensures NameFrom(data, off + 20 + |r.handle|, off + Size(r), known) == if r.name != [] then r.name else known
  {
    var from := off + 20 + |r.handle|;
    assert from + |r.name| < off + Size(r) ==> r.pad > 0;
    NameEndAt(data, from, off + Size(r), from + |r.name|);
  }

  lemma VisitHeld(data: seq<Byte>, off: nat, r: Info, name: seq<Byte>, open: Opener)
    requires ValidInfo(r) && Holds(data, off, r)
    ensures Visit(data, off, Size(r), name, open) == (DirOf(r, open), if r.name != [] then r.name else name)
  {
    NameHeld(data, off, r, name);
  }

  lemma ScanPast(data: seq<Byte>, off: nat, len: nat, dir: string, name: seq<Byte>, name': seq<Byte>, open: Opener)
    requires off + 4 <= |data| && len == U16(data, off + 2) && 0 < len <= |data| - off
    requires Visit(data, off, len, name, open) == (dir, name')
    ensures Scan(data, off, name, open) == if dir != "" then (dir, name') else Scan(data, off + len, name', open)
  {
  }

  /** Too short for a record, or its length is nothing or runs past the end. */
  predicate BrokenInfo(rest: seq<Byte>) {
    |rest| < 4 || U16(rest, 2) == 0 || U16(rest, 2) > |rest|
  }

  lemma ScanEnds(data: seq<Byte>, off: nat, name: seq<Byte>, open: Opener)
    requires off <= |data| && BrokenInfo(data[off..])
    ensures Scan(data, off, name, open) == ("", [])
  {
    var rest := data[off..];
    assert forall j | 0 <= j < |rest| :: data[off + j] == rest[j];
    assert |rest| >= 4 ==> U16(data, off + 2) == U16(rest, 2);
  }

  /** The records stand in `data` from `off` on, and no further one after them. */
  predicate AllHold(data: seq<Byte>, off: nat, rs: seq<Info>)
    decreases |rs|
  {
    if rs == [] then off <= |data| && BrokenInfo(data[off..])
    else ValidInfo(rs[0]) && Holds(data, off, rs[0]) && AllHold(data, off + Size(rs[0]), rs[1..])
  }

  lemma {:induction false} EncodedAllHold(data: seq<Byte>, off: nat, rs: seq<Info>, rest: seq<Byte>)
    requires AllValid(rs) && Lies(data, off, Encodings(rs), rest) && BrokenInfo(rest)
    ensures AllHold(data, off, rs)
    decreases |rs|
  {
    if rs != [] {
      assert Encodings(rs)[0] == Encode(rs[0]) && Encodings(rs)[1..] == Encodings(rs[1..]);
      EncodedHolds(data, off, rs[0]);
      EncodedAllHold(data, off + Size(rs[0]), rs[1..], rest);
    }
  }

  lemma {:induction false} ScanHeld(data: seq<Byte>, off: nat, rs: seq<Info>, name: seq<Byte>, open: Opener)
    requires AllHold(data, off, rs)
    ensures Scan(data, off, name, open) == FirstResolved(rs, name, open)
    decreases |rs|
  {
    if rs == [] {
      ScanEnds(data, off, name, open);
    } else {
      var r, name' := rs[0], if rs[0].name != [] then rs[0].name else name;
      VisitHeld(data, off, r, name, open);
      ScanPast(data, off, Size(r), DirOf(r, open), name, name', open);
      ScanHeld(data, off + Size(r), rs[1..], name', open);
    }
  }

  /** Record `j` is the first that resolves. */
  predicate IsFirst(rs: seq<Info>, j: nat, open: Opener) {
    && j < |rs| && DirOf(rs[j], open) != ""
    && forall i | 0 <= i < j :: DirOf(rs[i], open) == ""
  }

  /** `found` is the last name among the records up to `j`, or `name` if they have none. */
  predicate IsLastName(rs: seq<Info>, j: nat, name: seq<Byte>, found: seq<Byte>)
    requires j < |rs|
  {
    || (exists i | 0 <= i <= j :: found == rs[i].name && rs[i].name != [] && NoNames(rs, i + 1, j))
    || (found == name && NoNames(rs, 0, j))
  }

  predicate NoNames(rs: seq<Info>, from: nat, j: nat)
    requires j < |rs|
  {
    forall i | from <= i <= j :: rs[i].name == []
  }

  lemma NamesOn(rs: seq<Info>, j: nat, name: seq<Byte>, found: seq<Byte>)
    requires 0 < j < |rs| && IsLastName(rs[1..], j - 1, if rs[0].name != [] then rs[0].name else name, found)
    ensures IsLastName(rs, j, name, found)
  {
    assert forall i | 1 <= i <= j :: rs[i] == rs[1..][i - 1];
    if i :| 0 <= i <= j - 1 && found == rs[1..][i].name && rs[1..][i].name != [] && NoNames(rs[1..], i + 1, j - 1) {
      forall l | i + 2 <= l <= j ensures rs[l].name == [] { assert rs[1..][l - 1].name == []; }
      assert NoNames(rs, i + 2, j) && found == rs[i + 1].name;
    } else {
      forall l | 1 <= l <= j ensures rs[l].name == [] { assert rs[1..][l - 1].name == []; }
      assert NoNames(rs, 1, j);
    }
  }

  lemma {:induction false} FirstDecides(rs: seq<Info>, name: seq<Byte>, j: nat, open: Opener)
    requires IsFirst(rs, j, open)
    ensures var (dir, found) := FirstResolved(rs, name, open);
      dir == DirOf(rs[j], open) && IsLastName(rs, j, name, found)
    decreases j
  {
    var name' := if rs[0].name != [] then rs[0].name else name;
    if j == 0 {
      assert NoNames(rs, 1, 0);
    } else {
      assert forall i | 0 <= i < j - 1 :: rs[1..][i] == rs[i + 1];
      FirstDecides(rs[1..], name', j - 1, open);
      NamesOn(rs, j, name, FirstResolved(rs, name, open).1);
    }
  }

  /** On well-formed info records, whatever follows the last of them, the walk returns the
      first resolvable record's directory, and the last name among the records up to that
      one, if they have any; if none resolves it returns nothing. */
  lemma ResolvesFirst(meta: seq<Byte>, rs: seq<Info>, rest: seq<Byte>, j: nat, open: Opener)
    requires AllValid(rs) && BrokenInfo(rest)
    ensures IsFirst(rs, j, open) ==> Decided(Scan(meta + (Flatten(Encodings(rs)) + rest), |meta|, [], open), rs, j,
        open)
    ensures NoneResolve(rs, open) ==> Scan(meta + (Flatten(Encodings(rs)) + rest), |meta|, [], open) == ("", [])
  {
    ScanEncoded(meta, rs, rest, open);
    if IsFirst(rs, j, open) {
      FirstDecides(rs, [], j, open);
    }
    if NoneResolve(rs, open) {
      NoneFound(rs, [], open);
    }
  }

  lemma ScanEncoded(meta: seq<Byte>, rs: seq<Info>, rest: seq<Byte>, open: Opener)
    requires AllValid(rs) && BrokenInfo(rest)
    ensures Scan(meta + (Flatten(Encodings(rs)) + rest), |meta|, [], open) == FirstResolved(rs, [], open)
  {
    FlattenLies(meta, Encodings(rs), rest);
    EncodedAllHold(meta + (Flatten(Encodings(rs)) + rest), |meta|, rs, rest);
    ScanHeld(meta + (Flatten(Encodings(rs)) + rest), |meta|, rs, [], open);
  }

  /** The outcome is the directory of record `j`, with the last name up to there. */
  predicate Decided(found: (string, seq<Byte>), rs: seq<Info>, j: nat, open: Opener)
    requires j < |rs|
  {
    found.0 == DirOf(rs[j], open) && IsLastName(rs, j, [], found.1)
  }

  predicate NoneResolve(rs: seq<Info>, open: Opener) { forall i | 0 <= i < |rs| :: DirOf(rs[i], open) == "" }

  lemma {:induction false} NoneFound(rs: seq<Info>, name: seq<Byte>, open: Opener)
    requires NoneResolve(rs, open)
    ensures FirstResolved(rs, name, open) == ("", [])
    decreases |rs|
  {
    if rs != [] {
      NoneFound(rs[1..], if rs[0].name != [] then rs[0].name else name, open);
    }
  }
}
