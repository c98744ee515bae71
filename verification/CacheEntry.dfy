/** The frame around a cached payload: a header naming what it is, and a checksum
    over everything before it (crates/e5r-analysis/src/cache.rs). */
module CacheEntry {
  import opened Ordered
  import opened Wire

  datatype Part = Functions | Xrefs | Strings

  function PartCode(p: Part): Byte {
    match p case Functions => 1 case Xrefs => 2 case Strings => 3
  }

  type Key = k: Bytes | |k| == 16 witness seq(16, i => 0)

  type Word64 = x: nat | x < 0x1_0000_0000_0000_0000

  const FORMAT_VERSION := 1
  const HEADER_LEN := 8 + 4 + 1 + 16 + 8

  /** "E5RCACHE" */
  function Magic(): (m: Bytes)
    ensures |m| == 8
  {
    [0x45, 0x35, 0x52, 0x43, 0x41, 0x43, 0x48, 0x45]
  }

  datatype Lookup = Hit(payload: Bytes) | Miss | Corrupt

  /** The header and the payload, which the checksum covers. */
  function Body(part: Part, key: Key, payload: Bytes): (b: Bytes)
    ensures |b| == HEADER_LEN + |payload|
  {
    Magic() + Le(FORMAT_VERSION, 4) + [PartCode(part)] + key + Le(|payload|, 8) + payload
  }

  function EntryBytes(part: Part, key: Key, payload: Bytes, hash: Bytes -> Word64): (b: Bytes)
    ensures |b| == HEADER_LEN + |payload| + 8
  {
    Body(part, key, payload) + Le(hash(Body(part, key, payload)), 8)
  }

  /** Build the file for one entry. `hash` is any deterministic function. */
  method Put(part: Part, key: Key, payload: Bytes, hash: Bytes -> Word64) returns (buf: Bytes)
    ensures buf == EntryBytes(part, key, payload, hash)
  {
    buf := Magic();
    buf := buf + Le(FORMAT_VERSION, 4);
    buf := buf + [PartCode(part)];
    buf := buf + key;
    buf := buf + Le(|payload|, 8);
    buf := buf + payload;
    var sum := hash(buf);
    buf := buf + Le(sum, 8);
  }

  /** Check a file's header and checksum and hand back its payload. A file for
      another key or version is a miss; one that claims to be this entry and is
      not intact is corrupt. */
  function DecodeEntry(bytes: Bytes, part: Part, key: Key, hash: Bytes -> Word64): Lookup {
    if |bytes| < HEADER_LEN + 8 then Corrupt
    else if bytes[..8] != Magic() then Corrupt
    else if FromLe(bytes[8..12]) != FORMAT_VERSION then Miss
    else if bytes[12] != PartCode(part) then Miss
    else if bytes[13..29] != key then Miss
    else
      var len := FromLe(bytes[29..37]);
      if HEADER_LEN + len >= 0x1_0000_0000_0000_0000 then Corrupt
      else
        var end := HEADER_LEN + len;
        if |bytes| != end + 8 then Corrupt
        else if FromLe(bytes[end..end + 8]) != hash(bytes[..end]) then Corrupt
        else Hit(bytes[HEADER_LEN..end])
  }

  /** Pieces of a frame's widths, put end to end, lie where the header says. */
  lemma Slices(magic: Bytes, version: Bytes, part: Bytes, key: Bytes, len: Bytes, payload: Bytes, sum: Bytes)
    requires |magic| == 8 && |version| == 4 && |part| == 1 && |key| == 16 && |len| == 8 && |sum| == 8
    ensures var b, end := magic + version + part + key + len + payload + sum, 37 + |payload|;
      b[..8] == magic && b[8..12] == version && b[12..13] == part && b[13..29] == key && b[29..37] == len &&
      b[37..end] == payload && b[..end] == magic + version + part + key + len + payload && b[end..end + 8] == sum
  {
  }

  /** Where each field of a written entry lies. */
  lemma Fields(part: Part, key: Key, payload: Bytes, hash: Bytes -> Word64)
    ensures var b, end := EntryBytes(part, key, payload, hash), HEADER_LEN + |payload|;
      b[..8] == Magic() && b[8..12] == Le(FORMAT_VERSION, 4) && b[12] == PartCode(part) && b[13..29] == key &&
      b[29..37] == Le(|payload|, 8) && b[HEADER_LEN..end] == payload && b[..end] == Body(part, key, payload) &&
      b[end..end + 8] == Le(hash(Body(part, key, payload)), 8)
  {
    var b := EntryBytes(part, key, payload, hash);
    Slices(Magic(), Le(FORMAT_VERSION, 4), [PartCode(part)], key, Le(|payload|, 8), payload, Le(hash(Body(part, key, payload)), 8));
    assert b[12] == b[12..13][0];
  }

  lemma NumbersBack(v: nat, version: nat)
    requires v < 0x1_0000_0000_0000_0000 && version < 0x1_0000_0000
    ensures FromLe(Le(v, 8)) == v && FromLe(Le(version, 4)) == version
  {
    Rooms();
    FromToLe(v, 8);
    FromToLe(version, 4);
  }

  /** What was stored under a key is found under that key, and is a miss under
      any other key or part. */
  lemma FoundUnderItsKeyOnly(part: Part, key: Key, payload: Bytes, asked: Part, under: Key, hash: Bytes -> Word64)
    requires HEADER_LEN + |payload| < 0x1_0000_0000_0000_0000
    ensures DecodeEntry(EntryBytes(part, key, payload, hash), asked, under, hash) ==
      if asked == part && under == key then Hit(payload) else Miss
  {
    Fields(part, key, payload, hash);
    NumbersBack(|payload|, FORMAT_VERSION);
    NumbersBack(hash(Body(part, key, payload)), FORMAT_VERSION);
  }

  /** A stretch of a file is the number it spells, written out. */
  lemma Spelled(b: Bytes, v: nat)
    requires FromLe(b) == v
    ensures b == Le(v, |b|)
  {
    ToFromLe(b);
  }

  /** A file is a hit exactly when it is, byte for byte, what storing that
      payload under that key writes. */
  lemma HitIff(bytes: Bytes, part: Part, key: Key, payload: Bytes, hash: Bytes -> Word64)
    ensures DecodeEntry(bytes, part, key, hash) == Hit(payload) <==>
      HEADER_LEN + |payload| < 0x1_0000_0000_0000_0000 && bytes == EntryBytes(part, key, payload, hash)
  {
    if DecodeEntry(bytes, part, key, hash) == Hit(payload) {
      var end := HEADER_LEN + |payload|;
      Spelled(bytes[8..12], FORMAT_VERSION);
      Spelled(bytes[29..37], |payload|);
      Pieces(bytes, end);
      assert bytes[..end] == Body(part, key, payload);
      Spelled(bytes[end..end + 8], hash(Body(part, key, payload)));
    } else if HEADER_LEN + |payload| < 0x1_0000_0000_0000_0000 {
      FoundUnderItsKeyOnly(part, key, payload, part, key, hash);
    }
  }

  lemma Pieces(b: Bytes, end: nat)
    requires 37 <= end && |b| == end + 8
    ensures b == b[..end] + b[end..end + 8]
    ensures b[..end] == b[..8] + b[8..12] + [b[12]] + b[13..29] + b[29..37] + b[37..end]
  {
  }
}
