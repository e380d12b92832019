/** The 64-byte slot table record. The checksum is a parameter: any function of the body. */
module RecordCodec {
  import opened Types
  import RestoreBulk
  import Wheel

  const REC_BYTES: nat := 64
  const MAGIC: nat := 0x334C_5453
  const U32: nat := 0x1_0000_0000

  datatype Record = Record(key: BlockKey, size: nat, len: nat, valid: bool, until: nat, ttl: nat)

  /** Every field fits its width. */
  predicate InRange(r: Record) {
    && r.key.digestHi < U32 * U32 && r.key.digestLo < U32 * U32 && r.key.tenant < U32 * U32
    && r.size < U32 && r.len < U32 && r.until < U32 && r.ttl < U32
  }

  // ------------------------------------------------------------ numbers

  function Put32(x: nat): (b: seq<Byte>)
    requires x < U32
    ensures |b| == 4
  {
    [x % 256, x / 256 % 256, x / 65536 % 256, x / 16777216]
  }

  function Get32(b: seq<Byte>, at: nat): (x: nat)
    requires at + 4 <= |b|
    ensures x < U32
  {
    var x0: int, x1: int, x2: int, x3: int := b[at], b[at + 1], b[at + 2], b[at + 3];
    x0 + 256 * x1 + 65536 * x2 + 16777216 * x3
  }

  function Put64(x: nat): (b: seq<Byte>)
    requires x < U32 * U32
    ensures |b| == 8
  {
    Put32(x % U32) + Put32(x / U32)
  }

  function Get64(b: seq<Byte>, at: nat): nat
    requires at + 8 <= |b|
  {
    Get32(b, at) + U32 * Get32(b, at + 4)
  }

  lemma {:induction false} Get32Put32(b: seq<Byte>, at: nat, x: nat)
    requires x < U32 && at + 4 <= |b| && b[at..at + 4] == Put32(x)
    ensures Get32(b, at) == x
  {
    var s := b[at..at + 4];
    assert b[at] == s[0] && b[at + 1] == s[1] && b[at + 2] == s[2] && b[at + 3] == s[3];
  }

  lemma {:induction false} Get64Put64(b: seq<Byte>, at: nat, x: nat)
    requires x < U32 * U32 && at + 8 <= |b| && b[at..at + 8] == Put64(x)
    ensures Get64(b, at) == x
  {
    assert b[at..at + 4] == b[at..at + 8][..4] && b[at + 4..at + 8] == b[at..at + 8][4..];
    Get32Put32(b, at, x % U32);
    Get32Put32(b, at + 4, x / U32);
  }

  // ------------------------------------------------------------ records

  function Zeros(n: nat): (b: seq<Byte>)
    ensures |b| == n
  {
    seq(n, i => 0)
  }

  /** Bytes 8 to 63: what the checksum covers. */
  function Body(r: Record): (b: seq<Byte>)
    requires InRange(r)
    ensures |b| == 56
  {
    [if r.valid then 1 else 0] + Zeros(3) + Put32(r.size) + Put64(r.key.digestHi) + Put64(r.key.digestLo)
    + Put32(r.len) + Put64(r.key.tenant) + Put32(r.until) + Put32(r.ttl) + Zeros(12)
  }

  function Encode(r: Record, crc: seq<Byte> -> nat): (b: seq<Byte>)
    requires InRange(r) && crc(Body(r)) < U32
    ensures |b| == REC_BYTES
  {
    Put32(MAGIC) + Put32(crc(Body(r))) + Body(r)
  }

  /** What one record contributes to a rebuild. */
  datatype Outcome = Nothing | Rejected | Restored(entry: RestoreBulk.RestoreEntry)

  /** Slot sizes are multiples of the granularity, fit the extent and hold their value, and the
      position lies inside the extent. */
  predicate GeometryOk(size: nat, len: nat, slot: nat, granularity: nat, extentBytes: nat)
    requires granularity > 0
  {
    size >= granularity && size % granularity == 0 && size <= extentBytes && len <= size && slot < extentBytes / size
  }

  function Parse(b: seq<Byte>, crc: seq<Byte> -> nat, at: Place, granularity: nat, extentBytes: nat): Outcome
    requires |b| == REC_BYTES && granularity > 0
  {
    var magic := Get32(b, 0);
    if magic != MAGIC then (if magic != 0 then Rejected else Nothing)
    else if crc(b[8..]) != Get32(b, 4) then Rejected
    else if b[8] != 1 then Nothing
    else if !GeometryOk(Get32(b, 12), Get32(b, 32), at.slot, granularity, extentBytes) then Rejected
    else
      var key := BlockKey(Get64(b, 16), Get64(b, 24), Get64(b, 36));
      Restored(RestoreBulk.RestoreEntry(key, Get32(b, 12), at.extent, at.slot, Get32(b, 32), Get32(b, 44),
                                        Get32(b, 48)))
  }

  lemma {:induction false} BodyFields(r: Record, b: seq<Byte>)
    requires InRange(r) && |b| == REC_BYTES && b[8..] == Body(r)
    ensures b[8] == if r.valid then 1 else 0
    ensures b[12..16] == Put32(r.size) && b[16..24] == Put64(r.key.digestHi) && b[24..32] == Put64(r.key.digestLo)
    ensures b[32..36] == Put32(r.len) && b[36..44] == Put64(r.key.tenant) && b[44..48] == Put32(r.until)
      && b[48..52] == Put32(r.ttl)
  {
    var body := Body(r);
    assert b[8] == body[0];
    assert b[12..16] == body[4..8];
    assert b[16..24] == body[8..16];
    assert b[24..32] == body[16..24];
    assert b[32..36] == body[24..28];
    assert b[36..44] == body[28..36];
    assert b[44..48] == body[36..40];
    assert b[48..52] == body[40..44];
  }

  /** A written record is read back field by field: restored if it is valid and its geometry
      fits, skipped if it was invalidated, rejected if it does not fit the store any more. */
  lemma {:induction false} RoundTrip(r: Record, crc: seq<Byte> -> nat, at: Place, granularity: nat, extentBytes: nat)
    requires InRange(r) && crc(Body(r)) < U32 && granularity > 0
    ensures Parse(Encode(r, crc), crc, at, granularity, extentBytes) ==
      if !r.valid then Nothing
      else if !GeometryOk(r.size, r.len, at.slot, granularity, extentBytes) then Rejected
      else Restored(RestoreBulk.RestoreEntry(r.key, r.size, at.extent, at.slot, r.len, r.until, r.ttl))
  {
    var b := Encode(r, crc);
    assert b[0..4] == Put32(MAGIC) && b[4..8] == Put32(crc(Body(r))) && b[8..] == Body(r);
    Get32Put32(b, 0, MAGIC);
    Get32Put32(b, 4, crc(Body(r)));
    BodyFields(r, b);
    Get32Put32(b, 12, r.size);
    Get64Put64(b, 16, r.key.digestHi);
    Get64Put64(b, 24, r.key.digestLo);
    Get32Put32(b, 32, r.len);
    Get64Put64(b, 36, r.key.tenant);
    Get32Put32(b, 44, r.until);
    Get32Put32(b, 48, r.ttl);
  }

  lemma {:induction false} Put32Get32(b: seq<Byte>, at: nat)
    requires at + 4 <= |b|
    ensures Put32(Get32(b, at)) == b[at..at + 4]
  {
    var x0: int, x1: int, x2: int, x3: int := b[at], b[at + 1], b[at + 2], b[at + 3];
    var x := Get32(b, at);
    assert x % 256 == x0 && x / 256 == x1 + 256 * x2 + 65536 * x3;
    assert x / 65536 == x2 + 256 * x3 && x / 16777216 == x3;
  }

  lemma {:induction false} Halves(lo: nat, hi: nat)
    requires lo < U32 && hi < U32
    ensures var x := lo + U32 * hi; x < U32 * U32 && x % U32 == lo && x / U32 == hi
  {
  }

  lemma {:induction false} Put64Get64(b: seq<Byte>, at: nat)
    requires at + 8 <= |b|
    ensures Get64(b, at) < U32 * U32 && Put64(Get64(b, at)) == b[at..at + 8]
  {
    Halves(Get32(b, at), Get32(b, at + 4));
    Put32Get32(b, at);
    Put32Get32(b, at + 4);
    assert b[at..at + 8] == b[at..at + 4] + b[at + 4..at + 8];
  }

  /** The bytes carry the magic, the checksum of their body, and the fields of `r`. */
  ghost predicate Carries(b: seq<Byte>, r: Record, crc: seq<Byte> -> nat)
    requires |b| == REC_BYTES && InRange(r)
  {
    && b[0..4] == Put32(MAGIC) && Get32(b, 4) == crc(b[8..]) && b[8] == (if r.valid then 1 else 0)
    && b[12..16] == Put32(r.size) && b[16..24] == Put64(r.key.digestHi) && b[24..32] == Put64(r.key.digestLo)
    && b[32..36] == Put32(r.len) && b[36..44] == Put64(r.key.tenant) && b[44..48] == Put32(r.until)
    && b[48..52] == Put32(r.ttl)
  }

  /** Whatever the bytes are, an entry is restored only from a valid record, with the right
      checksum over its body, that fits its position; the entry is that record, field by field. */
  lemma {:induction false} OnlyIntactIsRestored(b: seq<Byte>, crc: seq<Byte> -> nat, at: Place, granularity: nat,
                                                extentBytes: nat) returns (r: Record)
    requires |b| == REC_BYTES && granularity > 0 && Parse(b, crc, at, granularity, extentBytes).Restored?
    ensures InRange(r) && r.valid && Carries(b, r, crc) && GeometryOk(r.size, r.len, at.slot, granularity, extentBytes)
    ensures Parse(b, crc, at, granularity, extentBytes)
      == Restored(RestoreBulk.RestoreEntry(r.key, r.size, at.extent, at.slot, r.len, r.until, r.ttl))
  {
    r := Record(BlockKey(Get64(b, 16), Get64(b, 24), Get64(b, 36)), Get32(b, 12), Get32(b, 32), true, Get32(b, 44),
                Get32(b, 48));
    Put32Get32(b, 0);
    Put32Get32(b, 12);
    Put64Get64(b, 16);
    Put64Get64(b, 24);
    Put32Get32(b, 32);
    Put64Get64(b, 36);
    Put32Get32(b, 44);
    Put32Get32(b, 48);
  }

  /** A record that reads as zeros, cleared or never written, contributes nothing. */
  lemma {:induction false} ZerosAreNothing(crc: seq<Byte> -> nat, at: Place, granularity: nat, extentBytes: nat)
    requires granularity > 0
    ensures Parse(Zeros(REC_BYTES), crc, at, granularity, extentBytes) == Nothing
  {
  }

  // ------------------------------------------------------------ positions

  /** The record of a slot, counted from the start of the table. */
  function IndexOf(at: Place, maxSlots: nat): nat {
    at.extent * maxSlots + at.slot
  }

  function PlaceAt(i: nat, maxSlots: nat): Place
    requires maxSlots > 0
  {
    Place(i / maxSlots, i % maxSlots)
  }

  /** Positions and records correspond one to one. */
  lemma {:induction false} PositionRoundTrip(at: Place, i: nat, maxSlots: nat)
    requires maxSlots > 0
    ensures at.slot < maxSlots ==> PlaceAt(IndexOf(at, maxSlots), maxSlots) == at
    ensures IndexOf(PlaceAt(i, maxSlots), maxSlots) == i && PlaceAt(i, maxSlots).slot < maxSlots
  {
    if at.slot < maxSlots {
      var x := IndexOf(at, maxSlots);
      Wheel.ModUnique(x, at.extent, at.slot, maxSlots);
      assert x == (x / maxSlots) * maxSlots + x % maxSlots;
      SameMultiple(x / maxSlots, at.extent, maxSlots);
    }
    assert i == (i / maxSlots) * maxSlots + i % maxSlots;
  }

  lemma {:induction false} SameMultiple(p: nat, q: nat, n: nat)
    requires n > 0 && p * n == q * n
    ensures p == q
  {
    if p < q { Wheel.SizeClasses.MulGap(p, q, n); }
    if q < p { Wheel.SizeClasses.MulGap(q, p, n); }
  }
}
