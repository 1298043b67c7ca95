// Time-ordered identifiers (UUID version 7, section 5.7 of RFC 9562), as the application builds
// them from an integer and as the database builds them from bytes.

module Ids {
  type Uuid = bv128

  // ------------------------------------------------------------------ the application's bit formula

  /** `new_id`: 48 bits of Unix milliseconds, the version, 12 random bits, the variant, 62 random
      bits. `rand` is the 80-bit number read from the random source. */
  function NewId(unixMs: bv128, rand: bv128): Uuid {
    ((unixMs & 0xFFFF_FFFF_FFFF) << 80)
    | (0x7 << 76)
    | (((rand >> 62) & 0xFFF) << 64)
    | (0x2 << 62)
    | (rand & 0x3FFF_FFFF_FFFF_FFFF)
  }

  function Timestamp(id: Uuid): bv128 { id >> 80 }
  function Version(id: Uuid): bv128 { (id >> 76) & 0xF }
  function Variant(id: Uuid): bv128 { (id >> 62) & 0x3 }
  function RandA(id: Uuid): bv128 { (id >> 64) & 0xFFF }
  function RandB(id: Uuid): bv128 { id & 0x3FFF_FFFF_FFFF_FFFF }

  const MS_LIMIT: bv128 := 0x1_0000_0000_0000

  /** Every field can be read back: the low 48 bits of the time, version 7, variant 10, and the low
      74 bits of the random number. */
  lemma NewIdFields(unixMs: bv128, rand: bv128)
    ensures var id := NewId(unixMs, rand);
      && Timestamp(id) == unixMs & 0xFFFF_FFFF_FFFF
      && (unixMs < MS_LIMIT ==> Timestamp(id) == unixMs)
      && Version(id) == 7 && Variant(id) == 2
      && (RandA(id) << 62) | RandB(id) == rand & 0x3FF_FFFF_FFFF_FFFF_FFFF
  {
  }

  /** Identifiers with different times are ordered as their times, whatever the random bits. */
  lemma TimeOrdersIds(a: Uuid, b: Uuid)
    requires Timestamp(a) < Timestamp(b)
    ensures a < b
  {
  }

  lemma LaterIsLarger(early: bv128, late: bv128, randEarly: bv128, randLate: bv128)
    requires early < late < MS_LIMIT
    ensures NewId(early, randEarly) < NewId(late, randLate)
  {
    NewIdFields(early, randEarly);
    NewIdFields(late, randLate);
    TimeOrdersIds(NewId(early, randEarly), NewId(late, randLate));
  }

  // ------------------------------------------------------------------ the database's byte edits

  /** `get_byte(b, i)` of a sixteen-byte string, byte 0 being the most significant. */
  function GetByte(b: Uuid, i: bv8): bv128
    requires i < 16
  {
    (b >> (8 * (15 - i))) & 0xFF
  }

  /** `set_byte(b, i, v)` */
  function SetByte(b: Uuid, i: bv8, v: bv128): Uuid
    requires i < 16
  {
    (b & !(0xFF << (8 * (15 - i)))) | ((v & 0xFF) << (8 * (15 - i)))
  }

  /** `overlay(b PLACING s FROM 1 FOR 6)`, s being the last six bytes of a 64-bit big-endian time. */
  function OverlayTime(b: Uuid, unixMs: bv128): Uuid {
    (b & 0xFFFF_FFFF_FFFF_FFFF_FFFF) | ((unixMs & 0xFFFF_FFFF_FFFF) << 80)
  }

  /** `uuid_v7_at`: a random identifier with the time placed over its first six bytes and version 7
      in its seventh; the version nibble is set on the random identifier's own seventh byte. */
  function UuidV7At(unixMs: bv128, random: Uuid): Uuid {
    SetByte(OverlayTime(random, unixMs), 6, (GetByte(random, 6) & 15) | 112)
  }

  /** The database's identifier has the application's fields: the same timestamp and version. Its
      variant and every bit below the version are those of the random identifier it was cut from. */
  lemma UuidV7AtFields(unixMs: bv128, random: Uuid)
    ensures var id := UuidV7At(unixMs, random);
      && Timestamp(id) == unixMs & 0xFFFF_FFFF_FFFF
      && Version(id) == 7
      && Variant(id) == Variant(random)
      && RandA(id) == RandA(random) && RandB(id) == RandB(random)
  {
  }

  lemma SameFields(unixMs: bv128, random: Uuid, rand: bv128)
    ensures Timestamp(UuidV7At(unixMs, random)) == Timestamp(NewId(unixMs, rand))
    ensures Version(UuidV7At(unixMs, random)) == Version(NewId(unixMs, rand))
  {
    UuidV7AtFields(unixMs, random);
    NewIdFields(unixMs, rand);
  }

  /** Turns copied to distinct milliseconds sort by identifier as they do by time. */
  lemma UuidV7AtOrder(early: bv128, late: bv128, randomEarly: Uuid, randomLate: Uuid)
    requires early < late < MS_LIMIT
    ensures UuidV7At(early, randomEarly) < UuidV7At(late, randomLate)
  {
    UuidV7AtFields(early, randomEarly);
    UuidV7AtFields(late, randomLate);
  }
}
