/** Short ids made from UUIDs (heat/common/short_id.py). */
module ShortIds {
  import opened Wrappers

  // ---- Shifts of unbounded integers ----

  /** value >> n. */
  function ShiftRight(value: nat, n: nat): nat {
    if n == 0 then value else ShiftRight(value / 2, n - 1)
  }

  /** value << n. */
  function ShiftLeft(value: nat, n: nat): nat
    decreases n
  {
    if n == 0 then value else ShiftLeft(2 * value, n - 1)
  }

  /** value >> off, or value << -off below zero. */
  function Shift(value: nat, off: int): nat {
    if off >= 0 then ShiftRight(value, off) else ShiftLeft(value, -off)
  }

  lemma {:induction false} ShiftRightTwice(value: nat, a: nat, b: nat)
    ensures ShiftRight(ShiftRight(value, a), b) == ShiftRight(value, a + b)
  {
    if a > 0 {
      ShiftRightTwice(value / 2, a - 1, b);
    }
  }

  lemma {:induction false} ShiftLeftTwice(value: nat, a: nat, b: nat)
    ensures ShiftLeft(ShiftLeft(value, a), b) == ShiftLeft(value, a + b)
    decreases a
  {
    if a > 0 {
      ShiftLeftTwice(2 * value, a - 1, b);
    }
  }

  /** The last bit shifted in on the left is the first to go on the right. */
  lemma {:induction false} ShiftBack(value: nat, n: nat, d: nat)
    requires d >= n
    ensures ShiftRight(ShiftLeft(value, n), d) == ShiftRight(value, d - n)
  {
    if n > 0 {
      ShiftLeftTwice(value, n - 1, 1);
      assert ShiftLeft(ShiftLeft(value, n - 1), 1) == 2 * ShiftLeft(value, n - 1);
      ShiftBack(value, n - 1, d - 1);
    }
  }

  /** Shifting a shifted value on to the right. */
  lemma ShiftOn(value: nat, off: int, d: nat)
    requires off + d >= 0
    ensures ShiftRight(Shift(value, off), d) == Shift(value, off + d)
  {
    if off >= 0 {
      ShiftRightTwice(value, off, d);
    } else {
      ShiftBack(value, -off, d);
    }
  }

  /** The lowest d bits: what shifting right loses. */
  function Low(value: nat, d: nat): int {
    value - ShiftLeft(ShiftRight(value, d), d)
  }

  lemma ShiftRightFive(value: nat)
    ensures ShiftRight(value, 5) == value / 32
  {
    assert ShiftRight(value / 2 / 2 / 2, 2) == ShiftRight(value / 2 / 2 / 2 / 2, 1) == value / 2 / 2 / 2 / 2 / 2;
    assert ShiftRight(value, 5) == ShiftRight(value / 2, 4) == ShiftRight(value / 2 / 2, 3);
  }

  lemma ShiftRightThree(value: nat)
    ensures ShiftRight(value, 3) == value / 8
  {
    assert ShiftRight(value / 2 / 2, 1) == ShiftRight(value / 2 / 2 / 2, 0) == value / 2 / 2 / 2;
    assert ShiftRight(value, 3) == ShiftRight(value / 2, 2) == ShiftRight(value / 2 / 2, 1);
  }

  lemma ShiftLeftFive(value: nat)
    ensures ShiftLeft(value, 5) == 32 * value
  {
    assert ShiftLeft(8 * value, 2) == ShiftLeft(16 * value, 1) == ShiftLeft(32 * value, 0) == 32 * value;
    assert ShiftLeft(value, 5) == ShiftLeft(2 * value, 4) == ShiftLeft(4 * value, 3);
  }

  lemma ShiftLeftThree(value: nat)
    ensures ShiftLeft(value, 3) == 8 * value
  {
    assert ShiftLeft(4 * value, 1) == ShiftLeft(8 * value, 0) == 8 * value;
    assert ShiftLeft(value, 3) == ShiftLeft(2 * value, 2) == ShiftLeft(4 * value, 1);
  }

  /** For the two masks of the source, the lowest bits are remainders. */
  lemma LowIsMask(value: nat)
    ensures Low(value, 8) == value % 256 && Low(value, 5) == value % 32
  {
    ShiftRightFive(value);
    ShiftLeftFive(value / 32);
    ShiftRightTwice(value, 5, 3);
    ShiftRightThree(value / 32);
    assert value / 32 / 8 == value / 256;
    ShiftLeftTwice(value / 256, 5, 3);
    ShiftLeftFive(value / 256);
    ShiftLeftThree(32 * (value / 256));
  }

  /** The number that digits of d bits stand for, the first being the most significant. */
  function Number(digits: seq<nat>, d: nat): nat {
    if digits == [] then 0 else ShiftLeft(Number(digits[..|digits| - 1], d), d) + digits[|digits| - 1]
  }

  /** _to_byte_string: the bytes of a value of that many bits, zero bits being added at the end. */
  function ToByteString(value: nat, numBits: nat): seq<nat> {
    seq((numBits + 7) / 8, i requires 0 <= i < (numBits + 7) / 8 => Shift(value, numBits - 8 - 8 * i) % 256)
  }

  /** The number of bits that follow k groups of d. */
  function Below(numBits: int, d: nat, k: int): int {
    if d == 8 then numBits - 8 * k else numBits - 5 * k
  }

  /** Groups of 5 or 8 bits, from the most significant on, of a value of that many bits. */
  ghost predicate IsGroups(groups: seq<nat>, value: nat, numBits: int, d: nat) {
    (d == 5 || d == 8) && forall i :: 0 <= i < |groups| ==> groups[i] == Low(Shift(value, Below(numBits, d, i + 1)), d)
  }

  /** The first k groups stand for what is left of the value above the bits that follow them. */
  lemma {:induction false} GroupsAreValue(groups: seq<nat>, value: nat, numBits: nat, d: nat, k: nat)
    requires IsGroups(groups, value, numBits, d) && ShiftRight(value, numBits) == 0
    requires k <= |groups| && Below(numBits, d, k) + d > 0
    ensures Number(groups[..k], d) == Shift(value, Below(numBits, d, k))
  {
    if k > 0 {
      GroupsAreValue(groups, value, numBits, d, k - 1);
      assert groups[..k][..k - 1] == groups[..k - 1];
      ShiftOn(value, Below(numBits, d, k), d);
    }
  }

  lemma BytesAreGroups(value: nat, numBits: nat)
    ensures IsGroups(ToByteString(value, numBits), value, numBits, 8)
  {
    var bytes := ToByteString(value, numBits);
    forall i | 0 <= i < |bytes| ensures bytes[i] == Low(Shift(value, Below(numBits, 8, i + 1)), 8) {
      LowIsMask(Shift(value, numBits - 8 - 8 * i));
    }
  }

  /** The bytes stand for the value with the padding bits after it. */
  lemma BytesAreValue(value: nat, numBits: nat)
    requires ShiftRight(value, numBits) == 0
    ensures var bytes := ToByteString(value, numBits);
      Number(bytes, 8) == ShiftLeft(value, 8 * |bytes| - numBits)
  {
    var bytes := ToByteString(value, numBits);
    BytesAreGroups(value, numBits);
    GroupsAreValue(bytes, value, numBits, 8, |bytes|);
    assert bytes[..|bytes|] == bytes;
  }

  // ---- Base 32, section 6 of RFC 4648 ----

  const ALPHABET := "ABCDEFGHIJKLMNOPQRSTUVWXYZ234567"

  function Padded(bytes: seq<nat>): seq<nat> {
    bytes + seq((5 - |bytes| % 5) % 5, i => 0)
  }

  /** The 5-bit groups of the bytes, after zero bytes have been added to fill the last quantum of 40 bits. */
  function Base32Groups(bytes: seq<nat>): seq<nat> {
    var padded := Padded(bytes);
    var bits := 8 * |padded|;
    seq(bits / 5, k requires 0 <= k < bits / 5 => ShiftRight(Number(padded, 8), bits - 5 - 5 * k) % 32)
  }

  /** str.lower() of the letter for a group. */
  function Letter(group: nat): char
    requires group < 32
  {
    if group < 26 then (ALPHABET[group] as int + 32) as char else ALPHABET[group]
  }

  /** The inverse of the alphabet, in lower case. */
  function GroupOf(c: char): nat
    requires 'a' <= c <= 'z' || '2' <= c <= '7'
  {
    if 'a' <= c <= 'z' then c as int - 'a' as int else c as int - '2' as int + 26
  }

  lemma LetterIsLetter(group: nat)
    requires group < 32
    ensures ('a' <= Letter(group) <= 'z' || '2' <= Letter(group) <= '7') && GroupOf(Letter(group)) == group
  {
  }

  // ---- Short ids ----

  predicate Base32Text(s: string) {
    forall i :: 0 <= i < |s| ==> 'a' <= s[i] <= 'z' || '2' <= s[i] <= '7'
  }

  /** The id of a 60-bit time field: the first 12 characters of its base 32 text. */
  function ShortId(time: nat): (id: string)
    ensures |id| == 12
  {
    var groups := Base32Groups(ToByteString(time, 60));
    seq(12, k requires 0 <= k < 12 => Letter(groups[k]))
  }

  /** The value that an id stands for. */
  function Decode(id: string): nat
    requires Base32Text(id)
  {
    Number(seq(|id|, k requires 0 <= k < |id| => GroupOf(id[k])), 5)
  }

  /** 60-bit values. */
  const TIME_LIMIT := 0x1000_0000_0000_0000

  lemma Has60Bits(time: nat)
    requires time < TIME_LIMIT
    ensures ShiftRight(time, 60) == 0
  {
    Shift20(time);
    ShiftRightTwice(time, 20, 20);
    Shift20(time / 0x10_0000);
    ShiftRightTwice(time, 40, 20);
    Shift20(time / 0x100_0000_0000);
  }

  lemma Shift20(value: nat)
    ensures ShiftRight(value, 20) == value / 0x10_0000
  {
    ShiftRightFive(value);
    ShiftRightTwice(value, 5, 5);
    ShiftRightFive(value / 32);
    ShiftRightTwice(value, 10, 5);
    ShiftRightFive(value / 1024);
    ShiftRightTwice(value, 15, 5);
    ShiftRightFive(value / 32768);
  }

  lemma TwoZeroBytes(bytes: seq<nat>)
    ensures Number(bytes + [0, 0], 8) == ShiftLeft(Number(bytes, 8), 16)
  {
    var all := bytes + [0, 0];
    assert all[..|all| - 1] == bytes + [0];
    assert (bytes + [0])[..|bytes|] == bytes;
    ShiftLeftTwice(Number(bytes, 8), 8, 8);
  }

  /** The groups of the id are the successive 5-bit groups of the value. */
  lemma IdGroups(time: nat, k: nat)
    requires time < TIME_LIMIT && k < 12
    ensures Base32Groups(ToByteString(time, 60))[k] == Shift(time, 55 - 5 * k) % 32
  {
    var bytes := ToByteString(time, 60);
    Has60Bits(time);
    BytesAreValue(time, 60);
    TwoZeroBytes(bytes);
    assert Padded(bytes) == bytes + [0, 0];
    ShiftLeftTwice(time, 4, 16);
    ShiftOn(time, -20, 75 - 5 * k);
  }

  /** Each character is the letter of its 5-bit group. */
  lemma IdLetters(time: nat, k: nat)
    requires time < TIME_LIMIT && k < 12
    ensures ShortId(time)[k] == Letter(Shift(time, 55 - 5 * k) % 32)
  {
    IdGroups(time, k);
  }

  /** An id is 12 letters and digits, from which the whole value can be read off again. */
  lemma {:induction false} IdDecodes(time: nat)
    requires time < TIME_LIMIT
    ensures Base32Text(ShortId(time)) && Decode(ShortId(time)) == time
  {
    var id := ShortId(time);
    var all := Base32Groups(ToByteString(time, 60));
    forall k | 0 <= k < 12 ensures ('a' <= id[k] <= 'z' || '2' <= id[k] <= '7') && GroupOf(id[k]) == all[k] {
      LetterIsLetter(all[k]);
    }
    var groups := seq(|id|, k requires 0 <= k < |id| => GroupOf(id[k]));
    forall k | 0 <= k < 12 ensures groups[k] == Low(Shift(time, Below(60, 5, k + 1)), 5) {
      IdGroups(time, k);
      LowIsMask(Shift(time, 55 - 5 * k));
    }
    Has60Bits(time);
    GroupsAreValue(groups, time, 60, 5, 12);
    assert groups[..12] == groups;
  }

  // ---- UUIDs ----

  /**
    The fields of a UUID that matter; rfcVariant tells whether it has the variant
    of RFC 4122, without which it has no version.
  */
  datatype Uuid = Uuid(timeLow: nat, timeMid: nat, timeHiVersion: nat, rfcVariant: bool)

  ghost predicate WellFormed(u: Uuid) {
    u.timeLow < 0x1_0000_0000 && u.timeMid < 0x1_0000 && u.timeHiVersion < 0x1_0000
  }

  function Time(u: Uuid): nat {
    u.timeHiVersion % 0x1000 * 0x1_0000_0000_0000 + u.timeMid * 0x1_0000_0000 + u.timeLow
  }

  function Version(u: Uuid): nat {
    u.timeHiVersion / 0x1000
  }

  /** get_id. Without a version, the message of the ValueError cannot be formatted. */
  function GetId(u: Uuid): Result<string> {
    if !u.rfcVariant then Err(TypeError) else if Version(u) != 4 then Err(ValueError) else Ok(ShortId(Time(u)))
  }

  /** Five bits at a time. */
  lemma ShiftFiveMore(value: nat, n: nat)
    ensures ShiftRight(value, n + 5) == ShiftRight(value, n) / 32
  {
    ShiftRightTwice(value, n, 5);
    ShiftRightFive(ShiftRight(value, n));
  }

  /** What is left of the time field when bits of timeLow have gone. */
  lemma LowShifts(u: Uuid)
    requires WellFormed(u)
    ensures var t, hi := Time(u), u.timeHiVersion % 0x1000;
      && ShiftRight(t, 5) == hi * 0x800_0000_0000 + u.timeMid * 0x800_0000 + u.timeLow / 0x20
      && ShiftRight(t, 10) == hi * 0x40_0000_0000 + u.timeMid * 0x40_0000 + u.timeLow / 0x400
      && ShiftRight(t, 15) == hi * 0x2_0000_0000 + u.timeMid * 0x2_0000 + u.timeLow / 0x8000
      && ShiftRight(t, 20) == hi * 0x1000_0000 + u.timeMid * 0x1000 + u.timeLow / 0x10_0000
      && ShiftRight(t, 25) == hi * 0x80_0000 + u.timeMid * 0x80 + u.timeLow / 0x200_0000
      && ShiftRight(t, 30) == hi * 0x4_0000 + u.timeMid * 4 + u.timeLow / 0x4000_0000
  {
    var t := Time(u);
    ShiftFiveMore(t, 0);
    ShiftFiveMore(t, 5);
    ShiftFiveMore(t, 10);
    ShiftFiveMore(t, 15);
    ShiftFiveMore(t, 20);
    ShiftFiveMore(t, 25);
  }

  /** When all of timeLow has gone. */
  lemma HighShifts(u: Uuid)
    requires WellFormed(u)
    ensures var t, hi := Time(u), u.timeHiVersion % 0x1000;
      && ShiftRight(t, 35) == hi * 0x2000 + u.timeMid / 8
      && ShiftRight(t, 40) == hi * 0x100 + u.timeMid / 0x100
      && ShiftRight(t, 45) == hi * 8 + u.timeMid / 0x2000
      && ShiftRight(t, 50) == hi / 4
      && ShiftRight(t, 55) == hi / 0x80
  {
    var t := Time(u);
    LowShifts(u);
    ShiftFiveMore(t, 30);
    ShiftFiveMore(t, 35);
    ShiftFiveMore(t, 40);
    ShiftFiveMore(t, 45);
    ShiftFiveMore(t, 50);
  }

  lemma Remainder(q: nat, r: nat)
    requires r < 32
    ensures (32 * q + r) % 32 == r
  {
  }

  /** The first six groups. */
  lemma HighGroups(u: Uuid)
    requires WellFormed(u)
    ensures var t, hi := Time(u), u.timeHiVersion % 0x1000;
      && ShiftRight(t, 55) % 32 == hi / 0x80 && ShiftRight(t, 50) % 32 == hi / 4 % 32
      && ShiftRight(t, 45) % 32 == hi % 4 * 8 + u.timeMid / 0x2000
      && ShiftRight(t, 40) % 32 == u.timeMid / 0x100 % 32
      && ShiftRight(t, 35) % 32 == u.timeMid / 8 % 32
      && ShiftRight(t, 30) % 32 == u.timeMid % 8 * 4 + u.timeLow / 0x4000_0000
  {
    LowShifts(u);
    HighShifts(u);
    var hi, mid, low := u.timeHiVersion % 0x1000, u.timeMid, u.timeLow / 0x4000_0000;
    Remainder(0, hi / 0x80);
    Remainder(hi / 4, hi % 4 * 8 + mid / 0x2000);
    Remainder(8 * hi + mid / 0x100 / 32, mid / 0x100 % 32);
    Remainder(0x100 * hi + mid / 8 / 32, mid / 8 % 32);
    Remainder(0x2000 * hi + mid / 8, mid % 8 * 4 + low);
  }

  /** The last six groups. */
  lemma LowGroups(u: Uuid)
    requires WellFormed(u)
    ensures var t := Time(u);
      && ShiftRight(t, 25) % 32 == u.timeLow / 0x200_0000 % 32
      && ShiftRight(t, 20) % 32 == u.timeLow / 0x10_0000 % 32
      && ShiftRight(t, 15) % 32 == u.timeLow / 0x8000 % 32
      && ShiftRight(t, 10) % 32 == u.timeLow / 0x400 % 32
      && ShiftRight(t, 5) % 32 == u.timeLow / 0x20 % 32
      && t % 32 == u.timeLow % 32
  {
    LowShifts(u);
    var hi, mid, low := u.timeHiVersion % 0x1000, u.timeMid, u.timeLow;
    LowGroup(hi * 0x4_0000 + mid * 4, low / 0x200_0000);
    LowGroup(hi * 0x80_0000 + mid * 0x80, low / 0x10_0000);
    LowGroup(hi * 0x1000_0000 + mid * 0x1000, low / 0x8000);
    LowGroup(hi * 0x2_0000_0000 + mid * 0x2_0000, low / 0x400);
    LowGroup(hi * 0x40_0000_0000 + mid * 0x40_0000, low / 0x20);
    LowGroup(hi * 0x800_0000_0000 + mid * 0x800_0000, low);
  }

  lemma LowGroup(above: nat, low: nat)
    ensures (32 * above + low) % 32 == low % 32
  {
    Remainder(above + low / 32, low % 32);
  }

  /**
    Which bits of which field each character of the id holds: 12 bits of
    timeHiVersion, then the 16 of timeMid, then the 32 of timeLow. Version 4 is
    asked for; what is not an RFC 4122 UUID raises a TypeError.
  */
  lemma IdOfFields(u: Uuid)
    requires WellFormed(u)
    ensures GetId(u).Ok? <==> u.rfcVariant && 0x4000 <= u.timeHiVersion < 0x5000
    ensures GetId(u).Err? ==> GetId(u).error == if u.rfcVariant then ValueError else TypeError
    ensures GetId(u).Ok? ==>
      var id, hi := GetId(u).value, u.timeHiVersion % 0x1000;
      && |id| == 12
      && id[0] == Letter(hi / 0x80) && id[1] == Letter(hi / 4 % 32)
      && id[2] == Letter(hi % 4 * 8 + u.timeMid / 0x2000)
      && id[3] == Letter(u.timeMid / 0x100 % 32) && id[4] == Letter(u.timeMid / 8 % 32)
      && id[5] == Letter(u.timeMid % 8 * 4 + u.timeLow / 0x4000_0000)
      && id[6] == Letter(u.timeLow / 0x200_0000 % 32) && id[7] == Letter(u.timeLow / 0x10_0000 % 32)
      && id[8] == Letter(u.timeLow / 0x8000 % 32) && id[9] == Letter(u.timeLow / 0x400 % 32)
      && id[10] == Letter(u.timeLow / 0x20 % 32) && id[11] == Letter(u.timeLow % 32)
  {
    if GetId(u).Ok? {
      var t := Time(u);
      forall k | 0 <= k < 12 ensures ShortId(t)[k] == Letter(ShiftRight(t, 55 - 5 * k) % 32) {
        IdLetters(t, k);
      }
      HighGroups(u);
      LowGroups(u);
    }
  }

  /** Two version 4 UUIDs have the same id if and only if all their 60 time bits agree. */
  lemma IdsAreDistinct(u: Uuid, v: Uuid)
    requires WellFormed(u) && WellFormed(v) && GetId(u).Ok? && GetId(v).Ok?
    ensures GetId(u) == GetId(v) <==>
      u.timeLow == v.timeLow && u.timeMid == v.timeMid && u.timeHiVersion == v.timeHiVersion
  {
    IdDecodes(Time(u));
    IdDecodes(Time(v));
    assert u.timeHiVersion == 4 * 0x1000 + u.timeHiVersion % 0x1000;
    assert v.timeHiVersion == 4 * 0x1000 + v.timeHiVersion % 0x1000;
  }
}
