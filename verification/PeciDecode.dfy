/** The replies of the processor's PECI interface and how they are decoded. */
module PeciDecode {
  import opened Common
  import opened PowerArithmetic

  /** Errno values, and the completion code of a successful PECI transfer. */
  const EIO: int := 5
  const EAGAIN: int := 11
  const CC_SUCCESS: Byte := 0x40

  type Byte = x: int | 0 <= x < 256
  type Errno = x: int | x < 0 witness -1

  datatype Result<+T> = Ok(value: T) | Err(ret: Errno)

  /** One RdPkgConfig transfer: it fails, or fills the completion code and a
      four-byte value. */
  datatype Reply = Failed(err: Errno) | Received(cc: Byte, b1: Byte, b2: Byte, b3: Byte, b4: Byte)

  /** One GetTemp0 read: it fails (in transfer or by completion code), or yields
      a signed 16-bit word. */
  datatype TempReply = TempFailed(err: Errno) | TempRaw(raw: Int16)

  function Value(r: Reply): Result<Word> {
    match r
    case Failed(err) => Err(err)
    case Received(cc, b1, b2, b3, b4) =>
      if cc != CC_SUCCESS then Err(-EIO)
      else Ok(b1 + 0x100 * b2 + 0x1_0000 * b3 + 0x100_0000 * b4)
  }

  /** intel_peci_read_tjmax: the low byte, in degrees. */
  function ReadTjmax(r: Reply): Result<int> {
    match Value(r)
    case Err(e) => Err(e)
    case Ok(v) => Ok(v % 0x100)
  }

  /** intel_peci_read_energy */
  function ReadEnergy(r: Reply): Option<Word> {
    match Value(r)
    case Err(_) => None
    case Ok(v) => Some(v)
  }

  datatype Units = Units(pu: nat, eu: nat, tu: nat)

  /** intel_peci_read_power_units: bit fields 3:0, 12:8 and 19:16. */
  function ReadUnits(r: Reply): Option<Units> {
    match Value(r)
    case Err(_) => None
    case Ok(v) => Some(Units(v % 16, v / 0x100 % 32, v / 0x1_0000 % 16))
  }

  /** intel_peci_read_dimm_temps: two 16-bit words in tenths of a degree. */
  function ReadDimm(r: Reply): Option<(int, int)> {
    match Value(r)
    case Err(_) => None
    case Ok(v) => Some((v % 0x1_0000 / 10, v / 0x1_0000 / 10))
  }

  /** A value survives being sent as four bytes, lowest first. */
  lemma ValueRoundTrip(v: Word)
    ensures Value(Received(CC_SUCCESS, v % 0x100, v / 0x100 % 0x100, v / 0x1_0000 % 0x100, v / 0x100_0000)) == Ok(v)
  {
    assert v / 0x1_0000 == v / 0x100 / 0x100 && v / 0x100_0000 == v / 0x1_0000 / 0x100;
  }

  /** Which bytes of a successful reply each reading uses; any other completion
      code makes all of them fail. */
  lemma FieldsOfReply(cc: Byte, b1: Byte, b2: Byte, b3: Byte, b4: Byte)
    ensures var r := Received(cc, b1, b2, b3, b4);
            if cc == CC_SUCCESS then
              && ReadTjmax(r) == Ok(b1)
              && ReadUnits(r) == Some(Units(b1 % 16, b2 % 32, b3 % 16))
              && ReadDimm(r) == Some(((b1 + 0x100 * b2) / 10, (b3 + 0x100 * b4) / 10))
              && ReadEnergy(r) == Some(b1 + 0x100 * b2 + 0x1_0000 * b3 + 0x100_0000 * b4)
            else
              && ReadTjmax(r) == Err(-EIO)
              && ReadUnits(r) == None && ReadDimm(r) == None && ReadEnergy(r) == None
  {
    var low, high := b1 + 0x100 * b2, b3 + 0x100 * b4;
    SplitWord(low, high, 0x1_0000);
    SplitWord(b1, b2 + 0x100 * high, 0x100);
    SplitWord(b2, high, 0x100);
    SmallRemainder(b1, 16 * (b2 + 0x100 * high), 16);
    SmallRemainder(b2, 8 * high, 32);
    SmallRemainder(b3, 16 * b4, 16);
  }

  /** A failed transfer makes every reading fail; Tjmax fails with its very error. */
  lemma FailedTransfer(err: Errno)
    ensures var r := Failed(err);
            && ReadTjmax(r) == Err(err)
            && ReadUnits(r) == None && ReadDimm(r) == None && ReadEnergy(r) == None
  {
  }

  lemma SplitWord(low: nat, high: nat, k: nat)
    requires low < k
    ensures (low + k * high) % k == low && (low + k * high) / k == high
  {
    MulAssoc(k, high, 1);
    DivUnique(low + k * high, k, high);
  }

  lemma SmallRemainder(x: nat, m: nat, k: nat)
    requires k > 0
    ensures (x + k * m) % k == x % k
  {
    SplitWord(x % k, x / k + m, k);
    assert x + k * m == x % k + k * (x / k + m);
  }

  // ---- the die temperature ----

  type Int16 = x: int | -0x8000 <= x < 0x8000

  /** The 16 bits of a two's complement number, and back. */
  function ToBits(x: Int16): nat {
    x % 0x1_0000
  }

  function FromBits(b: nat): Int16
    requires b < 0x1_0000
  {
    if b >= 0x8000 then b - 0x1_0000 else b
  }

  /** Bitwise OR. */
  function Or(x: nat, y: nat): nat {
    if x == 0 && y == 0 then 0
    else 2 * Or(x / 2, y / 2) + if x % 2 == 1 || y % 2 == 1 then 1 else 0
  }

  /** Below the lowest bit of `b * 2^k` the OR leaves the other operand alone. */
  lemma {:induction false} OrSplits(a: nat, b: nat, k: nat, low: nat)
    requires low < Pow2(k)
    ensures a * Pow2(k) >= 0 && b * Pow2(k) >= 0
    ensures Or(a * Pow2(k) + low, b * Pow2(k)) == Or(a, b) * Pow2(k) + low
  {
    if k > 0 {
      var p := Pow2(k - 1);
      OrSplits(a, b, k - 1, low / 2);
      MulAssoc(a, 2, p);
      MulAssoc(b, 2, p);
      MulAssoc(Or(a, b), 2, p);
      OrStep(a * p, b * p, low);
    }
  }

  lemma OrStep(x: nat, y: nat, low: nat)
    ensures Or(2 * x + low, 2 * y) == 2 * Or(x + low / 2, y) + low % 2
  {
  }

  lemma Powers()
    ensures Pow2(9) == 512 && Pow2(16) == 0x1_0000
    ensures Or(0x7F, 0x3F) == 0x7F && Or(0, 0x3F) == 0x3F
  {
  }

  /** (raw >> 6) | 0x7E00, where the shift keeps the sign. */
  function Field(raw: Int16): Int16 {
    Powers();
    OrBelow(ToBits(raw / 64), 0x7E00, 16);
    FromBits(Or(ToBits(raw / 64), 0x7E00))
  }

  lemma {:induction false} OrBelow(x: nat, y: nat, k: nat)
    requires x < Pow2(k) && y < Pow2(k)
    ensures Or(x, y) < Pow2(k)
  {
    if k > 0 {
      OrBelow(x / 2, y / 2, k - 1);
    }
  }

  /** intel_peci_read_dts: the value stored for the caller, and the return code. */
  function ReadDts(r: TempReply, tjmax: int): (int, int) {
    match r
    case TempFailed(err) => (0, err)
    case TempRaw(raw) =>
      if raw == -0x8000 then (72, -EAGAIN) else (Field(raw) + tjmax, 0)
  }

  /** For a negative reading the field is the reading divided by 64, rounded
      down; for any other one the OR adds 0x7E00 to it. */
  lemma FieldValue(raw: Int16)
    ensures Field(raw) == if raw < 0 then raw / 64 else raw / 64 + 0x7E00
  {
    if raw < 0 {
      FieldNegative(raw);
    } else {
      FieldNonNegative(raw);
    }
  }

  lemma FieldNegative(raw: Int16)
    requires raw < 0
    ensures Field(raw) == raw / 64
  {
    OrNegative(raw / 64);
  }

  lemma FieldNonNegative(raw: Int16)
    requires raw >= 0
    ensures Field(raw) == raw / 64 + 0x7E00
  {
    OrNonNegative(raw / 64);
  }

  lemma OrNegative(s: int)
    requires -512 <= s < 0
    ensures Or(s + 0x1_0000, 0x7E00) == s + 0x1_0000
  {
    OrHigh(s + 512, 0x7F);
    Powers();
  }

  lemma OrNonNegative(s: int)
    requires 0 <= s < 512
    ensures Or(s, 0x7E00) == s + 0x7E00
  {
    OrHigh(s, 0);
    Powers();
  }

  /** 0x7E00 is six ones above nine zeros: the low nine bits stay. */
  lemma OrHigh(low: nat, high: nat)
    requires low < 512
    ensures Or(high * 512 + low, 0x7E00) == Or(high, 0x3F) * 512 + low
  {
    Powers();
    OrSplits(high, 0x3F, 9, low);
  }

  /** The temperature for every reply. */
  lemma DtsValue(r: TempReply, tjmax: int)
    ensures ReadDts(r, tjmax) ==
            match r
            case TempFailed(err) => (0, err)
            case TempRaw(raw) =>
              if raw == -0x8000 then (72, -EAGAIN)
              else if raw < 0 then (tjmax + raw / 64, 0)
              else (tjmax + raw / 64 + 0x7E00, 0)
  {
    if r.TempRaw? {
      FieldValue(r.raw);
    }
  }

  /** The margin to Tjmax is between 1 and 512 degrees exactly for negative
      readings; a non-negative one puts the temperature at least 32256 degrees
      above Tjmax. */
  lemma MarginRange(raw: Int16, tjmax: int)
    requires raw != -0x8000
    ensures var (dts, ret) := ReadDts(TempRaw(raw), tjmax);
            && ret == 0
            && (1 <= tjmax - dts <= 512 <==> raw < 0)
            && (raw >= 0 ==> dts - tjmax >= 0x7E00)
  {
    FieldValue(raw);
  }
}
