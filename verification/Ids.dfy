/** id.go: 64-bit identifiers as sixteen hexadecimal digits. */
module Ids {
  import opened Bytes
  import opened Wrappers

  const ID_LENGTH := 16

  /** A 64-bit identifier; zero is the invalid one. */
  type ID = x: int | 0 <= x < 0x1_0000_0000_0000_0000

  predicate ValidID(id: ID) {
    id != 0
  }

  // ----------------------------------------------------------- Hexadecimal text

  /** `hextable`: the digits 0-9 and a-f. */
  function HexDigit(d: int): Byte
    requires 0 <= d < 16
  {
    if d < 10 then 48 + d else 87 + d
  }

  /** What `strconv.ParseUint(_, 16, 64)` makes of a byte; both cases of a letter will do. */
  function HexValue(c: Byte): Option<int> {
    if 48 <= c <= 57 then Some(c - 48)
    else if 97 <= c <= 102 then Some(c - 87)
    else if 65 <= c <= 70 then Some(c - 55)
    else None
  }

  lemma HexDigitIs(d: int)
    requires 0 <= d < 16
    ensures HexDigit(d) == "0123456789abcdef"[d] as int
  {
  }

  /** A byte has the value of the digit that it is, in either case of a letter. */
  lemma HexValueIff(c: Byte, d: int)
    requires 0 <= d < 16
    ensures HexValue(c) == Some(d) <==> c == HexDigit(d) || (d >= 10 && c == HexDigit(d) - 32)
  {
  }

  ghost predicate IsHex(s: ByteString) {
    forall i :: 0 <= i < |s| ==> HexValue(s[i]).Some?
  }

  predicate HexOnly(s: ByteString)
    ensures HexOnly(s) == IsHex(s)
  {
    forall i :: 0 <= i < |s| ==> HexValue(s[i]).Some?
  }

  /** The number that hexadecimal text denotes. */
  function Number(s: ByteString): nat
    requires IsHex(s)
  {
    if s == [] then 0 else 16 * Number(s[..|s| - 1]) + HexValue(s[|s| - 1]).value
  }

  function Pow16(n: nat): nat {
    if n == 0 then 1 else 16 * Pow16(n - 1)
  }

  /** The last `n` bytes of a number, most significant first. */
  function BigEndian(n: nat, v: nat): (b: ByteString)
    ensures |b| == n
  {
    if n == 0 then [] else BigEndian(n - 1, v / 256) + [v % 256]
  }

  /** `hex.Encode`: two digits a byte. */
  function Hex(b: ByteString): (s: ByteString)
    ensures |s| == 2 * |b|
  {
    if b == [] then [] else [HexDigit(b[0] / 16), HexDigit(b[0] % 16)] + Hex(b[1..])
  }

  /** The last `n` hexadecimal digits of a number. */
  function Digits(n: nat, v: nat): (s: ByteString)
    ensures |s| == n
  {
    if n == 0 then [] else Digits(n - 1, v / 16) + [HexDigit(v % 16)]
  }

  lemma {:induction false} HexSnoc(b: ByteString, x: Byte)
    ensures Hex(b + [x]) == Hex(b) + [HexDigit(x / 16), HexDigit(x % 16)]
  {
    if b == [] {
      assert b + [x] == [x];
      assert [x][1..] == [];
    } else {
      assert (b + [x])[1..] == b[1..] + [x];
      HexSnoc(b[1..], x);
    }
  }

  lemma ByteHalves(v: nat)
    ensures v / 16 / 16 == v / 256 && v % 256 / 16 == v / 16 % 16 && v % 256 % 16 == v % 16
  {
  }

  /** Going through bytes gives the digits. */
  lemma {:induction false} HexIsDigits(n: nat, v: nat)
    ensures Hex(BigEndian(n, v)) == Digits(2 * n, v)
  {
    if n > 0 {
      HexIsDigits(n - 1, v / 256);
      HexSnoc(BigEndian(n - 1, v / 256), v % 256);
      ByteHalves(v);
      assert Digits(2 * n, v) == Digits(2 * n - 1, v / 16) + [HexDigit(v % 16)];
      assert Digits(2 * n - 1, v / 16) == Digits(2 * n - 2, v / 16 / 16) + [HexDigit(v / 16 % 16)];
    }
  }

  lemma {:induction false} NumberOfDigits(n: nat, v: nat)
    requires v < Pow16(n)
    ensures IsHex(Digits(n, v)) && Number(Digits(n, v)) == v
  {
    if n > 0 {
      NumberOfDigits(n - 1, v / 16);
      assert Digits(n, v)[..n - 1] == Digits(n - 1, v / 16);
    }
  }

  function LowerByte(c: Byte): Byte {
    if 65 <= c <= 90 then c + 32 else c
  }

  function Lower(s: ByteString): (r: ByteString)
    ensures |r| == |s| && forall i :: 0 <= i < |s| ==> r[i] == LowerByte(s[i])
  {
    seq(|s|, i requires 0 <= i < |s| => LowerByte(s[i]))
  }

  lemma {:induction false} DigitsOfNumber(s: ByteString)
    requires IsHex(s)
    ensures Digits(|s|, Number(s)) == Lower(s) && Number(s) < Pow16(|s|)
  {
    if s != [] {
      var init, last := s[..|s| - 1], HexValue(s[|s| - 1]).value;
      DigitsOfNumber(init);
      assert Number(s) / 16 == Number(init) && Number(s) % 16 == last;
      assert HexDigit(last) == LowerByte(s[|s| - 1]);
    }
  }

  // ------------------------------------------------------------ The ID codec

  datatype DecodeResult = Decoded(id: ID) | InvalidID | InvalidLength

  /** id.go, ID.Encode. */
  function Encode(id: ID): Option<ByteString> {
    if !ValidID(id) then None else Some(Hex(BigEndian(8, id)))
  }

  /** id.go, ID.String: nothing for the invalid ID. */
  function String(id: ID): ByteString {
    var e := Encode(id);
    if e.None? then [] else e.value
  }

  /** What id.go, ID.Decode makes of its argument. */
  function Decode(b: ByteString): DecodeResult {
    if |b| != ID_LENGTH then InvalidLength
    else if !HexOnly(b) then InvalidID
    else if Number(b) == 0 || Number(b) >= 0x1_0000_0000_0000_0000 then InvalidID
    else Decoded(Number(b))
  }

  lemma Pow16Of16()
    ensures Pow16(16) == 0x1_0000_0000_0000_0000
  {
    assert Pow16(4) == 0x1_0000;
    assert Pow16(8) == 0x1_0000_0000;
    assert Pow16(12) == 0x1_0000_0000_0000;
  }

  lemma EncodeIsDigits(id: ID)
    requires ValidID(id)
    ensures Encode(id) == Some(Digits(16, id))
  {
    HexIsDigits(8, id);
  }

  /** Decode inverts Encode on every valid ID. */
  lemma DecodeEncode(id: ID)
    requires ValidID(id)
    ensures Encode(id).Some? && Decode(Encode(id).value) == Decoded(id)
  {
    EncodeIsDigits(id);
    Pow16Of16();
    NumberOfDigits(16, id);
  }

  /** Encode gives a decoded text back in lower case; sixteen digits never overflow. */
  lemma EncodeDecode(b: ByteString)
    requires Decode(b).Decoded?
    ensures Encode(Decode(b).id) == Some(Lower(b))
  {
    EncodeIsDigits(Decode(b).id);
    DigitsOfNumber(b);
  }

  /** Decode fails exactly on the wrong length, on a byte that is no digit, and on zero. */
  lemma DecodeFails(b: ByteString)
    ensures Decode(b).Decoded? <==> |b| == 16 && IsHex(b) && Number(b) != 0
    ensures Decode(b) == InvalidLength <==> |b| != 16
  {
    if |b| == 16 && IsHex(b) {
      DigitsOfNumber(b);
      Pow16Of16();
    }
  }

  lemma EncodeInjective(a: ID, b: ID)
    requires ValidID(a) && ValidID(b) && Encode(a) == Encode(b)
    ensures a == b
  {
    DecodeEncode(a);
    DecodeEncode(b);
  }

  // ----------------------------------------------------------------- Ordering

  lemma {:induction false} LessSnoc(a: ByteString, b: ByteString, x: Byte, y: Byte)
    requires |a| == |b|
    ensures Less(a + [x], b + [y]) <==> Less(a, b) || (a == b && x < y)
  {
    var s, t := a + [x], b + [y];
    if a == [] {
      assert s[1..] == [] && t[1..] == [];
    } else {
      assert s[1..] == a[1..] + [x] && t[1..] == b[1..] + [y];
      LessSnoc(a[1..], b[1..], x, y);
      assert a == [a[0]] + a[1..] && b == [b[0]] + b[1..];
      assert s == [s[0]] + s[1..] && t == [t[0]] + t[1..];
    }
  }

  lemma {:induction false} DigitsOrdered(n: nat, v: nat, w: nat)
    requires v < Pow16(n) && w < Pow16(n)
    ensures Less(Digits(n, v), Digits(n, w)) <==> v < w
    ensures Digits(n, v) == Digits(n, w) <==> v == w
  {
    if n > 0 {
      DigitsOrdered(n - 1, v / 16, w / 16);
      LessSnoc(Digits(n - 1, v / 16), Digits(n - 1, w / 16), HexDigit(v % 16), HexDigit(w % 16));
      NumberOfDigits(n, v);
      NumberOfDigits(n, w);
    }
  }

  /** The bytes of encoded IDs sort as the IDs do. */
  lemma EncodeOrdered(a: ID, b: ID)
    requires ValidID(a) && ValidID(b)
    ensures Less(Encode(a).value, Encode(b).value) <==> a < b
  {
    EncodeIsDigits(a);
    EncodeIsDigits(b);
    Pow16Of16();
    DigitsOrdered(16, a, b);
  }

  // ------------------------------------------------------------ IDs as text

  /** id.go, ID.String as text. */
  function IdText(id: ID): (s: string)
    ensures |s| == |String(id)|
  {
    seq(|String(id)|, i requires 0 <= i < |String(id)| => String(id)[i] as char)
  }

  /** id.go, IDFromString; text that is not ASCII has a byte that is no digit. */
  function ParseId(s: string): Option<ID> {
    if exists i :: 0 <= i < |s| && s[i] as int >= 128 then None
    else
      match Decode(seq(|s|, i requires 0 <= i < |s| => s[i] as int))
      case Decoded(id) => Some(id)
      case _ => None
  }

  lemma ParseIdText(id: ID)
    requires ValidID(id)
    ensures ParseId(IdText(id)) == Some(id) && IdText(id) != ""
  {
    var s, b := IdText(id), String(id);
    DecodeEncode(id);
    EncodeIsDigits(id);
    NumberIsAscii(16, id);
    assert seq(|s|, i requires 0 <= i < |s| => s[i] as int) == b;
  }

  /** The text of every ID: none for zero, otherwise sixteen digits that parse as it. */
  lemma IdTextIs(id: ID)
    ensures IdText(id) == "" <==> id == 0
    ensures id != 0 ==> |IdText(id)| == 16 && ParseId(IdText(id)) == Some(id)
  {
    if id != 0 {
      ParseIdText(id);
      EncodeIsDigits(id);
    }
  }

  lemma {:induction false} NumberIsAscii(n: nat, v: nat)
    ensures forall i :: 0 <= i < n ==> Digits(n, v)[i] < 128
  {
    if n > 0 {
      NumberIsAscii(n - 1, v / 16);
    }
  }

  /** The receiver of id.go, ID.Decode. */
  class Receiver {
    var id: ID

    /** Writes the receiver even for zero, which it then reports as invalid. */
    method DecodeInto(b: ByteString) returns (err: Option<DecodeResult>)
      modifies this
      ensures err == if Decode(b).Decoded? then None else Some(Decode(b))
      ensures Decode(b).Decoded? ==> id == Decode(b).id
      ensures !Decode(b).Decoded? ==> id == if |b| == ID_LENGTH && HexOnly(b) then 0 else old(id)
    {
      if |b| != ID_LENGTH {
        return Some(InvalidLength);
      }
      if !HexOnly(b) {
        return Some(InvalidID);
      }
      DigitsOfNumber(b);
      Pow16Of16();
      id := Number(b);
      if !ValidID(id) {
        return Some(InvalidID);
      }
      return None;
    }
  }
}
