/**
 * The document store's 12-byte object identifier and its 24-digit hexadecimal
 * text form, as the driver's `ObjectID.Hex` and `ObjectIDFromHex` use it.
 */
module ObjectIds {
  import opened Wrappers

  newtype byte = x: int | 0 <= x < 256

  type Bytes12 = s: seq<byte> | |s| == 12 witness [0, 0, 0, 0, 0, 0, 0, 0, 0, 0, 0, 0]

  datatype ObjectId = ObjectId(bytes: Bytes12)

  predicate IsHexDigit(c: char) {
    '0' <= c <= '9' || 'a' <= c <= 'f' || 'A' <= c <= 'F'
  }

  predicate IsLowerHexDigit(c: char) {
    '0' <= c <= '9' || 'a' <= c <= 'f'
  }

  /** The value of one hexadecimal digit; upper- and lower-case letters are both accepted. */
  function DigitValue(c: char): (n: int)
    requires IsHexDigit(c)
    ensures 0 <= n < 16
  {
    if '0' <= c <= '9' then c as int - '0' as int
    else if 'a' <= c <= 'f' then c as int - 'a' as int + 10
    else c as int - 'A' as int + 10
  }

  /** The lower-case digit for a nibble; decoding it gives the nibble back. */
  function HexDigit(n: int): (c: char)
    requires 0 <= n < 16
    ensures IsLowerHexDigit(c) && DigitValue(c) == n
  {
    if n < 10 then ('0' as int + n) as char else ('a' as int + n - 10) as char
  }

  /** Two lower-case digits per byte, high nibble first. */
  function EncodeBytes(bs: seq<byte>): (s: string)
    ensures |s| == 2 * |bs|
    ensures forall i :: 0 <= i < |s| ==> IsLowerHexDigit(s[i])
  {
    if bs == [] then ""
    else [HexDigit(bs[0] as int / 16), HexDigit(bs[0] as int % 16)] + EncodeBytes(bs[1..])
  }

  function DecodeBytes(s: string): (bs: seq<byte>)
    requires |s| % 2 == 0
    requires forall i :: 0 <= i < |s| ==> IsHexDigit(s[i])
    ensures |bs| == |s| / 2
  {
    if s == [] then []
    else [(DigitValue(s[0]) * 16 + DigitValue(s[1])) as byte] + DecodeBytes(s[2..])
  }

  /** `ObjectID.Hex`: the 24-character lower-case form. */
  function Hex(id: ObjectId): (s: string)
    ensures |s| == 24
    ensures forall i :: 0 <= i < |s| ==> IsLowerHexDigit(s[i])
  {
    EncodeBytes(id.bytes)
  }

  /**
   * `ObjectIDFromHex`: accepts exactly the strings of 24 hexadecimal digits
   * (either case); anything else is refused.
   */
  function FromHex(s: string): (r: Option<ObjectId>)
    ensures r.Some? <==> |s| == 24 && forall i :: 0 <= i < |s| ==> IsHexDigit(s[i])
  {
    if |s| == 24 && forall i | 0 <= i < |s| :: IsHexDigit(s[i]) then Some(ObjectId(DecodeBytes(s)))
    else None
  }

  lemma {:induction false} DecodeEncode(bs: seq<byte>)
    ensures DecodeBytes(EncodeBytes(bs)) == bs
  {
    if bs != [] {
      var s := EncodeBytes(bs);
      var b := bs[0] as int;
      assert s[2..] == EncodeBytes(bs[1..]);
      DecodeEncode(bs[1..]);
      assert DigitValue(s[0]) * 16 + DigitValue(s[1]) == b;
    }
  }

  /** The text form of an identifier parses back to that identifier. */
  lemma FromHexOfHex(id: ObjectId)
    ensures FromHex(Hex(id)) == Some(id)
  {
    DecodeEncode(id.bytes);
  }

  /** Distinct identifiers have distinct text forms. */
  lemma HexInjective(a: ObjectId, b: ObjectId)
    ensures Hex(a) == Hex(b) ==> a == b
  {
    FromHexOfHex(a);
    FromHexOfHex(b);
  }
}
