/**
 * Document identifiers of the MongoDB driver (`primitive.ObjectID`): twelve
 * bytes, shown as 24 lower-case hexadecimal digits by `Hex()` and read back by
 * `ObjectIDFromHex`, which every handler uses on path parameters and on the
 * `user_id` the authentication layer put in the request context.
 */
module ObjectIds {
  import opened Wrappers

  newtype byte = x: int | 0 <= x < 256

  /** A twelve-byte identifier. */
  type ObjectId = b: seq<byte> | |b| == 12 witness [0, 0, 0, 0, 0, 0, 0, 0, 0, 0, 0, 0]

  const HexDigits: string := "0123456789abcdef"

  /** Lower-case hexadecimal encoding (`hex.EncodeToString`), two digits per byte. */
  function EncodeHex(bs: seq<byte>): (s: string)
    ensures |s| == 2 * |bs|
  {
    if bs == [] then ""
    else [HexDigits[bs[0] as int / 16], HexDigits[bs[0] as int % 16]] + EncodeHex(bs[1..])
  }

  /** `ObjectID.Hex()`. */
  function Hex(id: ObjectId): (s: string)
    ensures |s| == 24
  {
    EncodeHex(id)
  }

  /** The value of one hexadecimal digit; `hex.Decode` accepts both cases. */
  function HexValue(c: char): Option<int> {
    if '0' <= c <= '9' then Some(c as int - '0' as int)
    else if 'a' <= c <= 'f' then Some(c as int - 'a' as int + 10)
    else if 'A' <= c <= 'F' then Some(c as int - 'A' as int + 10)
    else None
  }

  /** `hex.Decode` on a string of even length: None at the first invalid digit. */
  function DecodeHex(s: string): (r: Option<seq<byte>>)
    requires |s| % 2 == 0
    ensures r.Some? ==> |r.value| == |s| / 2
  {
    if s == "" then Some([])
    else
      var hi := HexValue(s[0]);
      var lo := HexValue(s[1]);
      if hi.None? || lo.None? then None
      else
        var rest := DecodeHex(s[2..]);
        if rest.None? then None
        else Some([(hi.value * 16 + lo.value) as byte] + rest.value)
  }

  /** `primitive.ObjectIDFromHex`: exactly 24 hexadecimal digits, else an error. */
  function FromHex(s: string): Option<ObjectId> {
    if |s| != 24 then None
    else
      var d := DecodeHex(s);
      if d.None? then None else Some(d.value)
  }

  /** Every digit `EncodeHex` writes is read back as its value. */
  lemma HexDigitValue(d: int)
    requires 0 <= d < 16
    ensures HexValue(HexDigits[d]) == Some(d)
  {
  }

  /** One step of `DecodeHex`: two valid digits in front of a decodable rest. */
  lemma DecodeStep(s: string, hi: int, lo: int)
    requires |s| >= 2 && |s| % 2 == 0 && 0 <= hi < 16 && 0 <= lo < 16
    requires HexValue(s[0]) == Some(hi) && HexValue(s[1]) == Some(lo) && DecodeHex(s[2..]).Some?
    ensures DecodeHex(s) == Some([(hi * 16 + lo) as byte] + DecodeHex(s[2..]).value)
  {
  }

  /** One step of `EncodeHex`: the first byte's two digits, then the rest. */
  lemma EncodeStep(bs: seq<byte>)
    requires bs != []
    ensures var s := EncodeHex(bs);
      s[0] == HexDigits[bs[0] as int / 16] && s[1] == HexDigits[bs[0] as int % 16] && s[2..] == EncodeHex(bs[1..])
  {
    var s := EncodeHex(bs);
    assert s == [HexDigits[bs[0] as int / 16], HexDigits[bs[0] as int % 16]] + EncodeHex(bs[1..]);
  }

  /** A byte is its high digit times sixteen plus its low digit. */
  lemma SplitByte(b: int)
    requires 0 <= b < 256
    ensures 0 <= b / 16 < 16 && 0 <= b % 16 < 16 && b / 16 * 16 + b % 16 == b
  {
  }

  /** Decoding the encoding gives the bytes back. */
  lemma {:induction false} DecodeEncode(bs: seq<byte>)
    ensures DecodeHex(EncodeHex(bs)) == Some(bs)
  {
    if bs != [] {
      var s := EncodeHex(bs);
      var b := bs[0] as int;
      SplitByte(b);
      var hi, lo := b / 16, b % 16;
      HexDigitValue(hi);
      HexDigitValue(lo);
      EncodeStep(bs);
      DecodeEncode(bs[1..]);
      DecodeStep(s, hi, lo);
      assert (hi * 16 + lo) as byte == bs[0];
      assert [bs[0]] + bs[1..] == bs;
    }
  }

  /** Reading back the hexadecimal form of an identifier gives the identifier. */
  lemma FromHexOfHex(id: ObjectId)
    ensures FromHex(Hex(id)) == Some(id)
  {
    DecodeEncode(id);
  }

  /** Distinct identifiers have distinct hexadecimal forms. */
  lemma HexInjective(a: ObjectId, b: ObjectId)
    requires Hex(a) == Hex(b)
    ensures a == b
  {
    FromHexOfHex(a);
    FromHexOfHex(b);
  }
}
