/** Hexadecimal digests: printing as `toString("hex")`, reading as `Buffer.from(s, "hex")`. */
module Hex {
  import opened Wrappers

  newtype byte = b: int | 0 <= b < 256

  function Nibble(d: nat): (c: char)
    requires d < 16
    ensures c != ',' && c != '='
  {
    if d < 10 then (d + 48) as char else (d + 87) as char
  }

  // Upper and lower case are both read; None marks a character that is no hex digit.
  function NibbleValue(c: char): (v: Option<nat>)
    ensures v.Some? ==> v.value < 16
  {
    if '0' <= c <= '9' then Some(c as nat - 48)
    else if 'a' <= c <= 'f' then Some(c as nat - 87)
    else if 'A' <= c <= 'F' then Some(c as nat - 55)
    else None
  }

  function Encode(bytes: seq<byte>): (s: string)
    ensures |s| == 2 * |bytes|
  {
    if bytes == [] then ""
    else [Nibble(bytes[0] as nat / 16), Nibble(bytes[0] as nat % 16)] + Encode(bytes[1..])
  }

  // Reading stops at the first pair that is not two hex digits; an odd last digit is dropped.
  function Decode(s: string): seq<byte> {
    if |s| < 2 then []
    else
      var hi, lo := NibbleValue(s[0]), NibbleValue(s[1]);
      if hi.None? || lo.None? then [] else [(16 * hi.value + lo.value) as byte] + Decode(s[2..])
  }

  lemma {:induction false} RoundTrip(bytes: seq<byte>)
    ensures Decode(Encode(bytes)) == bytes
  {
    if bytes != [] {
      RoundTrip(bytes[1..]);
      assert Encode(bytes)[2..] == Encode(bytes[1..]);
    }
  }

  lemma {:induction false} EncodeIsHex(bytes: seq<byte>)
    ensures forall c | c in Encode(bytes) :: NibbleValue(c).Some?
  {
    if bytes != [] {
      EncodeIsHex(bytes[1..]);
    }
  }
}
