/** The lower-case hexadecimal text of a byte string, as built for token hashes and QR tokens. */
module Hex {
  import opened Wrappers

  function Digit(n: int): char
    requires 0 <= n < 16
  {
    if n < 10 then '0' + n as char else 'a' + (n - 10) as char
  }

  /** Two digits a byte, high digit first. */
  function Encode(bytes: seq<byte>): (text: string)
    ensures |text| == 2 * |bytes|
  {
    if bytes == [] then "" else [Digit(bytes[0] as int / 16), Digit(bytes[0] as int % 16)] + Encode(bytes[1..])
  }

  lemma {:induction false} EncodeSnoc(bytes: seq<byte>, b: byte)
    ensures Encode(bytes + [b]) == Encode(bytes) + [Digit(b as int / 16), Digit(b as int % 16)]
  {
    if bytes == [] {
      assert [b][1..] == [];
    } else {
      EncodeSnoc(bytes[1..], b);
      assert (bytes + [b])[1..] == bytes[1..] + [b];
    }
  }

  /** Different byte strings have different texts. */
  lemma {:induction false} EncodeIsInjective(a: seq<byte>, b: seq<byte>)
    requires Encode(a) == Encode(b)
    ensures a == b
  {
    assert |a| == |b|;
    if a != [] {
      assert Encode(a)[2..] == Encode(a[1..]) && Encode(b)[2..] == Encode(b[1..]);
      EncodeIsInjective(a[1..], b[1..]);
      assert Encode(a)[0] == Encode(b)[0] && Encode(a)[1] == Encode(b)[1];
      assert a == [a[0]] + a[1..] && b == [b[0]] + b[1..];
    }
  }

  /** The two characters of a byte are its hexadecimal digits. */
  lemma {:induction false} EncodeSpells(bytes: seq<byte>, i: nat)
    requires i < |bytes|
    ensures Encode(bytes)[2 * i] == "0123456789abcdef"[bytes[i] as int / 16]
    ensures Encode(bytes)[2 * i + 1] == "0123456789abcdef"[bytes[i] as int % 16]
  {
    if i > 0 { EncodeSpells(bytes[1..], i - 1); }
  }

  method ToHex(bytes: seq<byte>) returns (hex: string)
    ensures hex == Encode(bytes)
  {
    hex := "";
    for i := 0 to |bytes|
      invariant hex == Encode(bytes[..i])
    {
      EncodeSnoc(bytes[..i], bytes[i]);
      assert bytes[..i + 1] == bytes[..i] + [bytes[i]];
      hex := hex + [Digit(bytes[i] as int / 16), Digit(bytes[i] as int % 16)];
    }
    assert bytes[..|bytes|] == bytes;
  }
}
