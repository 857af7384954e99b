/** UTF-8: the bytes of a text, and the text of some bytes. */
module Utf8 {
  type Byte = b: int | 0 <= b < 256

  const NEWLINE: Byte := 10
  const REPLACEMENT := '\U{FFFD}'

  function EncodeChar(c: char): (bytes: seq<Byte>)
    ensures 1 <= |bytes| <= 4
  {
    var n := c as int;
    if n < 0x80 then [n]
    else if n < 0x800 then [0xC0 + n / 64, 0x80 + n % 64]
    else if n < 0x10000 then [0xE0 + n / 4096, 0x80 + n / 64 % 64, 0x80 + n % 64]
    else [0xF0 + n / 262144, 0x80 + n / 4096 % 64, 0x80 + n / 64 % 64, 0x80 + n % 64]
  }

  function Encode(text: string): seq<Byte> {
    if text == "" then [] else EncodeChar(text[0]) + Encode(text[1..])
  }

  predicate Continues(b: Byte) { 0x80 <= b < 0xC0 }
  predicate Scalar(n: int) { 0 <= n < 0xD800 || 0xE000 <= n < 0x110000 }

  /** The number that the payload bits of continuation bytes add to a lead byte's. */
  function Joined(lead: nat, tail: seq<Byte>): (n: int)
    requires forall k :: 0 <= k < |tail| ==> Continues(tail[k])
    ensures n >= 0
  {
    if tail == [] then lead
    else
      assert Continues(tail[|tail| - 1]);
      var last: int := tail[|tail| - 1];
      Joined(lead, tail[..|tail| - 1]) * 64 + (last - 0x80)
  }

  /** A sequence of `size` bytes standing for a scalar value of at least `least`, or a malformed byte. */
  function DecodeSequence(lead: nat, bytes: seq<Byte>, size: nat, least: nat): (r: (char, nat))
    requires bytes != [] && 2 <= size <= 4
    ensures 1 <= r.1 <= |bytes|
  {
    if |bytes| < size || exists k :: 1 <= k < size && !Continues(bytes[k]) then (REPLACEMENT, 1)
    else
      var n := Joined(lead, bytes[1..size]);
      if n >= least && Scalar(n) then (n as char, size) else (REPLACEMENT, 1)
  }

  /** The first character of some bytes and how many bytes it takes; a malformed byte is replaced. */
  function DecodeChar(bytes: seq<Byte>): (r: (char, nat))
    requires bytes != []
    ensures 1 <= r.1 <= |bytes|
  {
    var a: int := bytes[0];
    if a < 0x80 then (a as char, 1)
    else if 0xC2 <= a < 0xE0 then DecodeSequence(a - 0xC0, bytes, 2, 0x80)
    else if 0xE0 <= a < 0xF0 then DecodeSequence(a - 0xE0, bytes, 3, 0x800)
    else if 0xF0 <= a < 0xF5 then DecodeSequence(a - 0xF0, bytes, 4, 0x10000)
    else (REPLACEMENT, 1)
  }

  function Decode(bytes: seq<Byte>): string {
    if bytes == [] then "" else [DecodeChar(bytes).0] + Decode(bytes[DecodeChar(bytes).1..])
  }

  lemma JoinOne(lead: nat, x: Byte)
    requires Continues(x)
    ensures Joined(lead, [x]) == lead * 64 + (x - 0x80)
  {
    assert [x][..0] == [];
  }

  lemma JoinTwo(lead: nat, x: Byte, y: Byte)
    requires Continues(x) && Continues(y)
    ensures Joined(lead, [x, y]) == (lead * 64 + (x - 0x80)) * 64 + (y - 0x80)
  {
    JoinOne(lead, x);
    assert [x, y][..1] == [x];
  }

  lemma JoinThree(lead: nat, x: Byte, y: Byte, z: Byte)
    requires Continues(x) && Continues(y) && Continues(z)
    ensures Joined(lead, [x, y, z]) == ((lead * 64 + (x - 0x80)) * 64 + (y - 0x80)) * 64 + (z - 0x80)
  {
    JoinTwo(lead, x, y);
    assert [x, y, z][..2] == [x, y];
  }

  lemma CharRoundTrip(c: char, rest: seq<Byte>)
    ensures DecodeChar(EncodeChar(c) + rest) == (c, |EncodeChar(c)|)
  {
    var n := c as int;
    var head := EncodeChar(c);
    assert (head + rest)[..|head|] == head;
    assert (head + rest)[1..|head|] == head[1..];
    if 0x80 <= n < 0x800 {
      JoinOne(n / 64, head[1]);
      assert head[1..] == [head[1]];
    } else if 0x800 <= n < 0x10000 {
      JoinTwo(n / 4096, head[1], head[2]);
      assert head[1..] == [head[1], head[2]];
      assert n / 4096 == n / 64 / 64;
    } else if 0x10000 <= n {
      JoinThree(n / 262144, head[1], head[2], head[3]);
      assert head[1..] == [head[1], head[2], head[3]];
      assert n / 4096 == n / 64 / 64 && n / 262144 == n / 4096 / 64;
    }
  }

  /** Decoding the bytes of a text gives the text back. */
  lemma {:induction false} RoundTrip(text: string)
    ensures Decode(Encode(text)) == text
  {
    if text != "" {
      var head := EncodeChar(text[0]);
      CharRoundTrip(text[0], Encode(text[1..]));
      assert (head + Encode(text[1..]))[|head|..] == Encode(text[1..]);
      RoundTrip(text[1..]);
    }
  }

  lemma {:induction false} EncodeConcat(a: string, b: string)
    ensures Encode(a + b) == Encode(a) + Encode(b)
  {
    if a == "" {
      assert a + b == b;
    } else {
      EncodeConcat(a[1..], b);
      assert (a + b)[1..] == a[1..] + b;
    }
  }

  /** The byte of a newline occurs only where the text has one. */
  lemma {:induction false} NewlineOnlyForNewline(text: string)
    requires '\n' !in text
    ensures NEWLINE !in Encode(text)
  {
    if text != "" {
      NewlineOnlyForNewline(text[1..]);
      assert text[0] in text && forall c :: c in text[1..] ==> c in text;
    }
  }
}
