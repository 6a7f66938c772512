/** The UTF-8 encoding of text (RFC 3629, section 3), by which Go's len measures strings. */
module Utf8 {
  import opened Options

  type Byte = n: nat | n < 0x100

  /** The continuation byte for six bits. */
  function Tail(bits: nat): Byte
    requires bits < 0x40
  {
    0x80 + bits
  }

  function Encoded(c: char): seq<Byte> {
    var code := c as nat;
    var q := code / 0x40;
    if code < 0x80 then [code]
    else if code < 0x800 then [0xc0 + q, Tail(code % 0x40)]
    else if code < 0x1_0000 then [0xe0 + q / 0x40, Tail(q % 0x40), Tail(code % 0x40)]
    else [0xf0 + q / 0x40 / 0x40, Tail(q / 0x40 % 0x40), Tail(q % 0x40), Tail(code % 0x40)]
  }

  function EncodedText(s: string): seq<Byte> {
    if s == [] then [] else Encoded(s[0]) + EncodedText(s[1..])
  }

  // ---------- Decoding ----------

  predicate IsTail(b: Byte) {
    0x80 <= b < 0xc0
  }

  /** How many bytes a first byte announces; 0 for a byte that is none. */
  function Announced(b: Byte): nat {
    if b < 0x80 then 1 else if b < 0xc0 then 0 else if b < 0xe0 then 2 else if b < 0xf0 then 3 else if b < 0xf8 then 4
    else 0
  }

  /** The bits of a continuation byte behind others. */
  function Appended(bits: int, b: Byte): int {
    bits * 0x40 + (b as int - 0x80)
  }

  /** What the bits of the first n bytes come to. */
  function Code(bytes: seq<Byte>, n: nat): int
    requires 1 <= n <= 4 && n <= |bytes|
  {
    if n == 1 then bytes[0] as int
    else if n == 2 then Appended(bytes[0] as int - 0xc0, bytes[1])
    else if n == 3 then Appended(Appended(bytes[0] as int - 0xe0, bytes[1]), bytes[2])
    else Appended(Appended(Appended(bytes[0] as int - 0xf0, bytes[1]), bytes[2]), bytes[3])
  }

  /** The smallest code that takes n bytes. */
  function Smallest(n: nat): nat {
    if n <= 1 then 0 else if n == 2 then 0x80 else if n == 3 then 0x800 else 0x1_0000
  }

  predicate IsScalar(code: int) {
    0 <= code < 0xd800 || 0xe000 <= code < 0x11_0000
  }

  datatype First = First(c: char, length: nat)

  /** The first character and its length in bytes, unless the bytes do not begin with one in its shortest form. */
  function DecodedFirst(bytes: seq<Byte>): Option<First> {
    if bytes == [] then None
    else
      var n := Announced(bytes[0]);
      if n == 0 || |bytes| < n || exists i | 1 <= i < n :: !IsTail(bytes[i]) then None
      else
        var code := Code(bytes, n);
        if Smallest(n) <= code && IsScalar(code) then Some(First(code as char, n)) else None
  }

  function DecodedText(bytes: seq<Byte>): Option<string> {
    if bytes == [] then Some([])
    else
      var first := DecodedFirst(bytes);
      if first.None? || first.value.length == 0 || |bytes| < first.value.length then None
      else
        var rest := DecodedText(bytes[first.value.length..]);
        if rest.None? then None else Some([first.value.c] + rest.value)
  }

  // ---------- Round trips ----------

  /** What is encoded is read back, whatever follows. */
  lemma DecodeEncoded(c: char, rest: seq<Byte>)
    ensures DecodedFirst(Encoded(c) + rest) == Some(First(c, |Encoded(c)|))
  {
    var bytes, n := Encoded(c) + rest, |Encoded(c)|;
    assert forall i | 0 <= i < n :: bytes[i] == Encoded(c)[i];
    assert Announced(bytes[0]) == n;
    assert Code(bytes, n) == c as int;
  }

  /** There is no other encoding of a character. */
  lemma EncodeDecoded(bytes: seq<Byte>)
    requires DecodedFirst(bytes).Some?
    ensures var first := DecodedFirst(bytes).value;
      first.length <= |bytes| && bytes[..first.length] == Encoded(first.c)
  {
    var n := Announced(bytes[0]);
    assert forall i | 1 <= i < n :: IsTail(bytes[i]);
    SplitCode(bytes, n);
  }

  lemma AppendedParts(bits: int, b: Byte)
    requires IsTail(b)
    ensures Appended(bits, b) / 0x40 == bits && Appended(bits, b) % 0x40 == b - 0x80
  {
  }

  /** A code that takes n bytes is encoded in the bytes that it was put together from. */
  lemma SplitCode(bytes: seq<Byte>, n: nat)
    requires 1 <= n <= |bytes| && n == Announced(bytes[0]) && forall i | 1 <= i < n :: IsTail(bytes[i])
    requires Smallest(n) <= Code(bytes, n) && IsScalar(Code(bytes, n))
    ensures bytes[..n] == Encoded(Code(bytes, n) as char)
  {
    if n == 2 {
      SplitTwo(bytes);
    } else if n == 3 {
      SplitThree(bytes);
    } else if n == 4 {
      SplitFour(bytes);
    }
  }

  lemma SplitTwo(bytes: seq<Byte>)
    requires 2 <= |bytes| && 0xc0 <= bytes[0] < 0xe0 && IsTail(bytes[1]) && 0x80 <= Code(bytes, 2)
    ensures bytes[..2] == Encoded(Code(bytes, 2) as char)
  {
    AppendedParts(bytes[0] - 0xc0, bytes[1]);
    hide Appended;
  }

  lemma SplitThree(bytes: seq<Byte>)
    requires 3 <= |bytes| && 0xe0 <= bytes[0] < 0xf0 && IsTail(bytes[1]) && IsTail(bytes[2])
    requires 0x800 <= Code(bytes, 3) && IsScalar(Code(bytes, 3))
    ensures bytes[..3] == Encoded(Code(bytes, 3) as char)
  {
    var a := Appended(bytes[0] - 0xe0, bytes[1]);
    assert Code(bytes, 3) == Appended(a, bytes[2]) && a < 0x400;
    AppendedParts(bytes[0] - 0xe0, bytes[1]);
    AppendedParts(a, bytes[2]);
    assert Appended(a, bytes[2]) < 0x1_0000;
    hide Appended, Code;
  }

  lemma SplitFour(bytes: seq<Byte>)
    requires 4 <= |bytes| && 0xf0 <= bytes[0] < 0xf8 && IsTail(bytes[1]) && IsTail(bytes[2]) && IsTail(bytes[3])
    requires 0x1_0000 <= Code(bytes, 4) && IsScalar(Code(bytes, 4))
    ensures bytes[..4] == Encoded(Code(bytes, 4) as char)
  {
    var a := Appended(bytes[0] - 0xf0, bytes[1]);
    var b := Appended(a, bytes[2]);
    assert Code(bytes, 4) == Appended(b, bytes[3]);
    AppendedParts(bytes[0] - 0xf0, bytes[1]);
    AppendedParts(a, bytes[2]);
    AppendedParts(b, bytes[3]);
    hide Appended, Code;
  }

  lemma {:induction false} TextRoundTrip(s: string)
    ensures DecodedText(EncodedText(s)) == Some(s)
  {
    if s != [] {
      TextRoundTrip(s[1..]);
      var bytes := EncodedText(s);
      DecodeEncoded(s[0], EncodedText(s[1..]));
      assert bytes[|Encoded(s[0])|..] == EncodedText(s[1..]);
      assert [s[0]] + s[1..] == s;
    }
  }
}
