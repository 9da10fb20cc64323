/**
 * Base64 as defined in section 4 of RFC 4648: the standard alphabet
 * `A-Z a-z 0-9 + /` and `=` padding, as produced by Python's `base64.b64encode`.
 */
module Base64 {
  import opened Wrappers

  type Byte = x: int | 0 <= x < 256
  type Sextet = x: int | 0 <= x < 64

  /** The alphabet character for a 6-bit value (RFC 4648, Table 1). */
  function Char(i: Sextet): (c: char)
    ensures IsAlphabet(c) && Index(c) == i
  {
    if i < 26 then (65 + i) as char
    else if i < 52 then (97 + i - 26) as char
    else if i < 62 then (48 + i - 52) as char
    else if i == 62 then '+'
    else '/'
  }

  predicate IsAlphabet(c: char) {
    'A' <= c <= 'Z' || 'a' <= c <= 'z' || '0' <= c <= '9' || c == '+' || c == '/'
  }

  /** The 6-bit value an alphabet character stands for. */
  function Index(c: char): Sextet
    requires IsAlphabet(c)
  {
    if 'A' <= c <= 'Z' then c as int - 65
    else if 'a' <= c <= 'z' then c as int - 97 + 26
    else if '0' <= c <= '9' then c as int - 48 + 52
    else if c == '+' then 62
    else 63
  }

  /** Three bytes, 24 bits, as four characters. */
  function Block(b0: Byte, b1: Byte, b2: Byte): string {
    [Char(b0 / 4), Char(b0 % 4 * 16 + b1 / 16), Char(b1 % 16 * 4 + b2 / 64), Char(b2 % 64)]
  }

  /** The encoding: full blocks, then one or two trailing bytes padded with `=`. */
  function Encode(bs: seq<Byte>): (s: string)
    ensures |s| == 4 * ((|bs| + 2) / 3)
  {
    if |bs| == 0 then ""
    else if |bs| == 1 then [Char(bs[0] / 4), Char(bs[0] % 4 * 16), '=', '=']
    else if |bs| == 2 then [Char(bs[0] / 4), Char(bs[0] % 4 * 16 + bs[1] / 16), Char(bs[1] % 16 * 4), '=']
    else
      assert (|bs[3..]| + 2) / 3 == (|bs| + 2) / 3 - 1;
      Block(bs[0], bs[1], bs[2]) + Encode(bs[3..])
  }

  /** Four sextets, 24 bits, as three bytes; a padded block keeps only its first one or two. */
  function Bytes3(i0: Sextet, i1: Sextet, i2: Sextet, i3: Sextet): seq<Byte> {
    [i0 * 4 + i1 / 16, i1 % 16 * 16 + i2 / 4, i2 % 4 * 64 + i3]
  }

  /** The decoding of padded text; `None` for text that is not an encoding. */
  function Decode(s: string): Option<seq<Byte>> {
    if |s| == 0 then Some([])
    else if |s| < 4 || !IsAlphabet(s[0]) || !IsAlphabet(s[1]) then None
    else if |s| == 4 && s[2] == '=' && s[3] == '=' then
      Some(Bytes3(Index(s[0]), Index(s[1]), 0, 0)[..1])
    else if !IsAlphabet(s[2]) then None
    else if |s| == 4 && s[3] == '=' then
      Some(Bytes3(Index(s[0]), Index(s[1]), Index(s[2]), 0)[..2])
    else if !IsAlphabet(s[3]) then None
    else
      match Decode(s[4..])
      case None => None
      case Some(rest) => Some(Bytes3(Index(s[0]), Index(s[1]), Index(s[2]), Index(s[3])) + rest)
  }

  /** The bit arithmetic of one block: the three bytes come back from the four sextets. */
  lemma BlockBits(b0: Byte, b1: Byte, b2: Byte)
    ensures Bytes3(b0 / 4, b0 % 4 * 16 + b1 / 16, b1 % 16 * 4 + b2 / 64, b2 % 64) == [b0, b1, b2]
  {
    var i0, i1, i2, i3 := b0 / 4, b0 % 4 * 16 + b1 / 16, b1 % 16 * 4 + b2 / 64, b2 % 64;
    assert i1 / 16 == b0 % 4 && i1 % 16 == b1 / 16;
    assert i2 / 4 == b1 % 16 && i2 % 4 == b2 / 64;
    assert i0 * 4 + i1 / 16 == b0;
    assert i1 % 16 * 16 + i2 / 4 == b1;
    assert i2 % 4 * 64 + i3 == b2;
  }

  lemma DecodeBlock(b0: Byte, b1: Byte, b2: Byte, tail: string)
    requires Decode(tail).Some?
    ensures Decode(Block(b0, b1, b2) + tail) == Some([b0, b1, b2] + Decode(tail).value)
  {
    var block := Block(b0, b1, b2);
    var s := block + tail;
    assert s[..4] == block && s[4..] == tail;
    assert IsAlphabet(s[0]) && IsAlphabet(s[1]) && IsAlphabet(s[2]) && IsAlphabet(s[3]);
    assert Bytes3(Index(s[0]), Index(s[1]), Index(s[2]), Index(s[3])) == [b0, b1, b2] by {
      BlockBits(b0, b1, b2);
    }
  }

  lemma DecodeOne(b0: Byte)
    ensures Decode(Encode([b0])) == Some([b0])
  {
    var s := Encode([b0]);
    assert s == [Char(b0 / 4), Char(b0 % 4 * 16), '=', '='];
    assert Index(s[0]) == b0 / 4 && Index(s[1]) == b0 % 4 * 16;
    BlockBits(b0, 0, 0);
    assert Bytes3(b0 / 4, b0 % 4 * 16, 0, 0) == [b0, 0, 0];
    assert Decode(s) == Some(Bytes3(Index(s[0]), Index(s[1]), 0, 0)[..1]);
    assert [b0, 0, 0][..1] == [b0];
  }

  lemma DecodeTwo(b0: Byte, b1: Byte)
    ensures Decode(Encode([b0, b1])) == Some([b0, b1])
  {
    var s := Encode([b0, b1]);
    assert s == [Char(b0 / 4), Char(b0 % 4 * 16 + b1 / 16), Char(b1 % 16 * 4), '='];
    assert Index(s[0]) == b0 / 4 && Index(s[1]) == b0 % 4 * 16 + b1 / 16 && Index(s[2]) == b1 % 16 * 4;
    BlockBits(b0, b1, 0);
    assert Bytes3(b0 / 4, b0 % 4 * 16 + b1 / 16, b1 % 16 * 4, 0) == [b0, b1, 0];
    assert Decode(s) == Some(Bytes3(Index(s[0]), Index(s[1]), Index(s[2]), 0)[..2]);
    assert [b0, b1, 0][..2] == [b0, b1];
  }

  lemma DecodeEncodeStep(bs: seq<Byte>)
    requires |bs| >= 3 && Decode(Encode(bs[3..])) == Some(bs[3..])
    ensures Decode(Encode(bs)) == Some(bs)
  {
    assert Encode(bs) == Block(bs[0], bs[1], bs[2]) + Encode(bs[3..]);
    DecodeBlock(bs[0], bs[1], bs[2], Encode(bs[3..]));
    SplitThree(bs);
  }

  lemma SplitThree(bs: seq<Byte>)
    requires |bs| >= 3
    ensures bs == [bs[0], bs[1], bs[2]] + bs[3..]
  {
  }

  /** Decoding undoes encoding for every byte sequence. */
  lemma {:induction false} DecodeEncode(bs: seq<Byte>)
    ensures Decode(Encode(bs)) == Some(bs)
  {
    if |bs| == 1 {
      assert bs == [bs[0]];
      DecodeOne(bs[0]);
    } else if |bs| == 2 {
      assert bs == [bs[0], bs[1]];
      DecodeTwo(bs[0], bs[1]);
    } else if |bs| >= 3 {
      DecodeEncode(bs[3..]);
      DecodeEncodeStep(bs);
    }
  }

  /** The first four test vectors of section 10 of RFC 4648: "", "f", "fo", "foo". */
  lemma Rfc4648ShortVectors()
    ensures Encode([]) == ""
    ensures Encode([102]) == "Zg=="
    ensures Encode([102, 111]) == "Zm8="
    ensures Encode([102, 111, 111]) == "Zm9v"
  {
    assert [102, 111, 111][3..] == [];
  }

  /** The last three test vectors of section 10 of RFC 4648: "foob", "fooba", "foobar". */
  lemma Rfc4648LongVectors()
    ensures Encode([102, 111, 111, 98]) == "Zm9vYg=="
    ensures Encode([102, 111, 111, 98, 97]) == "Zm9vYmE="
    ensures Encode([102, 111, 111, 98, 97, 114]) == "Zm9vYmFy"
  {
    Rfc4648ShortVectors();
    assert [102, 111, 111, 98][3..] == [98];
    assert [102, 111, 111, 98, 97][3..] == [98, 97];
    assert [102, 111, 111, 98, 97, 114][3..] == [98, 97, 114];
    assert [98, 97, 114][3..] == [];
  }

  /** By the round trip, two distinct byte sequences never share an encoding. */
  lemma EncodeInjective(xs: seq<Byte>, ys: seq<Byte>)
    requires Encode(xs) == Encode(ys)
    ensures xs == ys
  {
    DecodeEncode(xs);
    DecodeEncode(ys);
  }
}
