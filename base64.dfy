/** Base64 text encoding of byte strings with the standard alphabet and
    '=' padding of section 4 of RFC 4648. This is the encoding behind the
    byte vector's `toBase64`, used for the `r_hash` field of a settlement
    record. Decode is the strict (canonical) inverse: it accepts exactly the
    texts that Encode produces. */
module Base64 {

  import opened Options

  type Byte = b: int | 0 <= b < 256

  /** One symbol of the alphabet carries six bits. */
  type Sextet = i: int | 0 <= i < 64

  const Pad: char := '='

  /** The alphabet of Table 1 of RFC 4648: A-Z, a-z, 0-9, '+', '/'. */
  function Symbol(i: Sextet): (c: char)
    ensures c != Pad
  {
    if i < 26 then (65 + i) as char
    else if i < 52 then (97 + i - 26) as char
    else if i < 62 then (48 + i - 52) as char
    else if i == 62 then '+'
    else '/'
  }

  /** The position of a character in the alphabet, if it is a symbol. */
  function SymbolIndex(c: char): (r: Option<Sextet>)
    ensures r.Some? ==> Symbol(r.value) == c
  {
    if 'A' <= c <= 'Z' then Some(c as int - 65)
    else if 'a' <= c <= 'z' then Some(c as int - 97 + 26)
    else if '0' <= c <= '9' then Some(c as int - 48 + 52)
    else if c == '+' then Some(62)
    else if c == '/' then Some(63)
    else None
  }

  lemma SymbolIndexOfSymbol(i: Sextet)
    ensures SymbolIndex(Symbol(i)) == Some(i)
  {
  }

  /** Three bytes become four symbols. */
  function EncodeGroup(a: Byte, b: Byte, c: Byte): (t: string)
    ensures |t| == 4 && Pad !in t
  {
    [Symbol(a / 4), Symbol(a % 4 * 16 + b / 16), Symbol(b % 16 * 4 + c / 64), Symbol(c % 64)]
  }

  /** Groups of three bytes, left to right; a final group of one or two
      bytes is padded with '=' to four characters. */
  function Encode(s: seq<Byte>): (t: string)
    ensures |t| == 4 * ((|s| + 2) / 3)
    decreases |s|
  {
    if |s| < 3 then EncodeFinal(s)
    else EncodeGroup(s[0], s[1], s[2]) + Encode(s[3..])
  }

  /** The last one or two bytes, padded; nothing for no bytes. */
  function EncodeFinal(s: seq<Byte>): (t: string)
    requires |s| < 3
    ensures |t| == if |s| == 0 then 0 else 4
  {
    if |s| == 0 then ""
    else if |s| == 1 then [Symbol(s[0] / 4), Symbol(s[0] % 4 * 16), Pad, Pad]
    else [Symbol(s[0] / 4), Symbol(s[0] % 4 * 16 + s[1] / 16), Symbol(s[1] % 16 * 4), Pad]
  }

  /** Four symbols become three bytes. */
  function DecodeGroup(g: string): (r: Option<seq<Byte>>)
    requires |g| == 4
  {
    match (SymbolIndex(g[0]), SymbolIndex(g[1]), SymbolIndex(g[2]), SymbolIndex(g[3]))
    case (Some(i0), Some(i1), Some(i2), Some(i3)) =>
      Some([i0 * 4 + i1 / 16, i1 % 16 * 16 + i2 / 4, i2 % 4 * 64 + i3])
    case _ => None
  }

  /** The last group may also be padded; the bits that padding discards must
      be zero, so that every byte string has exactly one encoding. */
  function DecodeLastGroup(g: string): (r: Option<seq<Byte>>)
    requires |g| == 4
  {
    if g[2] == Pad && g[3] == Pad then
      match (SymbolIndex(g[0]), SymbolIndex(g[1]))
      case (Some(i0), Some(i1)) =>
        if i1 % 16 == 0 then Some([i0 * 4 + i1 / 16]) else None
      case _ => None
    else if g[3] == Pad then
      match (SymbolIndex(g[0]), SymbolIndex(g[1]), SymbolIndex(g[2]))
      case (Some(i0), Some(i1), Some(i2)) =>
        if i2 % 4 == 0 then Some([i0 * 4 + i1 / 16, i1 % 16 * 16 + i2 / 4]) else None
      case _ => None
    else
      DecodeGroup(g)
  }

  function Decode(t: string): (r: Option<seq<Byte>>)
    decreases |t|
  {
    if |t| == 0 then Some([])
    else if |t| < 4 then None
    else if |t| == 4 then DecodeLastGroup(t)
    else
      match (DecodeGroup(t[..4]), Decode(t[4..]))
      case (Some(g), Some(rest)) => Some(g + rest)
      case _ => None
  }

  /** Three bytes split into symbols and joined again, in both directions. */
  lemma JoinSplitBytes(a: Byte, b: Byte, c: Byte)
    ensures (a / 4) * 4 + (a % 4 * 16 + b / 16) / 16 == a
    ensures (a % 4 * 16 + b / 16) % 16 * 16 + (b % 16 * 4 + c / 64) / 4 == b
    ensures (b % 16 * 4 + c / 64) % 4 * 64 + c % 64 == c
  {
  }

  lemma DecodeEncodeGroup(a: Byte, b: Byte, c: Byte)
    ensures DecodeGroup(EncodeGroup(a, b, c)) == Some([a, b, c])
  {
    var g := EncodeGroup(a, b, c);
    SymbolIndexOfSymbol(a / 4);
    SymbolIndexOfSymbol(a % 4 * 16 + b / 16);
    SymbolIndexOfSymbol(b % 16 * 4 + c / 64);
    SymbolIndexOfSymbol(c % 64);
    JoinSplitBytes(a, b, c);
  }

  lemma DecodeEncodeOne(a: Byte)
    ensures DecodeLastGroup(EncodeFinal([a])) == Some([a])
  {
    SymbolIndexOfSymbol(a / 4);
    SymbolIndexOfSymbol(a % 4 * 16);
    var t := EncodeFinal([a]);
    assert t[2] == Pad && t[3] == Pad;
    assert (a % 4 * 16) % 16 == 0 && a / 4 * 4 + (a % 4 * 16) / 16 == a;
  }

  lemma DecodeEncodeTwo(a: Byte, b: Byte)
    ensures DecodeLastGroup(EncodeFinal([a, b])) == Some([a, b])
  {
    SymbolIndexOfSymbol(a / 4);
    SymbolIndexOfSymbol(a % 4 * 16 + b / 16);
    SymbolIndexOfSymbol(b % 16 * 4);
    JoinSplitBytes(a, b, 0);
    var t := EncodeFinal([a, b]);
    assert t[2] != Pad && t[3] == Pad;
  }

  lemma DecodeEncodeFinal(s: seq<Byte>)
    requires |s| < 3
    ensures Decode(EncodeFinal(s)) == Some(s)
  {
    if |s| == 1 {
      DecodeEncodeOne(s[0]);
      assert s == [s[0]];
    } else if |s| == 2 {
      DecodeEncodeTwo(s[0], s[1]);
      assert s == [s[0], s[1]];
    }
  }

  lemma DecodeEncodeThree(s: seq<Byte>)
    requires |s| == 3
    ensures Decode(Encode(s)) == Some(s)
  {
    var g := EncodeGroup(s[0], s[1], s[2]);
    assert Encode(s) == g + Encode(s[3..]);
    assert Encode(s[3..]) == EncodeFinal(s[3..]) == [];
    assert Encode(s) == g;
    assert g[2] != Pad && g[3] != Pad;
    DecodeEncodeGroup(s[0], s[1], s[2]);
    assert s == [s[0], s[1], s[2]];
  }

  /** A text of more than one group decodes group by group. */
  lemma DecodeSplit(g: string, rest: string)
    requires |g| == 4 && |rest| > 0
    ensures Decode(g + rest) ==
      match (DecodeGroup(g), Decode(rest))
      case (Some(x), Some(y)) => Some(x + y)
      case _ => None
  {
    var t := g + rest;
    assert t[..4] == g && t[4..] == rest;
  }

  lemma DecodeEncodeStep(s: seq<Byte>)
    requires |s| > 3 && Decode(Encode(s[3..])) == Some(s[3..])
    ensures Decode(Encode(s)) == Some(s)
  {
    var g := EncodeGroup(s[0], s[1], s[2]);
    var rest := Encode(s[3..]);
    assert Encode(s) == g + rest;
    assert |rest| > 0 by {
      assert (|s[3..]| + 2) / 3 >= 1;
    }
    DecodeEncodeGroup(s[0], s[1], s[2]);
    DecodeSplit(g, rest);
    assert Decode(g + rest) == Some([s[0], s[1], s[2]] + s[3..]);
    SplitFirstThree(s);
  }

  lemma SplitFirstThree(s: seq<Byte>)
    requires |s| >= 3
    ensures [s[0], s[1], s[2]] + s[3..] == s
  {
    assert s == s[..3] + s[3..];
  }

  /** Decoding inverts encoding. */
  lemma {:induction false} DecodeEncode(s: seq<Byte>)
    ensures Decode(Encode(s)) == Some(s)
    decreases |s|
  {
    if |s| < 3 {
      DecodeEncodeFinal(s);
    } else if |s| == 3 {
      DecodeEncodeThree(s);
    } else {
      DecodeEncode(s[3..]);
      DecodeEncodeStep(s);
    }
  }

  /** Four symbols joined into bytes and split again, in both directions. */
  lemma SplitJoinSextets(i0: Sextet, i1: Sextet, i2: Sextet, i3: Sextet)
    ensures 0 <= i0 * 4 + i1 / 16 < 256
    ensures 0 <= i1 % 16 * 16 + i2 / 4 < 256
    ensures 0 <= i2 % 4 * 64 + i3 < 256
    ensures (i0 * 4 + i1 / 16) / 4 == i0 && (i0 * 4 + i1 / 16) % 4 == i1 / 16
    ensures (i1 % 16 * 16 + i2 / 4) / 16 == i1 % 16 && (i1 % 16 * 16 + i2 / 4) % 16 == i2 / 4
    ensures (i2 % 4 * 64 + i3) / 64 == i2 % 4 && (i2 % 4 * 64 + i3) % 64 == i3
  {
  }

  /** The symbols of three bytes joined from four sextets are those sextets. */
  lemma RegroupSextets(i0: Sextet, i1: Sextet, i2: Sextet, i3: Sextet, a: Byte, b: Byte, c: Byte)
    requires a == i0 * 4 + i1 / 16 && b == i1 % 16 * 16 + i2 / 4 && c == i2 % 4 * 64 + i3
    ensures EncodeGroup(a, b, c) == [Symbol(i0), Symbol(i1), Symbol(i2), Symbol(i3)]
  {
    SplitJoinSextets(i0, i1, i2, i3);
    assert i1 / 16 * 16 + i1 % 16 == i1;
    assert i2 / 4 * 4 + i2 % 4 == i2;
    assert a / 4 == i0 && a % 4 * 16 + b / 16 == i1 && b % 16 * 4 + c / 64 == i2 && c % 64 == i3;
  }

  lemma EncodeDecodeGroup(g: string)
    requires |g| == 4 && DecodeGroup(g).Some?
    ensures var s := DecodeGroup(g).value; |s| == 3 && EncodeGroup(s[0], s[1], s[2]) == g
  {
    var i0, i1, i2, i3 := SymbolIndex(g[0]).value, SymbolIndex(g[1]).value, SymbolIndex(g[2]).value, SymbolIndex(g[3]).value;
    var s := DecodeGroup(g).value;
    SplitJoinSextets(i0, i1, i2, i3);
    RegroupSextets(i0, i1, i2, i3, s[0], s[1], s[2]);
    assert [Symbol(i0), Symbol(i1), Symbol(i2), Symbol(i3)] == [g[0], g[1], g[2], g[3]] == g;
  }

  lemma EncodeDecodeOne(g: string)
    requires |g| == 4 && g[2] == Pad && g[3] == Pad && DecodeLastGroup(g).Some?
    ensures Encode(DecodeLastGroup(g).value) == g
  {
    var i0, i1 := SymbolIndex(g[0]).value, SymbolIndex(g[1]).value;
    SplitJoinSextets(i0, i1, 0, 0);
    assert i1 / 16 * 16 + i1 % 16 == i1;
  }

  lemma EncodeDecodeTwo(g: string)
    requires |g| == 4 && g[2] != Pad && g[3] == Pad && DecodeLastGroup(g).Some?
    ensures Encode(DecodeLastGroup(g).value) == g
  {
    var i0, i1, i2 := SymbolIndex(g[0]).value, SymbolIndex(g[1]).value, SymbolIndex(g[2]).value;
    SplitJoinSextets(i0, i1, i2, 0);
    assert i1 / 16 * 16 + i1 % 16 == i1;
    assert i2 / 4 * 4 + i2 % 4 == i2;
  }

  lemma EncodeDecodeThree(g: string)
    requires |g| == 4 && g[3] != Pad && DecodeGroup(g).Some?
    ensures Encode(DecodeGroup(g).value) == g
  {
    var s := DecodeGroup(g).value;
    EncodeDecodeGroup(g);
    assert Encode(s) == EncodeGroup(s[0], s[1], s[2]) + Encode(s[3..]);
    assert Encode(s[3..]) == EncodeFinal(s[3..]) == [];
  }

  lemma EncodeDecodeStep(t: string)
    requires |t| > 4 && Decode(t).Some?
    requires Encode(Decode(t[4..]).value) == t[4..]
    ensures Encode(Decode(t).value) == t
  {
    var s := Decode(t).value;
    var g := DecodeGroup(t[..4]).value;
    var rest := Decode(t[4..]).value;
    EncodeDecodeGroup(t[..4]);
    assert s == g + rest;
    assert s[..3] == g && s[3..] == rest;
    assert Encode(s) == EncodeGroup(s[0], s[1], s[2]) + Encode(s[3..]);
    assert t == t[..4] + t[4..];
  }

  /** Every text that decodes is the encoding of what it decodes to: the
      encoding is canonical. */
  lemma {:induction false} EncodeDecode(t: string)
    requires Decode(t).Some?
    ensures Encode(Decode(t).value) == t
    decreases |t|
  {
    if |t| == 4 {
      if t[2] == Pad && t[3] == Pad {
        EncodeDecodeOne(t);
      } else if t[3] == Pad {
        EncodeDecodeTwo(t);
      } else {
        EncodeDecodeThree(t);
      }
    } else if |t| > 4 {
      EncodeDecode(t[4..]);
      EncodeDecodeStep(t);
    }
  }

  /** The test vectors of section 10 of RFC 4648 for "", "f", "fo" and
      "foo". */
  lemma TestVectorsShort()
    ensures Encode([]) == ""
    ensures Encode([102]) == "Zg=="
    ensures Encode([102, 111]) == "Zm8="
    ensures Encode([102, 111, 111]) == "Zm9v"
  {
    var foo: seq<Byte> := [102, 111, 111];
    assert foo[3..] == [];
  }

  /** The test vector of section 10 of RFC 4648 for "foobar". */
  lemma TestVectorFoobar()
    ensures Encode([102, 111, 111, 98, 97, 114]) == "Zm9vYmFy"
  {
    var foobar: seq<Byte> := [102, 111, 111, 98, 97, 114];
    var bar: seq<Byte> := [98, 97, 114];
    assert foobar[3..] == bar;
    assert Encode(foobar) == EncodeGroup(102, 111, 111) + Encode(bar);
    GroupFoo();
    TestVectorBar();
    assert "Zm9v" + "YmFy" == "Zm9vYmFy";
  }

  lemma GroupFoo()
    ensures EncodeGroup(102, 111, 111) == "Zm9v"
  {
  }

  lemma TestVectorBar()
    ensures Encode([98, 97, 114]) == "YmFy"
  {
    var bar: seq<Byte> := [98, 97, 114];
    assert bar[3..] == [];
  }

  /** The two symbols after the letters and digits, '+' and '/'. */
  lemma TestVectorsHigh()
    ensures Encode([251, 255]) == "+/8="
    ensures Encode([255, 254, 253]) == "//79"
  {
    var ff: seq<Byte> := [255, 254, 253];
    assert ff[3..] == [];
    assert Encode(ff) == EncodeGroup(255, 254, 253) == [Symbol(63), Symbol(63), Symbol(59), Symbol(61)];
    assert Encode([251, 255]) == [Symbol(62), Symbol(63), Symbol(60), Pad];
  }

  /** Distinct byte strings have distinct encodings. */
  lemma EncodeInjective(s1: seq<Byte>, s2: seq<Byte>)
    requires Encode(s1) == Encode(s2)
    ensures s1 == s2
  {
    DecodeEncode(s1);
    DecodeEncode(s2);
  }
}
