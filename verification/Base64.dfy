/** The hand-written base64 encoder, against the decoding of section 4 of RFC 4648. */
module Base64 {
  import opened Wrappers

  // ---------------------------------------------------------------- the alphabet

  const CAPITALS := "ABCDEFGHIJKLMNOPQRSTUVWXYZ"
  const SMALLS := "abcdefghijklmnopqrstuvwxyz"
  const OTHERS := "0123456789+/"
  const ALPHABET := CAPITALS + SMALLS + OTHERS

  const PAD := '='

  function Symbol(v: bv6): char {
    AlphabetSize();
    ALPHABET[v as int]
  }

  lemma AlphabetSize()
    ensures |ALPHABET| == 64
  {
    assert |CAPITALS| == 26 && |SMALLS| == 26 && |OTHERS| == 12;
  }

  /** The value of a symbol, by the ranges of table 1 of RFC 4648; -1 outside the alphabet. */
  function Rank(c: char): (i: int)
    ensures -1 <= i < 64
  {
    if 'A' <= c <= 'Z' then c as int - 'A' as int
    else if 'a' <= c <= 'z' then c as int - 'a' as int + 26
    else if '0' <= c <= '9' then c as int - '0' as int + 52
    else if c == '+' then 62
    else if c == '/' then 63
    else -1
  }

  predicate IsSymbol(c: char) { Rank(c) >= 0 }

  function Value(c: char): bv6
    requires IsSymbol(c)
  {
    Rank(c) as bv6
  }

  lemma CapitalAt(i: int)
    requires 0 <= i < 26
    ensures |CAPITALS| == 26 && Rank(CAPITALS[i]) == i
  {
  }

  lemma SmallAt(i: int)
    requires 0 <= i < 26
    ensures |SMALLS| == 26 && Rank(SMALLS[i]) == i + 26
  {
  }

  lemma OtherAt(i: int)
    requires 0 <= i < 12
    ensures |OTHERS| == 12 && Rank(OTHERS[i]) == i + 52
  {
  }

  lemma RankAt(i: int)
    requires 0 <= i < 64
    ensures |ALPHABET| == 64 && Rank(ALPHABET[i]) == i
  {
    hide Rank, CAPITALS, SMALLS, OTHERS;
    CapitalAt(0);
    SmallAt(0);
    OtherAt(0);
    if i < 26 { CapitalAt(i); } else if i < 52 { SmallAt(i - 26); } else { OtherAt(i - 52); }
  }

  lemma ValueOfSymbol(v: bv6)
    ensures IsSymbol(Symbol(v)) && Value(Symbol(v)) == v && Symbol(v) != PAD
  {
    hide Rank, ALPHABET;
    RankAt(v as int);
    assert Rank(PAD) == -1 by { PadIsNoSymbol(); }
  }

  lemma PadIsNoSymbol()
    ensures Rank(PAD) == -1
  {
  }

  lemma SameRank(c: char, d: char)
    requires Rank(c) == Rank(d) >= 0
    ensures c == d
  {
  }

  lemma SymbolOfValue(c: char)
    requires IsSymbol(c)
    ensures Symbol(Value(c)) == c
  {
    hide Rank, ALPHABET;
    RankAt(Rank(c));
    SameRank(c, ALPHABET[Rank(c)]);
  }

  // ---------------------------------------------------------------- encoding

  /** The byte at a position of the group, 0 past its end. */
  function ByteAt(group: seq<bv8>, k: nat): bv8 { if k < |group| then group[k] else 0 }

  /** The four characters of the first `n` of three bytes. */
  function Quad(a: bv8, b: bv8, c: bv8, n: nat): (s: string)
    ensures |s| == 4
  {
    [ Symbol((a >> 2) as bv6),
      Symbol((((a & 0x03) << 4) | (b >> 4)) as bv6),
      if n > 1 then Symbol((((b & 0x0F) << 2) | (c >> 6)) as bv6) else PAD,
      if n > 2 then Symbol((c & 0x3F) as bv6) else PAD ]
  }

  /** The symbols of one group of one, two or three bytes. */
  function EncodeGroup(group: seq<bv8>): (s: string)
    requires 1 <= |group| <= 3
    ensures |s| == 4
  {
    Quad(ByteAt(group, 0), ByteAt(group, 1), ByteAt(group, 2), |group|)
  }

  function Encode(data: seq<bv8>): string {
    if data == [] then ""
    else if |data| <= 3 then EncodeGroup(data)
    else EncodeGroup(data[..3]) + Encode(data[3..])
  }

  /** The accumulator of the loop holds the same sextets as the bytes. */
  lemma Sextets(a: bv8, b: bv8, c: bv8, n: bv32)
    requires n == ((a as bv32) << 16) | ((b as bv32) << 8) | (c as bv32)
    ensures ((n >> 18) & 0x3F) as bv6 == (a >> 2) as bv6
    ensures ((n >> 12) & 0x3F) as bv6 == (((a & 0x03) << 4) | (b >> 4)) as bv6
    ensures ((n >> 6) & 0x3F) as bv6 == (((b & 0x0F) << 2) | (c >> 6)) as bv6
    ensures (n & 0x3F) as bv6 == (c & 0x3F) as bv6
  {
  }

  lemma QuadOfAccumulator(a: bv8, b: bv8, c: bv8, n: bv32, size: nat)
    requires n == ((a as bv32) << 16) | ((b as bv32) << 8) | (c as bv32)
    ensures var s := Quad(a, b, c, size);
            && s[0] == Symbol(((n >> 18) & 0x3F) as bv6) && s[1] == Symbol(((n >> 12) & 0x3F) as bv6)
            && s[2] == (if size > 1 then Symbol(((n >> 6) & 0x3F) as bv6) else PAD)
            && s[3] == (if size > 2 then Symbol((n & 0x3F) as bv6) else PAD)
  {
    hide Symbol;
    Sextets(a, b, c, n);
  }

  /** The group that starts the rest, and what follows it. */
  function Head(rest: seq<bv8>): seq<bv8> { if |rest| <= 3 then rest else rest[..3] }
  function Tail(rest: seq<bv8>): seq<bv8> { if |rest| <= 3 then [] else rest[3..] }

  lemma NextGroup(rest: seq<bv8>)
    requires rest != []
    ensures Encode(rest) == EncodeGroup(Head(rest)) + Encode(Tail(rest))
    ensures rest == Head(rest) + Tail(rest) && |Tail(rest)| < |rest|
  {
    hide EncodeGroup;
  }

  lemma EncodeEmpty()
    ensures Encode([]) == ""
  {
  }

  method EncodeBase64(data: seq<bv8>) returns (out: string)
    ensures out == Encode(data)
    ensures Decode(out) == Some(data)
  {
    hide Symbol, Decode, Encode, Quad;
    EncodeEmpty();
    out := "";
    var i := 0;
    assert data[0..] == data;
    while i < |data|
      invariant 0 <= i <= |data| + 2
      invariant if i <= |data| then out + Encode(data[i..]) == Encode(data) else out == Encode(data)
    {
      ghost var was, rest := out, data[i..];
      var n := (data[i] as bv32) << 16;
      if i + 1 < |data| { n := n | ((data[i + 1] as bv32) << 8); }
      if i + 2 < |data| { n := n | (data[i + 2] as bv32); }
      ghost var group := Head(rest);
      QuadOfAccumulator(ByteAt(group, 0), ByteAt(group, 1), ByteAt(group, 2), n, |group|);
      out := out + [Symbol(((n >> 18) & 0x3F) as bv6)];
      out := out + [Symbol(((n >> 12) & 0x3F) as bv6)];
      assert out == was + EncodeGroup(group)[..2];
      if i + 1 < |data| {
        out := out + [Symbol(((n >> 6) & 0x3F) as bv6)];
      } else {
        out := out + [PAD];
      }
      assert out == was + EncodeGroup(group)[..3];
      if i + 2 < |data| {
        out := out + [Symbol((n & 0x3F) as bv6)];
      } else {
        out := out + [PAD];
      }
      assert out == was + EncodeGroup(group);
      NextGroup(rest);
      assert |rest| >= 3 ==> Tail(rest) == data[i + 3..];
      i := i + 3;
    }
    assert i == |data| ==> data[i..] == [];
    DecodeEncode(data);
  }

  // ---------------------------------------------------------------- decoding

  /** The bytes of four characters; only the last four may be padded, and pad bits must be zero (section 3.5). */
  function DecodeQuad(q: string, last: bool): (r: Option<seq<bv8>>)
    requires |q| == 4
  {
    if !IsSymbol(q[0]) || !IsSymbol(q[1]) then None
    else
      var w, x := Value(q[0]) as bv8, Value(q[1]) as bv8;
      if last && q[2] == PAD && q[3] == PAD then
        if x & 0x0F == 0 then Some([(w << 2) | (x >> 4)]) else None
      else if !IsSymbol(q[2]) then None
      else
        var y := Value(q[2]) as bv8;
        if last && q[3] == PAD then
          if y & 0x03 == 0 then Some([(w << 2) | (x >> 4), (x << 4) | (y >> 2)]) else None
        else if !IsSymbol(q[3]) then None
        else Some([(w << 2) | (x >> 4), (x << 4) | (y >> 2), (y << 6) | (Value(q[3]) as bv8)])
  }

  /** The decoding of section 4 of RFC 4648, refusing everything no encoder writes. */
  function Decode(s: string): Option<seq<bv8>> {
    if s == "" then Some([])
    else if |s| < 4 then None
    else
      var head, rest := DecodeQuad(s[..4], |s| == 4), Decode(s[4..]);
      if head.None? || rest.None? then None else Some(head.value + rest.value)
  }

  /** The bytes come back from their sextets. */
  lemma BytesBack(a: bv8, b: bv8, c: bv8)
    ensures var w, x := (a >> 2) as bv6, (((a & 0x03) << 4) | (b >> 4)) as bv6;
            var y, z := (((b & 0x0F) << 2) | (c >> 6)) as bv6, (c & 0x3F) as bv6;
            && ((w as bv8) << 2) | ((x as bv8) >> 4) == a
            && ((x as bv8) << 4) | ((y as bv8) >> 2) == b
            && ((y as bv8) << 6) | (z as bv8) == c
            && (b == 0 ==> (x as bv8) & 0x0F == 0) && (c == 0 ==> (y as bv8) & 0x03 == 0)
  {
  }

  lemma PadRefused()
    ensures !IsSymbol(PAD)
  {
  }

  /** What the decoder reads from four symbols with known values. */
  lemma QuadBack(a: bv8, b: bv8, c: bv8, n: nat, last: bool)
    requires 1 <= n <= 3 && (n < 3 ==> last && c == 0) && (n < 2 ==> b == 0)
    ensures DecodeQuad(Quad(a, b, c, n), last) == Some(if n == 1 then [a] else if n == 2 then [a, b] else [a, b, c])
  {
    hide Symbol, Value, IsSymbol;
    var w, x := (a >> 2) as bv6, (((a & 0x03) << 4) | (b >> 4)) as bv6;
    var y, z := (((b & 0x0F) << 2) | (c >> 6)) as bv6, (c & 0x3F) as bv6;
    PadRefused();
    BytesBack(a, b, c);
    ValueOfSymbol(w);
    ValueOfSymbol(x);
    ValueOfSymbol(y);
    ValueOfSymbol(z);
  }

  lemma QuadOfGroup(group: seq<bv8>, last: bool)
    requires 1 <= |group| <= 3 && (|group| < 3 ==> last)
    ensures DecodeQuad(EncodeGroup(group), last) == Some(group)
  {
    hide DecodeQuad, Quad;
    var a, b, c := ByteAt(group, 0), ByteAt(group, 1), ByteAt(group, 2);
    QuadBack(a, b, c, |group|, last);
    assert group == if |group| == 1 then [a] else if |group| == 2 then [a, b] else [a, b, c];
  }

  /** Decoding undoes encoding, for every byte sequence. */
  lemma {:induction false} DecodeEncode(data: seq<bv8>)
    ensures Decode(Encode(data)) == Some(data)
    decreases |data|
  {
    hide EncodeGroup, DecodeQuad;
    if data != [] {
      var group, rest := Head(data), Tail(data);
      NextGroup(data);
      DecodeEncode(rest);
      QuadOfGroup(group, |data| <= 3);
      var s := EncodeGroup(group) + Encode(rest);
      assert s[..4] == EncodeGroup(group) && s[4..] == Encode(rest);
      assert |s| == 4 <==> |data| <= 3;
    }
  }

  /** The sextets come back from the bytes, provided the pad bits are zero. */
  lemma SextetsBack(w: bv6, x: bv6, y: bv6, z: bv6)
    ensures var a, b, c := ((w as bv8) << 2) | ((x as bv8) >> 4), ((x as bv8) << 4) | ((y as bv8) >> 2), ((y as bv8) << 6) | (z as bv8);
            && (a >> 2) as bv6 == w
            && (((a & 0x03) << 4) | (b >> 4)) as bv6 == x
            && (((b & 0x0F) << 2) | (c >> 6)) as bv6 == y
            && (c & 0x3F) as bv6 == z
            && ((x as bv8) & 0x0F == 0 ==> ((a & 0x03) << 4) as bv6 == x)
            && ((y as bv8) & 0x03 == 0 ==> ((b & 0x0F) << 2) as bv6 == y)
  {
  }

  /** The characters of a quad from the values the decoder read. */
  lemma QuadOfValues(w: bv6, x: bv6, y: bv6, z: bv6, n: nat)
    requires 1 <= n <= 3 && (n == 1 ==> (x as bv8) & 0x0F == 0) && (n == 2 ==> (y as bv8) & 0x03 == 0)
    ensures var a, b, c := ((w as bv8) << 2) | ((x as bv8) >> 4), ((x as bv8) << 4) | ((y as bv8) >> 2), ((y as bv8) << 6) | (z as bv8);
            Quad(a, if n > 1 then b else 0, if n > 2 then c else 0, n) ==
            [Symbol(w), Symbol(x), if n > 1 then Symbol(y) else PAD, if n > 2 then Symbol(z) else PAD]
  {
    hide Symbol;
    SextetsBack(w, x, y, z);
  }

  lemma GroupOfQuad(q: string, last: bool)
    requires |q| == 4 && DecodeQuad(q, last).Some?
    ensures var group := DecodeQuad(q, last).value;
            1 <= |group| <= 3 && (|group| < 3 ==> last) && EncodeGroup(group) == q
  {
    hide Symbol, Value, IsSymbol, Quad;
    SymbolOfValue(q[0]);
    SymbolOfValue(q[1]);
    var w, x := Value(q[0]), Value(q[1]);
    if last && q[2] == PAD && q[3] == PAD {
      QuadOfValues(w, x, 0, 0, 1);
      assert q == [Symbol(w), Symbol(x), PAD, PAD];
    } else {
      SymbolOfValue(q[2]);
      var y := Value(q[2]);
      if last && q[3] == PAD {
        QuadOfValues(w, x, y, 0, 2);
        assert q == [Symbol(w), Symbol(x), Symbol(y), PAD];
      } else {
        SymbolOfValue(q[3]);
        QuadOfValues(w, x, y, Value(q[3]), 3);
        assert q == [Symbol(w), Symbol(x), Symbol(y), Symbol(Value(q[3]))];
      }
    }
  }

  /** Encoding undoes decoding: every text the decoder accepts is the encoding of its bytes. */
  lemma {:induction false} EncodeDecode(s: string)
    requires Decode(s).Some?
    ensures Encode(Decode(s).value) == s
  {
    hide EncodeGroup, DecodeQuad;
    if s != "" {
      var group, rest := DecodeQuad(s[..4], |s| == 4).value, Decode(s[4..]).value;
      GroupOfQuad(s[..4], |s| == 4);
      EncodeDecode(s[4..]);
      if |s| == 4 {
        assert group + rest == group;
      } else {
        assert (group + rest)[..3] == group && (group + rest)[3..] == rest;
      }
      assert s == s[..4] + s[4..];
    }
  }

  /** Different byte sequences have different encodings. */
  lemma Injective(data: seq<bv8>, data': seq<bv8>)
    ensures Encode(data) == Encode(data') <==> data == data'
  {
    DecodeEncode(data);
    DecodeEncode(data');
  }

  // ---------------------------------------------------------------- shape

  /** The length is four for each group begun, and the padding is exactly the last characters that stand for no byte. */
  lemma {:induction false} Shape(data: seq<bv8>)
    ensures var s, pads := Encode(data), (3 - |data| % 3) % 3;
            && |s| == 4 * ((|data| + 2) / 3)
            && forall k :: 0 <= k < |s| ==> (s[k] == PAD <==> k >= |s| - pads)
  {
    hide EncodeGroup;
    if data != [] {
      GroupShape(if |data| <= 3 then data else data[..3]);
      if |data| > 3 {
        Shape(data[3..]);
        assert |data[3..]| % 3 == |data| % 3;
      }
    }
  }

  lemma GroupShape(group: seq<bv8>)
    requires 1 <= |group| <= 3
    ensures forall k :: 0 <= k < 4 ==> (EncodeGroup(group)[k] == PAD <==> k >= 1 + |group|)
  {
    hide Symbol;
    forall v ensures Symbol(v) != PAD { ValueOfSymbol(v); }
  }
}
