/** UTF-8, by the grammar of section 4 of RFC 3629 and by the encoding of section 3. */
module Utf8 {

  type Byte = x: int | 0 <= x < 256

  predicate Tail(b: Byte) {
    0x80 <= b <= 0xBF
  }

  /** The length of the character at the start, or 0 when there is none. */
  function CharLength(s: seq<Byte>): (n: nat)
    ensures n <= 4 && n <= |s|
  {
    if s == [] then 0
    else
      var b := s[0];
      if b <= 0x7F then 1
      else if 0xC2 <= b <= 0xDF then if |s| >= 2 && Tail(s[1]) then 2 else 0
      else if 0xE0 <= b <= 0xEF then
        if |s| >= 3 && Tail(s[1]) && Tail(s[2]) && (b == 0xE0 ==> s[1] >= 0xA0) && (b == 0xED ==> s[1] <= 0x9F) then 3 else 0
      else if 0xF0 <= b <= 0xF4 then
        if |s| >= 4 && Tail(s[1]) && Tail(s[2]) && Tail(s[3]) && (b == 0xF0 ==> s[1] >= 0x90) && (b == 0xF4 ==> s[1] <= 0x8F) then 4 else 0
      else 0
  }

  predicate Valid(s: seq<Byte>) {
    s == [] || (CharLength(s) > 0 && Valid(s[CharLength(s)..]))
  }

  /** A character stays one whatever follows it. */
  lemma CharLengthLocal(s: seq<Byte>, t: seq<Byte>)
    requires CharLength(s) > 0
    ensures CharLength(s + t) == CharLength(s)
    ensures CharLength(s[..CharLength(s)]) == CharLength(s)
  {
  }

  /** Text after text is text, and what follows text in a text is text. */
  lemma {:induction false} ValidAppend(s: seq<Byte>, t: seq<Byte>)
    requires Valid(s)
    ensures Valid(s + t) <==> Valid(t)
    decreases |s|
  {
    hide CharLength;
    if s == [] {
      assert s + t == t;
    } else {
      var n := CharLength(s);
      CharLengthLocal(s, t);
      ValidAppend(s[n..], t);
      assert (s + t)[n..] == s[n..] + t;
    }
  }

  /** A cut through a text is at most three bytes past the end of a character. */
  lemma {:induction false} BoundaryBelow(s: seq<Byte>, n: nat) returns (b: nat)
    requires Valid(s) && n <= |s|
    ensures b <= n <= b + 3 && Valid(s[..b])
    decreases |s|
  {
    hide CharLength;
    var k := CharLength(s);
    if n == 0 || n < k {
      b := 0;
    } else {
      var c := BoundaryBelow(s[k..], n - k);
      b := k + c;
      CharLengthLocal(s, []);
      OneIsValid(s);
      ValidAppend(s[..k], s[k..][..c]);
      assert s[..k] + s[k..][..c] == s[..b];
    }
  }

  lemma OneIsValid(s: seq<Byte>)
    requires CharLength(s) > 0
    ensures Valid(s[..CharLength(s)])
  {
    hide CharLength;
    var n := CharLength(s);
    CharLengthLocal(s, []);
    assert s[..n][n..] == [];
  }

  // ----- against the encoding

  type Scalar = x: int | (0 <= x < 0xD800) || (0xE000 <= x < 0x110000)

  function Encode(c: Scalar): (s: seq<Byte>) {
    if c < 0x80 then [c]
    else if c < 0x800 then [0xC0 + c / 64, 0x80 + c % 64]
    else if c < 0x10000 then [0xE0 + c / 4096, 0x80 + c / 64 % 64, 0x80 + c % 64]
    else [0xF0 + c / 262144, 0x80 + c / 4096 % 64, 0x80 + c / 64 % 64, 0x80 + c % 64]
  }

  function EncodeAll(cs: seq<Scalar>): seq<Byte> {
    if cs == [] then [] else Encode(cs[0]) + EncodeAll(cs[1..])
  }

  /** A code point is encoded as one character. */
  lemma EncodedIsChar(c: Scalar)
    ensures CharLength(Encode(c)) == |Encode(c)| > 0
  {
  }

  lemma Digit64(q: int, r: int)
    requires 0 <= r < 64
    ensures (q * 64 + r) / 64 == q && (q * 64 + r) % 64 == r
  {
  }

  lemma Digits(a: int, x: int, y: int, z: int)
    requires 0 <= x < 64 && 0 <= y < 64 && 0 <= z < 64
    ensures var c := a * 262144 + x * 4096 + y * 64 + z;
            c / 262144 == a && c / 4096 % 64 == x && c / 64 % 64 == y && c % 64 == z
  {
    var c := a * 262144 + x * 4096 + y * 64 + z;
    Digit64(a * 4096 + x * 64 + y, z);
    Digit64(a * 64 + x, y);
    Digit64(a, x);
    assert c / 64 == a * 4096 + x * 64 + y;
    assert c / 4096 == a * 64 + x;
  }

  lemma ThreeByteCharIsEncoded(s: seq<Byte>) returns (c: Scalar)
    requires CharLength(s) == 3
    ensures Encode(c) == s[..3]
  {
    var b: int, x: int, y: int := s[0] - 0xE0, s[1] - 0x80, s[2] - 0x80;
    Digits(0, b, x, y);
    c := b * 4096 + x * 64 + y;
    assert c / 4096 == b by {
      assert c / 4096 % 64 == b;
    }
    assert Encode(c) == [s[0], s[1], s[2]];
  }

  lemma FourByteCharIsEncoded(s: seq<Byte>) returns (c: Scalar)
    requires CharLength(s) == 4
    ensures Encode(c) == s[..4]
  {
    var b: int, x: int, y: int, z: int := s[0] - 0xF0, s[1] - 0x80, s[2] - 0x80, s[3] - 0x80;
    Digits(b, x, y, z);
    c := b * 262144 + x * 4096 + y * 64 + z;
    assert Encode(c) == [s[0], s[1], s[2], s[3]];
  }

  /** One character is the encoding of a code point. */
  lemma CharIsEncoded(s: seq<Byte>) returns (c: Scalar)
    requires CharLength(s) > 0
    ensures Encode(c) == s[..CharLength(s)]
  {
    var n := CharLength(s);
    if n == 1 {
      c := s[0];
    } else if n == 2 {
      var b: int, x: int := s[0] - 0xC0, s[1] - 0x80;
      Digit64(b, x);
      c := b * 64 + x;
    } else if n == 3 {
      c := ThreeByteCharIsEncoded(s);
    } else {
      c := FourByteCharIsEncoded(s);
    }
  }

  lemma {:induction false} EncodedIsValid(cs: seq<Scalar>)
    ensures Valid(EncodeAll(cs))
  {
    hide CharLength, Encode;
    if cs != [] {
      EncodedIsValid(cs[1..]);
      EncodedIsChar(cs[0]);
      var e := Encode(cs[0]);
      assert e[..|e|] == e;
      OneIsValid(e);
      ValidAppend(e, EncodeAll(cs[1..]));
    }
  }

  lemma {:induction false} ValidIsEncoded(s: seq<Byte>) returns (cs: seq<Scalar>)
    requires Valid(s)
    ensures EncodeAll(cs) == s
    decreases |s|
  {
    hide CharLength, Encode;
    cs := [];
    if s != [] {
      var n := CharLength(s);
      var c := CharIsEncoded(s);
      var rest := ValidIsEncoded(s[n..]);
      cs := [c] + rest;
      assert cs[1..] == rest;
      assert s == s[..n] + s[n..];
    }
  }

  /** The grammar accepts exactly the encodings of sequences of code points. */
  lemma ValidIffEncoded(s: seq<Byte>)
    ensures Valid(s) <==> exists cs: seq<Scalar> :: EncodeAll(cs) == s
  {
    hide Valid, EncodeAll;
    if Valid(s) {
      var cs := ValidIsEncoded(s);
    }
    if cs: seq<Scalar> :| EncodeAll(cs) == s {
      EncodedIsValid(cs);
    }
  }
}
