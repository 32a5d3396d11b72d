/** UTF-8 as in section 4 of RFC 3629, over byte strings. */
module Utf8 {
  newtype Byte = b: int | 0 <= b < 256

  type Bytes = seq<Byte>

  predicate IsTail(b: Byte) {
    0x80 <= b <= 0xBF
  }

  /** The byte can start a character. */
  predicate RuneStart(b: Byte) {
    !IsTail(b)
  }

  /** The second byte is in the range that the first one allows. */
  predicate SecondOk(first: Byte, second: Byte) {
    if first == 0xE0 then 0xA0 <= second <= 0xBF
    else if first == 0xED then 0x80 <= second <= 0x9F
    else if first == 0xF0 then 0x90 <= second <= 0xBF
    else if first == 0xF4 then 0x80 <= second <= 0x8F
    else IsTail(second)
  }

  /** The length of the well-formed character at the front, or 0 when there is none. */
  function CharLen(s: Bytes): (n: nat)
    ensures n <= 4 && n <= |s|
    ensures n > 0 ==> RuneStart(s[0]) && forall i :: 0 < i < n ==> IsTail(s[i])
  {
    if s == [] then 0
    else if s[0] <= 0x7F then 1
    else if 0xC2 <= s[0] <= 0xDF && |s| >= 2 && SecondOk(s[0], s[1]) then 2
    else if 0xE0 <= s[0] <= 0xEF && |s| >= 3 && SecondOk(s[0], s[1]) && IsTail(s[2]) then 3
    else if 0xF0 <= s[0] <= 0xF4 && |s| >= 4 && SecondOk(s[0], s[1]) && IsTail(s[2]) && IsTail(s[3]) then 4
    else 0
  }

  predicate Valid(s: Bytes) {
    s == [] || (CharLen(s) > 0 && Valid(s[CharLen(s)..]))
  }

  /** The size a decoder reports for the first character: malformed input is consumed byte by byte. */
  function DecodedSize(s: Bytes): (n: nat)
    requires s != []
    ensures 1 <= n <= 4 && n <= |s|
  {
    if CharLen(s) > 0 then CharLen(s) else 1
  }

  lemma CharLenOfPrefix(s: Bytes, k: nat)
    requires CharLen(s) <= k <= |s|
    ensures CharLen(s) > 0 ==> CharLen(s[..k]) == CharLen(s)
  {
  }

  // ---------------------------------------------------------------- characters

  /** A Unicode scalar value: a code point that is not a surrogate. */
  predicate Scalar(c: int) {
    0 <= c < 0xD800 || 0xDFFF < c <= 0x10FFFF
  }

  function Encode(c: int): (s: Bytes)
    requires Scalar(c)
    ensures s != []
  {
    if c < 0x80 then [c as Byte]
    else if c < 0x800 then [(0xC0 + c / 64) as Byte, Tail(c)]
    else if c < 0x10000 then [(0xE0 + c / 4096) as Byte, Tail(c / 64), Tail(c)]
    else [(0xF0 + c / 262144) as Byte, Tail(c / 4096), Tail(c / 64), Tail(c)]
  }

  function Tail(c: nat): Byte {
    (0x80 + c % 64) as Byte
  }

  predicate Scalars(cs: seq<int>) {
    forall i :: 0 <= i < |cs| ==> Scalar(cs[i])
  }

  function EncodeAll(cs: seq<int>): Bytes
    requires Scalars(cs)
  {
    if cs == [] then [] else Encode(cs[0]) + EncodeAll(cs[1..])
  }

  /** The code point of the well-formed character at the front. */
  function CodePoint(s: Bytes): int
    requires CharLen(s) > 0
  {
    if CharLen(s) == 1 then s[0] as int
    else if CharLen(s) == 2 then (s[0] as int - 0xC0) * 64 + (s[1] as int - 0x80)
    else if CharLen(s) == 3 then (s[0] as int - 0xE0) * 4096 + (s[1] as int - 0x80) * 64 + (s[2] as int - 0x80)
    else (s[0] as int - 0xF0) * 262144 + (s[1] as int - 0x80) * 4096 + (s[2] as int - 0x80) * 64 + (s[3] as int - 0x80)
  }

  /** A character at the front is the encoding of a scalar value. */
  lemma CharIsEncoded(s: Bytes)
    requires CharLen(s) > 0
    ensures Scalar(CodePoint(s)) && s[..CharLen(s)] == Encode(CodePoint(s))
  {
    var c := CodePoint(s);
    match CharLen(s)
    case 1 =>
    case 2 => assert c / 64 == s[0] as int - 0xC0;
    case 3 =>
      assert c / 64 == (s[0] as int - 0xE0) * 64 + (s[1] as int - 0x80);
      assert c / 4096 == s[0] as int - 0xE0;
    case _ =>
      assert c / 64 == (s[0] as int - 0xF0) * 4096 + (s[1] as int - 0x80) * 64 + (s[2] as int - 0x80);
      assert c / 4096 == (s[0] as int - 0xF0) * 64 + (s[1] as int - 0x80);
      assert c / 262144 == s[0] as int - 0xF0;
  }

  /** The encoding of a scalar value is a character, whatever follows. */
  lemma EncodedIsChar(c: int, rest: Bytes)
    requires Scalar(c)
    ensures CharLen(Encode(c) + rest) == |Encode(c)|
  {
    if 0x800 <= c < 0x10000 {
      assert c / 64 / 64 == c / 4096;
      assert c / 4096 == 13 ==> c / 64 % 64 == c / 64 - 13 * 64;
      assert c / 4096 == 0 ==> c / 64 % 64 == c / 64;
    } else if c >= 0x10000 {
      assert c / 4096 / 64 == c / 262144;
      assert c / 262144 == 4 ==> c / 4096 % 64 == c / 4096 - 4 * 64;
      assert c / 262144 == 0 ==> c / 4096 % 64 == c / 4096;
    }
  }

  /** Valid text is what sequences of scalar values encode to, and nothing else is. */
  lemma {:induction false} EncodedIsValid(cs: seq<int>)
    requires Scalars(cs)
    ensures Valid(EncodeAll(cs))
  {
    if cs != [] {
      EncodedIsValid(cs[1..]);
      EncodedIsChar(cs[0], EncodeAll(cs[1..]));
      hide CharLen, Encode;
      var s := EncodeAll(cs);
      assert s[|Encode(cs[0])|..] == EncodeAll(cs[1..]);
    }
  }

  lemma {:induction false} ValidIsEncoded(s: Bytes) returns (cs: seq<int>)
    requires Valid(s)
    ensures Scalars(cs) && EncodeAll(cs) == s
    decreases |s|
  {
    hide *;
    cs := [];
    NothingEncoded();
    if s != [] {
      var n, c := FirstChar(s);
      var rest := ValidIsEncoded(s[n..]);
      cs := [c] + rest;
      EncodeCons(c, rest);
      assert s == s[..n] + s[n..];
    }
  }

  lemma NothingEncoded()
    ensures Scalars([]) && EncodeAll([]) == []
  {
  }

  lemma FirstChar(s: Bytes) returns (n: nat, c: int)
    requires Valid(s) && s != []
    ensures 0 < n <= |s| && Valid(s[n..]) && Scalar(c) && s[..n] == Encode(c)
  {
    n, c := CharLen(s), CodePoint(s);
    CharIsEncoded(s);
    hide Encode, CodePoint, Scalar;
  }

  lemma EncodeCons(c: int, cs: seq<int>)
    requires Scalar(c) && Scalars(cs)
    ensures Scalars([c] + cs) && EncodeAll([c] + cs) == Encode(c) + EncodeAll(cs)
  {
    hide Encode, Scalar;
    assert ([c] + cs)[1..] == cs;
  }

  /** Valid texts join to a valid text. */
  lemma {:induction false} ValidJoins(a: Bytes, b: Bytes)
    requires Valid(a) && Valid(b)
    ensures Valid(a + b)
    decreases |a|
  {
    if a == [] {
      assert a + b == b;
    } else {
      var n := CharLen(a);
      assert (a + b)[n..] == a[n..] + b;
      ValidJoins(a[n..], b);
    }
  }

  lemma {:induction false} AsciiIsValid(s: Bytes)
    requires forall i :: 0 <= i < |s| ==> s[i] <= 0x7F
    ensures Valid(s)
  {
    if s != [] {
      AsciiIsValid(s[1..]);
    }
  }

  lemma ValidPrefix(s: Bytes, k: nat)
    requires 0 < CharLen(s) <= k <= |s| && Valid(s[..k][CharLen(s)..])
    ensures Valid(s[..k])
  {
    CharLenOfPrefix(s, k);
    hide CharLen;
  }

  lemma SliceOfSlice(s: Bytes, n: nat, k: nat)
    requires n <= k <= |s|
    ensures s[n..][..k - n] == s[..k][n..] && s[n..][k - n..] == s[k..]
  {
  }

  /** Valid text splits into valid parts wherever the second part starts a character or is empty. */
  lemma {:induction false} SplitsAtStart(s: Bytes, k: nat)
    requires Valid(s) && k <= |s| && (k < |s| ==> RuneStart(s[k]))
    ensures Valid(s[..k]) && Valid(s[k..])
    decreases |s|
  {
    if k > 0 {
      var n := CharLen(s);
      assert k >= n;
      assert n > 0 && Valid(s[n..]) && (k < |s| ==> s[n..][k - n] == s[k]);
      hide CharLen, Valid;
      SplitsAtStart(s[n..], k - n);
      SliceOfSlice(s, n, k);
      ValidPrefix(s, k);
    } else {
      assert s[..0] == [] && s[0..] == s;
    }
  }

  /** A single-byte character ends a valid prefix. */
  lemma SplitsAfterAscii(s: Bytes, k: nat)
    requires Valid(s) && k < |s| && s[k] <= 0x7F
    ensures Valid(s[..k + 1]) && Valid(s[k + 1..])
  {
    NextStarts(s, k);
    SplitsAtStart(s, k + 1);
  }

  lemma {:induction false} NextStarts(s: Bytes, k: nat)
    requires Valid(s) && k < |s| && s[k] <= 0x7F
    ensures k + 1 < |s| ==> RuneStart(s[k + 1])
    decreases |s|
  {
    var n := CharLen(s);
    if k < n {
      assert k == 0;
      if 1 < |s| {
        assert s[n..][0] == s[1];
      }
    } else {
      NextStarts(s[n..], k - n);
    }
  }
}
