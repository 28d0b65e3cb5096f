/**
 Cutting text to a byte limit without splitting a character; UTF-8 as in sections 3 and 4 of RFC 3629.
 */
module Utf8Truncate {

  type Byte = x: int | 0 <= x < 256

  predicate Continuation(b: Byte) { 0x80 <= b < 0xC0 }

  predicate RuneStart(b: Byte) { !Continuation(b) }

  /** The length of a character by its first byte; 0 for a byte that begins none. */
  function Width(b: Byte): (n: nat)
    ensures n <= 4
    ensures n > 0 ==> RuneStart(b)
  {
    if b < 0x80 then 1
    else if 0xC2 <= b < 0xE0 then 2
    else if 0xE0 <= b < 0xF0 then 3
    else if 0xF0 <= b < 0xF5 then 4
    else 0
  }

  /** The second byte also rules out overlong forms, surrogates and values past U+10FFFF. */
  predicate Second(first: Byte, b: Byte) {
    && Continuation(b)
    && (first == 0xE0 ==> 0xA0 <= b) && (first == 0xED ==> b < 0xA0)
    && (first == 0xF0 ==> 0x90 <= b) && (first == 0xF4 ==> b < 0x90)
  }

  /** `s` begins with one whole character of `n` bytes. */
  predicate Begins(s: seq<Byte>, n: nat) {
    && 0 < n <= |s| && n == Width(s[0])
    && (n >= 2 ==> Second(s[0], s[1]))
    && forall k :: 2 <= k < n ==> Continuation(s[k])
  }

  predicate Valid(s: seq<Byte>)
    decreases |s|
  {
    s == [] || (Begins(s, Width(s[0])) && Valid(s[Width(s[0])..]))
  }

  lemma {:induction false} ValidConcat(a: seq<Byte>, b: seq<Byte>)
    requires Valid(a) && Valid(b)
    ensures Valid(a + b)
    decreases |a|
  {
    if a == [] {
      assert a + b == b;
    } else {
      var n := Width(a[0]);
      assert Begins(a + b, n);
      assert (a + b)[n..] == a[n..] + b;
      ValidConcat(a[n..], b);
    }
  }

  lemma {:induction false} ValidRest(a: seq<Byte>, b: seq<Byte>)
    requires Valid(a) && Valid(a + b)
    ensures Valid(b)
    decreases |a|
  {
    if a == [] {
      assert a + b == b;
    } else {
      var n := Width(a[0]);
      assert (a + b)[n..] == a[n..] + b;
      ValidRest(a[n..], b);
    }
  }

  /** In valid text a prefix is valid exactly when it ends where a character starts. */
  lemma {:induction false} BoundaryIff(s: seq<Byte>, k: nat)
    requires Valid(s) && k <= |s|
    ensures Valid(s[..k]) <==> k == |s| || RuneStart(s[k])
    decreases |s|
  {
    if k == |s| {
      assert s[..k] == s;
    } else if k > 0 {
      var n := Width(s[0]);
      if k < n {
        assert Continuation(s[k]);
        assert !Begins(s[..k], n);
      } else {
        assert Begins(s[..k], n);
        assert s[..k][n..] == s[n..][..k - n];
        BoundaryIff(s[n..], k - n);
      }
    }
  }

  /** The nearest character start at or before `p`. */
  function Cut(s: seq<Byte>, p: nat): (k: nat)
    requires p < |s|
    ensures k <= p
    ensures k == 0 || RuneStart(s[k])
    ensures forall j :: k < j <= p ==> Continuation(s[j])
  {
    if p == 0 || RuneStart(s[p]) then p else Cut(s, p - 1)
  }

  /** At most three bytes lie between a position in valid text and the start of its character. */
  lemma {:induction false} StartIsNear(s: seq<Byte>, p: nat)
    requires Valid(s) && p < |s|
    ensures exists k :: 0 <= k <= p && p - k <= 3 && RuneStart(s[k])
    decreases |s|
  {
    var n := Width(s[0]);
    if p < n {
      assert RuneStart(s[0]);
    } else {
      StartIsNear(s[n..], p - n);
      var k :| 0 <= k <= p - n && p - n - k <= 3 && RuneStart(s[n..][k]);
      assert RuneStart(s[n + k]);
    }
  }

  /** The cut is the longest valid prefix within `p` bytes, and gives up at most three of them. */
  lemma CutIsLongest(s: seq<Byte>, p: nat)
    requires Valid(s) && p < |s|
    ensures var k := Cut(s, p);
            && Valid(s[..k]) && Valid(s[k..]) && p - k <= 3
            && forall j :: k < j <= p ==> !Valid(s[..j])
  {
    var k := Cut(s, p);
    BoundaryIff(s, k);
    assert RuneStart(s[0]);
    assert s == s[..k] + s[k..];
    ValidRest(s[..k], s[k..]);
    forall j | k < j <= p ensures !Valid(s[..j]) {
      BoundaryIff(s, j);
    }
    StartIsNear(s, p);
  }

  /** The specification of the cut text, case by case. */
  function Truncated(value: seq<Byte>, maxBytes: int, suffix: seq<Byte>): seq<Byte> {
    if maxBytes <= 0 then []
    else if |value| <= maxBytes then value
    else if |suffix| >= maxBytes then value[..maxBytes]
    else value[..Cut(value, maxBytes - |suffix|)] + suffix
  }

  method TruncateWithSuffix(value: seq<Byte>, maxBytes: int, suffix: seq<Byte>) returns (r: seq<Byte>)
    ensures r == Truncated(value, maxBytes, suffix)
    ensures maxBytes > 0 ==> |r| <= maxBytes
  {
    if maxBytes <= 0 { return []; }
    if |value| <= maxBytes { return value; }
    if |suffix| >= maxBytes { return value[..maxBytes]; }
    var available := maxBytes - |suffix|;
    while available > 0 && !RuneStart(value[available])
      invariant 0 <= available <= maxBytes - |suffix|
      invariant Cut(value, available) == Cut(value, maxBytes - |suffix|)
    {
      available := available - 1;
    }
    return value[..available] + suffix;
  }

  lemma CutWithSuffix(value: seq<Byte>, available: nat, suffix: seq<Byte>)
    requires Valid(value) && Valid(suffix) && available < |value|
    ensures Valid(value[..Cut(value, available)] + suffix)
  {
    CutIsLongest(value, available);
    ValidConcat(value[..Cut(value, available)], suffix);
  }

  lemma TruncatedShort(value: seq<Byte>, maxBytes: int, suffix: seq<Byte>)
    requires |suffix| < maxBytes < |value|
    ensures Truncated(value, maxBytes, suffix) == value[..Cut(value, maxBytes - |suffix|)] + suffix
  {
  }

  lemma ShortSuffix(value: seq<Byte>, maxBytes: int, suffix: seq<Byte>)
    requires Valid(value) && Valid(suffix) && |suffix| < maxBytes < |value|
    ensures Valid(Truncated(value, maxBytes, suffix))
  {
    CutWithSuffix(value, maxBytes - |suffix|, suffix);
    TruncatedShort(value, maxBytes, suffix);
  }

  lemma LongSuffix(value: seq<Byte>, maxBytes: int, suffix: seq<Byte>)
    requires Valid(value) && 0 < maxBytes < |value| && maxBytes <= |suffix|
    ensures Valid(Truncated(value, maxBytes, suffix)) <==> RuneStart(value[maxBytes])
  {
    BoundaryIff(value, maxBytes);
  }

  lemma NotCut(value: seq<Byte>, maxBytes: int, suffix: seq<Byte>)
    requires Valid(value) && (maxBytes <= 0 || |value| <= maxBytes)
    ensures Valid(Truncated(value, maxBytes, suffix))
  {
  }

  /**
   Cutting valid text with a valid suffix gives valid text, except in one case: the suffix does not fit
   and the limit falls inside a character.
   */
  lemma TruncatedValidIff(value: seq<Byte>, maxBytes: int, suffix: seq<Byte>)
    requires Valid(value) && Valid(suffix)
    ensures Valid(Truncated(value, maxBytes, suffix)) <==>
            maxBytes <= 0 || |value| <= maxBytes || |suffix| < maxBytes || RuneStart(value[maxBytes])
  {
    if maxBytes <= 0 || |value| <= maxBytes {
      NotCut(value, maxBytes, suffix);
    } else if |suffix| < maxBytes {
      ShortSuffix(value, maxBytes, suffix);
    } else {
      LongSuffix(value, maxBytes, suffix);
    }
  }

  /** A euro sign cut to its first byte. */
  lemma LongSuffixSplits()
    ensures Valid([0xE2, 0x82, 0xAC]) && !Valid(Truncated([0xE2, 0x82, 0xAC], 1, [46, 46, 46]))
  {
    var euro: seq<Byte> := [0xE2, 0x82, 0xAC];
    assert Begins(euro, 3) && euro[3..] == [];
    assert Truncated(euro, 1, [46, 46, 46]) == [0xE2];
    assert !Begins([0xE2], 3);
  }

  // ---------------------------------------------------------------- encoding

  /** The bytes of one character, by the table in section 3 of RFC 3629. */
  function Encode(c: char): (r: seq<Byte>) {
    var n := c as int;
    if n < 0x80 then [n]
    else if n < 0x800 then [0xC0 + n / 64, 0x80 + n % 64]
    else if n < 0x10000 then [0xE0 + n / 4096, 0x80 + n / 64 % 64, 0x80 + n % 64]
    else [0xF0 + n / 262144, 0x80 + n / 4096 % 64, 0x80 + n / 64 % 64, 0x80 + n % 64]
  }

  function Utf8(s: string): seq<Byte> {
    if s == [] then [] else Encode(s[0]) + Utf8(s[1..])
  }

  lemma EncodeIsValid(c: char)
    ensures Valid(Encode(c))
  {
    var r := Encode(c);
    assert Begins(r, |r|);
    assert r[|r|..] == [];
  }

  /** Every text is encoded as valid bytes. */
  lemma {:induction false} Utf8IsValid(s: string)
    ensures Valid(Utf8(s))
  {
    if s != [] {
      EncodeIsValid(s[0]);
      Utf8IsValid(s[1..]);
      ValidConcat(Encode(s[0]), Utf8(s[1..]));
    }
  }

  /** What a byte adds above its marker bits. */
  function Bits(b: Byte, marker: int): int { b as int - marker }

  /** The number of a character out of its bytes, six bits at a time. */
  function CodePoint(s: seq<Byte>, n: nat): int
    requires Begins(s, n)
  {
    if n == 1 then s[0]
    else if n == 2 then Bits(s[0], 0xC0) * 64 + Bits(s[1], 0x80)
    else if n == 3 then (Bits(s[0], 0xE0) * 64 + Bits(s[1], 0x80)) * 64 + Bits(s[2], 0x80)
    else ((Bits(s[0], 0xF0) * 64 + Bits(s[1], 0x80)) * 64 + Bits(s[2], 0x80)) * 64 + Bits(s[3], 0x80)
  }

  /** A Unicode scalar value that takes exactly `n` bytes. */
  predicate IsScalar(c: int, n: nat) {
    && (0 <= c < 0xD800 || 0xE000 <= c < 0x11_0000)
    && n == if c < 0x80 then 1 else if c < 0x800 then 2 else if c < 0x10000 then 3 else 4
  }

  lemma CodePointIsScalar(s: seq<Byte>, n: nat)
    requires Begins(s, n)
    ensures IsScalar(CodePoint(s, n), n)
  {
    assert n >= 3 ==> Continuation(s[2]);
    assert n >= 4 ==> Continuation(s[3]);
  }

  lemma Digits(a: int, b: int)
    requires 0 <= b < 64
    ensures (a * 64 + b) / 64 == a && (a * 64 + b) % 64 == b
  {
  }

  lemma Shifts(n: int)
    requires n >= 0
    ensures n / 4096 == n / 64 / 64 && n / 262144 == n / 64 / 64 / 64
  {
  }

  lemma TwoAgain(a: int, b: int, c: char)
    requires 0 <= b < 64 && c as int == a * 64 + b && IsScalar(c as int, 2)
    ensures Encode(c) == [0xC0 + a, 0x80 + b]
  {
    Digits(a, b);
  }

  lemma ThreeAgain(a: int, b: int, d: int, c: char)
    requires 0 <= b < 64 && 0 <= d < 64 && c as int == (a * 64 + b) * 64 + d && IsScalar(c as int, 3)
    ensures Encode(c) == [0xE0 + a, 0x80 + b, 0x80 + d]
  {
    Shifts(c as int);
    Digits(a, b);
    Digits(a * 64 + b, d);
  }

  lemma FourAgain(a: int, b: int, d: int, e: int, c: char)
    requires 0 <= b < 64 && 0 <= d < 64 && 0 <= e < 64
    requires c as int == ((a * 64 + b) * 64 + d) * 64 + e && IsScalar(c as int, 4)
    ensures Encode(c) == [0xF0 + a, 0x80 + b, 0x80 + d, 0x80 + e]
  {
    Shifts(c as int);
    Digits(a, b);
    Digits(a * 64 + b, d);
    Digits((a * 64 + b) * 64 + d, e);
  }

  lemma EncodedAgain(s: seq<Byte>, n: nat) returns (c: char)
    requires Begins(s, n)
    ensures Encode(c) == s[..n]
  {
    CodePointIsScalar(s, n);
    c := CodePoint(s, n) as char;
    if n == 2 {
      TwoAgain(Bits(s[0], 0xC0), Bits(s[1], 0x80), c);
    } else if n == 3 {
      assert Continuation(s[2]);
      ThreeAgain(Bits(s[0], 0xE0), Bits(s[1], 0x80), Bits(s[2], 0x80), c);
    } else if n == 4 {
      assert Continuation(s[2]) && Continuation(s[3]);
      FourAgain(Bits(s[0], 0xF0), Bits(s[1], 0x80), Bits(s[2], 0x80), Bits(s[3], 0x80), c);
    }
  }

  /** Valid bytes are the encoding of some text: with `Utf8IsValid`, of texts and nothing else. */
  lemma {:induction false} ValidIsUtf8(s: seq<Byte>) returns (t: string)
    requires Valid(s)
    ensures Utf8(t) == s
    decreases |s|
  {
    t := "";
    if s != [] {
      var n := Width(s[0]);
      var c := EncodedAgain(s, n);
      var rest := ValidIsUtf8(s[n..]);
      t := [c] + rest;
      assert t[1..] == rest && s == s[..n] + s[n..];
    }
  }

  lemma DotsAreValid()
    ensures Valid([46, 46, 46])
  {
    assert "..." == ['.', '.', '.'];
    Utf8IsValid("...");
    assert Utf8("...") == [46, 46, 46];
  }
}
