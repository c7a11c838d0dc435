/** Bytes, byte strings and the order a sorted map of byte strings uses. */
module ByteStrings {

  type byte = x: int | 0 <= x < 0x100

  type Bytes = seq<byte>

  const USIZE_MAX: nat := 0xFFFF_FFFF_FFFF_FFFF
  const I64_MAX: int := 0x7FFF_FFFF_FFFF_FFFF
  const I64_MIN: int := -0x8000_0000_0000_0000

  type i64 = x: int | I64_MIN <= x <= I64_MAX
  type u32 = x: int | 0 <= x < 0x1_0000_0000
  type u64 = x: int | 0 <= x < 0x1_0000_0000_0000_0000

  /** 64-bit addition wraps. */
  function Wrap64(x: nat): u64 {
    x % 0x1_0000_0000_0000_0000
  }

  /** Lexicographic order, a proper prefix being the smaller string. */
  predicate Less(a: Bytes, b: Bytes) {
    if a == [] || b == [] then a == [] && b != []
    else a[0] < b[0] || (a[0] == b[0] && Less(a[1..], b[1..]))
  }

  lemma {:induction false} LessIrreflexive(a: Bytes)
    ensures !Less(a, a)
  {
    if a != [] {
      LessIrreflexive(a[1..]);
    }
  }

  lemma {:induction false} LessTransitive(a: Bytes, b: Bytes, c: Bytes)
    requires Less(a, b) && Less(b, c)
    ensures Less(a, c)
  {
    if a != [] && a[0] == b[0] == c[0] {
      LessTransitive(a[1..], b[1..], c[1..]);
    }
  }

  lemma {:induction false} LessTotal(a: Bytes, b: Bytes)
    ensures Less(a, b) || a == b || Less(b, a)
  {
    if a != [] && b != [] && a[0] == b[0] {
      LessTotal(a[1..], b[1..]);
      assert a == [a[0]] + a[1..] && b == [b[0]] + b[1..];
    }
  }

  lemma {:induction false} LessAsymmetric(a: Bytes, b: Bytes)
    requires Less(a, b)
    ensures !Less(b, a) && a != b
  {
    LessIrreflexive(a);
    if Less(b, a) {
      LessTransitive(a, b, a);
    }
  }

  /** Bytes [lo, hi) of s1 stand in s2, moved by d positions. */
  ghost predicate Shifted(s1: Bytes, s2: Bytes, lo: nat, hi: nat, d: int) {
    && lo <= hi <= |s1|
    && 0 <= lo + d
    && hi + d <= |s2|
    && forall j {:trigger s1[j]} :: lo <= j < hi ==> s1[j] == s2[j + d]
  }

  lemma ShiftedSlice(s1: Bytes, s2: Bytes, lo: nat, hi: nat, d: int, a: nat, b: nat)
    requires Shifted(s1, s2, lo, hi, d)
    requires lo <= a <= b <= hi
    ensures s1[a..b] == s2[a + d..b + d]
  {
    forall k | 0 <= k < b - a
      ensures s1[a..b][k] == s2[a + d..b + d][k]
    {
      assert s1[a + k] == s2[a + k + d];
    }
  }

  /** UTF-8 well-formedness: lengths, continuation bytes, no overlong forms, no surrogates. */
  predicate Utf8(s: Bytes) {
    if s == [] then true
    else if s[0] < 0x80 then Utf8(s[1..])
    else if 0xC2 <= s[0] <= 0xDF then |s| >= 2 && Continuation(s[1]) && Utf8(s[2..])
    else if 0xE0 <= s[0] <= 0xEF then
      && |s| >= 3 && Continuation(s[1]) && Continuation(s[2])
      && (s[0] == 0xE0 ==> s[1] >= 0xA0)
      && (s[0] == 0xED ==> s[1] < 0xA0)
      && Utf8(s[3..])
    else if 0xF0 <= s[0] <= 0xF4 then
      && |s| >= 4 && Continuation(s[1]) && Continuation(s[2]) && Continuation(s[3])
      && (s[0] == 0xF0 ==> s[1] >= 0x90)
      && (s[0] == 0xF4 ==> s[1] < 0x90)
      && Utf8(s[4..])
    else false
  }

  predicate Continuation(b: byte) {
    0x80 <= b < 0xC0
  }

  lemma {:induction false} AsciiIsUtf8(s: Bytes)
    requires forall i :: 0 <= i < |s| ==> s[i] < 0x80
    ensures Utf8(s)
  {
    if s != [] {
      AsciiIsUtf8(s[1..]);
    }
  }

  /** A substring test. */
  predicate Contains(s: Bytes, needle: Bytes) {
    needle <= s || (s != [] && Contains(s[1..], needle))
  }

  /** The bytes of a text of ASCII characters. */
  function Ascii(s: string): Bytes
    requires forall i :: 0 <= i < |s| ==> s[i] < 128 as char
  {
    seq(|s|, i requires 0 <= i < |s| => s[i] as int)
  }
}
