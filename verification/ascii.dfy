/** ASCII bytes as the name grammar sees them: character classes, ASCII case
    folding, repetition and counting. Every length in the registry is a byte
    length, so names are `seq<byte>`. */
module Ascii {
  import opened Bytes

  const DOT: byte := 0x2E
  const HYPHEN: byte := 0x2D
  const UNDERSCORE: byte := 0x5F
  const AT: byte := 0x40
  const LOWER_Z: byte := 0x7A

  /** The bytes of an ASCII string literal: each character is its own code
      (characters beyond one byte never occur in the literals used here). */
  function Str(s: string): (r: seq<byte>)
    ensures |r| == |s|
    ensures forall i :: 0 <= i < |s| && s[i] as int < 256 ==> r[i] as int == s[i] as int
  {
    seq(|s|, i requires 0 <= i < |s| => if s[i] as int < 256 then s[i] as int as byte else 0)
  }

  lemma StrAppend(a: string, b: string)
    ensures Str(a + b) == Str(a) + Str(b)
  {
  }

  predicate IsDigit(c: byte) { 0x30 <= c <= 0x39 }
  predicate IsUpper(c: byte) { 0x41 <= c <= 0x5A }
  predicate IsLower(c: byte) { 0x61 <= c <= 0x7A }

  /** Rust's `u8::is_ascii_alphanumeric` (and `char::is_ascii_alphanumeric`
      on the one-byte characters; a multi-byte UTF-8 character is never
      alphanumeric ASCII, and neither is any of its bytes). */
  predicate IsAlphanumeric(c: byte) {
    IsDigit(c) || IsUpper(c) || IsLower(c)
  }

  /** Rust's `u8::to_ascii_lowercase`: only `A`..`Z` change. */
  function ToLower(c: byte): (r: byte)
    ensures IsUpper(c) ==> IsLower(r) && r - 0x20 == c
    ensures !IsUpper(c) ==> r == c
  {
    if IsUpper(c) then c + 0x20 else c
  }

  /** `str::to_ascii_lowercase`, byte by byte. */
  function Lower(s: seq<byte>): (r: seq<byte>)
    ensures |r| == |s|
    ensures forall i :: 0 <= i < |s| ==> r[i] == ToLower(s[i])
  {
    if |s| == 0 then [] else [ToLower(s[0])] + Lower(s[1..])
  }

  lemma LowerIdempotent(s: seq<byte>)
    ensures Lower(Lower(s)) == Lower(s)
  {
  }

  /** Lowercasing never produces an upper-case byte. */
  lemma LowerHasNoUpper(s: seq<byte>)
    ensures forall i :: 0 <= i < |s| ==> !IsUpper(Lower(s)[i])
  {
  }

  /** A string without upper-case bytes is its own lowercase form. */
  lemma LowerOfNoUpper(s: seq<byte>)
    requires forall i :: 0 <= i < |s| ==> !IsUpper(s[i])
    ensures Lower(s) == s
  {
    assert forall i :: 0 <= i < |s| ==> Lower(s)[i] == s[i];
  }

  lemma LowerOfAppend(a: seq<byte>, b: seq<byte>)
    ensures Lower(a + b) == Lower(a) + Lower(b)
  {
    assert Lower(a + b) == Lower(a) + Lower(b);
  }

  /** Rust's `str::eq_ignore_ascii_case`. */
  predicate EqIgnoreAsciiCase(a: seq<byte>, b: seq<byte>) {
    Lower(a) == Lower(b)
  }

  /** `@` has no other case, so comparing with it ignoring case is plain
      equality. */
  lemma EqIgnoreCaseAt(s: seq<byte>)
    ensures EqIgnoreAsciiCase(s, [AT]) <==> s == [AT]
  {
    if EqIgnoreAsciiCase(s, [AT]) {
      assert Lower(s)[0] == AT;
      assert s[0] == AT;
    }
  }

  /** `std::iter::repeat(c).take(n)`. */
  function Repeat(c: byte, n: nat): (r: seq<byte>)
    ensures |r| == n
    ensures forall i :: 0 <= i < n ==> r[i] == c
  {
    seq(n, _ => c)
  }

  /** `s.matches(c).count()`. */
  function Count(s: seq<byte>, c: byte): (r: nat)
    ensures r <= |s|
    ensures r == 0 <==> c !in s
  {
    if |s| == 0 then 0 else (if s[0] == c then 1 else 0) + Count(s[1..], c)
  }

  lemma {:induction false} CountAppend(a: seq<byte>, b: seq<byte>, c: byte)
    ensures Count(a + b, c) == Count(a, c) + Count(b, c)
    decreases |a|
  {
    if |a| > 0 {
      assert (a + b)[1..] == a[1..] + b;
      CountAppend(a[1..], b, c);
      assert Count(a + b, c) == (if a[0] == c then 1 else 0) + Count(a[1..] + b, c);
    } else {
      assert a + b == b;
    }
  }

  /** At most one occurrence and only in front: every occurrence is at index 0. */
  lemma {:induction false} CountAtMostOneInFront(s: seq<byte>, c: byte)
    requires |s| > 0
    requires Count(s, c) <= 1 && (c in s ==> s[0] == c)
    ensures forall i :: 0 <= i < |s| && s[i] == c ==> i == 0
  {
    if s[0] == c {
      assert Count(s[1..], c) == 0;
      assert c !in s[1..];
      forall i | 0 < i < |s| ensures s[i] != c {
        assert s[i] == s[1..][i - 1];
      }
    }
  }
}
