/** Comparison in the style of Rust's `Ord::cmp`, the byte-lexicographic order
    of `str`/`[u8]`, and the derived orders of `Option` and of structs, which
    compare fields in declaration order. */
module Orders {
  import opened Bytes
  import opened Wrappers

  datatype Ordering = Less | Equal | Greater {
    function Reverse(): Ordering {
      match this
      case Less => Greater
      case Equal => Equal
      case Greater => Less
    }

    /** `Ordering::then`: the derived `Ord` of a struct chains its fields with it. */
    function Then(next: Ordering): Ordering {
      if Equal? then next else this
    }
  }

  /** `cmp` is a total order: equality, antisymmetry and transitivity. */
  ghost predicate IsTotalOrder<T(!new)>(cmp: (T, T) -> Ordering) {
    && (forall a, b :: cmp(a, b) == Equal <==> a == b)
    && (forall a, b :: cmp(b, a) == cmp(a, b).Reverse())
    && (forall a, b, c :: cmp(a, b) == Less && cmp(b, c) == Less ==> cmp(a, c) == Less)
  }

  /** `a <= b` under `cmp`. */
  predicate Le<T>(cmp: (T, T) -> Ordering, a: T, b: T) {
    cmp(a, b) != Greater
  }

  lemma LeTrans<T(!new)>(cmp: (T, T) -> Ordering, a: T, b: T, c: T)
    requires IsTotalOrder(cmp)
    requires Le(cmp, a, b) && Le(cmp, b, c)
    ensures Le(cmp, a, c)
  {
  }

  lemma LeAntisym<T(!new)>(cmp: (T, T) -> Ordering, a: T, b: T)
    requires IsTotalOrder(cmp)
    requires Le(cmp, a, b) && Le(cmp, b, a)
    ensures a == b
  {
    assert cmp(b, a) == cmp(a, b).Reverse();
  }

  // ---------------------------------------------------------------------------
  // Bytes: the order of Rust `String`/`[u8]`.

  /** Byte-lexicographic comparison; a proper prefix sorts first. */
  function CmpBytes(a: seq<byte>, b: seq<byte>): Ordering
    decreases |a|
  {
    if |a| == 0 then (if |b| == 0 then Equal else Less)
    else if |b| == 0 then Greater
    else if a[0] < b[0] then Less
    else if a[0] > b[0] then Greater
    else CmpBytes(a[1..], b[1..])
  }

  /** Length of the longest common prefix of `a` and `b`. */
  function CommonPrefixLength(a: seq<byte>, b: seq<byte>): (k: nat)
    ensures k <= |a| && k <= |b|
    ensures a[..k] == b[..k]
    ensures k < |a| && k < |b| ==> a[k] != b[k]
    decreases |a|
  {
    if |a| == 0 || |b| == 0 || a[0] != b[0] then 0
    else
      var k := CommonPrefixLength(a[1..], b[1..]);
      assert a[..k + 1] == [a[0]] + a[1..][..k];
      assert b[..k + 1] == [b[0]] + b[1..][..k];
      k + 1
  }

  /** Position-wise reading of the byte order: the two strings agree up to
      their first difference, which decides; when one string ends first it is
      the smaller. */
  lemma {:induction false} CmpBytesByFirstDifference(a: seq<byte>, b: seq<byte>)
    ensures var k := CommonPrefixLength(a, b);
      CmpBytes(a, b) ==
        if k == |a| && k == |b| then Equal
        else if k == |a| then Less
        else if k == |b| then Greater
        else if a[k] < b[k] then Less
        else Greater
    decreases |a|
  {
    if |a| > 0 && |b| > 0 && a[0] == b[0] {
      var k' := CommonPrefixLength(a[1..], b[1..]);
      CmpBytesByFirstDifference(a[1..], b[1..]);
      assert CommonPrefixLength(a, b) == k' + 1;
      assert k' < |a[1..]| && k' < |b[1..]| ==> a[k' + 1] == a[1..][k'] && b[k' + 1] == b[1..][k'];
    }
  }

  lemma {:induction false} CmpBytesEqual(a: seq<byte>, b: seq<byte>)
    ensures CmpBytes(a, b) == Equal <==> a == b
    decreases |a|
  {
    if |a| > 0 && |b| > 0 && a[0] == b[0] {
      CmpBytesEqual(a[1..], b[1..]);
      if a[1..] == b[1..] {
        assert a == [a[0]] + a[1..];
        assert b == [b[0]] + b[1..];
      }
    }
  }

  lemma {:induction false} CmpBytesReverse(a: seq<byte>, b: seq<byte>)
    ensures CmpBytes(b, a) == CmpBytes(a, b).Reverse()
    decreases |a|
  {
    if |a| > 0 && |b| > 0 && a[0] == b[0] {
      CmpBytesReverse(a[1..], b[1..]);
    }
  }

  lemma {:induction false} CmpBytesTrans(a: seq<byte>, b: seq<byte>, c: seq<byte>)
    requires CmpBytes(a, b) == Less && CmpBytes(b, c) == Less
    ensures CmpBytes(a, c) == Less
    decreases |a|
  {
    if |a| > 0 && a[0] == b[0] && b[0] == c[0] {
      CmpBytesTrans(a[1..], b[1..], c[1..]);
    }
  }

  lemma BytesTotalOrder()
    ensures IsTotalOrder(CmpBytes)
  {
    forall a, b ensures CmpBytes(a, b) == Equal <==> a == b {
      CmpBytesEqual(a, b);
    }
    forall a, b ensures CmpBytes(b, a) == CmpBytes(a, b).Reverse() {
      CmpBytesReverse(a, b);
    }
    forall a, b, c | CmpBytes(a, b) == Less && CmpBytes(b, c) == Less
      ensures CmpBytes(a, c) == Less
    {
      CmpBytesTrans(a, b, c);
    }
  }

  /** The empty byte string is the least value. */
  lemma EmptyBytesLeast(b: seq<byte>)
    ensures Le(CmpBytes, [], b)
  {
  }

  /** A string whose bytes are all at most `m` is at most any string that
      starts with as many copies of `m`. */
  lemma {:induction false} BoundedBytesLeMaxPrefix(a: seq<byte>, b: seq<byte>, m: byte)
    requires forall i :: 0 <= i < |a| ==> a[i] <= m
    requires |a| <= |b| && forall i :: 0 <= i < |a| ==> b[i] == m
    ensures Le(CmpBytes, a, b)
    decreases |a|
  {
    if |a| > 0 && a[0] == m {
      BoundedBytesLeMaxPrefix(a[1..], b[1..], m);
    }
  }

  /** Where such a string first falls below `m` while `b` still holds `m`,
      it is strictly smaller. */
  lemma {:induction false} LessBelowMaxPrefix(a: seq<byte>, b: seq<byte>, m: byte, j: nat)
    requires forall i :: 0 <= i < |a| ==> a[i] <= m
    requires j < |a| && j < |b| && a[j] < m
    requires forall i :: 0 <= i <= j ==> b[i] == m
    ensures CmpBytes(a, b) == Less
    decreases j
  {
    if j > 0 && a[0] == m {
      LessBelowMaxPrefix(a[1..], b[1..], m, j - 1);
    }
  }

  /** A common prefix does not change the comparison. */
  lemma {:induction false} CmpBytesCommonPrefix(p: seq<byte>, a: seq<byte>, b: seq<byte>)
    ensures CmpBytes(p + a, p + b) == CmpBytes(a, b)
    decreases |p|
  {
    if |p| > 0 {
      var pa, pb := p + a, p + b;
      assert pa[0] == pb[0] && |pa| > 0 && |pb| > 0;
      assert CmpBytes(pa, pb) == CmpBytes(pa[1..], pb[1..]);
      assert pa[1..] == p[1..] + a;
      assert pb[1..] == p[1..] + b;
      CmpBytesCommonPrefix(p[1..], a, b);
    } else {
      assert p + a == a && p + b == b;
    }
  }

  // ---------------------------------------------------------------------------
  // Integers and options.

  function CmpInt(a: int, b: int): Ordering {
    if a < b then Less else if a > b then Greater else Equal
  }

  lemma IntTotalOrder()
    ensures IsTotalOrder(CmpInt)
  {
  }

  /** Rust's derived order on `Option<T>`: `None` sorts before every `Some`. */
  function CmpOption<T>(cmp: (T, T) -> Ordering, a: Option<T>, b: Option<T>): Ordering {
    match (a, b)
    case (None, None) => Equal
    case (None, Some(_)) => Less
    case (Some(_), None) => Greater
    case (Some(x), Some(y)) => cmp(x, y)
  }

  lemma OptionTotalOrder<T(!new)>(cmp: (T, T) -> Ordering)
    requires IsTotalOrder(cmp)
    ensures IsTotalOrder((a: Option<T>, b: Option<T>) => CmpOption(cmp, a, b))
  {
    var c := (a: Option<T>, b: Option<T>) => CmpOption(cmp, a, b);
    forall a, b ensures c(a, b) == Equal <==> a == b {
      if a.Some? && b.Some? {
        assert cmp(a.value, b.value) == Equal <==> a.value == b.value;
      }
    }
    forall a, b ensures c(b, a) == c(a, b).Reverse() {
      if a.Some? && b.Some? {
        assert cmp(b.value, a.value) == cmp(a.value, b.value).Reverse();
      }
    }
    forall a, b, d | c(a, b) == Less && c(b, d) == Less ensures c(a, d) == Less {
      if a.Some? {
        assert cmp(a.value, b.value) == Less && cmp(b.value, d.value) == Less;
      }
    }
  }
  // ---------------------------------------------------------------------------
  // The derived order of a struct.

  /** Comparing two fields in turn, the first deciding unless equal, is a
      total order when each field order is and the two fields determine the
      value. */
  lemma LexTotalOrder<T(!new), A(!new), B(!new)>(ca: (A, A) -> Ordering, cb: (B, B) -> Ordering,
                                                fa: T -> A, fb: T -> B, cmp: (T, T) -> Ordering)
    requires IsTotalOrder(ca) && IsTotalOrder(cb)
    requires forall x, y :: fa(x) == fa(y) && fb(x) == fb(y) ==> x == y
    requires forall x, y :: cmp(x, y) == ca(fa(x), fa(y)).Then(cb(fb(x), fb(y)))
    ensures IsTotalOrder(cmp)
  {
    forall x, y ensures cmp(x, y) == Equal <==> x == y {
      assert ca(fa(x), fa(y)) == Equal <==> fa(x) == fa(y);
      assert cb(fb(x), fb(y)) == Equal <==> fb(x) == fb(y);
    }
    forall x, y ensures cmp(y, x) == cmp(x, y).Reverse() {
      assert ca(fa(y), fa(x)) == ca(fa(x), fa(y)).Reverse();
      assert cb(fb(y), fb(x)) == cb(fb(x), fb(y)).Reverse();
    }
    forall x, y, z | cmp(x, y) == Less && cmp(y, z) == Less ensures cmp(x, z) == Less {
      if ca(fa(x), fa(y)) == Equal {
        assert fa(x) == fa(y);
      } else if ca(fa(y), fa(z)) == Equal {
        assert fa(y) == fa(z);
      } else {
        assert ca(fa(x), fa(y)) == Less && ca(fa(y), fa(z)) == Less;
      }
    }
  }

  /** A chained comparison is not `Greater` when neither link is. */
  lemma ThenNotGreater(first: Ordering, next: Ordering)
    requires first != Greater && next != Greater
    ensures first.Then(next) != Greater
  {
  }

  /** A chained comparison that is not `Greater` has a first link that is not
      `Greater` either. */
  lemma ThenFirstNotGreater(first: Ordering, next: Ordering)
    requires first.Then(next) != Greater
    ensures first != Greater
  {
  }
}
