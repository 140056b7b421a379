/** An ordered set: the stable-memory `BTreeMap<Entry, ()>` whose keys are the
    whole entries, read as a strictly increasing sequence under a total
    order. The operations and their lemmas are stated once here for any
    entry type and order. */
module OrderedSets {
  import opened Orders

  /** Strictly increasing under `cmp`: sorted and free of duplicates. */
  ghost predicate Sorted<T>(cmp: (T, T) -> Ordering, s: seq<T>) {
    forall i, j :: 0 <= i < j < |s| ==> cmp(s[i], s[j]) == Less
  }

  function Elems<T>(s: seq<T>): set<T> {
    set x | x in s
  }

  /** Insertion at the place the order assigns; a present entry is kept as
      it is. */
  function Insert<T(==, !new)>(cmp: (T, T) -> Ordering, s: seq<T>, x: T): (r: seq<T>)
    requires IsTotalOrder(cmp) && Sorted(cmp, s)
    ensures Sorted(cmp, r)
    ensures forall y :: y in r <==> y in s || y == x
    decreases |s|
  {
    if |s| == 0 then [x]
    else
      match cmp(x, s[0])
      case Less =>
        assert forall j :: 0 < j < |s| ==> cmp(s[0], s[j]) == Less;
        [x] + s
      case Equal => s
      case Greater =>
        var rest := Insert(cmp, s[1..], x);
        assert cmp(s[0], x) == Less;
        assert forall y :: y in rest ==> cmp(s[0], y) == Less by {
          forall y | y in rest ensures cmp(s[0], y) == Less {
            if y != x {
              var j :| 0 <= j < |s[1..]| && s[1..][j] == y;
              assert s[j + 1] == y;
            }
          }
        }
        [s[0]] + rest
  }

  /** Removal of one entry; the others stay in order. */
  function Remove<T(==, !new)>(cmp: (T, T) -> Ordering, s: seq<T>, x: T): (r: seq<T>)
    requires IsTotalOrder(cmp) && Sorted(cmp, s)
    ensures Sorted(cmp, r)
    ensures forall y :: y in r <==> y in s && y != x
    decreases |s|
  {
    if |s| == 0 then []
    else if s[0] == x then
      assert forall j :: 0 < j < |s| ==> s[j] != x by {
        forall j | 0 < j < |s| ensures s[j] != x {
          assert cmp(s[0], s[j]) == Less;
        }
      }
      assert forall y :: y in s[1..] <==> y in s && y != x;
      s[1..]
    else
      var rest := Remove(cmp, s[1..], x);
      assert forall y :: y in rest ==> cmp(s[0], y) == Less by {
        forall y | y in rest ensures cmp(s[0], y) == Less {
          var j :| 0 <= j < |s[1..]| && s[1..][j] == y;
          assert s[j + 1] == y;
        }
      }
      [s[0]] + rest
  }

  /** The entries `e` with `lo <= e <= hi`, in the order of the set: the
      inclusive range `lo..=hi`. */
  function Range<T(==, !new)>(cmp: (T, T) -> Ordering, s: seq<T>, lo: T, hi: T): (r: seq<T>)
    requires IsTotalOrder(cmp) && Sorted(cmp, s)
    ensures Sorted(cmp, r)
    ensures forall y :: y in r <==> y in s && Le(cmp, lo, y) && Le(cmp, y, hi)
    decreases |s|
  {
    if |s| == 0 then []
    else
      var rest := Range(cmp, s[1..], lo, hi);
      assert forall y :: y in rest ==> cmp(s[0], y) == Less by {
        forall y | y in rest ensures cmp(s[0], y) == Less {
          var j :| 0 <= j < |s[1..]| && s[1..][j] == y;
          assert s[j + 1] == y;
        }
      }
      if Le(cmp, lo, s[0]) && Le(cmp, s[0], hi) then [s[0]] + rest else rest
  }

  /** Membership by binary search, as the tree descends. */
  method Contains<T(==, !new)>(cmp: (T, T) -> Ordering, s: seq<T>, x: T) returns (found: bool)
    requires IsTotalOrder(cmp) && Sorted(cmp, s)
    ensures found <==> x in s
  {
    var lo, hi := 0, |s|;
    while lo < hi
      invariant 0 <= lo <= hi <= |s|
      invariant forall i :: 0 <= i < lo ==> cmp(s[i], x) == Less
      invariant forall i :: hi <= i < |s| ==> cmp(x, s[i]) == Less
    {
      var mid := (lo + hi) / 2;
      var c := cmp(x, s[mid]);
      if c == Equal {
        return true;
      } else if c == Less {
        forall i | mid <= i < |s| ensures cmp(x, s[i]) == Less {
          if mid < i {
            assert cmp(s[mid], s[i]) == Less;
          }
        }
        hi := mid;
      } else {
        assert cmp(s[mid], x) == Less;
        forall i | 0 <= i <= mid ensures cmp(s[i], x) == Less {
          if i < mid {
            assert cmp(s[i], s[mid]) == Less;
          }
        }
        lo := mid + 1;
      }
    }
    forall i | 0 <= i < |s| ensures s[i] != x {
      if i < lo {
        assert cmp(s[i], x) == Less;
      } else {
        assert cmp(x, s[i]) == Less;
      }
    }
    return false;
  }

  /** A set has one representation: two strictly increasing sequences with
      the same entries are equal. */
  lemma {:induction false} SortedUnique<T(!new)>(cmp: (T, T) -> Ordering, a: seq<T>, b: seq<T>)
    requires IsTotalOrder(cmp) && Sorted(cmp, a) && Sorted(cmp, b)
    requires forall y :: y in a <==> y in b
    ensures a == b
    decreases |a|
  {
    if |a| == 0 {
      EmptyHasNoEntries(b);
    } else {
      assert a[0] in a && b[0] in b;
      HeadIsLeast(cmp, b, a[0]);
      HeadIsLeast(cmp, a, b[0]);
      LeAntisym(cmp, a[0], b[0]);
      assert a[0] == b[0];
      forall y ensures y in a[1..] <==> y in b[1..] {
        HeadNotInTail(cmp, a);
        HeadNotInTail(cmp, b);
        assert y in a <==> y == a[0] || y in a[1..];
        assert y in b <==> y == b[0] || y in b[1..];
      }
      SortedUnique(cmp, a[1..], b[1..]);
      assert a == [a[0]] + a[1..] && b == [b[0]] + b[1..];
    }
  }

  lemma EmptyHasNoEntries<T>(s: seq<T>)
    ensures |s| == 0 <==> forall y :: y !in s
  {
    if |s| > 0 {
      assert s[0] in s;
    }
  }

  /** The first entry is the least. */
  lemma HeadIsLeast<T(!new)>(cmp: (T, T) -> Ordering, s: seq<T>, y: T)
    requires IsTotalOrder(cmp) && Sorted(cmp, s) && y in s
    ensures Le(cmp, s[0], y)
  {
    var j :| 0 <= j < |s| && s[j] == y;
    if j > 0 {
      assert cmp(s[0], s[j]) == Less;
    }
  }

  lemma HeadNotInTail<T(!new)>(cmp: (T, T) -> Ordering, s: seq<T>)
    requires IsTotalOrder(cmp) && Sorted(cmp, s) && |s| > 0
    ensures s[0] !in s[1..]
    ensures forall i :: 0 <= i < |s[1..]| ==> cmp(s[0], s[1..][i]) == Less
  {
    forall i | 0 <= i < |s[1..]| ensures s[1..][i] != s[0] && cmp(s[0], s[1..][i]) == Less {
      assert cmp(s[0], s[i + 1]) == Less;
    }
  }

  /** A strictly increasing sequence holds each of its entries once. */
  lemma {:induction false} SortedCardinality<T(!new)>(cmp: (T, T) -> Ordering, s: seq<T>)
    requires IsTotalOrder(cmp) && Sorted(cmp, s)
    ensures |Elems(s)| == |s|
    decreases |s|
  {
    if |s| > 0 {
      HeadNotInTail(cmp, s);
      SortedCardinality(cmp, s[1..]);
      assert Elems(s) == {s[0]} + Elems(s[1..]);
    } else {
      assert Elems(s) == {};
    }
  }

  /** Inserting what is already there changes nothing, so insertion is
      idempotent. */
  lemma InsertPresent<T(!new)>(cmp: (T, T) -> Ordering, s: seq<T>, x: T)
    requires IsTotalOrder(cmp) && Sorted(cmp, s) && x in s
    ensures Insert(cmp, s, x) == s
  {
    SortedUnique(cmp, Insert(cmp, s, x), s);
  }

  lemma InsertIdempotent<T(!new)>(cmp: (T, T) -> Ordering, s: seq<T>, x: T)
    requires IsTotalOrder(cmp) && Sorted(cmp, s)
    ensures Insert(cmp, Insert(cmp, s, x), x) == Insert(cmp, s, x)
  {
    InsertPresent(cmp, Insert(cmp, s, x), x);
  }

  /** Removing what was just inserted restores a set that lacked it, and
      inserting what was just removed restores a set that had it. */
  lemma RemoveInsert<T(!new)>(cmp: (T, T) -> Ordering, s: seq<T>, x: T)
    requires IsTotalOrder(cmp) && Sorted(cmp, s) && x !in s
    ensures Remove(cmp, Insert(cmp, s, x), x) == s
  {
    SortedUnique(cmp, Remove(cmp, Insert(cmp, s, x), x), s);
  }

  lemma InsertRemove<T(!new)>(cmp: (T, T) -> Ordering, s: seq<T>, x: T)
    requires IsTotalOrder(cmp) && Sorted(cmp, s) && x in s
    ensures Insert(cmp, Remove(cmp, s, x), x) == s
  {
    SortedUnique(cmp, Insert(cmp, Remove(cmp, s, x), x), s);
  }

  /** Removing an absent entry changes nothing. */
  lemma RemoveAbsent<T(!new)>(cmp: (T, T) -> Ordering, s: seq<T>, x: T)
    requires IsTotalOrder(cmp) && Sorted(cmp, s) && x !in s
    ensures Remove(cmp, s, x) == s
  {
    SortedUnique(cmp, Remove(cmp, s, x), s);
  }

  /** A range whose entries are known is that sorted list exactly. */
  lemma RangeIsPair<T(!new)>(cmp: (T, T) -> Ordering, s: seq<T>, lo: T, hi: T, a: T, b: T)
    requires IsTotalOrder(cmp) && Sorted(cmp, s)
    requires cmp(a, b) == Less
    requires forall y :: y in Range(cmp, s, lo, hi) <==> y == a || y == b
    ensures Range(cmp, s, lo, hi) == [a, b]
  {
    SortedUnique(cmp, Range(cmp, s, lo, hi), [a, b]);
  }
}
