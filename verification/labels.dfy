/** Splitting names into labels the way Rust's `str::split('.')` does, its
    inverse `join`, and the "first failing label decides" scan that both
    validators use. */
module Labels {
  import opened Bytes
  import opened Wrappers
  import opened Ascii

  /** `s.split(sep).collect::<Vec<_>>()`: always at least one piece; the
      empty string gives one empty piece, and a trailing separator gives a
      trailing empty piece. */
  function Split(s: seq<byte>, sep: byte): (r: seq<seq<byte>>)
    ensures |r| >= 1
    decreases |s|
  {
    if |s| == 0 then [[]]
    else
      var rest := Split(s[1..], sep);
      if s[0] == sep then [[]] + rest else [[s[0]] + rest[0]] + rest[1..]
  }

  /** `pieces.join(sep)`. */
  function Join(ls: seq<seq<byte>>, sep: byte): seq<byte>
    requires |ls| >= 1
  {
    if |ls| == 1 then ls[0] else ls[0] + [sep] + Join(ls[1..], sep)
  }

  /** Labels each followed by the separator: the shape of a fully qualified
      name such as `a.tld.`. */
  function Terminated(ls: seq<seq<byte>>, sep: byte): seq<byte> {
    if |ls| == 0 then [] else ls[0] + [sep] + Terminated(ls[1..], sep)
  }

  lemma TerminatedOne(a: seq<byte>, sep: byte)
    ensures Terminated([a], sep) == a + [sep]
  {
    assert Terminated([a], sep) == a + [sep] + Terminated([], sep);
  }

  lemma TerminatedTwo(a: seq<byte>, b: seq<byte>, sep: byte)
    ensures Terminated([a, b], sep) == a + [sep] + (b + [sep])
  {
    assert [a, b][1..] == [b];
    TerminatedOne(b, sep);
  }

  ghost predicate NoSeparator(ls: seq<seq<byte>>, sep: byte) {
    forall i :: 0 <= i < |ls| ==> sep !in ls[i]
  }

  lemma {:induction false} SplitHasNoSeparator(s: seq<byte>, sep: byte)
    ensures NoSeparator(Split(s, sep), sep)
    decreases |s|
  {
    if |s| > 0 {
      SplitHasNoSeparator(s[1..], sep);
    }
  }

  /** The first piece of a split is either the whole string (which then has
      no separator) or the bytes before the first separator. */
  ghost predicate FirstPieceShape(s: seq<byte>, sep: byte) {
    var p := Split(s, sep)[0];
    || (p == s && sep !in s && Split(s, sep) == [s])
    || (&& |p| < |s| && s[|p|] == sep && sep !in p
        && s == p + [sep] + s[|p| + 1..]
        && Split(s, sep) == [p] + Split(s[|p| + 1..], sep))
  }

  lemma {:induction false} SplitFirstPiece(s: seq<byte>, sep: byte)
    ensures FirstPieceShape(s, sep)
    decreases |s|
  {
    if |s| > 0 {
      if s[0] == sep {
        assert s == [] + [sep] + s[1..];
      } else {
        SplitFirstPiece(s[1..], sep);
        FirstPieceCons(s, sep);
      }
    }
  }

  /** A first byte other than the separator joins the first piece of the
      rest. */
  lemma FirstPieceCons(s: seq<byte>, sep: byte)
    requires |s| > 0 && s[0] != sep
    requires FirstPieceShape(s[1..], sep)
    ensures FirstPieceShape(s, sep)
  {
    var rest := Split(s[1..], sep);
    var p := [s[0]] + rest[0];
    assert Split(s, sep) == [p] + rest[1..];
    if rest[0] == s[1..] && sep !in s[1..] && rest == [s[1..]] {
      assert p == s;
    } else {
      var t := s[1..][|rest[0]| + 1..];
      assert s[|p| + 1..] == t;
      assert s == p + [sep] + t;
    }
  }

  /** `s.trim_end_matches(c)`: drops every trailing `c`. */
  function TrimEnd(s: seq<byte>, c: byte): (r: seq<byte>)
    ensures |r| <= |s| && r == s[..|r|]
    ensures |r| == 0 || r[|r| - 1] != c
    ensures forall i :: |r| <= i < |s| ==> s[i] == c
    decreases |s|
  {
    if |s| > 0 && s[|s| - 1] == c then TrimEnd(s[..|s| - 1], c) else s
  }

  /** A terminated name is the joined labels plus one separator. */
  lemma {:induction false} TerminatedIsJoinPlusSeparator(ls: seq<seq<byte>>, sep: byte)
    requires |ls| >= 1
    ensures Terminated(ls, sep) == Join(ls, sep) + [sep]
    decreases |ls|
  {
    if |ls| > 1 {
      TerminatedIsJoinPlusSeparator(ls[1..], sep);
    } else {
      TerminatedOne(ls[0], sep);
    }
  }

  /** Joining pieces whose last one is non-empty ends with that piece's last byte. */
  lemma JoinLastByte(ls: seq<seq<byte>>, sep: byte)
    requires |ls| >= 1 && |ls[|ls| - 1]| >= 1
    ensures var j := Join(ls, sep); |j| >= 1 && j[|j| - 1] == ls[|ls| - 1][|ls[|ls| - 1]| - 1]
  {
    if |ls| >= 2 {
      JoinLast(ls, sep);
    }
  }

  /** Joining pieces gives back the string. */
  lemma {:induction false} JoinSplit(s: seq<byte>, sep: byte)
    ensures Join(Split(s, sep), sep) == s
    decreases |s|
  {
    if |s| > 0 {
      var rest := Split(s[1..], sep);
      JoinSplit(s[1..], sep);
      if s[0] == sep {
        assert Join([[]] + rest, sep) == [] + [sep] + Join(rest, sep);
      } else if |rest| == 1 {
        assert Join([[s[0]] + rest[0]], sep) == [s[0]] + rest[0];
      } else {
        assert Join(rest, sep) == rest[0] + [sep] + Join(rest[1..], sep);
        var r := [[s[0]] + rest[0]] + rest[1..];
        assert r[1..] == rest[1..];
        assert Join(r, sep) == [s[0]] + rest[0] + [sep] + Join(rest[1..], sep);
      }
    }
  }

  lemma {:induction false} SplitWithoutSeparator(l: seq<byte>, sep: byte)
    requires sep !in l
    ensures Split(l, sep) == [l]
    decreases |l|
  {
    if |l| > 0 {
      SplitWithoutSeparator(l[1..], sep);
      assert [l[0]] + l[1..] == l;
    }
  }

  /** A separator-free first label splits off on its own. */
  lemma {:induction false} SplitAfterLabel(l: seq<byte>, t: seq<byte>, sep: byte)
    requires sep !in l
    ensures Split(l + [sep] + t, sep) == [l] + Split(t, sep)
    decreases |l|
  {
    var s := l + [sep] + t;
    if |l| == 0 {
      assert s[1..] == t;
    } else {
      assert s[1..] == l[1..] + [sep] + t;
      SplitAfterLabel(l[1..], t, sep);
      assert [l[0]] + l[1..] == l;
    }
  }

  /** Splitting inverts joining when no piece holds the separator. */
  lemma {:induction false} SplitJoin(ls: seq<seq<byte>>, sep: byte)
    requires |ls| >= 1
    requires NoSeparator(ls, sep)
    ensures Split(Join(ls, sep), sep) == ls
    decreases |ls|
  {
    if |ls| == 1 {
      SplitWithoutSeparator(ls[0], sep);
    } else {
      SplitJoin(ls[1..], sep);
      SplitAfterLabel(ls[0], Join(ls[1..], sep), sep);
      assert [ls[0]] + ls[1..] == ls;
    }
  }

  /** A terminated name splits into its labels and one trailing empty piece. */
  lemma {:induction false} SplitTerminated(ls: seq<seq<byte>>, sep: byte)
    requires NoSeparator(ls, sep)
    ensures Split(Terminated(ls, sep), sep) == ls + [[]]
    decreases |ls|
  {
    if |ls| > 0 {
      SplitTerminated(ls[1..], sep);
      SplitAfterLabel(ls[0], Terminated(ls[1..], sep), sep);
      assert [ls[0]] + (ls[1..] + [[]]) == ls + [[]];
    }
  }

  lemma {:induction false} JoinWithEmptyLast(ls: seq<seq<byte>>, sep: byte)
    ensures Join(ls + [[]], sep) == Terminated(ls, sep)
    decreases |ls|
  {
    if |ls| > 0 {
      JoinWithEmptyLast(ls[1..], sep);
      assert (ls + [[]])[1..] == ls[1..] + [[]];
    }
  }

  lemma {:induction false} JoinLast(ls: seq<seq<byte>>, sep: byte)
    requires |ls| >= 2
    ensures Join(ls, sep) == Join(ls[..|ls| - 1], sep) + [sep] + ls[|ls| - 1]
    decreases |ls|
  {
    if |ls| > 2 {
      JoinLast(ls[1..], sep);
      assert ls[1..][..|ls| - 2] == ls[..|ls| - 1][1..];
    }
  }

  /** A string ending in the separator splits into labels that, each
      followed by the separator, make up the string again. */
  lemma SplitOfTerminated(s: seq<byte>, sep: byte)
    requires |s| > 0 && s[|s| - 1] == sep
    ensures var pieces := Split(s, sep);
      && pieces[|pieces| - 1] == []
      && s == Terminated(pieces[..|pieces| - 1], sep)
  {
    var pieces := Split(s, sep);
    JoinSplit(s, sep);
    SplitHasNoSeparator(s, sep);
    if |pieces| >= 2 {
      JoinLast(pieces, sep);
    }
    assert pieces == pieces[..|pieces| - 1] + [[]];
    JoinWithEmptyLast(pieces[..|pieces| - 1], sep);
  }

  lemma {:induction false} TerminatedLength(ls: seq<seq<byte>>, sep: byte)
    ensures |Terminated(ls, sep)| >= |ls|
    decreases |ls|
  {
    if |ls| > 0 {
      TerminatedLength(ls[1..], sep);
    }
  }

  /** A terminated name with at least one label ends in the separator. */
  lemma {:induction false} TerminatedEndsWithSeparator(ls: seq<seq<byte>>, sep: byte)
    requires |ls| >= 1
    ensures var t := Terminated(ls, sep); |t| >= 1 && t[|t| - 1] == sep
    decreases |ls|
  {
    if |ls| > 1 {
      TerminatedEndsWithSeparator(ls[1..], sep);
    }
  }

  /** Every byte of a terminated name is the separator or a byte of one of
      its labels, so a property of all label bytes carries over. */
  lemma {:induction false} TerminatedBytes(ls: seq<seq<byte>>, sep: byte, p: byte -> bool)
    requires forall i, j :: 0 <= i < |ls| && 0 <= j < |ls[i]| ==> p(ls[i][j])
    ensures forall k :: 0 <= k < |Terminated(ls, sep)| ==>
      Terminated(ls, sep)[k] == sep || p(Terminated(ls, sep)[k])
    decreases |ls|
  {
    if |ls| > 0 {
      TerminatedBytes(ls[1..], sep, p);
      var t := Terminated(ls, sep);
      var rest := Terminated(ls[1..], sep);
      assert t == ls[0] + [sep] + rest;
      forall k | 0 <= k < |t| ensures t[k] == sep || p(t[k]) {
        if k < |ls[0]| {
          assert t[k] == ls[0][k];
          assert p(ls[0][k]);
        } else if k > |ls[0]| {
          assert t[k] == rest[k - |ls[0]| - 1];
          assert rest[k - |ls[0]| - 1] == sep || p(rest[k - |ls[0]| - 1]);
        }
      }
    }
  }

  /** The same for joined pieces. */
  lemma {:induction false} JoinBytes(ls: seq<seq<byte>>, sep: byte, p: byte -> bool)
    requires |ls| >= 1
    requires forall i, j :: 0 <= i < |ls| && 0 <= j < |ls[i]| ==> p(ls[i][j])
    ensures forall k :: 0 <= k < |Join(ls, sep)| ==> Join(ls, sep)[k] == sep || p(Join(ls, sep)[k])
    decreases |ls|
  {
    if |ls| > 1 {
      JoinBytes(ls[1..], sep, p);
      var t := Join(ls, sep);
      var rest := Join(ls[1..], sep);
      assert t == ls[0] + [sep] + rest;
      forall k | 0 <= k < |t| ensures t[k] == sep || p(t[k]) {
        if k < |ls[0]| {
          assert t[k] == ls[0][k];
          assert p(ls[0][k]);
        } else if k > |ls[0]| {
          assert t[k] == rest[k - |ls[0]| - 1];
          assert rest[k - |ls[0]| - 1] == sep || p(rest[k - |ls[0]| - 1]);
        }
      }
    }
  }

  /** Each piece lowercased. */
  function LowerAll(ls: seq<seq<byte>>): (r: seq<seq<byte>>)
    ensures |r| == |ls|
    ensures forall i :: 0 <= i < |ls| ==> r[i] == Lower(ls[i])
  {
    seq(|ls|, i requires 0 <= i < |ls| => Lower(ls[i]))
  }

  /** Lowercasing never creates or removes a dot, so splitting a lowercased
      name gives the lowercased pieces. */
  lemma {:induction false} SplitLower(s: seq<byte>)
    ensures Split(Lower(s), DOT) == LowerAll(Split(s, DOT))
    decreases |s|
  {
    if |s| > 0 {
      var rest := Split(s[1..], DOT);
      SplitLower(s[1..]);
      var low := Lower(s);
      assert low[1..] == Lower(s[1..]);
      assert Split(low, DOT) == (if low[0] == DOT then [[]] + LowerAll(rest)
        else [[low[0]] + LowerAll(rest)[0]] + LowerAll(rest)[1..]);
      if s[0] == DOT {
        LowerAllPrepend([], rest);
      } else {
        LowerAllConsFirst(s[0], rest);
      }
    }
  }

  lemma LowerAllPrepend(l: seq<byte>, ls: seq<seq<byte>>)
    ensures LowerAll([l] + ls) == [Lower(l)] + LowerAll(ls)
  {
    var a := LowerAll([l] + ls);
    var b := [Lower(l)] + LowerAll(ls);
    forall i | 0 <= i < |a| ensures a[i] == b[i] {
      if i > 0 {
        assert ([l] + ls)[i] == ls[i - 1];
      }
    }
  }

  lemma LowerAllConsFirst(c: byte, ls: seq<seq<byte>>)
    requires |ls| >= 1 && c != DOT
    ensures LowerAll([[c] + ls[0]] + ls[1..]) == [[ToLower(c)] + LowerAll(ls)[0]] + LowerAll(ls)[1..]
  {
    LowerAllPrepend([c] + ls[0], ls[1..]);
    LowerOfAppend([c], ls[0]);
    var tail := LowerAll(ls[1..]);
    forall i | 0 <= i < |tail| ensures tail[i] == LowerAll(ls)[1..][i] {
      assert ls[1..][i] == ls[i + 1];
    }
  }

  /** Two scans whose checks agree on which pieces pass agree on passing. */
  lemma FirstFailurePassAgrees<L, E>(xs: seq<L>, ys: seq<L>, check: L -> Outcome<E>)
    requires |xs| == |ys|
    requires forall i :: 0 <= i < |xs| ==> (check(xs[i]).Pass? <==> check(ys[i]).Pass?)
    ensures FirstFailure(xs, check).Pass? <==> FirstFailure(ys, check).Pass?
  {
  }

  /** Checks the pieces left to right and reports the first failure. */
  function FirstFailure<L, E>(ls: seq<L>, check: L -> Outcome<E>): (r: Outcome<E>)
    ensures r.Pass? <==> forall i :: 0 <= i < |ls| ==> check(ls[i]).Pass?
    ensures r.Fail? ==>
      exists i :: 0 <= i < |ls| && check(ls[i]) == r && (forall j :: 0 <= j < i ==> check(ls[j]).Pass?)
  {
    if |ls| == 0 then Pass
    else
      match check(ls[0])
      case Fail(e) => Fail(e)
      case Pass =>
        var r := FirstFailure(ls[1..], check);
        assert forall i :: 0 < i < |ls| ==> ls[i] == ls[1..][i - 1];
        assert r.Fail? ==> exists i :: 0 < i < |ls| && check(ls[i]) == r && (forall j :: 0 <= j < i ==> check(ls[j]).Pass?)
          by {
            if r.Fail? {
              var k :| 0 <= k < |ls[1..]| && check(ls[1..][k]) == r && (forall j :: 0 <= j < k ==> check(ls[1..][j]).Pass?);
              assert check(ls[k + 1]) == r;
            }
          }
        r
  }
}
