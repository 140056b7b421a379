/** The least and greatest record names that the zone range keys use as
    fill-ins (`RecordName::min_value`, `RecordName::max_value`), both as the
    source computes them and in the corrected form the rest of the model uses. */
module RecordNameBounds {
  import opened Bytes
  import opened Wrappers
  import opened Orders
  import opened Ascii
  import opened Labels
  import opened Constants
  import opened RecordNameErrors
  import opened RecordNames
  import ZoneApex

  /** `apex_domain.map_or(0, |d| d.len())`. */
  function ApexLength(apex: Option<ZoneApex.ZoneApexDomain>): nat {
    match apex
    case None => 0
    case Some(d) => |d.name|
  }

  /** `k` rounds of the loop in `max_value`: each round puts a full `z` label
      and a dot in front of `v`. */
  function MaxPrefix(k: nat, v: seq<byte>): (r: seq<byte>)
    ensures |r| == 64 * k + |v|
    ensures |v| > 0 ==> r[|r| - 1] == v[|v| - 1]
    ensures k > 0 ==> forall i :: 0 <= i < MAX_DOMAIN_LABEL_LENGTH ==> r[i] == LOWER_Z
    ensures (forall i :: 0 <= i < |v| ==> v[i] == LOWER_Z) ==>
      forall i :: 0 <= i < |r| ==> r[i] == LOWER_Z || r[i] == DOT
  {
    if k == 0 then v
    else
      var rest := MaxPrefix(k - 1, v);
      var r := MAX_DOMAIN_LABEL + [DOT] + rest;
      assert forall i :: 64 <= i < |r| ==> r[i] == rest[i - 64];
      r
  }

  /** The greatest chain of labels: `k` labels of 63 `z` and a last one of `t`. */
  function MaxChain(k: nat, t: nat): (r: seq<byte>)
    ensures |r| == 64 * k + t
    ensures forall i :: 0 <= i < |r| ==> r[i] == LOWER_Z || r[i] == DOT
  {
    MaxPrefix(k, Repeat(LOWER_Z, t))
  }

  /** The labels of a chain. */
  function MaxLabels(k: nat, t: nat): (ls: seq<seq<byte>>)
    ensures |ls| == k + 1 && ls[k] == Repeat(LOWER_Z, t)
    ensures forall i :: 0 <= i < k ==> ls[i] == MAX_DOMAIN_LABEL
  {
    seq(k, _ => MAX_DOMAIN_LABEL) + [Repeat(LOWER_Z, t)]
  }

  lemma {:induction false} MaxChainSplit(k: nat, t: nat)
    ensures Split(MaxChain(k, t), DOT) == MaxLabels(k, t)
    ensures MaxChain(k, t) == Join(MaxLabels(k, t), DOT)
    decreases k
  {
    if k == 0 {
      SplitWithoutSeparator(Repeat(LOWER_Z, t), DOT);
    } else {
      MaxChainSplit(k - 1, t);
      SplitAfterLabel(MAX_DOMAIN_LABEL, MaxChain(k - 1, t), DOT);
      assert MaxLabels(k, t) == [MAX_DOMAIN_LABEL] + MaxLabels(k - 1, t);
    }
  }

  /** Moving one round of the loop from the outside to the inside. */
  lemma {:induction false} MaxPrefixShift(k: nat, v: seq<byte>)
    ensures MaxPrefix(k + 1, v) == MaxPrefix(k, MAX_DOMAIN_LABEL + [DOT] + v)
    decreases k
  {
    if k > 0 {
      MaxPrefixShift(k - 1, v);
    }
  }

  lemma {:induction false} MaxPrefixAppend(k: nat, v: seq<byte>, w: seq<byte>)
    ensures MaxPrefix(k, v) + w == MaxPrefix(k, v + w)
    decreases k
  {
    if k > 0 {
      MaxPrefixAppend(k - 1, v, w);
    }
  }

  // ---------------------------------------------------------------------------
  // `max_value` as written.

  /** `RecordName::max_value`. With `L` the apex length, the budget is
      `255 - L - 1` in `usize`, which underflows once `L` reaches 255 (a panic
      in a debug build; in a release build it wraps around, and the loop
      exhausts memory): `None`. A
      budget of 0 gives `@`; otherwise `z` labels are laid out as if every
      label used 63 of the budget, ignoring the dots between them, and a
      trailing dot is trimmed. */
  function MaxValueAsWritten(apex: Option<ZoneApex.ZoneApexDomain>): (r: Option<RecordName>)
    ensures r.None? <==> ApexLength(apex) >= MAX_SIZE
    ensures r.Some? && ApexLength(apex) == MAX_SIZE - 1 ==> r.value == Default()
  {
    var l := ApexLength(apex);
    if l + 1 > MAX_SIZE then None
    else
      var maxLength := MAX_SIZE - l - 1;
      if maxLength == 0 then Some(Default())
      else
        Some(RecordName(LaidOut(maxLength)))
  }

  /** The body of `max_value` for a budget: `budget / 63` rounds of the loop
      around `budget % 63` bytes of `z`, then the trailing dots trimmed. */
  function LaidOut(budget: nat): (r: seq<byte>)
    requires budget >= 1
  {
    var k := budget / MAX_DOMAIN_LABEL_LENGTH;
    var rem := budget % MAX_DOMAIN_LABEL_LENGTH;
    TrimEnd(MaxPrefix(k, Repeat(LOWER_Z, rem)), DOT)
  }

  /** The number of full labels of a chain and the length of its last one. */
  datatype ChainShape = ChainShape(full: nat, last: nat)

  /** The chain `max_value` lays out for a budget: one full label per 63
      bytes and the remainder as the last label; with no remainder the last
      full label is the last one. Every label but the last brings a dot the
      budget did not count. */
  function AsWrittenShape(budget: nat): (c: ChainShape)
    requires budget >= 1
    ensures 1 <= c.last <= MAX_DOMAIN_LABEL_LENGTH
    ensures 64 * c.full + c.last == budget + c.full
    ensures budget >= 64 ==> c.full >= 1
  {
    DivideBudget(budget, MAX_DOMAIN_LABEL_LENGTH);
    var k, rem := budget / MAX_DOMAIN_LABEL_LENGTH, budget % MAX_DOMAIN_LABEL_LENGTH;
    if rem == 0 then ChainShape(k - 1, MAX_DOMAIN_LABEL_LENGTH) else ChainShape(k, rem)
  }

  /** Trimming after the loop: a non-empty remainder already ends in `z`;
      an empty one leaves a dot after the last full label, which goes. */
  lemma TrimmedLoop(k: nat, rem: nat)
    requires rem == 0 ==> k >= 1
    ensures TrimEnd(MaxPrefix(k, Repeat(LOWER_Z, rem)), DOT) ==
      if rem == 0 then MaxChain(k - 1, MAX_DOMAIN_LABEL_LENGTH) else MaxChain(k, rem)
  {
    if rem == 0 {
      var x := MaxChain(k - 1, MAX_DOMAIN_LABEL_LENGTH);
      assert Repeat(LOWER_Z, 0) == [];
      MaxPrefixShift(k - 1, []);
      assert MAX_DOMAIN_LABEL + [DOT] + [] == Repeat(LOWER_Z, MAX_DOMAIN_LABEL_LENGTH) + [DOT];
      MaxPrefixAppend(k - 1, Repeat(LOWER_Z, MAX_DOMAIN_LABEL_LENGTH), [DOT]);
      assert MaxPrefix(k, Repeat(LOWER_Z, 0)) == x + [DOT];
      assert (x + [DOT])[..|x|] == x;
      assert TrimEnd(x + [DOT], DOT) == TrimEnd(x, DOT);
    }
  }

  /** The loop builds exactly that chain. */
  lemma LaidOutShape(b: nat)
    requires b >= 1
    ensures LaidOut(b) == MaxChain(AsWrittenShape(b).full, AsWrittenShape(b).last)
  {
    DivideBudget(b, MAX_DOMAIN_LABEL_LENGTH);
    TrimmedLoop(b / MAX_DOMAIN_LABEL_LENGTH, b % MAX_DOMAIN_LABEL_LENGTH);
  }

  /** With a budget, `max_value` is what the loop lays out. */
  lemma MaxValueAsWrittenIsLaidOut(apex: Option<ZoneApex.ZoneApexDomain>)
    requires ApexLength(apex) + 2 <= MAX_SIZE
    ensures MaxValueAsWritten(apex) == Some(RecordName(LaidOut(MAX_SIZE - ApexLength(apex) - 1)))
  {
  }

  /** With room for at least one byte, `max_value` lays out the budget
      `255 - L - 1`. */
  lemma MaxValueAsWrittenBudget(apex: Option<ZoneApex.ZoneApexDomain>)
    requires ApexLength(apex) + 2 <= MAX_SIZE
    ensures var c := AsWrittenShape(MAX_SIZE - ApexLength(apex) - 1);
      MaxValueAsWritten(apex) == Some(RecordName(MaxChain(c.full, c.last)))
  {
    var b := MAX_SIZE - ApexLength(apex) - 1;
    var c := AsWrittenShape(b);
    var m := MaxChain(c.full, c.last);
    assert LaidOut(b) == m by {
      LaidOutShape(b);
    }
    assert MaxValueAsWritten(apex) == Some(RecordName(LaidOut(b))) by {
      MaxValueAsWrittenIsLaidOut(apex);
    }
  }

  /** Euclidean division of a positive budget. */
  lemma DivideBudget(b: nat, d: nat)
    requires b >= 1 && d >= 1
    ensures b == d * (b / d) + b % d && 0 <= b % d < d
    ensures b % d == 0 ==> b / d >= 1
  {
  }

  // ---------------------------------------------------------------------------
  // Names below a chain.

  /** What every accepted name satisfies: no byte above `z`, and 1 to 63
      bytes between dots. */
  ghost predicate IsBoundedName(r: seq<byte>) {
    && (forall i :: 0 <= i < |r| ==> r[i] <= LOWER_Z)
    && (forall k :: 0 <= k < |Split(r, DOT)| ==> 1 <= |Split(r, DOT)[k]| <= MAX_DOMAIN_LABEL_LENGTH)
  }

  /** A bounded name no longer than a chain of `k` full labels and a last
      one of `t`, or one byte longer when that last label is full. */
  ghost predicate FitsChain(r: seq<byte>, k: nat, t: nat) {
    && 1 <= t <= MAX_DOMAIN_LABEL_LENGTH
    && IsBoundedName(r)
    && (|r| <= 64 * k + t || (t == MAX_DOMAIN_LABEL_LENGTH && |r| <= 64 * k + 64))
  }

  /** Such a name sorts at or below the chain. */
  lemma {:induction false} BoundedNameLeMaxChain(r: seq<byte>, k: nat, t: nat)
    requires FitsChain(r, k, t)
    ensures CmpBytes(r, MaxChain(k, t)) != Greater
    decreases k, 1
  {
    if Split(r, DOT)[0] == r {
      SingleLabelBelowChain(r, k, t);
    } else if k == 0 || Split(r, DOT)[0] != MAX_DOMAIN_LABEL {
      FirstLabelBelowChain(r, k, t);
    } else {
      var rest := FullLabelRest(r, k, t);
      FullFirstLabelBelowChain(rest, k, t);
    }
  }

  /** A first label of 63 `z` matches the chain's first label: the rest of
      the name is compared with the rest of the chain. */
  lemma {:induction false} FullFirstLabelBelowChain(rest: seq<byte>, k: nat, t: nat)
    requires k >= 1 && FitsChain(rest, k - 1, t)
    ensures CmpBytes(MAX_DOMAIN_LABEL + [DOT] + rest, MaxChain(k, t)) != Greater
    decreases k, 0
  {
    BoundedNameLeMaxChain(rest, k - 1, t);
    FullLabelThenChain(rest, k, t);
  }

  /** A full label of `z` and a dot in front of a name below a chain keep
      it below the chain one label longer. */
  lemma FullLabelThenChain(rest: seq<byte>, k: nat, t: nat)
    requires k >= 1
    requires CmpBytes(rest, MaxChain(k - 1, t)) != Greater
    ensures CmpBytes(MAX_DOMAIN_LABEL + [DOT] + rest, MaxChain(k, t)) != Greater
  {
    PrefixKeepsLe(MAX_DOMAIN_LABEL + [DOT], rest, MaxChain(k - 1, t));
    MaxChainCons(k, t);
  }

  /** A common prefix does not change the comparison. */
  lemma PrefixKeepsLe(pre: seq<byte>, a: seq<byte>, b: seq<byte>)
    requires Le(CmpBytes, a, b)
    ensures Le(CmpBytes, pre + a, pre + b)
  {
    CmpBytesCommonPrefix(pre, a, b);
  }

  /** A chain of `k` full labels starts with a full label and a dot. */
  lemma MaxChainCons(k: nat, t: nat)
    requires k >= 1
    ensures MaxChain(k, t) == MAX_DOMAIN_LABEL + [DOT] + MaxChain(k - 1, t)
  {
  }

  /** What follows a first label of 63 `z` and its dot fits the chain one
      label shorter. */
  lemma FullLabelRest(r: seq<byte>, k: nat, t: nat) returns (rest: seq<byte>)
    requires FitsChain(r, k, t) && k >= 1
    requires Split(r, DOT)[0] == MAX_DOMAIN_LABEL != r
    ensures r == MAX_DOMAIN_LABEL + [DOT] + rest && FitsChain(rest, k - 1, t)
  {
    SplitFirstPiece(r, DOT);
    var p := Split(r, DOT)[0];
    rest := r[|p| + 1..];
    BoundedRest(r, p);
  }

  /** A bounded name without a dot is one label of at most 63 bytes, all of
      them at most `z`, and the chain starts with at least that many `z`. */
  lemma SingleLabelBelowChain(r: seq<byte>, k: nat, t: nat)
    requires FitsChain(r, k, t) && Split(r, DOT)[0] == r
    ensures Le(CmpBytes, r, MaxChain(k, t))
  {
    var m := MaxChain(k, t);
    assert |r| <= MAX_DOMAIN_LABEL_LENGTH;
    assert |r| <= |m| && forall i :: 0 <= i < |r| ==> m[i] == LOWER_Z;
    BoundedBytesLeMaxPrefix(r, m, LOWER_Z);
  }

  /** A first label shorter than a full one, or one with a byte below `z`,
      sorts below the chain: at that position the chain has `z`. */
  lemma FirstLabelBelowChain(r: seq<byte>, k: nat, t: nat)
    requires FitsChain(r, k, t)
    requires Split(r, DOT)[0] != r
    requires k == 0 || Split(r, DOT)[0] != MAX_DOMAIN_LABEL
    ensures CmpBytes(r, MaxChain(k, t)) == Less
  {
    SplitFirstPiece(r, DOT);
    var p := Split(r, DOT)[0];
    var m := MaxChain(k, t);
    assert 1 <= |p| <= MAX_DOMAIN_LABEL_LENGTH;
    if k == 0 {
      assert |r| >= |p| + 2 by {
        assert Split(r, DOT)[1] == Split(r[|p| + 1..], DOT)[0];
      }
      LessBelowMaxPrefix(r, m, LOWER_Z, |p|);
    } else if |p| < MAX_DOMAIN_LABEL_LENGTH {
      LessBelowMaxPrefix(r, m, LOWER_Z, |p|);
    } else {
      var j :| 0 <= j < MAX_DOMAIN_LABEL_LENGTH && p[j] != MAX_DOMAIN_LABEL[j];
      assert r[j] == p[j];
      LessBelowMaxPrefix(r, m, LOWER_Z, j);
    }
  }

  /** What follows the first label and its dot of a bounded name is
      bounded. */
  lemma BoundedRest(r: seq<byte>, p: seq<byte>)
    requires IsBoundedName(r)
    requires |p| < |r| && r == p + [DOT] + r[|p| + 1..]
    requires Split(r, DOT) == [p] + Split(r[|p| + 1..], DOT)
    ensures IsBoundedName(r[|p| + 1..])
  {
    var rest := r[|p| + 1..];
    assert forall j :: 0 <= j < |Split(rest, DOT)| ==> Split(rest, DOT)[j] == Split(r, DOT)[j + 1];
    assert forall i :: 0 <= i < |rest| ==> rest[i] == r[i + |p| + 1];
  }

  /** Every accepted name is bounded. */
  lemma AcceptedNameIsBounded(name: seq<byte>, apex: ZoneApex.ZoneApexDomain)
    requires Validate(name, apex).Pass?
    ensures IsBoundedName(name)
    ensures name == APEX_RECORD || |name| + 1 + |apex.name| <= MAX_SIZE
  {
    AcceptedNameShape(name, apex);
  }

  /** A chain is an accepted name under any apex without `_` that leaves it
      room, and `new` keeps it as it is. */
  lemma MaxChainIsAccepted(k: nat, t: nat, apex: ZoneApex.ZoneApexDomain)
    requires 1 <= t <= MAX_DOMAIN_LABEL_LENGTH
    requires UNDERSCORE !in apex.name
    requires 64 * k + t + 1 + |apex.name| <= MAX_SIZE
    ensures Validate(MaxChain(k, t), apex) == Pass
    ensures New(MaxChain(k, t), apex) == Ok(RecordName(MaxChain(k, t)))
  {
    var m := MaxChain(k, t);
    MaxChainLabelsPass(k, t, apex);
    assert UNDERSCORE !in m;
    assert UNDERSCORE !in FullyQualified(m, apex);
    LowerOfNoUpper(m);
  }

  /** Where `max_value` as written is defined it is an upper bound of the
      accepted names. */
  lemma MaxValueAsWrittenIsUpperBound(name: seq<byte>, apex: ZoneApex.ZoneApexDomain)
    requires Validate(name, apex).Pass?
    requires |apex.name| < MAX_SIZE
    ensures MaxValueAsWritten(Some(apex)).Some?
    ensures Le(CmpBytes, name, MaxValueAsWritten(Some(apex)).value.name)
  {
    AcceptedNameIsBounded(name, apex);
    if |apex.name| + 2 > MAX_SIZE {
      UpperBoundWithoutBudget(name, apex);
    } else {
      UpperBoundWithBudget(name, apex);
    }
  }

  /** An apex of 254 bytes or more leaves no room for a label: only `@` is
      accepted, and it is the greatest value. */
  lemma UpperBoundWithoutBudget(name: seq<byte>, apex: ZoneApex.ZoneApexDomain)
    requires IsBoundedName(name)
    requires name == APEX_RECORD || |name| + 1 + |apex.name| <= MAX_SIZE
    requires |apex.name| + 2 > MAX_SIZE
    ensures MaxValue(Some(apex)) == Default()
    ensures name == APEX_RECORD && Le(CmpBytes, name, Default().name)
  {
    if name != APEX_RECORD {
      assert Split(name, DOT)[0] == [];
    }
    CmpBytesEqual(name, name);
  }

  /** With a budget, an accepted name lies below the chain laid out. */
  lemma UpperBoundWithBudget(name: seq<byte>, apex: ZoneApex.ZoneApexDomain)
    requires IsBoundedName(name)
    requires name == APEX_RECORD || |name| + 1 + |apex.name| <= MAX_SIZE
    requires |apex.name| + 2 <= MAX_SIZE
    ensures MaxValueAsWritten(Some(apex)).Some?
    ensures Le(CmpBytes, name, MaxValueAsWritten(Some(apex)).value.name)
  {
    MaxValueAsWrittenBudget(Some(apex));
    var c := AsWrittenShape(MAX_SIZE - ApexLength(Some(apex)) - 1);
    BoundedNameLeMaxChain(name, c.full, c.last);
  }

  /** With an apex of 190 bytes or fewer the budget reaches 64, so the chain
      holds a dot that was not budgeted: the fully qualified name outgrows 255
      bytes and `max_value` is not a name `new` would accept. */
  lemma MaxValueAsWrittenTooLong(apex: ZoneApex.ZoneApexDomain)
    requires |apex.name| <= MAX_SIZE - 1 - 64
    ensures MaxValueAsWritten(Some(apex)).Some?
    ensures Validate(MaxValueAsWritten(Some(apex)).value.name, apex) ==
      Fail(NameTooLong(|MaxValueAsWritten(Some(apex)).value.name| + 1 + |apex.name|, MAX_SIZE))
  {
    MaxValueAsWrittenBudget(Some(apex));
    var c := AsWrittenShape(MAX_SIZE - |apex.name| - 1);
    MaxChainTooLong(c.full, c.last, apex);
  }

  /** A chain is made of labels that pass, and the validator then only looks
      at the length and the underscores of the qualified name. */
  lemma MaxChainLabelsPass(k: nat, t: nat, apex: ZoneApex.ZoneApexDomain)
    requires 1 <= t <= MAX_DOMAIN_LABEL_LENGTH
    ensures var m := MaxChain(k, t);
      Validate(m, apex) ==
        if |FullyQualified(m, apex)| > MAX_SIZE then Fail(NameTooLong(|FullyQualified(m, apex)|, MAX_SIZE))
        else if UnderscoreMisplaced(FullyQualified(m, apex)) then Fail(MisplacedUnderscore)
        else Pass
  {
    var m := MaxChain(k, t);
    var ls := MaxLabels(k, t);
    MaxChainSplit(k, t);
    SplitHasNoSeparator(m, DOT);
    assert m[0] == LOWER_Z;
    forall i | 0 <= i < |ls| ensures CheckRecordLabel(ls[i]) == Pass {
    }
    ValidateByLabels(m, apex, ls);
  }

  /** A chain refused only for the length of its qualified name. */
  lemma MaxChainTooLong(k: nat, t: nat, apex: ZoneApex.ZoneApexDomain)
    requires 1 <= t <= MAX_DOMAIN_LABEL_LENGTH
    requires 64 * k + t + 1 + |apex.name| > MAX_SIZE
    ensures Validate(MaxChain(k, t), apex) == Fail(NameTooLong(64 * k + t + 1 + |apex.name|, MAX_SIZE))
  {
    MaxChainLabelsPass(k, t, apex);
  }

  /** The apex `a.` leaves a budget of 252: four full labels and three dots,
      255 bytes, 258 once qualified. */
  lemma MaxValueAsWrittenUnderShortApex()
    ensures ZoneApex.Validate(Str("a.")) == Pass
    ensures MaxValueAsWritten(Some(ZoneApex.ZoneApexDomain(Str("a.")))).Some?
    ensures |MaxValueAsWritten(Some(ZoneApex.ZoneApexDomain(Str("a.")))).value.name| == MAX_SIZE
    ensures Validate(MaxValueAsWritten(Some(ZoneApex.ZoneApexDomain(Str("a.")))).value.name,
      ZoneApex.ZoneApexDomain(Str("a."))) == Fail(NameTooLong(258, MAX_SIZE))
  {
    ZoneApex.SingleLetterPasses("a");
    assert "a" + "." == "a.";
    MaxValueAsWrittenUnderTwoByteApex(ZoneApex.ZoneApexDomain(Str("a.")));
  }

  /** Any two-byte apex leaves the budget 252. */
  lemma MaxValueAsWrittenUnderTwoByteApex(apex: ZoneApex.ZoneApexDomain)
    requires |apex.name| == 2
    ensures MaxValueAsWritten(Some(apex)).Some?
    ensures |MaxValueAsWritten(Some(apex)).value.name| == MAX_SIZE
    ensures Validate(MaxValueAsWritten(Some(apex)).value.name, apex) == Fail(NameTooLong(258, MAX_SIZE))
  {
    assert AsWrittenShape(252) == ChainShape(3, 63);
    MaxValueAsWrittenBudget(Some(apex));
    MaxChainTooLong(3, 63, apex);
  }

  /** The greatest apex domain is accepted, yet `max_value` underflows on it. */
  lemma MaxValueAsWrittenUnderflows()
    ensures ZoneApex.Validate(MaxDomainName()) == Pass
    ensures Validate(APEX_RECORD, ZoneApex.ZoneApexDomain(MaxDomainName())) == Pass
    ensures MaxValueAsWritten(Some(ZoneApex.ZoneApexDomain(MaxDomainName()))).None?
  {
    ZoneApex.MaxDomainNamePasses();
    ValidateOrder(APEX_RECORD, ZoneApex.ZoneApexDomain(MaxDomainName()));
  }

  // ---------------------------------------------------------------------------
  // The greatest accepted name.

  /** The longest chain that fits a budget with its dots: `64q + s` bytes of
      room give `q` full labels and a last one of `s`, or with `s = 0` one
      full label fewer and a full last one. */
  function FittingShape(budget: nat): (c: ChainShape)
    requires budget >= 1
    ensures 1 <= c.last <= MAX_DOMAIN_LABEL_LENGTH
    ensures 64 * c.full + c.last <= budget
    ensures budget <= 64 * c.full + c.last || (c.last == MAX_DOMAIN_LABEL_LENGTH && budget <= 64 * c.full + 64)
  {
    DivideBudget(budget, 64);
    var q, s := budget / 64, budget % 64;
    if s == 0 then ChainShape(q - 1, MAX_DOMAIN_LABEL_LENGTH) else ChainShape(q, s)
  }

  /** The greatest record name accepted under an apex of the given length:
      `@` when there is no room for a label, otherwise the longest chain of
      `z` labels that fits the room left with its dots. */
  function MaxValue(apex: Option<ZoneApex.ZoneApexDomain>): (r: RecordName)
    ensures r == Default() || |r.name| + 1 + ApexLength(apex) <= MAX_SIZE
    ensures ApexLength(apex) + 2 > MAX_SIZE <==> r == Default()
  {
    var l := ApexLength(apex);
    if l + 2 > MAX_SIZE then Default()
    else
      var c := FittingShape(MAX_SIZE - l - 1);
      var r := RecordName(MaxChain(c.full, c.last));
      assert r.name[0] == LOWER_Z;
      r
  }

  /** With room for a label, the greatest value is the fitting chain. */
  lemma MaxValueIsFittingChain(apex: Option<ZoneApex.ZoneApexDomain>)
    requires ApexLength(apex) + 2 <= MAX_SIZE
    ensures var c := FittingShape(MAX_SIZE - ApexLength(apex) - 1);
      MaxValue(apex).name == MaxChain(c.full, c.last)
  {
  }

  /** With room for a label, an accepted name lies below the fitting chain. */
  lemma FittingChainIsUpperBound(name: seq<byte>, apex: ZoneApex.ZoneApexDomain)
    requires IsBoundedName(name)
    requires name == APEX_RECORD || |name| + 1 + |apex.name| <= MAX_SIZE
    requires |apex.name| + 2 <= MAX_SIZE
    ensures Le(CmpBytes, name, MaxValue(Some(apex)).name)
  {
    MaxValueIsFittingChain(Some(apex));
    var c := FittingShape(MAX_SIZE - ApexLength(Some(apex)) - 1);
    BoundedNameLeMaxChain(name, c.full, c.last);
  }

  /** The greatest value is accepted under every valid apex. */
  lemma MaxValueIsAccepted(apex: ZoneApex.ZoneApexDomain)
    requires ZoneApex.Validate(apex.name) == Pass
    ensures Validate(MaxValue(Some(apex)).name, apex) == Pass
    ensures New(MaxValue(Some(apex)).name, apex) == Ok(MaxValue(Some(apex)))
  {
    ZoneApex.AcceptedNameBytes(apex.name);
    if |apex.name| + 2 <= MAX_SIZE {
      var c := FittingShape(MAX_SIZE - |apex.name| - 1);
      MaxChainIsAccepted(c.full, c.last, apex);
    } else {
      ValidateOrder(APEX_RECORD, apex);
      LowerOfNoUpper(APEX_RECORD);
    }
  }

  /** ... and no accepted name sorts above it. */
  lemma MaxValueIsUpperBound(name: seq<byte>, apex: ZoneApex.ZoneApexDomain)
    requires Validate(name, apex).Pass?
    ensures Le(CmpBytes, name, MaxValue(Some(apex)).name)
  {
    AcceptedNameIsBounded(name, apex);
    if |apex.name| + 2 > MAX_SIZE {
      UpperBoundWithoutBudget(name, apex);
    } else {
      FittingChainIsUpperBound(name, apex);
    }
  }

  // ---------------------------------------------------------------------------
  // The least name.

  /** `RecordName::min_value` (and `default`, which the lower range key uses):
      `@`. */
  function MinValueAsWritten(): (r: RecordName)
    ensures forall apex: ZoneApex.ZoneApexDomain :: Validate(r.name, apex) == Pass
  {
    Default()
  }

  /** A name starting with a digit is accepted and sorts below `@`. */
  lemma MinValueAsWrittenIsNotLeast()
    ensures Validate(Str("0"), TestApex()) == Pass
    ensures CmpBytes(Str("0"), MinValueAsWritten().name) == Less
  {
    assert CheckRecordLabel(Str("0")) == Pass;
    assert DOT !in Str("0");
    UnderscoreOnlyFirstUnderTestApex(Str("0"));
    ValidateOneRecordLabel("0", Pass);
  }

  /** The least accepted record name: `0`. */
  function MinValue(): (r: RecordName)
    ensures |r.name| == 1 && IsDigit(r.name[0])
  {
    RecordName([0x30])
  }

  /** No accepted name sorts below it: every accepted name starts with `@`,
      a digit, a letter or `_`, none of which is below `0`. */
  lemma MinValueIsLowerBound(name: seq<byte>, apex: ZoneApex.ZoneApexDomain)
    requires Validate(name, apex).Pass?
    ensures Le(CmpBytes, MinValue().name, name)
  {
    if name != APEX_RECORD {
      AcceptedNameStart(name, apex);
    }
  }

  /** An accepted name other than `@` starts its first label, so with a
      letter, a digit or `_`. */
  lemma AcceptedNameStart(name: seq<byte>, apex: ZoneApex.ZoneApexDomain)
    requires Validate(name, apex).Pass? && name != APEX_RECORD
    ensures |name| >= 1 && name[0] >= 0x30
  {
    PassingNameChecks(name, apex);
    var p := Split(name, DOT)[0];
    assert CheckRecordLabel(p).Pass?;
    CheckRecordLabelPasses(p);
    SplitFirstPiece(name, DOT);
    assert name[0] == p[0];
  }

  /** ... and it is itself accepted under every valid apex that leaves room
      for a one-byte name. */
  lemma MinValueIsAccepted(apex: ZoneApex.ZoneApexDomain)
    requires ZoneApex.Validate(apex.name) == Pass && |apex.name| + 2 <= MAX_SIZE
    ensures Validate(MinValue().name, apex) == Pass
    ensures New(MinValue().name, apex) == Ok(MinValue())
  {
    ZoneApex.AcceptedNameBytes(apex.name);
    var n := MinValue().name;
    assert Join([n], DOT) == n;
    assert CheckRecordLabel(n) == Pass;
    ValidateByLabels(n, apex, [n]);
    assert UNDERSCORE !in FullyQualified(n, apex);
    LowerOfNoUpper(n);
  }
}
