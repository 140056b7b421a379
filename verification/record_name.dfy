/** Record names relative to a zone apex, such as `www`, `_canister` or `@`
    (`types/record_name.rs`): the validator, its declarative reading, and the
    lowercasing constructor. */
module RecordNames {
  import opened Bytes
  import opened Wrappers
  import opened Ascii
  import opened Labels
  import opened Constants
  import opened RecordNameErrors
  import ZoneApex

  /** A record name, stored in lower case. */
  datatype RecordName = RecordName(name: seq<byte>)

  /** Bound on the fully qualified name `<name>.<apex>`. */
  const MAX_SIZE: nat := MAX_DOMAIN_NAME_LENGTH

  /** `@`, the apex itself. */
  const APEX_RECORD: seq<byte> := [AT]

  /** `c.is_ascii_alphanumeric() || c == '-' || c == '_'`. */
  predicate IsRecordLabelByte(c: byte) {
    IsAlphanumeric(c) || c == HYPHEN || c == UNDERSCORE
  }

  /** One pass of the label loop: emptiness, then length, then characters,
      then hyphen placement. */
  function CheckRecordLabel(l: seq<byte>): Outcome<RecordNameError> {
    if |l| == 0 then Fail(NonEmptyLabel)
    else if |l| > MAX_DOMAIN_LABEL_LENGTH then Fail(LabelTooLong(|l|, MAX_DOMAIN_LABEL_LENGTH))
    else if !(forall i :: 0 <= i < |l| ==> IsRecordLabelByte(l[i])) then Fail(InvalidNameLabel(l))
    else if l[0] == HYPHEN || l[|l| - 1] == HYPHEN then Fail(MisplacedHyphen)
    else Pass
  }

  /** `format!("{}.{}", name, apex)`. */
  function FullyQualified(name: seq<byte>, apex: ZoneApex.ZoneApexDomain): (fq: seq<byte>)
    ensures |fq| == |name| + 1 + |apex.name|
    ensures fq[..|name|] == name && fq[|name|] == DOT && fq[|name| + 1..] == apex.name
  {
    name + [DOT] + apex.name
  }

  /** More than one `_`, or one that is not the first byte. */
  predicate UnderscoreMisplaced(fq: seq<byte>)
    requires |fq| > 0
  {
    Count(fq, UNDERSCORE) > 1 || (UNDERSCORE in fq && fq[0] != UNDERSCORE)
  }

  /** `RecordName::validate`: emptiness and the trailing dot first; `@`
      (compared ignoring ASCII case) is accepted outright; then every piece of
      `split('.')` left to right; then the length of the fully qualified name;
      then the placement of `_` in it. */
  function Validate(name: seq<byte>, apex: ZoneApex.ZoneApexDomain): Outcome<RecordNameError> {
    if |name| == 0 then Fail(NonEmptyName)
    else if name[|name| - 1] == DOT then Fail(InvalidEndWithDot)
    else if EqIgnoreAsciiCase(name, APEX_RECORD) then Pass
    else
      match FirstFailure(Split(name, DOT), CheckRecordLabel)
      case Fail(e) => Fail(e)
      case Pass =>
        var fq := FullyQualified(name, apex);
        if |fq| > MAX_SIZE then Fail(NameTooLong(|fq|, MAX_SIZE))
        else if UnderscoreMisplaced(fq) then Fail(MisplacedUnderscore)
        else Pass
  }

  /** `RecordName::new`: lowercase, validate against the apex, keep the
      lowercased name. */
  function New(name: seq<byte>, apex: ZoneApex.ZoneApexDomain): (r: Result<RecordName, RecordNameError>)
    ensures r.Ok? ==> r.value.name == Lower(name)
  {
    var low := Lower(name);
    match Validate(low, apex)
    case Fail(e) => Err(e)
    case Pass => Ok(RecordName(low))
  }

  /** `Default`: the apex record `@`, built without validation. */
  function Default(): (d: RecordName)
    ensures |d.name| == 1 && d.name[0] == AT
    ensures forall apex: ZoneApex.ZoneApexDomain :: Validate(d.name, apex) == Pass
  {
    RecordName(APEX_RECORD)
  }

  // ---------------------------------------------------------------------------
  // The grammar, stated without the validator.

  /** A label: 1 to 63 bytes of letters, digits, `-` and `_`, not starting or
      ending with `-`. */
  ghost predicate IsRecordLabel(l: seq<byte>) {
    && 1 <= |l| <= MAX_DOMAIN_LABEL_LENGTH
    && (forall i :: 0 <= i < |l| ==> IsRecordLabelByte(l[i]))
    && l[0] != HYPHEN && l[|l| - 1] != HYPHEN
  }

  /** Every `_` of `s` is its first byte. */
  ghost predicate UnderscoreOnlyFirst(s: seq<byte>) {
    forall i :: 0 <= i < |s| && s[i] == UNDERSCORE ==> i == 0
  }

  /** A record name under `apex`: `@`, or dot-separated labels whose fully
      qualified name fits in 255 bytes and holds `_` only as its first byte. */
  ghost predicate IsRecordName(name: seq<byte>, apex: ZoneApex.ZoneApexDomain) {
    || name == APEX_RECORD
    || (&& |FullyQualified(name, apex)| <= MAX_SIZE
        && UnderscoreOnlyFirst(FullyQualified(name, apex))
        && exists ls: seq<seq<byte>> ::
          && |ls| >= 1
          && name == Join(ls, DOT)
          && (forall i :: 0 <= i < |ls| ==> IsRecordLabel(ls[i])))
  }

  lemma CheckRecordLabelPasses(l: seq<byte>)
    ensures CheckRecordLabel(l).Pass? <==> IsRecordLabel(l)
  {
  }

  lemma RecordLabelsHaveNoDot(ls: seq<seq<byte>>)
    requires forall i :: 0 <= i < |ls| ==> IsRecordLabel(ls[i])
    ensures NoSeparator(ls, DOT)
  {
    assert !IsRecordLabelByte(DOT);
  }

  /** The underscore check passes exactly when every `_` is the first byte. */
  lemma {:induction false} UnderscoreCheck(fq: seq<byte>)
    requires |fq| > 0
    ensures !UnderscoreMisplaced(fq) <==> UnderscoreOnlyFirst(fq)
  {
    if !UnderscoreMisplaced(fq) {
      CountAtMostOneInFront(fq, UNDERSCORE);
    }
    if UnderscoreOnlyFirst(fq) {
      assert UNDERSCORE !in fq[1..] by {
        forall i | 0 <= i < |fq[1..]| ensures fq[1..][i] != UNDERSCORE {
          assert fq[1..][i] == fq[i + 1];
        }
      }
      assert Count(fq, UNDERSCORE) == (if fq[0] == UNDERSCORE then 1 else 0) + Count(fq[1..], UNDERSCORE);
    }
  }

  /** For a name made of labels (and not `@`, not ending with a dot), the
      labels decide first, left to right; once they pass, only the length
      and the underscore checks on the fully qualified name remain. */
  lemma ValidateByLabels(name: seq<byte>, apex: ZoneApex.ZoneApexDomain, ls: seq<seq<byte>>)
    requires |ls| >= 1 && NoSeparator(ls, DOT) && name == Join(ls, DOT)
    requires |ls[|ls| - 1]| >= 1 && ls[|ls| - 1][|ls[|ls| - 1]| - 1] != DOT
    requires name != APEX_RECORD
    ensures FirstFailure(ls, CheckRecordLabel).Fail? ==>
      Validate(name, apex) == FirstFailure(ls, CheckRecordLabel)
    ensures FirstFailure(ls, CheckRecordLabel).Pass? ==>
      Validate(name, apex) ==
        if |FullyQualified(name, apex)| > MAX_SIZE then Fail(NameTooLong(|FullyQualified(name, apex)|, MAX_SIZE))
        else if UnderscoreMisplaced(FullyQualified(name, apex)) then Fail(MisplacedUnderscore)
        else Pass
  {
    JoinLastByte(ls, DOT);
    SplitJoin(ls, DOT);
    EqIgnoreCaseAt(name);
  }

  /** The order in which the checks report. */
  lemma ValidateOrder(name: seq<byte>, apex: ZoneApex.ZoneApexDomain)
    ensures |name| == 0 ==> Validate(name, apex) == Fail(NonEmptyName)
    ensures |name| > 0 && name[|name| - 1] == DOT ==> Validate(name, apex) == Fail(InvalidEndWithDot)
    ensures name == APEX_RECORD ==> Validate(name, apex) == Pass
    ensures Validate(name, apex).Fail? && Validate(name, apex).error.NameTooLong? ==>
      && Validate(name, apex) == Fail(NameTooLong(|name| + 1 + |apex.name|, MAX_SIZE))
      && |name| + 1 + |apex.name| > MAX_SIZE
      && forall i :: 0 <= i < |Split(name, DOT)| ==> CheckRecordLabel(Split(name, DOT)[i]) == Pass
    ensures Validate(name, apex).Fail? && Validate(name, apex).error.MisplacedUnderscore? ==>
      && |name| + 1 + |apex.name| <= MAX_SIZE
      && forall i :: 0 <= i < |Split(name, DOT)| ==> CheckRecordLabel(Split(name, DOT)[i]) == Pass
  {
    if name == APEX_RECORD {
      EqIgnoreCaseAt(name);
    }
    LabelLoopErrors(Split(name, DOT));
  }

  /** The label loop reports only label errors. */
  lemma LabelLoopErrors(ls: seq<seq<byte>>)
    ensures var f := FirstFailure(ls, CheckRecordLabel);
      f.Fail? ==> !f.error.NameTooLong? && !f.error.MisplacedUnderscore?
  {
    var f := FirstFailure(ls, CheckRecordLabel);
    if f.Fail? {
      var i :| 0 <= i < |ls| && CheckRecordLabel(ls[i]) == f;
    }
  }

  /** The validator accepts exactly the grammar. */
  lemma ValidateAcceptsRecordNames(name: seq<byte>, apex: ZoneApex.ZoneApexDomain)
    ensures Validate(name, apex).Pass? <==> IsRecordName(name, apex)
  {
    EqIgnoreCaseAt(name);
    var fq := FullyQualified(name, apex);
    if Validate(name, apex).Pass? && name != APEX_RECORD {
      var ls := Split(name, DOT);
      JoinSplit(name, DOT);
      forall i | 0 <= i < |ls| ensures IsRecordLabel(ls[i]) {
        CheckRecordLabelPasses(ls[i]);
      }
      UnderscoreCheck(fq);
    }
    if IsRecordName(name, apex) && name != APEX_RECORD {
      var ls: seq<seq<byte>> :| |ls| >= 1 && name == Join(ls, DOT)
        && (forall i :: 0 <= i < |ls| ==> IsRecordLabel(ls[i]));
      RecordLabelsHaveNoDot(ls);
      assert IsRecordLabel(ls[|ls| - 1]);
      assert !IsRecordLabelByte(DOT);
      forall i | 0 <= i < |ls| ensures CheckRecordLabel(ls[i]).Pass? {
        CheckRecordLabelPasses(ls[i]);
      }
      ValidateByLabels(name, apex, ls);
      UnderscoreCheck(fq);
    }
  }

  /** Every byte of an accepted name other than `@` is a letter, a digit,
      `-`, `_` or `.`, so none exceeds `z`; `_` occurs at most once, in
      front; every piece between dots has 1 to 63 bytes; and the fully
      qualified name fits. */
  lemma AcceptedNameShape(name: seq<byte>, apex: ZoneApex.ZoneApexDomain)
    requires Validate(name, apex).Pass?
    ensures forall i :: 0 <= i < |name| ==> name[i] <= LOWER_Z
    ensures forall k :: 0 <= k < |Split(name, DOT)| ==> 1 <= |Split(name, DOT)[k]| <= MAX_DOMAIN_LABEL_LENGTH
    ensures name != APEX_RECORD ==>
      && |name| + 1 + |apex.name| <= MAX_SIZE
      && (forall i :: 0 <= i < |name| ==> name[i] == DOT || IsRecordLabelByte(name[i]))
      && (forall i :: 0 <= i < |name| && name[i] == UNDERSCORE ==> i == 0)
  {
    if name == APEX_RECORD {
      ApexRecordShape();
    } else {
      PassingNameChecks(name, apex);
      PassingLabelsShape(name);
      UnderscoreInFront(name, apex);
    }
  }

  /** `@` is one piece of one byte below `z`. */
  lemma ApexRecordShape()
    ensures forall i :: 0 <= i < |APEX_RECORD| ==> APEX_RECORD[i] <= LOWER_Z
    ensures Split(APEX_RECORD, DOT) == [APEX_RECORD]
  {
    SplitWithoutSeparator(APEX_RECORD, DOT);
  }

  /** A passing name other than `@` passed the label loop, the length check
      and the underscore check. */
  lemma PassingNameChecks(name: seq<byte>, apex: ZoneApex.ZoneApexDomain)
    requires Validate(name, apex).Pass? && name != APEX_RECORD
    ensures FirstFailure(Split(name, DOT), CheckRecordLabel).Pass?
    ensures |FullyQualified(name, apex)| <= MAX_SIZE
    ensures !UnderscoreMisplaced(FullyQualified(name, apex))
  {
    EqIgnoreCaseAt(name);
  }

  /** When every piece between dots passes the label check, each has 1 to
      63 bytes and every byte is a label byte or a dot. */
  lemma PassingLabelsShape(name: seq<byte>)
    requires FirstFailure(Split(name, DOT), CheckRecordLabel).Pass?
    ensures forall k :: 0 <= k < |Split(name, DOT)| ==> 1 <= |Split(name, DOT)[k]| <= MAX_DOMAIN_LABEL_LENGTH
    ensures forall i :: 0 <= i < |name| ==> name[i] == DOT || IsRecordLabelByte(name[i])
  {
    var ls := Split(name, DOT);
    JoinSplit(name, DOT);
    forall k | 0 <= k < |ls| ensures IsRecordLabel(ls[k]) {
      CheckRecordLabelPasses(ls[k]);
    }
    JoinBytes(ls, DOT, IsRecordLabelByte);
  }

  /** With the underscore check passed on the qualified name, an `_` of the
      name can only be its first byte. */
  lemma UnderscoreInFront(name: seq<byte>, apex: ZoneApex.ZoneApexDomain)
    requires !UnderscoreMisplaced(FullyQualified(name, apex))
    ensures forall i :: 0 <= i < |name| && name[i] == UNDERSCORE ==> i == 0
  {
    var fq := FullyQualified(name, apex);
    UnderscoreCheck(fq);
    forall i | 0 <= i < |name| && name[i] == UNDERSCORE ensures i == 0 {
      assert fq[i] == name[i];
    }
  }

  /** Whatever the apex, `@` and only names of at least one label pass, and
      a fully qualified name over 255 bytes is always refused. */
  lemma ValidateBoundsLength(name: seq<byte>, apex: ZoneApex.ZoneApexDomain)
    requires Validate(name, apex).Pass?
    ensures name == APEX_RECORD || |name| + 1 + |apex.name| <= MAX_SIZE
  {
    AcceptedNameShape(name, apex);
  }

  // ---------------------------------------------------------------------------
  // The constructor.

  /** `new` succeeds exactly on names whose lowercase form is in the grammar,
      and reports the validator's error otherwise. */
  lemma NewAcceptsRecordNames(name: seq<byte>, apex: ZoneApex.ZoneApexDomain)
    ensures New(name, apex).Ok? <==> IsRecordName(Lower(name), apex)
    ensures New(name, apex).Err? ==> Validate(Lower(name), apex) == Fail(New(name, apex).error)
  {
    ValidateAcceptsRecordNames(Lower(name), apex);
  }

  /** A stored name is lowercase and a fixed point of `new`. */
  lemma NewIsCanonical(name: seq<byte>, apex: ZoneApex.ZoneApexDomain)
    requires New(name, apex).Ok?
    ensures forall i :: 0 <= i < |New(name, apex).value.name| ==> !IsUpper(New(name, apex).value.name[i])
    ensures New(New(name, apex).value.name, apex) == New(name, apex)
  {
    LowerHasNoUpper(name);
    LowerIdempotent(name);
  }

  /** Names that differ only in ASCII case give the same result. */
  lemma NewIgnoresCase(a: seq<byte>, b: seq<byte>, apex: ZoneApex.ZoneApexDomain)
    requires EqIgnoreAsciiCase(a, b)
    ensures New(a, apex) == New(b, apex)
  {
  }

  // ---------------------------------------------------------------------------
  // The unit-test table, under the apex `internetcomputer.tld.`.

  function TestApex(): ZoneApex.ZoneApexDomain {
    ZoneApex.ZoneApexDomain(Str("internetcomputer.tld."))
  }

  lemma TestApexHasNoUnderscore()
    ensures |TestApex().name| == 21 && Count(TestApex().name, UNDERSCORE) == 0
  {
    assert forall i :: 0 <= i < 21 ==> TestApex().name[i] != UNDERSCORE;
  }

  /** A one-label name under the test apex: the label decides, then the
      underscore check on `<label>.internetcomputer.tld.`. */
  lemma ValidateOneRecordLabel(a: string, expected: Outcome<RecordNameError>)
    requires 1 <= |a| <= 200 && DOT !in Str(a) && Str(a)[|a| - 1] != DOT && Str(a) != APEX_RECORD
    requires CheckRecordLabel(Str(a)).Fail? ==> expected == CheckRecordLabel(Str(a))
    requires CheckRecordLabel(Str(a)).Pass? ==>
      expected == if UnderscoreMisplaced(FullyQualified(Str(a), TestApex())) then Fail(MisplacedUnderscore) else Pass
    ensures Validate(Str(a), TestApex()) == expected
  {
    assert Join([Str(a)], DOT) == Str(a);
    TestApexHasNoUnderscore();
    ValidateByLabels(Str(a), TestApex(), [Str(a)]);
  }

  /** A two-label name under the test apex. */
  lemma ValidateTwoRecordLabels(a: string, b: string, expected: Outcome<RecordNameError>)
    requires |a| + |b| <= 200 && DOT !in Str(a) && DOT !in Str(b) && 1 <= |b| && Str(b)[|b| - 1] != DOT
    requires FirstFailure([Str(a), Str(b)], CheckRecordLabel).Fail? ==>
      expected == FirstFailure([Str(a), Str(b)], CheckRecordLabel)
    requires FirstFailure([Str(a), Str(b)], CheckRecordLabel).Pass? ==>
      expected == if UnderscoreMisplaced(FullyQualified(Str(a + "." + b), TestApex())) then Fail(MisplacedUnderscore) else Pass
    ensures Validate(Str(a + "." + b), TestApex()) == expected
  {
    StrAppend(a + ".", b);
    StrAppend(a, ".");
    var ls := [Str(a), Str(b)];
    assert Join(ls, DOT) == Str(a) + [DOT] + Join([Str(b)], DOT);
    assert Str(a + "." + b) == Join(ls, DOT);
    assert |Str(a + "." + b)| >= 2;
    ValidateByLabels(Str(a + "." + b), TestApex(), ls);
  }

  /** `new` on a name with no upper-case letter gives the validator's
      verdict and keeps the name as given. */
  lemma NewOfLowercase(a: string, apex: ZoneApex.ZoneApexDomain)
    requires forall i :: 0 <= i < |a| ==> !('A' <= a[i] <= 'Z')
    ensures New(Str(a), apex) == match Validate(Str(a), apex)
      case Pass => Ok(RecordName(Str(a)))
      case Fail(e) => Err(e)
  {
    forall i | 0 <= i < |a| ensures !IsUpper(Str(a)[i]) {
      if a[i] as int < 256 {
        assert Str(a)[i] as int == a[i] as int;
      }
    }
    LowerOfNoUpper(Str(a));
  }

  lemma ApexRecordValidatorPasses()
    ensures Validate(Str("@"), TestApex()) == Pass
  {
    assert Str("@") == APEX_RECORD;
  }

  lemma ApexRecordPasses()
    ensures New(Str("@"), TestApex()) == Ok(RecordName(Str("@")))
  {
    NewOfLowercase("@", TestApex());
    ApexRecordValidatorPasses();
  }

  /** Under the test apex, a name whose only `_` is its first byte passes
      the underscore check. */
  lemma UnderscoreOnlyFirstUnderTestApex(n: seq<byte>)
    requires forall i :: 0 < i < |n| ==> n[i] != UNDERSCORE
    ensures !UnderscoreMisplaced(FullyQualified(n, TestApex()))
  {
    var fq := FullyQualified(n, TestApex());
    TestApexHasNoUnderscore();
    forall i | |n| < i < |fq| ensures fq[i] != UNDERSCORE {
      assert fq[i] == TestApex().name[i - |n| - 1];
    }
    UnderscoreCheck(fq);
  }

  lemma WikiValidatorPasses()
    ensures Validate(Str("wiki"), TestApex()) == Pass
  {
    assert CheckRecordLabel(Str("wiki")) == Pass;
    assert DOT !in Str("wiki");
    UnderscoreOnlyFirstUnderTestApex(Str("wiki"));
    ValidateOneRecordLabel("wiki", Pass);
  }

  lemma WikiPasses()
    ensures New(Str("wiki"), TestApex()) == Ok(RecordName(Str("wiki")))
  {
    NewOfLowercase("wiki", TestApex());
    WikiValidatorPasses();
  }

  lemma SubdomainWikiValidatorPasses()
    ensures Validate(Str("subdomain.wiki"), TestApex()) == Pass
  {
    assert CheckRecordLabel(Str("subdomain")) == Pass;
    assert CheckRecordLabel(Str("wiki")) == Pass;
    assert DOT !in Str("subdomain") && DOT !in Str("wiki");
    assert FirstFailure([Str("subdomain"), Str("wiki")], CheckRecordLabel) == Pass;
    assert "subdomain" + "." + "wiki" == "subdomain.wiki";
    UnderscoreOnlyFirstUnderTestApex(Str("subdomain.wiki"));
    ValidateTwoRecordLabels("subdomain", "wiki", Pass);
  }

  lemma SubdomainWikiPasses()
    ensures New(Str("subdomain.wiki"), TestApex()) == Ok(RecordName(Str("subdomain.wiki")))
  {
    NewOfLowercase("subdomain.wiki", TestApex());
    SubdomainWikiValidatorPasses();
  }

  lemma HyphenInsideValidatorPasses()
    ensures Validate(Str("subdomain-wiki"), TestApex()) == Pass
  {
    assert CheckRecordLabel(Str("subdomain-wiki")) == Pass;
    assert DOT !in Str("subdomain-wiki");
    UnderscoreOnlyFirstUnderTestApex(Str("subdomain-wiki"));
    ValidateOneRecordLabel("subdomain-wiki", Pass);
  }

  lemma HyphenInsidePasses()
    ensures New(Str("subdomain-wiki"), TestApex()) == Ok(RecordName(Str("subdomain-wiki")))
  {
    NewOfLowercase("subdomain-wiki", TestApex());
    HyphenInsideValidatorPasses();
  }

  lemma LeadingUnderscoreValidatorPasses()
    ensures Validate(Str("_canister"), TestApex()) == Pass
  {
    assert CheckRecordLabel(Str("_canister")) == Pass;
    assert DOT !in Str("_canister");
    UnderscoreOnlyFirstUnderTestApex(Str("_canister"));
    ValidateOneRecordLabel("_canister", Pass);
  }

  lemma LeadingUnderscorePasses()
    ensures New(Str("_canister"), TestApex()) == Ok(RecordName(Str("_canister")))
  {
    NewOfLowercase("_canister", TestApex());
    LeadingUnderscoreValidatorPasses();
  }

  lemma EmptyNameValidatorFails()
    ensures Validate(Str(""), TestApex()) == Fail(NonEmptyName)
  {
  }

  lemma EmptyNameFails()
    ensures New(Str(""), TestApex()) == Err(NonEmptyName)
  {
    NewOfLowercase("", TestApex());
    EmptyNameValidatorFails();
  }

  lemma EmptyFirstLabelValidatorFails()
    ensures Validate(Str(".subdomain"), TestApex()) == Fail(NonEmptyLabel)
  {
    assert DOT !in Str("subdomain") && |Str("subdomain")| >= 1;
    assert "" + "." + "subdomain" == ".subdomain";
    assert FirstFailure([Str(""), Str("subdomain")], CheckRecordLabel) == Fail(NonEmptyLabel);
    ValidateTwoRecordLabels("", "subdomain", Fail(NonEmptyLabel));
  }

  lemma EmptyFirstLabelFails()
    ensures New(Str(".subdomain"), TestApex()) == Err(NonEmptyLabel)
  {
    NewOfLowercase(".subdomain", TestApex());
    EmptyFirstLabelValidatorFails();
  }

  lemma LeadingHyphenValidatorFails()
    ensures Validate(Str("-domain"), TestApex()) == Fail(MisplacedHyphen)
  {
    assert CheckRecordLabel(Str("-domain")) == Fail(MisplacedHyphen);
    assert DOT !in Str("-domain");
    ValidateOneRecordLabel("-domain", Fail(MisplacedHyphen));
  }

  lemma LeadingHyphenFails()
    ensures New(Str("-domain"), TestApex()) == Err(MisplacedHyphen)
  {
    NewOfLowercase("-domain", TestApex());
    LeadingHyphenValidatorFails();
  }

  lemma TrailingHyphenValidatorFails()
    ensures Validate(Str("domain-"), TestApex()) == Fail(MisplacedHyphen)
  {
    assert CheckRecordLabel(Str("domain-")) == Fail(MisplacedHyphen);
    assert DOT !in Str("domain-");
    ValidateOneRecordLabel("domain-", Fail(MisplacedHyphen));
  }

  lemma TrailingHyphenFails()
    ensures New(Str("domain-"), TestApex()) == Err(MisplacedHyphen)
  {
    NewOfLowercase("domain-", TestApex());
    TrailingHyphenValidatorFails();
  }

  lemma TrailingUnderscoreValidatorFails()
    ensures Validate(Str("domain_"), TestApex()) == Fail(MisplacedUnderscore)
  {
    assert CheckRecordLabel(Str("domain_")) == Pass;
    assert DOT !in Str("domain_");
    var fq := FullyQualified(Str("domain_"), TestApex());
    assert fq[6] == UNDERSCORE && fq[0] != UNDERSCORE;
    ValidateOneRecordLabel("domain_", Fail(MisplacedUnderscore));
  }

  lemma TrailingUnderscoreFails()
    ensures New(Str("domain_"), TestApex()) == Err(MisplacedUnderscore)
  {
    NewOfLowercase("domain_", TestApex());
    TrailingUnderscoreValidatorFails();
  }

  lemma InnerUnderscoreValidatorFails()
    ensures Validate(Str("domain_another"), TestApex()) == Fail(MisplacedUnderscore)
  {
    assert CheckRecordLabel(Str("domain_another")) == Pass;
    assert DOT !in Str("domain_another");
    var fq := FullyQualified(Str("domain_another"), TestApex());
    assert fq[6] == UNDERSCORE && fq[0] != UNDERSCORE;
    ValidateOneRecordLabel("domain_another", Fail(MisplacedUnderscore));
  }

  lemma InnerUnderscoreFails()
    ensures New(Str("domain_another"), TestApex()) == Err(MisplacedUnderscore)
  {
    NewOfLowercase("domain_another", TestApex());
    InnerUnderscoreValidatorFails();
  }

  lemma SecondLabelUnderscoreValidatorFails()
    ensures Validate(Str("domain._another"), TestApex()) == Fail(MisplacedUnderscore)
  {
    assert CheckRecordLabel(Str("domain")) == Pass;
    assert CheckRecordLabel(Str("_another")) == Pass;
    assert DOT !in Str("domain") && DOT !in Str("_another");
    assert FirstFailure([Str("domain"), Str("_another")], CheckRecordLabel) == Pass;
    assert "domain" + "." + "_another" == "domain._another";
    var fq := FullyQualified(Str("domain._another"), TestApex());
    assert fq[7] == UNDERSCORE && fq[0] != UNDERSCORE;
    ValidateTwoRecordLabels("domain", "_another", Fail(MisplacedUnderscore));
  }

  lemma SecondLabelUnderscoreFails()
    ensures New(Str("domain._another"), TestApex()) == Err(MisplacedUnderscore)
  {
    NewOfLowercase("domain._another", TestApex());
    SecondLabelUnderscoreValidatorFails();
  }
}
