/** Zone apex domains such as `mydomain.tld.` (`types/zone_apex_domain.rs`):
    the validator, its declarative reading, and the lowercasing constructor
    that the documented canonical form calls for. */
module ZoneApex {
  import opened Bytes
  import opened Wrappers
  import opened Ascii
  import opened Labels
  import opened Constants
  import opened ApexErrors

  /** A validated apex domain, stored exactly as given. */
  datatype ZoneApexDomain = ZoneApexDomain(name: seq<byte>)

  const MAX_SIZE: nat := MAX_DOMAIN_NAME_LENGTH

  /** `c.is_ascii_alphanumeric() || c == '-'`. */
  predicate IsApexLabelByte(c: byte) {
    IsAlphanumeric(c) || c == HYPHEN
  }

  /** One pass of the label loop: emptiness, then length, then characters,
      then hyphen placement. */
  function CheckLabel(l: seq<byte>): Outcome<ZoneApexDomainError> {
    if |l| == 0 then Fail(NonEmptyLabel)
    else if |l| > MAX_DOMAIN_LABEL_LENGTH then Fail(DomainLabelTooLong(|l|, MAX_DOMAIN_LABEL_LENGTH))
    else if !(forall i :: 0 <= i < |l| ==> IsApexLabelByte(l[i])) then Fail(InvalidDomainNameLabel(l))
    else if l[0] == HYPHEN || l[|l| - 1] == HYPHEN then Fail(MisplacedHyphen)
    else Pass
  }

  /** `ZoneApexDomain::validate`: emptiness, overall length and the trailing
      dot first; then every piece of `split('.')` except the last (which is
      the empty piece after the final dot), left to right. */
  function Validate(name: seq<byte>): Outcome<ZoneApexDomainError> {
    if |name| == 0 then Fail(NonEmptyDomain)
    else if |name| > MAX_DOMAIN_NAME_LENGTH then Fail(DomainTooLong(|name|, MAX_DOMAIN_NAME_LENGTH))
    else if name[|name| - 1] != DOT then Fail(MissingEndWithDot)
    else
      var pieces := Split(name, DOT);
      FirstFailure(pieces[..|pieces| - 1], CheckLabel)
  }

  // ---------------------------------------------------------------------------
  // The grammar, stated without the validator.

  /** A label: 1 to 63 bytes of letters, digits and `-`, not starting or
      ending with `-`. */
  ghost predicate IsApexLabel(l: seq<byte>) {
    && 1 <= |l| <= MAX_DOMAIN_LABEL_LENGTH
    && (forall i :: 0 <= i < |l| ==> IsApexLabelByte(l[i]))
    && l[0] != HYPHEN && l[|l| - 1] != HYPHEN
  }

  /** An apex domain: one or more labels, each followed by a dot, at most
      255 bytes in all. */
  ghost predicate IsApexName(name: seq<byte>) {
    && |name| <= MAX_DOMAIN_NAME_LENGTH
    && exists ls: seq<seq<byte>> ::
      && |ls| >= 1
      && name == Terminated(ls, DOT)
      && (forall i :: 0 <= i < |ls| ==> IsApexLabel(ls[i]))
  }

  lemma CheckLabelPasses(l: seq<byte>)
    ensures CheckLabel(l).Pass? <==> IsApexLabel(l)
  {
  }

  lemma ApexLabelsHaveNoDot(ls: seq<seq<byte>>)
    requires forall i :: 0 <= i < |ls| ==> IsApexLabel(ls[i])
    ensures NoSeparator(ls, DOT)
  {
    assert !IsApexLabelByte(DOT);
  }

  /** Once the up-front checks pass, the labels alone decide, and the first
      failing label gives the error. */
  lemma ValidateByLabels(name: seq<byte>, ls: seq<seq<byte>>)
    requires |ls| >= 1 && NoSeparator(ls, DOT)
    requires name == Terminated(ls, DOT) && |name| <= MAX_DOMAIN_NAME_LENGTH
    ensures Validate(name) == FirstFailure(ls, CheckLabel)
  {
    TerminatedEndsWithSeparator(ls, DOT);
    SplitTerminated(ls, DOT);
    var pieces := Split(name, DOT);
    assert pieces[..|pieces| - 1] == ls;
  }

  /** The order in which the checks report: an empty name, then an overlong
      one, then a missing final dot, and only then the labels. */
  lemma ValidateOrder(name: seq<byte>)
    ensures |name| == 0 ==> Validate(name) == Fail(NonEmptyDomain)
    ensures |name| > MAX_DOMAIN_NAME_LENGTH ==>
      Validate(name) == Fail(DomainTooLong(|name|, MAX_DOMAIN_NAME_LENGTH))
    ensures 0 < |name| <= MAX_DOMAIN_NAME_LENGTH && name[|name| - 1] != DOT ==>
      Validate(name) == Fail(MissingEndWithDot)
    ensures Validate(name).Fail? && Validate(name).error.DomainTooLong? ==> |name| > MAX_DOMAIN_NAME_LENGTH
    ensures Validate(name).Fail? && Validate(name).error.MissingEndWithDot? ==> 0 < |name| <= MAX_DOMAIN_NAME_LENGTH
  {
    if Validate(name).Fail? && 0 < |name| <= MAX_DOMAIN_NAME_LENGTH && name[|name| - 1] == DOT {
      var pieces := Split(name, DOT);
      var ls := pieces[..|pieces| - 1];
      var i :| 0 <= i < |ls| && CheckLabel(ls[i]) == Validate(name);
    }
  }

  /** The validator accepts exactly the grammar, and `new` succeeds exactly
      on the names it accepts, keeping them unchanged. */
  lemma ValidateAcceptsApexNames(name: seq<byte>)
    ensures Validate(name).Pass? <==> IsApexName(name)
    ensures New(name).Ok? <==> IsApexName(name)
    ensures New(name).Ok? ==> New(name).value.name == name
    ensures New(name).Err? ==> Validate(name) == Fail(New(name).error)
  {
    if Validate(name).Pass? {
      SplitOfTerminated(name, DOT);
      var pieces := Split(name, DOT);
      var ls := pieces[..|pieces| - 1];
      assert name == Terminated(ls, DOT);
      forall i | 0 <= i < |ls| ensures IsApexLabel(ls[i]) {
        CheckLabelPasses(ls[i]);
      }
      assert |ls| >= 1;
    }
    if IsApexName(name) {
      var ls: seq<seq<byte>> :| |ls| >= 1 && name == Terminated(ls, DOT)
        && (forall i :: 0 <= i < |ls| ==> IsApexLabel(ls[i]));
      ApexLabelsHaveNoDot(ls);
      ValidateByLabels(name, ls);
      forall i | 0 <= i < |ls| ensures CheckLabel(ls[i]).Pass? {
        CheckLabelPasses(ls[i]);
      }
    }
  }

  /** Every byte of an accepted name is a letter, a digit, `-` or `.`: in
      particular an apex domain never holds `_`, and no byte exceeds `z`. */
  lemma AcceptedNameBytes(name: seq<byte>)
    requires Validate(name).Pass?
    ensures forall i :: 0 <= i < |name| ==> IsApexLabelByte(name[i]) || name[i] == DOT
    ensures UNDERSCORE !in name
    ensures forall i :: 0 <= i < |name| ==> name[i] <= MAX_DOMAIN_ASCII_CHAR_VALUE
  {
    ValidateAcceptsApexNames(name);
    var ls: seq<seq<byte>> :| |ls| >= 1 && name == Terminated(ls, DOT)
      && (forall i :: 0 <= i < |ls| ==> IsApexLabel(ls[i]));
    TerminatedBytes(ls, DOT, IsApexLabelByte);
  }

  /** An accepted name starts with a letter or a digit and ends with the
      dot, so it sorts strictly above the root `.`. */
  lemma AcceptedNameEnds(name: seq<byte>)
    requires Validate(name).Pass?
    ensures |name| >= 2 && IsAlphanumeric(name[0]) && name[|name| - 1] == DOT
  {
    var pieces := Split(name, DOT);
    SplitFirstPiece(name, DOT);
    assert DOT in name;
    var p := pieces[0];
    assert pieces == [p] + Split(name[|p| + 1..], DOT);
    assert pieces[..|pieces| - 1][0] == p;
    assert CheckLabel(p).Pass?;
    assert name[0] == p[0];
  }

  /** Acceptance ignores case: lowercasing changes no length, no dot, no
      hyphen and no byte class. */
  lemma ValidateIgnoresCase(name: seq<byte>)
    ensures Validate(Lower(name)).Pass? <==> Validate(name).Pass?
  {
    var low := Lower(name);
    assert |low| == |name|;
    if 0 < |name| <= MAX_DOMAIN_NAME_LENGTH && name[|name| - 1] == DOT {
      assert low[|low| - 1] == DOT;
      LabelsIgnoreCase(name);
    } else if 0 < |name| <= MAX_DOMAIN_NAME_LENGTH {
      assert low[|low| - 1] != DOT;
    }
  }

  /** The labels before the last dot pass in lower case exactly when they
      pass as given. */
  lemma LabelsIgnoreCase(name: seq<byte>)
    ensures var pieces := Split(name, DOT);
      var lowPieces := Split(Lower(name), DOT);
      |lowPieces| == |pieces|
      && (FirstFailure(lowPieces[..|pieces| - 1], CheckLabel).Pass?
          <==> FirstFailure(pieces[..|pieces| - 1], CheckLabel).Pass?)
  {
    SplitLower(name);
    var pieces := Split(name, DOT);
    var ls := pieces[..|pieces| - 1];
    assert Split(Lower(name), DOT)[..|pieces| - 1] == LowerAll(ls);
    LowerLabelsAgree(ls);
    FirstFailurePassAgrees(LowerAll(ls), ls, CheckLabel);
  }

  lemma LowerLabelsAgree(ls: seq<seq<byte>>)
    ensures forall i :: 0 <= i < |ls| ==> (CheckLabel(LowerAll(ls)[i]).Pass? <==> CheckLabel(ls[i]).Pass?)
  {
    forall i | 0 <= i < |ls| ensures CheckLabel(LowerAll(ls)[i]).Pass? <==> CheckLabel(ls[i]).Pass? {
      CheckLabelIgnoresCase(ls[i]);
    }
  }

  lemma CheckLabelIgnoresCase(l: seq<byte>)
    ensures CheckLabel(Lower(l)).Pass? <==> CheckLabel(l).Pass?
  {
    var low := Lower(l);
    assert forall i :: 0 <= i < |l| ==> (IsApexLabelByte(low[i]) <==> IsApexLabelByte(l[i]));
  }

  // ---------------------------------------------------------------------------
  // Construction.

  /** `ZoneApexDomain::new`: validates and keeps the name unchanged; it does
      not lowercase (see `NewCanonical`). */
  function New(name: seq<byte>): (r: Result<ZoneApexDomain, ZoneApexDomainError>)
    ensures r.Ok? ==> r.value.name == name
  {
    match Validate(name)
    case Fail(e) => Err(e)
    case Pass => Ok(ZoneApexDomain(name))
  }

  /** `ZoneApexDomain::default()`: the root `.`, which `new` itself rejects. */
  function Default(): (d: ZoneApexDomain)
    ensures Validate(d.name) == Fail(NonEmptyLabel)
    ensures !IsApexName(d.name)
  {
    var d := ZoneApexDomain([DOT]);
    assert d.name == Terminated([[]], DOT);
    ValidateByLabels(d.name, [[]]);
    ValidateAcceptsApexNames(d.name);
    d
  }

  /** The constructor the documented canonical form calls for: lowercase,
      then validate. */
  function NewCanonical(name: seq<byte>): (r: Result<ZoneApexDomain, ZoneApexDomainError>)
  {
    New(Lower(name))
  }

  /** The canonical constructor accepts what `new` accepts, and stores the
      lowercase spelling, which is the same for every spelling of a name. */
  lemma NewCanonicalIsLowercase(name: seq<byte>)
    ensures NewCanonical(name).Ok? <==> New(name).Ok?
    ensures NewCanonical(name).Ok? <==> IsApexName(name)
    ensures NewCanonical(name).Ok? ==>
      && NewCanonical(name).value.name == Lower(name)
      && EqIgnoreAsciiCase(NewCanonical(name).value.name, name)
      && forall i :: 0 <= i < |name| ==> !IsUpper(NewCanonical(name).value.name[i])
  {
    ValidateIgnoresCase(name);
    ValidateAcceptsApexNames(name);
    LowerIdempotent(name);
    LowerHasNoUpper(name);
  }

  /** Names that differ only in case give the same canonical apex domain. */
  lemma NewCanonicalIgnoresCase(a: seq<byte>, b: seq<byte>)
    requires EqIgnoreAsciiCase(a, b)
    ensures NewCanonical(a) == NewCanonical(b)
  {
  }

  /** As written, `new` accepts `A.` and `a.` as two different apex domains,
      although both spell the same domain. */
  lemma NewKeepsCase()
    ensures New(Str("A.")) == Ok(ZoneApexDomain(Str("A.")))
    ensures New(Str("a.")) == Ok(ZoneApexDomain(Str("a.")))
    ensures EqIgnoreAsciiCase(Str("A."), Str("a.")) && Str("A.") != Str("a.")
  {
    SingleLetterPasses("A");
    SingleLetterPasses("a");
    assert Str("A.")[0] != Str("a.")[0];
    var upper := Str("A.");
    assert Lower(upper)[0] == ToLower(upper[0]) && Lower(upper)[1] == ToLower(upper[1]);
    assert Lower(upper) == Str("a.");
    LowerIdempotent(upper);
  }

  lemma SingleLetterPasses(a: string)
    requires |a| == 1 && (IsUpper(Str(a)[0]) || IsLower(Str(a)[0]))
    ensures Validate(Str(a + ".")) == Pass
  {
    assert CheckLabel(Str(a)) == Pass;
    assert DOT !in Str(a);
    ValidateOneLabel(a, Pass);
  }

  /** `<label>.` validates as its one label does. */
  lemma ValidateOneLabel(a: string, expected: Outcome<ZoneApexDomainError>)
    requires DOT !in Str(a) && |a| < MAX_DOMAIN_NAME_LENGTH
    requires CheckLabel(Str(a)) == expected
    ensures Validate(Str(a + ".")) == expected
  {
    StrAppend(a, ".");
    TerminatedOne(Str(a), DOT);
    ValidateByLabels(Str(a + "."), [Str(a)]);
  }

  /** `<label>.<tld>.` validates as its two labels do, left to right. */
  lemma ValidateTwoLabels(a: string, b: string, expected: Outcome<ZoneApexDomainError>)
    requires DOT !in Str(a) && DOT !in Str(b) && |a| + |b| + 2 <= MAX_DOMAIN_NAME_LENGTH
    requires FirstFailure([Str(a), Str(b)], CheckLabel) == expected
    ensures Validate(Str(a + "." + (b + "."))) == expected
  {
    StrAppend(a + ".", b + ".");
    StrAppend(a, ".");
    StrAppend(b, ".");
    TerminatedTwo(Str(a), Str(b), DOT);
    ValidateByLabels(Str(a + "." + (b + ".")), [Str(a), Str(b)]);
  }

  /** The 26 lower-case letters; the long labels of the unit tests are two
      alphabets and a tail. */
  const ALPHABET: string := "abcdefghijklmnopqrstuvwxyz"

  lemma AlphabetBytes()
    ensures forall i :: 0 <= i < 26 ==> IsLower(Str(ALPHABET)[i])
  {
  }

  /** `Str(x + y)` is a letter-and-digit label when both parts are. */
  lemma AlphanumericAppend(x: string, y: string)
    requires forall i :: 0 <= i < |x| ==> IsAlphanumeric(Str(x)[i])
    requires forall i :: 0 <= i < |y| ==> IsAlphanumeric(Str(y)[i])
    ensures forall i :: 0 <= i < |x + y| ==> IsAlphanumeric(Str(x + y)[i])
  {
    StrAppend(x, y);
    forall i | 0 <= i < |x + y| ensures IsAlphanumeric(Str(x + y)[i]) {
      if i >= |x| {
        assert Str(x + y)[i] == Str(y)[i - |x|];
      }
    }
  }

  /** A letter-and-digit label of 1 to 63 bytes followed by `.tld.`. */
  lemma UnderTldPasses(a: string)
    requires 1 <= |a| <= MAX_DOMAIN_LABEL_LENGTH
    requires forall i :: 0 <= i < |a| ==> IsAlphanumeric(Str(a)[i])
    ensures Validate(Str(a + "." + ("tld" + "."))) == Pass
  {
    assert CheckLabel(Str(a)) == Pass;
    assert !IsAlphanumeric(DOT);
    assert DOT !in Str(a);
    assert CheckLabel(Str("tld")) == Pass;
    assert DOT !in Str("tld");
    assert FirstFailure([Str(a), Str("tld")], CheckLabel) == Pass;
    ValidateTwoLabels(a, "tld", Pass);
  }

  lemma InternetComputerPasses()
    ensures Validate(Str("internetcomputer.tld.")) == Pass
  {
    assert forall i :: 0 <= i < 16 ==> IsLower(Str("internetcomputer")[i]);
    UnderTldPasses("internetcomputer");
    assert "internetcomputer" + "." + ("tld" + ".") == "internetcomputer.tld.";
  }

  lemma ShortDomainPasses()
    ensures Validate(Str("a.tld.")) == Pass
  {
    assert IsLower(Str("a")[0]);
    UnderTldPasses("a");
    assert "a" + "." + ("tld" + ".") == "a.tld.";
  }

  lemma LongLabelUnderTldPasses()
    ensures Validate(Str(ALPHABET + ALPHABET + "123456" + "." + ("tld" + "."))) == Pass
  {
    AlphanumericLabel("123456");
    UnderTldPasses(ALPHABET + ALPHABET + "123456");
  }

  /** Two alphabets followed by `tail` is a letter-and-digit label. */
  lemma AlphanumericLabel(tail: string)
    requires forall i :: 0 <= i < |tail| ==> IsAlphanumeric(Str(tail)[i])
    ensures forall i :: 0 <= i < |ALPHABET + ALPHABET + tail| ==> IsAlphanumeric(Str(ALPHABET + ALPHABET + tail)[i])
  {
    AlphabetBytes();
    AlphanumericAppend(ALPHABET, ALPHABET);
    AlphanumericAppend(ALPHABET + ALPHABET, tail);
  }

  /** The greatest domain name is itself a valid apex domain. */
  lemma MaxDomainNamePasses()
    ensures Validate(MaxDomainName()) == Pass
  {
    MaxDomainNameLabels();
    var ls := [Repeat(LOWER_Z, 62), MAX_DOMAIN_LABEL, MAX_DOMAIN_LABEL, MAX_DOMAIN_LABEL];
    forall i | 0 <= i < |ls| ensures IsApexLabel(ls[i]) {
    }
    ApexLabelsHaveNoDot(ls);
    ValidateByLabels(MaxDomainName(), ls);
    forall i | 0 <= i < |ls| ensures CheckLabel(ls[i]).Pass? {
      CheckLabelPasses(ls[i]);
    }
  }

  /** The accepted cases of the unit tests. */
  lemma ApexValidationPasses()
    ensures New(Str("internetcomputer.tld.")).Ok?
    ensures New(Str("a.tld.")).Ok?
    ensures New(Str(ALPHABET + ALPHABET + "123456" + "." + ("tld" + "."))).Ok?
    ensures New(MaxDomainName()).Ok?
  {
    InternetComputerPasses();
    ShortDomainPasses();
    LongLabelUnderTldPasses();
    MaxDomainNamePasses();
  }

  lemma LongLabelUnderTldFails()
    ensures Validate(Str(ALPHABET + ALPHABET + "123456789abc" + "." + ("tld" + ".")))
      == Fail(DomainLabelTooLong(64, MAX_DOMAIN_LABEL_LENGTH))
  {
    AlphanumericLabel("123456789abc");
    TooLongUnderTldFails(ALPHABET + ALPHABET + "123456789abc");
  }

  lemma TooLongUnderTldFails(a: string)
    requires |a| == 64
    requires forall i :: 0 <= i < |a| ==> IsAlphanumeric(Str(a)[i])
    ensures Validate(Str(a + "." + ("tld" + "."))) == Fail(DomainLabelTooLong(64, MAX_DOMAIN_LABEL_LENGTH))
  {
    assert !IsAlphanumeric(DOT);
    assert DOT !in Str(a);
    assert DOT !in Str("tld");
    assert CheckLabel(Str(a)) == Fail(DomainLabelTooLong(64, MAX_DOMAIN_LABEL_LENGTH));
    assert FirstFailure([Str(a), Str("tld")], CheckLabel) == Fail(DomainLabelTooLong(64, MAX_DOMAIN_LABEL_LENGTH));
    ValidateTwoLabels(a, "tld", Fail(DomainLabelTooLong(64, MAX_DOMAIN_LABEL_LENGTH)));
  }

  /** `<label>.tld.` whose first label fails as given. */
  lemma FirstLabelFails(a: string, e: ZoneApexDomainError)
    requires |a| <= 10 && DOT !in Str(a)
    requires CheckLabel(Str(a)) == Fail(e)
    ensures Validate(Str(a + "." + ("tld" + "."))) == Fail(e)
  {
    assert DOT !in Str("tld");
    assert FirstFailure([Str(a), Str("tld")], CheckLabel) == Fail(e);
    ValidateTwoLabels(a, "tld", Fail(e));
  }

  lemma EmptyLabelFails()
    ensures Validate(Str(".tld.")) == Fail(NonEmptyLabel)
  {
    FirstLabelFails("", NonEmptyLabel);
    assert "" + "." + ("tld" + ".") == ".tld.";
  }

  lemma MissingDotFails()
    ensures Validate(Str("internetcomputer.tld")) == Fail(MissingEndWithDot)
  {
    assert Str("internetcomputer.tld")[19] != DOT;
  }

  lemma LeadingHyphenFails()
    ensures Validate(Str("-test.tld.")) == Fail(MisplacedHyphen)
  {
    assert CheckLabel(Str("-test")) == Fail(MisplacedHyphen);
    FirstLabelFails("-test", MisplacedHyphen);
    assert "-test" + "." + ("tld" + ".") == "-test.tld.";
  }

  lemma TrailingHyphenFails()
    ensures Validate(Str("test-.tld.")) == Fail(MisplacedHyphen)
  {
    assert CheckLabel(Str("test-")) == Fail(MisplacedHyphen);
    FirstLabelFails("test-", MisplacedHyphen);
    assert "test-" + "." + ("tld" + ".") == "test-.tld.";
  }

  lemma UnderscoreFails()
    ensures Validate(Str("_test.tld.")) == Fail(InvalidDomainNameLabel(Str("_test")))
  {
    assert !IsApexLabelByte(Str("_test")[0]);
    FirstLabelFails("_test", InvalidDomainNameLabel(Str("_test")));
    assert "_test" + "." + ("tld" + ".") == "_test.tld.";
  }

  /** The rejected cases of the unit tests, with their errors. */
  lemma ApexValidationFailures()
    ensures New(Str("")) == Err(NonEmptyDomain)
    ensures New(Str(".tld.")) == Err(NonEmptyLabel)
    ensures New(Str("internetcomputer.tld")) == Err(MissingEndWithDot)
    ensures New(Str(ALPHABET + ALPHABET + "123456789abc" + "." + ("tld" + ".")))
      == Err(DomainLabelTooLong(64, MAX_DOMAIN_LABEL_LENGTH))
    ensures New(Str("-test.tld.")) == Err(MisplacedHyphen)
    ensures New(Str("test-.tld.")) == Err(MisplacedHyphen)
    ensures New(Str("_test.tld.")) == Err(InvalidDomainNameLabel(Str("_test")))
  {
    EmptyLabelFails();
    MissingDotFails();
    LongLabelUnderTldFails();
    LeadingHyphenFails();
    TrailingHyphenFails();
    UnderscoreFails();
  }
}
