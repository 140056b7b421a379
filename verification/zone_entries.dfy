/** Zone entries of the registry canister's typed schema
    (`types/zone_entry.rs` of the canister): a zone named by a validated apex
    domain paired with a record named by a validated record name. The pair is
    the key of the stored set and its derived order compares the zone first,
    then the record fields in declaration order. A search input names some
    of the fields; it is turned into an inclusive lower and upper key. */
module ZoneEntries {
  import opened Bytes
  import opened Wrappers
  import opened Orders
  import opened Ascii
  import AE = ApexErrors
  import RE = RecordNameErrors
  import ZoneApex
  import RecordNames
  import RecordNameBounds
  import Records
  import Zones
  import Repositories

  type Apex = ZoneApex.ZoneApexDomain
  type Name = RecordNames.RecordName
  type DomainZone = Zones.DomainZone<Apex>
  type DomainRecord = Records.DomainRecord<Name>

  datatype DomainZoneEntry = DomainZoneEntry(zone: DomainZone, record: DomainRecord)

  /** An entry as the registry stores it: a valid apex and a record name
      valid under it. */
  ghost predicate IsValidEntry(e: DomainZoneEntry) {
    && ZoneApex.Validate(e.zone.name.name) == Pass
    && RecordNames.Validate(e.record.name.name, e.zone.name) == Pass
  }

  // ---------------------------------------------------------------------------
  // The derived order.

  function CmpApex(a: Apex, b: Apex): Ordering {
    CmpBytes(a.name, b.name)
  }

  function CmpName(a: Name, b: Name): Ordering {
    CmpBytes(a.name, b.name)
  }

  function CmpZone(a: DomainZone, b: DomainZone): Ordering {
    Zones.CmpZone(CmpApex, a, b)
  }

  function CmpRecord(a: DomainRecord, b: DomainRecord): Ordering {
    Records.CmpRecord(CmpName, a, b)
  }

  /** Zone first, then the record. */
  function CmpEntry(a: DomainZoneEntry, b: DomainZoneEntry): Ordering {
    CmpZone(a.zone, b.zone).Then(CmpRecord(a.record, b.record))
  }

  lemma ApexTotalOrder()
    ensures IsTotalOrder(CmpApex)
  {
    BytesTotalOrder();
    forall a: Apex, b: Apex ensures CmpApex(a, b) == Equal <==> a == b {
      CmpBytesEqual(a.name, b.name);
    }
  }

  lemma NameTotalOrder()
    ensures IsTotalOrder(CmpName)
  {
    BytesTotalOrder();
    forall a: Name, b: Name ensures CmpName(a, b) == Equal <==> a == b {
      CmpBytesEqual(a.name, b.name);
    }
  }

  lemma EntryTotalOrder()
    ensures IsTotalOrder(CmpEntry)
  {
    ApexTotalOrder();
    NameTotalOrder();
    Zones.ZoneTotalOrder(CmpApex);
    Records.RecordTotalOrder(CmpName);
    LexTotalOrder((a: DomainZone, b: DomainZone) => Zones.CmpZone(CmpApex, a, b),
                  (a: DomainRecord, b: DomainRecord) => Records.CmpRecord(CmpName, a, b),
                  (e: DomainZoneEntry) => e.zone, (e: DomainZoneEntry) => e.record, CmpEntry);
  }

  // ---------------------------------------------------------------------------
  // Search inputs.

  datatype DomainZoneInput = DomainZoneInput(name: Option<seq<byte>>)

  datatype DomainRecordInput = DomainRecordInput(name: Option<seq<byte>>, record_type: Option<seq<byte>>,
                                                 ttl: Option<u32>, data: Option<seq<byte>>)

  datatype DomainZoneEntryInput = DomainZoneEntryInput(zone: DomainZoneInput, record: DomainRecordInput)

  /** The greatest value of each record field (`DomainRecord::max_*_value`
      of the canister); the record-name one depends on the apex. Their
      definitions are not part of this model. */
  datatype Maxima = Maxima(recordName: Apex -> Name, recordType: seq<byte>, ttl: u32, data: seq<byte>)

  /** The apex of the lower key: the supplied zone name validated, or the
      default root `.` without validation. */
  function LowerApex(zone: DomainZoneInput): (r: Result<Apex, AE.ZoneApexDomainError>)
    ensures zone.name.None? ==> r == Ok(ZoneApex.Default())
    ensures zone.name.Some? ==> (r.Ok? <==> ZoneApex.Validate(zone.name.value) == Pass)
    ensures zone.name.Some? && r.Ok? ==> r.value.name == zone.name.value
  {
    match zone.name
    case Some(n) => ZoneApex.New(n)
    case None => Ok(ZoneApex.Default())
  }

  /** The apex of the upper key: the supplied zone name, or `.`, both
      validated. */
  function UpperApex(zone: DomainZoneInput): (r: Result<Apex, AE.ZoneApexDomainError>)
    ensures zone.name.Some? ==> r == LowerApex(zone)
    ensures zone.name.None? ==> r == Err(AE.NonEmptyLabel)
  {
    match zone.name
    case Some(n) => ZoneApex.New(n)
    case None =>
      assert Str(".") == ZoneApex.Default().name;
      ZoneApex.New(Str("."))
  }

  /** The supplied record name, if any, is accepted under the apex: the
      source unwraps the result of `RecordName::new` and aborts otherwise. */
  predicate NameUnwraps(record: DomainRecordInput, apex: Result<Apex, AE.ZoneApexDomainError>) {
    apex.Ok? && record.name.Some? ==> RecordNames.New(record.name.value, apex.value).Ok?
  }

  // ---------------------------------------------------------------------------
  // The keys as written.

  /** `map_to_lower_range_key`: the apex, the supplied record fields, and
      the least value of each absent one (`@`, `""`, `0`, `""`). */
  function MapToLowerRangeKey(input: DomainZoneEntryInput): (r: Result<DomainZoneEntry, AE.ZoneApexDomainError>)
    requires NameUnwraps(input.record, LowerApex(input.zone))
    ensures r.Err? <==> input.zone.name.Some? && ZoneApex.Validate(input.zone.name.value).Fail?
    ensures r.Err? ==> ZoneApex.Validate(input.zone.name.value) == Fail(r.error)
    ensures r.Ok? ==> r.value.zone.name == LowerApex(input.zone).value
    ensures r.Ok? ==> RecordNames.Validate(r.value.record.name.name, r.value.zone.name) == Pass
    ensures r.Ok? && input.record.name.None? ==> r.value.record.name == RecordNames.Default()
    ensures r.Ok? && input.record.name.Some? ==> r.value.record.name.name == Lower(input.record.name.value)
    ensures r.Ok? ==> r.value.record.record_type == (if input.record.record_type.Some? then input.record.record_type.value else [])
    ensures r.Ok? ==> r.value.record.ttl == (if input.record.ttl.Some? then input.record.ttl.value else 0)
    ensures r.Ok? ==> r.value.record.data == (if input.record.data.Some? then input.record.data.value else [])
  {
    match LowerApex(input.zone)
    case Err(e) =>
      ZoneApex.ValidateAcceptsApexNames(input.zone.name.value);
      Err(e)
    case Ok(apex) =>
      var rec := input.record;
      var name := if rec.name.Some? then RecordNames.New(rec.name.value, apex).value else RecordNames.Default();
      Ok(DomainZoneEntry(Zones.DomainZone(apex),
        Records.DomainRecord(name, rec.record_type.GetOr([]), rec.ttl.GetOr(0), rec.data.GetOr([]))))
  }

  /** `map_to_upper_range_key`: the apex, the supplied record fields, and
      the greatest value of each absent one. */
  function MapToUpperRangeKey(input: DomainZoneEntryInput, m: Maxima): (r: Result<DomainZoneEntry, AE.ZoneApexDomainError>)
    requires NameUnwraps(input.record, UpperApex(input.zone))
    ensures r.Err? <==> UpperApex(input.zone).Err?
    ensures r.Err? ==> r.error == UpperApex(input.zone).error
    ensures r.Ok? ==> r.value.zone.name == UpperApex(input.zone).value
    ensures r.Ok? && input.record.name.None? ==> r.value.record.name == m.recordName(r.value.zone.name)
    ensures r.Ok? && input.record.name.Some? ==>
      RecordNames.Validate(r.value.record.name.name, r.value.zone.name) == Pass
    ensures r.Ok? ==> r.value.record.record_type == (if input.record.record_type.Some? then input.record.record_type.value else m.recordType)
    ensures r.Ok? ==> r.value.record.ttl == (if input.record.ttl.Some? then input.record.ttl.value else m.ttl)
    ensures r.Ok? ==> r.value.record.data == (if input.record.data.Some? then input.record.data.value else m.data)
  {
    match UpperApex(input.zone)
    case Err(e) => Err(e)
    case Ok(apex) =>
      var rec := input.record;
      var name := if rec.name.Some? then RecordNames.New(rec.name.value, apex).value else m.recordName(apex);
      Ok(DomainZoneEntry(Zones.DomainZone(apex),
        Records.DomainRecord(name, rec.record_type.GetOr(m.recordType), rec.ttl.GetOr(m.ttl), rec.data.GetOr(m.data))))
  }

  /** `RepositorySearch::search` through the two keys: the stored entries
      between them. A key error is reported as `Err`, standing for whatever
      the implementation, which is not part of this model, does with it. */
  function Search(st: Repositories.Store<DomainZoneEntry>, input: DomainZoneEntryInput, m: Maxima)
    : (r: Result<seq<DomainZoneEntry>, AE.ZoneApexDomainError>)
    requires Repositories.Valid(CmpEntry, st)
    requires NameUnwraps(input.record, LowerApex(input.zone))
    requires NameUnwraps(input.record, UpperApex(input.zone))
    ensures r.Err? <==> MapToLowerRangeKey(input).Err? || MapToUpperRangeKey(input, m).Err?
    ensures r.Ok? ==> forall e :: e in r.value <==>
      (e in st.entries && Le(CmpEntry, MapToLowerRangeKey(input).value, e) && Le(CmpEntry, e, MapToUpperRangeKey(input, m).value))
  {
    Repositories.SearchBetween(CmpEntry, st, MapToLowerRangeKey(input), MapToUpperRangeKey(input, m))
  }

  /** A supplied zone, and every supplied record field, appear identically in
      both keys. */
  lemma KeysShareSuppliedFields(input: DomainZoneEntryInput, m: Maxima)
    requires input.zone.name.Some?
    requires NameUnwraps(input.record, LowerApex(input.zone))
    ensures MapToLowerRangeKey(input).Ok? <==> MapToUpperRangeKey(input, m).Ok?
    ensures MapToLowerRangeKey(input).Ok? ==>
      var lo, hi := MapToLowerRangeKey(input).value, MapToUpperRangeKey(input, m).value;
      && lo.zone == hi.zone && lo.zone.name.name == input.zone.name.value
      && (input.record.name.Some? ==> lo.record.name == hi.record.name)
      && (input.record.record_type.Some? ==> lo.record.record_type == hi.record.record_type)
      && (input.record.ttl.Some? ==> lo.record.ttl == hi.record.ttl)
      && (input.record.data.Some? ==> lo.record.data == hi.record.data)
  {
  }

  /** With a zone supplied, every entry between the keys is in that zone. */
  lemma ZoneConfinement(input: DomainZoneEntryInput, m: Maxima, e: DomainZoneEntry)
    requires input.zone.name.Some?
    requires NameUnwraps(input.record, LowerApex(input.zone))
    requires MapToLowerRangeKey(input).Ok?
    requires Le(CmpEntry, MapToLowerRangeKey(input).value, e)
    requires Le(CmpEntry, e, MapToUpperRangeKey(input, m).value)
    ensures e.zone.name.name == input.zone.name.value
  {
    var lo, hi := MapToLowerRangeKey(input).value, MapToUpperRangeKey(input, m).value;
    KeysShareSuppliedFields(input, m);
    BytesTotalOrder();
    ThenFirstNotGreater(CmpZone(lo.zone, e.zone), CmpRecord(lo.record, e.record));
    ThenFirstNotGreater(CmpZone(e.zone, hi.zone), CmpRecord(e.record, hi.record));
    LeAntisym(CmpBytes, lo.zone.name.name, e.zone.name.name);
  }

  /** Without a zone the upper key always fails, because `.` has an empty
      label, although the lower key succeeds; the modelled search therefore
      reports that error and returns no entries. */
  lemma SearchWithoutZoneFails(st: Repositories.Store<DomainZoneEntry>, input: DomainZoneEntryInput, m: Maxima)
    requires Repositories.Valid(CmpEntry, st)
    requires input.zone.name.None?
    requires NameUnwraps(input.record, LowerApex(input.zone))
    ensures MapToLowerRangeKey(input).Ok?
    ensures MapToUpperRangeKey(input, m) == Err(AE.NonEmptyLabel)
    ensures Search(st, input, m) == Err(AE.NonEmptyLabel)
  {
  }

  /** An input that names the zone `internetcomputer.tld.` and no record
      field: a whole-zone search. */
  function WholeZoneInput(): DomainZoneEntryInput {
    DomainZoneEntryInput(DomainZoneInput(Some(RecordNames.TestApex().name)), DomainRecordInput(None, None, None, None))
  }

  /** The record `0` of `internetcomputer.tld.`. */
  function DigitEntry(): DomainZoneEntry {
    DomainZoneEntry(Zones.DomainZone(RecordNames.TestApex()), Records.DomainRecord(RecordNames.RecordName(Str("0")), [], 0, []))
  }

  /** The record `0` is valid, yet it sorts below the lower key of a
      whole-zone search, which starts at `@`: the search never returns it. */
  lemma WholeZoneSearchMissesDigitNames(st: Repositories.Store<DomainZoneEntry>, m: Maxima)
    requires Repositories.Valid(CmpEntry, st)
    ensures IsValidEntry(DigitEntry())
    ensures MapToLowerRangeKey(WholeZoneInput()).Ok?
    ensures CmpEntry(DigitEntry(), MapToLowerRangeKey(WholeZoneInput()).value) == Less
    ensures Search(st, WholeZoneInput(), m).Ok? ==> DigitEntry() !in Search(st, WholeZoneInput(), m).value
  {
    ZoneApex.InternetComputerPasses();
    RecordNameBounds.MinValueAsWrittenIsNotLeast();
    var lo := MapToLowerRangeKey(WholeZoneInput()).value;
    CmpBytesEqual(lo.zone.name.name, DigitEntry().zone.name.name);
    EntryTotalOrder();
  }

  /** The empty record name is rejected under a valid apex, so an input that
      supplies it cannot be mapped: the source aborts. */
  lemma EmptyNameAborts()
    ensures var input := DomainZoneEntryInput(DomainZoneInput(Some(RecordNames.TestApex().name)),
                                              DomainRecordInput(Some([]), None, None, None));
      LowerApex(input.zone).Ok? && !NameUnwraps(input.record, LowerApex(input.zone))
  {
    ZoneApex.InternetComputerPasses();
  }

  // ---------------------------------------------------------------------------
  // The keys as evidently intended.

  datatype KeyError = ZoneError(zoneError: AE.ZoneApexDomainError) | NameError(nameError: RE.RecordNameError)

  /** A zone name above every apex domain: 255 bytes of `z`. It is not itself
      a valid apex, since it does not end with the dot. */
  function UpperSentinel(): (a: Apex)
    ensures |a.name| == 255 && forall i :: 0 <= i < 255 ==> a.name[i] == LOWER_Z
  {
    ZoneApex.ZoneApexDomain(Repeat(LOWER_Z, 255))
  }

  /** The record name of a key: the supplied one validated, or the bound. */
  function KeyName(record: DomainRecordInput, apex: Apex, bound: Name): (r: Result<Name, KeyError>)
    ensures record.name.None? ==> r == Ok(bound)
    ensures record.name.Some? ==> (r.Ok? <==> RecordNames.New(record.name.value, apex).Ok?)
    ensures record.name.Some? && r.Err? ==> r.error == NameError(RecordNames.New(record.name.value, apex).error)
  {
    match record.name
    case None => Ok(bound)
    case Some(n) =>
      match RecordNames.New(n, apex)
      case Ok(name) => Ok(name)
      case Err(e) => Err(NameError(e))
  }

  /** The lower key with the name errors reported and the least accepted
      record name `0` when no name is given. */
  function CheckedLowerKey(input: DomainZoneEntryInput): (r: Result<DomainZoneEntry, KeyError>)
    ensures LowerApex(input.zone).Err? ==> r == Err(ZoneError(LowerApex(input.zone).error))
    ensures r.Ok? ==> r.value.zone.name == LowerApex(input.zone).value
  {
    match LowerApex(input.zone)
    case Err(e) => Err(ZoneError(e))
    case Ok(apex) =>
      match KeyName(input.record, apex, RecordNameBounds.MinValue())
      case Err(e) => Err(e)
      case Ok(name) =>
        var rec := input.record;
        Ok(DomainZoneEntry(Zones.DomainZone(apex),
          Records.DomainRecord(name, rec.record_type.GetOr([]), rec.ttl.GetOr(0), rec.data.GetOr([]))))
  }

  /** The upper key with the name errors reported, the sentinel zone when no
      zone is given, and the proven greatest record name when no name is
      given. */
  function CheckedUpperKey(input: DomainZoneEntryInput, m: Maxima): (r: Result<DomainZoneEntry, KeyError>)
    ensures input.zone.name.Some? && LowerApex(input.zone).Err? ==> r == Err(ZoneError(LowerApex(input.zone).error))
    ensures r.Ok? && input.zone.name.Some? ==> r.value.zone.name == LowerApex(input.zone).value
    ensures r.Ok? && input.zone.name.None? ==> r.value.zone.name == UpperSentinel()
  {
    var apex := match input.zone.name
      case Some(n) => ZoneApex.New(n)
      case None => Ok(UpperSentinel());
    match apex
    case Err(e) => Err(ZoneError(e))
    case Ok(a) =>
      match KeyName(input.record, a, RecordNameBounds.MaxValue(Some(a)))
      case Err(e) => Err(e)
      case Ok(name) =>
        var rec := input.record;
        Ok(DomainZoneEntry(Zones.DomainZone(a),
          Records.DomainRecord(name, rec.record_type.GetOr(m.recordType), rec.ttl.GetOr(m.ttl), rec.data.GetOr(m.data))))
  }

  function CheckedSearch(st: Repositories.Store<DomainZoneEntry>, input: DomainZoneEntryInput, m: Maxima)
    : (r: Result<seq<DomainZoneEntry>, KeyError>)
    requires Repositories.Valid(CmpEntry, st)
    ensures r.Err? <==> CheckedLowerKey(input).Err? || CheckedUpperKey(input, m).Err?
    ensures r.Ok? ==> forall e :: e in r.value <==>
      (e in st.entries && Le(CmpEntry, CheckedLowerKey(input).value, e) && Le(CmpEntry, e, CheckedUpperKey(input, m).value))
  {
    Repositories.SearchBetween(CmpEntry, st, CheckedLowerKey(input), CheckedUpperKey(input, m))
  }

  /** A rejected supplied record name is reported by both keys, with the
      validator's error, instead of aborting. */
  lemma CheckedKeysReportInvalidNames(input: DomainZoneEntryInput, m: Maxima)
    requires input.zone.name.Some? && LowerApex(input.zone).Ok?
    requires !NameUnwraps(input.record, LowerApex(input.zone))
    ensures var e := NameError(RecordNames.New(input.record.name.value, LowerApex(input.zone).value).error);
      CheckedLowerKey(input) == Err(e) && CheckedUpperKey(input, m) == Err(e)
  {
  }

  /** Where the source defines the keys, with the record name supplied, the
      intended keys are the same ones. */
  lemma CheckedKeysAgree(input: DomainZoneEntryInput, m: Maxima)
    requires input.zone.name.Some? && input.record.name.Some?
    requires NameUnwraps(input.record, LowerApex(input.zone))
    ensures CheckedLowerKey(input).Ok? <==> MapToLowerRangeKey(input).Ok?
    ensures CheckedUpperKey(input, m).Ok? <==> MapToUpperRangeKey(input, m).Ok?
    ensures CheckedLowerKey(input).Ok? ==> CheckedLowerKey(input).value == MapToLowerRangeKey(input).value
    ensures CheckedUpperKey(input, m).Ok? ==> CheckedUpperKey(input, m).value == MapToUpperRangeKey(input, m).value
  {
  }

  /** The greatest values of type, TTL and data bound a record. */
  predicate Bounds(m: Maxima, r: DomainRecord) {
    && Le(CmpBytes, r.record_type, m.recordType)
    && r.ttl <= m.ttl
    && Le(CmpBytes, r.data, m.data)
  }

  /** A stored entry of the apex's zone lies between the two names' keys when
      its record name lies between the key names and the greatest values
      bound it. */
  lemma BetweenZoneKeys(e: DomainZoneEntry, lo: DomainZoneEntry, hi: DomainZoneEntry)
    requires e.zone == lo.zone && e.zone == hi.zone
    requires Le(CmpBytes, lo.record.name.name, e.record.name.name) && Le(CmpBytes, e.record.name.name, hi.record.name.name)
    requires lo.record.record_type == [] && lo.record.ttl == 0 && lo.record.data == []
    requires Le(CmpBytes, e.record.record_type, hi.record.record_type)
    requires e.record.ttl <= hi.record.ttl && Le(CmpBytes, e.record.data, hi.record.data)
    ensures Le(CmpEntry, lo, e) && Le(CmpEntry, e, hi)
  {
    CmpBytesEqual(e.zone.name.name, e.zone.name.name);
    var a := e.record;
    ThenNotGreater(CmpName(lo.record.name, a.name), CmpBytes(lo.record.record_type, a.record_type));
    ThenNotGreater(CmpName(lo.record.name, a.name).Then(CmpBytes(lo.record.record_type, a.record_type)),
                   CmpInt(0, a.ttl as int));
    ThenNotGreater(CmpName(lo.record.name, a.name).Then(CmpBytes(lo.record.record_type, a.record_type))
                     .Then(CmpInt(0, a.ttl as int)), CmpBytes(lo.record.data, a.data));
    var b := hi.record;
    ThenNotGreater(CmpName(a.name, b.name), CmpBytes(a.record_type, b.record_type));
    ThenNotGreater(CmpName(a.name, b.name).Then(CmpBytes(a.record_type, b.record_type)),
                   CmpInt(a.ttl as int, b.ttl as int));
    ThenNotGreater(CmpName(a.name, b.name).Then(CmpBytes(a.record_type, b.record_type))
                     .Then(CmpInt(a.ttl as int, b.ttl as int)), CmpBytes(a.data, b.data));
  }

  /** A whole-zone search through the intended keys returns every stored
      valid entry of the zone that the greatest values bound, whatever its
      record name, and nothing of another zone. */
  lemma CheckedSearchCoversZone(st: Repositories.Store<DomainZoneEntry>, zone: seq<byte>, m: Maxima, e: DomainZoneEntry)
    requires Repositories.Valid(CmpEntry, st)
    requires ZoneApex.Validate(zone) == Pass
    requires e in st.entries && IsValidEntry(e) && Bounds(m, e.record)
    ensures var input := DomainZoneEntryInput(DomainZoneInput(Some(zone)), DomainRecordInput(None, None, None, None));
      && CheckedSearch(st, input, m).Ok?
      && (e in CheckedSearch(st, input, m).value <==> e.zone.name.name == zone)
  {
    var input := DomainZoneEntryInput(DomainZoneInput(Some(zone)), DomainRecordInput(None, None, None, None));
    ZoneApex.ValidateAcceptsApexNames(zone);
    var lo, hi := CheckedLowerKey(input).value, CheckedUpperKey(input, m).value;
    assert lo.zone == hi.zone && lo.zone.name.name == zone;
    if e.zone.name.name == zone {
      assert e.zone == lo.zone;
      RecordNameBounds.MinValueIsLowerBound(e.record.name.name, e.zone.name);
      RecordNameBounds.MaxValueIsUpperBound(e.record.name.name, e.zone.name);
      BetweenZoneKeys(e, lo, hi);
    }
    if Le(CmpEntry, lo, e) && Le(CmpEntry, e, hi) {
      BytesTotalOrder();
      ThenFirstNotGreater(CmpZone(lo.zone, e.zone), CmpRecord(lo.record, e.record));
      ThenFirstNotGreater(CmpZone(e.zone, hi.zone), CmpRecord(e.record, hi.record));
      LeAntisym(CmpBytes, lo.zone.name.name, e.zone.name.name);
    }
  }

  /** Every valid apex sorts strictly between the root `.` and the sentinel. */
  lemma ApexBetweenRootAndSentinel(a: Apex)
    requires ZoneApex.Validate(a.name) == Pass
    ensures CmpApex(ZoneApex.Default(), a) == Less
    ensures CmpApex(a, UpperSentinel()) == Less
  {
    ZoneApex.AcceptedNameEnds(a.name);
    ZoneApex.AcceptedNameBytes(a.name);
    ZoneApex.ValidateAcceptsApexNames(a.name);
    var s := UpperSentinel().name;
    BoundedBytesLeMaxPrefix(a.name, s, LOWER_Z);
    CmpBytesEqual(a.name, s);
    assert a.name[|a.name| - 1] != s[|a.name| - 1];
  }

  /** A search through the intended keys that names neither a zone nor a
      record name returns every stored valid entry, whatever the other record
      fields say. */
  lemma CheckedSearchWithoutZoneCoversAll(st: Repositories.Store<DomainZoneEntry>, input: DomainZoneEntryInput,
                                          m: Maxima, e: DomainZoneEntry)
    requires Repositories.Valid(CmpEntry, st)
    requires input.zone.name.None? && input.record.name.None?
    requires e in st.entries && IsValidEntry(e)
    ensures CheckedSearch(st, input, m).Ok? && e in CheckedSearch(st, input, m).value
  {
    var lo, hi := UnboundedKeys(input, m);
    ApexBetweenRootAndSentinel(e.zone.name);
    ZoneDecides(lo, e);
    ZoneDecides(e, hi);
  }

  /** Without a zone and a record name the keys range from the root zone to
      the sentinel. */
  lemma UnboundedKeys(input: DomainZoneEntryInput, m: Maxima) returns (lo: DomainZoneEntry, hi: DomainZoneEntry)
    requires input.zone.name.None? && input.record.name.None?
    ensures CheckedLowerKey(input) == Ok(lo) && CheckedUpperKey(input, m) == Ok(hi)
    ensures lo.zone.name == ZoneApex.Default() && hi.zone.name == UpperSentinel()
  {
    lo, hi := CheckedLowerKey(input).value, CheckedUpperKey(input, m).value;
  }

  /** Entries in different zones are ordered by their zones. */
  lemma ZoneDecides(a: DomainZoneEntry, b: DomainZoneEntry)
    requires CmpApex(a.zone.name, b.zone.name) == Less
    ensures CmpEntry(a, b) == Less
  {
  }
}
