/** Zone entries of the repository's own schema (`types/zone_entry.rs` of
    the registry package): a zone paired with a record whose name and type
    are plain strings and whose TTL and data may be absent. The pair is the
    key of the stored set; its derived order compares the zone first, then
    the record fields in declaration order. */
module PackageZoneEntries {
  import opened Bytes
  import opened Wrappers
  import opened Orders
  import Zones
  import Records

  datatype DomainRecord = DomainRecord(name: seq<byte>, record_type: seq<byte>, ttl: Option<u32>, data: Option<seq<byte>>)

  type DomainZone = Zones.DomainZone<seq<byte>>

  datatype DomainZoneEntry = DomainZoneEntry(zone: DomainZone, record: DomainRecord)

  /** `DomainRecord::default()` taken as derived on the record shape this
      file uses (empty strings, absent TTL and data): the least record. */
  function DefaultRecord(): (r: DomainRecord)
    ensures forall s: DomainRecord :: Le(CmpRecord, r, s)
  {
    var r := DomainRecord([], [], None, None);
    forall s: DomainRecord ensures Le(CmpRecord, r, s) {
      ThenNotGreater(CmpBytes(r.name, s.name), CmpBytes(r.record_type, s.record_type));
      ThenNotGreater(CmpBytes(r.name, s.name).Then(CmpBytes(r.record_type, s.record_type)),
                     CmpOption(CmpTtl, r.ttl, s.ttl));
      ThenNotGreater(CmpBytes(r.name, s.name).Then(CmpBytes(r.record_type, s.record_type))
                       .Then(CmpOption(CmpTtl, r.ttl, s.ttl)), CmpOption(CmpBytes, r.data, s.data));
    }
    r
  }

  function CmpTtl(a: u32, b: u32): Ordering {
    CmpInt(a as int, b as int)
  }

  /** The derived record order: name, type, TTL, data; an absent value sorts
      before every present one. */
  function CmpRecord(a: DomainRecord, b: DomainRecord): Ordering {
    CmpBytes(a.name, b.name)
      .Then(CmpBytes(a.record_type, b.record_type))
      .Then(CmpOption(CmpTtl, a.ttl, b.ttl))
      .Then(CmpOption(CmpBytes, a.data, b.data))
  }

  /** The derived entry order: zone, then record. */
  function CmpEntry(a: DomainZoneEntry, b: DomainZoneEntry): Ordering {
    Zones.CmpZone(CmpBytes, a.zone, b.zone).Then(CmpRecord(a.record, b.record))
  }

  lemma RecordTotalOrder()
    ensures IsTotalOrder(CmpRecord)
  {
    BytesTotalOrder();
    IntTotalOrder();
    assert IsTotalOrder(CmpTtl);
    OptionTotalOrder(CmpTtl);
    OptionTotalOrder(CmpBytes);
    var cto := (a: Option<u32>, b: Option<u32>) => CmpOption(CmpTtl, a, b);
    var cdo := (a: Option<seq<byte>>, b: Option<seq<byte>>) => CmpOption(CmpBytes, a, b);
    var cmpRest := (x: (Option<u32>, Option<seq<byte>>), y: (Option<u32>, Option<seq<byte>>)) =>
      cto(x.0, y.0).Then(cdo(x.1, y.1));
    LexTotalOrder(cto, cdo, (x: (Option<u32>, Option<seq<byte>>)) => x.0,
                  (x: (Option<u32>, Option<seq<byte>>)) => x.1, cmpRest);
    var cmpTail := (x: (seq<byte>, (Option<u32>, Option<seq<byte>>)), y: (seq<byte>, (Option<u32>, Option<seq<byte>>))) =>
      CmpBytes(x.0, y.0).Then(cmpRest(x.1, y.1));
    LexTotalOrder(CmpBytes, cmpRest, (x: (seq<byte>, (Option<u32>, Option<seq<byte>>))) => x.0,
                  (x: (seq<byte>, (Option<u32>, Option<seq<byte>>))) => x.1, cmpTail);
    LexTotalOrder(CmpBytes, cmpTail, (r: DomainRecord) => r.name,
                  (r: DomainRecord) => (r.record_type, (r.ttl, r.data)), CmpRecord);
  }

  lemma EntryTotalOrder()
    ensures IsTotalOrder(CmpEntry)
  {
    BytesTotalOrder();
    Zones.ZoneTotalOrder(CmpBytes);
    RecordTotalOrder();
    LexTotalOrder((a: DomainZone, b: DomainZone) => Zones.CmpZone(CmpBytes, a, b), CmpRecord,
                  (e: DomainZoneEntry) => e.zone, (e: DomainZoneEntry) => e.record, CmpEntry);
  }

  // ---------------------------------------------------------------------------
  // The upper key of a search.

  /** The greatest value of each record field (`DomainRecord::max_*_value`).
      Their definitions are not part of this model; the lemmas below state
      what they need of them. */
  datatype Maxima = Maxima(name: seq<byte>, recordType: seq<byte>, ttl: u32, data: seq<byte>)

  /** `default_upper_range_key`: the same zone; an empty name or type and an
      absent TTL or data are replaced by the greatest value, every other
      field is kept. The result has every optional field present. */
  function DefaultUpperRangeKey(k: DomainZoneEntry, m: Maxima): (u: DomainZoneEntry)
    ensures u.zone == k.zone
    ensures u.record.ttl.Some? && u.record.data.Some?
    ensures |u.record.name| > 0 || |m.name| == 0
    ensures |u.record.record_type| > 0 || |m.recordType| == 0
  {
    var r := k.record;
    DomainZoneEntry(
      Zones.DomainZone(k.zone.name),
      DomainRecord(
        if |r.name| == 0 then m.name else r.name,
        if |r.record_type| == 0 then m.recordType else r.record_type,
        if r.ttl.Some? then r.ttl else Some(m.ttl),
        if r.data.Some? then r.data else Some(m.data)))
  }

  /** The upper key is never below the key it was built from, whatever the
      greatest values are: every replaced field was the least of its kind,
      so the range `k..=upper` is never empty of `k` itself. */
  lemma UpperKeyAtLeastKey(k: DomainZoneEntry, m: Maxima)
    ensures Le(CmpEntry, k, DefaultUpperRangeKey(k, m))
  {
    var u := DefaultUpperRangeKey(k, m);
    BytesTotalOrder();
    CmpBytesEqual(k.zone.name, u.zone.name);
    var a, b := k.record, u.record;
    var c1 := CmpBytes(a.name, b.name);
    var c2 := CmpBytes(a.record_type, b.record_type);
    var c3 := CmpOption(CmpTtl, a.ttl, b.ttl);
    var c4 := CmpOption(CmpBytes, a.data, b.data);
    CmpBytesEqual(a.name, b.name);
    CmpBytesEqual(a.record_type, b.record_type);
    assert c1 != Greater && c2 != Greater;
    IntTotalOrder();
    assert c3 != Greater;
    assert c4 != Greater;
    ThenNotGreater(c1, c2);
    ThenNotGreater(c1.Then(c2), c3);
    ThenNotGreater(c1.Then(c2).Then(c3), c4);
  }

  /** A key with every field given is its own upper key: the search is then
      an exact lookup. */
  lemma UpperKeyOfFullKey(k: DomainZoneEntry, m: Maxima)
    requires |k.record.name| > 0 && |k.record.record_type| > 0
    requires k.record.ttl.Some? && k.record.data.Some?
    ensures DefaultUpperRangeKey(k, m) == k
  {
  }

  /** Building the upper key twice changes nothing more, when the greatest
      name and type are not empty. */
  lemma UpperKeyIdempotent(k: DomainZoneEntry, m: Maxima)
    requires |m.name| > 0 && |m.recordType| > 0
    ensures DefaultUpperRangeKey(DefaultUpperRangeKey(k, m), m) == DefaultUpperRangeKey(k, m)
  {
  }

  /** An entry between a key and its upper key is in the key's zone. */
  lemma RangeStaysInZone(k: DomainZoneEntry, m: Maxima, e: DomainZoneEntry)
    requires Le(CmpEntry, k, e) && Le(CmpEntry, e, DefaultUpperRangeKey(k, m))
    ensures e.zone == k.zone
  {
    var u := DefaultUpperRangeKey(k, m);
    BytesTotalOrder();
    ThenFirstNotGreater(Zones.CmpZone(CmpBytes, k.zone, e.zone), CmpRecord(k.record, e.record));
    ThenFirstNotGreater(Zones.CmpZone(CmpBytes, e.zone, u.zone), CmpRecord(e.record, u.record));
    LeAntisym(CmpBytes, k.zone.name, e.zone.name);
  }

  /** The greatest values bound a record when each of its fields is at most
      the greatest value of that field. */
  predicate Bounds(m: Maxima, r: DomainRecord) {
    && Le(CmpBytes, r.name, m.name)
    && Le(CmpBytes, r.record_type, m.recordType)
    && (r.ttl.Some? ==> r.ttl.value <= m.ttl)
    && (r.data.Some? ==> Le(CmpBytes, r.data.value, m.data))
  }

  /** The key of a whole-zone search: the zone with the default record. */
  function ZoneKey(zone: DomainZone): (k: DomainZoneEntry)
    ensures k.zone == zone && forall e: DomainZoneEntry :: e.zone == zone ==> Le(CmpEntry, k, e)
  {
    var k := DomainZoneEntry(zone, DefaultRecord());
    forall e: DomainZoneEntry | e.zone == zone ensures Le(CmpEntry, k, e) {
      CmpBytesEqual(zone.name, zone.name);
    }
    k
  }

  /** A whole-zone search range holds exactly the entries of that zone whose
      records the greatest values bound. */
  lemma ZoneRange(zone: DomainZone, m: Maxima, e: DomainZoneEntry)
    requires Bounds(m, e.record)
    ensures var k := ZoneKey(zone);
      Le(CmpEntry, k, e) && Le(CmpEntry, e, DefaultUpperRangeKey(k, m)) <==> e.zone == zone
  {
    var k := ZoneKey(zone);
    var u := DefaultUpperRangeKey(k, m);
    if Le(CmpEntry, k, e) && Le(CmpEntry, e, u) {
      RangeStaysInZone(k, m, e);
    }
    if e.zone == zone {
      CmpBytesEqual(zone.name, zone.name);
      var a, b := e.record, u.record;
      var c1 := CmpBytes(a.name, b.name);
      var c2 := CmpBytes(a.record_type, b.record_type);
      var c3 := CmpOption(CmpTtl, a.ttl, b.ttl);
      var c4 := CmpOption(CmpBytes, a.data, b.data);
      assert c1 != Greater && c2 != Greater && c3 != Greater && c4 != Greater;
      ThenNotGreater(c1, c2);
      ThenNotGreater(c1.Then(c2), c3);
      ThenNotGreater(c1.Then(c2).Then(c3), c4);
    }
  }

  // ---------------------------------------------------------------------------
  // Storage budget.

  const TUPLE_ZONE: nat := Zones.MAX_SIZE
  const TUPLE_RECORD: nat := Records.MAX_SIZE

  /** `BoundedStorable::MAX_SIZE` of an entry: a zone and a record. */
  const MAX_SIZE: nat := TUPLE_ZONE + TUPLE_RECORD
}
