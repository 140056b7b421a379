/** The zone repository (`repositories/zone.rs` of the registry package):
    the ordered set of zone entries with `get`, `insert`, `remove` and a
    `search` from a key up to that key's default upper range key. */
module ZoneRepository {
  import opened Bytes
  import opened Wrappers
  import opened Orders
  import opened Ascii
  import opened PackageZoneEntries
  import Zones
  import OrderedSets
  import Repositories

  type DomainZoneDatabase = Repositories.Store<DomainZoneEntry>

  ghost predicate Valid(db: DomainZoneDatabase) {
    Repositories.Valid(CmpEntry, db)
  }

  function New(): (db: DomainZoneDatabase)
    ensures Valid(db) && forall e :: e !in db.entries
  {
    EntryTotalOrder();
    Repositories.Empty()
  }

  /** `search`: the stored entries from the key up to its default upper
      range key, in ascending order. */
  function Search(db: DomainZoneDatabase, key: DomainZoneEntry, m: Maxima): (r: seq<DomainZoneEntry>)
    requires Valid(db)
    ensures OrderedSets.Sorted(CmpEntry, r)
    ensures forall e :: e in r <==>
      e in db.entries && Le(CmpEntry, key, e) && Le(CmpEntry, e, DefaultUpperRangeKey(key, m))
  {
    Repositories.Search(CmpEntry, db, key, DefaultUpperRangeKey(key, m))
  }

  /** `get`: the entry when it is stored. */
  method Get(db: DomainZoneDatabase, e: DomainZoneEntry) returns (r: Option<DomainZoneEntry>)
    requires Valid(db)
    ensures r == if e in db.entries then Some(e) else None
  {
    r := Repositories.Get(CmpEntry, db, e);
  }

  /** `insert`: set insertion. */
  function Insert(db: DomainZoneDatabase, e: DomainZoneEntry): (r: DomainZoneDatabase)
    requires Valid(db)
    ensures Valid(r)
    ensures forall x :: x in r.entries <==> x in db.entries || x == e
  {
    Repositories.Insert(CmpEntry, db, e)
  }

  /** `remove`: the entry when it was stored, and the store without it. */
  function Remove(db: DomainZoneDatabase, e: DomainZoneEntry): (r: (DomainZoneDatabase, Option<DomainZoneEntry>))
    requires Valid(db)
    ensures Valid(r.0)
    ensures r.1 == if e in db.entries then Some(e) else None
    ensures forall x :: x in r.0.entries <==> x in db.entries && x != e
  {
    var removal := Repositories.Remove(CmpEntry, db, e);
    (removal.store, if removal.removed then Some(e) else None)
  }

  /** A whole-zone search returns exactly the stored entries of that zone,
      provided the greatest values bound every stored record. */
  lemma SearchZone(db: DomainZoneDatabase, zone: DomainZone, m: Maxima)
    requires Valid(db)
    requires forall e :: e in db.entries ==> Bounds(m, e.record)
    ensures forall e :: e in Search(db, ZoneKey(zone), m) <==> e in db.entries && e.zone == zone
  {
    forall e | e in db.entries {
      ZoneRange(zone, m, e);
    }
  }

  // ---------------------------------------------------------------------------
  // The repository's own test scenarios.

  function Zone(name: string): DomainZone {
    Zones.DomainZone(Str(name))
  }

  /** `internetcomputer.tld.` with the default record. */
  function ApexEntry(): DomainZoneEntry {
    DomainZoneEntry(Zone("internetcomputer.tld."), DefaultRecord())
  }

  /** A `CNAME` record of `name` in `zone`, pointing at the boundary nodes. */
  function CnameEntry(zone: string, name: string, recordType: string): DomainZoneEntry {
    DomainZoneEntry(Zone(zone), DomainRecord(Str(name), Str(recordType), Some(0), Some(Str("ic.boundary.network."))))
  }

  /** A new repository finds nothing. */
  lemma SearchOfNewRepositoryIsEmpty(m: Maxima)
    ensures Search(New(), ApexEntry(), m) == []
  {
    EntryTotalOrder();
    Repositories.SearchEmpty(CmpEntry, ApexEntry(), DefaultUpperRangeKey(ApexEntry(), m));
  }

  /** Two entries of one zone: the zone search returns both, the default
      record first. */
  lemma InsertTwoThenSearch(m: Maxima)
    requires Bounds(m, CnameEntry("internetcomputer.tld.", "internetcomputer.tld.", "CNAME").record)
    ensures var a, b := ApexEntry(), CnameEntry("internetcomputer.tld.", "internetcomputer.tld.", "CNAME");
      Search(Insert(Insert(New(), a), b), a, m) == [a, b]
  {
    var a, b := ApexEntry(), CnameEntry("internetcomputer.tld.", "internetcomputer.tld.", "CNAME");
    assert b.zone == a.zone && |b.record.name| == 21;
    assert Bounds(m, a.record);
    ZonePairSearch(m, a, b);
  }

  /** Storing the zone's key and one more entry of that zone, the search
      from the key returns both, in that order. */
  lemma ZonePairSearch(m: Maxima, a: DomainZoneEntry, b: DomainZoneEntry)
    requires a == ZoneKey(a.zone) && b.zone == a.zone && b != a
    requires Bounds(m, a.record) && Bounds(m, b.record)
    ensures Search(Insert(Insert(New(), a), b), a, m) == [a, b]
  {
    EntryTotalOrder();
    var db := Insert(Insert(New(), a), b);
    SearchZone(db, a.zone, m);
    assert CmpEntry(a, b) == Less;
    OrderedSets.RangeIsPair(CmpEntry, db.entries, a, DefaultUpperRangeKey(a, m), a, b);
  }

  /** Insert, then get finds the entry; remove returns it, then get does
      not find it. */
  lemma InsertGetRemove()
    ensures ApexEntry() in Insert(New(), ApexEntry()).entries
    ensures Remove(Insert(New(), ApexEntry()), ApexEntry()).1 == Some(ApexEntry())
    ensures ApexEntry() !in Remove(Insert(New(), ApexEntry()), ApexEntry()).0.entries
  {
  }

  /** The size of a whole-zone search is the number of stored entries of
      that zone. */
  lemma SearchZoneSize(db: DomainZoneDatabase, zone: DomainZone, m: Maxima, expected: set<DomainZoneEntry>)
    requires Valid(db)
    requires forall e :: e in db.entries ==> Bounds(m, e.record)
    requires forall e :: e in db.entries && e.zone == zone <==> e in expected
    ensures |Search(db, ZoneKey(zone), m)| == |expected|
  {
    var r := Search(db, ZoneKey(zone), m);
    SearchZone(db, zone, m);
    assert OrderedSets.Elems(r) == expected;
    OrderedSets.SortedCardinality(CmpEntry, r);
  }

  function SubdomainEntry(): DomainZoneEntry {
    CnameEntry("internetcomputer.tld.", "subdomain.internetcomputer.tld.", "CNAME")
  }

  function CanisterEntry(): DomainZoneEntry {
    CnameEntry("canister.tld.", "canister.tld.", "TXT")
  }

  function ApexCnameEntry(): DomainZoneEntry {
    CnameEntry("internetcomputer.tld.", "internetcomputer.tld.", "CNAME")
  }

  /** Four entries inserted in turn, three of one zone and one of another:
      each zone search finds exactly its own zone's entries. */
  lemma PartialMatch(m: Maxima, a: DomainZoneEntry, b: DomainZoneEntry, c: DomainZoneEntry, d: DomainZoneEntry)
    requires b.zone == a.zone && c.zone == a.zone && d.zone != a.zone
    requires |{a, b, c}| == 3
    requires Bounds(m, a.record) && Bounds(m, b.record) && Bounds(m, c.record) && Bounds(m, d.record)
    ensures var db := Insert(Insert(Insert(Insert(New(), a), b), c), d);
      |Search(db, ZoneKey(a.zone), m)| == 3 && |Search(db, ZoneKey(d.zone), m)| == 1
  {
    FourInserted(a, b, c, d);
    FourEntriesSearch(Insert(Insert(Insert(Insert(New(), a), b), c), d), m, a, b, c, d);
  }

  /** A database holding exactly the four entries, three of one zone and one
      of another. */
  lemma FourEntriesSearch(db: DomainZoneDatabase, m: Maxima, a: DomainZoneEntry, b: DomainZoneEntry,
                          c: DomainZoneEntry, d: DomainZoneEntry)
    requires Valid(db)
    requires forall e :: e in db.entries <==> e == a || e == b || e == c || e == d
    requires b.zone == a.zone && c.zone == a.zone && d.zone != a.zone
    requires |{a, b, c}| == 3
    requires Bounds(m, a.record) && Bounds(m, b.record) && Bounds(m, c.record) && Bounds(m, d.record)
    ensures |Search(db, ZoneKey(a.zone), m)| == 3 && |Search(db, ZoneKey(d.zone), m)| == 1
  {
    SearchZoneSize(db, a.zone, m, {a, b, c});
    SearchZoneSize(db, d.zone, m, {d});
  }

  /** The entries of four insertions into an empty database. */
  lemma FourInserted(a: DomainZoneEntry, b: DomainZoneEntry, c: DomainZoneEntry, d: DomainZoneEntry)
    ensures forall e :: e in Insert(Insert(Insert(Insert(New(), a), b), c), d).entries <==> e == a || e == b || e == c || e == d
  {
  }

  /** The scenario's entries: three of `internetcomputer.tld.`, all
      different, and one of `canister.tld.`. */
  lemma ScenarioEntries()
    ensures ApexCnameEntry().zone == ApexEntry().zone && SubdomainEntry().zone == ApexEntry().zone
    ensures CanisterEntry().zone != ApexEntry().zone
    ensures |{ApexEntry(), ApexCnameEntry(), SubdomainEntry()}| == 3
    ensures CanisterEntry().zone == Zone("canister.tld.")
    ensures ApexEntry() == ZoneKey(ApexEntry().zone)
  {
    var a, b, c, d := ApexEntry(), ApexCnameEntry(), SubdomainEntry(), CanisterEntry();
    assert |a.zone.name| == 21 && |d.zone.name| == 13;
    assert |a.record.name| == 0 && |b.record.name| == 21 && |c.record.name| == 31;
    assert {a, b, c} == {a, b} + {c};
  }

  /** The repository's partial-match scenario: after inserting the default
      record and two `CNAME` records of `internetcomputer.tld.` and a `TXT`
      record of `canister.tld.`, searching from the first entry finds three
      entries and searching the other zone finds one. */
  lemma SearchPartialMatch(m: Maxima)
    requires Bounds(m, ApexCnameEntry().record)
    requires Bounds(m, SubdomainEntry().record)
    requires Bounds(m, CanisterEntry().record)
    ensures var db := Insert(Insert(Insert(Insert(New(), ApexEntry()), ApexCnameEntry()), SubdomainEntry()), CanisterEntry());
      |Search(db, ApexEntry(), m)| == 3 && |Search(db, ZoneKey(Zone("canister.tld.")), m)| == 1
  {
    assert Bounds(m, ApexEntry().record);
    ScenarioEntries();
    PartialMatch(m, ApexEntry(), ApexCnameEntry(), SubdomainEntry(), CanisterEntry());
  }
}
