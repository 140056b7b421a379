/** The fluent record builder (`builders/record.rs`). Each setter consumes
    the builder and returns it with one field replaced; `build` turns it into
    a typed record. */
module RecordBuilder {
  import opened Bytes
  import opened Ascii
  import opened RecordNames
  import opened Records
  import ZoneApex

  datatype DomainRecordBuilder = DomainRecordBuilder(name: RecordName, record_type: seq<byte>, ttl: u32, data: seq<byte>) {

    /** Sets the name, overwriting any earlier one. */
    function Name(n: RecordName): DomainRecordBuilder {
      this.(name := n)
    }

    /** Sets the record type, overwriting any earlier one. */
    function RecordType(t: seq<byte>): DomainRecordBuilder {
      this.(record_type := t)
    }

    /** Sets the TTL, overwriting any earlier one. */
    function Ttl(t: u32): DomainRecordBuilder {
      this.(ttl := t)
    }

    /** Sets the data, overwriting any earlier one. */
    function Data(d: seq<byte>): DomainRecordBuilder {
      this.(data := d)
    }

    /** Consumes the builder: every field as last set, or as defaulted. */
    function Build(): DomainRecord<RecordName> {
      DomainRecord(name, record_type, ttl, data)
    }
  }

  /** `DomainRecordBuilder::new()`, the derived default: the apex record
      name `@`, which every apex accepts, an empty type, TTL 0 (not cached)
      and empty data. */
  function New(): (b: DomainRecordBuilder)
    ensures |b.name.name| == 1 && b.name.name[0] == AT
    ensures forall apex: ZoneApex.ZoneApexDomain :: Validate(b.name.name, apex).Pass?
    ensures |b.record_type| == 0 && b.ttl == 0 && |b.data| == 0
  {
    DomainRecordBuilder(Default(), [], 0, [])
  }

  /** Each setter replaces its own field and leaves the other three as they
      were. */
  lemma SettersTouchOneField(b: DomainRecordBuilder, n: RecordName, t: seq<byte>, ttl: u32, d: seq<byte>)
    ensures b.Name(n).name == n && b.Name(n).record_type == b.record_type
      && b.Name(n).ttl == b.ttl && b.Name(n).data == b.data
    ensures b.RecordType(t).record_type == t && b.RecordType(t).name == b.name
      && b.RecordType(t).ttl == b.ttl && b.RecordType(t).data == b.data
    ensures b.Ttl(ttl).ttl == ttl && b.Ttl(ttl).name == b.name
      && b.Ttl(ttl).record_type == b.record_type && b.Ttl(ttl).data == b.data
    ensures b.Data(d).data == d && b.Data(d).name == b.name
      && b.Data(d).record_type == b.record_type && b.Data(d).ttl == b.ttl
  {
  }

  /** Setting a field twice keeps the last value. */
  lemma LastWriteWins(b: DomainRecordBuilder, n1: RecordName, n2: RecordName, t1: seq<byte>, t2: seq<byte>,
                      ttl1: u32, ttl2: u32, d1: seq<byte>, d2: seq<byte>)
    ensures b.Name(n1).Name(n2) == b.Name(n2)
    ensures b.RecordType(t1).RecordType(t2) == b.RecordType(t2)
    ensures b.Ttl(ttl1).Ttl(ttl2) == b.Ttl(ttl2)
    ensures b.Data(d1).Data(d2) == b.Data(d2)
  {
  }

  /** Setters of different fields commute. */
  lemma SettersCommute(b: DomainRecordBuilder, n: RecordName, t: seq<byte>, ttl: u32, d: seq<byte>)
    ensures b.Name(n).RecordType(t) == b.RecordType(t).Name(n)
    ensures b.Name(n).Ttl(ttl) == b.Ttl(ttl).Name(n)
    ensures b.Name(n).Data(d) == b.Data(d).Name(n)
    ensures b.RecordType(t).Ttl(ttl) == b.Ttl(ttl).RecordType(t)
    ensures b.RecordType(t).Data(d) == b.Data(d).RecordType(t)
    ensures b.Ttl(ttl).Data(d) == b.Data(d).Ttl(ttl)
  {
  }

  /** `build` copies every field verbatim: setting all four fields of a
      record on a fresh builder and building gives that record back. */
  lemma BuildRoundTrip(r: DomainRecord<RecordName>)
    ensures New().Name(r.name).RecordType(r.record_type).Ttl(r.ttl).Data(r.data).Build() == r
  {
  }

  /** A builder on which nothing was set builds the default record. */
  lemma BuildDefaults()
    ensures New().Build() == DomainRecord(Default(), [], 0, [])
  {
  }
}
