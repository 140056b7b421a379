/** Domain records (`types/record.rs`): the four fields, their byte budgets,
    and the validity the field documentation promises but the code leaves to
    its callers. The name is a plain string in the repository's own schema
    and a validated record name in the typed schema, so the record is generic
    in it. */
module Records {
  import opened Bytes
  import opened Ascii
  import opened Orders
  import RecordTypes

  /** A record: its name, its type (`CID`, `A`, `NC`, ...), its time to live
      in seconds (0 means not cached) and its type-specific data. */
  datatype DomainRecord<N> = DomainRecord(name: N, record_type: seq<byte>, ttl: u32, data: seq<byte>)

  // Byte budgets of the fields in stable memory.
  const FIELD_NAME: nat := 255
  const FIELD_RECORD_TYPE: nat := 12
  const FIELD_TTL: nat := 4
  const FIELD_DATA: nat := 2550

  /** The largest stored record. */
  const MAX_SIZE: nat := FIELD_NAME + FIELD_RECORD_TYPE + FIELD_TTL + FIELD_DATA

  /** `BoundedStorable::MAX_SIZE` of a record. */
  const STORABLE_MAX_SIZE: nat := MAX_SIZE

  /** A record type is in its canonical form when it has no lower-case
      letter. */
  predicate IsCanonicalType(t: seq<byte>) {
    forall i :: 0 <= i < |t| ==> !IsLower(t[i])
  }

  /** What the field documentation asks of a stored record: a canonical type
      of at most 12 bytes other than the lookup-only `ANY`, and at most 2550
      bytes of data. */
  predicate IsDocumented<N>(r: DomainRecord<N>) {
    && |r.record_type| <= FIELD_RECORD_TYPE
    && IsCanonicalType(r.record_type)
    && r.record_type != RecordTypes.AnyType()
    && |r.data| <= FIELD_DATA
  }

  /** The type names of the record-type enum are documented record types. */
  lemma DisplayedTypesAreDocumented<N>(r: DomainRecord<N>, t: RecordTypes.DomainRecordTypes)
    requires r.record_type == RecordTypes.Display(t) && |r.data| <= FIELD_DATA
    ensures IsDocumented(r)
  {
    RecordTypes.DisplayIsNotAny(t);
  }

  /** Bytes the fields of a string-schema record occupy. */
  function FieldBytes(r: DomainRecord<seq<byte>>): nat {
    |r.name| + |r.record_type| + FIELD_TTL + |r.data|
  }

  /** A documented record whose name fits its budget fits the storage bound,
      which is 2821 bytes. */
  lemma DocumentedRecordFits(r: DomainRecord<seq<byte>>)
    requires |r.name| <= FIELD_NAME && IsDocumented(r)
    ensures FieldBytes(r) <= STORABLE_MAX_SIZE
    ensures STORABLE_MAX_SIZE == 2821
  {
  }

  /** The derived order of the typed record: name, then type, then TTL,
      then data. */
  function CmpRecord<N>(cmpName: (N, N) -> Ordering, a: DomainRecord<N>, b: DomainRecord<N>): Ordering {
    cmpName(a.name, b.name)
      .Then(CmpBytes(a.record_type, b.record_type))
      .Then(CmpInt(a.ttl as int, b.ttl as int))
      .Then(CmpBytes(a.data, b.data))
  }

  /** The record order is a total order whenever the name order is. */
  lemma RecordTotalOrder<N(!new)>(cmpName: (N, N) -> Ordering)
    requires IsTotalOrder(cmpName)
    ensures IsTotalOrder((a: DomainRecord<N>, b: DomainRecord<N>) => CmpRecord(cmpName, a, b))
  {
    BytesTotalOrder();
    IntTotalOrder();
    var cmp := (a: DomainRecord<N>, b: DomainRecord<N>) => CmpRecord(cmpName, a, b);
    forall a: DomainRecord<N>, b: DomainRecord<N> ensures cmp(a, b) == Equal <==> a == b {
      assert cmpName(a.name, b.name) == Equal <==> a.name == b.name;
      assert CmpBytes(a.record_type, b.record_type) == Equal <==> a.record_type == b.record_type;
      assert CmpBytes(a.data, b.data) == Equal <==> a.data == b.data;
    }
    forall a: DomainRecord<N>, b: DomainRecord<N> ensures cmp(b, a) == cmp(a, b).Reverse() {
      assert cmpName(b.name, a.name) == cmpName(a.name, b.name).Reverse();
      assert CmpBytes(b.record_type, a.record_type) == CmpBytes(a.record_type, b.record_type).Reverse();
      assert CmpBytes(b.data, a.data) == CmpBytes(a.data, b.data).Reverse();
    }
    forall a: DomainRecord<N>, b: DomainRecord<N>, c: DomainRecord<N> | cmp(a, b) == Less && cmp(b, c) == Less
      ensures cmp(a, c) == Less
    {
      RecordTrans(cmpName, a, b, c);
    }
  }

  lemma RecordTrans<N(!new)>(cmpName: (N, N) -> Ordering, a: DomainRecord<N>, b: DomainRecord<N>, c: DomainRecord<N>)
    requires IsTotalOrder(cmpName) && IsTotalOrder(CmpBytes) && IsTotalOrder(CmpInt)
    requires CmpRecord(cmpName, a, b) == Less && CmpRecord(cmpName, b, c) == Less
    ensures CmpRecord(cmpName, a, c) == Less
  {
    if cmpName(a.name, b.name) == Equal && cmpName(b.name, c.name) == Equal {
      assert a.name == b.name == c.name;
      if CmpBytes(a.record_type, b.record_type) == Equal && CmpBytes(b.record_type, c.record_type) == Equal {
        assert a.record_type == b.record_type == c.record_type;
        if CmpInt(a.ttl as int, b.ttl as int) == Equal && CmpInt(b.ttl as int, c.ttl as int) == Equal {
          assert a.ttl == b.ttl == c.ttl;
        }
      }
    }
  }
}
