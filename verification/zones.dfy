/** Domain zones (`types/zone.rs`): a zone is identified by its name, and
    compares and equals exactly as that name does. The name is a plain
    string in the repository's own schema and a validated apex domain in the
    typed schema, so the zone is generic in it. */
module Zones {
  import opened Bytes
  import opened Orders

  datatype DomainZone<N> = DomainZone(name: N)

  /** Byte budget of a zone name in stable memory. */
  const FIELD_NAME: nat := 255

  /** `BoundedStorable::MAX_SIZE` of a zone: its name alone. */
  const MAX_SIZE: nat := FIELD_NAME

  /** The derived order: that of the one field. */
  function CmpZone<N>(cmpName: (N, N) -> Ordering, a: DomainZone<N>, b: DomainZone<N>): Ordering {
    cmpName(a.name, b.name)
  }

  /** The zone order is a total order whenever the name order is, and zones
      are equal exactly when their names are. */
  lemma ZoneTotalOrder<N(!new)>(cmpName: (N, N) -> Ordering)
    requires IsTotalOrder(cmpName)
    ensures IsTotalOrder((a: DomainZone<N>, b: DomainZone<N>) => CmpZone(cmpName, a, b))
    ensures forall a: DomainZone<N>, b: DomainZone<N> :: a == b <==> a.name == b.name
  {
  }

  /** `DomainZone::default()`: the zone with the empty name. */
  function Default(): (z: DomainZone<seq<byte>>)
    ensures |z.name| == 0
  {
    DomainZone([])
  }

  /** The default zone is the least zone of the string schema. */
  lemma DefaultIsLeast(z: DomainZone<seq<byte>>)
    ensures Le((a: DomainZone<seq<byte>>, b: DomainZone<seq<byte>>) => CmpZone(CmpBytes, a, b), Default(), z)
    ensures CmpZone(CmpBytes, Default(), z) == Equal <==> z == Default()
  {
    CmpBytesEqual(Default().name, z.name);
  }
}
