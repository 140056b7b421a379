/** The record types a domain record can carry (`types/record_type.rs`) and
    their textual form. */
module RecordTypes {
  import opened Bytes
  import opened Wrappers
  import opened Ascii

  datatype DomainRecordTypes = A | AAAA | CID | CNAME | MX | NC | NS | TXT

  /** Byte budget of a record type string in a stored record. */
  const RECORD_TYPE_BUDGET: nat := 12

  /** `"ANY"`, reserved for lookups that ask for every record of a domain. */
  function AnyType(): seq<byte> {
    Str("ANY")
  }

  /** `Display for DomainRecordTypes`: the upper-case name of the variant.
      Every form is non-empty, fits the record-type budget and is upper-case
      ASCII, the canonical form of a record type. */
  function Display(t: DomainRecordTypes): (r: seq<byte>)
    ensures 1 <= |r| <= RECORD_TYPE_BUDGET
    ensures forall i :: 0 <= i < |r| ==> IsUpper(r[i])
  {
    match t
    case A => Str("A")
    case AAAA => Str("AAAA")
    case CID => Str("CID")
    case CNAME => Str("CNAME")
    case MX => Str("MX")
    case NC => Str("NC")
    case NS => Str("NS")
    case TXT => Str("TXT")
  }

  /** Reading a record type back from its textual form. */
  function Parse(s: seq<byte>): (r: Option<DomainRecordTypes>)
    ensures r.Some? ==> Display(r.value) == s
  {
    if s == Str("A") then Some(A)
    else if s == Str("AAAA") then Some(AAAA)
    else if s == Str("CID") then Some(CID)
    else if s == Str("CNAME") then Some(CNAME)
    else if s == Str("MX") then Some(MX)
    else if s == Str("NC") then Some(NC)
    else if s == Str("NS") then Some(NS)
    else if s == Str("TXT") then Some(TXT)
    else None
  }

  /** Every displayed form reads back as its own variant. */
  lemma ParseDisplay(t: DomainRecordTypes)
    ensures Parse(Display(t)) == Some(t)
  {
    var a, aaaa, cid, cname := Str("A"), Str("AAAA"), Str("CID"), Str("CNAME");
    var mx, nc, ns, txt := Str("MX"), Str("NC"), Str("NS"), Str("TXT");
    assert mx[0] != nc[0] && nc[1] != ns[1] && mx[0] != ns[0];
    assert cid[0] != txt[0];
  }

  /** No two variants share a textual form. */
  lemma DisplayInjective(t: DomainRecordTypes, u: DomainRecordTypes)
    ensures Display(t) == Display(u) <==> t == u
  {
    ParseDisplay(t);
    ParseDisplay(u);
  }

  /** The reserved lookup type is not a storable record type. */
  lemma DisplayIsNotAny(t: DomainRecordTypes)
    ensures Display(t) != AnyType()
  {
    ParseDisplay(t);
    var any := AnyType();
    assert any[0] == 0x41 && |any| == 3;
  }

  /** The listed textual forms, variant by variant. */
  lemma DisplayTable()
    ensures Display(A) == Str("A") && Display(AAAA) == Str("AAAA")
    ensures Display(CID) == Str("CID") && Display(CNAME) == Str("CNAME")
    ensures Display(MX) == Str("MX") && Display(NC) == Str("NC")
    ensures Display(NS) == Str("NS") && Display(TXT) == Str("TXT")
  {
  }
}
