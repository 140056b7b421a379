/** Structured validation errors. Errors compare by structural equality, as
    the Rust enums derive `Eq`; the numeric fields are byte lengths (`usize`). */
module ApexErrors {
  import opened Bytes

  /** Why a zone apex domain was rejected. */
  datatype ZoneApexDomainError =
    | NonEmptyDomain
    | NonEmptyLabel
    | DomainTooLong(domainNameLength: nat, maxDomainNameLength: nat)
    | DomainLabelTooLong(labelLength: nat, maxLabelLength: nat)
    | MissingEndWithDot
    | MisplacedHyphen
    | InvalidDomainNameLabel(invalidLabel: seq<byte>)
}

module RecordNameErrors {
  import opened Bytes

  /** Why a record name was rejected. */
  datatype RecordNameError =
    | NonEmptyName
    | NonEmptyLabel
    | InvalidEndWithDot
    | NameTooLong(nameLength: nat, maxNameLength: nat)
    | LabelTooLong(labelLength: nat, maxLabelLength: nat)
    | MisplacedHyphen
    | MisplacedUnderscore
    | InvalidNameLabel(invalidLabel: seq<byte>)
}
