/** Principals (canister and subnet ids) and their textual encoding, which
    both client libraries use. The encoding itself (a checksummed base-32
    text) is not part of this model: parsing and printing are a pair of
    functions supplied by the caller. */
module Principals {
  import opened Wrappers

  /** A principal, known by its raw bytes. */
  datatype Principal = Principal(raw: seq<int>)

  /** `Principal::from_text` / `Principal.fromText` (partial: malformed text
      has no principal) and `to_string` / `toText`. */
  datatype Codec = Codec(fromText: string -> Option<Principal>, toText: Principal -> string)
}
