# CNS name registry, modelled in Dafny

The model covers the Chain Name System (CNS), a naming service for Internet Computer canisters. It has four layers:

- **Name grammar.** Zone apex domains such as `internetcomputer.tld.` and record names relative to an apex such as `_wiki` or `@` are validated byte by byte. Each check reports a structured error, and the checks run in the order the code runs them. The grammar is built on the length and character constants and on the greatest domain name, `MAX_DOMAIN_NAME`. It also defines the bounds `min_value` and `max_value` that range searches use.
- **Value types and range keys.** These are records, zones and record types, and the record builder. Zone entries are (zone, record) pairs ordered by the derived `Ord`. Two functions turn a partial search input into the inclusive lower and upper keys of a range. Two schemas exist and are kept apart:
  - the registry canister's typed schema, whose names are validated (`ZoneEntries`);
  - the registry package's string schema, with optional TTL and data (`PackageZoneEntries`, `ZoneRepository`).
- **Repository.** A stable `BTreeMap<Entry, ()>` used as a set, with exists/get, insert, remove and an inclusive range search. It is modelled once as a strictly increasing sequence over any total order (`OrderedSets`, `Repositories`) and instantiated for both schemas.
- **Clients.**
  - The Rust client library resolves a domain by asking the root canister for its naming canister (`NC`), then asking that canister for the wanted record (`CID`, `SID`, `PTR`). It also registers domains.
  - The JavaScript client caches naming canisters and canister ids, and maps its request and response shapes to and from Candid.

Strings of the registry are byte sequences (`seq<byte>`), because every length limit in the code is a byte length. Rust's `Ord` on strings is byte-lexicographic order (`Orders.CmpBytes`). The client layers use `string`.

Three things are parameters of the model:
- inter-canister calls and the JavaScript client's remote lookups are oracles (`CanisterClient.Network`, `JsClient.Network`);
- the textual encoding of principals is a pair of functions (`Principals.Codec`);
- the greatest record type, TTL and data of `DomainRecord` are a parameter (`Maxima`), because their definitions are not part of this model.

Module map:

| module | file | models |
|---|---|---|
| `Bytes`, `Ascii` | bytes.dfy, ascii.dfy | bytes, ASCII classes, `to_ascii_lowercase`, `repeat_char`, `matches().count()` |
| `Labels` | labels.dfy | `split('.')`, `join`, `trim_end_matches`, the left-to-right label scan |
| `Orders` | orders.dfy | `Ordering`, byte-lexicographic order, derived `Ord` of options and structs |
| `Constants` | constants.dfy | `common/constants.rs`, `utils/domain_name.rs` |
| `ApexErrors`, `RecordNameErrors` | errors.dfy | the two error enums |
| `ZoneApex` | apex.dfy | `ZoneApexDomain` |
| `RecordNames` | record_name.dfy | `RecordName::validate`, `new`, `default` |
| `RecordNameBounds` | record_name_bounds.dfy | `RecordName::max_value`, `min_value` and the corrected bounds |
| `RecordTypes`, `Records`, `Zones` | record_types.dfy, records.dfy, zones.dfy | `DomainRecordTypes`, `DomainRecord`, `DomainZone` |
| `RecordBuilder` | builder.dfy | `DomainRecordBuilder` |
| `OrderedSets`, `Repositories` | ordered_sets.dfy, repositories.dfy | the set-like B-tree and the repository traits |
| `ZoneEntries` | zone_entries.dfy | the canister's `DomainZoneEntry` and its range keys |
| `PackageZoneEntries`, `ZoneRepository` | package_zone_entries.dfy, zone_repository.dfy | the package's `DomainZoneEntry` and `DomainZoneRepository` |
| `Principals`, `CanisterClient` | principals.dfy, canister_client.dfy | `ic-cns-canister-client` |
| `JsUtils`, `JsMappings`, `JsClient` | js_utils.dfy, js_mappings.dfy, js_client.dfy | `utils.ts`, `cns-root-mappings.ts`, `cns-client.ts` |

## Model

| member | source | states |
|---|---|---|
| Constants.AcceptedBytesAtMostMaxChar | canisters/name-registry/src/common/constants.rs:7-8 | every byte a name may hold (`[0-9A-Za-z._-]`) is at most the maximum character `z`, and only `z` reaches it |
| Constants.BuildMaxDomainName | canisters/name-registry/src/common/constants.rs:14-27 | the dot-placing loop yields 255 bytes that are `z` except for dots at exactly the indices 62, 126, 190 and 254; the result equals the closed form `MaxDomainName` |
| Constants.MaxDomainName | canisters/name-registry/src/utils/domain_name.rs:4-6 | the greatest domain name is 255 bytes of `z` and `.`, ending with the dot |
| Constants.MaxDomainLabelString | canisters/name-registry/src/utils/domain_name.rs:9-11 | the greatest label is 63 bytes, all `z` |
| Constants.MaxDomainNameLabels | canisters/name-registry/src/common/constants.rs:14-27 | the greatest name is four `z` labels of 62, 63, 63 and 63 bytes, each followed by a dot |
| Constants.SegmentOfMaxDomainName | canisters/name-registry/src/common/constants.rs:21-24 | each label-sized slice of the greatest name is `z`s followed by one dot |
| Ascii.Repeat | canisters/name-registry/src/utils/domain_name.rs:14-16 | `repeat_char(c, n)` has length `n` and every byte is `c` |
| Ascii.Lower | packages/cns-name-registry/src/types/record_name.rs:29 | ASCII lowercasing keeps the length and changes only `A`..`Z`, each to its lower-case letter |
| Ascii.LowerIdempotent | packages/cns-name-registry/src/types/record_name.rs:29 | lowercasing twice is lowercasing once |
| Ascii.LowerHasNoUpper | packages/cns-name-registry/src/types/record_name.rs:29 | a lowercased string holds no upper-case letter |
| Ascii.LowerOfNoUpper | packages/cns-name-registry/src/types/record_name.rs:29 | a string without upper-case letters is its own lowercase form |
| Ascii.EqIgnoreCaseAt | packages/cns-name-registry/src/types/record_name.rs:53-55 | comparing with `@` ignoring ASCII case is plain equality with `@` |
| Ascii.Count | packages/cns-name-registry/src/types/record_name.rs:92-96 | `matches(c).count()` is at most the length, and zero exactly when `c` does not occur |
| Ascii.CountAtMostOneInFront | packages/cns-name-registry/src/types/record_name.rs:92-96 | in a non-empty string with at most one `_`, which is the first byte when present, every `_` is at index 0 |
| Labels.Split | packages/cns-name-registry/src/types/zone_apex_domain.rs:52-53 | `split('.')` always yields at least one piece, even for the empty string |
| Labels.JoinSplit | packages/cns-name-registry/src/types/zone_apex_domain.rs:52-53 | joining the pieces of a split gives the original string |
| Labels.SplitJoin | packages/cns-name-registry/src/types/zone_apex_domain.rs:52-53 | splitting joined pieces that hold no separator gives the pieces back |
| Labels.SplitTerminated | packages/cns-name-registry/src/types/zone_apex_domain.rs:48-53 | a name of labels, each followed by a dot, splits into those labels plus one trailing empty piece |
| Labels.SplitOfTerminated | packages/cns-name-registry/src/types/zone_apex_domain.rs:48-53 | a string ending in the separator is its split pieces (without the last, empty one), each followed by the separator |
| Labels.TrimEnd | packages/cns-name-registry/src/types/record_name.rs:122 | `trim_end_matches(c)` is a prefix of its input that does not end in `c`, followed in the input only by `c`s |
| Labels.SplitLower | packages/cns-name-registry/src/types/record_name.rs:29-57 | splitting a lowercased name gives the lowercased pieces of the name |
| Labels.FirstFailure | packages/cns-name-registry/src/types/zone_apex_domain.rs:52-74 | the label scan passes exactly when every piece passes; otherwise it reports the failure of the first failing piece, and every earlier piece passes |
| Orders.CmpBytesByFirstDifference | packages/cns-name-registry/src/types/zone.rs:9-13 | the byte order of `String` is decided by the first differing byte, and a proper prefix sorts first |
| Orders.BytesTotalOrder | packages/cns-name-registry/src/types/zone.rs:9-13 | the byte order is a total order: reflexive equality, antisymmetric and transitive |
| Orders.EmptyBytesLeast | packages/cns-name-registry/src/types/zone.rs:24-30 | the empty string sorts at or below every string |
| Orders.BoundedBytesLeMaxPrefix | canisters/name-registry/src/common/constants.rs:7-8 | a string whose bytes are at most `m` sorts at or below any string starting with as many `m`s |
| Orders.OptionTotalOrder | packages/cns-name-registry/src/types/zone_entry.rs:9-10 | the derived order on `Option<T>` is total when that on `T` is, and `None` sorts first |
| Orders.LexTotalOrder | packages/cns-name-registry/src/types/zone_entry.rs:9-10 | comparing two fields in turn, the first deciding unless equal, is a total order |
| ZoneApex.ValidateOrder | packages/cns-name-registry/src/types/zone_apex_domain.rs:36-50 | an empty name gives `NonEmptyDomain`, then a name over 255 bytes gives `DomainTooLong(len, 255)`, then a missing final dot gives `MissingEndWithDot`; the length check precedes the dot check |
| ZoneApex.ValidateByLabels | packages/cns-name-registry/src/types/zone_apex_domain.rs:52-74 | after the up-front checks, the labels before the last dot decide left to right, and the first failing label's error is the result |
| ZoneApex.CheckLabelPasses | packages/cns-name-registry/src/types/zone_apex_domain.rs:54-73 | one label passes exactly when it has 1 to 63 bytes of letters, digits and `-`, and neither starts nor ends with `-` |
| ZoneApex.ValidateAcceptsApexNames | packages/cns-name-registry/src/types/zone_apex_domain.rs:24-77 | the validator accepts exactly the apex grammar: labels of 1 to 63 letters, digits and inner hyphens, each followed by a dot, at most 255 bytes; `new` succeeds on exactly those names and keeps them unchanged |
| ZoneApex.AcceptedNameBytes | packages/cns-name-registry/src/types/zone_apex_domain.rs:65-69 | an accepted apex holds only letters, digits, `-` and `.`, so never `_`, and no byte above `z` |
| ZoneApex.AcceptedNameEnds | packages/cns-name-registry/src/types/zone_apex_domain.rs:48-56 | an accepted apex has at least two bytes, starts with a letter or digit and ends with the dot |
| ZoneApex.ValidateIgnoresCase | packages/cns-name-registry/src/types/zone_apex_domain.rs:36-77 | a name is accepted exactly when its lowercase form is |
| ZoneApex.New | packages/cns-name-registry/src/types/zone_apex_domain.rs:24-28 | on success `new` stores the name unchanged, without lowercasing it |
| ZoneApex.Default | packages/cns-name-registry/src/types/zone_apex_domain.rs:80-84 | the default apex is the root `.`, which `new` itself rejects with `NonEmptyLabel` |
| ZoneApex.NewKeepsCase | packages/cns-name-registry/src/types/zone_apex_domain.rs:14-28 | `new` accepts `A.` and `a.` as two different apex domains |
| ZoneApex.NewCanonicalIsLowercase | packages/cns-name-registry/src/types/zone_apex_domain.rs:14-28 | the lowercasing constructor succeeds exactly where `new` does, and stores a lowercase name that is the same for every spelling |
| ZoneApex.NewCanonicalIgnoresCase | packages/cns-name-registry/src/types/zone_apex_domain.rs:14-28 | names that differ only in case give the same canonical apex |
| ZoneApex.MaxDomainNamePasses | packages/cns-name-registry/src/types/zone_apex_domain.rs:114 | the greatest domain name is a valid apex |
| ZoneApex.ApexValidationPasses | packages/cns-name-registry/src/types/zone_apex_domain.rs:110-119 | the accepted cases of the unit tests validate |
| ZoneApex.ApexValidationFailures | packages/cns-name-registry/src/types/zone_apex_domain.rs:121-138 | the rejected cases of the unit tests fail with the listed errors |
| ZoneApex.UnderscoreFails | packages/cns-name-registry/src/types/zone_apex_domain.rs:128 | an apex label holding `_` is rejected with `InvalidDomainNameLabel` carrying the label |
| RecordNames.ValidateOrder | packages/cns-name-registry/src/types/record_name.rs:44-55 | an empty name gives `NonEmptyName`, then a trailing dot gives `InvalidEndWithDot`, then `@` passes with no further check |
| RecordNames.ValidateByLabels | packages/cns-name-registry/src/types/record_name.rs:57-96 | for other names the labels decide first, left to right; once they pass, a qualified name over 255 bytes gives `NameTooLong` with that length, then a misplaced `_` gives `MisplacedUnderscore` |
| RecordNames.CheckRecordLabelPasses | packages/cns-name-registry/src/types/record_name.rs:57-81 | one label passes exactly when it has 1 to 63 bytes of letters, digits, `-` and `_`, and neither starts nor ends with `-` |
| RecordNames.LabelLoopErrors | packages/cns-name-registry/src/types/record_name.rs:57-81 | the label loop reports only label errors |
| RecordNames.UnderscoreCheck | packages/cns-name-registry/src/types/record_name.rs:92-96 | the underscore check passes exactly when every `_` is the first byte of the qualified name |
| RecordNames.FullyQualified | packages/cns-name-registry/src/types/record_name.rs:84-90 | the qualified name is the name, a dot and the apex, so its length is the sum plus one |
| RecordNames.ValidateAcceptsRecordNames | packages/cns-name-registry/src/types/record_name.rs:40-99 | the validator accepts exactly `@` and names of valid labels whose qualified form fits 255 bytes and holds `_` only as its first byte |
| RecordNames.AcceptedNameShape | packages/cns-name-registry/src/types/record_name.rs:57-96 | an accepted name other than `@` holds only letters, digits, `-`, `_` and `.`; at most one `_`, in front; every piece has 1 to 63 bytes; the qualified name fits |
| RecordNames.ValidateBoundsLength | packages/cns-name-registry/src/types/record_name.rs:84-90 | whatever the apex, an accepted name is `@` or its qualified form fits 255 bytes |
| RecordNames.New | packages/cns-name-registry/src/types/record_name.rs:28-33 | on success `new` stores the lowercased name |
| RecordNames.NewAcceptsRecordNames | packages/cns-name-registry/src/types/record_name.rs:28-33 | `new` succeeds exactly on names whose lowercase form is in the grammar, and otherwise reports the validator's error |
| RecordNames.NewIsCanonical | packages/cns-name-registry/src/types/record_name.rs:28-33 | a stored name is lowercase, and `new` applied to it gives it back |
| RecordNames.NewOfLowercase | packages/cns-name-registry/src/types/record_name.rs:28-33 | on a name with no upper-case letter, `new` returns the validator's verdict and keeps the name as given |
| RecordNames.NewIgnoresCase | packages/cns-name-registry/src/types/record_name.rs:28-33 | names that differ only in ASCII case give the same result |
| RecordNames.Default | packages/cns-name-registry/src/types/record_name.rs:131-136 | the default record name is `@`, which every apex accepts |
| RecordNames.WikiPasses | packages/cns-name-registry/src/types/record_name.rs:161-172 | under `internetcomputer.tld.`, `new` accepts `wiki` and stores it unchanged |
| RecordNames.SubdomainWikiPasses | packages/cns-name-registry/src/types/record_name.rs:161-172 | under `internetcomputer.tld.`, `new` accepts `subdomain.wiki` and stores it unchanged |
| RecordNames.HyphenInsidePasses | packages/cns-name-registry/src/types/record_name.rs:161-172 | under `internetcomputer.tld.`, `new` accepts `subdomain-wiki` and stores it unchanged |
| RecordNames.LeadingUnderscorePasses | packages/cns-name-registry/src/types/record_name.rs:161-172 | under `internetcomputer.tld.`, `new` accepts `_canister`, with its leading `_`, and stores it unchanged |
| RecordNames.ApexRecordPasses | packages/cns-name-registry/src/types/record_name.rs:161-172 | under `internetcomputer.tld.`, `new` accepts `@` and stores it unchanged |
| RecordNames.EmptyNameFails | packages/cns-name-registry/src/types/record_name.rs:174-192 | under `internetcomputer.tld.`, `new` rejects `""` with `NonEmptyName` |
| RecordNames.EmptyFirstLabelFails | packages/cns-name-registry/src/types/record_name.rs:174-192 | under `internetcomputer.tld.`, `new` rejects `.subdomain` with `NonEmptyLabel` |
| RecordNames.LeadingHyphenFails | packages/cns-name-registry/src/types/record_name.rs:174-192 | under `internetcomputer.tld.`, `new` rejects `-domain` with `MisplacedHyphen` |
| RecordNames.TrailingHyphenFails | packages/cns-name-registry/src/types/record_name.rs:174-192 | under `internetcomputer.tld.`, `new` rejects `domain-` with `MisplacedHyphen` |
| RecordNames.TrailingUnderscoreFails | packages/cns-name-registry/src/types/record_name.rs:174-192 | under `internetcomputer.tld.`, `new` rejects `domain_` with `MisplacedUnderscore` |
| RecordNames.InnerUnderscoreFails | packages/cns-name-registry/src/types/record_name.rs:174-192 | under `internetcomputer.tld.`, `new` rejects `domain_another` with `MisplacedUnderscore` |
| RecordNames.SecondLabelUnderscoreFails | packages/cns-name-registry/src/types/record_name.rs:174-192 | under `internetcomputer.tld.`, `new` rejects `domain._another`, whose second label starts with `_`, with `MisplacedUnderscore` |
| RecordNameBounds.MaxValueAsWritten | packages/cns-name-registry/src/types/record_name.rs:101-123 | `max_value` as written is undefined (an underflow) exactly when the apex length `L` reaches 255, and is `@` when the budget `255 - L - 1` is zero |
| RecordNameBounds.MaxValueAsWrittenIsLaidOut | packages/cns-name-registry/src/types/record_name.rs:110-122 | with a budget, the loop and trim build one full `z` label per 63 bytes and the remainder as the last label, with no trailing dot |
| RecordNameBounds.MaxValueAsWrittenIsUpperBound | packages/cns-name-registry/src/types/record_name.rs:101-123 | where defined, `max_value` as written sorts at or above every accepted record name under the apex |
| RecordNameBounds.MaxValueAsWrittenTooLong | packages/cns-name-registry/src/types/record_name.rs:110-122 | under an apex of 190 bytes or fewer, `max_value` as written is refused by `new` with `NameTooLong` |
| RecordNameBounds.MaxValueAsWrittenUnderShortApex | packages/cns-name-registry/src/types/record_name.rs:110-122 | under `a.` it is four full labels and three dots, 258 bytes once qualified |
| RecordNameBounds.MaxValueAsWrittenUnderflows | packages/cns-name-registry/src/types/record_name.rs:103-104 | the greatest apex domain is accepted, yet `max_value` underflows on it |
| RecordNameBounds.MaxValue | packages/cns-name-registry/src/types/record_name.rs:101-123 | the corrected greatest name is `@` exactly when the apex leaves no room for a one-byte name, and otherwise its qualified form fits 255 bytes |
| RecordNameBounds.MaxValueAsWrittenBudget | packages/cns-name-registry/src/types/record_name.rs:103-122 | with room for a label, `max_value` as written is the `z` chain of one full label per 63 bytes of the budget `255 - L - 1` and the remainder last |
| RecordNameBounds.MaxChainTooLong | packages/cns-name-registry/src/types/record_name.rs:84-90 | a `z` chain whose qualified form exceeds 255 bytes is refused only for its length, with that length reported |
| RecordNameBounds.MaxValueIsFittingChain | packages/cns-name-registry/src/types/record_name.rs:101-123 | with room for a label, the corrected greatest name is the chain that fits the room with its dots: 64 bytes per full label and dot |
| RecordNameBounds.UpperBoundWithoutBudget | packages/cns-name-registry/src/types/record_name.rs:106-108 | under an apex of 254 bytes or more only `@` fits, and it is the greatest name |
| RecordNameBounds.MaxValueIsAccepted | packages/cns-name-registry/src/types/record_name.rs:101-123 | the corrected greatest name is accepted under every valid apex |
| RecordNameBounds.MaxValueIsUpperBound | packages/cns-name-registry/src/types/record_name.rs:101-123 | no accepted record name sorts above the corrected greatest name |
| RecordNameBounds.AcceptedNameIsBounded | packages/cns-name-registry/src/types/record_name.rs:57-90 | every accepted name has no byte above `z` and 1 to 63 bytes between dots |
| RecordNameBounds.BoundedNameLeMaxChain | packages/cns-name-registry/src/types/record_name.rs:110-122 | a bounded name no longer than a `z` chain sorts at or below it |
| RecordNameBounds.MaxChainIsAccepted | packages/cns-name-registry/src/types/record_name.rs:110-122 | a `z` chain whose qualified form fits is accepted under any apex, and `new` keeps it unchanged |
| RecordNameBounds.MinValueAsWritten | packages/cns-name-registry/src/types/record_name.rs:125-128 | `min_value` as written, `@`, is accepted under every apex |
| RecordNameBounds.MinValueAsWrittenIsNotLeast | packages/cns-name-registry/src/types/record_name.rs:125-128 | the name `0` is accepted and sorts below `@` |
| RecordNameBounds.MinValue | packages/cns-name-registry/src/types/record_name.rs:125-128 | the corrected least name is a single digit, `0` |
| RecordNameBounds.MinValueIsLowerBound | packages/cns-name-registry/src/types/record_name.rs:125-128 | no accepted record name sorts below `0` |
| RecordNameBounds.MinValueIsAccepted | packages/cns-name-registry/src/types/record_name.rs:125-128 | `0` is accepted under every valid apex that leaves room for a one-byte name |
| RecordNameBounds.AcceptedNameStart | packages/cns-name-registry/src/types/record_name.rs:57-81 | an accepted name other than `@` starts with a byte no lower than the digit `0` |
| RecordTypes.Display | canisters/name-registry/src/types/record_type.rs:16-29 | every displayed form has 1 to 12 bytes, all upper-case letters |
| RecordTypes.Parse | canisters/name-registry/src/types/record_type.rs:16-29 | a text reads as a variant only when that variant displays as exactly this text |
| RecordTypes.ParseDisplay | canisters/name-registry/src/types/record_type.rs:16-29 | every displayed form reads back as its variant |
| RecordTypes.DisplayInjective | canisters/name-registry/src/types/record_type.rs:16-29 | two variants share a displayed form only when they are equal |
| RecordTypes.DisplayIsNotAny | packages/cns-name-registry/src/types/record.rs:15-18 | no displayed form is the reserved lookup type `ANY` |
| RecordTypes.DisplayTable | canisters/name-registry/src/types/record_type.rs:35-45 | each variant displays as listed in the unit test |
| Records.DisplayedTypesAreDocumented | packages/cns-name-registry/src/types/record.rs:15-32 | a record whose type is a displayed record type and whose data fits 2550 bytes meets the documented field rules |
| Records.DocumentedRecordFits | packages/cns-name-registry/src/types/record.rs:36-63 | a documented record whose name fits 255 bytes fits the storage bound, which is 2821 bytes |
| Records.RecordTotalOrder | packages/cns-name-registry/src/types/record.rs:6-33 | the record order (name, type, TTL, data) is total whenever the name order is |
| Zones.ZoneTotalOrder | packages/cns-name-registry/src/types/zone.rs:9-13 | the zone order is total whenever the name order is, and zones are equal exactly when their names are |
| Zones.Default | packages/cns-name-registry/src/types/zone.rs:24-30 | the default zone has the empty name |
| Zones.DefaultIsLeast | packages/cns-name-registry/src/types/zone.rs:24-30 | the default zone is the least zone, and only it compares equal to itself |
| RecordBuilder.New | packages/cns-name-registry/src/builders/record.rs:7-25 | a new builder holds the name `@`, an empty type, TTL 0 and empty data |
| RecordBuilder.SettersTouchOneField | packages/cns-name-registry/src/builders/record.rs:29-53 | each setter replaces its own field and leaves the other three unchanged |
| RecordBuilder.LastWriteWins | packages/cns-name-registry/src/builders/record.rs:29-53 | setting a field twice keeps the last value |
| RecordBuilder.SettersCommute | packages/cns-name-registry/src/builders/record.rs:29-53 | setters of different fields commute |
| RecordBuilder.BuildRoundTrip | packages/cns-name-registry/src/builders/record.rs:57-64 | setting all four fields of a record on a new builder and building gives that record back |
| RecordBuilder.BuildDefaults | packages/cns-name-registry/src/builders/record.rs:7-25 | building from a new builder gives the default record |
| OrderedSets.Insert | packages/cns-name-registry/src/repositories/zone.rs:62-64 | insertion keeps the sequence strictly increasing and adds exactly the entry |
| OrderedSets.Remove | packages/cns-name-registry/src/repositories/zone.rs:66-73 | removal keeps the sequence strictly increasing and drops exactly the entry |
| OrderedSets.Range | packages/cns-name-registry/src/repositories/zone.rs:41-51 | the range `lo..=hi` holds exactly the stored entries between the bounds, in ascending order |
| OrderedSets.Contains | packages/cns-name-registry/src/repositories/zone.rs:53-60 | the binary search finds exactly the stored entries |
| OrderedSets.SortedUnique | packages/cns-name-registry/src/repositories/zone.rs:8-12 | two strictly increasing sequences with the same entries are equal, so a set has one representation |
| OrderedSets.SortedCardinality | packages/cns-name-registry/src/repositories/zone.rs:8-12 | a strictly increasing sequence holds each entry once |
| OrderedSets.InsertIdempotent | packages/cns-name-registry/src/repositories/zone.rs:62-64 | inserting twice is inserting once |
| OrderedSets.RemoveInsert | packages/cns-name-registry/src/repositories/zone.rs:62-73 | removing a freshly inserted entry restores the set |
| OrderedSets.InsertRemove | packages/cns-name-registry/src/repositories/zone.rs:62-73 | inserting a freshly removed entry restores the set |
| OrderedSets.RemoveAbsent | packages/cns-name-registry/src/repositories/zone.rs:66-73 | removing an absent entry changes nothing |
| Repositories.Empty | canisters/name-registry/src/repositories/setup.rs:25-35 | a new store holds nothing |
| Repositories.Exists | canisters/name-registry/src/repositories/setup.rs:27-28 | `exists` is true exactly for stored entries |
| Repositories.Get | packages/cns-name-registry/src/repositories/zone.rs:53-60 | `get` returns the entry itself exactly when it is stored |
| Repositories.Insert | canisters/name-registry/src/repositories/setup.rs:30-31 | after `insert` the entry is stored, and every other entry is stored exactly when it was before |
| Repositories.Remove | canisters/name-registry/src/repositories/setup.rs:33-34 | `remove` reports whether the entry was stored; afterwards it is not, and no other entry changes |
| Repositories.Search | canisters/name-registry/src/repositories/setup.rs:43-45 | `search` returns exactly the stored entries between the keys, in ascending order |
| Repositories.SearchBetween | canisters/name-registry/src/repositories/setup.rs:38-55 | when both keys map, the result is exactly the stored entries between them, in order; when a key fails, the first key error is carried in `Err` (the implementation that decides what follows is not part of this model; see Left out) |
| Repositories.InsertIdempotent | canisters/name-registry/src/repositories/setup.rs:30-31 | inserting twice is inserting once |
| Repositories.InsertThenRemove | canisters/name-registry/src/repositories/setup.rs:30-34 | removing a freshly inserted entry reports it and gives the store back |
| Repositories.RemoveThenInsert | canisters/name-registry/src/repositories/setup.rs:30-34 | inserting a freshly removed entry gives the store back |
| Repositories.RemoveAbsent | canisters/name-registry/src/repositories/setup.rs:33-34 | removing an absent entry reports `false` and changes nothing |
| Repositories.SearchEmpty | canisters/name-registry/src/repositories/setup.rs:43-45 | searching an empty store finds nothing |
| ZoneEntries.EntryTotalOrder | canisters/name-registry/src/types/zone_entry.rs:12-13 | the entry order (zone first, then the record fields in declaration order) is total |
| ZoneEntries.LowerApex | canisters/name-registry/src/types/zone_entry.rs:54-58 | the lower key's apex is the supplied zone validated, or the unvalidated root `.` when no zone is given |
| ZoneEntries.UpperApex | canisters/name-registry/src/types/zone_entry.rs:79-82 | the upper key's apex is the supplied zone validated, and without a zone it is always `NonEmptyLabel` |
| ZoneEntries.MapToLowerRangeKey | canisters/name-registry/src/types/zone_entry.rs:51-74 | the lower key fails exactly on an invalid supplied zone, with its error; otherwise it has that apex, the supplied fields (the name lowercased) and `@`, `""`, `0`, `""` for absent ones |
| ZoneEntries.MapToUpperRangeKey | canisters/name-registry/src/types/zone_entry.rs:76-100 | the upper key fails exactly when its apex does; otherwise it has that apex, the supplied fields and the greatest value of each absent one |
| ZoneEntries.Search | canisters/name-registry/src/repositories/setup.rs:43-55 | when both range keys map, the result is exactly the stored entries between them; a failing key is carried in `Err` |
| ZoneEntries.KeysShareSuppliedFields | canisters/name-registry/src/types/zone_entry.rs:60-98 | a supplied zone and every supplied record field appear identically in both keys |
| ZoneEntries.ZoneConfinement | canisters/name-registry/src/types/zone_entry.rs:54-98 | with a zone supplied, every entry a search returns is in that zone |
| ZoneEntries.SearchWithoutZoneFails | canisters/name-registry/src/types/zone_entry.rs:79-82 | without a zone the lower key maps, but the upper key fails with `NonEmptyLabel` for every input, so the modelled search carries that error and returns no entries |
| ZoneEntries.WholeZoneSearchMissesDigitNames | canisters/name-registry/src/types/zone_entry.rs:65-67 | the valid record `0` of a zone sorts below the lower key of a whole-zone search of that zone |
| ZoneEntries.EmptyNameAborts | canisters/name-registry/src/types/zone_entry.rs:66 | the empty record name is rejected under the valid apex `internetcomputer.tld.`, so the lower key's `unwrap` aborts on it |
| ZoneEntries.UpperSentinel | canisters/name-registry/src/types/zone_entry.rs:79-82 | the corrected zone bound without a zone: 255 bytes of `z` |
| ZoneEntries.CheckedLowerKey | canisters/name-registry/src/types/zone_entry.rs:51-74 | the corrected lower key fails on an invalid zone with its error, and otherwise has that apex |
| ZoneEntries.CheckedUpperKey | canisters/name-registry/src/types/zone_entry.rs:76-100 | the corrected upper key fails on an invalid zone with its error; it has the supplied apex, or the sentinel without a zone |
| ZoneEntries.CheckedSearch | canisters/name-registry/src/repositories/setup.rs:43-55 | a search through the corrected keys fails when either key fails, and otherwise returns exactly the stored entries between them |
| ZoneEntries.CheckedKeysReportInvalidNames | canisters/name-registry/src/types/zone_entry.rs:64-92 | a rejected supplied record name makes both corrected keys fail with the validator's error |
| ZoneEntries.CheckedKeysAgree | canisters/name-registry/src/types/zone_entry.rs:51-100 | where the keys as written are defined and a record name is supplied, the corrected keys are the same |
| ZoneEntries.BetweenZoneKeys | canisters/name-registry/src/types/zone_entry.rs:12-13 | an entry of the keys' zone lies between a lower key with the least type, TTL and data and an upper key that bounds its fields, when its name lies between the key names |
| ZoneEntries.CheckedSearchCoversZone | canisters/name-registry/src/types/zone_entry.rs:51-100 | a whole-zone search through the corrected keys returns every stored valid entry of the zone that the greatest values bound, and nothing of another zone |
| ZoneEntries.CheckedSearchWithoutZoneCoversAll | canisters/name-registry/src/types/zone_entry.rs:51-100 | a corrected search naming neither a zone nor a record name succeeds and returns every stored valid entry |
| ZoneEntries.ApexBetweenRootAndSentinel | packages/cns-name-registry/src/types/zone_apex_domain.rs:36-84 | every valid apex sorts strictly between the root `.` and the sentinel |
| PackageZoneEntries.DefaultRecord | packages/cns-name-registry/src/types/zone_entry.rs:13-38 | the default record sorts at or below every record |
| PackageZoneEntries.RecordTotalOrder | packages/cns-name-registry/src/types/zone_entry.rs:9-10 | the derived record order is total |
| PackageZoneEntries.EntryTotalOrder | packages/cns-name-registry/src/types/zone_entry.rs:9-10 | the derived entry order, zone first, is total |
| PackageZoneEntries.DefaultUpperRangeKey | packages/cns-name-registry/src/types/zone_entry.rs:13-38 | the upper key keeps the zone and has a TTL and data present, and a non-empty name and type unless the greatest ones are empty |
| PackageZoneEntries.UpperKeyAtLeastKey | packages/cns-name-registry/src/types/zone_entry.rs:13-38 | the upper key never sorts below the key it was built from |
| PackageZoneEntries.UpperKeyOfFullKey | packages/cns-name-registry/src/types/zone_entry.rs:20-35 | a key with every field given is its own upper key |
| PackageZoneEntries.UpperKeyIdempotent | packages/cns-name-registry/src/types/zone_entry.rs:13-38 | building the upper key twice changes nothing more when the greatest name and type are not empty |
| PackageZoneEntries.RangeStaysInZone | packages/cns-name-registry/src/types/zone_entry.rs:13-38 | an entry between a key and its upper key is in the key's zone |
| PackageZoneEntries.ZoneKey | packages/cns-name-registry/src/types/zone_entry.rs:13-38 | the zone with the default record sorts at or below every entry of that zone |
| PackageZoneEntries.ZoneRange | packages/cns-name-registry/src/types/zone_entry.rs:13-38 | a whole-zone range holds exactly the entries of the zone whose records the greatest values bound |
| ZoneRepository.New | packages/cns-name-registry/src/repositories/zone.rs:28-37 | a new repository holds nothing |
| ZoneRepository.Search | packages/cns-name-registry/src/repositories/zone.rs:41-51 | `search(k)` returns exactly the stored entries from `k` to its upper range key, in ascending order |
| ZoneRepository.Get | packages/cns-name-registry/src/repositories/zone.rs:53-60 | `get` returns the entry exactly when it is stored |
| ZoneRepository.Insert | packages/cns-name-registry/src/repositories/zone.rs:62-64 | `insert` adds exactly the entry |
| ZoneRepository.Remove | packages/cns-name-registry/src/repositories/zone.rs:66-73 | `remove` returns the entry exactly when it was stored, and drops exactly it |
| ZoneRepository.SearchZone | packages/cns-name-registry/src/repositories/zone.rs:41-51 | a whole-zone search returns exactly the stored entries of the zone, when the greatest values bound every stored record |
| ZoneRepository.SearchZoneSize | packages/cns-name-registry/src/repositories/zone.rs:41-51 | the size of a whole-zone search is the number of stored entries of that zone |
| ZoneRepository.SearchOfNewRepositoryIsEmpty | packages/cns-name-registry/src/repositories/zone.rs:81-92 | a new repository finds nothing |
| ZoneRepository.InsertTwoThenSearch | packages/cns-name-registry/src/repositories/zone.rs:94-145 | after two entries of one zone are stored, the zone search returns both, with the default record first |
| ZoneRepository.ZonePairSearch | packages/cns-name-registry/src/repositories/zone.rs:94-145 | after storing a zone's key and another entry of that zone, the search from the key returns both, in that order |
| ZoneRepository.InsertGetRemove | packages/cns-name-registry/src/repositories/zone.rs:147-160 | after an insert the entry is found; `remove` returns it, and afterwards it is gone |
| ZoneRepository.PartialMatch | packages/cns-name-registry/src/repositories/zone.rs:162-220 | after four inserts, three entries of one zone and one of another, each zone search finds exactly its own count |
| ZoneRepository.SearchPartialMatch | packages/cns-name-registry/src/repositories/zone.rs:162-220 | the test's scenario: the searches return 3 entries and 1 entry |
| CanisterClient.FromRejection | lib/ic-cns-canister-client/rs/src/lib.rs:35-39 | a rejection becomes `CallFailed` with the same code and message |
| CanisterClient.Mainnet | lib/ic-cns-canister-client/rs/src/lib.rs:10-19 | the initial root is the parsed mainnet id |
| CanisterClient.OverrideCnsRoot | lib/ic-cns-canister-client/rs/src/lib.rs:169-171 | after the override the root is the given principal |
| CanisterClient.GetPrincipalIdFromRecords | lib/ic-cns-canister-client/rs/src/lib.rs:77-89 | an empty list gives `NotFound("No record for " + context)`; otherwise only the first record's data is parsed, with `MalformedData` when it fails |
| CanisterClient.OnlyFirstRecordMatters | lib/ic-cns-canister-client/rs/src/lib.rs:77-89 | two answer lists with the same first record resolve alike |
| CanisterClient.MalformedFirstRecordWins | lib/ic-cns-canister-client/rs/src/lib.rs:77-89 | a malformed first record hides a well-formed second one |
| CanisterClient.LookupNc | lib/ic-cns-canister-client/rs/src/lib.rs:91-98 | `lookup_nc` makes exactly one call, to the root for the domain's `NC` record; a rejection becomes `CallFailed`, and no answer gives `NotFound("No record for NC lookup for " + domain)` |
| CanisterClient.LookupThroughNc | lib/ic-cns-canister-client/rs/src/lib.rs:123-135 | a lookup asks the naming canister for the record only after `NC` succeeds, and resolves that answer |
| CanisterClient.LookupDomain | lib/ic-cns-canister-client/rs/src/lib.rs:123-128 | a failed `NC` step is returned after one call; otherwise the naming canister is asked for `CID`, a rejection becomes `CallFailed`, and an answer resolves through the first record with the context `CID lookup for <domain>` |
| CanisterClient.LookupSubnet | lib/ic-cns-canister-client/rs/src/lib.rs:130-135 | a failed `NC` step is returned after one call; otherwise the naming canister is asked for `SID`, a rejection becomes `CallFailed`, and an answer resolves through the first record with the context `SID lookup for <name>` |
| CanisterClient.Registration | lib/ic-cns-canister-client/rs/src/lib.rs:139-148 | the registration is exactly one `CID` record of the domain, TTL 3600, data the canister's text, with no controllers |
| CanisterClient.RegistrationFailure | lib/ic-cns-canister-client/rs/src/lib.rs:155-166 | a refused registration is `CallFailed` with code `NoError` and a message naming the domain and ending with the remote message, or nothing |
| CanisterClient.RegisterDomain | lib/ic-cns-canister-client/rs/src/lib.rs:137-167 | registration first asks for `NC`; it then sends the registration and succeeds exactly when the reply says so |
| CanisterClient.ReverseName | lib/ic-cns-canister-client/rs/src/lib.rs:103 | the reverse name is the id's text followed by `.reverse.icp.` |
| CanisterClient.GetPtrRecords | lib/ic-cns-canister-client/rs/src/lib.rs:100-105 | the naming canister of `.icp.`, then its `PTR` answers for the reverse name |
| CanisterClient.FirstPtrData | lib/ic-cns-canister-client/rs/src/lib.rs:107-121 | the first `PTR` answer's data, or `NotFound` when there is none |
| CanisterClient.DomainForCanister | lib/ic-cns-canister-client/rs/src/lib.rs:107-113 | the first `PTR` answer's data, or `NotFound("No domain found for canister …")` |
| CanisterClient.NameForSubnet | lib/ic-cns-canister-client/rs/src/lib.rs:115-121 | the first `PTR` answer's data, or `NotFound("No name found for subnet …")` |
| CanisterClient.ReverseLookupsAgree | lib/ic-cns-canister-client/rs/src/lib.rs:100-121 | `domain_for_canister` and `name_for_subnet` make the same calls and agree on every outcome except an empty `PTR` answer, where both give `NotFound` |
| CanisterClient.ReverseLookupEndToEnd | lib/ic-cns-canister-client/rs/src/lib.rs:100-121 | with the root naming the `.icp.` operator and the operator answering the reverse name's `PTR` query, both return the first answer's data after exactly those two calls |
| CanisterClient.NcFailureShortCircuits | lib/ic-cns-canister-client/rs/src/lib.rs:123-138 | when the `NC` step fails, lookup, subnet lookup and registration make no second call and return that error unchanged |
| CanisterClient.RootRejectionIsVerbatim | lib/ic-cns-canister-client/rs/src/lib.rs:35-39 | a rejected root call surfaces as `CallFailed` with its code and message from every operation |
| CanisterClient.OverrideRedirectsNcQueries | lib/ic-cns-canister-client/rs/src/lib.rs:169-171 | after the override, every `NC` query goes to the new root |
| CanisterClient.MissingNcIsReported | lib/ic-cns-canister-client/rs/tests/register_and_lookup.rs:201-230 | when the root knows no naming canister for a domain, registration and lookup both fail with `NotFound("No record for NC lookup for …")` |
| CanisterClient.RegisterThenLookup | lib/ic-cns-canister-client/rs/src/lib.rs:123-167 | once a registration succeeds and the naming canister answers with the registered record, the lookup returns the registered canister |
| JsUtils.ToCandidOpt | lib/cns-js/src/utils.ts:1-7 | nil becomes `[]`, any other value `[v]` |
| JsUtils.FromCandidOpt | lib/cns-js/src/utils.ts:9-15 | `[]` becomes `null`, `[v]` becomes `v`, and the result is never `undefined` |
| JsUtils.FromToCandidOpt | lib/cns-js/src/utils.ts:1-15 | a present value survives the round trip, and nil comes back as `null` |
| JsUtils.ToFromCandidOpt | lib/cns-js/src/utils.ts:1-15 | the round trip from a Candid option is the identity |
| JsUtils.NilDichotomy | lib/cns-js/src/utils.ts:17-25 | `isNotNil` is the negation of `isNil`, and it holds exactly for present values |
| JsMappings.MapDomainRecordRequest | lib/cns-js/src/cns-root/cns-root-mappings.ts:61-70 | the response mapping undoes the request mapping |
| JsMappings.RecordMappingsInverse | lib/cns-js/src/cns-root/cns-root-mappings.ts:61-81 | the two record mappings are inverse to each other in both directions |
| JsMappings.MapResponses | lib/cns-js/src/cns-root/cns-root-mappings.ts:19-27 | mapping a list keeps its length and maps each field at the same position |
| JsMappings.MapRequests | lib/cns-js/src/cns-root/cns-root-mappings.ts:29-36 | mapping requests keeps the length, and mapping back gives the list |
| JsMappings.MapDomainLookupResponse | lib/cns-js/src/cns-root/cns-root-mappings.ts:19-27 | each of the three lists keeps its length and order, and each element maps back to its source |
| JsMappings.RoleMappingBijective | lib/cns-js/src/cns-root/cns-root-mappings.ts:83-96 | the role mapping is injective and reaches every Candid variant |
| JsMappings.MapRoles | lib/cns-js/src/cns-root/cns-root-mappings.ts:38-45 | roles are mapped one by one, in order |
| JsMappings.PrincipalFrom | lib/cns-js/src/cns-root/cns-root-mappings.ts:38-45 | a principal is kept, and a text is parsed and fails exactly when malformed |
| JsMappings.PrincipalFromValue | lib/cns-js/src/cns-root/cns-root-mappings.ts:42 | `Principal.from` throws on `undefined` or `null` and otherwise keeps a principal or parses a text |
| JsMappings.MapRegistrationControllerRequestAsWritten | lib/cns-js/src/cns-root/cns-root-mappings.ts:38-45 | as written, the controller succeeds exactly when `Principal.from(req.principal)` does, and otherwise throws its error |
| JsMappings.ControllerMappingAsWrittenThrows | lib/cns-js/src/cns-root/cns-root-mappings.ts:42 | as written, every declared request throws, because it has no `principal` field, and so differs from the mapping of the declared field whenever that parses |
| JsMappings.MapRegistrationControllerRequest | lib/cns-js/src/cns-root/cns-root-types.ts:24-27 | reading the declared `controller_id`, the controller maps exactly when its principal parses, keeping it and mapping each role in order |
| JsMappings.ControllerIdIsKept | lib/cns-js/src/cns-root/cns-root-mappings.ts:38-45 | a controller given as a principal, or as text that parses back to it, maps to that principal with its roles mapped in order |
| JsMappings.MapEach | lib/cns-js/src/cns-root/cns-root-mappings.ts:33 | `controller.map(f)` succeeds exactly when `f` does on every controller, keeps length and order, and otherwise throws the error of a controller all of whose predecessors mapped |
| JsMappings.MapControllers | lib/cns-js/src/cns-root/cns-root-mappings.ts:33 | with the controller mapping that reads `controller_id`, the controllers map exactly when each does, element by element |
| JsMappings.MapControllersAsWritten | lib/cns-js/src/cns-root/cns-root-mappings.ts:29-45 | as written, the controllers map exactly when each `Principal.from(req.principal)` succeeds, and a failure is one controller's error |
| JsMappings.WithRecords | lib/cns-js/src/cns-root/cns-root-mappings.ts:32-35 | the mapped controllers are kept; absent records become `[]`, and present ones `[list]` that maps back to them |
| JsMappings.MapRegistrationRecordRequest | lib/cns-js/src/cns-root/cns-root-mappings.ts:29-36 | with the controller mapping that reads `controller_id`: succeeds exactly when the controllers map, keeps them, and maps absent records to `[]` and present ones to `[list]` that maps back to them |
| JsMappings.MapRegistrationRecordRequestAsWritten | lib/cns-js/src/cns-root/cns-root-mappings.ts:29-36 | as written: succeeds exactly when the as-written controller mapping does, then with the same record layout, and otherwise throws that mapping's error |
| JsMappings.RecordRequestAsWrittenThrows | lib/cns-js/src/cns-root/cns-root-mappings.ts:29-45 | as written, a registration request throws exactly when its controller list is non-empty, with the error of `Principal.from(undefined)`; with no controllers it equals the mapping that reads `controller_id` |
| JsMappings.MapDomainRegistrationResponse | lib/cns-js/src/cns-root/cns-root-mappings.ts:47-59 | it returns normally exactly on success, and otherwise throws the remote message, or the fixed text when there is none |
| JsClient.New | lib/cns-js/src/cns-client.ts:28-34 | the caches start empty; without a truthy root argument the root is the default id; a text root is parsed, and a principal is kept |
| JsClient.FindAnswer | lib/cns-js/src/cns-client.ts:96-107 | the position of the first answer of the type, or none when no answer has it |
| JsClient.GetAnswer | lib/cns-js/src/cns-client.ts:96-107 | the first answer of the requested type, at any position; without one, it throws "No <type> record found for domain <domain>" |
| JsClient.GetPrincipalAnswer | lib/cns-js/src/cns-client.ts:87-94 | `getAnswer`'s error, or the principal parsed from that answer's data |
| JsClient.AnswerAtAnyPosition | lib/cns-js/src/cns-client.ts:96-107 | the first answer of a type is found after answers of other types |
| JsClient.LookupNamingCanister | lib/cns-js/src/cns-client.ts:54-69 | a cached naming canister is returned with no query; otherwise the root is asked for `NC`, and the result is cached only on success |
| JsClient.LookupCanisterId | lib/cns-js/src/cns-client.ts:36-52 | a cached id is returned with no query; otherwise the naming canister is asked for `CID` after it is resolved, and the id is cached only on success |
| JsClient.LookupsAreCached | lib/cns-js/src/cns-client.ts:36-69 | a second lookup of a domain answers the same from the cache, with no query and no change |
| JsClient.DefaultRootIsAsked | lib/cns-js/src/cns-client.ts:13-34 | without a root argument, or with an empty one, the first query goes to `rdmx6-jaaaa-aaaaa-aaadq-cai` |
| JsClient.LookupEndToEnd | lib/cns-js/tests/src/smoke-test.spec.ts:18-32 | when the root answers `NC` with the operator and the operator answers `CID` with the canister, the lookups yield the operator and then the canister |

## Left out

- Candid encoding and decoding, and every `Storable::to_bytes`/`from_bytes`, are left out. They are a foreign codec; only the `BoundedStorable` size constants are modelled.
- Stable-memory plumbing is replaced by a value, the store of the repositories. This covers `MemoryManager`, `VirtualMemory`, the `thread_local!` databases and `with_memory_manager`.
- The map-style `Repository<K, V>` of `packages/cns-name-registry/src/repositories/setup.rs` is left out. `DomainZoneRepository` does not implement it; it is modelled from `repositories/zone.rs` directly.
- `DomainRecord::max_domain_name_value` (called `max_record_name_value` with the apex in the canister's zone entry), `max_record_type_value`, `max_ttl_value` and `max_data_value` are not part of this model. They are the `Maxima` parameters, and lemmas state what they need of them as hypotheses (`Bounds`).
- PackageZoneEntries.DefaultRecord assumes the record shape that `packages/cns-name-registry/src/types/zone_entry.rs` uses, with `ttl: Option<u32>` and `data: Option<String>`, and a derived `Default` and `Ord` on it. The package's `types/record.rs` declares `ttl: u32` and `data: String` and derives neither, so the default record `([], [], None, None)` and the record order are assumptions of the model.
- The canister's `DomainRecord`, `DomainZone` and `DomainName` definitions are not part of this model. They are modelled with the package's field lists and with validated names.
- `map_err(|e| e.to_string())` in the range keys is left out: the model keeps the structured error, because the `Display` texts of the error enums are not part of this model.
- Inter-canister calls, `async`/`await` and the `@dfinity/agent` actor are modelled as an oracle returning a reply or a rejection.
- The `Mutex` around the root id is left out, together with its `Internal` error on a poisoned lock. The model is sequential.
- The `lazy_static` initialisation panics when the mainnet id does not parse. `CanisterClient.Mainnet` requires that it parses instead.
- Principal text parsing and printing (`Principal::from_text`, `Principal.from`, `toText`) are uninterpreted functions.
- The `operatorClients` cache of `getOperatorClient` is left out. It is keyed by object identity and only caches actor objects; the model sends each query straight to the oracle.
- `fromCandidOpt` of `[null]` (a `T` that is itself nullable) is left out: `Js<T>` values are never nil inside `Present`.
- JsMappings.MapRegistrationControllerRequest reads the declared field `controller_id`. The code reads `req.principal`, which the declared request type does not have; that path is modelled separately as `MapRegistrationControllerRequestAsWritten` (see Findings).
- JsMappings.MapControllers and JsMappings.MapRegistrationRecordRequest use the controller mapping that reads `controller_id`, so they succeed on non-empty controller lists whose ids parse. The code as written throws on every non-empty list; that path is `MapControllersAsWritten` and `MapRegistrationRecordRequestAsWritten` (see Findings).
- JsMappings.PrincipalFromValue: the library's `Principal.from` is not part of this model; the model assumes it throws on `undefined` and `null`, and does not model its message.
- The remote authorisation policy that the integration tests observe is left out. It lives in canisters that are not part of this model.
- `RecordNames.New` is stated on bytes. Rust's `to_ascii_lowercase` on a `String` leaves multi-byte characters alone, and so does the byte model, because those bytes are never `A`..`Z`.
- Repositories.SearchBetween: the trait's `search` returns a plain list (`canisters/name-registry/src/repositories/setup.rs:45`), and its implementation is not part of this model, so what happens after a key error is not known: a panic or an empty list. The model carries the first key's error in `Err`. `ZoneEntries.Search` inherits this.
- ZoneEntries.SearchWithoutZoneFails states that the upper key fails for every input without a zone; that the whole search then fails is a consequence of the `Err` convention of `Repositories.SearchBetween`, not something the source shows.
- ZoneEntries.MapToLowerRangeKey requires that a supplied record name is accepted under the apex: the code unwraps and aborts otherwise. The corrected keys report the error instead (see Findings).
- ZoneEntries.MapToUpperRangeKey carries the same requirement, for the same reason.
- RecordNameBounds.MaxValueAsWritten returns `None` where the code panics on an underflow in a debug build; in a release build the budget wraps around to `usize::MAX`, and the loop, each round of which copies a string 64 bytes longer, exhausts memory.

## Findings

| source | as written | input that shows it | evidently intended | confidence | as-written member | corrected member |
|---|---|---|---|---|---|---|
| canisters/name-registry/src/types/zone_entry.rs:81 | without a zone, the upper key validates `.`, which fails with `NonEmptyLabel`, so no range can be formed | any search input with no zone name | a search without a zone covers every zone | not executed | ZoneEntries.SearchWithoutZoneFails | ZoneEntries.CheckedSearchWithoutZoneCoversAll |
| packages/cns-name-registry/src/types/record_name.rs:125-136 | `min_value` and `RecordName::default()` are both `@`, and the lower key of a whole-zone search uses the default (`canisters/name-registry/src/types/zone_entry.rs:67`) | the record name `0` under `internetcomputer.tld.` | `min_value` sorts at or below every valid record name | not executed | ZoneEntries.WholeZoneSearchMissesDigitNames | RecordNameBounds.MinValueIsLowerBound |
| packages/cns-name-registry/src/types/record_name.rs:104 | `MAX_SIZE - apex_len - 1` underflows `usize` for a 255-byte apex | the greatest apex domain, `MAX_DOMAIN_NAME` | a bound for every valid apex | not executed | RecordNameBounds.MaxValueAsWrittenUnderflows | RecordNameBounds.MaxValueIsUpperBound |
| packages/cns-name-registry/src/types/record_name.rs:110-122 | the dots between `z` labels are not budgeted, so `max_value` is longer than the room left | the apex `a.`: 255 bytes, 258 once qualified | `max_value` is itself a valid record name | not executed | RecordNameBounds.MaxValueAsWrittenUnderShortApex | RecordNameBounds.MaxValueIsAccepted |
| packages/cns-name-registry/src/types/zone_apex_domain.rs:24-28 | `new` keeps the case of the name, though the canonical form is documented as lowercase | `A.` and `a.` | `new` stores the lowercase form | not executed | ZoneApex.NewKeepsCase | ZoneApex.NewCanonicalIsLowercase |
| canisters/name-registry/src/types/zone_entry.rs:66,90 | an invalid supplied record name is unwrapped, so the key mapping aborts | the record name `""` under `internetcomputer.tld.` | the mapping returns `Err` | not executed | ZoneEntries.EmptyNameAborts | ZoneEntries.CheckedKeysReportInvalidNames |
| lib/cns-js/src/cns-root/cns-root-mappings.ts:42 | the controller's principal is read from `req.principal`, a field the declared request (`cns-root-types.ts:24-27`) does not have, so `Principal.from(undefined)` throws, and `mapRegistrationRecordRequest` (line 33) throws on every non-empty controller list | any controller request, e.g. one with `controller_id` set to a principal | the principal comes from `controller_id` | not executed | JsMappings.ControllerMappingAsWrittenThrows, JsMappings.RecordRequestAsWrittenThrows | JsMappings.ControllerIdIsKept, JsMappings.MapRegistrationRecordRequest |
