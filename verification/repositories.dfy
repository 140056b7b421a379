/** The repository contract (`repositories/setup.rs`): `exists`, `insert`,
    `remove` and an inclusive range `search`, over a store that keeps its
    entries as an ordered set (the stable `BTreeMap<Entry, ()>`). Stated once
    for any entry type and total order. */
module Repositories {
  import opened Orders
  import opened Wrappers
  import opened OrderedSets

  /** The stored entries, strictly increasing. */
  datatype Store<T> = Store(entries: seq<T>)

  ghost predicate Valid<T(!new)>(cmp: (T, T) -> Ordering, st: Store<T>) {
    IsTotalOrder(cmp) && Sorted(cmp, st.entries)
  }

  /** A freshly initialised store holds nothing. */
  function Empty<T>(): (st: Store<T>)
    ensures forall x :: x !in st.entries
  {
    Store([])
  }

  /** `exists`: whether the entry is stored. */
  method Exists<T(==, !new)>(cmp: (T, T) -> Ordering, st: Store<T>, x: T) returns (b: bool)
    requires Valid(cmp, st)
    ensures b <==> x in st.entries
  {
    b := Contains(cmp, st.entries, x);
  }

  /** `get`: the entry itself when it is stored, nothing otherwise. */
  method Get<T(==, !new)>(cmp: (T, T) -> Ordering, st: Store<T>, x: T) returns (r: Option<T>)
    requires Valid(cmp, st)
    ensures r.Some? <==> x in st.entries
    ensures r.Some? ==> r.value == x
  {
    var found := Contains(cmp, st.entries, x);
    r := if found then Some(x) else None;
  }

  /** `insert`: afterwards the entry is stored, and every other entry is
      stored exactly when it was before. */
  function Insert<T(==, !new)>(cmp: (T, T) -> Ordering, st: Store<T>, x: T): (r: Store<T>)
    requires Valid(cmp, st)
    ensures Valid(cmp, r)
    ensures x in r.entries
    ensures forall y :: y != x ==> (y in r.entries <==> y in st.entries)
  {
    Store(OrderedSets.Insert(cmp, st.entries, x))
  }

  /** What `remove` returns: the store afterwards, and whether the entry was
      there. */
  datatype Removal<T> = Removal(store: Store<T>, removed: bool)

  /** `remove`: reports whether the entry was stored; afterwards it is not,
      and every other entry is stored exactly when it was before. */
  function Remove<T(==, !new)>(cmp: (T, T) -> Ordering, st: Store<T>, x: T): (r: Removal<T>)
    requires Valid(cmp, st)
    ensures Valid(cmp, r.store)
    ensures r.removed <==> x in st.entries
    ensures x !in r.store.entries
    ensures forall y :: y != x ==> (y in r.store.entries <==> y in st.entries)
  {
    Removal(Store(OrderedSets.Remove(cmp, st.entries, x)), x in st.entries)
  }

  /** `search` between two keys: the stored entries `e` with
      `lo <= e <= hi`, in ascending order. */
  function Search<T(==, !new)>(cmp: (T, T) -> Ordering, st: Store<T>, lo: T, hi: T): (r: seq<T>)
    requires Valid(cmp, st)
    ensures Sorted(cmp, r)
    ensures forall y :: y in r <==> y in st.entries && Le(cmp, lo, y) && Le(cmp, y, hi)
  {
    Range(cmp, st.entries, lo, hi)
  }

  /** `search` through a search input (`RepositorySearch` with
      `RepositorySearchInto`): the range between the two keys the input maps
      to. The trait's `search` returns a plain list and its implementation
      is not part of this model, so what a key error leads to is not known;
      the model reports the first key's error as `Err`. */
  function SearchBetween<T(==, !new), E>(cmp: (T, T) -> Ordering, st: Store<T>,
                                        lower: Result<T, E>, upper: Result<T, E>): (r: Result<seq<T>, E>)
    requires Valid(cmp, st)
    ensures r.Err? <==> lower.Err? || upper.Err?
    ensures r.Err? ==> r.error == (if lower.Err? then lower.error else upper.error)
    ensures r.Ok? ==> Sorted(cmp, r.value) && forall y :: y in r.value <==>
      y in st.entries && Le(cmp, lower.value, y) && Le(cmp, y, upper.value)
  {
    match lower
    case Err(e) => Err(e)
    case Ok(lo) =>
      match upper
      case Err(e) => Err(e)
      case Ok(hi) => Ok(Search(cmp, st, lo, hi))
  }

  /** Inserting an entry twice is inserting it once. */
  lemma InsertIdempotent<T(!new)>(cmp: (T, T) -> Ordering, st: Store<T>, x: T)
    requires Valid(cmp, st)
    ensures Insert(cmp, Insert(cmp, st, x), x) == Insert(cmp, st, x)
  {
    OrderedSets.InsertIdempotent(cmp, st.entries, x);
  }

  /** Removing a freshly inserted entry gives the store back, and so does
      inserting a freshly removed one. */
  lemma InsertThenRemove<T(!new)>(cmp: (T, T) -> Ordering, st: Store<T>, x: T)
    requires Valid(cmp, st) && x !in st.entries
    ensures Remove(cmp, Insert(cmp, st, x), x) == Removal(st, true)
  {
    OrderedSets.RemoveInsert(cmp, st.entries, x);
  }

  lemma RemoveThenInsert<T(!new)>(cmp: (T, T) -> Ordering, st: Store<T>, x: T)
    requires Valid(cmp, st) && x in st.entries
    ensures Insert(cmp, Remove(cmp, st, x).store, x) == st
  {
    OrderedSets.InsertRemove(cmp, st.entries, x);
  }

  /** Removing an entry that is not there reports so and changes nothing. */
  lemma RemoveAbsent<T(!new)>(cmp: (T, T) -> Ordering, st: Store<T>, x: T)
    requires Valid(cmp, st) && x !in st.entries
    ensures Remove(cmp, st, x) == Removal(st, false)
  {
    OrderedSets.RemoveAbsent(cmp, st.entries, x);
  }

  /** Searching an empty store finds nothing. */
  lemma SearchEmpty<T(!new)>(cmp: (T, T) -> Ordering, lo: T, hi: T)
    requires IsTotalOrder(cmp)
    ensures Search(cmp, Empty(), lo, hi) == []
  {
    EmptyHasNoEntries(Search(cmp, Empty(), lo, hi));
  }
}
