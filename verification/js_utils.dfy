/** The option helpers of the JavaScript client (`utils.ts`): a JavaScript
    value may be `undefined`, `null` or present; Candid encodes an optional
    value as an array of at most one element. */
module JsUtils {
  /** A JavaScript value that may be nil. The present value is never itself
      nil. */
  datatype Js<T> = Undefined | Null | Present(value: T)

  /** Candid's `opt T` as JavaScript sees it: `[]` or `[v]`. */
  type CandidOpt<T> = s: seq<T> | |s| <= 1 witness []

  /** `isNil`: `null` or `undefined`. */
  predicate IsNil<T>(v: Js<T>) {
    v.Undefined? || v.Null?
  }

  /** `isNotNil`: the negation of `isNil`. */
  predicate IsNotNil<T>(v: Js<T>) {
    !IsNil(v)
  }

  /** `toCandidOpt`: nil becomes `[]`, any other value `[v]`. */
  function ToCandidOpt<T>(v: Js<T>): (r: CandidOpt<T>)
    ensures |r| == 0 <==> IsNil(v)
    ensures |r| == 1 ==> v == Present(r[0])
  {
    if v.Undefined? || v.Null? then [] else [v.value]
  }

  /** `fromCandidOpt`: `[]` becomes `null`, `[v]` becomes `v`. */
  function FromCandidOpt<T>(o: CandidOpt<T>): (r: Js<T>)
    ensures !r.Undefined?
    ensures r.Null? <==> |o| == 0
    ensures r.Present? ==> o == [r.value]
  {
    if |o| == 0 then Null else Present(o[0])
  }

  /** A present value survives the round trip; nil comes back as `null`. */
  lemma FromToCandidOpt<T>(v: Js<T>)
    ensures FromCandidOpt(ToCandidOpt(v)) == if IsNil(v) then Null else v
  {
  }

  /** The other round trip is the identity. */
  lemma ToFromCandidOpt<T>(o: CandidOpt<T>)
    ensures ToCandidOpt(FromCandidOpt(o)) == o
  {
  }

  /** Exactly one of `isNil` and `isNotNil` holds, and `isNotNil` holds
      exactly of present values. */
  lemma NilDichotomy<T>(v: Js<T>)
    ensures IsNotNil(v) <==> !IsNil(v)
    ensures IsNotNil(v) <==> v.Present?
  {
  }
}
