/**
 * The seller-registration reducer: each result replaces the whole state with
 * a fresh record, so fields of an earlier result never survive.
 */
module SellerReducer {
  import opened Wrappers

  /** The registered seller as the server returns it. */
  datatype SellerInfo = SellerInfo(id: int, businessName: string)

  /** The state object; an absent key is `None`. */
  datatype SellerState = SellerState(
    loading: Option<bool>, success: Option<bool>, sellerInfo: Option<SellerInfo>, error: Option<string>)

  datatype Action = RegisterRequest | RegisterSuccess(info: SellerInfo) | RegisterFail(reason: string) | OtherAction

  /** `{}`. */
  const Empty := SellerState(None, None, None, None)

  function Reduce(s: SellerState, a: Action): SellerState {
    match a
    case RegisterRequest => SellerState(Some(true), None, None, None)
    case RegisterSuccess(info) => SellerState(Some(false), Some(true), Some(info), None)
    case RegisterFail(reason) => SellerState(Some(false), None, None, Some(reason))
    case OtherAction => s
  }

  /** A known action's result does not depend on the earlier state. */
  lemma KnownActionsForget(s1: SellerState, s2: SellerState, a: Action)
    requires !a.OtherAction?
    ensures Reduce(s1, a) == Reduce(s2, a)
  {
  }

  /** A request keeps only `loading`, a success carries the seller and no error,
      a failure carries the error and no success flag. */
  lemma ResultShapes(s: SellerState, info: SellerInfo, reason: string)
    ensures Reduce(s, RegisterRequest).loading == Some(true)
    ensures Reduce(s, RegisterRequest).success == None && Reduce(s, RegisterRequest).sellerInfo == None && Reduce(s, RegisterRequest).error == None
    ensures Reduce(s, RegisterSuccess(info)) == SellerState(Some(false), Some(true), Some(info), None)
    ensures Reduce(s, RegisterFail(reason)).error == Some(reason) && Reduce(s, RegisterFail(reason)).success == None
    ensures Reduce(s, RegisterFail(reason)).loading == Some(false)
  {
  }

  /** An unknown action leaves the state as it was; the state starts empty. */
  lemma OtherActionIsIdentity(s: SellerState)
    ensures Reduce(s, OtherAction) == s
    ensures Reduce(Empty, OtherAction) == Empty
  {
  }

  /** After a success or failure the state says the request is over. */
  lemma FinishedAfterResult(s: SellerState, a: Action)
    requires a.RegisterSuccess? || a.RegisterFail?
    ensures Reduce(s, a).loading == Some(false)
    ensures Reduce(s, a).success.Some? != Reduce(s, a).error.Some?
  {
  }
}
