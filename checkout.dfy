/** The checkout screen: the address prefill from the signed-in user's
    profile document and the required-field gate of "pay". No payment is
    processed. The signed-in user and the profile documents are
    parameters. */
module Checkout {
  import opened Common
  import opened AppContext

  /** A user's profile document; its `address` may be missing. */
  datatype UserDoc = UserDoc(address: Option<string>)

  /** What "pay" does: an alert about missing fields, or a success alert
      whose button opens the given tab. */
  datatype PaymentDecision = MissingFields | PaymentAccepted(navigateTo: string)

  /** `handlePayment`: every one of the five fields must be filled in. */
  function DecidePayment(address: string, cardNumber: string, cardName: string, expiry: string, cvv: string): (d: PaymentDecision)
    ensures d.MissingFields? <==> address == "" || cardNumber == "" || cardName == "" || expiry == "" || cvv == ""
    ensures d.PaymentAccepted? ==> d.navigateTo == "Ana Sayfa"
  {
    if address == "" || cardNumber == "" || cardName == "" || expiry == "" || cvv == "" then MissingFields
    else PaymentAccepted("Ana Sayfa")
  }

  /** `fetchAddress`: the profile's address, or "" when it has none; the
      current value stays when nobody is signed in or there is no profile. */
  function PrefilledAddress(current: string, user: Option<string>, userDocs: string -> Option<UserDoc>): (a: string)
    ensures user.None? ==> a == current
    ensures user.Some? && userDocs(user.value).None? ==> a == current
    ensures user.Some? && userDocs(user.value).Some? ==>
      a == match userDocs(user.value).value.address { case None => "" case Some(x) => x }
  {
    match user
    case None => current
    case Some(uid) =>
      match userDocs(uid)
      case None => current
      case Some(d) => match d.address { case None => "" case Some(x) => x }
  }

  class CheckoutForm {
    var address: string
    var cardNumber: string
    var cardName: string
    var expiry: string
    var cvv: string

    constructor ()
      ensures address == "" && cardNumber == "" && cardName == "" && expiry == "" && cvv == ""
    {
      address := "";
      cardNumber := "";
      cardName := "";
      expiry := "";
      cvv := "";
    }

    method FetchAddress(user: Option<string>, userDocs: string -> Option<UserDoc>)
      modifies this
      ensures address == PrefilledAddress(old(address), user, userDocs)
      ensures cardNumber == old(cardNumber) && cardName == old(cardName) && expiry == old(expiry) && cvv == old(cvv)
    {
      if user.Some? {
        var docSnap := userDocs(user.value);
        if docSnap.Some? {
          address := match docSnap.value.address { case None => "" case Some(x) => x };
        }
      }
    }

    /** "Pay" reads the form and leaves the session's cart as it was; the
        method modifies nothing, and the second clause spells that out for
        the cart. */
    method HandlePayment(session: AppProvider) returns (d: PaymentDecision)
      ensures d == DecidePayment(address, cardNumber, cardName, expiry, cvv)
      ensures session.cart == old(session.cart)
    {
      d := DecidePayment(address, cardNumber, cardName, expiry, cvv);
    }
  }
}
