/** The two entitlement gates every download handler applies to a loaded order. */
module Entitlement {
  import opened Types

  /** Why a caller is turned away from an order. */
  datatype Denial = NoAccess | Unpaid

  /** The access check runs first, the payment check second; `None` means both pass.
      `hasOrderAccess` is the service's ownership-or-admin decision, whose body is
      not part of this model. */
  function Check(claims: Option<Claims>, o: Order, hasOrderAccess: (Option<Claims>, Order) -> bool): (r: Option<Denial>)
    ensures r.None? <==> hasOrderAccess(claims, o) && Paid(o)
    ensures !hasOrderAccess(claims, o) ==> r == Some(NoAccess)
    ensures hasOrderAccess(claims, o) && !Paid(o) ==> r == Some(Unpaid)
  {
    if !hasOrderAccess(claims, o) then Some(NoAccess)
    else if !Paid(o) then Some(Unpaid)
    else None
  }
}
