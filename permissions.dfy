/** The guard that protects the seller-only catalogue views. */
module Permissions {
  import opened Users

  datatype Access = Granted | PermissionDenied

  /**
   * `require_seller`: anonymous users and accounts without the seller flag are
   * denied; an authenticated seller passes and nothing else happens.
   */
  function RequireSeller(u: User): (a: Access)
    ensures a == Granted <==> IsAuthenticated(u) && u.isSeller
    ensures u.Anonymous? ==> a == PermissionDenied
  {
    if !IsAuthenticated(u) || !SellerFlag(u) then PermissionDenied else Granted
  }
}
