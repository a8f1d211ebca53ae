/** The acting user of a request: the custom `User` model or Django's anonymous user. */
module Users {

  type UserId = nat

  /**
   * A signed-in account carries the `is_seller` flag of the custom user model; the
   * anonymous user of an unauthenticated request has no such attribute at all.
   */
  datatype User = Anonymous | Member(id: UserId, isSeller: bool)

  predicate IsAuthenticated(u: User)
  {
    u.Member?
  }

  /** `getattr(user, "is_seller", False)`: a user without the attribute reads as a non-seller. */
  predicate SellerFlag(u: User)
  {
    u.Member? && u.isSeller
  }
}
