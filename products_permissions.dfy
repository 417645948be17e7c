/** products/permissions.py: who may use the vendor endpoints and which products a vendor owns. */
module Permissions {
  import opened Wrappers
  import opened UserModels
  import opened ProductModels

  /** IsVendor.has_permission; `requester` is None for the anonymous user. */
  function IsVendor(requester: Option<User>): (ok: bool)
    ensures ok <==> requester.Some? && requester.value.role == Vendor
    ensures requester.None? ==> !ok
  {
    match requester
    case None => false
    case Some(u) => u.role == Vendor
  }

  /** IsVendorOwner.has_object_permission: the user has a company and it is the product's company. */
  function IsVendorOwner(user: User, product: Product): (ok: bool)
    ensures ok <==> user.company.Some? && product.company == user.company
    ensures user.company.None? ==> !ok
    ensures product.company.None? ==> !ok
  {
    user.company.Some? && product.company == user.company
  }

  /** Two vendors of different companies never both own the same product. */
  lemma OwnershipIsExclusive(u: User, v: User, p: Product)
    requires IsVendorOwner(u, p) && IsVendorOwner(v, p)
    ensures u.company == v.company
  {
  }
}
