/** The role router of `lib/prismaClient.ts`: three module-level store
    handles and the mapping from a session's database role to one of them. */
module Roles {
  import opened Base

  /** The three handles. `PrismaDefault` connects with the default URL and
      is used only by the employee-provisioning route. */
  datatype Handle = PrismaDefault | PrismaSeller | PrismaAdmin

  /** The connection URL each handle is built with: `DATABASE_URL` (the
      default), `DATABASE_URL_SELLER` and `DATABASE_URL_ADMIN`. */
  datatype ConnectionUrl = DefaultUrl | SellerUrl | AdminUrl

  const AdminRole := "admin_role"
  const SellerRole := "seller_role"

  function UrlOf(h: Handle): (u: ConnectionUrl)
    ensures h == PrismaAdmin <==> u == AdminUrl
    ensures h == PrismaSeller <==> u == SellerUrl
  {
    match h
    case PrismaDefault => DefaultUrl
    case PrismaSeller => SellerUrl
    case PrismaAdmin => AdminUrl
  }

  /** `getPrismaByRole`: the two known role names select the admin and
      seller handles; every other string selects nothing. The default handle
      is never selected by a role. */
  function GetPrismaByRole(role: string): (h: Option<Handle>)
    ensures h == Some(PrismaAdmin) <==> role == AdminRole
    ensures h == Some(PrismaSeller) <==> role == SellerRole
    ensures h == None <==> role != AdminRole && role != SellerRole
    ensures h != Some(PrismaDefault)
  {
    if role == AdminRole then Some(PrismaAdmin)
    else if role == SellerRole then Some(PrismaSeller)
    else None
  }

  /** Two roles that select a handle select the same one only when they are
      the same role, and the admin and seller handles connect to different
      URLs: the two privilege sets are never confused. */
  lemma RoleHandlesDistinct(a: string, b: string)
    requires GetPrismaByRole(a).Some? && GetPrismaByRole(b).Some?
    ensures GetPrismaByRole(a) == GetPrismaByRole(b) <==> a == b
    ensures a != b ==> UrlOf(GetPrismaByRole(a).value) != UrlOf(GetPrismaByRole(b).value)
  {
  }

  /** The database role the provisioning route grants: `admin_role` exactly
      when the position name is the administrator's, otherwise
      `seller_role`. Either way the granted role selects a handle. */
  function DeriveRole(isAdministrator: bool): (role: string)
    ensures role == AdminRole <==> isAdministrator
    ensures role == SellerRole <==> !isAdministrator
    ensures GetPrismaByRole(role).Some?
  {
    if isAdministrator then AdminRole else SellerRole
  }
}
