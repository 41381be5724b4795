/** The route guard of frontend/src/components/ProtectedRoute.jsx. The
    signed-in user is the summary the login reply carried. */
module ProtectedRoute {
  import opened Common
  import opened Users
  import opened AuthController

  /** What the guard renders: the loading text, a redirect, or its children. */
  datatype View = Loading | Redirect(to: string) | Children

  /** `roles` is `None` for the default `null`; a list, even an empty one, is
      a restriction. The only redirect target is the login page `/`. */
  function Guard(loading: bool, user: Option<UserSummary>, roles: Option<seq<Role>>): (v: View)
    ensures loading ==> v == Loading
    ensures !loading && user.None? ==> v == Redirect("/")
    ensures v == Children <==> !loading && user.Some? && (roles.None? || user.value.role in roles.value)
    ensures v == Loading <==> loading
    ensures !loading && user.Some? && roles.Some? && user.value.role !in roles.value ==> v == Redirect("/")
    ensures v.Redirect? ==> v == Redirect("/")
  {
    if loading then Loading
    else if user.None? then Redirect("/")
    else if roles.Some? && user.value.role !in roles.value then Redirect("/")
    else Children
  }

  /** With the default `roles`, every signed-in user is let through once the
      session has loaded. */
  lemma DefaultRolesAdmitAnyone(u: UserSummary)
    ensures Guard(false, Some(u), None) == Children
  {
  }

  /** An empty role list admits nobody. */
  lemma EmptyRolesAdmitNobody(loading: bool, user: Option<UserSummary>)
    ensures Guard(loading, user, Some([])) != Children
  {
  }
}
