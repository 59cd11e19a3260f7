/**
 * The route guard (src/components/ProtectedRoute.tsx): from the auth state and the route's
 * required role it decides between the loading screen, a redirect to /login that remembers
 * where the user was going, a redirect to /dashboard, and rendering the page.
 */
module ProtectedRoute {
  import opened Wrappers
  import opened Records
  import opened Seqs

  /** The roles a route can require, in rank order. */
  datatype Role = Student | Instructor | Admin

  /** Where the user was going; carried in the login redirect's `from` state. */
  datatype Location = Location(path: string)

  datatype Decision =
    | LoadingScreen
    | RedirectToLogin(from: Location)
    | RedirectToDashboard
    | RenderChildren

  const RoleNames: seq<string> := ["student", "instructor", "admin"]

  function RoleName(r: Role): string {
    match r
    case Student => "student"
    case Instructor => "instructor"
    case Admin => "admin"
  }

  /** `profile?.role || 'student'`: a missing profile, a missing role and the empty role read as 'student'. */
  function EffectiveRole(profileRole: Option<string>): string {
    if profileRole.None? || profileRole.value == "" then "student" else profileRole.value
  }

  /** The user's rank: the position of the effective role in `RoleNames`, -1 when unrecognised. */
  function UserRank(profileRole: Option<string>): (r: int)
    ensures -1 <= r <= 2
    ensures r == -1 <==> EffectiveRole(profileRole) !in RoleNames
  {
    IndexOf(RoleNames, EffectiveRole(profileRole))
  }

  /** The rank a route requires. */
  function RequiredRank(required: Role): (r: int)
    ensures r == match required case Student => 0 case Instructor => 1 case Admin => 2
  {
    IndexOf(RoleNames, RoleName(required))
  }

  /** The user passes a role requirement when their rank is not below it. */
  predicate Satisfies(profileRole: Option<string>, required: Role) {
    UserRank(profileRole) >= RequiredRank(required)
  }

  /** ProtectedRoute, lines 14-38. */
  function Guard(loading: bool, user: Option<Id>, profileRole: Option<string>,
                 required: Option<Role>, location: Location): (d: Decision)
    // while auth is loading nothing else happens: no children, no redirect
    ensures loading <==> d == LoadingScreen
    // no user: to /login with the current location, whatever the requirement
    ensures !loading && user.None? <==> d == RedirectToLogin(location)
    ensures d.RedirectToLogin? ==> d.from == location
    // a signed-in user without a requirement sees the page
    ensures !loading && user.Some? && required.None? ==> d == RenderChildren
    // an under-ranked user goes to the dashboard, never to /login
    ensures d == RedirectToDashboard <==>
            !loading && user.Some? && required.Some? && !Satisfies(profileRole, required.value)
  {
    if loading then LoadingScreen
    else if user.None? then RedirectToLogin(location)
    else if required.Some? && UserRank(profileRole) < RequiredRank(required.value) then RedirectToDashboard
    else RenderChildren
  }

  /** A missing or empty role is ranked as 'student', index 0. */
  lemma MissingRoleIsStudent(profileRole: Option<string>)
    requires profileRole.None? || profileRole == Some("")
    ensures UserRank(profileRole) == 0
    ensures Satisfies(profileRole, Student) && !Satisfies(profileRole, Instructor)
  {
  }

  /** Each recognised role has the rank of its position. */
  lemma KnownRoleRanks(r: Role)
    ensures UserRank(Some(RoleName(r))) == RequiredRank(r)
  {
  }

  /**
   * Monotonicity: passing a requirement means passing every lower one; 'admin' passes
   * every requirement.
   */
  lemma {:induction false} SatisfiesMonotone(profileRole: Option<string>, higher: Role, lower: Role)
    requires RequiredRank(lower) <= RequiredRank(higher)
    requires Satisfies(profileRole, higher)
    ensures Satisfies(profileRole, lower)
  {
  }

  lemma AdminPassesAll(required: Role)
    ensures Satisfies(Some("admin"), required)
  {
  }

  /**
   * A non-empty role string outside the three names gets rank -1, so it is sent to the
   * dashboard even by a 'student' route (the page does not rank it as a student).
   */
  lemma UnknownRoleRedirected(role: string, user: Id, location: Location, required: Role)
    requires role != "" && role !in RoleNames
    ensures Guard(false, Some(user), Some(role), Some(required), location) == RedirectToDashboard
  {
  }
}
