/** The route gate (`ProtectedRoute`) and the route table of src/App.jsx. */
module App {
  import opened Wrappers
  import opened Records
  import opened Search

  /** What the gate renders: a redirect to `/login`, a redirect to `/`, or the page itself. */
  datatype Decision = RedirectToLogin | RedirectToHome | RenderPage

  /** `ProtectedRoute`: no session goes to `/login`; a role outside `allowedRoles`, when given, goes to `/`. */
  function ProtectedRoute(user: Option<Session>, allowedRoles: Option<seq<Role>>): (d: Decision)
    ensures user.None? ==> d == RedirectToLogin
    ensures user.Some? && allowedRoles.Some? && user.value.role !in allowedRoles.value ==> d == RedirectToHome
    ensures user.Some? && allowedRoles.Some? && user.value.role in allowedRoles.value ==> d == RenderPage
    ensures user.Some? && allowedRoles.None? ==> d == RenderPage
  {
    if user.None? then RedirectToLogin
    else if allowedRoles.Some? && !Includes(allowedRoles.value, user.value.role) then RedirectToHome
    else RenderPage
  }

  /** The paths of the route table. */
  datatype Path =
    | Home | Login | StudentRegistration | RecruiterRegistration
    | AppliedJobs | JobApplication(jobId: string) | PostJob
    | Details | DetailsOf(id: string) | Profile | NotFound

  /** A route renders its page directly, or through the gate with its allowed roles. */
  datatype Guard = Open | Protected(allowedRoles: Option<seq<Role>>)

  function RouteGuard(path: Path): (g: Guard)
    ensures g.Protected? ==> g.allowedRoles.Some? && |g.allowedRoles.value| >= 1
    ensures g.Protected? <==> path.AppliedJobs? || path.JobApplication? || path.PostJob? || path.Profile?
  {
    match path
    case AppliedJobs => Protected(Some([Student]))
    case JobApplication(_) => Protected(Some([Student]))
    case PostJob => Protected(Some([Recruiter]))
    case Profile => Protected(Some([Student, Recruiter]))
    case _ => Open
  }

  /** What visiting `path` with the current session shows. */
  function Access(path: Path, user: Option<Session>): (d: Decision)
    ensures RouteGuard(path).Open? ==> d == RenderPage
    ensures RouteGuard(path).Protected? && user.None? ==> d == RedirectToLogin
    ensures d == RedirectToHome ==> user.Some? && RouteGuard(path).Protected?
  {
    match RouteGuard(path)
    case Open => RenderPage
    case Protected(roles) => ProtectedRoute(user, roles)
  }

  /** The applied-jobs and job-application pages admit students only. */
  lemma StudentRoutes(jobId: string, user: Option<Session>)
    ensures Access(AppliedJobs, user) == RenderPage <==> user.Some? && user.value.role == Student
    ensures Access(JobApplication(jobId), user) == RenderPage <==> user.Some? && user.value.role == Student
    ensures user.Some? && user.value.role == Recruiter ==> Access(AppliedJobs, user) == RedirectToHome
  {
  }

  /** The job-posting page admits recruiters only. */
  lemma RecruiterRoute(user: Option<Session>)
    ensures Access(PostJob, user) == RenderPage <==> user.Some? && user.value.role == Recruiter
    ensures user.Some? && user.value.role == Student ==> Access(PostJob, user) == RedirectToHome
  {
  }

  /** The profile page admits every logged-in user. */
  lemma ProfileRoute(user: Option<Session>)
    ensures Access(Profile, user) == RenderPage <==> user.Some?
  {
    if user.Some? {
      var roles := [Student, Recruiter];
      if user.value.role == Student { assert roles[0] == user.value.role; }
      else { assert roles[1] == user.value.role; }
    }
  }

  /** Without a session every protected route sends the visitor to `/login`, and every open route renders. */
  lemma LoggedOutVisitor(path: Path)
    ensures RouteGuard(path).Protected? ==> Access(path, None) == RedirectToLogin
    ensures RouteGuard(path).Open? ==> Access(path, None) == RenderPage
  {
  }
}
