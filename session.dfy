/**
 * The application shell: which of the four views is showing, the role picked on the first
 * screen and the signed-in user, the handlers that move between the views, and the choice of
 * the component each view renders.
 */
module App {
  import opened Wrappers
  import opened Types

  datatype View = RoleSelectionView | AuthView | OnboardingView | DashboardView

  /** The component `renderContent` puts on screen, or nothing (`null`). */
  datatype Screen =
    | Empty
    | RoleSelection
    | AuthForm(role: UserRole)
    | OnboardingStudent(user: User)
    | OnboardingTeacher(user: User)
    | OnboardingAdmin(user: User)
    | DashboardStudent(user: User)
    | DashboardTeacher(user: User)
    | DashboardAdmin(user: User)

  /** The role a role-specific component is written for. */
  function ComponentRole(s: Screen): (role: Option<UserRole>)
  {
    match s
    case OnboardingStudent(_) => Some(Student)
    case DashboardStudent(_) => Some(Student)
    case OnboardingTeacher(_) => Some(Teacher)
    case DashboardTeacher(_) => Some(Teacher)
    case OnboardingAdmin(_) => Some(Admin)
    case DashboardAdmin(_) => Some(Admin)
    case _ => None
  }

  predicate IsOnboarding(s: Screen) {
    s.OnboardingStudent? || s.OnboardingTeacher? || s.OnboardingAdmin?
  }

  predicate IsDashboard(s: Screen) {
    s.DashboardStudent? || s.DashboardTeacher? || s.DashboardAdmin?
  }

  /** Without a user nothing is shown; with one, the onboarding form for that user's role. */
  function RenderOnboarding(user: Option<User>): (s: Screen)
    ensures s == Empty <==> user.None?
    ensures user.Some? ==> IsOnboarding(s) && s.user == user.value && ComponentRole(s) == Some(user.value.role)
  {
    if user.None? then Empty
    else
      match user.value.role
      case Student => OnboardingStudent(user.value)
      case Teacher => OnboardingTeacher(user.value)
      case Admin => OnboardingAdmin(user.value)
  }

  /** Without a user nothing is shown; with one, the dashboard for that user's role. */
  function RenderDashboard(user: Option<User>): (s: Screen)
    ensures s == Empty <==> user.None?
    ensures user.Some? ==> IsDashboard(s) && s.user == user.value && ComponentRole(s) == Some(user.value.role)
  {
    if user.None? then Empty
    else
      match user.value.role
      case Student => DashboardStudent(user.value)
      case Teacher => DashboardTeacher(user.value)
      case Admin => DashboardAdmin(user.value)
  }

  /**
   * The screen for a view. The sign-in view falls back to role selection when no role has been
   * picked; only the onboarding and dashboard views can show nothing, and only without a user.
   */
  function RenderContent(view: View, role: Option<UserRole>, user: Option<User>): (s: Screen)
    ensures s == RoleSelection <==> view.RoleSelectionView? || (view.AuthView? && role.None?)
    ensures s.AuthForm? <==> view.AuthView? && role.Some?
    ensures s.AuthForm? ==> s.role == role.value
    ensures s == Empty <==> (view.OnboardingView? || view.DashboardView?) && user.None?
    ensures IsOnboarding(s) <==> view.OnboardingView? && user.Some?
    ensures IsDashboard(s) <==> view.DashboardView? && user.Some?
  {
    match view
    case RoleSelectionView => RoleSelection
    case AuthView => if role.Some? then AuthForm(role.value) else RoleSelection
    case OnboardingView => RenderOnboarding(user)
    case DashboardView => RenderDashboard(user)
  }

  /**
   * What the handlers keep true: role selection has neither role nor user, sign-in has a role,
   * onboarding has a user holding the picked role, the dashboard has a user.
   */
  predicate Consistent(view: View, role: Option<UserRole>, user: Option<User>) {
    && (view.RoleSelectionView? ==> role.None? && user.None?)
    && (view.AuthView? ==> role.Some?)
    && (view.OnboardingView? ==> role.Some? && user.Some? && user.value.role == role.value)
    && (view.DashboardView? ==> user.Some?)
  }

  /** The shell's state. */
  class Session {
    var view: View
    var userRole: Option<UserRole>
    var user: Option<User>

    predicate Valid()
      reads this
    {
      Consistent(view, userRole, user)
    }

    /** The app opens on role selection with no role and no user. */
    constructor ()
      ensures Valid()
      ensures view == RoleSelectionView && userRole == None && user == None
    {
      view := RoleSelectionView;
      userRole := None;
      user := None;
    }

    /** A role is picked: sign-in follows; the user is left as it is. */
    method RoleSelect(role: UserRole)
      requires Valid()
      modifies this
      ensures Valid()
      ensures userRole == Some(role) && view == AuthView && user == old(user)
    {
      userRole := Some(role);
      view := AuthView;
    }

    /**
     * Sign-in succeeded. With a role picked, the signed-in user takes that role (whatever role the
     * given record carries) and onboarding follows; without one nothing happens.
     */
    method AuthSuccess(loggedIn: User)
      requires Valid()
      modifies this
      ensures Valid()
      ensures old(userRole).None? ==> view == old(view) && userRole == old(userRole) && user == old(user)
      ensures old(userRole).Some? ==>
        user == Some(loggedIn.(role := old(userRole).value)) && view == OnboardingView && userRole == old(userRole)
    {
      if userRole.Some? {
        user := Some(loggedIn.(role := userRole.value));
        view := OnboardingView;
      }
    }

    /** The onboarding form handed back the updated user: the dashboard follows; the role stays. */
    method OnboardingComplete(updated: User)
      requires Valid()
      modifies this
      ensures Valid()
      ensures user == Some(updated) && view == DashboardView && userRole == old(userRole)
    {
      user := Some(updated);
      view := DashboardView;
    }

    /** Logging out, from any state, returns to the opening state. */
    method Logout()
      modifies this
      ensures Valid()
      ensures view == RoleSelectionView && userRole == None && user == None
    {
      user := None;
      userRole := None;
      view := RoleSelectionView;
    }
  }

  /**
   * In every state the handlers reach, something is on screen: the sign-in form is for the picked
   * role, and the onboarding form is the one for the signed-in user's role, which is the picked role.
   */
  lemma ValidScreens(view: View, role: Option<UserRole>, user: Option<User>)
    requires Consistent(view, role, user)
    ensures var s := RenderContent(view, role, user);
      && s != Empty
      && (view.AuthView? ==> s == AuthForm(role.value))
      && (view.OnboardingView? ==> IsOnboarding(s) && ComponentRole(s) == role && s.user == user.value)
      && (view.DashboardView? ==> IsDashboard(s) && ComponentRole(s) == Some(user.value.role))
  {
  }
}
