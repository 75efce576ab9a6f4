/** The application shell: the current tab, the signed-in user, and which
    view a tab shows. */
module App {
  import opened Types

  datatype User = User(id: string, name: string, role: string, isAuthenticated: bool)

  datatype View = HomeView | LoginView | ActivityView | MarkAttendanceView | ReportView

  /** The tabs that need a signed-in user. */
  predicate IsProtected(tab: string)
  {
    tab == "activity" || tab == "mark" || tab == "report"
  }

  predicate IsAuthenticated(user: Option<User>)
  {
    user.Some? && user.value.isAuthenticated
  }

  /** The view shown for a tab: the login screen for a protected tab without
      an authenticated user, otherwise the tab's own view, and the home view
      for "home" and for any tab it does not recognise. */
  function RenderContent(tab: string, user: Option<User>): (v: View)
    ensures v == LoginView <==> IsProtected(tab) && !IsAuthenticated(user)
    ensures v == HomeView <==> !IsProtected(tab)
    ensures v == ActivityView <==> tab == "activity" && IsAuthenticated(user)
    ensures v == MarkAttendanceView <==> tab == "mark" && IsAuthenticated(user)
    ensures v == ReportView <==> tab == "report" && IsAuthenticated(user)
  {
    if IsProtected(tab) && !IsAuthenticated(user) then LoginView
    else if tab == "home" then HomeView
    else if tab == "activity" then ActivityView
    else if tab == "mark" then MarkAttendanceView
    else if tab == "report" then ReportView
    else HomeView
  }

  /** The user every sign-in produces. */
  const DemoUser := User("1", "John Doe", "Staff", true)

  class AppState {
    var currentTab: string
    var user: Option<User>

    constructor ()
      ensures currentTab == "home" && user == None
      ensures RenderContent(currentTab, user) == HomeView
    {
      currentTab := "home";
      user := None;
    }

    /** Signing in: always succeeds, with no credential check. */
    method HandleLogin()
      modifies this
      ensures user == Some(DemoUser) && currentTab == old(currentTab)
      ensures IsAuthenticated(user)
      ensures forall tab :: RenderContent(tab, user) != LoginView
    {
      user := Some(DemoUser);
    }

    /** The navigation bar's tab switch. */
    method SetTab(tab: string)
      modifies this
      ensures currentTab == tab && user == old(user)
    {
      currentTab := tab;
    }
  }
}
