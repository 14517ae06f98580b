/**
 * The side menu (src/components/Header.tsx): which links it shows for the session's role.
 * The Logout button is shown for every role.
 */
module Header {
  import opened Js
  import opened Types
  import PrivateRoute

  /** A menu entry: its text and the path it links to. */
  datatype MenuLink = MenuLink(text: string, to: string)

  const DashboardLink := MenuLink("Dashboard", "/")
  const ProfileLink := MenuLink("Perfil", "/profile")
  const EvaluationLink := MenuLink("Evaluación", "/evaluation")
  const EmployeesLink := MenuLink("Empleados", "/employees")
  const EvaluationsLink := MenuLink("Crear Evaluaciones", "/evaluations")

  /** The links in order: Dashboard always; Perfil for any non-empty role; Evaluación for
      the employee role; Empleados and Crear Evaluaciones for the admin role. No role sees
      both the employee's and the admin's links. */
  function Menu(role: Option<string>): (links: seq<MenuLink>)
    ensures |links| >= 1 && links[0] == DashboardLink
    ensures ProfileLink in links <==> PrivateRoute.Present(role)
    ensures EvaluationLink in links <==> role == Some(EmployeeRole)
    ensures EmployeesLink in links <==> role == Some(AdminRole)
    ensures EvaluationsLink in links <==> role == Some(AdminRole)
    ensures !(EvaluationLink in links && EmployeesLink in links)
    ensures forall l :: l in links ==> l in [DashboardLink, ProfileLink, EvaluationLink, EmployeesLink, EvaluationsLink]
  {
    [DashboardLink]
      + (if PrivateRoute.Present(role) then [ProfileLink] else [])
      + (if role == Some(EmployeeRole) then [EvaluationLink] else [])
      + (if role == Some(AdminRole) then [EmployeesLink, EvaluationsLink] else [])
  }
}
