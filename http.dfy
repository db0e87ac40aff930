/**
 * What a handler sends back, reduced to an outcome tag: a redirect, a
 * status code, a plain message, or a rendered view with the data passed
 * to the template.
 */
module Http {
  import opened Schema

  /** The plain-text bodies the handlers send. */
  datatype Message =
    | LoginRequired      // authAdmin, no session user
    | AdminOnly          // authAdmin, session user is not an admin
    | UserNotFound       // POST /login, unknown login
    | WrongPassword      // POST /login, password does not verify
    | AdminCreated       // GET /criar-admin
    | AdminNotCreated    // GET /criar-admin, insert failed
    | UserCreated        // POST /criar-usuario
    | UserNotCreated     // POST /criar-usuario, insert failed
    | PatientNotFound    // GET /paciente/:id/editar, no such row

  /** The templates rendered with data, and that data. */
  datatype View =
    | DashboardPage(user: User, pacientes: map<int, Patient>)
    | EditPage(paciente: Patient)

  datatype Response =
    | Redirect(location: string)
    | Status(code: int, message: Message)
    | Send(message: Message)
    | Render(view: View)
}
