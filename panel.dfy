/**
 * The route handlers of server.js as functions from a state (the two tables
 * and the session) and a request to the next state and the response. Each
 * route composes its guard with its handler, as the route registrations do.
 */
module Panel {
  import opened Schema
  import opened Bcrypt
  import opened Http
  import opened Guards
  import opened Tables

  const DashboardPath: string := "/dashboard"

  /** The fixed account the bootstrap route inserts. */
  const AdminLogin: string := "admin"
  const AdminName: string := "Administrador"
  const AdminPassword: string := "admin123"

  /** The two tables of `banco.db` and the session's stored user. */
  datatype State = State(usuarios: UserTable, pacientes: PatientTable, session: Option<User>)

  /** Empty tables, nobody logged in. */
  const Initial: State := State(EmptyUsers, EmptyPatients, None)

  /** The state after a request and the response it got. */
  datatype Step = Step(next: State, response: Response)

  /** Body of POST /criar-usuario; `tipo` is whatever role the client sends, which the handler ignores. */
  datatype UserForm = UserForm(nome: string, usuario: string, senha: string, tipo: string)

  /** Body of the patient forms; `status` is ignored on creation and taken verbatim on edit. */
  datatype PatientForm = PatientForm(nome: string, sexo: string, nascimento: string, observacao: string, status: string)

  /** The requests of the core; `salt` is the random salt `hashSync` would draw. */
  datatype Request =
    | PostLogin(usuario: string, senha: string)
    | GetLogout
    | GetCreateAdmin(salt: nat)
    | PostCreateUser(user: UserForm, salt: nat)
    | GetDashboard
    | PostNewPatient(form: PatientForm)
    | GetDischarge(id: int)
    | GetEdit(id: int)
    | PostEdit(id: int, form: PatientForm)

  /** Every stored role is one of the two the server writes. */
  ghost predicate RolesKnown(t: UserTable)
  {
    forall l :: l in t.rows ==> t.rows[l].tipo == AdminRole || t.rows[l].tipo == StaffRole
  }

  /** Only the bootstrap login can hold the admin role. */
  ghost predicate AdminIsBootstrap(t: UserTable)
  {
    forall l :: l in t.rows && t.rows[l].tipo == AdminRole ==> l == AdminLogin
  }

  /** The session's user is a copy of the stored row for its login. */
  ghost predicate SessionIsRow(s: State)
  {
    s.session.Some? ==>
      s.session.value.usuario in s.usuarios.rows && s.usuarios.rows[s.session.value.usuario] == s.session.value
  }

  ghost predicate Valid(s: State)
  {
    && UsersWellFormed(s.usuarios)
    && PatientsWellFormed(s.pacientes)
    && RolesKnown(s.usuarios)
    && AdminIsBootstrap(s.usuarios)
    && SessionIsRow(s)
  }

  /** `after` is `before` with one more user: this login, name and role, and a digest of this password. */
  ghost predicate AddsUser(before: UserTable, after: UserTable, nome: string, usuario: string, senha: string, tipo: string)
  {
    && usuario !in before.rows
    && after.rows.Keys == before.rows.Keys + {usuario}
    && |after.rows| == |before.rows| + 1
    && (forall l :: l in before.rows ==> after.rows[l] == before.rows[l])
    && after.rows[usuario].nome == nome
    && after.rows[usuario].usuario == usuario
    && after.rows[usuario].tipo == tipo
    && CompareSync(senha, after.rows[usuario].senha)
    && (UsersWellFormed(before) ==> forall l :: l in before.rows ==> before.rows[l].id != after.rows[usuario].id)
  }

  /** `after` is `before` with row `id` replaced by `row` and nothing else changed. */
  ghost predicate ChangesOneRow(before: PatientTable, after: PatientTable, id: int, row: Patient)
  {
    && after.nextId == before.nextId
    && after.rows.Keys == before.rows.Keys
    && id in after.rows
    && after.rows[id] == row
    && (forall k :: k in before.rows && k != id ==> after.rows[k] == before.rows[k])
  }

  /** POST /login (server.js:90-100). */
  function Login(s: State, usuario: string, senha: string): (r: Step)
    ensures r.next.usuarios == s.usuarios && r.next.pacientes == s.pacientes
    ensures usuario !in s.usuarios.rows ==> r == Step(s, Send(UserNotFound))
    ensures usuario in s.usuarios.rows && !CompareSync(senha, s.usuarios.rows[usuario].senha) ==>
      r == Step(s, Send(WrongPassword))
    ensures usuario in s.usuarios.rows && CompareSync(senha, s.usuarios.rows[usuario].senha) ==>
      r.next.session == Some(s.usuarios.rows[usuario]) && r.response == Redirect(DashboardPath)
    ensures r.response == Redirect(DashboardPath) <==>
      usuario in s.usuarios.rows && CompareSync(senha, s.usuarios.rows[usuario].senha)
    ensures r.response != Redirect(DashboardPath) ==> r.next.session == s.session
  {
    match SelectUser(s.usuarios, usuario)
    case None => Step(s, Send(UserNotFound))
    case Some(user) =>
      if !CompareSync(senha, user.senha) then Step(s, Send(WrongPassword))
      else Step(s.(session := Some(user)), Redirect(DashboardPath))
  }

  /** GET /logout (server.js:102-105): the session is destroyed, so `auth` redirects afterwards. */
  function Logout(s: State): (r: Step)
    ensures r.next.usuarios == s.usuarios && r.next.pacientes == s.pacientes
    ensures r.next.session.None? && Auth(r.next.session) == Deny(Redirect(LoginPath))
    ensures r.response == Redirect(LoginPath)
  {
    Step(s.(session := None), Redirect(LoginPath))
  }

  /**
   * GET /criar-admin as written at server.js:113-124, unguarded: inserts the
   * fixed admin account and reports a failed insert.
   */
  function CreateAdmin(s: State, salt: nat): (r: Step)
    ensures r.next.pacientes == s.pacientes && r.next.session == s.session
    ensures AdminLogin in s.usuarios.rows <==> r.response == Send(AdminNotCreated)
    ensures AdminLogin in s.usuarios.rows ==> r.next == s
    ensures AdminLogin !in s.usuarios.rows ==>
      && r.response == Send(AdminCreated)
      && AddsUser(s.usuarios, r.next.usuarios, AdminName, AdminLogin, AdminPassword, AdminRole)
    ensures UsersWellFormed(s.usuarios) ==> UsersWellFormed(r.next.usuarios)
  {
    var senhaHash := HashSync(AdminPassword, Rounds, salt);
    var (t, w) := InsertUser(s.usuarios, AdminName, AdminLogin, senhaHash, AdminRole);
    if w.UniqueViolation? then Step(s, Send(AdminNotCreated))
    else Step(s.(usuarios := t), Send(AdminCreated))
  }

  /**
   * GET /criar-admin as Express dispatches it: the handler registered first,
   * at server.js:53-58, answers success without waiting for the insert.
   */
  function CreateAdminAsDispatched(s: State, salt: nat): (r: Step)
    ensures r.response == Send(AdminCreated)
    ensures r.next == CreateAdmin(s, salt).next
  {
    var senhaHash := HashSync(AdminPassword, Rounds, salt);
    var (t, _) := InsertUser(s.usuarios, AdminName, AdminLogin, senhaHash, AdminRole);
    Step(s.(usuarios := t), Send(AdminCreated))
  }

  /**
   * POST /criar-usuario behind `authAdmin` (server.js:132-145): the new row
   * always gets the staff role, whatever the body says.
   */
  function CreateUser(s: State, form: UserForm, salt: nat): (r: Step)
    ensures r.next.pacientes == s.pacientes && r.next.session == s.session
    ensures AuthAdmin(s.session).Deny? ==> r == Step(s, AuthAdmin(s.session).response)
    ensures AuthAdmin(s.session) == Next && form.usuario in s.usuarios.rows ==> r == Step(s, Send(UserNotCreated))
    ensures AuthAdmin(s.session) == Next && form.usuario !in s.usuarios.rows ==>
      && r.response == Send(UserCreated)
      && AddsUser(s.usuarios, r.next.usuarios, form.nome, form.usuario, form.senha, StaffRole)
    ensures UsersWellFormed(s.usuarios) ==> UsersWellFormed(r.next.usuarios)
  {
    var guard := AuthAdmin(s.session);
    if guard.Deny? then Step(s, guard.response)
    else
      var senhaHash := HashSync(form.senha, Rounds, salt);
      var (t, w) := InsertUser(s.usuarios, form.nome, form.usuario, senhaHash, StaffRole);
      if w.UniqueViolation? then Step(s, Send(UserNotCreated))
      else Step(s.(usuarios := t), Send(UserCreated))
  }

  /** GET /dashboard behind `auth` (server.js:152-156): every patient row, with the session's user. */
  function Dashboard(s: State): (r: Step)
    ensures r.next == s
    ensures s.session.None? ==> r.response == Redirect(LoginPath)
    ensures s.session.Some? ==> r.response == Render(DashboardPage(s.session.value, s.pacientes.rows))
  {
    var guard := Auth(s.session);
    if guard.Deny? then Step(s, guard.response)
    else Step(s, Render(DashboardPage(s.session.value, s.pacientes.rows)))
  }

  /**
   * POST /paciente/novo behind `auth` (server.js:162-170): one new row with
   * the form's fields and status forced to "Em acompanhamento".
   */
  function NewPatient(s: State, form: PatientForm): (r: Step)
    ensures r.next.usuarios == s.usuarios && r.next.session == s.session
    ensures s.session.None? ==> r == Step(s, Redirect(LoginPath))
    ensures s.session.Some? ==>
      var id := s.pacientes.nextId;
      && r.response == Redirect(DashboardPath)
      && r.next.pacientes.rows.Keys == s.pacientes.rows.Keys + {id}
      && r.next.pacientes.rows[id] == Patient(id, form.nome, form.sexo, form.nascimento, InCare, form.observacao)
      && (PatientsWellFormed(s.pacientes) ==>
            && id !in s.pacientes.rows
            && (forall k :: k in s.pacientes.rows ==> r.next.pacientes.rows[k] == s.pacientes.rows[k]))
    ensures PatientsWellFormed(s.pacientes) ==> PatientsWellFormed(r.next.pacientes)
  {
    var guard := Auth(s.session);
    if guard.Deny? then Step(s, guard.response)
    else
      var (t, _) := InsertPatient(s.pacientes, form.nome, form.sexo, form.nascimento, InCare, form.observacao);
      Step(s.(pacientes := t), Redirect(DashboardPath))
  }

  /**
   * GET /paciente/:id/alta behind `auth` (server.js:172-175): the row's
   * status becomes "Alta", nothing else changes; a missing id changes nothing.
   */
  function Discharge(s: State, id: int): (r: Step)
    ensures r.next.usuarios == s.usuarios && r.next.session == s.session
    ensures s.session.None? ==> r == Step(s, Redirect(LoginPath))
    ensures s.session.Some? ==> r.response == Redirect(DashboardPath)
    ensures s.session.Some? && id !in s.pacientes.rows ==> r.next == s
    ensures s.session.Some? && id in s.pacientes.rows ==>
      ChangesOneRow(s.pacientes, r.next.pacientes, id, s.pacientes.rows[id].(status := Discharged))
    ensures PatientsWellFormed(s.pacientes) ==> PatientsWellFormed(r.next.pacientes)
  {
    var guard := Auth(s.session);
    if guard.Deny? then Step(s, guard.response)
    else Step(s.(pacientes := UpdateStatus(s.pacientes, id, Discharged)), Redirect(DashboardPath))
  }

  /** GET /paciente/:id/editar behind `auth` (server.js:177-182): the row for the form, or not found. */
  function EditForm(s: State, id: int): (r: Step)
    ensures r.next == s
    ensures s.session.None? ==> r.response == Redirect(LoginPath)
    ensures s.session.Some? && id !in s.pacientes.rows ==> r.response == Send(PatientNotFound)
    ensures s.session.Some? && id in s.pacientes.rows ==> r.response == Render(EditPage(s.pacientes.rows[id]))
  {
    var guard := Auth(s.session);
    if guard.Deny? then Step(s, guard.response)
    else match SelectPatient(s.pacientes, id)
      case None => Step(s, Send(PatientNotFound))
      case Some(paciente) => Step(s, Render(EditPage(paciente)))
  }

  /**
   * POST /paciente/:id/editar behind `auth` (server.js:184-194): all five
   * fields of the matching row, status included, take the form's values
   * verbatim; no other row changes and a missing id changes nothing.
   */
  function Edit(s: State, id: int, form: PatientForm): (r: Step)
    ensures r.next.usuarios == s.usuarios && r.next.session == s.session
    ensures s.session.None? ==> r == Step(s, Redirect(LoginPath))
    ensures s.session.Some? ==> r.response == Redirect(DashboardPath)
    ensures s.session.Some? && id !in s.pacientes.rows ==> r.next == s
    ensures s.session.Some? && id in s.pacientes.rows ==>
      ChangesOneRow(s.pacientes, r.next.pacientes, id,
        Patient(s.pacientes.rows[id].id, form.nome, form.sexo, form.nascimento, form.status, form.observacao))
    ensures PatientsWellFormed(s.pacientes) ==> PatientsWellFormed(r.next.pacientes)
  {
    var guard := Auth(s.session);
    if guard.Deny? then Step(s, guard.response)
    else
      var t := UpdatePatient(s.pacientes, id, form.nome, form.sexo, form.nascimento, form.observacao, form.status);
      Step(s.(pacientes := t), Redirect(DashboardPath))
  }

  /** Route dispatch for the requests of the core. */
  function Handle(s: State, req: Request): Step
  {
    match req
    case PostLogin(usuario, senha) => Login(s, usuario, senha)
    case GetLogout => Logout(s)
    case GetCreateAdmin(salt) => CreateAdmin(s, salt)
    case PostCreateUser(form, salt) => CreateUser(s, form, salt)
    case GetDashboard => Dashboard(s)
    case PostNewPatient(form) => NewPatient(s, form)
    case GetDischarge(id) => Discharge(s, id)
    case GetEdit(id) => EditForm(s, id)
    case PostEdit(id, form) => Edit(s, id, form)
  }

  /**
   * Every route keeps the state valid. The routes that change something are
   * proved one by one below, which keeps each proof small.
   */
  lemma HandlePreservesValid(s: State, req: Request)
    requires Valid(s)
    ensures Valid(Handle(s, req).next)
  {
    match req
    case PostLogin(usuario, senha) => LoginPreservesValid(s, usuario, senha);
    case GetLogout =>
    case GetCreateAdmin(salt) => CreateAdminPreservesValid(s, salt);
    case PostCreateUser(form, salt) => CreateUserPreservesValid(s, form, salt);
    case GetDashboard =>
    case PostNewPatient(form) => PatientRoutePreservesValid(s, NewPatient(s, form));
    case GetDischarge(id) => PatientRoutePreservesValid(s, Discharge(s, id));
    case GetEdit(id) =>
    case PostEdit(id, form) => PatientRoutePreservesValid(s, Edit(s, id, form));
  }

  /** A login stores a row of the table, so the session stays a copy of its row. */
  lemma LoginPreservesValid(s: State, usuario: string, senha: string)
    requires Valid(s)
    ensures Valid(Login(s, usuario, senha).next)
  {
  }

  /** The bootstrap row is the one admin row the invariant allows. */
  lemma CreateAdminPreservesValid(s: State, salt: nat)
    requires Valid(s)
    ensures Valid(CreateAdmin(s, salt).next)
  {
  }

  /** A created user has the staff role, so no second admin appears. */
  lemma CreateUserPreservesValid(s: State, form: UserForm, salt: nat)
    requires Valid(s)
    ensures Valid(CreateUser(s, form, salt).next)
  {
  }

  /** A route that only touches `pacientes`, and keeps it well formed, keeps the state valid. */
  lemma PatientRoutePreservesValid(s: State, r: Step)
    requires Valid(s)
    requires r.next.usuarios == s.usuarios && r.next.session == s.session
    requires PatientsWellFormed(r.next.pacientes)
    ensures Valid(r.next)
  {
  }
}
