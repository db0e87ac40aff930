/**
 * The running server: the two tables of `banco.db` and the session's user
 * as fields that each route updates in place. Every route method is proved
 * to do what the corresponding Panel route function says, and to keep the
 * state valid.
 */
module Server {
  import opened Schema
  import opened Bcrypt
  import opened Http
  import opened Guards
  import opened Tables
  import Panel

  class App {
    var usuarios: UserTable
    var pacientes: PatientTable
    var session: Option<User>

    /** The server's state as a value. */
    function State(): Panel.State
      reads this
    {
      Panel.State(usuarios, pacientes, session)
    }

    ghost predicate Valid()
      reads this
    {
      Panel.Valid(State())
    }

    /** A server started on a new `banco.db`: freshly created tables, nobody logged in. */
    constructor ()
      ensures Valid() && State() == Panel.Initial
    {
      usuarios := EmptyUsers;
      pacientes := EmptyPatients;
      session := None;
    }

    /**
     * A server restarted on an existing `banco.db`: `CREATE TABLE IF NOT EXISTS`
     * keeps the stored rows, while the in-memory session store starts empty.
     */
    constructor Restart(storedUsers: UserTable, storedPatients: PatientTable)
      requires Panel.Valid(Panel.State(storedUsers, storedPatients, None))
      ensures Valid() && State() == Panel.State(storedUsers, storedPatients, None)
    {
      usuarios := storedUsers;
      pacientes := storedPatients;
      session := None;
    }

    /** POST /login: looks the login up, checks the password, stores the row in the session. */
    method Login(usuario: string, senha: string) returns (resp: Response)
      requires Valid()
      modifies this`session
      ensures Valid()
      ensures Panel.Step(State(), resp) == Panel.Handle(old(State()), Panel.PostLogin(usuario, senha))
    {
      Panel.HandlePreservesValid(State(), Panel.PostLogin(usuario, senha));
      var user := SelectUser(usuarios, usuario);
      if user.None? {
        return Send(UserNotFound);
      }
      if !CompareSync(senha, user.value.senha) {
        return Send(WrongPassword);
      }
      session := user;
      resp := Redirect(Panel.DashboardPath);
    }

    /** GET /logout: destroys the session. */
    method Logout() returns (resp: Response)
      requires Valid()
      modifies this`session
      ensures Valid()
      ensures Panel.Step(State(), resp) == Panel.Handle(old(State()), Panel.GetLogout)
      ensures Auth(session).Deny?
    {
      Panel.HandlePreservesValid(State(), Panel.GetLogout);
      session := None;
      resp := Redirect(LoginPath);
    }

    /** GET /criar-admin (the variant that reports a failed insert): inserts the fixed admin account. */
    method CreateAdmin(salt: nat) returns (resp: Response)
      requires Valid()
      modifies this`usuarios
      ensures Valid()
      ensures Panel.Step(State(), resp) == Panel.Handle(old(State()), Panel.GetCreateAdmin(salt))
    {
      Panel.HandlePreservesValid(State(), Panel.GetCreateAdmin(salt));
      var senhaHash := HashSync(Panel.AdminPassword, Rounds, salt);
      var inserted := InsertUser(usuarios, Panel.AdminName, Panel.AdminLogin, senhaHash, AdminRole);
      if inserted.1.UniqueViolation? {
        return Send(AdminNotCreated);
      }
      usuarios := inserted.0;
      resp := Send(AdminCreated);
    }

    /** POST /criar-usuario behind authAdmin: inserts a staff account. */
    method CreateUser(form: Panel.UserForm, salt: nat) returns (resp: Response)
      requires Valid()
      modifies this`usuarios
      ensures Valid()
      ensures Panel.Step(State(), resp) == Panel.Handle(old(State()), Panel.PostCreateUser(form, salt))
    {
      Panel.HandlePreservesValid(State(), Panel.PostCreateUser(form, salt));
      var guard := AuthAdmin(session);
      if guard.Deny? {
        return guard.response;
      }
      var senhaHash := HashSync(form.senha, Rounds, salt);
      var inserted := InsertUser(usuarios, form.nome, form.usuario, senhaHash, StaffRole);
      if inserted.1.UniqueViolation? {
        return Send(UserNotCreated);
      }
      usuarios := inserted.0;
      resp := Send(UserCreated);
    }

    /** GET /dashboard behind auth: lists every patient; changes nothing. */
    method Dashboard() returns (resp: Response)
      requires Valid()
      ensures Panel.Step(State(), resp) == Panel.Handle(State(), Panel.GetDashboard)
    {
      var guard := Auth(session);
      if guard.Deny? {
        return guard.response;
      }
      resp := Render(DashboardPage(session.value, pacientes.rows));
    }

    /** POST /paciente/novo behind auth: inserts the patient in care. */
    method NewPatient(form: Panel.PatientForm) returns (resp: Response)
      requires Valid()
      modifies this`pacientes
      ensures Valid()
      ensures Panel.Step(State(), resp) == Panel.Handle(old(State()), Panel.PostNewPatient(form))
    {
      Panel.HandlePreservesValid(State(), Panel.PostNewPatient(form));
      var guard := Auth(session);
      if guard.Deny? {
        return guard.response;
      }
      var inserted := InsertPatient(pacientes, form.nome, form.sexo, form.nascimento, InCare, form.observacao);
      pacientes := inserted.0;
      resp := Redirect(Panel.DashboardPath);
    }

    /** GET /paciente/:id/alta behind auth: marks the patient discharged. */
    method Discharge(id: int) returns (resp: Response)
      requires Valid()
      modifies this`pacientes
      ensures Valid()
      ensures Panel.Step(State(), resp) == Panel.Handle(old(State()), Panel.GetDischarge(id))
    {
      Panel.HandlePreservesValid(State(), Panel.GetDischarge(id));
      var guard := Auth(session);
      if guard.Deny? {
        return guard.response;
      }
      pacientes := UpdateStatus(pacientes, id, Discharged);
      resp := Redirect(Panel.DashboardPath);
    }

    /** GET /paciente/:id/editar behind auth: fetches the row for the edit form; changes nothing. */
    method EditForm(id: int) returns (resp: Response)
      requires Valid()
      ensures Panel.Step(State(), resp) == Panel.Handle(State(), Panel.GetEdit(id))
      ensures session.Some? ==> (resp == Send(PatientNotFound) <==> id !in pacientes.rows)
    {
      var guard := Auth(session);
      if guard.Deny? {
        return guard.response;
      }
      var paciente := SelectPatient(pacientes, id);
      if paciente.None? {
        return Send(PatientNotFound);
      }
      resp := Render(EditPage(paciente.value));
    }

    /** POST /paciente/:id/editar behind auth: overwrites the row's five fields. */
    method Edit(id: int, form: Panel.PatientForm) returns (resp: Response)
      requires Valid()
      modifies this`pacientes
      ensures Valid()
      ensures Panel.Step(State(), resp) == Panel.Handle(old(State()), Panel.PostEdit(id, form))
    {
      Panel.HandlePreservesValid(State(), Panel.PostEdit(id, form));
      var guard := Auth(session);
      if guard.Deny? {
        return guard.response;
      }
      pacientes := UpdatePatient(pacientes, id, form.nome, form.sexo, form.nascimento, form.observacao, form.status);
      resp := Redirect(Panel.DashboardPath);
    }
  }
}
