/**
 * Sequences of requests against one server: what stays true across any
 * run of the core's routes, and the bootstrap-to-discharge walk through.
 */
module Traces {
  import opened Schema
  import opened Bcrypt
  import opened Http
  import opened Guards
  import opened Tables
  import opened Panel

  /** The state after serving `reqs` in order, and the responses they got. */
  function Run(s: State, reqs: seq<Request>): (r: (State, seq<Response>))
    ensures |r.1| == |reqs|
    ensures reqs != [] ==> r.1[0] == Handle(s, reqs[0]).response
    decreases |reqs|
  {
    if reqs == [] then (s, [])
    else
      var step := Handle(s, reqs[0]);
      var rest := Run(step.next, reqs[1..]);
      (rest.0, [step.response] + rest.1)
  }

  lemma {:induction false} RunPreservesValid(s: State, reqs: seq<Request>)
    requires Valid(s)
    ensures Valid(Run(s, reqs).0)
    decreases |reqs|
  {
    if reqs != [] {
      HandlePreservesValid(s, reqs[0]);
      RunPreservesValid(Handle(s, reqs[0]).next, reqs[1..]);
    }
  }

  /** No route deletes or alters a user row, and none deletes a patient row. */
  lemma HandleKeepsRecords(s: State, req: Request)
    requires Valid(s)
    ensures var t := Handle(s, req).next;
      && (forall l :: l in s.usuarios.rows ==> l in t.usuarios.rows && t.usuarios.rows[l] == s.usuarios.rows[l])
      && s.pacientes.rows.Keys <= t.pacientes.rows.Keys
  {
  }

  lemma {:induction false} RunKeepsRecords(s: State, reqs: seq<Request>)
    requires Valid(s)
    ensures var t := Run(s, reqs).0;
      && (forall l :: l in s.usuarios.rows ==> l in t.usuarios.rows && t.usuarios.rows[l] == s.usuarios.rows[l])
      && s.pacientes.rows.Keys <= t.pacientes.rows.Keys
    decreases |reqs|
  {
    if reqs != [] {
      HandleKeepsRecords(s, reqs[0]);
      HandlePreservesValid(s, reqs[0]);
      RunKeepsRecords(Handle(s, reqs[0]).next, reqs[1..]);
    }
  }

  /**
   * From a valid state, whatever requests arrive, the only account that can
   * hold the admin role is the bootstrap login, so there is at most one admin.
   */
  lemma {:induction false} SingleAdmin(s: State, reqs: seq<Request>, a: string, b: string)
    requires Valid(s)
    requires var t := Run(s, reqs).0.usuarios;
      a in t.rows && b in t.rows && t.rows[a].tipo == AdminRole && t.rows[b].tipo == AdminRole
    ensures a == b == AdminLogin
  {
    RunPreservesValid(s, reqs);
  }

  /** A staff session is refused with 403 at user creation and changes nothing. */
  lemma StaffCannotCreateUsers(s: State, form: UserForm, salt: nat)
    requires Valid(s) && s.session.Some? && s.session.value.tipo != AdminRole
    ensures Handle(s, PostCreateUser(form, salt)) == Step(s, Status(403, AdminOnly))
  {
  }

  /**
   * Provisioned credentials work: after a staff account is created, its
   * login with its password stores the new row in the session, and with any
   * other password is refused as a wrong password.
   */
  lemma ProvisionedCredentialsLogIn(s: State, form: UserForm, salt: nat, other: string)
    requires Valid(s) && CreateUser(s, form, salt).response == Send(UserCreated)
    requires other != form.senha
    ensures var t := CreateUser(s, form, salt).next;
      && Login(t, form.usuario, form.senha) == Step(t.(session := Some(t.usuarios.rows[form.usuario])), Redirect(DashboardPath))
      && t.usuarios.rows[form.usuario].tipo == StaffRole
      && Login(t, form.usuario, other) == Step(t, Send(WrongPassword))
  {
  }

  /**
   * Bootstrapping twice: the first call adds exactly the admin account, the
   * second reports the failed insert and leaves the user count unchanged.
   */
  lemma BootstrapTwice(s: State, salt1: nat, salt2: nat)
    requires Valid(s) && AdminLogin !in s.usuarios.rows
    ensures var first := Handle(s, GetCreateAdmin(salt1));
      var second := Handle(first.next, GetCreateAdmin(salt2));
      && first.response == Send(AdminCreated)
      && |first.next.usuarios.rows| == |s.usuarios.rows| + 1
      && first.next.usuarios.rows[AdminLogin].tipo == AdminRole
      && second == Step(first.next, Send(AdminNotCreated))
  {
  }

  /**
   * The routes the handler registered first answers for: a second bootstrap
   * still reports success although nothing was inserted.
   */
  lemma DispatchedBootstrapHidesDuplicate(salt1: nat, salt2: nat)
    ensures var first := CreateAdminAsDispatched(Initial, salt1);
      var second := CreateAdminAsDispatched(first.next, salt2);
      && |first.next.usuarios.rows| == 1
      && second.response == Send(AdminCreated)
      && second.next == first.next
      && CreateAdmin(first.next, salt2).response == Send(AdminNotCreated)
  {
  }

  /** The requests of the walk-through: bootstrap, staff account, one patient from intake to discharge. */
  const Walkthrough: seq<Request> :=
    [ GetCreateAdmin(0),
      PostLogin(AdminLogin, AdminPassword),
      PostCreateUser(UserForm("Ana", "ana1", "segredo-ana", AdminRole), 1),
      GetLogout,
      PostLogin("ana1", "segredo-ana"),
      PostNewPatient(PatientForm("Maria", "F", "1980-05-02", "", Discharged)),
      GetDashboard,
      GetDischarge(1),
      GetDashboard ]

  /** The state after serving the first `k` requests of `reqs`. */
  function Served(s: State, reqs: seq<Request>, k: nat): State
    requires k <= |reqs|
    decreases k
  {
    if k == 0 then s else Handle(Served(s, reqs, k - 1), reqs[k - 1]).next
  }

  lemma {:induction false} ServedShift(s: State, reqs: seq<Request>, k: nat)
    requires k < |reqs|
    ensures Served(Handle(s, reqs[0]).next, reqs[1..], k) == Served(s, reqs, k + 1)
    decreases k
  {
    if k > 0 {
      ServedShift(s, reqs, k - 1);
    }
  }

  /** Run serves the requests one after the other: the i-th response is the i-th request's, in the state the earlier ones left. */
  lemma {:induction false} RunIsSequential(s: State, reqs: seq<Request>)
    ensures Run(s, reqs).0 == Served(s, reqs, |reqs|)
    ensures forall i :: 0 <= i < |reqs| ==> Run(s, reqs).1[i] == Handle(Served(s, reqs, i), reqs[i]).response
    decreases |reqs|
  {
    if reqs != [] {
      var t := Handle(s, reqs[0]).next;
      RunIsSequential(t, reqs[1..]);
      ServedShift(s, reqs, |reqs| - 1);
      forall i | 0 < i < |reqs|
        ensures Run(s, reqs).1[i] == Handle(Served(s, reqs, i), reqs[i]).response
      {
        ServedShift(s, reqs, i - 1);
        assert Run(s, reqs).1[i] == Run(t, reqs[1..]).1[i - 1];
      }
    }
  }

  /** The two accounts of the walk-through, as stored, and Maria's row before and after discharge. */
  const AdminRow: User := User(1, AdminName, AdminLogin, HashSync(AdminPassword, Rounds, 0), AdminRole)
  const AnaRow: User := User(2, "Ana", "ana1", HashSync("segredo-ana", Rounds, 1), StaffRole)
  const Accounts: UserTable := UserTable(map[AdminLogin := AdminRow, "ana1" := AnaRow], 3)
  const MariaInCare: PatientTable := PatientTable(map[1 := Patient(1, "Maria", "F", "1980-05-02", InCare, "")], 2)
  const MariaDischarged: PatientTable := PatientTable(map[1 := Patient(1, "Maria", "F", "1980-05-02", Discharged, "")], 2)

  /** The walk-through one request at a time. */
  lemma WalkthroughBootstrap()
    ensures Handle(Initial, Walkthrough[0]).next == State(UserTable(map[AdminLogin := AdminRow], 2), EmptyPatients, None)
  {
  }

  lemma WalkthroughAdminLogin()
    ensures var s := State(UserTable(map[AdminLogin := AdminRow], 2), EmptyPatients, None);
      Handle(s, Walkthrough[1]).next == s.(session := Some(AdminRow))
  {
  }

  /** Ana is stored with the staff role although the body asked for admin. */
  lemma WalkthroughCreateStaff()
    ensures var s := State(UserTable(map[AdminLogin := AdminRow], 2), EmptyPatients, Some(AdminRow));
      Handle(s, Walkthrough[2]) == Step(State(Accounts, EmptyPatients, Some(AdminRow)), Send(UserCreated))
  {
  }

  lemma WalkthroughStaffLogin()
    ensures Handle(State(Accounts, EmptyPatients, Some(AdminRow)), Walkthrough[3]).next == State(Accounts, EmptyPatients, None)
    ensures Handle(State(Accounts, EmptyPatients, None), Walkthrough[4]).next == State(Accounts, EmptyPatients, Some(AnaRow))
  {
    assert SelectUser(Accounts, "ana1") == Some(AnaRow);
  }

  /** Maria is stored in care although the form said otherwise. */
  lemma WalkthroughIntake()
    ensures Handle(State(Accounts, EmptyPatients, Some(AnaRow)), Walkthrough[5]).next == State(Accounts, MariaInCare, Some(AnaRow))
  {
  }

  lemma WalkthroughDischarge()
    ensures var s := State(Accounts, MariaInCare, Some(AnaRow));
      Handle(s, Walkthrough[6]) == Step(s, Render(DashboardPage(AnaRow, MariaInCare.rows)))
    ensures Handle(State(Accounts, MariaInCare, Some(AnaRow)), Walkthrough[7]).next == State(Accounts, MariaDischarged, Some(AnaRow))
    ensures var s := State(Accounts, MariaDischarged, Some(AnaRow));
      Handle(s, Walkthrough[8]) == Step(s, Render(DashboardPage(AnaRow, MariaDischarged.rows)))
  {
  }

  /**
   * The whole walk-through from empty tables: the two dashboards list Maria,
   * first in care and then discharged, and Ana's session remains.
   */
  lemma WalkthroughOutcome()
    ensures var (t, rs) := Run(Initial, Walkthrough);
      && t.usuarios.rows.Keys == {AdminLogin, "ana1"}
      && t.usuarios.rows["ana1"].tipo == StaffRole
      && t.session.Some? && t.session.value.usuario == "ana1"
      && rs[6].Render? && rs[6].view.DashboardPage? && rs[6].view.pacientes.Keys == {1}
      && rs[6].view.pacientes[1].nome == "Maria" && rs[6].view.pacientes[1].status == InCare
      && rs[8].Render? && rs[8].view.DashboardPage? && rs[8].view.pacientes.Keys == {1}
      && rs[8].view.pacientes[1].status == Discharged
  {
    var w := Walkthrough;
    RunIsSequential(Initial, w);
    WalkthroughBootstrap();
    WalkthroughAdminLogin();
    WalkthroughCreateStaff();
    WalkthroughStaffLogin();
    WalkthroughIntake();
    WalkthroughDischarge();
    assert Served(Initial, w, 1) == State(UserTable(map[AdminLogin := AdminRow], 2), EmptyPatients, None);
    assert Served(Initial, w, 2) == State(UserTable(map[AdminLogin := AdminRow], 2), EmptyPatients, Some(AdminRow));
    assert Served(Initial, w, 3) == State(Accounts, EmptyPatients, Some(AdminRow));
    assert Served(Initial, w, 4) == State(Accounts, EmptyPatients, None);
    assert Served(Initial, w, 5) == State(Accounts, EmptyPatients, Some(AnaRow));
    assert Served(Initial, w, 6) == State(Accounts, MariaInCare, Some(AnaRow));
    assert Served(Initial, w, 7) == State(Accounts, MariaInCare, Some(AnaRow));
    assert Served(Initial, w, 8) == State(Accounts, MariaDischarged, Some(AnaRow));
    assert Served(Initial, w, 9) == State(Accounts, MariaDischarged, Some(AnaRow));
  }
}
