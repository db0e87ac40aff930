/**
 * The SQL statements the handlers issue, over in-memory tables. A table is
 * its rows plus the AUTOINCREMENT counter (the next id SQLite hands out);
 * `usuarios` is keyed by its UNIQUE column `usuario`, `pacientes` by its
 * primary key `id`.
 */
module Tables {
  import opened Schema
  import opened Bcrypt

  datatype UserTable = UserTable(rows: map<string, User>, nextId: int)
  datatype PatientTable = PatientTable(rows: map<int, Patient>, nextId: int)

  /** What `db.run` reports for an INSERT into `usuarios`: the new row's id, or the UNIQUE violation. */
  datatype Written = Inserted(lastId: int) | UniqueViolation

  /** Freshly created tables: no rows, AUTOINCREMENT starts at 1. */
  const EmptyUsers: UserTable := UserTable(map[], 1)
  const EmptyPatients: PatientTable := PatientTable(map[], 1)

  /** Each row sits under its own login, ids are below the counter and no two rows share one. */
  ghost predicate UsersWellFormed(t: UserTable)
  {
    && 1 <= t.nextId
    && (forall l :: l in t.rows ==> t.rows[l].usuario == l && 1 <= t.rows[l].id < t.nextId)
    && (forall a, b :: a in t.rows && b in t.rows && t.rows[a].id == t.rows[b].id ==> a == b)
  }

  /** Each row sits under its own id, and every id is below the counter. */
  ghost predicate PatientsWellFormed(t: PatientTable)
  {
    && 1 <= t.nextId
    && forall k :: k in t.rows ==> t.rows[k].id == k && 1 <= k < t.nextId
  }

  /**
   * INSERT INTO usuarios (nome, usuario, senha, tipo): refused when the login
   * is taken (the table is then unchanged), otherwise exactly one row is added
   * under a fresh id larger than every id in use.
   */
  function InsertUser(t: UserTable, nome: string, usuario: string, senha: Digest, tipo: string): (r: (UserTable, Written))
    ensures r.1.UniqueViolation? <==> usuario in t.rows
    ensures r.1.UniqueViolation? ==> r.0 == t
    ensures r.1.Inserted? ==>
      && r.0.rows.Keys == t.rows.Keys + {usuario}
      && r.0.rows[usuario] == User(r.1.lastId, nome, usuario, senha, tipo)
      && (forall l :: l in t.rows ==> r.0.rows[l] == t.rows[l])
      && |r.0.rows| == |t.rows| + 1
    ensures UsersWellFormed(t) ==> UsersWellFormed(r.0)
    ensures UsersWellFormed(t) && r.1.Inserted? ==> forall l :: l in t.rows ==> t.rows[l].id < r.1.lastId
  {
    if usuario in t.rows then (t, UniqueViolation)
    else (UserTable(t.rows[usuario := User(t.nextId, nome, usuario, senha, tipo)], t.nextId + 1), Inserted(t.nextId))
  }

  /** SELECT * FROM usuarios WHERE usuario = ?: the row whose login column matches, if any. */
  function SelectUser(t: UserTable, usuario: string): (r: Option<User>)
    ensures UsersWellFormed(t) ==> (r.Some? <==> exists l :: l in t.rows && t.rows[l].usuario == usuario)
    ensures UsersWellFormed(t) && r.Some? ==> r.value.usuario == usuario && r.value in t.rows.Values
  {
    if usuario in t.rows then Some(t.rows[usuario]) else None
  }

  /**
   * INSERT INTO pacientes: always succeeds, adding one row under the next
   * AUTOINCREMENT id, which is not in use; every other row is kept.
   */
  function InsertPatient(t: PatientTable, nome: string, sexo: string, nascimento: string, status: string, observacao: string): (r: (PatientTable, int))
    ensures r.0.rows.Keys == t.rows.Keys + {r.1}
    ensures r.0.rows[r.1] == Patient(r.1, nome, sexo, nascimento, status, observacao)
    ensures forall k :: k in t.rows && k != r.1 ==> r.0.rows[k] == t.rows[k]
    ensures PatientsWellFormed(t) ==> r.1 !in t.rows && |r.0.rows| == |t.rows| + 1 && PatientsWellFormed(r.0)
  {
    var id := t.nextId;
    (PatientTable(t.rows[id := Patient(id, nome, sexo, nascimento, status, observacao)], id + 1), id)
  }

  /** UPDATE pacientes SET status = ? WHERE id = ?: the one matching row, if any, gets the new status. */
  function UpdateStatus(t: PatientTable, id: int, status: string): (r: PatientTable)
    ensures id !in t.rows ==> r == t
    ensures r.nextId == t.nextId && r.rows.Keys == t.rows.Keys
    ensures id in t.rows ==> r.rows[id] == t.rows[id].(status := status)
    ensures forall k :: k in t.rows && k != id ==> r.rows[k] == t.rows[k]
    ensures PatientsWellFormed(t) ==> PatientsWellFormed(r)
  {
    if id in t.rows then t.(rows := t.rows[id := t.rows[id].(status := status)]) else t
  }

  /** UPDATE pacientes SET nome, sexo, nascimento, observacao, status WHERE id = ?: all five columns of the matching row. */
  function UpdatePatient(t: PatientTable, id: int, nome: string, sexo: string, nascimento: string, observacao: string, status: string): (r: PatientTable)
    ensures id !in t.rows ==> r == t
    ensures r.nextId == t.nextId && r.rows.Keys == t.rows.Keys
    ensures id in t.rows ==> r.rows[id] == Patient(t.rows[id].id, nome, sexo, nascimento, status, observacao)
    ensures forall k :: k in t.rows && k != id ==> r.rows[k] == t.rows[k]
    ensures PatientsWellFormed(t) ==> PatientsWellFormed(r)
  {
    if id in t.rows
    then t.(rows := t.rows[id := t.rows[id].(nome := nome, sexo := sexo, nascimento := nascimento, observacao := observacao, status := status)])
    else t
  }

  /** SELECT * FROM pacientes WHERE id = ?: the row with that id, or nothing. */
  function SelectPatient(t: PatientTable, id: int): (r: Option<Patient>)
    ensures r.None? <==> id !in t.rows
    ensures r.Some? ==> r.value == t.rows[id]
    ensures PatientsWellFormed(t) && r.Some? ==> r.value.id == id
  {
    if id in t.rows then Some(t.rows[id]) else None
  }
}
