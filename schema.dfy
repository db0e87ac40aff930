/**
 * The two tables of `banco.db` (server.js:31-46) as row types, and the
 * string constants the handlers write into their `tipo` and `status`
 * columns.
 */
module Schema {
  import opened Bcrypt

  datatype Option<+T> = None | Some(value: T)

  /** Values of `usuarios.tipo`: the bootstrap role and the column's default. */
  const AdminRole: string := "admin"
  const StaffRole: string := "funcionario"

  /** Values of `pacientes.status` that the handlers force. */
  const InCare: string := "Em acompanhamento"
  const Discharged: string := "Alta"

  /** A row of `usuarios`: `usuario` is the UNIQUE login, `senha` the password digest. */
  datatype User = User(id: int, nome: string, usuario: string, senha: Digest, tipo: string)

  /** A row of `pacientes`; `status` is free text in the schema. */
  datatype Patient = Patient(
    id: int,
    nome: string,
    sexo: string,
    nascimento: string,
    status: string,
    observacao: string)
}
