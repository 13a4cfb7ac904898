/**
 * The shapes of the hosted backend's requests that the form handlers issue.
 * The backend itself is not modelled: each handler receives the replies to
 * its requests as parameters and records the requests it issued, in order.
 */
module Backend {
  import opened Js

  /** The id of an authenticated user. */
  type UserId = string

  /** Access level of an ordinary account and of a coordinator account. */
  const RegularLevel := "usuario"
  const AdminLevel := "admin"

  /** A row of the user-profile table, as the handlers insert it. */
  datatype ProfileRow = ProfileRow(id: UserId, nome: string, nivelAcesso: string, ativo: bool)

  /** The user object the auth service returns. */
  datatype AuthUser = AuthUser(id: UserId, email: Option<string>)

  /** `{ data: { user }, error }` as returned by a sign-up or sign-in request;
      `error` holds the error's message. */
  datatype AuthReply = AuthReply(user: Option<AuthUser>, error: Option<string>)

  /** `{ data, error }` as returned by a single-row select. */
  datatype QueryReply<T> = QueryReply(data: Option<T>, error: Option<string>)

  /** One remote request. */
  datatype Call =
    | SignUp(email: string, password: string, nome: string)
    | SignInWithPassword(email: string, password: string)
    | SelectProfile(table: string, id: UserId)
    | InsertProfile(table: string, row: ProfileRow)
    | SignOut

  /** The profile both handlers insert when none is found: an active,
      ordinary account. */
  function NewProfile(id: UserId, nome: string): (row: ProfileRow)
    ensures row.id == id && row.nome == nome
    ensures row.nivelAcesso == RegularLevel && row.nivelAcesso != AdminLevel && row.ativo
  {
    ProfileRow(id, nome, RegularLevel, true)
  }

  /** No request in `calls` inserts a profile with any level but the
      ordinary one, or an inactive profile. */
  ghost predicate InsertsOnlyRegularProfiles(calls: seq<Call>) {
    forall i :: 0 <= i < |calls| && calls[i].InsertProfile? ==>
      calls[i].row.nivelAcesso == RegularLevel && calls[i].row.ativo
  }
}
