/**
 * The sign-up form's submit handler: the client-side password checks, the
 * sign-up request carrying the display name, the fallback insert of a
 * profile row when the database trigger left none, the redirect to the login
 * page, and the translation of the caught error into the message shown.
 *
 * The replies of the remote requests are parameters; the requests issued are
 * recorded in order. The one-second wait for the trigger is not modelled.
 */
module SignUpForm {
  import opened Js
  import opened Backend
  import opened Routes

  /** The profile table this form reads and writes. */
  const ProfileTable := "perfis_usuario"
  const MinPasswordLength := 6

  const PasswordsDiffer := "As senhas não coincidem"
  const PasswordTooShort := "A senha deve ter pelo menos 6 caracteres"
  const UserNotCreated := "Erro ao criar usuário"
  const EmailTaken := "Este email já está cadastrado"
  const EmailInvalid := "Email inválido"
  const GenericError := "Ocorreu um erro ao criar a conta"

  /** The two client-side checks in the order they run: the message of the
      first that fails, or `None` when both pass. */
  function PasswordProblem(password: string, repeatPassword: string): (r: Option<string>)
    ensures r.None? <==> password == repeatPassword && |password| >= MinPasswordLength
    ensures r.Some? ==> r.value in {PasswordsDiffer, PasswordTooShort}
  {
    if password != repeatPassword then Some(PasswordsDiffer)
    else if |password| < MinPasswordLength then Some(PasswordTooShort)
    else None
  }

  /** The checks pass exactly for two equal passwords of at least six
      characters; a mismatch is reported whatever the length. */
  lemma PasswordProblemCases(password: string, repeatPassword: string)
    ensures PasswordProblem(password, repeatPassword).None? <==>
      password == repeatPassword && |password| >= MinPasswordLength
    ensures password != repeatPassword ==> PasswordProblem(password, repeatPassword) == Some(PasswordsDiffer)
    ensures password == repeatPassword && |password| < MinPasswordLength ==>
      PasswordProblem(password, repeatPassword) == Some(PasswordTooShort)
  {
  }

  /** The name sent with the account and written to a fallback profile: the
      name typed in, or else the part of the email before its first `@`. */
  function DisplayName(nome: string, email: string): (r: string)
    ensures Truthy(nome) ==> r == nome
    ensures !Truthy(nome) ==> '@' !in r && StartsWith(email, r) && (|r| < |email| ==> email[|r|] == '@')
  {
    if Truthy(nome) then nome else SplitHead(email, '@')
  }

  /** Without a typed name, the local part of an address is used; an email
      without `@` is used whole. */
  lemma {:induction false} DisplayNameOfAddress(local: string, domain: string)
    requires '@' !in local
    ensures DisplayName("", local + "@" + domain) == local
    ensures DisplayName("", local) == local
  {
    var email := local + "@" + domain;
    assert email[..|local|] == local && email[|local|] == '@';
    SplitHeadUnique(email, '@', local);
    SplitHeadCases(local, '@');
  }

  /** The message shown for a caught value: three known auth messages are
      translated, tested in this order; any other error shows its own message. */
  function Translate(e: Thrown): (r: string)
    ensures r in {EmailTaken, PasswordTooShort, EmailInvalid, GenericError} || (e.Error? && r == e.message)
  {
    match e
    case NonError => GenericError
    case Error(m) =>
      if Includes(m, "User already registered") then EmailTaken
      else if Includes(m, "Password should be at least") then PasswordTooShort
      else if Includes(m, "Invalid email") then EmailInvalid
      else m
  }

  /** A message that mentions a registered user is reported as a taken email,
      whatever else it says. */
  lemma RegisteredReported(pre: string, post: string)
    ensures Translate(Error(pre + "User already registered" + post)) == EmailTaken
  {
    IncludesInContext(pre, "User already registered", post);
  }

  /** The password-length message is reported when no earlier pattern
      matched. */
  lemma ShortPasswordReported(pre: string, post: string)
    requires !Includes(pre + "Password should be at least" + post, "User already registered")
    ensures Translate(Error(pre + "Password should be at least" + post)) == PasswordTooShort
  {
    IncludesInContext(pre, "Password should be at least", post);
  }

  /** The invalid-email message is reported when no earlier pattern matched. */
  lemma InvalidEmailReported(m: string)
    requires Includes(m, "Invalid email")
    requires !Includes(m, "User already registered") && !Includes(m, "Password should be at least")
    ensures Translate(Error(m)) == EmailInvalid
  {
  }

  /** Any other error is shown as it is; a thrown non-error gets the generic
      message. */
  lemma OtherErrorsShownRaw(m: string)
    requires !Includes(m, "User already registered") && !Includes(m, "Password should be at least")
    requires !Includes(m, "Invalid email")
    ensures Translate(Error(m)) == m
    ensures Translate(NonError) == GenericError
  {
  }

  /** What the `try` block does once the checks have passed: the requests it
      issues, the value it throws, if any, and whether it reaches the redirect. */
  datatype Attempt = Attempt(calls: seq<Call>, thrown: Option<Thrown>, redirected: bool)

  /**
   * The `try` block. `signUp` answers the sign-up request, `lookup` the
   * select of the new user's profile row, `insert` the fallback insert (its
   * `Resolved` value is the insert's error, if any). A reply is consulted
   * only if its request is issued.
   */
  function Submit(nome: string, email: string, password: string,
                  signUp: Reply<AuthReply>, lookup: Reply<QueryReply<UserId>>,
                  insert: Reply<Option<string>>): (a: Attempt)
    ensures 1 <= |a.calls| <= 3 && a.calls[0].SignUp?
    ensures forall i :: 1 <= i < |a.calls| ==>
      (a.calls[i].SelectProfile? || a.calls[i].InsertProfile?) && a.calls[i].table == ProfileTable
  {
    var name := DisplayName(nome, email);
    var signing := [Call.SignUp(email, password, name)];
    match signUp
    case Rejected(t) => Attempt(signing, Some(t), false)
    case Resolved(reply) =>
      if reply.error.Some? then Attempt(signing, Some(Error(reply.error.value)), false)
      else if reply.user.None? then Attempt(signing, Some(Error(UserNotCreated)), false)
      else
        var id := reply.user.value.id;
        var looking := signing + [SelectProfile(ProfileTable, id)];
        match lookup
        case Rejected(t) => Attempt(looking, Some(t), false)
        case Resolved(q) =>
          if q.data.None? && q.error.None? then
            var inserting := looking + [InsertProfile(ProfileTable, NewProfile(id, name))];
            match insert
            case Rejected(t) => Attempt(inserting, Some(t), false)
            case Resolved(_) => Attempt(inserting, None, true)
          else
            Attempt(looking, None, true)
  }

  /** The sign-up request comes first and carries the display name. */
  lemma SignUpRequestFirst(nome: string, email: string, password: string,
                           signUp: Reply<AuthReply>, lookup: Reply<QueryReply<UserId>>,
                           insert: Reply<Option<string>>)
    ensures var a := Submit(nome, email, password, signUp, lookup, insert);
      |a.calls| >= 1 && a.calls[0] == Call.SignUp(email, password, DisplayName(nome, email))
  {
  }

  /** The attempt either throws or reaches the redirect, never both. */
  lemma ThrowsOrRedirects(nome: string, email: string, password: string,
                          signUp: Reply<AuthReply>, lookup: Reply<QueryReply<UserId>>,
                          insert: Reply<Option<string>>)
    ensures var a := Submit(nome, email, password, signUp, lookup, insert);
      a.redirected <==> a.thrown.None?
  {
  }

  /** A sign-up error, or a reply without a user, ends the attempt after the
      sign-up request with that error thrown. */
  lemma SignUpFailureStops(nome: string, email: string, password: string,
                           reply: AuthReply, lookup: Reply<QueryReply<UserId>>,
                           insert: Reply<Option<string>>)
    requires reply.error.Some? || reply.user.None?
    ensures var a := Submit(nome, email, password, Resolved(reply), lookup, insert);
      && |a.calls| == 1 && !a.redirected
      && a.thrown == Some(Error(if reply.error.Some? then reply.error.value else UserNotCreated))
  {
  }

  /** The fallback profile is inserted exactly when the account was created
      and the lookup returned neither a row nor an error; it is then the
      third request, in this form's table, an active ordinary profile named
      with the display name. */
  lemma FallbackInsertIff(nome: string, email: string, password: string,
                          signUp: Reply<AuthReply>, lookup: Reply<QueryReply<UserId>>,
                          insert: Reply<Option<string>>)
    ensures var a := Submit(nome, email, password, signUp, lookup, insert);
      (exists i :: 0 <= i < |a.calls| && a.calls[i].InsertProfile?) <==>
        && signUp.Resolved? && signUp.value.error.None? && signUp.value.user.Some?
        && lookup == Resolved(QueryReply(None, None))
    ensures var a := Submit(nome, email, password, signUp, lookup, insert);
      InsertsOnlyRegularProfiles(a.calls)
    ensures var a := Submit(nome, email, password, signUp, lookup, insert);
      |a.calls| == 3 ==>
        a.calls[2] == InsertProfile(ProfileTable, NewProfile(signUp.value.user.value.id, DisplayName(nome, email)))
  {
    var a := Submit(nome, email, password, signUp, lookup, insert);
    if |a.calls| == 3 {
      assert a.calls[2].InsertProfile?;
    }
  }

  /** A failed fallback insert is ignored: the user is still sent to the login
      page. */
  lemma InsertFailureStillRedirects(nome: string, email: string, password: string,
                                    id: UserId, userEmail: Option<string>, insertError: string)
    ensures var a := Submit(nome, email, password,
                            Resolved(AuthReply(Some(AuthUser(id, userEmail)), None)),
                            Resolved(QueryReply(None, None)), Resolved(Some(insertError)));
      a.redirected && a.thrown.None? && |a.calls| == 3
  {
  }

  /** The form's state. The four inputs are what the user typed; `calls`
      records the remote requests issued so far. */
  class SignUpForm {
    var nome: string
    var email: string
    var password: string
    var repeatPassword: string
    var error: Option<string>
    var isLoading: bool
    var redirect: Option<string>
    var signedOut: bool
    var calls: seq<Call>

    constructor ()
      ensures nome == "" && email == "" && password == "" && repeatPassword == ""
      ensures error.None? && !isLoading && redirect.None? && !signedOut && calls == []
    {
      nome, email, password, repeatPassword := "", "", "", "";
      error, isLoading, redirect, signedOut, calls := None, false, None, false, [];
    }

    /**
     * `handleSignUp`. A failed check sets its message and issues no request;
     * otherwise the attempt runs, a thrown value is translated into the
     * message shown, and a completed attempt redirects to the login page with
     * the message cleared. Loading ends on every path, and this form never
     * signs out.
     */
    method HandleSignUp(signUp: Reply<AuthReply>, lookup: Reply<QueryReply<UserId>>,
                        insert: Reply<Option<string>>)
      modifies this
      ensures nome == old(nome) && email == old(email)
      ensures password == old(password) && repeatPassword == old(repeatPassword)
      ensures !isLoading && signedOut == old(signedOut)
      ensures PasswordProblem(password, repeatPassword).Some? ==>
        && error == PasswordProblem(password, repeatPassword)
        && calls == old(calls) && redirect == old(redirect)
      ensures PasswordProblem(password, repeatPassword).None? ==>
        var a := Submit(nome, email, password, signUp, lookup, insert);
        && calls == old(calls) + a.calls
        && error == (if a.thrown.Some? then Some(Translate(a.thrown.value)) else None)
        && redirect == (if a.redirected then Some(LoginPage) else old(redirect))
    {
      isLoading := true;
      error := None;

      var problem := PasswordProblem(password, repeatPassword);
      if problem.Some? {
        error := problem;
        isLoading := false;
        return;
      }

      var thrown: Option<Thrown> := None;
      var name := DisplayName(nome, email);
      calls := calls + [Call.SignUp(email, password, name)];
      match signUp {
        case Rejected(t) =>
          thrown := Some(t);
        case Resolved(reply) =>
          if reply.error.Some? {
            thrown := Some(Error(reply.error.value));
          } else if reply.user.None? {
            thrown := Some(Error(UserNotCreated));
          } else {
            var id := reply.user.value.id;
            calls := calls + [SelectProfile(ProfileTable, id)];
            match lookup {
              case Rejected(t) =>
                thrown := Some(t);
              case Resolved(q) =>
                if q.data.None? && q.error.None? {
                  calls := calls + [InsertProfile(ProfileTable, NewProfile(id, name))];
                  if insert.Rejected? {
                    thrown := Some(insert.thrown);
                  }
                }
                if thrown.None? {
                  redirect := Some(LoginPage);
                }
            }
          }
      }

      if thrown.Some? {
        error := Some(Translate(thrown.value));
      }
      isLoading := false;
    }
  }
}
