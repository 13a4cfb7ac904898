/**
 * The login form's submit handler: sign in, look up the user's profile,
 * create a missing profile (signing out if that fails), sign out an inactive
 * account, send an active account on by role, and translate the caught error
 * into the message shown.
 *
 * The replies of the remote requests are parameters; the requests issued are
 * recorded in order.
 */
module LoginForm {
  import opened Js
  import opened Backend
  import opened Routes

  /** The profile table this form reads and writes; the sign-up form and the
      middleware use `perfis_usuario`. */
  const ProfileTable := "perfil_usuario"

  const DefaultProfileName := "Usuário"
  const NoAuthenticatedUser := "Erro ao autenticar usuário"
  const ProfileCreationFailed := "Erro ao criar perfil: "
  /** The inactive-account message, written in two sentences. */
  const AccountInactive := InactiveSentence + ContactSentence
  const InactiveSentence := "Sua conta está inativa. "
  const ContactSentence := "Entre em contato com o administrador."
  const WrongCredentials := "Email ou senha incorretos"
  const EmailUnconfirmed := "Por favor, confirme seu email antes de fazer login"
  const GenericError := "Ocorreu um erro ao fazer login"

  /** The columns the login lookup selects. */
  datatype Standing = Standing(nivelAcesso: string, ativo: bool)

  /** The name written to a profile created at login: the part of the auth
      user's email before its first `@`, or the default name when there is no
      email or that part is empty. Never empty. */
  function ProfileName(email: Option<string>): (r: string)
    ensures r != ""
    ensures email.None? ==> r == DefaultProfileName
    ensures email.Some? && email.value != "" && email.value[0] != '@' ==>
      '@' !in r && StartsWith(email.value, r) && (|r| < |email.value| ==> email.value[|r|] == '@')
    ensures email.Some? && (email.value == "" || email.value[0] == '@') ==> r == DefaultProfileName
  {
    if email.Some? && Truthy(SplitHead(email.value, '@')) then SplitHead(email.value, '@')
    else DefaultProfileName
  }

  /** An address with a non-empty local part gives that local part; one that
      starts with `@` gives the default name. */
  lemma {:induction false} ProfileNameOfAddress(local: string, domain: string)
    requires '@' !in local
    ensures local != "" ==> ProfileName(Some(local + "@" + domain)) == local
    ensures local == "" ==> ProfileName(Some(local + "@" + domain)) == DefaultProfileName
  {
    var email := local + "@" + domain;
    assert email[..|local|] == local && email[|local|] == '@';
    SplitHeadUnique(email, '@', local);
  }

  /** The message shown for a caught value: two known auth messages are
      translated, tested in this order; any other error shows its own message. */
  function Translate(e: Thrown): (r: string)
    ensures r in {WrongCredentials, EmailUnconfirmed, GenericError} || (e.Error? && r == e.message)
  {
    match e
    case NonError => GenericError
    case Error(m) =>
      if Includes(m, "Invalid login credentials") then WrongCredentials
      else if Includes(m, "Email not confirmed") then EmailUnconfirmed
      else m
  }

  /** A message that mentions invalid credentials is reported as a wrong
      email or password, whatever else it says. */
  lemma InvalidCredentialsReported(pre: string, post: string)
    ensures Translate(Error(pre + "Invalid login credentials" + post)) == WrongCredentials
  {
    IncludesInContext(pre, "Invalid login credentials", post);
  }

  /** An unconfirmed email is reported when the first pattern did not match. */
  lemma UnconfirmedReported(pre: string, post: string)
    requires !Includes(pre + "Email not confirmed" + post, "Invalid login credentials")
    ensures Translate(Error(pre + "Email not confirmed" + post)) == EmailUnconfirmed
  {
    IncludesInContext(pre, "Email not confirmed", post);
  }

  /** Any other error is shown as it is; a thrown non-error gets the generic
      message. */
  lemma OtherErrorsShownRaw(m: string)
    requires !Includes(m, "Invalid login credentials") && !Includes(m, "Email not confirmed")
    ensures Translate(Error(m)) == m
    ensures Translate(NonError) == GenericError
  {
  }

  /** The inactive-account message matches neither pattern, so it is shown
      as it is. */
  lemma InactiveMessageShown()
    ensures Translate(Error(AccountInactive)) == AccountInactive
  {
    assert forall k :: 0 <= k < |InactiveSentence| ==> InactiveSentence[k] != 'I' && InactiveSentence[k] != 'f';
    assert forall k :: 0 <= k < |ContactSentence| ==> ContactSentence[k] != 'I' && ContactSentence[k] != 'f';
    MissingCharacter(AccountInactive, "Invalid login credentials", 0);
    MissingCharacter(AccountInactive, "Email not confirmed", 13);
  }

  /** What the `try` block does: the requests it issues, the value it
      throws, if any, the page it sends the user to, if any, and whether it
      signed out. */
  datatype Attempt = Attempt(calls: seq<Call>, thrown: Option<Thrown>, redirect: Option<string>, signedOut: bool)

  /** Sign out, then throw `e`; a rejected sign-out throws its own value
      instead. */
  function SignOutThenThrow(calls: seq<Call>, signOut: Reply<Option<string>>, e: Thrown): (a: Attempt)
    ensures |a.calls| == |calls| + 1 && a.calls[..|calls|] == calls && a.calls[|calls|] == SignOut
    ensures a.signedOut && a.thrown.Some? && a.redirect.None?
  {
    Attempt(calls + [SignOut], Some(if signOut.Rejected? then signOut.thrown else e), None, true)
  }

  /**
   * The `try` block from the profile lookup on, for the signed-in `user`:
   * `lookup` answers the select of the user's profile, `create` the insert
   * of a missing profile (its `Resolved` value is the insert's error, if
   * any), and `signOut` the sign-out request.
   */
  function ProfileStep(user: AuthUser, lookup: Reply<QueryReply<Standing>>,
                       create: Reply<Option<string>>, signOut: Reply<Option<string>>): (a: Attempt)
    ensures 1 <= |a.calls| <= 3 && a.calls[0] == SelectProfile(ProfileTable, user.id)
    ensures a.signedOut <==> a.calls[|a.calls| - 1] == SignOut
    ensures a.redirect.Some? ==> a.redirect.value in {HomePage, CoordinatorHome}
  {
    var looking := [SelectProfile(ProfileTable, user.id)];
    match lookup
    case Rejected(t) => Attempt(looking, Some(t), None, false)
    case Resolved(q) =>
      if q.data.None? then
        var creating := looking + [InsertProfile(ProfileTable, NewProfile(user.id, ProfileName(user.email)))];
        match create
        case Rejected(t) => Attempt(creating, Some(t), None, false)
        case Resolved(createError) =>
          if createError.Some? then
            SignOutThenThrow(creating, signOut, Error(ProfileCreationFailed + createError.value))
          else
            Attempt(creating, None, Some(HomePage), false)
      else if !q.data.value.ativo then
        SignOutThenThrow(looking, signOut, Error(AccountInactive))
      else if q.data.value.nivelAcesso == AdminLevel then
        Attempt(looking, None, Some(CoordinatorHome), false)
      else
        Attempt(looking, None, Some(HomePage), false)
  }

  /**
   * The whole `try` block. `signIn` answers the sign-in request; the other
   * replies are passed on to the profile step. A reply is consulted only if
   * its request is issued.
   */
  function Submit(email: string, password: string, signIn: Reply<AuthReply>,
                  lookup: Reply<QueryReply<Standing>>, create: Reply<Option<string>>,
                  signOut: Reply<Option<string>>): (a: Attempt)
    ensures 1 <= |a.calls| <= 4 && a.calls[0] == SignInWithPassword(email, password)
    ensures a.signedOut <==> a.calls[|a.calls| - 1] == SignOut
    ensures a.redirect.Some? ==> a.redirect.value in {HomePage, CoordinatorHome}
  {
    var signing := [SignInWithPassword(email, password)];
    match signIn
    case Rejected(t) => Attempt(signing, Some(t), None, false)
    case Resolved(reply) =>
      if reply.error.Some? then Attempt(signing, Some(Error(reply.error.value)), None, false)
      else if reply.user.None? then Attempt(signing, Some(Error(NoAuthenticatedUser)), None, false)
      else
        var rest := ProfileStep(reply.user.value, lookup, create, signOut);
        Attempt(signing + rest.calls, rest.thrown, rest.redirect, rest.signedOut)
  }

  /** The attempt either throws or redirects, never both; it signs out only
      on a path that throws. */
  lemma ThrowsOrRedirects(email: string, password: string, signIn: Reply<AuthReply>,
                          lookup: Reply<QueryReply<Standing>>, create: Reply<Option<string>>,
                          signOut: Reply<Option<string>>)
    ensures var a := Submit(email, password, signIn, lookup, create, signOut);
      (a.redirect.Some? <==> a.thrown.None?) && (a.signedOut ==> a.thrown.Some?)
  {
  }

  /** An auth error, or a reply without a user, ends the attempt after the
      sign-in request: no lookup, no redirect, no sign-out. */
  lemma SignInFailureStops(email: string, password: string, reply: AuthReply,
                           lookup: Reply<QueryReply<Standing>>, create: Reply<Option<string>>,
                           signOut: Reply<Option<string>>)
    requires reply.error.Some? || reply.user.None?
    ensures var a := Submit(email, password, Resolved(reply), lookup, create, signOut);
      && a.calls == [SignInWithPassword(email, password)]
      && a.redirect.None? && !a.signedOut
      && a.thrown == Some(Error(if reply.error.Some? then reply.error.value else NoAuthenticatedUser))
  {
  }

  /** A lookup that returns no row, whether or not it also reports an error,
      leads to inserting an active ordinary profile for the user, named from
      the user's email. */
  lemma MissingProfileCreated(email: string, password: string, user: AuthUser,
                              lookupError: Option<string>, create: Reply<Option<string>>,
                              signOut: Reply<Option<string>>)
    ensures var a := Submit(email, password, Resolved(AuthReply(Some(user), None)),
                            Resolved(QueryReply(None, lookupError)), create, signOut);
      && |a.calls| >= 3
      && a.calls[2] == InsertProfile(ProfileTable, NewProfile(user.id, ProfileName(user.email)))
      && InsertsOnlyRegularProfiles(a.calls)
  {
  }

  /** A failed insert signs out and throws the creation error (unless the
      sign-out itself rejects); a successful one sends the user home. */
  lemma ProfileCreationOutcome(email: string, password: string, user: AuthUser,
                               lookupError: Option<string>, createError: Option<string>,
                               signOut: Reply<Option<string>>)
    ensures var a := Submit(email, password, Resolved(AuthReply(Some(user), None)),
                            Resolved(QueryReply(None, lookupError)), Resolved(createError), signOut);
      if createError.Some? then
        && a.signedOut && a.redirect.None? && a.calls[|a.calls| - 1] == SignOut
        && (signOut.Resolved? ==> a.thrown == Some(Error(ProfileCreationFailed + createError.value)))
      else
        !a.signedOut && a.redirect == Some(HomePage) && a.thrown.None?
  {
  }

  /** An inactive profile signs out and is reported with the inactive-account
      message, without a redirect. */
  lemma InactiveSignsOut(email: string, password: string, user: AuthUser,
                         standing: Standing, lookupError: Option<string>,
                         create: Reply<Option<string>>, signOut: Reply<Option<string>>)
    requires !standing.ativo
    ensures var a := Submit(email, password, Resolved(AuthReply(Some(user), None)),
                            Resolved(QueryReply(Some(standing), lookupError)), create, signOut);
      && a.signedOut && a.redirect.None?
      && a.calls == [SignInWithPassword(email, password), SelectProfile(ProfileTable, user.id), SignOut]
      && (signOut.Resolved? ==> a.thrown == Some(Error(AccountInactive)))
      && (signOut.Resolved? ==> Translate(a.thrown.value) == AccountInactive)
  {
    InactiveMessageShown();
  }

  /** An active profile is sent on by role: admins to the coordinator
      dashboard, everyone else home. Nothing is inserted and no one signs out. */
  lemma ActiveRedirectedByRole(email: string, password: string, user: AuthUser,
                               standing: Standing, lookupError: Option<string>,
                               create: Reply<Option<string>>, signOut: Reply<Option<string>>)
    requires standing.ativo
    ensures var a := Submit(email, password, Resolved(AuthReply(Some(user), None)),
                            Resolved(QueryReply(Some(standing), lookupError)), create, signOut);
      && a.redirect == Some(if standing.nivelAcesso == AdminLevel then CoordinatorHome else HomePage)
      && a.thrown.None? && !a.signedOut && |a.calls| == 2
  {
  }

  /** The coordinator dashboard is reached only by a signed-in user whose
      profile was found active with the admin level. */
  lemma CoordinatorOnlyForActiveAdmin(email: string, password: string, signIn: Reply<AuthReply>,
                                      lookup: Reply<QueryReply<Standing>>, create: Reply<Option<string>>,
                                      signOut: Reply<Option<string>>)
    ensures Submit(email, password, signIn, lookup, create, signOut).redirect == Some(CoordinatorHome) <==>
      && signIn.Resolved? && signIn.value.error.None? && signIn.value.user.Some?
      && lookup.Resolved? && lookup.value.data.Some?
      && lookup.value.data.value.ativo && lookup.value.data.value.nivelAcesso == AdminLevel
  {
  }

  /** The form's state. `email` and `password` are what the user typed;
      `calls` records the remote requests issued so far. */
  class LoginForm {
    var email: string
    var password: string
    var error: Option<string>
    var isLoading: bool
    var redirect: Option<string>
    var signedOut: bool
    var calls: seq<Call>

    constructor ()
      ensures email == "" && password == ""
      ensures error.None? && !isLoading && redirect.None? && !signedOut && calls == []
    {
      email, password := "", "";
      error, isLoading, redirect, signedOut, calls := None, false, None, false, [];
    }

    /**
     * `handleLogin`. The attempt runs, a thrown value is translated into the
     * message shown, a redirect leaves the message cleared, and loading ends
     * on every path.
     */
    method HandleLogin(signIn: Reply<AuthReply>, lookup: Reply<QueryReply<Standing>>,
                       create: Reply<Option<string>>, signOut: Reply<Option<string>>)
      modifies this
      ensures email == old(email) && password == old(password)
      ensures !isLoading
      ensures var a := Submit(email, password, signIn, lookup, create, signOut);
        && calls == old(calls) + a.calls
        && error == (if a.thrown.Some? then Some(Translate(a.thrown.value)) else None)
        && redirect == (if a.redirect.Some? then a.redirect else old(redirect))
        && signedOut == (old(signedOut) || a.signedOut)
    {
      isLoading := true;
      error := None;

      var thrown: Option<Thrown> := None;
      calls := calls + [SignInWithPassword(email, password)];
      match signIn {
        case Rejected(t) =>
          thrown := Some(t);
        case Resolved(reply) =>
          if reply.error.Some? {
            thrown := Some(Error(reply.error.value));
          } else if reply.user.None? {
            thrown := Some(Error(NoAuthenticatedUser));
          } else {
            ghost var signing := calls;
            thrown := CheckProfile(reply.user.value, lookup, create, signOut);
            ghost var rest := ProfileStep(reply.user.value, lookup, create, signOut);
            assert calls == old(calls) + ([SignInWithPassword(email, password)] + rest.calls) by {
              assert calls == signing + rest.calls;
            }
          }
      }

      if thrown.Some? {
        error := Some(Translate(thrown.value));
      }
      isLoading := false;
    }

    /** Steps 2 to 5 of `handleLogin` for the signed-in `user`: returns the
        value the profile step throws, if any. */
    method CheckProfile(user: AuthUser, lookup: Reply<QueryReply<Standing>>,
                        create: Reply<Option<string>>, signOut: Reply<Option<string>>)
      returns (thrown: Option<Thrown>)
      modifies this
      ensures email == old(email) && password == old(password)
      ensures error == old(error) && isLoading == old(isLoading)
      ensures var a := ProfileStep(user, lookup, create, signOut);
        && thrown == a.thrown
        && calls == old(calls) + a.calls
        && redirect == (if a.redirect.Some? then a.redirect else old(redirect))
        && signedOut == (old(signedOut) || a.signedOut)
    {
      thrown := None;
      calls := calls + [SelectProfile(ProfileTable, user.id)];
      match lookup {
        case Rejected(t) =>
          thrown := Some(t);
        case Resolved(q) =>
          if q.data.None? {
            calls := calls + [InsertProfile(ProfileTable, NewProfile(user.id, ProfileName(user.email)))];
            match create {
              case Rejected(t) =>
                thrown := Some(t);
              case Resolved(createError) =>
                if createError.Some? {
                  calls := calls + [SignOut];
                  signedOut := true;
                  thrown := Some(if signOut.Rejected? then signOut.thrown
                                 else Error(ProfileCreationFailed + createError.value));
                } else {
                  redirect := Some(HomePage);
                }
            }
          } else if !q.data.value.ativo {
            calls := calls + [SignOut];
            signedOut := true;
            thrown := Some(if signOut.Rejected? then signOut.thrown else Error(AccountInactive));
          } else if q.data.value.nivelAcesso == AdminLevel {
            redirect := Some(CoordinatorHome);
          } else {
            redirect := Some(HomePage);
          }
      }
    }
  }
}
