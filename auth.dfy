/** The session manager of contexts/auth-context.tsx: the local `user` and
    `isLoading` state, and the remote requests each operation issues. The
    replies of the auth service and the `profiles` table are parameters. */
module Auth {
  import opened Common

  /** The part of a session the context reads: `session.user`. */
  datatype Session = Session(userId: string, email: Option<string>)

  /** A `profiles` row as read back; its columns may be null. */
  datatype Profile = Profile(name: Option<string>, avatarUrl: Option<string>)

  /** `AuthUser`. */
  datatype AuthUser = AuthUser(id: string, email: string, name: string, photoURL: Option<string>)

  /** `Partial<AuthUser>` as `updateProfile` uses it: `None` is a missing key. */
  datatype ProfilePatch = ProfilePatch(name: Option<string>, photoURL: Option<string>)

  /** `{ success, error? }`. */
  datatype AuthResult = AuthResult(success: bool, error: Option<string>)

  /** The remote requests the context issues, in the order it issues them. */
  datatype Request =
    | GetSession
    | SelectProfile(id: string)
    | SignInWithPassword(email: string, password: string)
    | SignUp(email: string, password: string, metadataName: string)
    | InsertProfile(id: string, name: string, email: string)
    | UpdateAuthName(name: string)
    | UpdateProfileRow(id: string, newName: Option<string>, newAvatarUrl: Option<string>)
    | SignOut

  const LoginFallback: string := "Falha ao fazer login"
  const RegisterFallback: string := "Falha ao criar conta"
  const UpdateFallback: string := "Falha ao atualizar perfil"
  const NotAuthenticated: string := "Usuário não autenticado"
  const AnonymousName: string := "User"

  /** `email.split("@")[0]`: everything before the first "@". */
  function LocalPart(email: string): (r: string)
    ensures r <= email
    ensures '@' !in r
    ensures |r| < |email| ==> email[|r|] == '@'
  {
    if email == [] || email[0] == '@' then [] else [email[0]] + LocalPart(email[1..])
  }

  /** The three facts above pin `LocalPart` down. */
  lemma {:induction false} LocalPartUnique(email: string, r: string)
    requires r <= email && '@' !in r && (|r| < |email| ==> email[|r|] == '@')
    ensures r == LocalPart(email)
  {
    if email != [] && email[0] != '@' {
      LocalPartUnique(email[1..], r[1..]);
    }
  }

  lemma LocalPartExample()
    ensures LocalPart("a@b.com") == "a"
    ensures LocalPart("ann") == "ann"
  {
    LocalPartUnique("a@b.com", "a");
    LocalPartUnique("ann", "ann");
  }

  /** The local user derived from a session and its profile (or `None` when
      the profile could not be read). */
  function DeriveUser(session: Session, profile: Option<Profile>): (u: AuthUser)
    ensures u.id == session.userId
    ensures u.email == session.email.GetOr("")
    ensures profile.Some? && Truthy(profile.value.name) ==> u.name == profile.value.name.value
    ensures (!(profile.Some? && Truthy(profile.value.name)) && session.email.Some? &&
             LocalPart(session.email.value) != "") ==> u.name == LocalPart(session.email.value)
    ensures (!(profile.Some? && Truthy(profile.value.name)) &&
             (session.email.None? || LocalPart(session.email.value) == "")) ==> u.name == AnonymousName
    ensures u.name != ""
    ensures u.photoURL == (if profile.Some? then profile.value.avatarUrl else None)
  {
    var fromEmail := if session.email.Some? then Some(LocalPart(session.email.value)) else None;
    AuthUser(session.userId, session.email.GetOr(""),
             OrElse(if profile.Some? then profile.value.name else None, OrElse(fromEmail, AnonymousName)),
             if profile.Some? then profile.value.avatarUrl else None)
  }

  /** The name `register` writes: `name || email.split("@")[0]`. */
  function DefaultName(name: Option<string>, email: string): (r: string)
    ensures Truthy(name) ==> r == name.value
    ensures !Truthy(name) ==> r == LocalPart(email)
  {
    OrElse(name, LocalPart(email))
  }

  /** `error.message || fallback`. */
  function ErrorText(message: string, fallback: string): (r: string)
    requires fallback != ""
    ensures r != ""
    ensures message != "" ==> r == message
    ensures message == "" ==> r == fallback
  {
    if message != "" then message else fallback
  }

  function Failure(message: string, fallback: string): (r: AuthResult)
    requires fallback != ""
    ensures !r.success && r.error.Some? && r.error.value != ""
    ensures r.error == Some(ErrorText(message, fallback))
  {
    AuthResult(false, Some(ErrorText(message, fallback)))
  }

  const Success: AuthResult := AuthResult(true, None)

  /** `{ ...prev, ...data }`: supplied keys override, the rest is kept. */
  function MergeProfile(u: AuthUser, data: ProfilePatch): (r: AuthUser)
    ensures r.id == u.id && r.email == u.email
    ensures r.name == data.name.GetOr(u.name)
    ensures r.photoURL == (if data.photoURL.Some? then data.photoURL else u.photoURL)
  {
    u.(name := data.name.GetOr(u.name), photoURL := if data.photoURL.Some? then data.photoURL else u.photoURL)
  }

  lemma MergeEmptyPatch(u: AuthUser)
    ensures MergeProfile(u, ProfilePatch(None, None)) == u
  {
  }

  class AuthContext {
    var user: Option<AuthUser>
    var isLoading: bool
    /** Remote requests issued so far, oldest first. */
    var sent: seq<Request>
    /** The session whose profile fetch is still in flight (see
        `BeginInitialSession`). */
    var pending: Option<Session>

    /** `useState(null)` and `useState(true)`. */
    constructor ()
      ensures user == None && isLoading && sent == [] && pending == None
    {
      user, isLoading, sent, pending := None, true, [], None;
    }

    /** `setUserFromSession` run to completion: no session clears the user;
        otherwise the profile is read and the user derived from both. */
    method SetUserFromSession(session: Option<Session>, profile: Option<Profile>)
      modifies this`user, this`sent
      ensures session.None? ==> user == None && sent == old(sent)
      ensures session.Some? ==> user == Some(DeriveUser(session.value, profile))
      ensures session.Some? ==> sent == old(sent) + [SelectProfile(session.value.userId)]
    {
      if session.None? {
        user := None;
        return;
      }
      sent := sent + [SelectProfile(session.value.userId)];
      user := Some(DeriveUser(session.value, profile));
    }

    /** `getInitialSession` as written: `setUserFromSession` is called
        without `await`, so with a session present `isLoading` is cleared
        while the profile fetch is still in flight and `user` unchanged. */
    method BeginInitialSession(session: Option<Session>)
      modifies this`user, this`isLoading, this`sent, this`pending
      ensures !isLoading
      ensures session.None? ==> user == None && pending == None && sent == old(sent) + [GetSession]
      ensures session.Some? ==> user == old(user) && pending == session
      ensures session.Some? ==> sent == old(sent) + [GetSession, SelectProfile(session.value.userId)]
    {
      isLoading := true;
      sent := sent + [GetSession];
      if session.None? {
        user := None;
        pending := None;
      } else {
        sent := sent + [SelectProfile(session.value.userId)];
        pending := session;
      }
      isLoading := false;
    }

    /** The suspended rest of `setUserFromSession` once the profile arrives. */
    method FinishInitialSession(profile: Option<Profile>)
      modifies this`user, this`pending
      ensures old(pending).Some? ==> user == Some(DeriveUser(old(pending).value, profile))
      ensures old(pending).None? ==> user == old(user)
      ensures pending == None
    {
      if pending.Some? {
        user := Some(DeriveUser(pending.value, profile));
      }
      pending := None;
    }

    /** `getInitialSession` with the derivation awaited: `isLoading` is
        cleared only once `user` reflects the session. */
    method LoadInitialSession(session: Option<Session>, profile: Option<Profile>)
      modifies this`user, this`isLoading, this`sent
      ensures !isLoading
      ensures user.Some? <==> session.Some?
      ensures session.Some? ==> user == Some(DeriveUser(session.value, profile))
      ensures sent == old(sent) + [GetSession] +
        (if session.Some? then [SelectProfile(session.value.userId)] else [])
    {
      isLoading := true;
      sent := sent + [GetSession];
      SetUserFromSession(session, profile);
      isLoading := false;
    }

    /** `login`: one password sign-in; the user is set later by the session
        listener, not here. */
    method Login(email: string, password: string, reply: Reply<()>) returns (r: AuthResult)
      modifies this`sent
      ensures sent == old(sent) + [SignInWithPassword(email, password)]
      ensures reply.Ok? ==> r == Success
      ensures reply.Err? ==> r == Failure(reply.message, LoginFallback)
    {
      sent := sent + [SignInWithPassword(email, password)];
      if reply.Err? {
        return Failure(reply.message, LoginFallback);
      }
      r := Success;
    }

    /** `register`: sign-up, then (when the service returns a user) the
        profile insert, both with the same default name. A failed insert
        reports failure although the auth identity already exists. */
    method Register(email: string, password: string, name: Option<string>,
                    signUp: Reply<Option<string>>, insert: Reply<()>) returns (r: AuthResult)
      modifies this`sent
      ensures signUp.Err? ==> sent == old(sent) + [SignUp(email, password, DefaultName(name, email))]
      ensures signUp.Err? ==> r == Failure(signUp.message, RegisterFallback)
      ensures signUp.Ok? && signUp.value.None? ==>
        sent == old(sent) + [SignUp(email, password, DefaultName(name, email))] && r == Success
      ensures signUp.Ok? && signUp.value.Some? ==>
        sent == old(sent) + [SignUp(email, password, DefaultName(name, email)),
                             InsertProfile(signUp.value.value, DefaultName(name, email), email)]
      ensures signUp.Ok? && signUp.value.Some? ==>
        r == (if insert.Err? then Failure(insert.message, RegisterFallback) else Success)
    {
      var profileName := DefaultName(name, email);
      sent := sent + [SignUp(email, password, profileName)];
      if signUp.Err? {
        return Failure(signUp.message, RegisterFallback);
      }
      if signUp.value.Some? {
        sent := sent + [InsertProfile(signUp.value.value, profileName, email)];
        if insert.Err? {
          return Failure(insert.message, RegisterFallback);
        }
      }
      r := Success;
    }

    /** `updateProfile`: refused without a user; the auth name is updated
        only for a truthy `data.name`; the local user is merged only after
        every remote step succeeded. */
    method UpdateProfile(data: ProfilePatch, authReply: Reply<()>, profileReply: Reply<()>)
      returns (r: AuthResult)
      modifies this`user, this`sent
      ensures old(user).None? ==>
        r == AuthResult(false, Some(NotAuthenticated)) && sent == old(sent) && user == old(user)
      ensures old(user).Some? && Truthy(data.name) && authReply.Err? ==>
        sent == old(sent) + [UpdateAuthName(data.name.value)] &&
        r == Failure(authReply.message, UpdateFallback) && user == old(user)
      ensures old(user).Some? && !(Truthy(data.name) && authReply.Err?) ==>
        sent == old(sent) + (if Truthy(data.name) then [UpdateAuthName(data.name.value)] else []) +
                [UpdateProfileRow(old(user).value.id, data.name, data.photoURL)]
      ensures old(user).Some? && !(Truthy(data.name) && authReply.Err?) && profileReply.Err? ==>
        r == Failure(profileReply.message, UpdateFallback) && user == old(user)
      ensures old(user).Some? && !(Truthy(data.name) && authReply.Err?) && profileReply.Ok? ==>
        r == Success && user == Some(MergeProfile(old(user).value, data))
      ensures r.success <==> old(user).Some? && !(Truthy(data.name) && authReply.Err?) && profileReply.Ok?
      ensures !r.success ==> user == old(user) && r.error.Some? && r.error.value != ""
    {
      if user.None? {
        return AuthResult(false, Some(NotAuthenticated));
      }
      if Truthy(data.name) {
        sent := sent + [UpdateAuthName(data.name.value)];
        if authReply.Err? {
          return Failure(authReply.message, UpdateFallback);
        }
      }
      sent := sent + [UpdateProfileRow(user.value.id, data.name, data.photoURL)];
      if profileReply.Err? {
        return Failure(profileReply.message, UpdateFallback);
      }
      user := Some(MergeProfile(user.value, data));
      r := Success;
    }

    /** `logout`: signs out and clears the user whatever the reply. */
    method Logout()
      modifies this`user, this`sent
      ensures user == None
      ensures sent == old(sent) + [SignOut]
    {
      sent := sent + [SignOut];
      user := None;
    }
  }
}
