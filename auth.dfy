/**
 * The authentication pipeline of lib/firebase/auth.ts: the provider-error table,
 * the users collection of profile documents, and the login, registration and
 * logout chains. The identity provider is abstracted to the replies it gives;
 * a failing store read or write is given by the value it throws; the creation
 * timestamp is an input string.
 */
module Auth {
  import opened Results
  import opened Errors
  import opened Types
  import Validation

  // ---------------------------------------------------------------------------
  // Provider replies
  // ---------------------------------------------------------------------------

  /** The part of the provider's user the pipeline reads: its uid and its e-mail. */
  datatype Identity = Identity(uid: string, email: string)

  /** What a sign-in or sign-up call settles to: the provider's user, or the value it threw. */
  datatype ProviderReply = Accepted(identity: Identity) | Rejected(thrown: Dyn)

  /** `error && typeof error === 'object' && 'code' in error`: the thrown value is read as an AuthError. */
  predicate HasCode(thrown: Dyn) {
    thrown.Object? && "code" in thrown.fields
  }

  /** The `message` of a thrown object, when it is a string. */
  function MessageOf(thrown: Dyn): string {
    if thrown.Object? && "message" in thrown.fields && thrown.fields["message"].Str? then thrown.fields["message"].s
    else ""
  }

  // ---------------------------------------------------------------------------
  // mapFirebaseAuthError
  // ---------------------------------------------------------------------------

  const MsgInvalidCredentials := "メールアドレスまたはパスワードが正しくありません"
  const MsgInvalidEmail := "メールアドレスの形式が正しくありません"
  const MsgEmailInUse := "このメールアドレスは既に使用されています"
  const MsgWeakPassword := "パスワードは6文字以上で入力してください"
  const MsgTooManyRequests := "しばらく時間をおいてから再試行してください"
  const MsgLoginFailed := "ログインに失敗しました"
  const MsgRegisterFailed := "ユーザー登録に失敗しました"
  const MsgSaveFailed := "ユーザー情報の保存に失敗しました"
  const MsgFetchFailed := "ユーザー情報の取得に失敗しました"
  const MsgLogoutFailed := "ログアウトに失敗しました"

  /** The provider codes the table recognises, with the error each one becomes. */
  const ProviderTable: map<string, AppError> := map[
    "auth/user-not-found" := CreateError(InvalidCredentials, MsgInvalidCredentials),
    "auth/wrong-password" := CreateError(InvalidCredentials, MsgInvalidCredentials),
    "auth/invalid-email" := CreateError(InvalidEmail, MsgInvalidEmail),
    "auth/email-already-in-use" := CreateError(EmailAlreadyInUse, MsgEmailInUse),
    "auth/weak-password" := CreateError(WeakPassword, MsgWeakPassword),
    "auth/too-many-requests" := CreateError(TooManyRequests, MsgTooManyRequests)
  ]

  /** `mapFirebaseAuthError({code, message})`: the switch over provider codes. */
  function MapFirebaseAuthError(code: string, message: string): (e: AppError)
    ensures code in ProviderTable ==> e == ProviderTable[code]
    ensures code !in ProviderTable ==>
      e == CreateError(FirebaseError, message, Object(map["code" := Str(code)]))
  {
    match code
    case "auth/user-not-found" => CreateError(InvalidCredentials, MsgInvalidCredentials)
    case "auth/wrong-password" => CreateError(InvalidCredentials, MsgInvalidCredentials)
    case "auth/invalid-email" => CreateError(InvalidEmail, MsgInvalidEmail)
    case "auth/email-already-in-use" => CreateError(EmailAlreadyInUse, MsgEmailInUse)
    case "auth/weak-password" => CreateError(WeakPassword, MsgWeakPassword)
    case "auth/too-many-requests" => CreateError(TooManyRequests, MsgTooManyRequests)
    case _ => CreateError(FirebaseError, message, Object(map["code" := Str(code)]))
  }

  /**
   * "No such account" and "wrong password" are indistinguishable to the caller:
   * both give the same error, whatever the provider's messages said.
   */
  lemma AccountErrorsIndistinguishable(m1: string, m2: string)
    ensures MapFirebaseAuthError("auth/user-not-found", m1) == MapFirebaseAuthError("auth/wrong-password", m2)
    ensures MapFirebaseAuthError("auth/user-not-found", m1).code == InvalidCredentials
  {
  }

  /**
   * The table is total: every code gives either one of the five classified errors,
   * with no details and a message independent of the provider's, or a FIREBASE_ERROR
   * carrying the provider's message and `{code}` as details.
   */
  lemma MapFirebaseAuthErrorClassifies(code: string, message: string)
    ensures var e := MapFirebaseAuthError(code, message);
      && e.code in {InvalidCredentials, InvalidEmail, EmailAlreadyInUse, WeakPassword, TooManyRequests, FirebaseError}
      && (e.code == FirebaseError <==> code !in ProviderTable)
      && (e.code != FirebaseError ==> e.details == Undefined && e == MapFirebaseAuthError(code, ""))
      && (e.code == FirebaseError ==> e.message == message && e.details == Object(map["code" := Str(code)]))
  {
    var e := MapFirebaseAuthError(code, message);
    if code in ProviderTable {
      assert e.code != FirebaseError;
    }
  }

  /** The table has no row for a disabled account or a network failure, and never yields these codes. */
  lemma MapFirebaseAuthErrorNeverYields(code: string, message: string)
    ensures MapFirebaseAuthError(code, message).code !in {Unauthorized, NotFound, ValidationError, NetworkError, UserNotFound}
    ensures MapFirebaseAuthError("auth/user-disabled", message).code == FirebaseError
    ensures MapFirebaseAuthError("auth/network-request-failed", message).code == FirebaseError
  {
    MapFirebaseAuthErrorClassifies(code, message);
  }

  /**
   * The error handler of the sign-in and sign-up steps. A thrown object with a
   * `code` goes through the table: only a listed string code escapes
   * FIREBASE_ERROR, and an unlisted one keeps the thrown message and `{code}`.
   * Any other thrown value becomes FIREBASE_ERROR with the step's own message
   * and the thrown value as details.
   */
  function ProviderError(thrown: Dyn, fallback: string): (e: AppError)
    ensures e.code != FirebaseError <==>
      HasCode(thrown) && thrown.fields["code"].Str? && thrown.fields["code"].s in ProviderTable
    ensures e.code != FirebaseError ==> e == ProviderTable[thrown.fields["code"].s]
    ensures HasCode(thrown) && e.code == FirebaseError ==>
      e.message == MessageOf(thrown) && e.details == Object(map["code" := thrown.fields["code"]])
    ensures !HasCode(thrown) ==> e == CreateError(FirebaseError, fallback, thrown)
  {
    if HasCode(thrown) then
      match thrown.fields["code"]
      case Str(code) =>
        MapFirebaseAuthErrorClassifies(code, MessageOf(thrown));
        MapFirebaseAuthError(code, MessageOf(thrown))
      case other => CreateError(FirebaseError, MessageOf(thrown), Object(map["code" := other]))
    else CreateError(FirebaseError, fallback, thrown)
  }

  // ---------------------------------------------------------------------------
  // The users collection
  // ---------------------------------------------------------------------------

  /** The profile document createUserDocument builds for a provider identity. */
  function NewUser(identity: Identity, createdAt: string): (u: User)
    ensures u.id == identity.uid && u.email == identity.email && u.createdAt == createdAt
  {
    User(identity.uid, identity.email, createdAt)
  }

  /** Every profile is stored under its own id, as createUserDocument writes it. */
  predicate WellKeyed(docs: map<string, User>) {
    forall k :: k in docs ==> docs[k].id == k
  }

  /** A call's result together with the users collection it leaves behind. */
  datatype Outcome<T> = Outcome(result: Result<T, AppError>, docs: map<string, User>)

  /**
   * `getUserDocument(userId)` against the collection `docs`: the stored document,
   * `None` when there is none, or the fetch error when the read throws `fault`.
   */
  function Fetch(docs: map<string, User>, userId: string, fault: Option<Dyn>): (r: Result<Option<User>, AppError>)
    ensures r.Err? <==> fault.Some?
    ensures r.Err? ==> r.error == CreateError(FirebaseError, MsgFetchFailed, fault.value)
    ensures r.Ok? ==> (r.value.Some? <==> userId in docs)
    ensures r.Ok? && r.value.Some? ==> r.value.value == docs[userId]
  {
    match fault
    case Some(thrown) => Err(CreateError(FirebaseError, MsgFetchFailed, thrown))
    case None => Ok(if userId in docs then Some(docs[userId]) else None)
  }

  /**
   * `createUserDocument(firebaseUser)`: write the new profile under its uid and
   * return it, or leave the collection as it was when the write throws `fault`.
   */
  function Create(docs: map<string, User>, identity: Identity, createdAt: string, fault: Option<Dyn>): (o: Outcome<User>)
    ensures fault.None? ==> o.result == Ok(NewUser(identity, createdAt))
                            && o.docs == docs[identity.uid := NewUser(identity, createdAt)]
    ensures fault.Some? ==> o.result == Err(CreateError(FirebaseError, MsgSaveFailed, fault.value))
                            && o.docs == docs
    ensures WellKeyed(docs) ==> WellKeyed(o.docs)
  {
    match fault
    case Some(thrown) => Outcome(Err(CreateError(FirebaseError, MsgSaveFailed, thrown)), docs)
    case None =>
      var user := NewUser(identity, createdAt);
      Outcome(Ok(user), docs[identity.uid := user])
  }

  /** The users collection of the profile store, read and written one document at a time. */
  class UsersCollection {
    var docs: map<string, User>

    ghost predicate Valid()
      reads this
    {
      WellKeyed(docs)
    }

    constructor (initial: map<string, User>)
      requires WellKeyed(initial)
      ensures Valid() && docs == initial
    {
      docs := initial;
    }

    /** getUserDocument: reads the collection and changes nothing. */
    method GetUserDocument(userId: string, fault: Option<Dyn>) returns (r: Result<Option<User>, AppError>)
      ensures r == Fetch(docs, userId, fault)
      ensures r.Ok? ==> (r.value.Some? <==> userId in docs)
    {
      if fault.Some? {
        return Err(CreateError(FirebaseError, MsgFetchFailed, fault.value));
      }
      if userId in docs {
        r := Ok(Some(docs[userId]));
      } else {
        r := Ok(None);
      }
    }

    /** createUserDocument: a `setDoc` of the new profile under key `identity.uid`. */
    method CreateUserDocument(identity: Identity, createdAt: string, fault: Option<Dyn>) returns (r: Result<User, AppError>)
      requires Valid()
      modifies this
      ensures Valid()
      ensures Outcome(r, docs) == Create(old(docs), identity, createdAt, fault)
    {
      var user := NewUser(identity, createdAt);
      if fault.Some? {
        return Err(CreateError(FirebaseError, MsgSaveFailed, fault.value));
      }
      docs := docs[user.id := user];
      r := Ok(user);
    }
  }

  // ---------------------------------------------------------------------------
  // loginUser, registerUser, logoutUser
  // ---------------------------------------------------------------------------

  /**
   * What `loginUser` does, given the provider's reply to the sign-in with the
   * credentials as they are (no validation happens here), the fault of the
   * profile read, if any, and the fault of the profile write, if any.
   */
  function Login(docs: map<string, User>, signIn: ProviderReply, fetchFault: Option<Dyn>,
                 writeFault: Option<Dyn>, createdAt: string): (o: Outcome<User>)
    ensures o.result.Err? ==> o.docs == docs
    ensures signIn.Rejected? ==> o.result == Err(ProviderError(signIn.thrown, MsgLoginFailed))
    ensures WellKeyed(docs) ==> WellKeyed(o.docs)
    ensures WellKeyed(docs) && o.result.Ok? ==>
      signIn.Accepted? && o.result.value.id == signIn.identity.uid
      && signIn.identity.uid in o.docs && o.docs[signIn.identity.uid] == o.result.value
  {
    match signIn
    case Rejected(thrown) => Outcome(Err(ProviderError(thrown, MsgLoginFailed)), docs)
    case Accepted(identity) =>
      match Fetch(docs, identity.uid, fetchFault)
      case Err(e) => Outcome(Err(e), docs)
      case Ok(None) => Create(docs, identity, createdAt, writeFault)
      case Ok(Some(user)) => Outcome(Ok(user), docs)
  }

  /** What `registerUser` does: sign-up, then an unconditional profile write. */
  function Register(docs: map<string, User>, signUp: ProviderReply, writeFault: Option<Dyn>,
                    createdAt: string): (o: Outcome<User>)
    ensures o.result.Err? ==> o.docs == docs
    ensures signUp.Rejected? ==> o.result == Err(ProviderError(signUp.thrown, MsgRegisterFailed))
    ensures o.result.Ok? ==>
      signUp.Accepted? && o.result.value == NewUser(signUp.identity, createdAt)
      && o.docs == docs[signUp.identity.uid := o.result.value]
  {
    match signUp
    case Rejected(thrown) => Outcome(Err(ProviderError(thrown, MsgRegisterFailed)), docs)
    case Accepted(identity) => Create(docs, identity, createdAt, writeFault)
  }

  /** `loginUser(credentials)`: sign in, then fetch the profile, then create it if absent. */
  method LoginUser(store: UsersCollection, credentials: LoginCredentials,
                   signIn: (string, string) -> ProviderReply,
                   fetchFault: Option<Dyn>, writeFault: Option<Dyn>, createdAt: string)
    returns (r: Result<User, AppError>)
    requires store.Valid()
    modifies store
    ensures store.Valid()
    ensures Outcome(r, store.docs)
         == Login(old(store.docs), signIn(credentials.email, credentials.password), fetchFault, writeFault, createdAt)
  {
    var reply := signIn(credentials.email, credentials.password);
    if reply.Rejected? {
      return Err(ProviderError(reply.thrown, MsgLoginFailed));
    }
    var identity := reply.identity;
    var fetched := store.GetUserDocument(identity.uid, fetchFault);
    if fetched.Err? {
      return Err(fetched.error);
    }
    if fetched.value.None? {
      r := store.CreateUserDocument(identity, createdAt, writeFault);
      return;
    }
    r := Ok(fetched.value.value);
  }

  /** `registerUser(credentials)`: sign up, then write the profile without looking it up first. */
  method RegisterUser(store: UsersCollection, credentials: RegisterCredentials,
                      signUp: (string, string) -> ProviderReply,
                      writeFault: Option<Dyn>, createdAt: string)
    returns (r: Result<User, AppError>)
    requires store.Valid()
    modifies store
    ensures store.Valid()
    ensures Outcome(r, store.docs)
         == Register(old(store.docs), signUp(credentials.email, credentials.password), writeFault, createdAt)
  {
    var reply := signUp(credentials.email, credentials.password);
    if reply.Rejected? {
      return Err(ProviderError(reply.thrown, MsgRegisterFailed));
    }
    r := store.CreateUserDocument(reply.identity, createdAt, writeFault);
  }

  /**
   * `logoutUser()`: every sign-out failure, whatever it carries, becomes the one
   * FIREBASE_ERROR logout message; the provider-code table is not consulted.
   */
  function LogoutUser(signOutFault: Option<Dyn>): (r: Result<(), AppError>)
    ensures r.Ok? <==> signOutFault.None?
    ensures r.Err? ==> r.error.code == FirebaseError && r.error.message == MsgLogoutFailed
                       && r.error.details == signOutFault.value
  {
    match signOutFault
    case None => Ok(())
    case Some(thrown) => Err(CreateError(FirebaseError, MsgLogoutFailed, thrown))
  }

  // ---------------------------------------------------------------------------
  // Properties of the chains
  // ---------------------------------------------------------------------------

  /** A rejected sign-in is classified and nothing is read or written. */
  lemma LoginRejected(docs: map<string, User>, thrown: Dyn, fetchFault: Option<Dyn>,
                      writeFault: Option<Dyn>, createdAt: string)
    ensures var o := Login(docs, Rejected(thrown), fetchFault, writeFault, createdAt);
      o.docs == docs && o.result.Err?
      && (!HasCode(thrown) ==> o.result.error == CreateError(FirebaseError, MsgLoginFailed, thrown))
      && (HasCode(thrown) && thrown.fields["code"].Str? ==>
            o.result.error == MapFirebaseAuthError(thrown.fields["code"].s, MessageOf(thrown)))
  {
  }

  /**
   * A plain `Error` whose message happens to be a provider code has no `code`
   * property, so login reports the generic login failure, not the table's error.
   */
  lemma LoginErrorWithoutCode(docs: map<string, User>, fetchFault: Option<Dyn>,
                              writeFault: Option<Dyn>, createdAt: string)
    ensures var thrown := Object(map["message" := Str("auth/wrong-password")]);
      Login(docs, Rejected(thrown), fetchFault, writeFault, createdAt)
      == Outcome(Err(CreateError(FirebaseError, MsgLoginFailed, thrown)), docs)
  {
  }

  /** A registration rejected without a code reports the registration message. */
  lemma RegisterRejectedWithoutCode(docs: map<string, User>, thrown: Dyn,
                                    writeFault: Option<Dyn>, createdAt: string)
    requires !HasCode(thrown)
    ensures Register(docs, Rejected(thrown), writeFault, createdAt)
         == Outcome(Err(CreateError(FirebaseError, MsgRegisterFailed, thrown)), docs)
  {
  }

  /** With a stored profile, login returns it and writes nothing. */
  lemma LoginExistingProfile(docs: map<string, User>, identity: Identity, writeFault: Option<Dyn>, createdAt: string)
    requires identity.uid in docs
    ensures Login(docs, Accepted(identity), None, writeFault, createdAt) == Outcome(Ok(docs[identity.uid]), docs)
  {
  }

  /** Without a stored profile, login writes `{id: uid, email, createdAt}` under the uid and returns it. */
  lemma LoginCreatesMissingProfile(docs: map<string, User>, identity: Identity, createdAt: string)
    requires identity.uid !in docs
    ensures var u := User(identity.uid, identity.email, createdAt);
      Login(docs, Accepted(identity), None, None, createdAt) == Outcome(Ok(u), docs[identity.uid := u])
  {
  }

  /** A failing profile read is returned as it is, and no write happens. */
  lemma LoginFetchFailure(docs: map<string, User>, identity: Identity, thrown: Dyn,
                          writeFault: Option<Dyn>, createdAt: string)
    ensures Login(docs, Accepted(identity), Some(thrown), writeFault, createdAt)
         == Outcome(Err(CreateError(FirebaseError, MsgFetchFailed, thrown)), docs)
  {
  }

  /** Login never removes or changes a stored profile; at most it adds the signed-in uid. */
  lemma LoginKeepsStoredProfiles(docs: map<string, User>, signIn: ProviderReply,
                                fetchFault: Option<Dyn>, writeFault: Option<Dyn>, createdAt: string)
    ensures var o := Login(docs, signIn, fetchFault, writeFault, createdAt);
      && (forall k :: k in docs ==> k in o.docs && o.docs[k] == docs[k])
      && (o.docs == docs || (signIn.Accepted? && o.docs.Keys == docs.Keys + {signIn.identity.uid}))
  {
    var o := Login(docs, signIn, fetchFault, writeFault, createdAt);
    if signIn.Accepted? && fetchFault.None? && signIn.identity.uid !in docs && writeFault.None? {
      assert o.docs == docs[signIn.identity.uid := NewUser(signIn.identity, createdAt)];
    }
  }

  /**
   * Idempotence: after a successful login, logging in again as the same uid (the
   * store now answering) returns the same profile and writes nothing.
   */
  lemma LoginTwice(docs: map<string, User>, identity: Identity, again: Identity,
                   fetchFault: Option<Dyn>, writeFault: Option<Dyn>, t1: string,
                   writeFault2: Option<Dyn>, t2: string)
    requires WellKeyed(docs)
    requires Login(docs, Accepted(identity), fetchFault, writeFault, t1).result.Ok?
    requires again.uid == identity.uid
    ensures var first := Login(docs, Accepted(identity), fetchFault, writeFault, t1);
      var second := Login(first.docs, Accepted(again), None, writeFault2, t2);
      second == Outcome(first.result, first.docs) && first.result.value.id == identity.uid
  {
    var first := Login(docs, Accepted(identity), fetchFault, writeFault, t1);
    if identity.uid in docs {
      assert first.docs == docs;
    } else {
      assert first.docs == docs[identity.uid := NewUser(identity, t1)];
    }
    assert identity.uid in first.docs && first.docs[identity.uid] == first.result.value;
  }

  /** Registration writes without a lookup: an existing profile under the uid is overwritten. */
  lemma RegisterOverwrites(docs: map<string, User>, identity: Identity, createdAt: string)
    ensures var u := NewUser(identity, createdAt);
      Register(docs, Accepted(identity), None, createdAt) == Outcome(Ok(u), docs[identity.uid := u])
  {
  }

  /**
   * Round trip: after a successful registration, a login the provider resolves
   * to the same uid returns the registered profile (same id, e-mail and
   * creation time) and writes nothing.
   */
  lemma RegisterThenLogin(docs: map<string, User>, identity: Identity, again: Identity,
                          writeFault: Option<Dyn>, t1: string, writeFault2: Option<Dyn>, t2: string)
    requires Register(docs, Accepted(identity), writeFault, t1).result.Ok?
    requires again.uid == identity.uid
    ensures var reg := Register(docs, Accepted(identity), writeFault, t1);
      var login := Login(reg.docs, Accepted(again), None, writeFault2, t2);
      login == Outcome(reg.result, reg.docs)
      && login.result.value.id == identity.uid && login.result.value.email == identity.email
  {
    var reg := Register(docs, Accepted(identity), writeFault, t1);
    assert reg.docs == docs[identity.uid := NewUser(identity, t1)];
  }

  /** A provider rejection coded 'auth/invalid-email' is classified as INVALID_EMAIL. */
  lemma InvalidEmailRejection(thrown: Dyn)
    requires thrown == Object(map["code" := Str("auth/invalid-email"), "message" := Str("Invalid email")])
    ensures ProviderError(thrown, MsgLoginFailed) == CreateError(InvalidEmail, MsgInvalidEmail)
  {
    assert HasCode(thrown) && thrown.fields["code"] == Str("auth/invalid-email");
  }

  /**
   * loginUser does not validate: credentials the form's validator rejects (such
   * as the address "invalid-email") still reach the provider. With a provider
   * that rejects exactly their address as malformed, login returns the
   * provider's INVALID_EMAIL error, not a VALIDATION_ERROR.
   */
  method LoginSkipsValidation(credentials: LoginCredentials) returns (r: Result<User, AppError>)
    requires Validation.ValidateLoginCredentials(credentials).Err?
    ensures r == Err(CreateError(InvalidEmail, MsgInvalidEmail))
  {
    var store := new UsersCollection(map[]);
    var rejection := Object(map["code" := Str("auth/invalid-email"), "message" := Str("Invalid email")]);
    var signIn := (email: string, password: string) =>
      if email == credentials.email then Rejected(rejection) else Accepted(Identity("uid", email));
    assert signIn(credentials.email, credentials.password) == Rejected(rejection);
    InvalidEmailRejection(rejection);
    r := LoginUser(store, credentials, signIn, None, None, "");
  }

  /** Every error loginUser returns carries a code from the taxonomy other than VALIDATION_ERROR. */
  lemma LoginNeverReportsValidation(docs: map<string, User>, signIn: ProviderReply,
                                    fetchFault: Option<Dyn>, writeFault: Option<Dyn>, createdAt: string)
    ensures var o := Login(docs, signIn, fetchFault, writeFault, createdAt);
      o.result.Err? ==> o.result.error.code != ValidationError
  {
    if signIn.Rejected? && HasCode(signIn.thrown) && signIn.thrown.fields["code"].Str? {
      MapFirebaseAuthErrorClassifies(signIn.thrown.fields["code"].s, MessageOf(signIn.thrown));
    }
  }
}
