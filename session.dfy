/**
 * The session observer of hooks/useAuth.ts: an `AuthState` that starts out
 * loading, is replaced wholesale on every session-change notification of the
 * identity provider, and a subscription released once on teardown.
 * A notification is handled atomically, together with its profile read.
 */
module Session {
  import opened Results
  import opened Errors
  import opened Types
  import opened Auth

  /** `{ user, loading, error }`. */
  datatype AuthState = AuthState(user: Option<User>, loading: bool, error: Option<string>)

  /** The state before any notification has arrived. */
  const InitialState := AuthState(None, true, None)

  /** A user and an error are never published together. */
  predicate Exclusive(s: AuthState) {
    s.user.None? || s.error.None?
  }

  /**
   * The state published for a notification: `uid` is the signed-in user's uid,
   * or `None` when the provider reports no user; `fetched` is the profile read
   * made for that uid.
   */
  function Resolve(uid: Option<string>, fetched: Result<Option<User>, AppError>): (s: AuthState)
    ensures !s.loading && Exclusive(s)
    ensures uid.None? ==> s == AuthState(None, false, None)
    ensures uid.Some? && fetched.Ok? ==> s == AuthState(fetched.value, false, None)
    ensures uid.Some? && fetched.Err? ==> s == AuthState(None, false, Some(fetched.error.message))
  {
    match uid
    case None => AuthState(None, false, None)
    case Some(_) =>
      match fetched
      case Ok(user) => AuthState(user, false, None)
      case Err(e) => AuthState(None, false, Some(e.message))
  }

  /**
   * Whatever the profile read does, a signed-in notification publishes a user only
   * when one is stored under the uid, and then it is that stored profile.
   */
  lemma ResolvedUserIsStored(docs: map<string, User>, uid: string, fault: Option<Dyn>)
    ensures var s := Resolve(Some(uid), Fetch(docs, uid, fault));
      (s.user.Some? ==> uid in docs && s.user.value == docs[uid])
      && (s.error.Some? <==> fault.Some?)
      && (s.error.Some? ==> s.error.value == MsgFetchFailed)
  {
  }

  /** A signed-in user without a profile document is published as no user and no error. */
  lemma MissingProfileIsNotAnError(docs: map<string, User>, uid: string)
    requires uid !in docs
    ensures Resolve(Some(uid), Fetch(docs, uid, None)) == AuthState(None, false, None)
  {
  }

  /** The hook's state together with its subscription to the provider. */
  class AuthObserver {
    var state: AuthState
    var subscribed: bool
    var unsubscribeCalls: nat

    /** The subscription is released at most once, and only after it is no longer live. */
    ghost predicate Valid()
      reads this
    {
      unsubscribeCalls == (if subscribed then 0 else 1)
      && (state.loading ==> state == InitialState)
      && Exclusive(state)
    }

    /** Mounting the hook: the initial state, and a fresh subscription. */
    constructor ()
      ensures Valid()
      ensures state == InitialState && subscribed && unsubscribeCalls == 0
    {
      state := InitialState;
      subscribed := true;
      unsubscribeCalls := 0;
    }

    /**
     * The subscription callback. It reads the profile of a signed-in user and never
     * writes the store; the new state depends on the notification alone. After
     * teardown the provider delivers nothing, so the state stays as it was.
     */
    method OnNotify(uid: Option<string>, store: UsersCollection, fault: Option<Dyn>)
      requires Valid()
      modifies this
      ensures Valid()
      ensures subscribed == old(subscribed) && unsubscribeCalls == old(unsubscribeCalls)
      ensures store.docs == old(store.docs)
      ensures old(subscribed) && uid.None? ==> state == AuthState(None, false, None)
      ensures old(subscribed) && uid.Some? ==> state == Resolve(uid, Fetch(store.docs, uid.value, fault))
      ensures !old(subscribed) ==> state == old(state)
    {
      if !subscribed {
        return;
      }
      if uid.Some? {
        var fetched := store.GetUserDocument(uid.value, fault);
        if fetched.Ok? {
          state := AuthState(fetched.value, false, None);
        } else {
          state := AuthState(None, false, Some(fetched.error.message));
        }
      } else {
        state := AuthState(None, false, None);
      }
    }

    /** The effect's cleanup: `unsubscribe()` is called, exactly once over the hook's life. */
    method Teardown()
      requires Valid() && subscribed
      modifies this
      ensures Valid()
      ensures !subscribed && unsubscribeCalls == 1 && state == old(state)
    {
      unsubscribeCalls := unsubscribeCalls + 1;
      subscribed := false;
    }
  }

  /**
   * One mount of the hook: two notifications, then teardown. The first one ends
   * loading; the second replaces the state with one derived from it alone; teardown
   * calls unsubscribe once and leaves the last state published.
   */
  method MountNotifyTwiceUnmount(first: Option<string>, second: Option<string>,
                                 store: UsersCollection, fault: Option<Dyn>)
    returns (initial: AuthState, afterFirst: AuthState, afterSecond: AuthState, unsubscribed: nat)
    ensures initial == InitialState
    ensures !afterFirst.loading && Exclusive(afterFirst)
    ensures first.None? ==> afterFirst == AuthState(None, false, None)
    ensures first.Some? ==> afterFirst == Resolve(first, Fetch(store.docs, first.value, fault))
    ensures second.None? ==> afterSecond == AuthState(None, false, None)
    ensures second.Some? ==> afterSecond == Resolve(second, Fetch(store.docs, second.value, fault))
    ensures unsubscribed == 1
  {
    var observer := new AuthObserver();
    initial := observer.state;
    observer.OnNotify(first, store, fault);
    afterFirst := observer.state;
    observer.OnNotify(second, store, fault);
    afterSecond := observer.state;
    observer.Teardown();
    unsubscribed := observer.unsubscribeCalls;
  }
}
