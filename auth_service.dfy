/**
  The mock authentication service: its credential rules, the signed-in user
  it keeps, and the single auth-state listener it notifies. The simulated
  network delays are left out (each operation completes in one step);
  `Date.now()` is a parameter, and the listener is an opaque handle.
  Notifications are delivered by a separate step, as the service defers them
  with a zero-delay timeout that reads the listener and the user when it fires.
*/
module AuthService {
  import opened Types
  import opened JsText

  datatype AuthError = EmailAlreadyInUse | WeakPassword | WrongPassword | UserNotFound

  const TakenEmail: string := "exists@test.com"
  const TestEmail: string := "user@test.com"
  const TestPassword: string := "password123"
  const MinPasswordLength: nat := 6

  const ExistingUser: User := User("uid_existing_123", Some(TestEmail), Some("Test User"), None)
  const GoogleUser: User := User("uid_google_456", Some("googleuser@gmail.com"), Some("Google User"), None)

  /** A registered auth-state callback. */
  type ListenerId = nat

  /** A call of `listener(user)`. */
  datatype Delivery = Delivery(listener: ListenerId, user: Option<User>)

  /** `email.split('@')[0]`. */
  function DisplayNameOf(email: string): (name: string)
  {
    Split(email, "@")[0]
  }

  /** What `signUpWithEmail` resolves to, or the error it throws. */
  function SignUpOutcome(email: string, password: Option<string>, now: nat): (r: Result<User, AuthError>)
  {
    if email == TakenEmail then Err(EmailAlreadyInUse)
    else if password.None? || Utf16Length(password.value) < MinPasswordLength then Err(WeakPassword)
    else Ok(User("uid_" + NatToString(now), Some(email), Some(DisplayNameOf(email)), None))
  }

  /** What `signInWithEmail` resolves to, or the error it throws. */
  function SignInOutcome(email: string, password: Option<string>): (r: Result<User, AuthError>)
  {
    if email != TestEmail || password != Some(TestPassword) then
      if email == TakenEmail && password != Some(TestPassword) then Err(WrongPassword)
      else Err(UserNotFound)
    else Ok(ExistingUser.(email := Some(email)))
  }

  // ---------------------------------------------------------------------
  // Properties of the credential rules

  /** The taken address is refused before the password is looked at. */
  lemma TakenEmailCheckedFirst(password: Option<string>, now: nat)
    ensures SignUpOutcome(TakenEmail, password, now) == Err(EmailAlreadyInUse)
  {
  }

  /**
    Sign-up succeeds exactly for a free address with a password of at least
    six characters; the new user carries the address, the text before its
    first '@' as display name, and a uid built from the time.
  */
  lemma SignUpRules(email: string, password: Option<string>, now: nat)
    ensures var r := SignUpOutcome(email, password, now);
      && (r == Err(WeakPassword) <==> email != TakenEmail && (password.None? || Utf16Length(password.value) < 6))
      && (r.Ok? <==> email != TakenEmail && password.Some? && Utf16Length(password.value) >= 6)
      && (r.Ok? ==>
            && r.value.email == Some(email)
            && r.value.uid == "uid_" + NatToString(now)
            && r.value.displayName.Some?
            && var name := r.value.displayName.value;
               |name| <= |email| && name == email[..|name|] && '@' !in name
               && (|name| < |email| ==> email[|name|] == '@'))
  {
    SplitCharHead(email, '@');
  }

  /**
    Sign-in succeeds only for user@test.com with password123; exists@test.com
    with any other password is a wrong password, and every other failure
    (exists@test.com with password123 among them) is an unknown user.
  */
  lemma SignInRules(email: string, password: Option<string>)
    ensures var r := SignInOutcome(email, password);
      && (r.Ok? <==> email == TestEmail && password == Some(TestPassword))
      && (r.Ok? ==> r.value.uid == "uid_existing_123" && r.value.email == Some(email))
      && (r == Err(WrongPassword) <==> email == TakenEmail && password != Some(TestPassword))
      && (r == Err(UserNotFound) <==>
            !(email == TestEmail && password == Some(TestPassword))
            && !(email == TakenEmail && password != Some(TestPassword)))
  {
  }

  /**
    The length rule counts UTF-16 code units: three characters beyond U+FFFF
    make a long enough password, while three plain letters do not.
  */
  lemma PasswordLengthInCodeUnits(email: string, wide: string, narrow: string, now: nat)
    requires email != TakenEmail
    requires wide == "\U{1F600}\U{1F600}\U{1F600}" && narrow == "abc"
    ensures |wide| == |narrow| == 3
    ensures SignUpOutcome(email, Some(wide), now).Ok?
    ensures SignUpOutcome(email, Some(narrow), now) == Err(WeakPassword)
  {
    var face := "\U{1F600}";
    assert face[0] as int > 0xFFFF && face[1..] == "";
    assert Utf16Length(face) == 2;
    assert wide == face + face + face;
    assert wide[1..] == face + face && wide[1..][1..] == face;
    assert wide[0] == face[0] && wide[1..][0] == face[0];
    assert Utf16Length(wide[1..]) == 4;
    assert Utf16Length(wide) == 6;
    Utf16LengthBmp(narrow);
  }

  /** The module-level state of the service. */
  class AuthState {
    var currentUser: Option<User>
    var listener: Option<ListenerId>
    /** Notifications scheduled and not yet delivered. */
    var pendingNotifications: nat

    constructor()
      ensures currentUser.None? && listener.None? && pendingNotifications == 0
    {
      currentUser := None;
      listener := None;
      pendingNotifications := 0;
    }

    /** `notifyListener`: schedules a delivery only when a listener is registered. */
    method NotifyListener()
      modifies this
      ensures pendingNotifications == old(pendingNotifications) + (if listener.Some? then 1 else 0)
      ensures currentUser == old(currentUser) && listener == old(listener)
    {
      if listener.Some? {
        pendingNotifications := pendingNotifications + 1;
      }
    }

    /**
      One scheduled notification fires: it calls whatever listener is
      registered now with the current user, and does nothing without one.
    */
    method DeliverNotification() returns (delivery: Option<Delivery>)
      modifies this
      ensures pendingNotifications == if old(pendingNotifications) > 0 then old(pendingNotifications) - 1 else 0
      ensures delivery == if old(pendingNotifications) > 0 && listener.Some?
                          then Some(Delivery(listener.value, currentUser)) else None
      ensures currentUser == old(currentUser) && listener == old(listener)
    {
      delivery := None;
      if pendingNotifications > 0 {
        pendingNotifications := pendingNotifications - 1;
        if listener.Some? {
          delivery := Some(Delivery(listener.value, currentUser));
        }
      }
    }

    /** `onAuthStateChanged(callback)`: `callback` becomes the listener. */
    method Subscribe(callback: ListenerId)
      modifies this
      ensures listener == Some(callback)
      ensures currentUser == old(currentUser) && pendingNotifications == old(pendingNotifications)
    {
      listener := Some(callback);
    }

    /**
      The initial check `onAuthStateChanged` schedules for `callback`: it
      reports "signed out" to that callback, whether or not it is still the
      listener, when nobody is signed in.
    */
    method InitialCheck(callback: ListenerId) returns (delivery: Option<Delivery>)
      ensures delivery == if currentUser.None? then Some(Delivery(callback, None)) else None
    {
      delivery := if currentUser.None? then Some(Delivery(callback, None)) else None;
    }

    /** The unsubscribe function: clears whatever listener is registered. */
    method Unsubscribe()
      modifies this
      ensures listener.None?
      ensures currentUser == old(currentUser) && pendingNotifications == old(pendingNotifications)
    {
      listener := None;
    }

    method SignUpWithEmail(email: string, password: Option<string>, now: nat) returns (r: Result<User, AuthError>)
      modifies this
      ensures r == SignUpOutcome(email, password, now)
      ensures currentUser == if r.Ok? then Some(r.value) else old(currentUser)
      ensures listener == old(listener)
      ensures pendingNotifications == old(pendingNotifications) + (if r.Ok? && listener.Some? then 1 else 0)
    {
      if email == TakenEmail {
        return Err(EmailAlreadyInUse);
      }
      if password.None? || Utf16Length(password.value) < MinPasswordLength {
        return Err(WeakPassword);
      }
      var user := User("uid_" + NatToString(now), Some(email), Some(DisplayNameOf(email)), None);
      currentUser := Some(user);
      NotifyListener();
      r := Ok(user);
    }

    method SignInWithEmail(email: string, password: Option<string>) returns (r: Result<User, AuthError>)
      modifies this
      ensures r == SignInOutcome(email, password)
      ensures currentUser == if r.Ok? then Some(r.value) else old(currentUser)
      ensures listener == old(listener)
      ensures pendingNotifications == old(pendingNotifications) + (if r.Ok? && listener.Some? then 1 else 0)
    {
      if email != TestEmail || password != Some(TestPassword) {
        if email == TakenEmail && password != Some(TestPassword) {
          return Err(WrongPassword);
        }
        return Err(UserNotFound);
      }
      var user := ExistingUser.(email := Some(email));
      currentUser := Some(user);
      NotifyListener();
      r := Ok(user);
    }

    /** Google sign-in always succeeds, with a fixed account. */
    method SignInWithGoogle() returns (user: User)
      modifies this
      ensures user == GoogleUser && currentUser == Some(GoogleUser)
      ensures listener == old(listener)
      ensures pendingNotifications == old(pendingNotifications) + (if listener.Some? then 1 else 0)
    {
      user := GoogleUser;
      currentUser := Some(user);
      NotifyListener();
    }

    method SignOut()
      modifies this
      ensures currentUser.None?
      ensures listener == old(listener)
      ensures pendingNotifications == old(pendingNotifications) + (if listener.Some? then 1 else 0)
    {
      currentUser := None;
      NotifyListener();
    }
  }
}
