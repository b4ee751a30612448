/** Password logins and self-service password changes (internal/engine/auth.go): the steps that
    drive the login throttle and the second factor. */
module PasswordLogin {
  import T = LoginThrottle
  import S = SecondFactor
  import Totp

  const MIN_PASSWORD_LENGTH := 8

  /** A clock reading in nanoseconds, a non-negative int64. */
  type Nanos = n: int | 0 <= n < 0x8000_0000_0000_0000

  function Seconds(now: Nanos): Totp.Unix { now / 1_000_000_000 }

  /** A user's row; an empty hash is an account without a password. */
  datatype User = User(hash: string, factor: S.Factor)

  datatype Session = Session(user: string, issued: Nanos)

  datatype Reply =
    | AccountLocked
    | InvalidCredentials
    | TwoFactorRequired
    | Unavailable       // a read failed before anything was decided
    | PasswordTooShort
    | NotStored         // all proved, but the new session or password could not be stored
    | SessionsKept      // the new password is stored, the old sessions could not be deleted
    | Granted

  /** Which of the database calls of one attempt succeed. */
  datatype Calls = Calls(
    hashRead: bool,
    userRead: bool,
    totpRead: bool,
    floorRead: bool,
    listRead: bool,
    factorSaved: bool,
    stored: bool,
    sessionsDeleted: bool)

  datatype Crypto = Crypto(bcrypt: (string, string) -> bool, hash: string -> string, second: S.Crypto)

  /** What one attempt means to the throttle. */
  function OutcomeOf(r: Reply): T.Outcome {
    match r
    case InvalidCredentials => T.Wrong
    case Granted => T.Right
    case PasswordTooShort => T.Right
    case NotStored => T.Right
    case SessionsKept => T.Right
    case _ => T.Unfinished
  }

  /** No second factor is enrolled, or this code is accepted as one. */
  predicate Passes(x: S.Crypto, f: S.Factor, code: string, now: Nanos, calls: Calls) {
    !f.enabled || (code != "" && Consumed(x, f, code, now, calls).1 != S.Rejected)
  }

  function Consumed(x: S.Crypto, f: S.Factor, code: string, now: Nanos, calls: Calls): (S.Factor, S.Verdict) {
    S.ConsumeWith(x, f, code, Seconds(now), calls.floorRead, calls.listRead, calls.factorSaved)
  }

  /** The code is checked, and refused. */
  predicate Refuses(x: S.Crypto, f: S.Factor, code: string, now: Nanos, calls: Calls) {
    f.enabled && code != "" && Consumed(x, f, code, now, calls).1 == S.Rejected
  }

  /** Of the three ways a factor that can be read answers, exactly one applies. */
  lemma FactorAnswers(x: S.Crypto, f: S.Factor, code: string, now: Nanos, calls: Calls)
    ensures Passes(x, f, code, now, calls) <==> !Refuses(x, f, code, now, calls) && !(f.enabled && code == "")
    ensures !f.enabled ==> Passes(x, f, code, now, calls)
    ensures Consumed(x, f, code, now, calls) ==
      S.ConsumeWith(x, f, code, now / 1_000_000_000, calls.floorRead, calls.listRead, calls.factorSaved)
  {
  }

  class Engine {
    const throttle: T.LoginThrottle
    const crypto: Crypto
    var users: map<string, User>
    var sessions: seq<Session>

    constructor (crypto: Crypto, users: map<string, User>)
      ensures fresh(throttle) && throttle.attempts == map[]
      ensures this.crypto == crypto && this.users == users && sessions == []
    {
      throttle := new T.LoginThrottle();
      this.crypto, this.users, this.sessions := crypto, users, [];
    }

    predicate Knows(name: string, password: string)
      reads this
    {
      name in users && users[name].hash != "" && crypto.bcrypt(users[name].hash, password)
    }

    /** The second factor of a user whose password has been checked. */
    method CheckSecondFactor(name: string, code: string, now: Nanos, calls: Calls) returns (r: Reply)
      requires name in users
      modifies this`users, throttle
      ensures r in {Unavailable, Granted, TwoFactorRequired, InvalidCredentials}
      ensures r == Granted <==> calls.totpRead && Passes(crypto.second, old(users[name]).factor, code, now, calls)
      ensures r == TwoFactorRequired <==> calls.totpRead && old(users[name]).factor.enabled && code == ""
      ensures r == Unavailable <==> !calls.totpRead
      ensures r == InvalidCredentials <==> calls.totpRead && Refuses(crypto.second, old(users[name]).factor, code, now, calls)
      ensures throttle.attempts ==
              if r == InvalidCredentials then T.Recorded(old(throttle.attempts), name, now) else old(throttle.attempts)
      ensures users == old(users)[name := old(users[name]).(factor :=
                if calls.totpRead && old(users[name]).factor.enabled && code != ""
                then Consumed(crypto.second, old(users[name]).factor, code, now, calls).0 else old(users[name]).factor)]
    {
      hide S.ConsumeWith;
      var user := users[name];
      assert users == users[name := user];
      if !calls.totpRead {
        return Unavailable;
      }
      if user.factor.enabled {
        if code == "" {
          return TwoFactorRequired;
        }
        var (factor, verdict) := Consumed(crypto.second, user.factor, code, now, calls);
        users := users[name := user.(factor := factor)];
        if verdict == S.Rejected {
          throttle.RecordFailure(name, now);
          return InvalidCredentials;
        }
      }
      return Granted;
    }

    /** A session is opened exactly for a name that is not locked out, with its right password, and
        with an accepted second factor when one is enabled, when it can be stored. To the throttle the
        whole call is one guarded login, a success also where the session is then not stored. */
    method LoginWithPassword(name: string, password: string, code: string, now: Nanos, calls: Calls) returns (r: Reply)
      modifies this`users, this`sessions, throttle
      ensures r == AccountLocked <==> T.LockedIn(old(throttle.attempts), name, now)
      ensures r in {Granted, NotStored} <==>
                && !T.LockedIn(old(throttle.attempts), name, now) && old(Knows(name, password))
                && calls.hashRead && calls.userRead && calls.totpRead
                && Passes(crypto.second, old(users[name]).factor, code, now, calls)
      ensures r == Granted ==> calls.stored
      ensures r == NotStored ==> !calls.stored
      // Every other answer, and what it leaves.
      ensures r == InvalidCredentials <==>
                && !T.LockedIn(old(throttle.attempts), name, now)
                && (!(calls.hashRead && old(Knows(name, password)) && calls.userRead)
                    || (calls.totpRead && Refuses(crypto.second, old(users[name]).factor, code, now, calls)))
      ensures r == TwoFactorRequired <==>
                && !T.LockedIn(old(throttle.attempts), name, now)
                && calls.hashRead && old(Knows(name, password)) && calls.userRead && calls.totpRead
                && old(users[name]).factor.enabled && code == ""
      ensures r == Unavailable <==>
                && !T.LockedIn(old(throttle.attempts), name, now)
                && calls.hashRead && old(Knows(name, password)) && calls.userRead && !calls.totpRead
      ensures !T.LockedIn(old(throttle.attempts), name, now) && !(calls.hashRead && old(Knows(name, password)) && calls.userRead) ==>
                throttle.attempts == T.Recorded(old(throttle.attempts), name, now)
      ensures r in {Granted, NotStored} ==> throttle.attempts == old(throttle.attempts) - {name}
      ensures r in {AccountLocked, TwoFactorRequired, Unavailable} ==> throttle.attempts == old(throttle.attempts)
      ensures r in {AccountLocked, InvalidCredentials, TwoFactorRequired, Unavailable, NotStored, Granted}
      ensures sessions == old(sessions) + if r == Granted then [Session(name, now)] else []
      ensures throttle.attempts == T.Guarded(old(throttle.attempts), T.Login(name, OutcomeOf(r), now))
      ensures r == AccountLocked || !old(Knows(name, password)) ==> users == old(users)
      ensures users.Keys == old(users).Keys && forall n :: n in users && n != name ==> users[n] == old(users)[n]
    {
      hide S.ConsumeWith, Passes, Refuses, Consumed, Without, T.Recorded, T.LockedIn;
      var locked := throttle.Locked(name, now);
      if locked {
        return AccountLocked;
      }
      if !calls.hashRead || name !in users || users[name].hash == "" {
        throttle.RecordFailure(name, now);
        return InvalidCredentials;
      }
      if !crypto.bcrypt(users[name].hash, password) || !calls.userRead {
        throttle.RecordFailure(name, now);
        return InvalidCredentials;
      }
      r := CheckSecondFactor(name, code, now, calls);
      if r != Granted {
        return;
      }
      throttle.Reset(name);
      if !calls.stored {
        return NotStored;
      }
      sessions := sessions + [Session(name, now)];
    }

    /** The password is stored first: if the sessions then cannot be deleted, it has changed and every
        session lives on. */
    method SetUserPassword(name: string, replacement: string, calls: Calls) returns (r: Reply)
      requires name in users
      modifies this`users, this`sessions
      ensures r == if |replacement| < MIN_PASSWORD_LENGTH then PasswordTooShort
              else if !calls.userRead || !calls.stored then NotStored
              else if calls.sessionsDeleted then Granted else SessionsKept
      ensures r == PasswordTooShort <==> |replacement| < 8
      ensures users == if r in {Granted, SessionsKept} then old(users)[name := old(users)[name].(hash := crypto.hash(replacement))]
              else old(users)
      ensures sessions == if r == Granted then Without(old(sessions), name) else old(sessions)
    {
      if |replacement| < MIN_PASSWORD_LENGTH {
        return PasswordTooShort;
      }
      if !calls.userRead || !calls.stored {
        return NotStored;
      }
      users := users[name := users[name].(hash := crypto.hash(replacement))];
      if !calls.sessionsDeleted {
        return SessionsKept;
      }
      sessions := Without(sessions, name);
      return Granted;
    }

    /** A stored password is replaced only with proof of the current one and, when enabled, of the
        second factor; then every session of the user is revoked. An account without a password may
        set its first one. */
    method ChangeOwnPassword(name: string, current: string, code: string, replacement: string, now: Nanos, calls: Calls)
      returns (r: Reply)
      modifies this`users, this`sessions, throttle
      ensures r == AccountLocked <==> T.LockedIn(old(throttle.attempts), name, now)
      ensures r in {Granted, PasswordTooShort, NotStored, SessionsKept} <==>
                && !T.LockedIn(old(throttle.attempts), name, now) && name in old(users)
                && (old(users)[name].hash == "" || old(Knows(name, current))) && calls.hashRead && calls.totpRead
                && Passes(crypto.second, old(users)[name].factor, code, now, calls)
      ensures r == InvalidCredentials <==>
                && !T.LockedIn(old(throttle.attempts), name, now) && calls.hashRead && name in old(users)
                && ((old(users)[name].hash != "" && !old(Knows(name, current)))
                    || (calls.totpRead && Refuses(crypto.second, old(users)[name].factor, code, now, calls)))
      ensures r == TwoFactorRequired <==>
                && !T.LockedIn(old(throttle.attempts), name, now) && calls.hashRead && name in old(users)
                && (old(users)[name].hash == "" || old(Knows(name, current)))
                && calls.totpRead && old(users)[name].factor.enabled && code == ""
      ensures r == Unavailable <==>
                && !T.LockedIn(old(throttle.attempts), name, now)
                && (!calls.hashRead || name !in old(users)
                    || ((old(users)[name].hash == "" || old(Knows(name, current))) && !calls.totpRead))
      ensures !T.LockedIn(old(throttle.attempts), name, now) && calls.hashRead && name in old(users)
                && old(users)[name].hash != "" && !old(Knows(name, current)) ==>
                throttle.attempts == T.Recorded(old(throttle.attempts), name, now)
      ensures r in {Granted, PasswordTooShort, NotStored, SessionsKept} ==> throttle.attempts == old(throttle.attempts) - {name}
      ensures r in {AccountLocked, TwoFactorRequired, Unavailable} ==> throttle.attempts == old(throttle.attempts)
      ensures r == PasswordTooShort ==> |replacement| < MIN_PASSWORD_LENGTH
      ensures r in {Granted, NotStored, SessionsKept} ==> |replacement| >= MIN_PASSWORD_LENGTH
      ensures r == NotStored ==> !(calls.userRead && calls.stored)
      ensures r == SessionsKept ==> calls.userRead && calls.stored && !calls.sessionsDeleted
      ensures r == Granted ==> calls.userRead && calls.stored && calls.sessionsDeleted
      // What each outcome leaves.
      ensures users.Keys == old(users).Keys
      ensures name in users ==>
                users[name].hash == if r in {Granted, SessionsKept} then crypto.hash(replacement) else old(users)[name].hash
      ensures sessions == if r == Granted then Without(old(sessions), name) else old(sessions)
      ensures throttle.attempts == T.Guarded(old(throttle.attempts), T.Login(name, OutcomeOf(r), now))
    {
      hide S.ConsumeWith, Passes, Consumed, Without, T.Recorded, T.LockedIn;
      var locked := throttle.Locked(name, now);
      if locked {
        return AccountLocked;
      }
      if !calls.hashRead || name !in users {
        return Unavailable;
      }
      if users[name].hash != "" && !crypto.bcrypt(users[name].hash, current) {
        throttle.RecordFailure(name, now);
        return InvalidCredentials;
      }
      r := CheckSecondFactor(name, code, now, calls);
      if r != Granted {
        return;
      }
      throttle.Reset(name);
      r := SetUserPassword(name, replacement, calls);
    }
  }

  /** DELETE of a user's sessions. */
  function Without(sessions: seq<Session>, user: string): (kept: seq<Session>)
    ensures forall s :: s in kept <==> s in sessions && s.user != user
  {
    if sessions == [] then []
    else (if sessions[0].user == user then [] else [sessions[0]]) + Without(sessions[1..], user)
  }
}
