/**
 * Login and registration against the in-memory user table (learnhub/lib/auth.ts): a
 * per-account lockout state machine with a failed-attempt counter and a lock expiry, and
 * registration that refuses a taken email.
 *
 * The clock is a parameter (milliseconds); the simulated delay and the cookie are left out.
 */
module Auth {
  import opened Wrappers
  import opened Strings

  datatype Role = Student | Teacher | Administrator

  /** A row of the user table: the public user plus password, failure counter and lock expiry. */
  datatype UserRecord = UserRecord(
    id: string,
    name: string,
    email: string,
    password: string,
    role: Role,
    createdAt: int,
    lastLogin: Option<int>,
    failedAttempts: nat,
    lockedUntil: Option<int>)

  /** What the caller gets back: the record without password, counter and lock. */
  datatype User = User(id: string, name: string, email: string, role: Role, createdAt: int, lastLogin: Option<int>)

  datatype AuthResult = Success(user: User) | Failure(error: string)

  const MaxFailedAttempts: nat := 3
  const LockoutDuration: nat := 15 * 60 * 1000

  function PublicUser(r: UserRecord): User {
    User(r.id, r.name, r.email, r.role, r.createdAt, r.lastLogin)
  }

  /** `Math.ceil(ms / 60000)` for a positive number of milliseconds. */
  function CeilMinutes(ms: nat): nat {
    (ms + 59999) / 60000
  }

  function LockedMessage(minutes: nat): string {
    "Account locked. Try again in " + NatToString(minutes) + " minutes."
  }

  function RemainingMessage(remaining: nat): string {
    "Invalid email or password. " + NatToString(remaining) + " attempts remaining."
  }

  const InvalidCredentials := "Invalid email or password"
  const TooManyAttempts := "Too many failed attempts. Account locked for 15 minutes."
  const EmailTaken := "Email already registered"

  datatype Attempted = Attempted(record: UserRecord, result: AuthResult)

  /** One login attempt on a found account at time `now`. */
  function Attempt(r: UserRecord, password: string, now: int): Attempted {
    if r.lockedUntil.Some? && r.lockedUntil.value > now then
      Attempted(r, Failure(LockedMessage(CeilMinutes(r.lockedUntil.value - now))))
    else
      var r1 := if r.lockedUntil.Some? then r.(lockedUntil := None, failedAttempts := 0) else r;
      if r1.password != password then
        var r2 := r1.(failedAttempts := r1.failedAttempts + 1);
        if r2.failedAttempts >= MaxFailedAttempts then
          Attempted(r2.(lockedUntil := Some(now + LockoutDuration)), Failure(TooManyAttempts))
        else
          Attempted(r2, Failure(RemainingMessage(MaxFailedAttempts - r2.failedAttempts)))
      else
        var r2 := r1.(failedAttempts := 0, lockedUntil := None, lastLogin := Some(now));
        Attempted(r2, Success(PublicUser(r2)))
  }

  /** The counter stays below 3 while unlocked and is exactly 3 while a lock is recorded. */
  predicate RecordValid(r: UserRecord) {
    r.failedAttempts <= MaxFailedAttempts && (r.failedAttempts == MaxFailedAttempts <==> r.lockedUntil.Some?)
  }

  /** Every attempt keeps the record valid, so the counter never exceeds 3. */
  lemma AttemptPreservesValid(r: UserRecord, password: string, now: int)
    requires RecordValid(r)
    ensures RecordValid(Attempt(r, password, now).record)
  {
  }

  /** While locked, every attempt fails, whatever the password, and the record is unchanged. */
  lemma LockedRejectsAll(r: UserRecord, password: string, now: int)
    requires r.lockedUntil.Some? && r.lockedUntil.value > now
    ensures Attempt(r, password, now).record == r
    ensures Attempt(r, password, now).result.Failure?
    ensures r.lockedUntil.value - now <= LockoutDuration ==>
      Attempt(r, password, now).result == Failure(LockedMessage(CeilMinutes(r.lockedUntil.value - now)))
      && 1 <= CeilMinutes(r.lockedUntil.value - now) <= 15
  {
  }

  /** An expired lock is cleared and the counter reset before the password is checked. */
  lemma ExpiredLockResets(r: UserRecord, password: string, now: int)
    requires r.lockedUntil.Some? && r.lockedUntil.value <= now
    ensures Attempt(r, password, now) == Attempt(r.(lockedUntil := None, failedAttempts := 0), password, now)
  {
  }

  /**
   * On an unlocked account a wrong password counts one failure: the third locks the account for
   * 15 minutes, the others report how many attempts remain.
   */
  lemma WrongPassword(r: UserRecord, password: string, now: int)
    requires r.lockedUntil.None? && r.password != password
    ensures var a := Attempt(r, password, now);
      && a.record.failedAttempts == r.failedAttempts + 1
      && a.result.Failure?
      && (r.failedAttempts + 1 >= MaxFailedAttempts ==>
            a.record.lockedUntil == Some(now + LockoutDuration) && a.result.error == TooManyAttempts)
      && (r.failedAttempts + 1 < MaxFailedAttempts ==>
            a.record.lockedUntil.None? && a.result.error == RemainingMessage(MaxFailedAttempts - (r.failedAttempts + 1)))
  {
  }

  /** The right password on an unlocked account: counter and lock cleared, login time recorded. */
  lemma RightPassword(r: UserRecord, now: int)
    requires r.lockedUntil.None? || r.lockedUntil.value <= now
    ensures var a := Attempt(r, r.password, now);
      && a.record == r.(failedAttempts := 0, lockedUntil := None, lastLogin := Some(now))
      && a.result == Success(User(r.id, r.name, r.email, r.role, r.createdAt, Some(now)))
  {
  }

  /** Three wrong passwords in a row on a fresh account lock it; a fourth attempt is refused even with the right password. */
  lemma ThreeStrikes(r: UserRecord, wrong: string, now: int)
    requires r.failedAttempts == 0 && r.lockedUntil.None? && r.password != wrong
    ensures var a1 := Attempt(r, wrong, now);
      var a2 := Attempt(a1.record, wrong, now);
      var a3 := Attempt(a2.record, wrong, now);
      && a1.result == Failure(RemainingMessage(2))
      && a2.result == Failure(RemainingMessage(1))
      && a3.result == Failure(TooManyAttempts)
      && a3.record.lockedUntil == Some(now + LockoutDuration)
      && Attempt(a3.record, r.password, now).result.Failure?
      && Attempt(a3.record, r.password, now + LockoutDuration).result.Success?
  {
  }

  /** `find` by email: the index of the first row with that email. */
  function FindByEmail(users: seq<UserRecord>, email: string): (r: Option<nat>)
    ensures r.Some? ==> r.value < |users| && users[r.value].email == email
    ensures r.Some? ==> forall k :: 0 <= k < r.value ==> users[k].email != email
    ensures r.None? <==> forall k :: 0 <= k < |users| ==> users[k].email != email
  {
    if users == [] then None
    else if users[0].email == email then Some(0)
    else match FindByEmail(users[1..], email)
      case Some(k) => Some(k + 1)
      case None => None
  }

  predicate DistinctEmails(users: seq<UserRecord>) {
    forall i, j :: 0 <= i < j < |users| ==> users[i].email != users[j].email
  }

  function Seed(now: int): seq<UserRecord> {
    [ UserRecord("1", "John Student", "student@learnhub.com", "password123", Student, now, None, 0, None),
      UserRecord("2", "Sarah Teacher", "teacher@learnhub.com", "password123", Teacher, now, None, 0, None),
      UserRecord("3", "Admin User", "admin@learnhub.com", "password123", Administrator, now, None, 0, None) ]
  }

  /** Emails are unique and every record keeps the lockout invariant. */
  predicate TableValid(users: seq<UserRecord>) {
    DistinctEmails(users) && forall i :: 0 <= i < |users| ==> RecordValid(users[i])
  }

  /** Replacing a row by a valid record with the same email keeps the table valid. */
  lemma UpdateKeepsValid(users: seq<UserRecord>, i: nat, r: UserRecord)
    requires i < |users| && r.email == users[i].email && RecordValid(r)
    requires TableValid(users)
    ensures TableValid(users[i := r])
  {
  }

  class AuthService {
    var mockUsers: seq<UserRecord>

    ghost predicate Valid()
      reads this
    {
      TableValid(mockUsers)
    }

    /** The table seeded with the three demo accounts. */
    constructor(now: int)
      ensures Valid() && mockUsers == Seed(now)
    {
      mockUsers := Seed(now);
    }

    /**
     * `login`: an unknown email fails and changes nothing; otherwise the first row with that
     * email takes one attempt.
     */
    method Login(email: string, password: string, now: int) returns (result: AuthResult)
      requires Valid()
      modifies this
      ensures Valid()
      ensures var k := FindByEmail(old(mockUsers), email);
        && (k.None? ==> result == Failure(InvalidCredentials) && mockUsers == old(mockUsers))
        && (k.Some? ==>
              var a := Attempt(old(mockUsers)[k.value], password, now);
              mockUsers == old(mockUsers)[k.value := a.record] && result == a.result)
    {
      var k := FindByEmail(mockUsers, email);
      if k.None? {
        return Failure(InvalidCredentials);
      }
      var i := k.value;
      var r := mockUsers[i];
      if r.lockedUntil.Some? && r.lockedUntil.value > now {
        return Failure(LockedMessage(CeilMinutes(r.lockedUntil.value - now)));
      }
      if r.lockedUntil.Some? {
        r := r.(lockedUntil := None, failedAttempts := 0);
      }
      if r.password != password {
        r := r.(failedAttempts := r.failedAttempts + 1);
        if r.failedAttempts >= MaxFailedAttempts {
          r := r.(lockedUntil := Some(now + LockoutDuration));
          result := Failure(TooManyAttempts);
        } else {
          result := Failure(RemainingMessage(MaxFailedAttempts - r.failedAttempts));
        }
      } else {
        r := r.(failedAttempts := 0, lockedUntil := None, lastLogin := Some(now));
        result := Success(PublicUser(r));
      }
      assert r == Attempt(mockUsers[i], password, now).record && result == Attempt(mockUsers[i], password, now).result;
      AttemptPreservesValid(mockUsers[i], password, now);
      UpdateKeepsValid(mockUsers, i, r);
      mockUsers := mockUsers[i := r];
    }

    /** `register`: refuses a taken email; otherwise appends a fresh account with id `String(now)`. */
    method Register(name: string, email: string, password: string, role: Role, now: nat) returns (result: AuthResult)
      requires Valid()
      modifies this
      ensures Valid()
      ensures (exists k :: 0 <= k < |old(mockUsers)| && old(mockUsers)[k].email == email) ==>
        result == Failure(EmailTaken) && mockUsers == old(mockUsers)
      ensures (forall k :: 0 <= k < |old(mockUsers)| ==> old(mockUsers)[k].email != email) ==>
        var r := UserRecord(NatToString(now), name, email, password, role, now, None, 0, None);
        mockUsers == old(mockUsers) + [r] && result == Success(PublicUser(r))
    {
      if FindByEmail(mockUsers, email).Some? {
        return Failure(EmailTaken);
      }
      var r := UserRecord(NatToString(now), name, email, password, role, now, None, 0, None);
      mockUsers := mockUsers + [r];
      result := Success(PublicUser(r));
    }
  }

  /** After a successful registration the email leads to the new account, and logging in with its password succeeds. */
  lemma RegisteredCanLogIn(users: seq<UserRecord>, r: UserRecord, now: int)
    requires forall k :: 0 <= k < |users| ==> users[k].email != r.email
    requires r.failedAttempts == 0 && r.lockedUntil.None?
    ensures FindByEmail(users + [r], r.email) == Some(|users|)
    ensures Attempt(r, r.password, now).result.Success?
  {
    var all := users + [r];
    assert all[|users|].email == r.email;
  }
}
