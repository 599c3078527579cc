/** controllers/auth.js: `register` and `login` over the users collection,
    modelled as a map from stored email to record. bcrypt (`hash`, `compare`)
    and JWT signing (`sign`) are oracles; the new user's id and the random
    `viewedProfile`/`impressions` are supplied from outside. */
module AuthController {
  import opened Wrappers
  import opened JsString

  /** `expiresIn` of both success responses: 7 days in milliseconds. */
  const TokenLifetimeMs: int := 7 * 24 * 60 * 60 * 1000

  /** The `expiresIn` option both handlers pass to `jwt.sign`. */
  const SignedLifetime: string := "7d"

  const DayMs: int := 24 * 60 * 60 * 1000

  /** The milliseconds a time span written as a count of days (`"<digits>d"`, the
      day form of the `ms` format `jwt.sign` reads) stands for; `None` for any other form. */
  function DaySpanMs(span: string): (r: Option<int>)
    ensures r.Some? ==> |span| >= 2 && span[|span| - 1] == 'd' && r.value % DayMs == 0 && r.value >= 0
  {
    if |span| >= 2 && span[|span| - 1] == 'd' && AllDigits(span[..|span| - 1], 10) then
      Some(DigitsValue(span[..|span| - 1], 10) * DayMs)
    else None
  }

  /** The lifetime the token is signed with and the `expiresIn` the response reports agree. */
  lemma SignedLifetimeIsReported()
    ensures DaySpanMs(SignedLifetime) == Some(TokenLifetimeMs)
  {
    var count := SignedLifetime[..1];
    assert count == "7" && AllDigits(count, 10);
    assert count[..0] == "";
    assert DigitsValue(count, 10) == 7;
  }

  datatype UserRecord = UserRecord(
    id: string,
    firstName: string,
    lastName: string,
    email: string,
    password: string,
    picturePath: string,
    friends: seq<string>,
    location: Option<string>,
    occupation: Option<string>,
    viewedProfile: int,
    impressions: int)

  /** A user as it is sent to a client: every field but `password`. */
  datatype PublicUser = PublicUser(
    id: string,
    firstName: string,
    lastName: string,
    email: string,
    picturePath: string,
    friends: seq<string>,
    location: Option<string>,
    occupation: Option<string>,
    viewedProfile: int,
    impressions: int)

  /** `delete user.password` in `login`, and the `toJSON` of models/User.js in `register`. */
  function WithoutPassword(u: UserRecord): (p: PublicUser)
    ensures p.id == u.id && p.email == u.email && p.firstName == u.firstName && p.lastName == u.lastName
    ensures p.picturePath == u.picturePath && p.friends == u.friends
    ensures p.location == u.location && p.occupation == u.occupation
    ensures p.viewedProfile == u.viewedProfile && p.impressions == u.impressions
  {
    PublicUser(u.id, u.firstName, u.lastName, u.email, u.picturePath, u.friends,
               u.location, u.occupation, u.viewedProfile, u.impressions)
  }

  /** The users collection, keyed by the stored email. */
  type Users = map<string, UserRecord>

  /** Every key is its record's email, non-empty, already lower-cased and trimmed. */
  predicate Normalised(users: Users) {
    forall k :: k in users ==> k != "" && users[k].email == k && IsTrimmed(k) && IsLower(k)
  }

  datatype Oracles = Oracles(
    hash: string -> string,             // bcrypt.hash(password, salt)
    compare: (string, string) -> bool,  // bcrypt.compare(password, hash)
    sign: (string, string) -> string,   // jwt.sign({ id }, secret, { expiresIn })
    isObjectId: string -> bool)         // whether Mongoose casts a string to an ObjectId

  /** The values the store and `Math.random` supply to a new user. */
  datatype Fresh = Fresh(id: string, viewedProfile: int, impressions: int)

  datatype RegisterBody = RegisterBody(
    firstName: Option<string>,
    lastName: Option<string>,
    email: Option<string>,
    password: Option<string>,
    picturePath: Option<string>,
    friends: Option<seq<string>>,
    location: Option<string>,
    occupation: Option<string>)

  datatype Response =
    | Authenticated(status: int, user: PublicUser, token: string, expiresIn: int)
    | Refused(status: int, message: string)

  datatype Registered = Registered(resp: Response, users: Users)

  /** How the stored email is derived: lower-cased, then trimmed. */
  function StoredEmail(email: string): string {
    Trim(ToLower(email))
  }

  /** The lookup key of both handlers: lower-cased only. */
  function LookupKey(email: string): (k: string)
    ensures |k| == |email| && IsLower(k)
    ensures forall i :: 0 <= i < |k| ==> k[i] == LowerChar(email[i])
  {
    ToLowerIsLower(email);
    ToLower(email)
  }

  /** Whether `new User({...}).save()` passes the schema: the `required` strings are
      non-empty and every `friends` entry casts to an ObjectId. */
  predicate SavesCleanly(u: UserRecord, oracles: Oracles) {
    && u.firstName != "" && u.lastName != "" && u.email != "" && u.password != ""
    && forall i :: 0 <= i < |u.friends| ==> oracles.isObjectId(u.friends[i])
  }

  /** The body carries every field `register` calls a method on or hashes. */
  predicate Complete(body: RegisterBody) {
    body.email.Some? && body.password.Some? && body.firstName.Some? && body.lastName.Some?
  }

  function NewUser(body: RegisterBody, oracles: Oracles, supply: Fresh): UserRecord
    requires Complete(body)
  {
    UserRecord(
      supply.id,
      Trim(body.firstName.value),
      Trim(body.lastName.value),
      StoredEmail(body.email.value),
      oracles.hash(body.password.value),
      body.picturePath.GetOr(""),
      body.friends.GetOr([]),
      body.location,
      body.occupation,
      supply.viewedProfile,
      supply.impressions)
  }

  const RegistrationFailed: Response := Refused(500, "Registration failed")

  /** `register`. A thrown error (an absent email, name or password) and a failed
      save (an empty required field, a friend id that is no ObjectId, or a stored
      email already taken) all become 500 "Registration failed"; no failure stores
      anything, and a complete body that passes both checks and saves is registered. */
  function Registration(users: Users, body: RegisterBody, oracles: Oracles, supply: Fresh): (r: Registered)
    ensures r.resp.Refused? ==> r.users == users
    ensures body.email.None? ==> r == Registered(RegistrationFailed, users)
    ensures body.email.Some? && LookupKey(body.email.value) in users ==>
              r == Registered(Refused(400, "User already exists"), users)
    ensures body.email.Some? && LookupKey(body.email.value) !in users && !Complete(body) ==>
              r == Registered(RegistrationFailed, users)
    ensures Complete(body) && LookupKey(body.email.value) !in users ==>
              if SavesCleanly(NewUser(body, oracles, supply), oracles) && StoredEmail(body.email.value) !in users
              then r.resp.Authenticated?
              else r == Registered(RegistrationFailed, users)
    ensures r.resp.Authenticated? ==>
              && Complete(body)
              && var k := StoredEmail(body.email.value);
              && k !in users && LookupKey(body.email.value) !in users
              && k in r.users && r.users == users[k := r.users[k]]
              && r.users[k].email == k
              && r.users[k].firstName == Trim(body.firstName.value)
              && r.users[k].lastName == Trim(body.lastName.value)
              && r.users[k].password == oracles.hash(body.password.value)
              && r.users[k].friends == body.friends.GetOr([])
              && r.resp == Authenticated(201, WithoutPassword(r.users[k]),
                                         oracles.sign(r.users[k].id, SignedLifetime), TokenLifetimeMs)
  {
    if body.email.None? then Registered(RegistrationFailed, users)
    else if LookupKey(body.email.value) in users then Registered(Refused(400, "User already exists"), users)
    else if body.password.None? || body.firstName.None? || body.lastName.None? then Registered(RegistrationFailed, users)
    else
      var u := NewUser(body, oracles, supply);
      if !SavesCleanly(u, oracles) || u.email in users then Registered(RegistrationFailed, users)
      else Registered(Authenticated(201, WithoutPassword(u), oracles.sign(u.id, SignedLifetime), TokenLifetimeMs),
                      users[u.email := u])
  }

  /** Lower-casing then trimming gives a key that both operations leave alone. */
  lemma StoredEmailNormal(email: string)
    ensures IsTrimmed(StoredEmail(email)) && IsLower(StoredEmail(email))
  {
    var k := StoredEmail(email);
    assert IsTrimmed(k);
    TrimToLower(email);
    ToLowerIsLower(Trim(email));
  }

  /** `register` keeps the collection keyed by normalised, non-empty email. */
  lemma RegistrationKeepsNormalised(users: Users, body: RegisterBody, oracles: Oracles, supply: Fresh)
    requires Normalised(users)
    ensures Normalised(Registration(users, body, oracles, supply).users)
  {
    var r := Registration(users, body, oracles, supply);
    RegistrationInserts(users, body, oracles, supply);
    if r.resp.Authenticated? {
      var u := NewUser(body, oracles, supply);
      StoredEmailNormal(body.email.value);
      NormalisedInsert(users, u);
    }
  }

  /** A successful registration inserts exactly the new record under its stored email. */
  lemma RegistrationInserts(users: Users, body: RegisterBody, oracles: Oracles, supply: Fresh)
    ensures var r := Registration(users, body, oracles, supply);
            r.resp.Authenticated? ==>
              && Complete(body)
              && NewUser(body, oracles, supply).email == StoredEmail(body.email.value)
              && NewUser(body, oracles, supply).email != ""
              && r.users == users[NewUser(body, oracles, supply).email := NewUser(body, oracles, supply)]
  {
  }

  /** Inserting a record under its own non-empty, normalised email keeps the collection normalised. */
  lemma NormalisedInsert(users: Users, u: UserRecord)
    requires Normalised(users)
    requires u.email != "" && IsTrimmed(u.email) && IsLower(u.email)
    ensures Normalised(users[u.email := u])
  {
  }

  const InvalidCredentials: Response := Refused(400, "Invalid credentials")

  /** `login`. */
  function Login(users: Users, email: Option<string>, password: Option<string>, oracles: Oracles): (r: Response)
    ensures email.None? || email == Some("") || password.None? || password == Some("") ==>
              r == Refused(400, "Email and password are required")
    ensures email.Some? && email.value != "" && password.Some? && password.value != "" ==>
              (r.Authenticated? <==> LookupKey(email.value) in users &&
                                     oracles.compare(password.value, users[LookupKey(email.value)].password))
    ensures r.Refused? && r != Refused(400, "Email and password are required") ==> r == InvalidCredentials
    ensures r.Authenticated? ==>
              && email.Some? && password.Some?
              && LookupKey(email.value) in users
              && oracles.compare(password.value, users[LookupKey(email.value)].password)
              && r == Authenticated(200, WithoutPassword(users[LookupKey(email.value)]),
                                    oracles.sign(users[LookupKey(email.value)].id, SignedLifetime), TokenLifetimeMs)
  {
    if email.None? || email.value == "" || password.None? || password.value == "" then
      Refused(400, "Email and password are required")
    else
      var key := LookupKey(email.value);
      if key !in users then InvalidCredentials
      else if !oracles.compare(password.value, users[key].password) then InvalidCredentials
      else Authenticated(200, WithoutPassword(users[key]), oracles.sign(users[key].id, SignedLifetime), TokenLifetimeMs)
  }

  /** An unknown email and a wrong password get the very same response. */
  lemma SameRefusalForUnknownAndWrongPassword(users: Users, e1: string, e2: string, p1: string, p2: string, oracles: Oracles)
    requires e1 != "" && e2 != "" && p1 != "" && p2 != ""
    requires LookupKey(e1) !in users
    requires LookupKey(e2) in users && !oracles.compare(p2, users[LookupKey(e2)].password)
    ensures Login(users, Some(e1), Some(p1), oracles) == Login(users, Some(e2), Some(p2), oracles)
    ensures Login(users, Some(e1), Some(p1), oracles) == Refused(400, "Invalid credentials")
  {
  }

  /** An email whose lookup key is not stored gets "Invalid credentials". */
  lemma UnknownEmailRefused(users: Users, email: string, password: string, oracles: Oracles)
    requires email != "" && password != ""
    requires LookupKey(email) !in users
    ensures Login(users, Some(email), Some(password), oracles) == InvalidCredentials
  {
  }

  /** A stored user logs in with its stored email and the right password. */
  lemma LoginWithStoredEmail(users: Users, k: string, password: string, oracles: Oracles)
    requires Normalised(users) && k in users && password != ""
    requires oracles.compare(password, users[k].password)
    ensures Login(users, Some(k), Some(password), oracles) ==
              Authenticated(200, WithoutPassword(users[k]), oracles.sign(users[k].id, SignedLifetime), TokenLifetimeMs)
  {
    LowerFixedIff(k);
  }

  /** An email that starts or ends with white space. */
  predicate Spaced(e: string) {
    |e| > 0 && (IsSpace(e[0]) || IsSpace(e[|e| - 1]))
  }

  /** The lookup key of a spaced email keeps the white space, so no normalised
      collection holds it. */
  lemma SpacedKeyAbsent(users: Users, e: string)
    requires Normalised(users)
    requires Spaced(e)
    ensures LookupKey(e) !in users
  {
    var typed := LookupKey(e);
    assert typed[0] == LowerChar(e[0]);
    assert typed[|e| - 1] == LowerChar(e[|e| - 1]);
    assert !IsTrimmed(typed);
  }

  /** An email typed with surrounding white space passes the duplicate check under
      a key the store will never hold, is stored trimmed, and then cannot log in as
      typed: the lookup lower-cases but does not trim. */
  lemma SpacedEmailCannotLogIn(users: Users, body: RegisterBody, oracles: Oracles, supply: Fresh, password: string)
    requires Normalised(users)
    requires body.email.Some? && Spaced(body.email.value)
    requires Registration(users, body, oracles, supply).resp.Authenticated?
    requires password != ""
    ensures Login(Registration(users, body, oracles, supply).users, body.email, Some(password), oracles) == InvalidCredentials
  {
    var e := body.email.value;
    var after := Registration(users, body, oracles, supply).users;
    RegistrationKeepsNormalised(users, body, oracles, supply);
    SpacedKeyAbsent(after, e);
    UnknownEmailRefused(after, e, password, oracles);
  }

  /** With surrounding white space the duplicate check misses an existing account; the
      unique index then refuses the save, so the client gets 500, not 400. */
  lemma SpacedDuplicateIsServerError(users: Users, body: RegisterBody, oracles: Oracles, supply: Fresh)
    requires Normalised(users)
    requires body.email.Some? && Spaced(body.email.value)
    requires StoredEmail(body.email.value) in users
    ensures Registration(users, body, oracles, supply) == Registered(RegistrationFailed, users)
  {
    SpacedKeyAbsent(users, body.email.value);
  }

  /** The users collection as `register` changes it: one insert after the lookup. */
  class UserStore {
    var users: Users

    ghost predicate Valid()
      reads this
    {
      Normalised(users)
    }

    constructor ()
      ensures Valid() && users == map[]
    {
      users := map[];
    }

    /** `register` against the live collection. */
    method Register(body: RegisterBody, oracles: Oracles, supply: Fresh) returns (resp: Response)
      requires Valid()
      modifies this
      ensures Valid()
      ensures resp == Registration(old(users), body, oracles, supply).resp
      ensures users == Registration(old(users), body, oracles, supply).users
    {
      RegistrationKeepsNormalised(users, body, oracles, supply);
      if body.email.None? {
        return RegistrationFailed;
      }
      if LookupKey(body.email.value) in users {
        return Refused(400, "User already exists");
      }
      if body.password.None? || body.firstName.None? || body.lastName.None? {
        return RegistrationFailed;
      }
      var u := NewUser(body, oracles, supply);
      if !SavesCleanly(u, oracles) || u.email in users {
        return RegistrationFailed;
      }
      users := users[u.email := u];
      resp := Authenticated(201, WithoutPassword(u), oracles.sign(u.id, SignedLifetime), TokenLifetimeMs);
    }
  }
}
