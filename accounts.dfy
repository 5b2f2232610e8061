/**
 * The backend's account tables: users, user logs and subscription
 * profiles, with the routes that change them. An invitation creates an
 * inactive user holding an activation token; activation with that token
 * sets the credentials, activates the user and clears the token; the
 * payment flow stores a profile and then invites its admin; login and
 * logout append to the user log. Database, mail and password hashing are
 * not modelled: the tables are fields, a mail outcome is a flag, and the
 * hash and its comparison are parameters.
 */
module Accounts {
  import opened Js

  datatype UserRow = UserRow(
    id: nat, email: Option<string>, role: Option<string>, username: Option<string>, name: Option<string>,
    password: Option<string>, isActivated: bool, activationToken: Option<string>,
    isTrial: bool, subscriptionDurationMinutes: Option<int>)

  datatype LogRow = LogRow(userId: nat, username: string, action: string, ip: string, userAgent: string)

  datatype Profile = Profile(
    plan: string, price: int, companyName: string, fullName: string, city: string, country: string,
    userId: Option<nat>)

  /** `findUnique({ where: { email } })` finds a row. */
  predicate EmailTaken(users: seq<UserRow>, email: string) {
    exists i :: 0 <= i < |users| && users[i].email == Some(email)
  }

  /** The filter of the activation lookup: the token matches and the user is not yet active. */
  predicate IsPending(u: UserRow, token: string) {
    u.activationToken == Some(token) && !u.isActivated
  }

  /** `findFirst({ where: { activationToken: token, isActivated: false } })`, as a position. */
  function FindPending(users: seq<UserRow>, token: string): (r: Option<nat>)
    ensures r.Some? ==> r.value < |users| && IsPending(users[r.value], token)
    ensures r.Some? ==> forall j :: 0 <= j < r.value ==> !IsPending(users[j], token)
    ensures r.None? <==> forall j :: 0 <= j < |users| ==> !IsPending(users[j], token)
  {
    if users == [] then None
    else if IsPending(users[0], token) then Some(0)
    else
      var r := FindPending(users[1..], token);
      if r.None? then None else Some(r.value + 1)
  }

  /** `findUnique({ where: { username } })`, as a position: usernames are unique in the schema. */
  function FindByUsername(users: seq<UserRow>, username: string): (r: Option<nat>)
    ensures r.Some? ==> r.value < |users| && users[r.value].username == Some(username)
    ensures r.None? <==> forall j :: 0 <= j < |users| ==> users[j].username != Some(username)
  {
    if users == [] then None
    else if users[0].username == Some(username) then Some(0)
    else
      var r := FindByUsername(users[1..], username);
      if r.None? then None else Some(r.value + 1)
  }

  /** A row other than `i` already holds `username`: the unique constraint refuses the update. */
  predicate UsernameHeld(users: seq<UserRow>, i: nat, username: string) {
    exists j :: 0 <= j < |users| && j != i && users[j].username == Some(username)
  }

  /** The update of a successful activation. */
  function Activated(u: UserRow, username: string, name: string, hashed: string): UserRow {
    u.(username := Some(username), name := Some(name), password := Some(hashed),
       isActivated := true, activationToken := None)
  }

  /**
   * Activation uses the token up: the activated row is never found by any
   * token again, and a row still found by the same token is another row
   * that held that token too.
   */
  lemma ActivationConsumesToken(users: seq<UserRow>, token: string, username: string, name: string, hashed: string)
    requires FindPending(users, token).Some?
    ensures var i := FindPending(users, token).value;
      var after := users[i := Activated(users[i], username, name, hashed)];
      (forall t :: !IsPending(after[i], t)) &&
      (FindPending(after, token).Some? ==>
        FindPending(after, token).value != i && users[FindPending(after, token).value].activationToken == Some(token))
  {
  }

  /** Tokens held by no two rows. */
  predicate UniqueTokens(users: seq<UserRow>) {
    forall i, j :: 0 <= i < j < |users| && users[i].activationToken.Some? ==>
      users[i].activationToken != users[j].activationToken
  }

  /** With tokens held by one row each, a second activation with the same token fails. */
  lemma SecondActivationFails(users: seq<UserRow>, token: string, username: string, name: string, hashed: string)
    requires UniqueTokens(users) && FindPending(users, token).Some?
    ensures var i := FindPending(users, token).value;
      FindPending(users[i := Activated(users[i], username, name, hashed)], token).None?
  {
    var i := FindPending(users, token).value;
    var after := users[i := Activated(users[i], username, name, hashed)];
    ActivationConsumesToken(users, token, username, name, hashed);
  }

  /** The schema's unique constraints and the id sequence, as far as the routes rely on them. */
  predicate WellFormed(users: seq<UserRow>, nextId: nat) {
    nextId >= 1 &&
    (forall i :: 0 <= i < |users| ==> 1 <= users[i].id < nextId) &&
    (forall i, j :: 0 <= i < j < |users| ==> users[i].id != users[j].id) &&
    (forall i, j :: 0 <= i < j < |users| && users[i].email.Some? ==> users[i].email != users[j].email) &&
    (forall i, j :: 0 <= i < j < |users| && users[i].username.Some? ==> users[i].username != users[j].username)
  }

  /** With usernames unique, the row `findUnique` returns is the only row holding the name. */
  lemma FindByUsernameUnique(users: seq<UserRow>, nextId: nat, username: string, i: nat)
    requires WellFormed(users, nextId) && i < |users|
    ensures FindByUsername(users, username) == Some(i) <==> users[i].username == Some(username)
  {
  }

  /** With usernames unique, an activation that passes the constraint keeps them unique. */
  lemma ActivatedKeepsWellFormed(users: seq<UserRow>, nextId: nat, i: nat, username: string, name: string, hashed: string)
    requires WellFormed(users, nextId) && i < |users| && !UsernameHeld(users, i, username)
    ensures WellFormed(users[i := Activated(users[i], username, name, hashed)], nextId)
  {
  }

  class AccountStore {
    var users: seq<UserRow>
    var logs: seq<LogRow>
    var profiles: map<string, Profile>
    var nextId: nat

    predicate Valid()
      reads this
    {
      WellFormed(users, nextId)
    }

    constructor ()
      ensures Valid() && users == [] && logs == [] && profiles == map[]
    {
      users := [];
      logs := [];
      profiles := map[];
      nextId := 1;
    }

    /** A new inactive invitee with its token, under the next id. */
    function Invitee(email: string, role: string, token: string, isTrial: bool, minutes: Option<int>): (u: UserRow)
      reads this
      ensures u.id == nextId && u.email == Some(email) && u.role == Some(role)
      ensures !u.isActivated && u.activationToken == Some(token) && u.isTrial == isTrial
      ensures u.subscriptionDurationMinutes == minutes && u.username.None? && u.password.None?
    {
      UserRow(nextId, Some(email), Some(role), None, None, None, false, Some(token), isTrial, minutes)
    }

    /** `prisma.user.create` of an invitee: an e-mail not yet taken, no username yet. */
    method Create(u: UserRow)
      requires Valid() && u.id == nextId && u.email.Some? && !EmailTaken(users, u.email.value) && u.username.None?
      modifies this
      ensures Valid() && users == old(users) + [u] && nextId == old(nextId) + 1
      ensures logs == old(logs) && profiles == old(profiles)
    {
      users := users + [u];
      nextId := nextId + 1;
    }

    /** `POST /api/invitation`. A mail failure answers 500 but leaves the user created. */
    method Invitation(email: Option<string>, role: Option<string>, token: string, mailOk: bool) returns (status: int)
      requires Valid()
      modifies this
      ensures Valid() && logs == old(logs) && profiles == old(profiles)
      ensures !Truthy(email) || !Truthy(role) ==> status == 400 && users == old(users)
      ensures Truthy(email) && Truthy(role) && EmailTaken(old(users), email.value) ==>
        status == 400 && users == old(users)
      ensures Truthy(email) && Truthy(role) && !EmailTaken(old(users), email.value) ==>
        users == old(users) + [old(Invitee(email.value, role.value, token, false, None))] &&
        status == (if mailOk then 200 else 500)
    {
      if !Truthy(email) || !Truthy(role) {
        return 400;
      }
      if EmailTaken(users, email.value) {
        return 400;
      }
      Create(Invitee(email.value, role.value, token, false, None));
      status := if mailOk then 200 else 500;
    }

    /**
     * `POST /api/activate`: all four fields, then a pending user with the
     * token; a username another row holds makes the update throw, so 500.
     */
    method Activate(token: Option<string>, username: Option<string>, password: Option<string>, name: Option<string>,
                    hash: string -> string) returns (status: int)
      requires Valid()
      modifies this
      ensures Valid() && logs == old(logs) && profiles == old(profiles) && nextId == old(nextId)
      ensures !Truthy(token) || !Truthy(username) || !Truthy(password) || !Truthy(name) ==>
        status == 400 && users == old(users)
      ensures Truthy(token) && Truthy(username) && Truthy(password) && Truthy(name) ==>
        match FindPending(old(users), token.value)
        case None => status == 400 && users == old(users)
        case Some(i) =>
          (UsernameHeld(old(users), i, username.value) ==> status == 500 && users == old(users)) &&
          (!UsernameHeld(old(users), i, username.value) ==>
             status == 200 &&
             users == old(users)[i := Activated(old(users)[i], username.value, name.value, hash(password.value))])
    {
      if !Truthy(token) || !Truthy(username) || !Truthy(password) || !Truthy(name) {
        return 400;
      }
      var found := FindPending(users, token.value);
      if found.None? {
        return 400;
      }
      var i := found.value;
      if UsernameHeld(users, i, username.value) {
        return 500;
      }
      users := users[i := Activated(users[i], username.value, name.value, hash(password.value))];
      status := 200;
    }

    /**
     * `POST /api/payment/profile`. Only a missing price is refused; 0 is a
     * price. `newId` is the id the database assigns.
     */
    method PaymentProfile(plan: Option<string>, price: Option<int>, companyName: Option<string>,
                          fullName: Option<string>, city: Option<string>, country: Option<string>, newId: string)
      returns (status: int, profileId: Option<string>)
      requires Valid() && newId !in profiles
      modifies this
      ensures Valid() && users == old(users) && logs == old(logs) && nextId == old(nextId)
      ensures (!Truthy(plan) || price.None? || !Truthy(companyName) || !Truthy(fullName) ||
        !Truthy(city) || !Truthy(country)) ==> status == 400 && profileId.None? && profiles == old(profiles)
      ensures (Truthy(plan) && price.Some? && Truthy(companyName) && Truthy(fullName) &&
        Truthy(city) && Truthy(country)) ==>
        (status == 200 && profileId == Some(newId) &&
         profiles == old(profiles)[newId := Profile(plan.value, price.value, companyName.value, fullName.value,
           city.value, country.value, None)])
    {
      if !Truthy(plan) || price.None? || !Truthy(companyName) || !Truthy(fullName) || !Truthy(city) || !Truthy(country) {
        return 400, None;
      }
      profiles := profiles[newId := Profile(plan.value, price.value, companyName.value, fullName.value,
        city.value, country.value, None)];
      return 200, Some(newId);
    }

    /**
     * `POST /api/payment/invite`: the profile must exist and the e-mail be
     * new; the user is a 30-minute subscriber, and the profile is linked to
     * it once both mails went out.
     */
    method PaymentInvite(profileId: Option<string>, email: Option<string>, role: Option<string>, token: string,
                         mailOk: bool) returns (status: int)
      requires Valid()
      modifies this
      ensures Valid() && logs == old(logs)
      ensures !Truthy(profileId) || !Truthy(email) || !Truthy(role) ==>
        status == 400 && users == old(users) && profiles == old(profiles)
      ensures Truthy(profileId) && Truthy(email) && Truthy(role) && profileId.value !in old(profiles) ==>
        status == 404 && users == old(users) && profiles == old(profiles)
      ensures (Truthy(profileId) && Truthy(email) && Truthy(role) && profileId.value in old(profiles) &&
        EmailTaken(old(users), email.value)) ==> status == 400 && users == old(users) && profiles == old(profiles)
      ensures (Truthy(profileId) && Truthy(email) && Truthy(role) && profileId.value in old(profiles) &&
        !EmailTaken(old(users), email.value)) ==>
        (users == old(users) + [old(Invitee(email.value, role.value, token, false, Some(30)))] &&
         status == (if mailOk then 200 else 500) &&
         profiles == (if mailOk then old(profiles)[profileId.value := old(profiles)[profileId.value].(userId := Some(old(nextId)))]
                      else old(profiles)))
    {
      if !Truthy(profileId) || !Truthy(email) || !Truthy(role) {
        return 400;
      }
      if profileId.value !in profiles {
        return 404;
      }
      if EmailTaken(users, email.value) {
        return 400;
      }
      var id := nextId;
      Create(Invitee(email.value, role.value, token, false, Some(30)));
      if !mailOk {
        return 500;
      }
      profiles := profiles[profileId.value := profiles[profileId.value].(userId := Some(id))];
      status := 200;
    }

    /** `POST /api/free-trial`: a new e-mail becomes an inactive trial admin. */
    method FreeTrial(email: Option<string>, token: string, mailOk: bool) returns (status: int)
      requires Valid()
      modifies this
      ensures Valid() && logs == old(logs) && profiles == old(profiles)
      ensures !Truthy(email) ==> status == 400 && users == old(users)
      ensures Truthy(email) && EmailTaken(old(users), email.value) ==> status == 400 && users == old(users)
      ensures Truthy(email) && !EmailTaken(old(users), email.value) ==>
        users == old(users) + [old(Invitee(email.value, "admin", token, true, None))] &&
        status == (if mailOk then 200 else 500)
    {
      if !Truthy(email) {
        return 400;
      }
      if EmailTaken(users, email.value) {
        return 400;
      }
      Create(Invitee(email.value, "admin", token, true, None));
      status := if mailOk then 200 else 500;
    }

    /** The log row of a successful login. */
    function LoginRow(i: nat, ip: Option<string>, userAgent: Option<string>, headerAgent: Option<string>): LogRow
      requires i < |users|
      reads this
    {
      LogRow(users[i].id, OrElse(users[i].username, ""), "login", OrElse(ip, ""), OrElse(userAgent, OrElse(headerAgent, "")))
    }

    /**
     * `POST /login`. A missing username makes the unique lookup throw and a
     * missing password makes the comparison throw: both answer 500. An
     * unknown user, a user without a password and a wrong password answer
     * 401. Only a match appends one "login" row.
     */
    method Login(username: Option<string>, password: Option<string>, userAgent: Option<string>, ip: Option<string>,
                 headerAgent: Option<string>, matches: (string, string) -> bool) returns (status: int)
      requires Valid()
      modifies this
      ensures Valid() && users == old(users) && profiles == old(profiles) && nextId == old(nextId)
      ensures username.None? ==> status == 500 && logs == old(logs)
      ensures username.Some? ==>
        var found := FindByUsername(users, username.value);
        var checked := found.Some? && Truthy(users[found.value].password);
        (!checked ==> status == 401 && logs == old(logs)) &&
        (checked && password.None? ==> status == 500 && logs == old(logs)) &&
        (checked && password.Some? && !matches(password.value, users[found.value].password.value) ==>
           status == 401 && logs == old(logs)) &&
        (checked && password.Some? && matches(password.value, users[found.value].password.value) ==>
           status == 200 && logs == old(logs) + [LoginRow(found.value, ip, userAgent, headerAgent)])
    {
      if username.None? {
        return 500;
      }
      var found := FindByUsername(users, username.value);
      if found.None? {
        return 401;
      }
      var i := found.value;
      if !Truthy(users[i].password) {
        return 401;
      }
      if password.None? {
        return 500;
      }
      if !matches(password.value, users[i].password.value) {
        return 401;
      }
      logs := logs + [LoginRow(i, ip, userAgent, headerAgent)];
      status := 200;
    }

    /** `POST /logout`: a user id (0 counts as missing) and a username, then one "logout" row. */
    method Logout(userId: Option<nat>, username: Option<string>, userAgent: Option<string>, ip: Option<string>,
                  headerAgent: Option<string>) returns (status: int)
      requires Valid()
      modifies this
      ensures Valid() && users == old(users) && profiles == old(profiles) && nextId == old(nextId)
      ensures (userId.None? || userId.value == 0 || !Truthy(username)) ==> status == 400 && logs == old(logs)
      ensures (userId.Some? && userId.value != 0 && Truthy(username)) ==>
        (status == 200 &&
         logs == old(logs) + [LogRow(userId.value, username.value, "logout", OrElse(ip, ""),
           OrElse(userAgent, OrElse(headerAgent, "")))])
    {
      if userId.None? || userId.value == 0 || !Truthy(username) {
        return 400;
      }
      logs := logs + [LogRow(userId.value, username.value, "logout", OrElse(ip, ""), OrElse(userAgent, OrElse(headerAgent, "")))];
      status := 200;
    }
  }
}
