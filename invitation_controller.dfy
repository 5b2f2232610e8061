/**
 * The invitation controller: the same two steps as the backend's own
 * invitation routes, written against the raw request body. Inviting
 * refuses a known e-mail and otherwise creates an inactive user with a
 * token; activation looks the token up among users not yet active, sets
 * the username and password, activates and clears the token.
 *
 * A field missing from the JSON body is `undefined`, and a database filter
 * on `undefined` is dropped. The lookup without a token therefore matches
 * any user not yet active; `LookupAsWritten` keeps that behaviour, and
 * `CheckedLookup` is the lookup with the token required.
 */
module InvitationController {
  import opened Js
  import opened Accounts

  /** The link built for the invitee. */
  function ActivationLink(token: string): (link: string)
    ensures |link| == 37 + |token|
    ensures link[..37] == "http://localhost:3000/activate?token=" && link[37..] == token
  {
    "http://localhost:3000/activate?token=" + token
  }

  /** Different tokens give different links, so a link names one invitation. */
  lemma LinksDistinct(a: string, b: string)
    requires ActivationLink(a) == ActivationLink(b)
    ensures a == b
  {
    assert a == ActivationLink(a)[37..];
  }

  /** `inviteUser`: a known e-mail is refused with 400 and nothing is created. */
  method InviteUser(store: AccountStore, email: string, role: string, token: string, mailOk: bool)
    returns (status: int)
    requires store.Valid()
    modifies store
    ensures store.Valid() && store.logs == old(store.logs) && store.profiles == old(store.profiles)
    ensures EmailTaken(old(store.users), email) ==> status == 400 && store.users == old(store.users)
    ensures !EmailTaken(old(store.users), email) ==>
      store.users == old(store.users) + [old(store.Invitee(email, role, token, false, None))] &&
      status == (if mailOk then 200 else 500)
  {
    if EmailTaken(store.users, email) {
      return 400;
    }
    store.Create(store.Invitee(email, role, token, false, None));
    status := if mailOk then 200 else 500;
  }

  /** The filter `{ activationToken: token, isActivated: false }` with `undefined` dropped. */
  predicate PendingWhere(u: UserRow, token: Option<string>) {
    !u.isActivated && (token.Some? ==> u.activationToken == token)
  }

  /** `findFirst` with that filter, as written. */
  function LookupAsWritten(users: seq<UserRow>, token: Option<string>): (r: Option<nat>)
    ensures r.Some? ==> r.value < |users| && PendingWhere(users[r.value], token)
    ensures r.Some? ==> forall j :: 0 <= j < r.value ==> !PendingWhere(users[j], token)
    ensures r.None? <==> forall j :: 0 <= j < |users| ==> !PendingWhere(users[j], token)
  {
    if users == [] then None
    else if PendingWhere(users[0], token) then Some(0)
    else
      var r := LookupAsWritten(users[1..], token);
      if r.None? then None else Some(r.value + 1)
  }

  /** A body without a token finds an invitee whose token was never presented. */
  lemma MissingTokenFindsInvitee()
    ensures var invitee := UserRow(1, Some("a@example.com"), Some("admin"), None, None, None, false, Some("k3y"), false, None);
      LookupAsWritten([invitee], None) == Some(0) && invitee.activationToken != None
  {
  }

  /** The lookup with the token required: only a user holding the presented token is found. */
  function CheckedLookup(users: seq<UserRow>, token: Option<string>): (r: Option<nat>)
    ensures r.Some? ==> (Truthy(token) && r.value < |users| && users[r.value].activationToken == token &&
                         !users[r.value].isActivated)
    ensures Truthy(token) ==> r == FindPending(users, token.value)
    ensures !Truthy(token) ==> r.None?
  {
    if Truthy(token) then FindPending(users, token.value) else None
  }

  /** On every body that carries a token the two lookups agree. */
  lemma LookupsAgreeWithToken(users: seq<UserRow>, token: string)
    ensures LookupAsWritten(users, Some(token)) == CheckedLookup(users, Some(token)) || token == ""
  {
    if token != "" {
      LookupAgree(users, token);
    }
  }

  lemma {:induction false} LookupAgree(users: seq<UserRow>, token: string)
    ensures LookupAsWritten(users, Some(token)) == FindPending(users, token)
    decreases |users|
  {
    if users != [] {
      LookupAgree(users[1..], token);
    }
  }

  /** The update of `activateUser`: an `undefined` username leaves the stored one. */
  function ActivatedAsWritten(u: UserRow, username: Option<string>, hashed: string): UserRow {
    u.(username := if username.Some? then username else u.username, password := Some(hashed),
       isActivated := true, activationToken := None)
  }

  /** The update sets a username that another row already holds: the unique constraint throws. */
  predicate Clashes(users: seq<UserRow>, i: nat, username: Option<string>) {
    username.Some? && UsernameHeld(users, i, username.value)
  }

  /**
   * `activateUser` as written. No pending match answers 400; a missing
   * password makes the hash throw, and a username another row holds makes
   * the update throw: both answer 500 and change nothing.
   */
  method ActivateUser(store: AccountStore, token: Option<string>, username: Option<string>,
                      password: Option<string>, hash: string -> string) returns (status: int)
    requires store.Valid()
    modifies store
    ensures store.Valid() && store.logs == old(store.logs) && store.profiles == old(store.profiles)
    ensures match LookupAsWritten(old(store.users), token)
      case None => status == 400 && store.users == old(store.users)
      case Some(i) =>
        (password.None? || Clashes(old(store.users), i, username) ==> status == 500 && store.users == old(store.users)) &&
        (password.Some? && !Clashes(old(store.users), i, username) ==>
           status == 200 &&
           store.users == old(store.users)[i := ActivatedAsWritten(old(store.users)[i], username, hash(password.value))])
  {
    var found := LookupAsWritten(store.users, token);
    if found.None? {
      return 400;
    }
    if password.None? {
      return 500;
    }
    var i := found.value;
    if Clashes(store.users, i, username) {
      return 500;
    }
    store.users := store.users[i := ActivatedAsWritten(store.users[i], username, hash(password.value))];
    status := 200;
  }

  /**
   * `activateUser` with the token required first: only the holder of the
   * token is activated, and a holder with a password and a free username
   * always is.
   */
  method ActivateUserChecked(store: AccountStore, token: Option<string>, username: Option<string>,
                             password: Option<string>, hash: string -> string) returns (status: int, activated: Option<nat>)
    requires store.Valid()
    modifies store
    ensures store.Valid() && store.logs == old(store.logs) && store.profiles == old(store.profiles)
    ensures activated.Some? ==> (status == 200 && activated.value < |old(store.users)| && password.Some? &&
                                 old(store.users)[activated.value].activationToken == token && Truthy(token))
    ensures activated.None? ==> status != 200 && store.users == old(store.users)
    ensures activated.Some? && password.Some? ==>
      store.users == old(store.users)[activated.value := ActivatedAsWritten(old(store.users)[activated.value], username, hash(password.value))]
    ensures match CheckedLookup(old(store.users), token)
      case None => status == 400 && activated.None?
      case Some(i) =>
        (password.None? || Clashes(old(store.users), i, username) ==> status == 500 && activated.None?) &&
        (password.Some? && !Clashes(old(store.users), i, username) ==> status == 200 && activated == Some(i))
  {
    var found := CheckedLookup(store.users, token);
    if found.None? {
      return 400, None;
    }
    if password.None? {
      return 500, None;
    }
    var i := found.value;
    if Clashes(store.users, i, username) {
      return 500, None;
    }
    store.users := store.users[i := ActivatedAsWritten(store.users[i], username, hash(password.value))];
    return 200, Some(i);
  }
}
