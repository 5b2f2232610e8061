/**
 * The search box of the management page. One query filters three lists:
 * the user accounts (by name, e-mail or username), the user logs (by
 * username or action) and the subscription profiles (by company, full
 * name, city or country). Matching is case-insensitive substring search;
 * a field that is null never matches.
 */
module UserManagement {
  import opened Js
  import opened Collections

  datatype User = User(
    id: string, email: Option<string>, username: Option<string>, name: Option<string>,
    role: Option<string>, isActivated: bool, createdAt: string, updatedAt: string)

  datatype UserLog = UserLog(
    id: int, userId: Option<int>, username: Option<string>, action: string,
    userAgent: Option<string>, createdAt: string)

  datatype UserProfile = UserProfile(
    id: string, companyName: string, fullName: string, city: string, country: string, createdAt: string)

  /** `field?.toLowerCase().includes(q) ?? false`, with `q` already lower-cased. */
  predicate FieldMatches(field: Option<string>, q: string) {
    field.Some? && Contains(Lower(field.value), q)
  }

  predicate UserMatches(search: string, user: User) {
    var q := Lower(search);
    FieldMatches(user.name, q) || FieldMatches(user.email, q) || FieldMatches(user.username, q)
  }

  predicate LogMatches(search: string, log: UserLog) {
    var q := Lower(search);
    FieldMatches(log.username, q) || Contains(Lower(log.action), q)
  }

  predicate ProfileMatches(search: string, profile: UserProfile) {
    var q := Lower(search);
    Contains(Lower(profile.companyName), q) || Contains(Lower(profile.fullName), q) ||
    Contains(Lower(profile.city), q) || Contains(Lower(profile.country), q)
  }

  function UserQuery(search: string): User -> bool { u => UserMatches(search, u) }

  function LogQuery(search: string): UserLog -> bool { l => LogMatches(search, l) }

  function ProfileQuery(search: string): UserProfile -> bool { p => ProfileMatches(search, p) }

  /** `filteredUsers`: exactly the users that match, and only users of the list. */
  function FilteredUsers(users: seq<User>, search: string): (r: seq<User>)
    ensures |r| <= |users|
    ensures forall i :: 0 <= i < |r| ==> r[i] in users && UserMatches(search, r[i])
    ensures forall i :: 0 <= i < |users| && UserMatches(search, users[i]) ==> users[i] in r
  {
    Filter(users, UserQuery(search))
  }

  /** `filteredLogs`. */
  function FilteredLogs(logs: seq<UserLog>, search: string): (r: seq<UserLog>)
    ensures |r| <= |logs|
    ensures forall i :: 0 <= i < |r| ==> r[i] in logs && LogMatches(search, r[i])
    ensures forall i :: 0 <= i < |logs| && LogMatches(search, logs[i]) ==> logs[i] in r
  {
    Filter(logs, LogQuery(search))
  }

  /** `filteredProfiles`. */
  function FilteredProfiles(profiles: seq<UserProfile>, search: string): (r: seq<UserProfile>)
    ensures |r| <= |profiles|
    ensures forall i :: 0 <= i < |r| ==> r[i] in profiles && ProfileMatches(search, r[i])
    ensures forall i :: 0 <= i < |profiles| && ProfileMatches(search, profiles[i]) ==> profiles[i] in r
  {
    Filter(profiles, ProfileQuery(search))
  }

  /** Each of the three lists is its input with some entries dropped and the rest in input order. */
  lemma SearchKeepsOrder(users: seq<User>, logs: seq<UserLog>, profiles: seq<UserProfile>, search: string)
    returns (pu: seq<nat>, pl: seq<nat>, pp: seq<nat>)
    ensures Picks(FilteredUsers(users, search), users, pu)
    ensures Picks(FilteredLogs(logs, search), logs, pl)
    ensures Picks(FilteredProfiles(profiles, search), profiles, pp)
  {
    pu := FilterPicks(users, UserQuery(search));
    pl := FilterPicks(logs, LogQuery(search));
    pp := FilterPicks(profiles, ProfileQuery(search));
  }

  /** The empty text occurs in every text. */
  lemma EmptyOccurs(s: string)
    ensures Contains(s, "")
  {
    assert OccursAt(s, "", 0);
  }

  /** A user whose three fields are null is never listed, whatever the query, even an empty one. */
  lemma NullUserExcluded(users: seq<User>, search: string, user: User)
    requires user.name.None? && user.email.None? && user.username.None?
    ensures user !in FilteredUsers(users, search)
  {
  }

  /** With an empty query a user is listed exactly when one of its three fields is not null. */
  lemma EmptyQueryUsers(users: seq<User>)
    ensures forall i :: 0 <= i < |users| ==>
      (users[i] in FilteredUsers(users, "") <==>
        users[i].name.Some? || users[i].email.Some? || users[i].username.Some?)
  {
    forall i | 0 <= i < |users| && users[i].name.Some? { EmptyOccurs(Lower(users[i].name.value)); }
    forall i | 0 <= i < |users| && users[i].email.Some? { EmptyOccurs(Lower(users[i].email.value)); }
    forall i | 0 <= i < |users| && users[i].username.Some? { EmptyOccurs(Lower(users[i].username.value)); }
  }

  /** An empty query keeps every log, since every log has an action. */
  lemma EmptyQueryLogs(logs: seq<UserLog>)
    ensures FilteredLogs(logs, "") == logs
  {
    forall i | 0 <= i < |logs| ensures LogQuery("")(logs[i]) {
      EmptyOccurs(Lower(logs[i].action));
    }
    FilterKeepsAll(logs, LogQuery(""));
  }

  /** An empty query keeps every profile. */
  lemma EmptyQueryProfiles(profiles: seq<UserProfile>)
    ensures FilteredProfiles(profiles, "") == profiles
  {
    forall i | 0 <= i < |profiles| ensures ProfileQuery("")(profiles[i]) {
      EmptyOccurs(Lower(profiles[i].companyName));
    }
    FilterKeepsAll(profiles, ProfileQuery(""));
  }

  /** A text inside a text inside `s` is inside `s`. */
  lemma ContainsTransitive(s: string, b: string, a: string)
    requires Contains(s, b) && Contains(b, a)
    ensures Contains(s, a)
  {
    var i :| 0 <= i <= |s| - |b| && OccursAt(s, b, i);
    var j :| 0 <= j <= |b| - |a| && OccursAt(b, a, j);
    forall k | 0 <= k < |a| ensures s[i + j + k] == a[k] {
      assert s[i..i + |b|][j + k] == b[j + k];
      assert b[j..j + |a|][k] == b[j + k];
    }
    assert s[i + j..i + j + |a|] == a;
    assert OccursAt(s, a, i + j);
  }

  /** Lower-casing keeps a text inside another. */
  lemma LowerContains(q2: string, q: string)
    requires Contains(q2, q)
    ensures Contains(Lower(q2), Lower(q))
  {
    var i :| 0 <= i <= |q2| - |q| && OccursAt(q2, q, i);
    assert Lower(q2)[i..i + |q|] == Lower(q) by {
      assert forall k :: 0 <= k < |q| ==> q2[i + k] == q[k];
    }
    assert OccursAt(Lower(q2), Lower(q), i);
  }

  /** A field that matches a longer query matches every query inside it. */
  lemma FieldNarrow(field: Option<string>, q: string, q2: string)
    requires Contains(q2, q) && FieldMatches(field, Lower(q2))
    ensures FieldMatches(field, Lower(q))
  {
    LowerContains(q2, q);
    ContainsTransitive(Lower(field.value), Lower(q2), Lower(q));
  }

  lemma TextNarrow(text: string, q: string, q2: string)
    requires Contains(q2, q) && Contains(Lower(text), Lower(q2))
    ensures Contains(Lower(text), Lower(q))
  {
    LowerContains(q2, q);
    ContainsTransitive(Lower(text), Lower(q2), Lower(q));
  }

  /**
   * Typing more narrows the lists: when `q` occurs in `q2`, filtering the
   * list for `q` by `q2` gives the list for `q2`, so whatever passes `q2`
   * passes `q`.
   */
  lemma NarrowerSearchUsers(users: seq<User>, q: string, q2: string)
    requires Contains(q2, q)
    ensures Filter(FilteredUsers(users, q), UserQuery(q2)) == FilteredUsers(users, q2)
  {
    forall u: User | UserMatches(q2, u) ensures UserMatches(q, u) {
      var l2 := Lower(q2);
      if FieldMatches(u.name, l2) { FieldNarrow(u.name, q, q2); }
      else if FieldMatches(u.email, l2) { FieldNarrow(u.email, q, q2); }
      else { FieldNarrow(u.username, q, q2); }
    }
    FilterFilter(users, UserQuery(q), UserQuery(q2), UserQuery(q2));
  }

  lemma NarrowerSearchLogs(logs: seq<UserLog>, q: string, q2: string)
    requires Contains(q2, q)
    ensures Filter(FilteredLogs(logs, q), LogQuery(q2)) == FilteredLogs(logs, q2)
  {
    forall l: UserLog | LogMatches(q2, l) ensures LogMatches(q, l) {
      if FieldMatches(l.username, Lower(q2)) { FieldNarrow(l.username, q, q2); }
      else { TextNarrow(l.action, q, q2); }
    }
    FilterFilter(logs, LogQuery(q), LogQuery(q2), LogQuery(q2));
  }

  lemma NarrowerSearchProfiles(profiles: seq<UserProfile>, q: string, q2: string)
    requires Contains(q2, q)
    ensures Filter(FilteredProfiles(profiles, q), ProfileQuery(q2)) == FilteredProfiles(profiles, q2)
  {
    forall p: UserProfile | ProfileMatches(q2, p) ensures ProfileMatches(q, p) {
      var l2 := Lower(q2);
      if Contains(Lower(p.companyName), l2) { TextNarrow(p.companyName, q, q2); }
      else if Contains(Lower(p.fullName), l2) { TextNarrow(p.fullName, q, q2); }
      else if Contains(Lower(p.city), l2) { TextNarrow(p.city, q, q2); }
      else { TextNarrow(p.country, q, q2); }
    }
    FilterFilter(profiles, ProfileQuery(q), ProfileQuery(q2), ProfileQuery(q2));
  }
}
