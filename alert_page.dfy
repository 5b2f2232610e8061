/**
 * The alert page. Its sensor view keeps the records whose numeric status
 * is not 3 (up), one per `objid`; its user view detects usernames that
 * logged in from more than one user agent.
 */
module AlertPage {
  import opened Js
  import opened Collections

  // ---------------------------------------------------------------
  // Sensor alerts
  // ---------------------------------------------------------------

  datatype Sensor = Sensor(objid: string, sensor: string, device: string, status: int, lastvalue: string, timestamp: string)

  function Objid(s: Sensor): string { s.objid }

  /** `s.status !== 3`. */
  predicate NotUp(s: Sensor) { s.status != 3 }

  /** `self.findIndex((s) => s.objid === objid)`: the first position, or -1. */
  function FindIndex(self: seq<Sensor>, objid: string): (i: int)
    ensures -1 <= i < |self|
    ensures i == -1 <==> objid !in KeySet(self, Objid)
    ensures i >= 0 ==> self[i].objid == objid && forall j :: 0 <= j < i ==> self[j].objid != objid
  {
    if self == [] then -1
    else if self[0].objid == objid then 0
    else
      var r := FindIndex(self[1..], objid);
      assert forall j :: 0 < j < |self| ==> self[j] == self[1..][j - 1];
      assert objid in KeySet(self, Objid) ==> objid in KeySet(self[1..], Objid) by {
        if objid in KeySet(self, Objid) {
          var j :| 0 <= j < |self| && Objid(self[j]) == objid;
          assert Objid(self[1..][j - 1]) == objid;
        }
      }
      if r == -1 then -1 else r + 1
  }

  /** `self.filter((sensor, index, self) => index === self.findIndex(...))`, over the first `n` positions. */
  function KeepFirstIndex(self: seq<Sensor>, n: nat): seq<Sensor>
    requires n <= |self|
  {
    if n == 0 then []
    else KeepFirstIndex(self, n - 1) + (if FindIndex(self, self[n - 1].objid) == n - 1 then [self[n - 1]] else [])
  }

  /** The `findIndex` filter is first-seen deduplication by `objid`. */
  lemma {:induction false} KeepFirstIsFirstSeen(self: seq<Sensor>, n: nat)
    requires n <= |self|
    ensures KeepFirstIndex(self, n) == FirstSeenBy(self[..n], Objid)
  {
    if n > 0 {
      KeepFirstIsFirstSeen(self, n - 1);
      assert self[..n] == self[..n - 1] + [self[n - 1]];
      FirstSeenBySnoc(self[..n - 1], self[n - 1], Objid);
      FindIndexIsFirst(self, n);
    }
  }

  /** Position `n - 1` is where `findIndex` finds its `objid` exactly when no earlier record has it. */
  lemma FindIndexIsFirst(self: seq<Sensor>, n: nat)
    requires 0 < n <= |self|
    ensures FindIndex(self, self[n - 1].objid) == n - 1 <==> Objid(self[n - 1]) !in KeySet(self[..n - 1], Objid)
  {
    var init, k := self[..n - 1], self[n - 1].objid;
    assert forall j :: 0 <= j < n - 1 ==> init[j] == self[j];
    if k in KeySet(init, Objid) {
      var j :| 0 <= j < n - 1 && Objid(init[j]) == k;
      assert self[j].objid == k;
    } else {
      forall j | 0 <= j < n - 1 ensures self[j].objid != k {
        KeyInSet(init, Objid, j);
      }
    }
  }

  /** `fetchSensorAlerts`: the status filter, then the `findIndex` filter. */
  function SensorAlerts(sensors: seq<Sensor>): (r: seq<Sensor>)
    ensures r == FirstSeenBy(Filter(sensors, NotUp), Objid)
  {
    var down := Filter(sensors, NotUp);
    KeepFirstIsFirstSeen(down, |down|);
    assert down[..|down|] == down;
    KeepFirstIndex(down, |down|)
  }

  /**
   * The sensor alerts are records whose status is not 3, one per `objid`,
   * each the first such record with its `objid`, in input order; and every
   * `objid` that has a record whose status is not 3 is represented.
   */
  lemma SensorAlertsFacts(sensors: seq<Sensor>)
    ensures var down := Filter(sensors, NotUp);
      var r := SensorAlerts(sensors);
      (forall i :: 0 <= i < |r| ==>
         r[i] in sensors && r[i].status != 3 && Objid(r[i]) in KeySet(down, Objid) &&
         r[i] == down[IndexOfKey(down, Objid, Objid(r[i]))]) &&
      DistinctKeys(r, Objid) &&
      (forall i, j :: 0 <= i < j < |r| ==>
         Objid(r[i]) in KeySet(down, Objid) && Objid(r[j]) in KeySet(down, Objid) &&
         IndexOfKey(down, Objid, Objid(r[i])) < IndexOfKey(down, Objid, Objid(r[j]))) &&
      (forall j :: 0 <= j < |sensors| && sensors[j].status != 3 ==> sensors[j].objid in KeySet(r, Objid))
  {
    var down := Filter(sensors, NotUp);
    FirstSeenKeys(down, Objid);
    FirstSeenFirst(down, Objid);
    AlertsFromBatch(sensors);
    AlertsCover(sensors);
  }

  lemma AlertsFromBatch(sensors: seq<Sensor>)
    ensures var r := SensorAlerts(sensors);
      forall i :: 0 <= i < |r| ==> r[i] in sensors && r[i].status != 3
  {
    var down := Filter(sensors, NotUp);
    var r := SensorAlerts(sensors);
    FirstSeenFirst(down, Objid);
    forall i | 0 <= i < |r| ensures r[i] in sensors && r[i].status != 3 {
      assert r[i] == down[IndexOfKey(down, Objid, Objid(r[i]))];
    }
  }

  lemma AlertsCover(sensors: seq<Sensor>)
    ensures var r := SensorAlerts(sensors);
      forall j :: 0 <= j < |sensors| && sensors[j].status != 3 ==> sensors[j].objid in KeySet(r, Objid)
  {
    var down := Filter(sensors, NotUp);
    var r := SensorAlerts(sensors);
    FirstSeenKeys(down, Objid);
    forall j | 0 <= j < |sensors| && sensors[j].status != 3 ensures sensors[j].objid in KeySet(r, Objid) {
      assert NotUp(sensors[j]);
      var k :| 0 <= k < |down| && down[k] == sensors[j];
      KeyInSet(down, Objid, k);
    }
  }

  /** The status badge of a sensor alert. */
  function Badge(status: int): (text: string)
    ensures text == "Down" <==> status == 0
    ensures text == "Warning" <==> status == 1
    ensures text == "Unknown" <==> status != 0 && status != 1
  {
    if status == 0 then "Down" else if status == 1 then "Warning" else "Unknown"
  }

  // ---------------------------------------------------------------
  // Multi-login alerts
  // ---------------------------------------------------------------

  datatype UserLog = UserLog(
    id: int,
    userId: Option<int>,
    username: Option<string>,
    action: string,
    userAgent: Option<string>,
    createdAt: string)

  datatype MultiLoginAlert = MultiLoginAlert(username: string, userAgents: seq<string>, lastLogin: string)

  /** `log.action.toLowerCase().includes("login")`. */
  predicate IsLogin(log: UserLog) { Contains(Lower(log.action), "login") }

  /** The `forEach` skips a log whose username or user agent is missing or empty. */
  predicate Counted(log: UserLog) { Truthy(log.username) && Truthy(log.userAgent) }

  /** A login log that the grouping loop files. */
  predicate CountedLogin(log: UserLog) { IsLogin(log) && Counted(log) }

  /** The condition picking the counted login logs of username `u`. */
  function LoginsOf(u: string): UserLog -> bool { log => CountedLogin(log) && UserOf(log) == u }

  function UserOf(log: UserLog): string { if log.username.Some? then log.username.value else "" }

  function AgentOf(log: UserLog): string { if log.userAgent.Some? then log.userAgent.value else "" }

  /** The counted login logs of the batch, grouped by username, in input order. */
  function Sessions(logs: seq<UserLog>): (m: map<string, seq<UserLog>>)
    ensures forall u :: u in m ==> m[u] != []
  {
    GroupBy(Filter(logs, CountedLogin), UserOf)
  }

  /** The distinct user agents of a user's logs, in first-seen order (the `Set` the loop fills). */
  function AgentsOf(g: seq<UserLog>): (agents: seq<string>)
    ensures forall i, j :: 0 <= i < j < |agents| ==> agents[i] != agents[j]
  {
    Dedup(MapSeq(g, AgentOf))
  }

  /** The creation time of the last log of a user (the `lastLogin` entry the loop overwrites). */
  function LastCreated(g: seq<UserLog>): string {
    if g == [] then "" else g[|g| - 1].createdAt
  }

  /** One alert per username that has more than one distinct user agent. */
  function AlertsOf(grouped: map<string, seq<string>>, lastLogin: map<string, string>): (alerts: map<string, MultiLoginAlert>)
    requires grouped.Keys <= lastLogin.Keys
    ensures forall u :: u in alerts <==> u in grouped && |grouped[u]| > 1
  {
    map u | u in grouped && |grouped[u]| > 1 :: MultiLoginAlert(u, grouped[u], lastLogin[u])
  }

  /** What `fetchMultiLoginAlerts` computes from a batch of logs. */
  function MultiLogins(logs: seq<UserLog>): map<string, MultiLoginAlert> {
    var m := Sessions(logs);
    AlertsOf(MapValues(m, AgentsOf), MapValues(m, LastCreated))
  }

  lemma AgentsOfSnoc(g: seq<UserLog>, log: UserLog)
    ensures AgentsOf(g + [log]) ==
      if AgentOf(log) in AgentsOf(g) then AgentsOf(g) else AgentsOf(g) + [AgentOf(log)]
  {
    MapSeqSnoc(g, log, AgentOf);
    DedupSnoc(MapSeq(g, AgentOf), AgentOf(log));
  }

  /** The username names an `Object.prototype` member. */
  predicate InheritedName(log: UserLog) { UserOf(log) in ObjectPrototypeMembers }

  /**
   * A counted log whose username names an `Object.prototype` member:
   * `grouped[username]` then reads a truthy inherited value that has no
   * `add`, and the `forEach` throws.
   */
  predicate InheritedUser(log: UserLog) { Counted(log) && InheritedName(log) }

  ghost predicate AnyInherited(logs: seq<UserLog>) {
    exists j :: 0 <= j < |logs| && InheritedUser(logs[j])
  }

  lemma AnyInheritedSnoc(logs: seq<UserLog>, log: UserLog)
    ensures AnyInherited(logs + [log]) <==> AnyInherited(logs) || InheritedUser(log)
  {
    var t := logs + [log];
    assert t[|logs|] == log;
    assert forall j :: 0 <= j < |logs| ==> t[j] == logs[j];
  }

  /** The `forEach` over the login logs; `threw` reports the TypeError that ends it. */
  method GroupLogins(loginLogs: seq<UserLog>) returns (grouped: map<string, seq<string>>, lastLogin: map<string, string>, threw: bool)
    ensures threw <==> AnyInherited(loginLogs)
    ensures !threw ==> grouped == MapValues(GroupBy(Filter(loginLogs, Counted), UserOf), AgentsOf)
    ensures !threw ==> lastLogin == MapValues(GroupBy(Filter(loginLogs, Counted), UserOf), LastCreated)
  {
    grouped, lastLogin, threw := map[], map[], false;
    for i := 0 to |loginLogs|
      invariant grouped == MapValues(GroupBy(Filter(loginLogs[..i], Counted), UserOf), AgentsOf)
      invariant lastLogin == MapValues(GroupBy(Filter(loginLogs[..i], Counted), UserOf), LastCreated)
      invariant !AnyInherited(loginLogs[..i])
    {
      var log := loginLogs[i];
      assert loginLogs[..i + 1] == loginLogs[..i] + [log];
      GroupLoginsStep(loginLogs[..i], log);
      AnyInheritedSnoc(loginLogs[..i], log);
      if Truthy(log.username) && Truthy(log.userAgent) {
        var u, a := log.username.value, log.userAgent.value;
        if u in ObjectPrototypeMembers {
          assert InheritedUser(loginLogs[i]);
          return grouped, lastLogin, true;
        }
        var seen := if u in grouped then grouped[u] else [];
        grouped := grouped[u := if a in seen then seen else seen + [a]];
        lastLogin := lastLogin[u := log.createdAt];
      }
    }
    assert loginLogs[..|loginLogs|] == loginLogs;
  }

  /** One log of the loop: a counted one adds its agent, if new, to its user's list and becomes the last login. */
  lemma GroupLoginsStep(prefix: seq<UserLog>, log: UserLog)
    ensures var m := GroupBy(Filter(prefix, Counted), UserOf);
      var m' := GroupBy(Filter(prefix + [log], Counted), UserOf);
      var grouped := MapValues(m, AgentsOf);
      var u := UserOf(log);
      var seen := if u in grouped then grouped[u] else [];
      (Counted(log) ==>
        MapValues(m', AgentsOf) == grouped[u := if AgentOf(log) in seen then seen else seen + [AgentOf(log)]] &&
        MapValues(m', LastCreated) == MapValues(m, LastCreated)[u := log.createdAt]) &&
      (!Counted(log) ==> m' == m)
  {
    var m := GroupBy(Filter(prefix, Counted), UserOf);
    GroupFilterSnoc(prefix, log, Counted, UserOf);
    var u := UserOf(log);
    var g := if u in m then m[u] else [];
    AgentsOfSnoc(g, log);
    MapValuesUpdate(m, u, g + [log], AgentsOf);
    MapValuesUpdate(m, u, g + [log], LastCreated);
  }

  /** The `for...in` over the grouped usernames. */
  method RaiseAlerts(grouped: map<string, seq<string>>, lastLogin: map<string, string>) returns (alerts: map<string, MultiLoginAlert>)
    requires grouped.Keys <= lastLogin.Keys
    ensures alerts == AlertsOf(grouped, lastLogin)
  {
    alerts := map[];
    var rest := grouped.Keys;
    while rest != {}
      invariant rest <= grouped.Keys
      invariant forall u :: u in alerts <==> u in grouped && u !in rest && |grouped[u]| > 1
      invariant forall u :: u in alerts ==> alerts[u] == MultiLoginAlert(u, grouped[u], lastLogin[u])
      decreases |rest|
    {
      var u :| u in rest;
      if |grouped[u]| > 1 {
        alerts := alerts[u := MultiLoginAlert(u, grouped[u], lastLogin[u])];
      }
      rest := rest - {u};
    }
  }

  /** The grouping loop of `fetchMultiLoginAlerts` throws: some login log is counted under an inherited name. */
  ghost predicate LoginsThrow(logs: seq<UserLog>) {
    exists j :: 0 <= j < |logs| && IsLogin(logs[j]) && InheritedUser(logs[j])
  }

  /** `fetchMultiLoginAlerts`: the action filter, the grouping loop, then the loop over usernames. */
  method MultiLoginAlerts(logs: seq<UserLog>) returns (alerts: map<string, MultiLoginAlert>, threw: bool)
    ensures threw <==> LoginsThrow(logs)
    ensures !threw ==> alerts == MultiLogins(logs)
  {
    var loginLogs := Filter(logs, IsLogin);
    var grouped, lastLogin;
    grouped, lastLogin, threw := GroupLogins(loginLogs);
    FilterExists(logs, IsLogin, InheritedUser);
    if threw {
      return map[], true;
    }
    FilterFilter(logs, IsLogin, Counted, CountedLogin);
    alerts := RaiseAlerts(grouped, lastLogin);
  }

  /** The loop throws exactly when some username it would group names an `Object.prototype` member. */
  lemma LoginsThrowIff(logs: seq<UserLog>)
    ensures LoginsThrow(logs) <==> ObjectPrototypeMembers * Sessions(logs).Keys != {}
  {
    var c := Filter(logs, CountedLogin);
    FilterExists(logs, CountedLogin, InheritedName);
    assert LoginsThrow(logs) <==> exists j :: 0 <= j < |logs| && CountedLogin(logs[j]) && InheritedName(logs[j]);
    KeySetMeets(c, UserOf, ObjectPrototypeMembers);
  }

  /** An action counts as a login exactly when its lower-cased text contains "login": "logout" does not. */
  lemma LoginActions(log: UserLog)
    ensures Lower(log.action) == "logout" ==> !IsLogin(log)
    ensures Lower(log.action) == "login" ==> IsLogin(log)
  {
    var a := Lower(log.action);
    if a == "logout" {
      forall i | 0 <= i <= |a| - 5 ensures !OccursAt(a, "login", i) {
        assert a[i + 3] != "login"[3];
      }
    }
    if a == "login" {
      assert OccursAt(a, "login", 0);
    }
  }

  /** A log without a username or user agent changes no alert. */
  lemma UncountedIgnored(logs: seq<UserLog>, log: UserLog)
    requires !Truthy(log.username) || !Truthy(log.userAgent)
    ensures MultiLogins(logs + [log]) == MultiLogins(logs)
  {
    FilterSnoc(logs, log, CountedLogin);
    assert Filter(logs + [log], CountedLogin) == Filter(logs, CountedLogin);
  }

  /** The alert of `u`, read back from the user's group of logs. */
  lemma AlertOfSession(logs: seq<UserLog>, u: string)
    requires u in MultiLogins(logs)
    ensures u in Sessions(logs)
    ensures var g := Sessions(logs)[u];
      MultiLogins(logs)[u] == MultiLoginAlert(u, AgentsOf(g), LastCreated(g))
  {
  }

  /** A user's group of logs, read back from the batch. */
  lemma SessionOf(logs: seq<UserLog>, u: string)
    requires u in Sessions(logs)
    ensures Sessions(logs)[u] == Filter(logs, LoginsOf(u))
  {
    GroupFilterGroup(logs, CountedLogin, UserOf, u, LoginsOf(u));
  }

  /**
   * An alert names its username and lists, once each, every user agent of
   * that user's counted login logs and nothing else: more than one of them.
   */
  lemma MultiLoginAgents(logs: seq<UserLog>, u: string)
    requires u in MultiLogins(logs)
    ensures var a := MultiLogins(logs)[u];
      a.username == u && |a.userAgents| > 1 &&
      (forall i, j :: 0 <= i < j < |a.userAgents| ==> a.userAgents[i] != a.userAgents[j]) &&
      (forall j :: 0 <= j < |logs| && LoginsOf(u)(logs[j]) ==> AgentOf(logs[j]) in a.userAgents) &&
      (forall i :: 0 <= i < |a.userAgents| ==>
         exists j :: 0 <= j < |logs| && LoginsOf(u)(logs[j]) && AgentOf(logs[j]) == a.userAgents[i])
  {
    AlertOfSession(logs, u);
    SessionOf(logs, u);
    assert MultiLogins(logs)[u].userAgents == AgentsOf(Filter(logs, LoginsOf(u)));
    DedupImages(logs, LoginsOf(u), AgentOf);
  }

  /** A user's last log is the user's last counted login log in input order, at position `j`. */
  lemma SessionLast(logs: seq<UserLog>, u: string) returns (j: nat)
    requires u in Sessions(logs)
    ensures j < |logs| && LoginsOf(u)(logs[j])
    ensures LastCreated(Sessions(logs)[u]) == logs[j].createdAt
    ensures forall j' :: j < j' < |logs| ==> !LoginsOf(u)(logs[j'])
  {
    SessionOf(logs, u);
    j := FilterLast(logs, LoginsOf(u));
    LastCreatedIs(Sessions(logs)[u], logs[j]);
  }

  lemma LastCreatedIs(g: seq<UserLog>, log: UserLog)
    requires g != [] && g[|g| - 1] == log
    ensures LastCreated(g) == log.createdAt
  {
  }

  /** An alert carries the creation time of the user's last counted login log in input order, at position `j`. */
  lemma MultiLoginLast(logs: seq<UserLog>, u: string) returns (j: nat)
    requires u in MultiLogins(logs)
    ensures j < |logs| && LoginsOf(u)(logs[j])
    ensures MultiLogins(logs)[u].lastLogin == logs[j].createdAt
    ensures forall j' :: j < j' < |logs| ==> !LoginsOf(u)(logs[j'])
  {
    AlertOfSession(logs, u);
    j := SessionLast(logs, u);
  }

  /** A username is alerted exactly when two of its counted login logs carry different user agents. */
  lemma MultiLoginWhen(logs: seq<UserLog>, u: string)
    ensures u in MultiLogins(logs) <==>
      exists j1, j2 :: 0 <= j1 < |logs| && 0 <= j2 < |logs| && LoginsOf(u)(logs[j1]) && LoginsOf(u)(logs[j2]) &&
        AgentOf(logs[j1]) != AgentOf(logs[j2])
  {
    var m := Sessions(logs);
    if u in m {
      SessionOf(logs, u);
      DedupMany(logs, LoginsOf(u), AgentOf);
    } else {
      GroupFilterAbsent(logs, CountedLogin, UserOf, u);
      assert forall j :: 0 <= j < |logs| ==> !LoginsOf(u)(logs[j]);
    }
  }

  /** The page state, one field per view. */
  class AlertView {
    var sensorAlerts: seq<Sensor>
    var multiLoginAlerts: map<string, MultiLoginAlert>

    constructor ()
      ensures sensorAlerts == [] && multiLoginAlerts == map[]
    {
      sensorAlerts := [];
      multiLoginAlerts := map[];
    }

    /** One `fetchSensorAlerts` run; a failed request leaves the view as it was. */
    method RefreshSensors(batch: Option<seq<Sensor>>)
      modifies this
      ensures batch.Some? ==> sensorAlerts == SensorAlerts(batch.value)
      ensures batch.None? ==> sensorAlerts == old(sensorAlerts)
      ensures multiLoginAlerts == old(multiLoginAlerts)
    {
      if batch.Some? {
        sensorAlerts := SensorAlerts(batch.value);
      }
    }

    /**
     * One `fetchMultiLoginAlerts` run; a failed request, or a grouping loop
     * that throws (caught by the same `catch`), leaves the view as it was.
     */
    method RefreshLogins(batch: Option<seq<UserLog>>)
      modifies this
      ensures batch.Some? && !LoginsThrow(batch.value) ==> multiLoginAlerts == MultiLogins(batch.value)
      ensures batch.None? || LoginsThrow(batch.value) ==> multiLoginAlerts == old(multiLoginAlerts)
      ensures sensorAlerts == old(sensorAlerts)
    {
      if batch.Some? {
        var alerts, threw := MultiLoginAlerts(batch.value);
        if !threw {
          multiLoginAlerts := alerts;
        }
      }
    }
  }
}
