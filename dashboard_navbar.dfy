/**
 * The navigation bar of the dashboard pages. Every poll it asks whether any
 * sensor of the batch is not up (numeric status other than 3) and keeps
 * the answer as `hasAlert`; the bar itself is hidden on the login page, and
 * the bell and the menu are hidden on the landing page.
 */
module DashboardNavbar {
  import opened Js
  import opened Collections

  datatype Sensor = Sensor(sensor: string, device: string, status: int, lastvalue: string, timestamp: string)

  /** The filter of `fetchAlerts`: status 3 is up, anything else raises the alert. */
  predicate NotUp(s: Sensor) { s.status != 3 }

  /** `downSensors.length > 0`. */
  function HasAlert(sensors: seq<Sensor>): (b: bool)
    ensures b <==> exists i :: 0 <= i < |sensors| && sensors[i].status != 3
  {
    CountPositive(sensors, NotUp);
    |Filter(sensors, NotUp)| > 0
  }

  /** An empty batch, or one whose every sensor is up, raises no alert. */
  lemma NoAlertWhenAllUp(sensors: seq<Sensor>)
    requires forall i :: 0 <= i < |sensors| ==> sensors[i].status == 3
    ensures !HasAlert(sensors)
  {
  }

  /** One record that is not up is enough, wherever it sits in the batch. */
  lemma AlertMonotone(sensors: seq<Sensor>, more: seq<Sensor>)
    requires HasAlert(sensors)
    ensures HasAlert(sensors + more) && HasAlert(more + sensors)
  {
    var i :| 0 <= i < |sensors| && sensors[i].status != 3;
    assert (sensors + more)[i] == sensors[i];
    assert (more + sensors)[|more| + i] == sensors[i];
  }

  /** What the bar draws for a path. */
  datatype Layout = Hidden | Shown(bell: bool, menu: bool)

  /** The early `return null` on "/login", and the `pathname !== "/"` guards. */
  function LayoutAt(pathname: string): (l: Layout)
    ensures l == Hidden <==> pathname == "/login"
    ensures l.Shown? ==> (l.bell <==> pathname != "/") && (l.menu <==> pathname != "/")
  {
    if pathname == "/login" then Hidden
    else if pathname == "/" then Shown(false, false)
    else Shown(true, true)
  }

  /** The red dot on the bell: drawn when the bell is and an alert is raised. */
  function RedDot(pathname: string, hasAlert: bool): (dot: bool)
    ensures dot <==> pathname != "/login" && pathname != "/" && hasAlert
  {
    var l := LayoutAt(pathname);
    l.Shown? && l.bell && hasAlert
  }

  /** The component state. */
  class NavbarView {
    var hasAlert: bool

    constructor ()
      ensures !hasAlert
    {
      hasAlert := false;
    }

    /** One `fetchAlerts` run; a failed request leaves `hasAlert` as it was. */
    method Refresh(batch: Option<seq<Sensor>>)
      modifies this
      ensures batch.Some? ==> hasAlert == HasAlert(batch.value)
      ensures batch.None? ==> hasAlert == old(hasAlert)
    {
      if batch.Some? {
        var downSensors := Filter(batch.value, NotUp);
        hasAlert := |downSensors| > 0;
      }
    }
  }
}
