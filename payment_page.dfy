/**
 * The three-step purchase page: (1) the account and admin data, saved as
 * a subscription profile once the admin e-mail is well-formed; (2) the
 * dummy payment, which sends the invitation and receives an activation
 * token; (3) the confirmation, which links to the activation page. The
 * requests are not modelled: their replies are parameters.
 */
module PaymentPage {
  import opened Js

  // ---------------------------------------------------------------
  // The e-mail check
  // ---------------------------------------------------------------

  /** A character of the class `[^\s@]`. */
  predicate Plain(c: char) { !IsSpace(c) && c != '@' }

  /** A run of `[^\s@]+`. */
  ghost predicate Segment(s: string) {
    |s| > 0 && forall i :: 0 <= i < |s| ==> Plain(s[i])
  }

  /** What `/^[^\s@]+@[^\s@]+\.[^\s@]+$/` accepts: some split into local part, domain and suffix. */
  ghost predicate RegexAccepts(s: string) {
    exists l: string, d: string, t: string :: s == l + "@" + d + "." + t && Segment(l) && Segment(d) && Segment(t)
  }

  /**
   * The same language read off the characters: no white space, one '@' not
   * at either end, and a '.' after it with at least one character on each
   * side.
   */
  predicate EmailShape(s: string) {
    (forall i :: 0 <= i < |s| ==> !IsSpace(s[i])) &&
    exists k :: 0 < k < |s| && s[k] == '@' &&
      (forall i :: 0 <= i < |s| && i != k ==> s[i] != '@') &&
      exists p :: k + 1 < p < |s| - 1 && s[p] == '.'
  }

  /** `isEmailValid(v)`: the pattern tested on `v.trim()`. */
  predicate IsEmailValid(v: string) {
    EmailShape(Trim(v))
  }

  /** The character test and the pattern accept the same strings. */
  lemma EmailShapeIsRegex(s: string)
    ensures EmailShape(s) <==> RegexAccepts(s)
  {
    if EmailShape(s) {
      var k :| 0 < k < |s| && s[k] == '@' &&
        (forall i :: 0 <= i < |s| && i != k ==> s[i] != '@') &&
        exists p :: k + 1 < p < |s| - 1 && s[p] == '.';
      var p :| k + 1 < p < |s| - 1 && s[p] == '.';
      ShapeParts(s, k, p);
    }
    if RegexAccepts(s) {
      var l: string, d: string, t: string :| s == l + "@" + d + "." + t && Segment(l) && Segment(d) && Segment(t);
      RegexParts(s, l, d, t);
    }
  }

  /** Cutting at the '@' and at a later '.' gives the three parts of the pattern. */
  lemma ShapeParts(s: string, k: nat, p: nat)
    requires 0 < k && k + 1 < p < |s| - 1 && s[k] == '@' && s[p] == '.'
    requires forall i :: 0 <= i < |s| ==> !IsSpace(s[i])
    requires forall i :: 0 <= i < |s| && i != k ==> s[i] != '@'
    ensures RegexAccepts(s)
  {
    var l, d, t := s[..k], s[k + 1..p], s[p + 1..];
    SplitTwice(s, k, p);
    assert Segment(l) by { assert forall i :: 0 <= i < |l| ==> l[i] == s[i]; }
    assert Segment(d) by { assert forall i :: 0 <= i < |d| ==> d[i] == s[k + 1 + i]; }
    assert Segment(t) by { assert forall i :: 0 <= i < |t| ==> t[i] == s[p + 1 + i]; }
  }

  lemma SplitTwice(s: string, k: nat, p: nat)
    requires k < p < |s| && s[k] == '@' && s[p] == '.'
    ensures s == s[..k] + "@" + s[k + 1..p] + "." + s[p + 1..]
  {
    var r := s[..k] + "@" + s[k + 1..p] + "." + s[p + 1..];
    assert |r| == |s|;
    forall i | 0 <= i < |s| ensures r[i] == s[i] {
      if i < k {
        assert r[i] == s[..k][i];
      } else if i == k {
      } else if i < p {
        assert r[i] == s[k + 1..p][i - k - 1];
      } else if i == p {
      } else {
        assert r[i] == s[p + 1..][i - p - 1];
      }
    }
  }

  /** Where the parts of an accepted string sit. */
  lemma RegexParts(s: string, l: string, d: string, t: string)
    requires s == l + "@" + d + "." + t && Segment(l) && Segment(d) && Segment(t)
    ensures EmailShape(s)
  {
    var k, p := |l|, |l| + 1 + |d|;
    forall i | 0 <= i < |s| ensures (i == k ==> s[i] == '@') && (i == p ==> s[i] == '.') &&
      (i != k && i != p ==> Plain(s[i]))
    {
      if i < k {
        assert s[i] == l[i];
      } else if k < i < p {
        assert s[i] == d[i - k - 1];
      } else if p < i {
        assert s[i] == t[i - p - 1];
      }
    }
    assert s[k] == '@' && s[p] == '.' && k + 1 < p < |s| - 1;
    assert forall i :: 0 <= i < |s| && i != k ==> s[i] != '@';
    assert forall i :: 0 <= i < |s| ==> !IsSpace(s[i]);
  }

  /** A valid address has exactly one '@'. */
  lemma ValidHasOneAt(v: string)
    requires IsEmailValid(v)
    ensures var t := Trim(v);
      exists k :: 0 <= k < |t| && t[k] == '@' && (forall i :: 0 <= i < |t| && t[i] == '@' ==> i == k)
  {
  }

  /** Trimming before the check changes nothing: trimming twice is trimming once. */
  lemma ValidTrimmed(v: string)
    ensures IsEmailValid(Trim(v)) == IsEmailValid(v)
  {
    TrimIdempotent(v);
  }

  predicate AllSpace(w: string) {
    forall i :: 0 <= i < |w| ==> IsSpace(w[i])
  }

  lemma TrimStartPadded(w: string, v: string)
    requires AllSpace(w)
    ensures TrimStart(w + v) == TrimStart(v)
  {
    var a := |v| - |TrimStart(v)|;
    var s := w + v;
    forall i | 0 <= i < |w| + a ensures IsSpace(s[i]) {
      if i >= |w| { assert s[i] == v[i - |w|]; }
    }
    if |w| + a < |s| {
      assert s[|w| + a] == TrimStart(v)[0];
    }
    TrimStartAt(s, |w| + a);
    assert s[|w| + a..] == v[a..];
  }

  lemma TrimEndPadded(v: string, w: string)
    requires AllSpace(w)
    ensures TrimEnd(v + w) == TrimEnd(v)
  {
    var b := |TrimEnd(v)|;
    var s := v + w;
    forall i | b <= i < |s| ensures IsSpace(s[i]) {
      if i >= |v| { assert s[i] == w[i - |v|]; }
    }
    if b > 0 {
      assert s[b - 1] == TrimEnd(v)[b - 1];
    }
    TrimEndAt(s, b);
    assert s[..b] == v[..b];
  }

  /** Trailing white space survives `TrimStart` when something precedes it. */
  lemma TrimStartSuffix(v: string, w2: string)
    requires AllSpace(w2) && TrimStart(v) != []
    ensures TrimStart(v + w2) == TrimStart(v) + w2
  {
    var x := TrimStart(v);
    var a := |v| - |x|;
    var s := v + w2;
    assert forall i :: 0 <= i < a ==> s[i] == v[i];
    assert s[a] == v[a] == x[0];
    TrimStartAt(s, a);
    SliceAppend(v, w2, a);
  }

  lemma SliceAppend(v: string, w: string, a: nat)
    requires a <= |v|
    ensures (v + w)[a..] == v[a..] + w
  {
  }

  /** White space added at either end leaves the trimmed text as it was. */
  lemma TrimPadded(w: string, v: string, w2: string)
    requires AllSpace(w) && AllSpace(w2)
    ensures Trim(w + v + w2) == Trim(v)
  {
    assert w + v + w2 == w + (v + w2);
    TrimStartPadded(w, v + w2);
    var x := TrimStart(v);
    if x != [] {
      TrimStartSuffix(v, w2);
      TrimEndPadded(x, w2);
    } else {
      var s := v + w2;
      forall i | 0 <= i < |s| ensures IsSpace(s[i]) {
        if i >= |v| { assert s[i] == w2[i - |v|]; }
      }
      TrimStartAt(s, |s|);
    }
  }

  /** Leading or trailing white space does not change whether an address is valid. */
  lemma ValidPadded(w: string, v: string, w2: string)
    requires AllSpace(w) && AllSpace(w2)
    ensures IsEmailValid(w + v + w2) == IsEmailValid(v)
  {
    TrimPadded(w, v, w2);
  }

  // ---------------------------------------------------------------
  // The stepper
  // ---------------------------------------------------------------

  /** A circle of the stepper: done (green, a tick), current (blue) or still to come. */
  datatype Circle = Done | Current | Pending

  function CircleOf(step: int, n: int): (c: Circle)
    ensures c == Done <==> step > n
    ensures c == Current <==> step == n
  {
    if step > n then Done else if step == n then Current else Pending
  }

  /** The text inside circle `n`: a tick once the step is past it, else its number. */
  function CircleText(step: int, n: int): (text: string)
    ensures text == "✓" <==> step > n
  {
    if step > n then "✓" else if n == 1 then "1" else if n == 2 then "2" else if n == 3 then "3" else "?"
  }

  /** On every step exactly one of the three circles is current, and the ones before it are ticked. */
  lemma StepperProgress(step: int)
    requires 1 <= step <= 3
    ensures exists n :: 1 <= n <= 3 && CircleOf(step, n) == Current
    ensures forall n, m :: 1 <= n <= 3 && 1 <= m <= 3 && CircleOf(step, n) == Current && CircleOf(step, m) == Current ==> n == m
    ensures forall n :: 1 <= n < step ==> CircleText(step, n) == "✓"
  {
    assert CircleOf(step, step) == Current;
  }

  // ---------------------------------------------------------------
  // The page state
  // ---------------------------------------------------------------

  /** The reply to the profile request: an error, or the new profile's id (possibly missing). */
  datatype SaveReply = SaveFailed | Saved(profileId: Option<string>)

  /** The reply to the invitation request: an error, or the activation token (possibly missing). */
  datatype InviteReply = InviteFailed | Invited(token: Option<string>)

  class PaymentFlow {
    var step: int
    var email: string
    var profileId: Option<string>
    var activationToken: Option<string>

    /** The step is 1, 2 or 3, and the confirmation is reached only with a profile. */
    predicate Valid()
      reads this
    {
      1 <= step <= 3 && (step == 3 ==> Truthy(profileId))
    }

    constructor ()
      ensures Valid() && step == 1 && email == "" && profileId.None? && activationToken.None?
    {
      step := 1;
      email := "";
      profileId := None;
      activationToken := None;
    }

    method SetEmail(value: string)
      modifies this
      ensures email == value && step == old(step) && profileId == old(profileId)
      ensures activationToken == old(activationToken)
    {
      email := value;
    }

    /**
     * `handleSaveProfile`: no request unless the e-mail is valid; a failed
     * request changes nothing; a successful one stores the id and moves to
     * step 2.
     */
    method SaveProfile(reply: SaveReply) returns (sent: bool)
      requires Valid()
      modifies this
      ensures Valid()
      ensures sent <==> IsEmailValid(email)
      ensures email == old(email) && activationToken == old(activationToken)
      ensures (!sent || reply.SaveFailed?) ==> step == old(step) && profileId == old(profileId)
      ensures sent && reply.Saved? ==> step == 2 && profileId == reply.profileId
    {
      sent := IsEmailValid(email);
      if !sent {
        return;
      }
      match reply
      case SaveFailed =>
      case Saved(id) =>
        profileId := id;
        step := 2;
    }

    /**
     * `handlePayAndInvite`: without a profile it goes back to step 1 and
     * sends nothing; a failed request changes nothing; a successful one
     * stores the token and moves to step 3.
     */
    method PayAndInvite(reply: InviteReply) returns (sent: bool)
      requires Valid()
      modifies this
      ensures Valid()
      ensures sent <==> Truthy(old(profileId))
      ensures email == old(email) && profileId == old(profileId)
      ensures !sent ==> step == 1 && activationToken == old(activationToken)
      ensures sent && reply.InviteFailed? ==> step == old(step) && activationToken == old(activationToken)
      ensures sent && reply.Invited? ==> step == 3 && activationToken == reply.token
    {
      if !Truthy(profileId) {
        step := 1;
        sent := false;
        return;
      }
      sent := true;
      match reply
      case InviteFailed =>
      case Invited(token) =>
        activationToken := token;
        step := 3;
    }

    /** `goToActivate`: the token goes into the query string when there is one. */
    function ActivateRoute(): (route: string)
      reads this
      ensures Truthy(activationToken) ==> route == "/activate?token=" + activationToken.value
      ensures !Truthy(activationToken) ==> route == "/activate"
    {
      if Truthy(activationToken) then "/activate?token=" + activationToken.value else "/activate"
    }
  }
}
