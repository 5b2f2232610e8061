/**
 * The backend's device routes towards PRTG. Adding a device checks the
 * three fields, forwards them trimmed, treats a text reply containing
 * "<error>" as a refusal, and otherwise stores the device with the object
 * id found in the reply's first `<objectid>digits</objectid>`, if any.
 * The HTTP exchange itself is not modelled: PRTG's reply is a parameter.
 */
module PrtgDevices {
  import opened Js

  const Open: string := "<objectid>"
  const Close: string := "</objectid>"

  predicate IsDigit(c: char) { '0' <= c <= '9' }

  /** The length of the run of digits starting at `k`. */
  function DigitRun(s: string, k: nat): (n: nat)
    requires k <= |s|
    ensures k + n <= |s|
    ensures forall j :: k <= j < k + n ==> IsDigit(s[j])
    ensures k + n == |s| || !IsDigit(s[k + n])
    decreases |s| - k
  {
    if k < |s| && IsDigit(s[k]) then 1 + DigitRun(s, k + 1) else 0
  }

  /** A run of digits followed by something else is the digit run. */
  lemma DigitRunIs(s: string, k: nat, m: nat)
    requires k + m <= |s|
    requires forall j :: k <= j < k + m ==> IsDigit(s[j])
    requires k + m == |s| || !IsDigit(s[k + m])
    ensures DigitRun(s, k) == m
  {
  }

  /** `/<objectid>(\d+)<\/objectid>/` matches at position `i` (the digits cannot stop early: a digit is not '<'). */
  predicate MatchAt(s: string, i: int) {
    OccursAt(s, Open, i) && DigitRun(s, i + |Open|) > 0 && OccursAt(s, Close, i + |Open| + DigitRun(s, i + |Open|))
  }

  /** The pattern read with backtracking: some non-empty run of digits, then the closing tag. */
  ghost predicate PatternAt(s: string, i: int) {
    OccursAt(s, Open, i) &&
    exists e :: i + |Open| < e <= |s| && Digits(s, i + |Open|, e) && OccursAt(s, Close, e)
  }

  /** Every character from `a` up to `b` is a digit. */
  ghost predicate Digits(s: string, a: int, b: int) {
    forall j :: a <= j < b ==> 0 <= j < |s| && IsDigit(s[j])
  }

  lemma MatchAtIsPattern(s: string, i: int)
    ensures MatchAt(s, i) <==> PatternAt(s, i)
  {
    var k := i + |Open|;
    if PatternAt(s, i) {
      var e :| k < e <= |s| && Digits(s, k, e) && OccursAt(s, Close, e);
      assert s[e] == Close[0];
      DigitRunIs(s, k, e - k);
    }
    if MatchAt(s, i) {
      var e := k + DigitRun(s, k);
      assert Digits(s, k, e);
    }
  }

  /** The leftmost position at or after `i` where the pattern matches. */
  function FirstMatch(s: string, i: nat): (r: Option<nat>)
    requires i <= |s|
    ensures r.Some? ==> i <= r.value < |s| && MatchAt(s, r.value)
    ensures r.Some? ==> forall j :: i <= j < r.value ==> !MatchAt(s, j)
    ensures r.None? ==> forall j :: i <= j < |s| ==> !MatchAt(s, j)
    decreases |s| - i
  {
    if i == |s| then None
    else if MatchAt(s, i) then Some(i)
    else FirstMatch(s, i + 1)
  }

  /** The digits between the tags of a match at `i`: `match[1]`. */
  function IdAt(s: string, i: nat): (digits: string)
    requires MatchAt(s, i)
    ensures |digits| > 0 && forall j :: 0 <= j < |digits| ==> IsDigit(digits[j])
  {
    var k := i + |Open|;
    s[k..k + DigitRun(s, k)]
  }

  /** `match[1]` of the first match, or null. */
  function ExtractObjectId(data: string): (id: Option<string>)
    ensures id.None? <==> forall j :: 0 <= j < |data| ==> !MatchAt(data, j)
    ensures id.Some? ==> |id.value| > 0 && forall j :: 0 <= j < |id.value| ==> IsDigit(id.value[j])
  {
    match FirstMatch(data, 0)
    case None => None
    case Some(i) => Some(IdAt(data, i))
  }

  /** The first match decides: the id is the digits between the tags at the leftmost matching position. */
  lemma ExtractFirst(data: string, i: nat)
    requires i < |data| && MatchAt(data, i) && forall j :: 0 <= j < i ==> !MatchAt(data, j)
    ensures ExtractObjectId(data) == Some(IdAt(data, i))
  {
    FirstMatchIs(data, 0, i);
  }

  /** The search from `k` stops at the first matching position. */
  lemma {:induction false} FirstMatchIs(s: string, k: nat, i: nat)
    requires k <= i < |s| && MatchAt(s, i) && forall j :: k <= j < i ==> !MatchAt(s, j)
    ensures FirstMatch(s, k) == Some(i)
    decreases i - k
  {
    if k < i {
      FirstMatchIs(s, k + 1, i);
    }
  }

  /** PRTG's success reply `<objectid>N</objectid>…` gives back exactly `N`. */
  lemma ExtractRoundTrip(digits: string, rest: string)
    requires |digits| > 0 && forall j :: 0 <= j < |digits| ==> IsDigit(digits[j])
    ensures ExtractObjectId(Open + digits + Close + rest) == Some(digits)
  {
    var s := Open + digits + Close + rest;
    var k := |Open|;
    assert s[..k] == Open;
    assert s[k..k + |digits|] == digits;
    assert s[k + |digits|..k + |digits| + |Close|] == Close;
    forall j | k <= j < k + |digits| ensures IsDigit(s[j]) {
      assert s[j] == digits[j - k];
    }
    assert s[k + |digits|] == '<';
    DigitRunIs(s, k, |digits|);
    assert OccursAt(s, Open, 0);
    assert MatchAt(s, 0);
    ExtractFirst(s, 0);
  }

  /** `typeof data === "string" && data.includes("<error>")`. */
  datatype PrtgData = TextData(text: string) | NonText

  predicate IsErrorReply(data: PrtgData) {
    data.TextData? && Contains(data.text, "<error>")
  }

  /** The form fields forwarded to `adddevice.htm`. */
  datatype AddParams = AddParams(id: string, name: string, host_: string)

  datatype DeviceRow = DeviceRow(name: string, host: string, prtgId: Option<string>)

  /** Rename: `newName` is required and forwarded trimmed. */
  function RenameValue(newName: Option<string>): (value: Option<string>)
    ensures value.None? <==> !Truthy(newName)
    ensures value.Some? ==> value.value == Trim(newName.value)
  {
    if Truthy(newName) then Some(Trim(newName.value)) else None
  }

  /** The device table of the backend database. */
  class DeviceRegistry {
    var rows: seq<DeviceRow>

    constructor ()
      ensures rows == []
    {
      rows := [];
    }

    /**
     * `POST /api/devices`. `reply` is PRTG's answer, `None` when the request
     * fails. A row is stored only for a reply that is text without
     * "<error>"; a reply that is not text fails at `data.match` with 500.
     */
    method AddDevice(name: Option<string>, host: Option<string>, parentId: Option<string>, reply: Option<PrtgData>)
      returns (status: int, forwarded: Option<AddParams>)
      modifies this
      ensures !Truthy(name) || !Truthy(host) || !Truthy(parentId) ==>
        status == 400 && forwarded.None? && rows == old(rows)
      ensures Truthy(name) && Truthy(host) && Truthy(parentId) ==>
        forwarded == Some(AddParams(Trim(parentId.value), Trim(name.value), Trim(host.value)))
      ensures forwarded.Some? && reply.None? ==> status == 500 && rows == old(rows)
      ensures forwarded.Some? && reply.Some? && IsErrorReply(reply.value) ==> status == 400 && rows == old(rows)
      ensures forwarded.Some? && reply == Some(NonText) ==> status == 500 && rows == old(rows)
      ensures forwarded.Some? && reply.Some? && reply.value.TextData? && !IsErrorReply(reply.value) ==>
        status == 200 &&
        rows == old(rows) + [DeviceRow(Trim(name.value), Trim(host.value), ExtractObjectId(reply.value.text))]
    {
      if !Truthy(name) || !Truthy(host) || !Truthy(parentId) {
        return 400, None;
      }
      forwarded := Some(AddParams(Trim(parentId.value), Trim(name.value), Trim(host.value)));
      if reply.None? {
        return 500, forwarded;
      }
      var data := reply.value;
      if IsErrorReply(data) {
        return 400, forwarded;
      }
      if data.NonText? {
        return 500, forwarded;
      }
      var objectId := ExtractObjectId(data.text);
      rows := rows + [DeviceRow(Trim(name.value), Trim(host.value), objectId)];
      status := 200;
    }
  }
}
