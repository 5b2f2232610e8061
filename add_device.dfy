/**
 * The add-device form. On opening it fetches the device groups and
 * normalises them, whichever of the two reply shapes arrives, into entries
 * with a string id and a non-empty name; the first group becomes the
 * default parent. Submitting passes the trimmed name, host and parent id
 * on, unless one of them is empty after trimming.
 */
module AddDevice {
  import opened Js

  /** A group id as it comes in the JSON reply. */
  datatype IdValue = Number(n: int) | Text(s: string) | Undefined | Null

  /** A group node of the reply. Absent or null fields are `None`. */
  datatype RawGroup = RawGroup(objid: IdValue, group: Option<string>, name: Option<string>)

  /**
   * The reply: `groups` is `Some` when `data.groups` is an array, `nodes`
   * when `data.tree.nodes` is present.
   */
  datatype GroupsReply = GroupsReply(groups: Option<seq<RawGroup>>, nodes: Option<seq<RawGroup>>)

  datatype GroupEntry = GroupEntry(objid: string, group: string)

  function Digit(d: int): (c: char)
    requires 0 <= d < 10
    ensures '0' <= c <= '9' && c as int - '0' as int == d
  {
    (d + '0' as int) as char
  }

  /** The decimal digits of `n`. */
  function DecimalText(n: nat): (s: string)
    ensures |s| > 0 && forall i :: 0 <= i < |s| ==> '0' <= s[i] <= '9'
    ensures n >= 10 <==> |s| >= 2
  {
    if n < 10 then [Digit(n)] else DecimalText(n / 10) + [Digit(n % 10)]
  }

  /** Different numbers have different decimal texts. */
  lemma {:induction false} DecimalTextInjective(a: nat, b: nat)
    requires DecimalText(a) == DecimalText(b)
    ensures a == b
    decreases a
  {
    var s := DecimalText(a);
    if a >= 10 {
      assert b >= 10;
      assert s[..|s| - 1] == DecimalText(a / 10) == DecimalText(b / 10);
      DecimalTextInjective(a / 10, b / 10);
      assert Digit(a % 10) == s[|s| - 1] == Digit(b % 10);
    }
  }

  /** `String(objid)` for integer, string, undefined and null ids. */
  function StringOf(v: IdValue): (s: string)
    ensures v.Text? ==> s == v.s
    ensures v.Undefined? ==> s == "undefined"
    ensures v.Null? ==> s == "null"
    ensures v.Number? && v.n >= 0 ==> s == DecimalText(v.n)
    ensures v.Number? && v.n < 0 ==> s == "-" + DecimalText(-v.n)
  {
    match v
    case Number(n) => if n < 0 then "-" + DecimalText(-n) else DecimalText(n)
    case Text(t) => t
    case Undefined => "undefined"
    case Null => "null"
  }

  /** The text of a number starts with '-' exactly when the number is negative. */
  lemma SignChar(n: int)
    ensures |StringOf(Number(n))| > 0 && (StringOf(Number(n))[0] == '-' <==> n < 0)
  {
  }

  /** Two different numeric ids never collide as option keys. */
  lemma NumericIdsDistinct(a: int, b: int)
    requires StringOf(Number(a)) == StringOf(Number(b))
    ensures a == b
  {
    var s := StringOf(Number(a));
    SignChar(a);
    SignChar(b);
    if a < 0 && b < 0 {
      assert s[1..] == DecimalText(-a) == DecimalText(-b);
      DecimalTextInjective(-a, -b);
    } else if a >= 0 && b >= 0 {
      DecimalTextInjective(a, b);
    }
  }

  /** One entry: `group || name || 'Unnamed Group'`. */
  function Normalise(g: RawGroup): (e: GroupEntry)
    ensures e.objid == StringOf(g.objid)
    ensures Truthy(g.group) ==> e.group == g.group.value
    ensures !Truthy(g.group) && Truthy(g.name) ==> e.group == g.name.value
    ensures !Truthy(g.group) && !Truthy(g.name) ==> e.group == "Unnamed Group"
  {
    GroupEntry(StringOf(g.objid), OrElse(g.group, OrElse(g.name, "Unnamed Group")))
  }

  function NormaliseAll(gs: seq<RawGroup>): (r: seq<GroupEntry>)
    ensures |r| == |gs| && forall i :: 0 <= i < |gs| ==> r[i] == Normalise(gs[i])
  {
    seq(|gs|, i requires 0 <= i < |gs| => Normalise(gs[i]))
  }

  /** `groupList`: the array of `groups` first, else the tree's nodes, else nothing. */
  function GroupList(data: GroupsReply): (r: seq<GroupEntry>)
    ensures data.groups.Some? ==> r == NormaliseAll(data.groups.value)
    ensures data.groups.None? && data.nodes.Some? ==> r == NormaliseAll(data.nodes.value)
    ensures data.groups.None? && data.nodes.None? ==> r == []
  {
    if data.groups.Some? then NormaliseAll(data.groups.value)
    else if data.nodes.Some? then NormaliseAll(data.nodes.value)
    else []
  }

  /** Every normalised group has a name to show. */
  lemma GroupNamesNonEmpty(data: GroupsReply)
    ensures forall i :: 0 <= i < |GroupList(data)| ==> GroupList(data)[i].group != ""
  {
  }

  /** An array under `groups` wins even when it is empty and the tree has nodes. */
  lemma GroupsTakePriority(gs: seq<RawGroup>, nodes: seq<RawGroup>)
    ensures GroupList(GroupsReply(Some(gs), Some(nodes))) == NormaliseAll(gs)
    ensures GroupList(GroupsReply(Some([]), Some(nodes))) == []
  {
  }

  /** `handleSubmit`: the three trimmed values passed to `onSubmit`, or `None` for the alert. */
  function Submit(name: string, host: string, parentId: string): (r: Option<(string, string, string)>)
    ensures r.None? <==> Trim(name) == "" || Trim(host) == "" || Trim(parentId) == ""
    ensures r.Some? ==> r.value == (Trim(name), Trim(host), Trim(parentId))
  {
    if Trim(name) == "" || Trim(host) == "" || Trim(parentId) == "" then None
    else Some((Trim(name), Trim(host), Trim(parentId)))
  }

  /** What reaches `onSubmit` is non-empty and has no white space at either end. */
  lemma SubmittedTrimmed(name: string, host: string, parentId: string)
    requires Submit(name, host, parentId).Some?
    ensures var (n, h, p) := Submit(name, host, parentId).value;
      n != "" && h != "" && p != "" && Trim(n) == n && Trim(h) == h && Trim(p) == p
  {
    TrimIdempotent(name);
    TrimIdempotent(host);
    TrimIdempotent(parentId);
  }

  /** The form state. */
  class AddDeviceForm {
    var name: string
    var host: string
    var parentId: string
    var groups: seq<GroupEntry>

    constructor ()
      ensures name == "" && host == "" && parentId == "" && groups == []
    {
      name := "";
      host := "";
      parentId := "";
      groups := [];
    }

    /**
     * `fetchGroups`: store the normalised list and default the parent to the
     * first group; a failed request leaves the form as it was.
     */
    method FetchGroups(reply: Option<GroupsReply>)
      modifies this
      ensures name == old(name) && host == old(host)
      ensures reply.None? ==> groups == old(groups) && parentId == old(parentId)
      ensures reply.Some? ==> groups == GroupList(reply.value)
      ensures reply.Some? && |groups| > 0 ==> parentId == groups[0].objid
      ensures reply.Some? && |groups| == 0 ==> parentId == old(parentId)
    {
      if reply.Some? {
        var groupList := GroupList(reply.value);
        groups := groupList;
        if |groupList| > 0 {
          parentId := groupList[0].objid;
        }
      }
    }

    method SetFields(name: string, host: string, parentId: string)
      modifies this
      ensures this.name == name && this.host == host && this.parentId == parentId && groups == old(groups)
    {
      this.name := name;
      this.host := host;
      this.parentId := parentId;
    }
  }
}
