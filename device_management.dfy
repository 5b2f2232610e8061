/**
 * The device-management table. PRTG's numeric device status is shown as
 * a label and an icon (0 up, 1 warning, 2 down, anything else unknown);
 * one row at a time can be renamed in place; the add form is a modal that
 * closes after a successful add.
 */
module DeviceManagement {
  import opened Js

  datatype Device = Device(objid: string, device: string, host: string, parentid: string, status: int)

  datatype Icon = CheckCircle | AlertTriangle | XCircle

  /** `statusMap[status] || { label: 'Unknown', icon: null }`. */
  datatype StatusCell = StatusCell(text: string, icon: Option<Icon>)

  function StatusCellOf(status: int): (c: StatusCell)
    ensures status == 0 ==> c == StatusCell("Up", Some(CheckCircle))
    ensures status == 1 ==> c == StatusCell("Warning", Some(AlertTriangle))
    ensures status == 2 ==> c == StatusCell("Down", Some(XCircle))
    ensures !(0 <= status <= 2) ==> c == StatusCell("Unknown", None)
  {
    if status == 0 then StatusCell("Up", Some(CheckCircle))
    else if status == 1 then StatusCell("Warning", Some(AlertTriangle))
    else if status == 2 then StatusCell("Down", Some(XCircle))
    else StatusCell("Unknown", None)
  }

  /** A row has an icon exactly when its status is one PRTG defines here, and the labels tell them apart. */
  lemma StatusCellsDistinct(a: int, b: int)
    ensures StatusCellOf(a).icon.Some? <==> 0 <= a <= 2
    ensures StatusCellOf(a).text == "Unknown" <==> StatusCellOf(a).icon.None?
    ensures 0 <= a <= 2 && 0 <= b <= 2 ==> (StatusCellOf(a) == StatusCellOf(b) <==> a == b)
  {
  }

  /** The reply to the list request: the devices, a non-OK status, or a thrown error with its message. */
  datatype FetchReply = Fetched(devices: seq<Device>) | NotOk | Thrown(message: string)

  /** The page state. */
  class DeviceTable {
    var devices: seq<Device>
    var loading: bool
    var showForm: bool
    var error: string
    var editingId: Option<string>
    var editName: string

    constructor ()
      ensures devices == [] && !loading && !showForm && error == "" && editingId.None? && editName == ""
    {
      devices := [];
      loading := false;
      showForm := false;
      error := "";
      editingId := None;
      editName := "";
    }

    /** `fetchDevices`, from start to `finally`: loading is off again afterwards. */
    method FetchDevices(reply: FetchReply)
      modifies this
      ensures !loading
      ensures reply.Fetched? ==> devices == reply.devices && error == ""
      ensures reply.NotOk? ==> devices == old(devices) && error == "Failed to fetch devices"
      ensures reply.Thrown? ==> devices == old(devices) && error == (if reply.message != "" then reply.message else "Unknown error")
      ensures showForm == old(showForm) && editingId == old(editingId) && editName == old(editName)
    {
      loading := true;
      error := "";
      match reply {
        case Fetched(data) => devices := data;
        case NotOk => error := "Failed to fetch devices";
        case Thrown(message) => error := if message != "" then message else "Unknown error";
      }
      loading := false;
    }

    /** `handleEditDevice`: the row goes into edit mode with its current name. */
    method Edit(objid: string, currentName: string)
      modifies this
      ensures editingId == Some(objid) && editName == currentName
      ensures devices == old(devices) && showForm == old(showForm) && loading == old(loading) && error == old(error)
    {
      editingId := Some(objid);
      editName := currentName;
    }

    /** Typing in the edit box. */
    method SetEditName(value: string)
      modifies this
      ensures editName == value && editingId == old(editingId)
      ensures devices == old(devices) && showForm == old(showForm) && loading == old(loading) && error == old(error)
    {
      editName := value;
    }

    /** The Cancel button of the row. */
    method CancelEdit()
      modifies this
      ensures editingId.None? && editName == old(editName)
      ensures devices == old(devices) && showForm == old(showForm) && loading == old(loading) && error == old(error)
    {
      editingId := None;
    }

    /**
     * `handleUpdateDevice` up to the refetch: a successful rename leaves
     * edit mode, a failed one stays in it.
     */
    method Update(ok: bool)
      modifies this
      ensures ok ==> editingId.None?
      ensures !ok ==> editingId == old(editingId)
      ensures editName == old(editName) && devices == old(devices) && showForm == old(showForm)
      ensures loading == old(loading) && error == old(error)
    {
      if ok {
        editingId := None;
      }
    }

    method OpenForm()
      modifies this
      ensures showForm
      ensures devices == old(devices) && editingId == old(editingId) && editName == old(editName)
      ensures loading == old(loading) && error == old(error)
    {
      showForm := true;
    }

    /** The form's cancel button. */
    method CloseForm()
      modifies this
      ensures !showForm
      ensures devices == old(devices) && editingId == old(editingId) && editName == old(editName)
      ensures loading == old(loading) && error == old(error)
    {
      showForm := false;
    }

    /** `handleAddDevice` up to the refetch: a successful add closes the form, a failed one leaves it open. */
    method Add(ok: bool)
      modifies this
      ensures ok ==> !showForm
      ensures !ok ==> showForm == old(showForm)
      ensures devices == old(devices) && editingId == old(editingId) && editName == old(editName)
      ensures loading == old(loading) && error == old(error)
    {
      if ok {
        showForm := false;
      }
    }

    /** A row is in edit mode when its id is the one being edited. */
    predicate Editing(i: int)
      requires 0 <= i < |devices|
      reads this
    {
      editingId == Some(devices[i].objid)
    }

    /** "No devices found" is shown for an empty list once loading is over. */
    predicate ShowsEmptyRow()
      reads this
    {
      |devices| == 0 && !loading
    }
  }

  /** With distinct device ids at most one row is in edit mode. */
  lemma OneRowEditing(t: DeviceTable, i: int, j: int)
    requires 0 <= i < |t.devices| && 0 <= j < |t.devices|
    requires forall m, n :: 0 <= m < n < |t.devices| ==> t.devices[m].objid != t.devices[n].objid
    requires t.Editing(i) && t.Editing(j)
    ensures i == j
  {
  }

  /** After a successful fetch of an empty list the empty row is shown, and after any non-empty one it is not. */
  lemma EmptyRowAfterFetch(t: DeviceTable, reply: FetchReply)
    requires reply.Fetched?
    requires t.devices == reply.devices && !t.loading
    ensures t.ShowsEmptyRow() <==> reply.devices == []
  {
  }
}
