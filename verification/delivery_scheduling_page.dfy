/** The delivery scheduling page: a destination, date and driver, and a
    selection of ready orders from a fixed list. */
module DeliverySchedulingPage {
  import JsText

  datatype Driver = Driver(id: string, name: string)
  datatype ListedOrder = ListedOrder(id: int, customer: string, status: string)

  const Drivers: seq<Driver> := [
    Driver("DRV-001", "Channa Perera"),
    Driver("DRV-002", "Amal Silva"),
    Driver("DRV-003", "Nimal Fernando")]

  const Orders: seq<ListedOrder> := [
    ListedOrder(1011, "ABC Stores", "Pending"),
    ListedOrder(1012, "Sunrise Mart", "Ready"),
    ListedOrder(1013, "City Grocers", "Pending"),
    ListedOrder(1014, "Green Foods", "Ready"),
    ListedOrder(1015, "Daily Needs", "Pending"),
    ListedOrder(1016, "Island Fresh", "Ready")]

  const OrderIds: seq<int> := [1011, 1012, 1013, 1014, 1015, 1016]

  lemma OrderIdsAreTheListedIds()
    ensures |OrderIds| == |Orders| && forall i :: 0 <= i < |Orders| ==> OrderIds[i] == Orders[i].id
  {
  }

  predicate NoDuplicates(s: seq<int>)
  {
    forall i, j :: 0 <= i < j < |s| ==> s[i] != s[j]
  }

  /** The selection without `id`, in order. */
  function Remove(s: seq<int>, id: int): (r: seq<int>)
    ensures forall x :: x in r <==> x in s && x != id
    ensures |r| <= |s|
  {
    if s == [] then []
    else if s[0] == id then Remove(s[1..], id)
    else [s[0]] + Remove(s[1..], id)
  }

  lemma {:induction false} RemoveKeepsDistinct(s: seq<int>, id: int)
    ensures NoDuplicates(s) ==> NoDuplicates(Remove(s, id))
  {
    if s != [] && NoDuplicates(s) {
      assert NoDuplicates(s[1..]) by {
        forall i, j | 0 <= i < j < |s[1..]| ensures s[1..][i] != s[1..][j] {
          assert s[1..][i] == s[i + 1] && s[1..][j] == s[j + 1];
        }
      }
      RemoveKeepsDistinct(s[1..], id);
      if s[0] != id {
        var rest := Remove(s[1..], id);
        assert s[0] !in s[1..] by {
          forall j | 0 <= j < |s[1..]| ensures s[1..][j] != s[0] {
            assert s[1..][j] == s[j + 1];
          }
        }
        var r := [s[0]] + rest;
        forall i, j | 0 <= i < j < |r| ensures r[i] != r[j] {
          if i == 0 {
            assert r[j] == rest[j - 1] && rest[j - 1] in rest;
          } else {
            assert r[i] == rest[i - 1] && r[j] == rest[j - 1];
          }
        }
      }
    }
  }

  lemma {:induction false} RemoveAbsent(s: seq<int>, id: int)
    requires id !in s
    ensures Remove(s, id) == s
  {
    if s != [] {
      RemoveAbsent(s[1..], id);
    }
  }

  lemma {:induction false} RemoveAppended(s: seq<int>, id: int)
    requires id !in s
    ensures Remove(s + [id], id) == s
  {
    if s == [] {
      assert s + [id] == [id];
    } else {
      assert (s + [id])[1..] == s[1..] + [id];
      RemoveAppended(s[1..], id);
    }
  }

  /** handleToggleOrder: a selected order is dropped, any other appended. */
  function Toggle(selected: seq<int>, id: int): (r: seq<int>)
    ensures id in selected ==> forall x :: x in r <==> x in selected && x != id
    ensures id !in selected ==> r == selected + [id]
    ensures NoDuplicates(selected) ==> NoDuplicates(r)
  {
    if id in selected then
      RemoveKeepsDistinct(selected, id);
      Remove(selected, id)
    else selected + [id]
  }

  /** Toggling an unselected order twice restores the selection exactly. */
  lemma ToggleTwiceRestores(selected: seq<int>, id: int)
    requires id !in selected
    ensures Toggle(Toggle(selected, id), id) == selected
  {
    RemoveAppended(selected, id);
  }

  /** Toggling a selected order twice keeps the same orders selected (the
      order moves to the end). */
  lemma ToggleTwiceSameOrders(selected: seq<int>, id: int, x: int)
    ensures x in Toggle(Toggle(selected, id), id) <==> x in selected
  {
  }

  datatype Message = Message(kind: string, text: string)

  const NoMessage := Message("", "")

  datatype ScheduleState = ScheduleState(
    destination: string,
    scheduledDate: string,
    driverId: string,
    selected: seq<int>,
    selectAll: bool,
    loading: bool,
    msg: Message)

  const Initial := ScheduleState("", "", "", [], false, false, NoMessage)

  /** The page's own invariant: a selection of listed orders, each once. */
  predicate SelectionValid(st: ScheduleState)
  {
    NoDuplicates(st.selected) && forall x :: x in st.selected ==> x in OrderIds
  }

  function ToggleOrder(st: ScheduleState, id: int): (r: ScheduleState)
    requires id in OrderIds
    requires SelectionValid(st)
    ensures SelectionValid(r)
    ensures (id in r.selected) <==> (id !in st.selected)
    ensures forall x :: x != id ==> (x in r.selected <==> x in st.selected)
    ensures r.selectAll == st.selectAll
  {
    st.(selected := Toggle(st.selected, id))
  }

  /** handleToggleAll: the header box flips; turning it on selects every
      listed order, turning it off clears the selection, whatever was ticked. */
  function ToggleAll(st: ScheduleState): (r: ScheduleState)
    requires SelectionValid(st)
    ensures SelectionValid(r)
    ensures r.selectAll == !st.selectAll
    ensures st.selectAll ==> r.selected == []
    ensures !st.selectAll ==> r.selected == OrderIds
  {
    st.(selected := if st.selectAll then [] else OrderIds, selectAll := !st.selectAll)
  }

  lemma ToggleAllTwiceClears(st: ScheduleState)
    requires SelectionValid(st) && !st.selectAll
    ensures ToggleAll(ToggleAll(st)).selected == [] && !ToggleAll(ToggleAll(st)).selectAll
  {
  }

  /** The validation chain of handleSubmit. */
  function Validate(st: ScheduleState): (r: Message)
    ensures r == NoMessage <==>
      !JsText.IsBlank(st.destination) && st.scheduledDate != "" && st.driverId != "" && st.selected != []
    ensures JsText.IsBlank(st.destination) ==> r == Message("danger", "Destination is required.")
    ensures !JsText.IsBlank(st.destination) && st.scheduledDate == "" ==> r == Message("danger", "Scheduled date is required.")
    ensures !JsText.IsBlank(st.destination) && st.scheduledDate != "" && st.driverId == "" ==>
      r == Message("danger", "Please select a driver.")
    ensures !JsText.IsBlank(st.destination) && st.scheduledDate != "" && st.driverId != "" && st.selected == [] ==>
      r == Message("danger", "Select at least one order to schedule.")
  {
    if JsText.IsBlank(st.destination) then Message("danger", "Destination is required.")
    else if st.scheduledDate == "" then Message("danger", "Scheduled date is required.")
    else if st.driverId == "" then Message("danger", "Please select a driver.")
    else if st.selected == [] then Message("danger", "Select at least one order to schedule.")
    else NoMessage
  }

  function SuccessText(st: ScheduleState): string
  {
    "Scheduled " + JsText.IntString(|st.selected|) + " order(s) to " + st.destination + " on " + st.scheduledDate
      + " with driver " + st.driverId + "."
  }

  /** handleSubmit, including the simulated delay: a validation message, or
      the success message quoting the entries as typed. Nothing else changes. */
  function Submit(st: ScheduleState): (r: ScheduleState)
    ensures Validate(st) != NoMessage ==> r == st.(msg := Validate(st))
    ensures Validate(st) == NoMessage ==> r == st.(msg := Message("success", SuccessText(st)), loading := false)
    ensures r.selected == st.selected && r.destination == st.destination
  {
    var problem := Validate(st);
    if problem != NoMessage then st.(msg := problem)
    else st.(msg := Message("success", SuccessText(st)), loading := false)
  }

  /** handleReset. */
  function Reset(st: ScheduleState): (r: ScheduleState)
    ensures r == Initial.(loading := st.loading)
    ensures SelectionValid(r)
  {
    ScheduleState("", "", "", [], false, st.loading, NoMessage)
  }
}
