/**
 * The live-events list page: permissions, loading, selection, deletion and
 * the classification of what it renders.
 *
 * The remote clients are oracles. getPermissions and listEvents arrive as a
 * Fetch (a value, or a rejection that reload's catch takes), deleteEvent as
 * whether the delete of an id succeeds. Localized strings are kept as their
 * keys. `alertInDom` tells whether the shadow root holds the inline alert
 * element, i.e. whether the last completed render was the manage view;
 * hideAlerts and the delete-failure path only touch the alert when it is there.
 */
module LiveEvents {
  import opened Wrappers
  import opened LiveEventRows

  /** A property of the permissions object as JavaScript sees it. */
  datatype JsValue = JsString(s: string) | JsBoolean(b: bool) | JsOther

  /** The object getPermissions resolves to; an absent key reads as undefined. */
  type Permissions = map<string, JsValue>

  /** The outcome of an awaited remote call. */
  datatype Fetch<T> = Fetched(value: T) | Failed

  const UnauthorizedKey := "unauthorized"
  const LoadErrorKey := "getLiveEventsError"
  const DeleteErrorKey := "deleteEventError"

  /** `permissions[key] === 'true'`: a string comparison, not a truthiness test. */
  predicate IsTrueString(p: Permissions, key: string) {
    key in p && p[key] == JsString("true")
  }

  predicate CanView(p: Permissions): (ok: bool)
    ensures ok <==> "canViewLiveEvents" in p && p["canViewLiveEvents"] == JsString("true") &&
                    "canAccessCaptureCentral" in p && p["canAccessCaptureCentral"] == JsString("true")
  {
    IsTrueString(p, "canViewLiveEvents") && IsTrueString(p, "canAccessCaptureCentral")
  }

  predicate CanManage(p: Permissions): (ok: bool)
    ensures ok <==> "canAccessCaptureCentral" in p && p["canAccessCaptureCentral"] == JsString("true") &&
                    "canManageLiveEvents" in p && p["canManageLiveEvents"] == JsString("true")
  {
    IsTrueString(p, "canAccessCaptureCentral") && IsTrueString(p, "canManageLiveEvents")
  }

  /** Manage rights do not depend on view rights: either can hold without the other. */
  lemma ManageAndViewIndependent()
    ensures exists p :: CanManage(p) && !CanView(p)
    ensures exists p :: CanView(p) && !CanManage(p)
  {
    var manageOnly := map["canAccessCaptureCentral" := JsString("true"),
                          "canManageLiveEvents" := JsString("true")];
    assert CanManage(manageOnly) && !CanView(manageOnly);
    var viewOnly := map["canAccessCaptureCentral" := JsString("true"),
                        "canViewLiveEvents" := JsString("true")];
    assert CanView(viewOnly) && !CanManage(viewOnly);
  }

  /** A boolean `true` (rather than the string 'true') under any key the tests read denies that test. */
  lemma BooleanTrueGrantsNothing(p: Permissions)
    ensures "canViewLiveEvents" in p && p["canViewLiveEvents"] == JsBoolean(true) ==> !CanView(p)
    ensures "canManageLiveEvents" in p && p["canManageLiveEvents"] == JsBoolean(true) ==> !CanManage(p)
    ensures "canAccessCaptureCentral" in p && p["canAccessCaptureCentral"] == JsBoolean(true) ==>
      !CanView(p) && !CanManage(p)
  {
  }

  /** What one row of the table shows. */
  datatype RowView = RowView(id: string, title: string, status: string,
                             checkbox: Option<bool>, menu: bool)

  /** The table part of the manage view. */
  datatype Table = NoEvents | EventTable(selectAllBox: bool, rows: seq<RowView>)

  /** The classification of what render returns. */
  datatype View =
    | Spinner
    | BlockingAlert(message: string)
    | ManageView(manage: bool, inlineAlertShown: bool, inlineAlert: string, table: Table)

  /** A table row as _renderLiveEvents draws it. */
  function RowOf(r: LiveEvent, manage: bool): (row: RowView)
    ensures row.id == r.id && row.title == r.title && row.status == r.status
    ensures row.checkbox.Some? <==> manage
    ensures row.menu <==> manage
    ensures manage ==> (row.checkbox.value <==> r.state == Some(true))
    ensures manage && r.state.None? ==> row.checkbox == Some(false)
  {
    RowView(r.id, r.title, r.status, if manage then Some(Selected(r)) else None, manage)
  }

  /** A call of _navigate: a path and, optionally, query parameters. */
  datatype Navigation = Navigation(path: string, query: Option<map<string, string>>)

  /** _handleSearch: where a search-box submission navigates. */
  function SearchNavigation(value: string): (n: Navigation)
    ensures n.path == "/"
    ensures n.query.Some? <==> value != ""
    ensures n.query.Some? ==> n.query.value == map["searchQuery" := value]
  {
    if value != "" then Navigation("/", Some(map["searchQuery" := value]))
    else Navigation("/", None)
  }

  /** The query parameters a navigation leaves in the routing store. */
  function ParamsAfter(n: Navigation): map<string, string> {
    match n.query
    case Some(q) => q
    case None => map[]
  }

  /** `const { searchQuery = '' } = params` */
  function SearchQueryOf(params: map<string, string>): string {
    if "searchQuery" in params then params["searchQuery"] else ""
  }

  /**
   * The decision of the queryParams observer: the search query to reload
   * with, or None when the current page is not the landing page.
   */
  function ObservedReload(newParams: map<string, string>, currentPage: string, landing: string): (r: Option<string>)
    ensures r.Some? <==> currentPage == landing
    ensures r.Some? && "searchQuery" !in newParams ==> r.value == ""
    ensures r.Some? && "searchQuery" in newParams ==> r.value == newParams["searchQuery"]
  {
    if currentPage == landing then Some(SearchQueryOf(newParams)) else None
  }

  /**
   * A search submitted on the landing page comes back to the page as a
   * reload with exactly the submitted text; an empty submission clears the
   * parameter and reloads with ''.
   */
  lemma SearchRoundTrip(value: string, landing: string)
    ensures ObservedReload(ParamsAfter(SearchNavigation(value)), landing, landing) == Some(value)
    ensures value == "" ==> ParamsAfter(SearchNavigation(value)) == map[]
  {
  }

  /** Whether some delete among `ids` fails. */
  predicate SomeDeleteFails(ids: seq<string>, failed: set<string>) {
    exists id :: id in ids && id in failed
  }

  /** A batch fails somewhere iff its first delete fails or one of the rest does. */
  lemma SomeDeleteFailsStep(x: string, rest: seq<string>, failed: set<string>)
    ensures SomeDeleteFails([x] + rest, failed) <==> x in failed || SomeDeleteFails(rest, failed)
  {
    if x in failed {
      assert x in [x] + rest;
    }
    if SomeDeleteFails(rest, failed) {
      var y :| y in rest && y in failed;
      assert y in [x] + rest;
    }
  }

  /** The live-events page element. */
  class LiveEventsPage {
    var loading: bool
    var liveEvents: seq<LiveEvent>
    var isErrorState: bool
    var alertMessage: string
    var canView: bool
    var canManage: bool
    var permissions: Permissions
    /** The inline alert's `style.display` is 'block'. */
    var alertVisible: bool
    /** The select-all checkbox's `checked`. */
    var selectAllChecked: bool
    /** The titles passed to listEvents, in order. */
    var listCalls: seq<string>
    /** The ids passed to deleteEvent, in order. */
    var deleteCalls: seq<string>

    constructor ()
      ensures loading && liveEvents == [] && !isErrorState && !canView && !canManage
      ensures permissions == map[] && alertMessage == "" && !alertVisible && !selectAllChecked
      ensures listCalls == [] && deleteCalls == []
    {
      loading := true;
      liveEvents := [];
      isErrorState := false;
      alertMessage := "";
      canView := false;
      canManage := false;
      permissions := map[];
      alertVisible := false;
      selectAllChecked := false;
      listCalls := [];
      deleteCalls := [];
    }

    /** render, as a classification of the page state. */
    function Render(): (v: View)
      reads this
      ensures v.Spinner? <==> loading
      ensures v.BlockingAlert? <==> !loading && (!canView || isErrorState)
      ensures v.BlockingAlert? ==> v.message == alertMessage
      ensures v.ManageView? ==>
        v.manage == canManage && v.inlineAlertShown == alertVisible && v.inlineAlert == alertMessage
      ensures v.ManageView? ==> (v.table.NoEvents? <==> liveEvents == [])
      ensures v.ManageView? && v.table.EventTable? ==>
        v.table.selectAllBox == canManage && |v.table.rows| == |liveEvents| &&
        forall j :: 0 <= j < |liveEvents| ==>
          v.table.rows[j].id == liveEvents[j].id &&
          (v.table.rows[j].checkbox.Some? <==> canManage) &&
          (canManage ==> v.table.rows[j].checkbox.value == Selected(liveEvents[j])) &&
          v.table.rows[j].menu == canManage
    {
      if loading then Spinner
      else if !canView || isErrorState then BlockingAlert(alertMessage)
      else
        var table := if |liveEvents| == 0 then NoEvents
                     else EventTable(canManage, seq(|liveEvents|, j requires 0 <= j < |liveEvents| reads this => RowOf(liveEvents[j], canManage)));
        ManageView(canManage, alertVisible, alertMessage, table)
    }

    /** hideAlerts */
    method HideAlerts(alertInDom: bool)
      modifies this`alertVisible, this`alertMessage
      ensures alertInDom ==> !alertVisible && alertMessage == ""
      ensures !alertInDom ==> alertVisible == old(alertVisible) && alertMessage == old(alertMessage)
    {
      if alertInDom {
        alertVisible := false;
        alertMessage := "";
      }
    }

    /**
     * The first statements of reload: the list, permissions, alerts and error
     * flag are reset. Setting loading makes the next render the spinner, which
     * drops the manage view; the select-all checkbox it draws afterwards has no
     * `checked` binding and starts unchecked.
     */
    method ResetForReload(alertInDom: bool)
      modifies this`loading, this`liveEvents, this`permissions, this`isErrorState
      modifies this`alertVisible, this`alertMessage, this`selectAllChecked
      ensures loading && liveEvents == [] && permissions == map[] && !isErrorState
      ensures !selectAllChecked
      ensures alertInDom ==> !alertVisible && alertMessage == ""
      ensures !alertInDom ==> alertVisible == old(alertVisible) && alertMessage == old(alertMessage)
    {
      loading := true;
      liveEvents := [];
      permissions := map[];
      HideAlerts(alertInDom);
      isErrorState := false;
      selectAllChecked := false;
    }

    /**
     * reload({searchQuery}): `perms` is what getPermissions settles to and
     * `listing` what listEvents settles to if it is called.
     */
    method Reload(searchQuery: string, alertInDom: bool, perms: Fetch<Permissions>, listing: Fetch<seq<LiveEvent>>)
      modifies this`loading, this`liveEvents, this`permissions, this`isErrorState
      modifies this`alertVisible, this`alertMessage, this`canView, this`canManage, this`listCalls
      modifies this`selectAllChecked
      ensures !loading && !selectAllChecked
      ensures listCalls == old(listCalls) + (if perms.Fetched? && CanView(perms.value) then [searchQuery] else [])
      ensures permissions == (if perms.Fetched? then perms.value else map[])
      ensures canView == (if perms.Fetched? then CanView(perms.value) else old(canView))
      ensures canManage == (if perms.Fetched? then CanManage(perms.value) else old(canManage))
      ensures isErrorState <==> perms.Failed? || (CanView(perms.value) && listing.Failed?)
      ensures liveEvents == (if !isErrorState && canView then listing.value else [])
      ensures alertMessage ==
        (if isErrorState then LoadErrorKey
         else if !canView then UnauthorizedKey
         else if alertInDom then "" else old(alertMessage))
      ensures alertVisible == (if alertInDom then false else old(alertVisible))
      ensures perms.Fetched? && !CanView(perms.value) ==> Render() == BlockingAlert(UnauthorizedKey)
      ensures isErrorState ==> Render() == BlockingAlert(LoadErrorKey)
      ensures !isErrorState && canView ==>
        Render().ManageView? && (Render().table.NoEvents? <==> listing.value == [])
    {
      ResetForReload(alertInDom);
      if perms.Failed? {
        alertMessage := LoadErrorKey;
        isErrorState := true;
      } else {
        permissions := perms.value;
        canView := CanView(permissions);
        canManage := CanManage(permissions);
        if !canView {
          alertMessage := UnauthorizedKey;
          loading := false;
          return;
        }
        listCalls := listCalls + [searchQuery];
        if listing.Failed? {
          alertMessage := LoadErrorKey;
          isErrorState := true;
        } else {
          liveEvents := listing.value;
        }
      }
      loading := false;
    }

    /**
     * _updateLiveEventForSelection({id, selected}). `found` is false when no
     * row has the id: there `find` yields undefined and the assignment to its
     * `state` throws, leaving the list as it was.
     */
    method UpdateLiveEventForSelection(id: string, selected: bool) returns (found: bool)
      modifies this`liveEvents
      ensures found <==> exists j :: 0 <= j < |old(liveEvents)| && old(liveEvents)[j].id == id
      ensures liveEvents == SetSelection(old(liveEvents), id, selected)
      ensures found ==> Selected(liveEvents[FindIndex(old(liveEvents), id)]) == selected
    {
      var k := FindIndex(liveEvents, id);
      found := k != -1;
      if found {
        liveEvents := liveEvents[k := liveEvents[k].(state := Some(selected))];
      }
    }

    /**
     * _addToSelection: the user set the checkbox of row `id` to `checked`.
     * Unchecking clears the select-all checkbox; checking leaves it alone.
     */
    method AddToSelection(id: string, checked: bool) returns (found: bool)
      modifies this`liveEvents, this`selectAllChecked
      ensures selectAllChecked == (if checked then old(selectAllChecked) else false)
      ensures found <==> exists j :: 0 <= j < |old(liveEvents)| && old(liveEvents)[j].id == id
      ensures liveEvents == SetSelection(old(liveEvents), id, checked)
    {
      if !checked {
        selectAllChecked := false;
      }
      found := UpdateLiveEventForSelection(id, checked);
    }

    /**
     * _addAllToSelection: the user set the select-all checkbox to `checked`.
     * Each row checkbox, in table order, that shows the other value has its
     * row's selection set by id.
     */
    method AddAllToSelection(checked: bool)
      modifies this`liveEvents, this`selectAllChecked
      ensures selectAllChecked == checked
      ensures liveEvents == SelectAllResult(old(liveEvents), checked)
      ensures UniqueIds(old(liveEvents)) ==>
        |liveEvents| == |old(liveEvents)| &&
        forall j :: 0 <= j < |liveEvents| ==>
          Selected(liveEvents[j]) == checked && liveEvents[j].id == old(liveEvents)[j].id
    {
      selectAllChecked := checked;
      var boxes := liveEvents;
      var i := 0;
      while i < |boxes|
        invariant 0 <= i <= |boxes|
        invariant ToggleAll(liveEvents, boxes[i..], checked) == SelectAllResult(boxes, checked)
        invariant selectAllChecked == checked
      {
        var box := boxes[i];
        assert boxes[i..] == [box] + boxes[i + 1..];
        ghost var next := if Selected(box) != checked then SetSelection(liveEvents, box.id, checked) else liveEvents;
        assert ToggleAll(liveEvents, boxes[i..], checked) == ToggleAll(next, boxes[i + 1..], checked);
        if Selected(box) != checked {
          var found := UpdateLiveEventForSelection(box.id, checked);
        }
        i := i + 1;
      }
      assert boxes[i..] == [];
      if UniqueIds(boxes) {
        SelectAllMarksEveryRow(boxes, checked);
        assert liveEvents == MarkAll(boxes, checked);
      }
    }

    /** The part of _deleteEvent before its await: hideAlerts, then the request. */
    method BeginDelete(id: string, alertInDom: bool)
      modifies this`alertVisible, this`alertMessage, this`deleteCalls
      ensures deleteCalls == old(deleteCalls) + [id]
      ensures alertInDom ==> !alertVisible && alertMessage == ""
      ensures !alertInDom ==> alertVisible == old(alertVisible) && alertMessage == old(alertMessage)
    {
      HideAlerts(alertInDom);
      deleteCalls := deleteCalls + [id];
    }

    /**
     * The part of _deleteEvent after its await: on failure the inline alert
     * shows deleteEventError; on success the first row with the id is
     * spliced out, if there still is one.
     */
    method SettleDelete(id: string, succeeded: bool, alertInDom: bool)
      modifies this`liveEvents, this`alertVisible, this`alertMessage
      ensures liveEvents == (if succeeded then RemoveFirst(old(liveEvents), id) else old(liveEvents))
      ensures alertMessage == (if succeeded then old(alertMessage) else DeleteErrorKey)
      ensures alertVisible == (if !succeeded && alertInDom then true else old(alertVisible))
    {
      if !succeeded {
        alertMessage := DeleteErrorKey;
        if alertInDom {
          alertVisible := true;
        }
        return;
      }
      var k := FindIndex(liveEvents, id);
      if k != -1 {
        RemoveFirstIsSplice(liveEvents, id);
        liveEvents := liveEvents[..k] + liveEvents[k + 1..];
      }
    }

    /** _deleteEvent({id}), with `succeeded` the outcome of deleteEvent. */
    method DeleteEvent(id: string, succeeded: bool, alertInDom: bool)
      modifies this`liveEvents, this`alertVisible, this`alertMessage, this`deleteCalls
      ensures deleteCalls == old(deleteCalls) + [id]
      ensures succeeded ==> liveEvents == RemoveFirst(old(liveEvents), id)
      ensures !succeeded ==> liveEvents == old(liveEvents) && alertMessage == DeleteErrorKey
      ensures !succeeded ==> alertVisible == (alertInDom || old(alertVisible))
      ensures succeeded ==> alertMessage == (if alertInDom then "" else old(alertMessage))
      ensures succeeded ==> alertVisible == (if alertInDom then false else old(alertVisible))
    {
      BeginDelete(id, alertInDom);
      SettleDelete(id, succeeded, alertInDom);
    }

    /**
     * The map of _bulkDelete: the synchronous part of _deleteEvent for every
     * selected row, in row order. `pending` are the ids whose requests are
     * outstanding.
     */
    method RequestSelectedDeletes(alertInDom: bool) returns (pending: seq<string>)
      modifies this`alertVisible, this`alertMessage, this`deleteCalls
      ensures pending == SelectedIds(liveEvents)
      ensures deleteCalls == old(deleteCalls) + pending
      ensures pending == [] ==> alertMessage == old(alertMessage) && alertVisible == old(alertVisible)
      ensures pending != [] ==>
        alertMessage == (if alertInDom then "" else old(alertMessage)) &&
        alertVisible == (if alertInDom then false else old(alertVisible))
    {
      pending := [];
      var i := 0;
      while i < |liveEvents|
        invariant 0 <= i <= |liveEvents|
        invariant pending == SelectedIds(liveEvents[..i])
        invariant deleteCalls == old(deleteCalls) + pending
        invariant pending == [] ==> alertMessage == old(alertMessage) && alertVisible == old(alertVisible)
        invariant pending != [] ==>
          alertMessage == (if alertInDom then "" else old(alertMessage)) &&
          alertVisible == (if alertInDom then false else old(alertVisible))
      {
        assert liveEvents[..i + 1][..i] == liveEvents[..i];
        if Selected(liveEvents[i]) {
          BeginDelete(liveEvents[i].id, alertInDom);
          pending := pending + [liveEvents[i].id];
        }
        i := i + 1;
      }
      assert liveEvents[..i] == liveEvents;
    }

    /**
     * The continuations of the outstanding deletes, once every request has
     * settled, run one after the other in the order of `pending`.
     */
    method SettleDeletes(pending: seq<string>, failed: set<string>, alertInDom: bool)
      modifies this`liveEvents, this`alertVisible, this`alertMessage
      ensures liveEvents == ApplyDeletes(old(liveEvents), pending, failed)
      ensures alertMessage == (if SomeDeleteFails(pending, failed) then DeleteErrorKey else old(alertMessage))
      ensures alertVisible == (if SomeDeleteFails(pending, failed) && alertInDom then true else old(alertVisible))
    {
      ghost var rows0, message0, visible0 := liveEvents, alertMessage, alertVisible;
      ghost var anyFailed := false;
      var rest := pending;
      while rest != []
        invariant SomeDeleteFails(pending, failed) <==> anyFailed || SomeDeleteFails(rest, failed)
        invariant ApplyDeletes(liveEvents, rest, failed) == ApplyDeletes(rows0, pending, failed)
        invariant alertMessage == (if anyFailed then DeleteErrorKey else message0)
        invariant alertVisible == (if anyFailed && alertInDom then true else visible0)
        decreases |rest|
      {
        var id := rest[0];
        assert rest == [id] + rest[1..];
        SomeDeleteFailsStep(id, rest[1..], failed);
        ghost var before := liveEvents;
        SettleDelete(id, id !in failed, alertInDom);
        ApplyDeletesStep(before, liveEvents, id, rest[1..], failed);
        anyFailed := anyFailed || id in failed;
        rest := rest[1..];
      }
    }

    /**
     * _bulkDelete: a delete for every selected row, with `failed` the ids
     * whose delete fails. Bulk delete fires all requests before any settles.
     */
    method BulkDelete(alertInDom: bool, failed: set<string>)
      modifies this`liveEvents, this`alertVisible, this`alertMessage, this`deleteCalls
      ensures deleteCalls == old(deleteCalls) + SelectedIds(old(liveEvents))
      ensures liveEvents == ApplyDeletes(old(liveEvents), SelectedIds(old(liveEvents)), failed)
      ensures UniqueIds(old(liveEvents)) ==> liveEvents == Kept(old(liveEvents), failed)
      ensures SelectedIds(old(liveEvents)) == [] ==>
        alertMessage == old(alertMessage) && alertVisible == old(alertVisible)
      ensures SelectedIds(old(liveEvents)) != [] ==>
        alertMessage ==
          (if SomeDeleteFails(SelectedIds(old(liveEvents)), failed) then DeleteErrorKey
           else if alertInDom then "" else old(alertMessage)) &&
        alertVisible ==
          (if alertInDom then SomeDeleteFails(SelectedIds(old(liveEvents)), failed) else old(alertVisible))
    {
      var pending := RequestSelectedDeletes(alertInDom);
      SettleDeletes(pending, failed, alertInDom);
      if UniqueIds(old(liveEvents)) {
        BulkDeleteKeepsUnselectedAndFailed(old(liveEvents), failed);
      }
    }
  }
}
