/**
 * The rows of the live-events page and the list operations the page
 * performs on them: `find`/`findIndex` by id, setting a row's selection,
 * `splice` of one row, select-all and the deletions of a bulk delete.
 */
module LiveEventRows {
  import opened Wrappers

  /**
   * One row as listEvents returns it. `state` is the selection record the
   * page attaches to the row object (`row.state = {selected}`); it is absent
   * until a checkbox for the row is toggled.
   */
  datatype LiveEvent = LiveEvent(id: string, title: string, startTime: string, status: string,
                                 state: Option<bool>)

  /** `row.state && row.state.selected` */
  predicate Selected(r: LiveEvent) {
    r.state == Some(true)
  }

  /** No two rows share an id. */
  predicate UniqueIds(rows: seq<LiveEvent>) {
    rows == [] ||
    ((forall r :: r in rows[1..] ==> r.id != rows[0].id) && UniqueIds(rows[1..]))
  }

  /** `rows.findIndex(row => row.id === id)`: the first index with that id, or -1. */
  function FindIndex(rows: seq<LiveEvent>, id: string): (k: int)
    ensures -1 <= k < |rows|
    ensures k >= 0 ==> rows[k].id == id && forall j :: 0 <= j < k ==> rows[j].id != id
    ensures k == -1 <==> forall j :: 0 <= j < |rows| ==> rows[j].id != id
  {
    if rows == [] then -1
    else if rows[0].id == id then 0
    else
      var k := FindIndex(rows[1..], id);
      if k == -1 then -1 else k + 1
  }

  /**
   * `rows.find(row => row.id === id).state = {selected}`: only the first row
   * with that id changes, and only in its selection.
   */
  function SetSelection(rows: seq<LiveEvent>, id: string, selected: bool): (r: seq<LiveEvent>)
    ensures |r| == |rows|
    ensures forall j :: 0 <= j < |rows| && j != FindIndex(rows, id) ==> r[j] == rows[j]
    ensures FindIndex(rows, id) >= 0 ==>
      r[FindIndex(rows, id)] == rows[FindIndex(rows, id)].(state := Some(selected))
  {
    var k := FindIndex(rows, id);
    if k == -1 then rows else rows[k := rows[k].(state := Some(selected))]
  }

  /** The list without its first row with that id; the list itself when no row has it. */
  function RemoveFirst(rows: seq<LiveEvent>, id: string): (r: seq<LiveEvent>)
    ensures FindIndex(rows, id) == -1 ==> r == rows
    ensures FindIndex(rows, id) >= 0 ==> |r| == |rows| - 1
  {
    if rows == [] then []
    else if rows[0].id == id then rows[1..]
    else [rows[0]] + RemoveFirst(rows[1..], id)
  }

  /** Splicing after a head is splicing one further along the whole. */
  lemma SpliceAfterHead<T>(h: T, t: seq<T>, k: nat)
    requires k < |t|
    ensures [h] + (t[..k] + t[k + 1..]) == ([h] + t)[..k + 1] + ([h] + t)[k + 2..]
  {
    assert [h] + t[..k] == ([h] + t)[..k + 1];
    assert t[k + 1..] == ([h] + t)[k + 2..];
  }

  /** RemoveFirst is what `findIndex` followed by `splice(k, 1)` leaves. */
  lemma {:induction false} RemoveFirstIsSplice(rows: seq<LiveEvent>, id: string)
    requires FindIndex(rows, id) >= 0
    ensures RemoveFirst(rows, id) == rows[..FindIndex(rows, id)] + rows[FindIndex(rows, id) + 1..]
  {
    if rows[0].id != id {
      var t := rows[1..];
      var k' := FindIndex(t, id);
      assert FindIndex(rows, id) == k' + 1;
      assert RemoveFirst(rows, id) == [rows[0]] + RemoveFirst(t, id);
      RemoveFirstIsSplice(t, id);
      SpliceAfterHead(rows[0], t, k');
      assert [rows[0]] + t == rows;
    }
  }

  /** The rows whose id is not in `ids`, in order. */
  function Without(rows: seq<LiveEvent>, ids: set<string>): (r: seq<LiveEvent>)
    ensures forall x :: x in r <==> x in rows && x.id !in ids
    ensures |r| <= |rows|
  {
    if rows == [] then []
    else if rows[0].id in ids then Without(rows[1..], ids)
    else [rows[0]] + Without(rows[1..], ids)
  }

  /**
   * Reference result of a bulk delete: the rows that were not selected or
   * whose delete failed, in their original order.
   */
  function Kept(rows: seq<LiveEvent>, failed: set<string>): (r: seq<LiveEvent>)
    ensures forall x :: x in r <==> x in rows && (!Selected(x) || x.id in failed)
    ensures |r| <= |rows|
  {
    if rows == [] then []
    else if Selected(rows[0]) && rows[0].id !in failed then Kept(rows[1..], failed)
    else [rows[0]] + Kept(rows[1..], failed)
  }

  /** The ids bulk delete sends a delete for: those of the selected rows, in order. */
  function SelectedIds(rows: seq<LiveEvent>): (ids: seq<string>)
    ensures forall id :: id in ids <==> exists r :: r in rows && Selected(r) && r.id == id
    ensures |ids| <= |rows|
  {
    if rows == [] then []
    else
      var n := |rows| - 1;
      assert rows == rows[..n] + [rows[n]];
      SelectedIds(rows[..n]) + (if Selected(rows[n]) then [rows[n].id] else [])
  }

  /**
   * The settled deletes applied in turn: each succeeded id removes the
   * first row that still has it; a failed one changes nothing.
   */
  function ApplyDeletes(rows: seq<LiveEvent>, targets: seq<string>, failed: set<string>): (r: seq<LiveEvent>)
    ensures |rows| - |targets| <= |r| <= |rows|
    decreases |targets|
  {
    if targets == [] then rows
    else
      var next := if targets[0] in failed then rows else RemoveFirst(rows, targets[0]);
      ApplyDeletes(next, targets[1..], failed)
  }

  /** One settled delete, then the rest. */
  lemma ApplyDeletesStep(before: seq<LiveEvent>, after: seq<LiveEvent>, id: string, rest: seq<string>, failed: set<string>)
    requires after == (if id !in failed then RemoveFirst(before, id) else before)
    ensures ApplyDeletes(before, [id] + rest, failed) == ApplyDeletes(after, rest, failed)
  {
    assert ([id] + rest)[1..] == rest;
  }

  /** The ids of `targets` whose delete succeeds. */
  function Succeeded(targets: seq<string>, failed: set<string>): set<string> {
    set t | t in targets && t !in failed
  }

  /** In a list with unique ids, a row is determined by its id. */
  lemma {:induction false} UniqueSameId(rows: seq<LiveEvent>, x: LiveEvent, y: LiveEvent)
    requires UniqueIds(rows) && x in rows && y in rows && x.id == y.id
    ensures x == y
  {
    assert rows == [rows[0]] + rows[1..];
    if x != rows[0] && y != rows[0] {
      UniqueSameId(rows[1..], x, y);
    }
  }

  /** Filtering keeps ids unique. */
  lemma {:induction false} WithoutKeepsUnique(rows: seq<LiveEvent>, ids: set<string>)
    requires UniqueIds(rows)
    ensures UniqueIds(Without(rows, ids))
  {
    if rows != [] {
      WithoutKeepsUnique(rows[1..], ids);
      var w := Without(rows[1..], ids);
      if rows[0].id !in ids {
        assert ([rows[0]] + w)[1..] == w;
      }
    }
  }

  /** Removing ids no row has changes nothing. */
  lemma {:induction false} WithoutAbsent(rows: seq<LiveEvent>, ids: set<string>)
    requires forall r :: r in rows ==> r.id !in ids
    ensures Without(rows, ids) == rows
  {
    if rows != [] {
      assert rows[0] in rows;
      assert forall r :: r in rows[1..] ==> r in rows;
      WithoutAbsent(rows[1..], ids);
    }
  }

  /** Two filters by id make one. */
  lemma {:induction false} WithoutTwice(rows: seq<LiveEvent>, a: set<string>, b: set<string>)
    ensures Without(Without(rows, a), b) == Without(rows, a + b)
  {
    if rows != [] {
      WithoutTwice(rows[1..], a, b);
      if rows[0].id !in a {
        assert Without([rows[0]] + Without(rows[1..], a), b) ==
          (if rows[0].id in b then [] else [rows[0]]) + Without(Without(rows[1..], a), b) by {
          assert ([rows[0]] + Without(rows[1..], a))[1..] == Without(rows[1..], a);
        }
      }
    }
  }

  /** With unique ids, `findIndex` + `splice` removes every row with that id. */
  lemma {:induction false} RemoveFirstIsWithout(rows: seq<LiveEvent>, id: string)
    requires UniqueIds(rows)
    ensures RemoveFirst(rows, id) == Without(rows, {id})
  {
    if rows != [] {
      if rows[0].id == id {
        WithoutAbsent(rows[1..], {id});
      } else {
        RemoveFirstIsWithout(rows[1..], id);
      }
    }
  }

  /** With unique ids, the deletes applied in turn remove exactly the succeeded ids. */
  lemma {:induction false} ApplyDeletesIsWithout(rows: seq<LiveEvent>, targets: seq<string>, failed: set<string>)
    requires UniqueIds(rows)
    ensures ApplyDeletes(rows, targets, failed) == Without(rows, Succeeded(targets, failed))
    decreases |targets|
  {
    if targets == [] {
      assert Succeeded(targets, failed) == {};
      WithoutAbsent(rows, {});
    } else {
      var t, rest := targets[0], targets[1..];
      assert targets == [t] + rest;
      if t in failed {
        ApplyDeletesIsWithout(rows, rest, failed);
        assert Succeeded(targets, failed) == Succeeded(rest, failed);
      } else {
        RemoveFirstIsWithout(rows, t);
        WithoutKeepsUnique(rows, {t});
        ApplyDeletesIsWithout(Without(rows, {t}), rest, failed);
        WithoutTwice(rows, {t}, Succeeded(rest, failed));
        assert Succeeded(targets, failed) == {t} + Succeeded(rest, failed);
      }
    }
  }

  /** Filtering out exactly the selected rows whose delete succeeded gives Kept. */
  lemma {:induction false} WithoutIsKept(rows: seq<LiveEvent>, ids: set<string>, failed: set<string>)
    requires forall r :: r in rows ==> (r.id in ids <==> Selected(r) && r.id !in failed)
    ensures Without(rows, ids) == Kept(rows, failed)
  {
    if rows != [] {
      assert rows[0] in rows;
      assert forall r :: r in rows[1..] ==> r in rows;
      WithoutIsKept(rows[1..], ids, failed);
    }
  }

  /**
   * Bulk delete: with unique ids, deleting the selected rows in turn leaves
   * exactly the rows that were not selected or whose delete failed, in the
   * original order.
   */
  lemma BulkDeleteKeepsUnselectedAndFailed(rows: seq<LiveEvent>, failed: set<string>)
    requires UniqueIds(rows)
    ensures ApplyDeletes(rows, SelectedIds(rows), failed) == Kept(rows, failed)
  {
    var ids := Succeeded(SelectedIds(rows), failed);
    ApplyDeletesIsWithout(rows, SelectedIds(rows), failed);
    forall r | r in rows
      ensures r.id in ids <==> Selected(r) && r.id !in failed
    {
      if r.id in SelectedIds(rows) {
        var x :| x in rows && Selected(x) && x.id == r.id;
        UniqueSameId(rows, x, r);
      }
    }
    WithoutIsKept(rows, ids, failed);
  }

  /** The state the select-all handler gives a row whose checkbox differs from `v`. */
  function Mark(r: LiveEvent, v: bool): LiveEvent {
    if Selected(r) == v then r else r.(state := Some(v))
  }

  /** Every row selected as `v`; rows already showing `v` keep their record. */
  function MarkAll(rows: seq<LiveEvent>, v: bool): (r: seq<LiveEvent>)
    ensures |r| == |rows|
    ensures forall j :: 0 <= j < |r| ==>
      Selected(r[j]) == v && r[j].(state := rows[j].state) == rows[j]
    ensures forall j :: 0 <= j < |r| && Selected(rows[j]) == v ==> r[j] == rows[j]
  {
    if rows == [] then [] else [Mark(rows[0], v)] + MarkAll(rows[1..], v)
  }

  /**
   * The select-all handler's loop: `current` is the list, `boxes` the rows
   * whose checkboxes are still to be visited, each with the value it showed.
   */
  function ToggleAll(current: seq<LiveEvent>, boxes: seq<LiveEvent>, v: bool): (r: seq<LiveEvent>)
    ensures |r| == |current|
    decreases |boxes|
  {
    if boxes == [] then current
    else
      var next := if Selected(boxes[0]) != v then SetSelection(current, boxes[0].id, v) else current;
      ToggleAll(next, boxes[1..], v)
  }

  /** Select-all only ever changes rows' selection: ids, titles and order stay. */
  lemma {:induction false} ToggleAllKeepsRows(current: seq<LiveEvent>, boxes: seq<LiveEvent>, v: bool)
    ensures forall j :: 0 <= j < |current| ==>
      ToggleAll(current, boxes, v)[j] == current[j].(state := ToggleAll(current, boxes, v)[j].state)
    decreases |boxes|
  {
    if boxes != [] {
      var next := if Selected(boxes[0]) != v then SetSelection(current, boxes[0].id, v) else current;
      ToggleAllKeepsRows(next, boxes[1..], v);
    }
  }

  /** Select-all over the list as rendered. */
  function SelectAllResult(rows: seq<LiveEvent>, v: bool): (r: seq<LiveEvent>)
    ensures |r| == |rows|
  {
    ToggleAll(rows, rows, v)
  }

  /** `find` skips a prefix in which no row has the id. */
  lemma FindIndexPastPrefix(done: seq<LiveEvent>, b: LiveEvent, rest: seq<LiveEvent>)
    requires forall x :: x in done ==> x.id != b.id
    ensures FindIndex(done + [b] + rest, b.id) == |done|
  {
    var cur := done + [b] + rest;
    assert cur[|done|] == b;
    assert forall j :: 0 <= j < |done| ==> cur[j] == done[j] && done[j] in done;
  }

  /** One step of the select-all loop marks the row it visits and nothing else. */
  lemma ToggleStep(done: seq<LiveEvent>, b: LiveEvent, rest: seq<LiveEvent>, v: bool)
    requires forall x :: x in done ==> x.id != b.id
    ensures (if Selected(b) != v then SetSelection(done + [b] + rest, b.id, v) else done + [b] + rest)
            == done + [Mark(b, v)] + rest
  {
    if Selected(b) != v {
      FindIndexPastPrefix(done, b, rest);
      var cur := done + [b] + rest;
      var next := SetSelection(cur, b.id, v);
      var want := done + [Mark(b, v)] + rest;
      assert |next| == |want|;
      forall j | 0 <= j < |next| ensures next[j] == want[j] {
        if j != |done| { assert next[j] == cur[j]; }
      }
    }
  }

  /** The ids of a list of rows. */
  function Ids(rows: seq<LiveEvent>): set<string> {
    set r | r in rows :: r.id
  }

  /** Unfolding the select-all loop once. */
  lemma ToggleAllUnfold(done: seq<LiveEvent>, boxes: seq<LiveEvent>, v: bool)
    requires boxes != []
    requires forall x :: x in done ==> x.id != boxes[0].id
    ensures ToggleAll(done + boxes, boxes, v) ==
            ToggleAll((done + [Mark(boxes[0], v)]) + boxes[1..], boxes[1..], v)
  {
    var b, rest := boxes[0], boxes[1..];
    assert done + boxes == done + [b] + rest;
    ToggleStep(done, b, rest, v);
    assert done + [Mark(b, v)] + rest == (done + [Mark(b, v)]) + rest;
  }

  /** What the rest of the loop still needs once the first box is done. */
  lemma DisjointAfterStep(done: seq<LiveEvent>, boxes: seq<LiveEvent>, v: bool)
    requires boxes != [] && UniqueIds(boxes)
    requires forall x :: x in done ==> x.id !in Ids(boxes)
    ensures forall x :: x in done ==> x.id != boxes[0].id
    ensures UniqueIds(boxes[1..])
    ensures forall x :: x in done + [Mark(boxes[0], v)] ==> x.id !in Ids(boxes[1..])
  {
    assert boxes[0] in boxes;
    assert Ids(boxes[1..]) <= Ids(boxes) by {
      assert forall y :: y in boxes[1..] ==> y in boxes;
    }
  }

  /** Marking the first box, then the rest. */
  lemma MarkAllAfterStep(done: seq<LiveEvent>, boxes: seq<LiveEvent>, v: bool)
    requires boxes != []
    ensures (done + [Mark(boxes[0], v)]) + MarkAll(boxes[1..], v) == done + MarkAll(boxes, v)
  {
    assert MarkAll(boxes, v) == [Mark(boxes[0], v)] + MarkAll(boxes[1..], v);
  }

  /** The loop over the remaining boxes leaves the finished prefix alone and marks the rest. */
  lemma {:induction false} ToggleAllMarksRest(done: seq<LiveEvent>, boxes: seq<LiveEvent>, v: bool)
    requires UniqueIds(boxes)
    requires forall x :: x in done ==> x.id !in Ids(boxes)
    ensures ToggleAll(done + boxes, boxes, v) == done + MarkAll(boxes, v)
    decreases |boxes|
  {
    if boxes != [] {
      DisjointAfterStep(done, boxes, v);
      ToggleAllUnfold(done, boxes, v);
      ToggleAllMarksRest(done + [Mark(boxes[0], v)], boxes[1..], v);
      MarkAllAfterStep(done, boxes, v);
    }
  }

  /**
   * Select-all: with unique ids every row ends selected as the header
   * checkbox, and only rows that showed the other value change.
   */
  lemma SelectAllMarksEveryRow(rows: seq<LiveEvent>, v: bool)
    requires UniqueIds(rows)
    ensures SelectAllResult(rows, v) == MarkAll(rows, v)
  {
    ToggleAllMarksRest([], rows, v);
    assert [] + rows == rows;
    assert [] + MarkAll(rows, v) == MarkAll(rows, v);
  }
}
