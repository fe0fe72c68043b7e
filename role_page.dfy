/**
 * The role list page (src/pages/role/index.jsx): the query state
 * (`pageNum`, `pageSize`, `conditions`, the edited `record`, the modal's
 * `visible` flag), the parameters of the `/roles` list request built from
 * it, the projection of the reply into table rows, and the handlers that
 * change the state.
 *
 * The list request is re-sent whenever one of its dependencies
 * `[conditions, pageNum, pageSize]` changes; `conditions` is compared by
 * identity, so every `setConditions` with a new object counts as a change
 * even when its contents are equal. That identity is modelled by a
 * counter bumped on each `setConditions`.
 */
module RolePage {
  import opened JsValues
  import opened Lists

  /** The reply of `GET /roles`: an optional `list` of role records and a `total`. */
  datatype RoleListReply = RoleListReply(list: Option<seq<Record>>, total: JsValue)

  /** What the table shows. */
  datatype TableData = TableData(dataSource: seq<Record>, total: JsValue)

  /** A request the page sends. */
  datatype PageRequest = ListRoles(params: Record) | DeleteRole(id: JsValue)

  /** `item.type === 3`: a custom role, the only kind the table shows. */
  predicate IsCustomRole(item: Record)
  {
    Get(item, "type") == Num(3)
  }

  /** `res?.list || []` */
  function ListOf(res: Option<RoleListReply>): seq<Record>
  {
    if res.Some? && res.value.list.Some? then res.value.list.value else []
  }

  /** `res?.total` */
  function TotalOf(res: Option<RoleListReply>): JsValue
  {
    if res.Some? then res.value.total else Undefined
  }

  /** `formatResult`: the custom roles of the reply and its total, `0` when the total is missing or falsy. */
  function FormatResult(res: Option<RoleListReply>): (r: TableData)
    ensures |r.dataSource| <= |ListOf(res)|
    ensures forall i :: 0 <= i < |r.dataSource| ==> IsCustomRole(r.dataSource[i])
    ensures ListOf(res) == [] ==> r.dataSource == []
    ensures Truthy(TotalOf(res)) ==> r.total == TotalOf(res)
    ensures !Truthy(TotalOf(res)) ==> r.total == Num(0)
  {
    TableData(Filter(IsCustomRole, ListOf(res)), Or(TotalOf(res), Num(0)))
  }

  /** The rows shown are exactly the `type === 3` items of the list, in server order, none dropped or repeated. */
  lemma RowsAreExactlyCustomRoles(res: Option<RoleListReply>)
    ensures IsSubsequence(FormatResult(res).dataSource, ListOf(res))
    ensures forall x :: multiset(FormatResult(res).dataSource)[x] == if IsCustomRole(x) then multiset(ListOf(res))[x] else 0
  {
    FilterExact(IsCustomRole, ListOf(res));
  }

  /** A row is shown exactly when it is a custom role of the list. */
  lemma RowMembership(res: Option<RoleListReply>, item: Record)
    ensures item in FormatResult(res).dataSource <==> item in ListOf(res) && IsCustomRole(item)
  {
    FilterMembership(IsCustomRole, ListOf(res), item);
  }

  /** `{...conditions, pageNum, pageSize}`: the page fields override same-named conditions. */
  function ListParams(conditions: Record, pageNum: int, pageSize: int): (p: Record)
    ensures p.Keys == conditions.Keys + {"pageNum", "pageSize"}
    ensures p["pageNum"] == Num(pageNum) && p["pageSize"] == Num(pageSize)
    ensures forall k :: k in conditions && k != "pageNum" && k != "pageSize" ==> p[k] == conditions[k]
  {
    conditions["pageNum" := Num(pageNum)]["pageSize" := Num(pageSize)]
  }

  /** The parameters of the most recent list request in a log. */
  function LastListParams(log: seq<PageRequest>): Option<Record>
  {
    if log == [] then None
    else if log[|log| - 1].ListRoles? then Some(log[|log| - 1].params)
    else LastListParams(log[..|log| - 1])
  }

  /** The page's state. */
  class RoleListPage {
    var pageNum: int
    var pageSize: int
    var conditions: Record
    var conditionsVersion: nat
    var record: Option<Record>
    var visible: bool
    var requests: seq<PageRequest>

    /** The request parameters built from the current state. */
    function Params(): Record
      reads this
    {
      ListParams(conditions, pageNum, pageSize)
    }

    /** `isEdit={!!record}` */
    predicate IsEdit()
      reads this
    {
      record.Some?
    }

    /** The table always reflects the current state: the latest list request carries the current parameters. */
    ghost predicate Valid()
      reads this
    {
      LastListParams(requests) == Some(Params())
    }

    /** The initial state, and the list request sent on mount. */
    constructor ()
      ensures Valid()
      ensures pageNum == 1 && pageSize == 20 && conditions == map[] && record == None && !visible
      ensures requests == [ListRoles(ListParams(map[], 1, 20))]
    {
      pageNum, pageSize, conditions, conditionsVersion := 1, 20, map[], 0;
      record, visible := None, false;
      requests := [ListRoles(ListParams(map[], 1, 20))];
    }

    /** The re-render after a handler: the list request is sent again when a dependency changed. */
    method Refresh(pageNum0: int, pageSize0: int, version0: nat)
      requires Valid() || (pageNum0, pageSize0, version0) != (pageNum, pageSize, conditionsVersion)
      modifies this`requests
      ensures Valid()
      ensures requests == old(requests) + if (pageNum0, pageSize0, version0) != (pageNum, pageSize, conditionsVersion) then [ListRoles(Params())] else []
    {
      if (pageNum0, pageSize0, version0) != (pageNum, pageSize, conditionsVersion) {
        requests := requests + [ListRoles(Params())];
        assert requests[..|requests| - 1] == old(requests);
      }
    }

    /** The query form's `onFinish`: back to page 1 with the submitted values as the conditions. */
    method OnFinish(values: Record)
      requires Valid()
      modifies this
      ensures Valid()
      ensures pageNum == 1 && pageSize == old(pageSize) && conditions == values
      ensures record == old(record) && visible == old(visible)
      ensures requests == old(requests) + [ListRoles(ListParams(values, 1, old(pageSize)))]
    {
      var n0, s0, v0 := pageNum, pageSize, conditionsVersion;
      pageNum := 1;
      conditions, conditionsVersion := values, conditionsVersion + 1;
      Refresh(n0, s0, v0);
    }

    /** `onPageNumChange`: only the page number changes. */
    method OnPageNumChange(n: int)
      requires Valid()
      modifies this
      ensures Valid()
      ensures pageNum == n && pageSize == old(pageSize) && conditions == old(conditions)
      ensures record == old(record) && visible == old(visible)
      ensures requests == old(requests) + if n != old(pageNum) then [ListRoles(ListParams(old(conditions), n, old(pageSize)))] else []
    {
      var n0, s0, v0 := pageNum, pageSize, conditionsVersion;
      pageNum := n;
      Refresh(n0, s0, v0);
    }

    /** `onPageSizeChange`: back to page 1 with the new page size. */
    method OnPageSizeChange(size: int)
      requires Valid()
      modifies this
      ensures Valid()
      ensures pageNum == 1 && pageSize == size && conditions == old(conditions)
      ensures record == old(record) && visible == old(visible)
      ensures requests == old(requests) + if (old(pageNum), old(pageSize)) != (1, size) then [ListRoles(ListParams(old(conditions), 1, size))] else []
    {
      var n0, s0, v0 := pageNum, pageSize, conditionsVersion;
      pageNum := 1;
      pageSize := size;
      Refresh(n0, s0, v0);
    }

    /** The Add button: the modal opens with no record, so not in edit mode. */
    method OnAdd()
      requires Valid()
      modifies this
      ensures Valid()
      ensures record == None && visible && !IsEdit()
      ensures pageNum == old(pageNum) && pageSize == old(pageSize) && conditions == old(conditions) && requests == old(requests)
    {
      record := None;
      visible := true;
    }

    /** A row's Edit action: the modal opens on that row, in edit mode. */
    method OnEdit(row: Record)
      requires Valid()
      modifies this
      ensures Valid()
      ensures record == Some(row) && visible && IsEdit()
      ensures pageNum == old(pageNum) && pageSize == old(pageSize) && conditions == old(conditions) && requests == old(requests)
    {
      record := Some(row);
      visible := true;
    }

    /**
     * `handleDelete(id)`: delete the role; once that resolves, set a copy
     * of the conditions, which re-sends the same query. A rejected delete
     * changes nothing else and is passed on.
     */
    method HandleDelete(id: JsValue, reply: Reply<()>) returns (r: Reply<()>)
      requires Valid()
      modifies this
      ensures Valid() && r == reply
      ensures pageNum == old(pageNum) && pageSize == old(pageSize) && conditions == old(conditions)
      ensures record == old(record) && visible == old(visible)
      ensures reply.Resolved? ==> requests == old(requests) + [DeleteRole(id), ListRoles(old(Params()))]
      ensures reply.Rejected? ==> requests == old(requests) + [DeleteRole(id)]
    {
      requests := requests + [DeleteRole(id)];
      assert requests[..|requests| - 1] == old(requests);
      r := reply;
      if reply.Resolved? {
        var n0, s0, v0 := pageNum, pageSize, conditionsVersion;
        conditionsVersion := conditionsVersion + 1; // `setConditions({...conditions})`: same contents, a new object
        Refresh(n0, s0, v0);
      }
    }

    /** The modal's `onOk`: hide the modal and re-send the same query. */
    method OnModalOk()
      requires Valid()
      modifies this
      ensures Valid()
      ensures !visible && record == old(record)
      ensures pageNum == old(pageNum) && pageSize == old(pageSize) && conditions == old(conditions)
      ensures requests == old(requests) + [ListRoles(old(Params()))]
    {
      var n0, s0, v0 := pageNum, pageSize, conditionsVersion;
      visible := false;
      conditionsVersion := conditionsVersion + 1; // `setConditions({...conditions})`: same contents, a new object
      Refresh(n0, s0, v0);
    }

    /** The modal's `onCancel`: hide the modal, nothing else. */
    method OnModalCancel()
      requires Valid()
      modifies this
      ensures Valid()
      ensures !visible && record == old(record)
      ensures pageNum == old(pageNum) && pageSize == old(pageSize) && conditions == old(conditions) && requests == old(requests)
    {
      visible := false;
    }
  }

  /**
   * A session on the page: move to page `n`, change the page size, then
   * submit a query. Each change resets what the source resets: the query
   * goes out for page 1 with the chosen size and the submitted values only.
   */
  method BrowseThenQuery(n: int, size: int, values: Record) returns (first: Record, last: Record, pageNum: int)
    ensures first == ListParams(map[], 1, 20)
    ensures last == ListParams(values, 1, size)
    ensures pageNum == 1
  {
    var page := new RoleListPage();
    first := page.Params();
    page.OnPageNumChange(n);
    page.OnPageSizeChange(size);
    page.OnFinish(values);
    last := page.requests[|page.requests| - 1].params;
    pageNum := page.pageNum;
  }
}
