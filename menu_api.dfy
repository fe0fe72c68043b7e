/**
 * The menu and permission pipeline of the admin front end
 * (src/api/index.js): the flat list of menu/permission records the
 * backend returns for the logged-in user is fetched once and memoised,
 * its ordering field is reconciled, and it is projected into the menu
 * records handed to the tree builder, the permission codes, the collected
 * (starred) menus and the micro-frontend registration list.
 *
 * The tree builder `formatMenus` belongs to a library whose source is not
 * part of this model; every operation that uses it takes it as a
 * parameter. Backend calls are recorded in a request log and their
 * replies are inputs.
 */
module MenuApi {
  import opened JsValues
  import opened Lists

  /** A backend call as the transport receives it. */
  datatype Request = GetRequest(url: string, params: Record) | PostRequest(url: string, body: Record)

  /** A node of the menu tree `formatMenus` builds: a record and its ordered children. */
  datatype MenuNode = MenuNode(fields: Record, children: seq<MenuNode>)

  /** A micro-frontend registration entry `{title, name, entry}`. */
  datatype SubApp = SubApp(title: JsValue, name: JsValue, entry: JsValue)

  const MenusUrl := "/userMenus"
  const CollectedMenusUrl := "/userCollectMenus"

  /** `getLoginUser()?.id`: the logged-in user's id, `undefined` when nobody is logged in. */
  function UserIdOf(loginUser: Option<Record>): JsValue
  {
    match loginUser
    case None => Undefined
    case Some(u) => Get(u, "id")
  }

  // ---------------------------------------------------------------------
  // Order reconciliation (getMenuData)

  /** `{...item, order: item.order || item.ord || item.sort}` */
  function NormalizeOrder(item: Record): (r: Record)
    ensures r.Keys == item.Keys + {"order"}
    ensures r["order"] == FirstTruthy([Get(item, "order"), Get(item, "ord"), Get(item, "sort")])
    ensures forall k :: k in item && k != "order" ==> r[k] == item[k]
  {
    item["order" := Or(Or(Get(item, "order"), Get(item, "ord")), Get(item, "sort"))]
  }

  /** The reconciliation applied to every record of a reply, as the fetch's `.then` does. */
  function NormalizeReply(reply: Reply<seq<Record>>): (r: Reply<seq<Record>>)
    ensures r.Rejected? <==> reply.Rejected?
    ensures r.Rejected? ==> r.reason == reply.reason
    ensures r.Resolved? ==> |r.value| == |reply.value|
    ensures r.Resolved? ==> forall i :: 0 <= i < |r.value| ==> r.value[i] == NormalizeOrder(reply.value[i])
  {
    match reply
    case Resolved(list) => Resolved(Map(NormalizeOrder, list))
    case Rejected(e) => Rejected(e)
  }

  /**
   * The precedence `order`, then `ord`, then `sort`: a falsy `order`
   * (absent, `0`, `''`, `null`) falls through to `ord`, and a falsy `ord`
   * to `sort`, whatever `sort` holds.
   */
  lemma OrderPrecedence(item: Record)
    ensures Truthy(Get(item, "order")) ==> NormalizeOrder(item)["order"] == item["order"]
    ensures !Truthy(Get(item, "order")) && Truthy(Get(item, "ord")) ==> NormalizeOrder(item)["order"] == item["ord"]
    ensures !Truthy(Get(item, "order")) && !Truthy(Get(item, "ord")) ==> NormalizeOrder(item)["order"] == Get(item, "sort")
  {
    var vs := [Get(item, "order"), Get(item, "ord"), Get(item, "sort")];
    assert vs[1..] == [Get(item, "ord"), Get(item, "sort")];
    assert vs[2..] == [Get(item, "sort")];
  }

  // ---------------------------------------------------------------------
  // Projections of the flat list

  /** `!item.type || item.type === 1`: a record the menu tree is built from. */
  predicate IsMenuRecord(item: Record)
  {
    !Truthy(Get(item, "type")) || Get(item, "type") == Num(1)
  }

  /** `item.type === 2`: a permission record. */
  predicate IsPermissionRecord(item: Record)
  {
    Get(item, "type") == Num(2)
  }

  /** A record of any other type, which neither projection takes. */
  predicate IsIgnoredRecord(item: Record)
  {
    !IsMenuRecord(item) && !IsPermissionRecord(item)
  }

  /** `{...item, id: `${item.id}`, parentId: `${item.parentId}`}` */
  function StringifyIds(item: Record): (r: Record)
    ensures r.Keys == item.Keys + {"id", "parentId"}
    ensures r["id"] == Str(ToJsString(Get(item, "id")))
    ensures r["parentId"] == Str(ToJsString(Get(item, "parentId")))
    ensures "parentId" !in item ==> r["parentId"] == Str("undefined")
    ensures forall k :: k in item && k != "id" && k != "parentId" ==> r[k] == item[k]
  {
    item["id" := Str(ToJsString(Get(item, "id")))]["parentId" := Str(ToJsString(Get(item, "parentId")))]
  }

  /** The list `getMenus` hands to `formatMenus`. */
  function MenuProjection(records: seq<Record>): seq<Record>
  {
    Map(StringifyIds, Filter(IsMenuRecord, records))
  }

  /** The codes `getPermissions` returns. */
  function PermissionCodes(records: seq<Record>): seq<JsValue>
  {
    Map(CodeOf, Filter(IsPermissionRecord, records))
  }

  function CodeOf(item: Record): JsValue
  {
    Get(item, "code")
  }

  /** `item.type === 1`: a collected record that is a menu. Unlike in `getMenus`, an absent type does not qualify. */
  predicate IsCollectableRecord(item: Record)
  {
    Get(item, "type") == Num(1)
  }

  /** `{...item, isCollectedMenu: true}` */
  function MarkCollected(item: Record): (r: Record)
    ensures r.Keys == item.Keys + {"isCollectedMenu"}
    ensures r["isCollectedMenu"] == Bool(true)
    ensures forall k :: k in item && k != "isCollectedMenu" ==> r[k] == item[k]
  {
    item["isCollectedMenu" := Bool(true)]
  }

  /** The list `getCollectedMenus` hands to `formatMenus`. */
  function CollectedProjection(records: seq<Record>): seq<Record>
  {
    Map(MarkCollected, Filter(IsCollectableRecord, records))
  }

  /**
   * The records handed to `formatMenus` are the menu records of the
   * input, in input order, with every one of them kept as often as it
   * occurs; each is rewritten only in `id` and `parentId`.
   */
  lemma MenuProjectionExact(records: seq<Record>)
    ensures IsSubsequence(Filter(IsMenuRecord, records), records)
    ensures forall x :: multiset(Filter(IsMenuRecord, records))[x] == if IsMenuRecord(x) then multiset(records)[x] else 0
    ensures |MenuProjection(records)| == |Filter(IsMenuRecord, records)|
    ensures forall i :: 0 <= i < |MenuProjection(records)| ==>
              MenuProjection(records)[i] == StringifyIds(Filter(IsMenuRecord, records)[i])
  {
    FilterExact(IsMenuRecord, records);
  }

  /** A record reaches `formatMenus` exactly when it is a menu record. */
  lemma MenuProjectionMembers(records: seq<Record>, item: Record)
    ensures item in records && IsMenuRecord(item) ==> StringifyIds(item) in MenuProjection(records)
    ensures item in Filter(IsMenuRecord, records) <==> item in records && IsMenuRecord(item)
  {
    FilterMembership(IsMenuRecord, records, item);
    if item in records && IsMenuRecord(item) {
      var f := Filter(IsMenuRecord, records);
      var i :| 0 <= i < |f| && f[i] == item;
      assert MenuProjection(records)[i] == StringifyIds(item);
    }
  }

  /**
   * No record feeds both the menu projection and the permission codes, and
   * every record falls in exactly one of: menu, permission, ignored.
   */
  lemma PartitionIsExclusive(records: seq<Record>)
    ensures forall x :: x in records ==> !(IsMenuRecord(x) && IsPermissionRecord(x))
    ensures |Filter(IsMenuRecord, records)| + |Filter(IsPermissionRecord, records)| + |Filter(IsIgnoredRecord, records)| == |records|
  {
    FilterPartition(IsMenuRecord, IsPermissionRecord, IsIgnoredRecord, records);
  }

  /**
   * The permission codes are the `code` of every `type === 2` record, in
   * source order and without de-duplication: a code occurs as many times
   * as there are permission records carrying it.
   */
  lemma {:induction false} PermissionCodesCount(records: seq<Record>, code: JsValue)
    ensures multiset(PermissionCodes(records))[code] ==
            |Filter((item: Record) => IsPermissionRecord(item) && CodeOf(item) == code, records)|
    decreases |records|
  {
    if records != [] {
      var tail := records[1..];
      PermissionCodesCount(tail, code);
      FilterConcat(IsPermissionRecord, [records[0]], tail);
      assert records == [records[0]] + tail;
      MapConcat(CodeOf, Filter(IsPermissionRecord, [records[0]]), Filter(IsPermissionRecord, tail));
    }
  }

  /** Permission codes of consecutive lists come out in the same order as the lists. */
  lemma PermissionCodesConcat(a: seq<Record>, b: seq<Record>)
    ensures PermissionCodes(a + b) == PermissionCodes(a) + PermissionCodes(b)
  {
    FilterConcat(IsPermissionRecord, a, b);
    MapConcat(CodeOf, Filter(IsPermissionRecord, a), Filter(IsPermissionRecord, b));
  }

  /**
   * The collected menus are the `type === 1` records of the reply, in
   * order and with their multiplicity, each tagged `isCollectedMenu`.
   */
  lemma CollectedProjectionExact(records: seq<Record>)
    ensures IsSubsequence(Filter(IsCollectableRecord, records), records)
    ensures forall x :: multiset(Filter(IsCollectableRecord, records))[x] == if IsCollectableRecord(x) then multiset(records)[x] else 0
    ensures |CollectedProjection(records)| == |Filter(IsCollectableRecord, records)|
    ensures forall i :: 0 <= i < |CollectedProjection(records)| ==>
              CollectedProjection(records)[i] == MarkCollected(Filter(IsCollectableRecord, records)[i])
  {
    FilterExact(IsCollectableRecord, records);
  }

  /** Every collected menu is tagged and has `type === 1`. */
  lemma CollectedMenusAreTaggedMenus(records: seq<Record>, i: nat)
    requires i < |CollectedProjection(records)|
    ensures CollectedProjection(records)[i]["isCollectedMenu"] == Bool(true)
    ensures CollectedProjection(records)[i]["type"] == Num(1)
  {
    var f := Filter(IsCollectableRecord, records);
    assert IsCollectableRecord(f[i]);
  }

  /**
   * The collected filter is the stricter one: applied to the records
   * `getMenus` would keep, it yields the same records as applied to the
   * whole reply.
   */
  lemma CollectedFilterIsStricter(records: seq<Record>)
    ensures Filter(IsCollectableRecord, records) == Filter(IsCollectableRecord, Filter(IsMenuRecord, records))
  {
    FilterStronger(IsCollectableRecord, IsMenuRecord, records);
  }

  /** A record without a `type` reaches the menu tree but is dropped from the collected menus. */
  lemma AbsentTypeSplitsTheFilters(records: seq<Record>, item: Record)
    requires item in records && "type" !in item
    ensures StringifyIds(item) in MenuProjection(records)
    ensures item !in Filter(IsCollectableRecord, records)
  {
    MenuProjectionMembers(records, item);
    FilterMembership(IsCollectableRecord, records, item);
  }

  /** A small flat list: a root menu with `order`, a child menu with only `ord`, and a permission under the root. */
  function SmallList(): seq<Record>
  {
    [ map["id" := Num(1), "type" := Num(1), "order" := Num(900)],
      map["id" := Num(2), "parentId" := Num(1), "type" := Num(1), "ord" := Num(900)],
      map["id" := Num(3), "parentId" := Num(1), "type" := Num(2), "code" := Str("user:read")] ]
  }

  /** The small list after order reconciliation: both menus carry `order` 900. */
  lemma SmallListLoaded()
    ensures Map(NormalizeOrder, SmallList()) ==
            [ SmallList()[0],
              SmallList()[1]["order" := Num(900)],
              SmallList()[2]["order" := Undefined] ]
  {
    var l := SmallList();
    var r0, r1, r2 := l[0], l[1], l[2];
    assert NormalizeOrder(r0) == r0 by {
      assert Get(r0, "order") == Num(900);
    }
    assert NormalizeOrder(r1) == r1["order" := Num(900)] by {
      assert Get(r1, "order") == Undefined && Get(r1, "ord") == Num(900);
    }
    assert NormalizeOrder(r2) == r2["order" := Undefined] by {
      assert Get(r2, "order") == Undefined && Get(r2, "ord") == Undefined && Get(r2, "sort") == Undefined;
    }
  }

  /** Once loaded, the small list yields exactly one permission code. */
  lemma SmallListPermissions()
    ensures PermissionCodes(Map(NormalizeOrder, SmallList())) == [Str("user:read")]
  {
    SmallListLoaded();
    var l := SmallList();
    var loaded := [l[0], l[1]["order" := Num(900)], l[2]["order" := Undefined]];
    assert loaded[1..] == [loaded[1], loaded[2]] && loaded[1..][1..] == [loaded[2]] && [loaded[2]][1..] == [];
    assert !IsPermissionRecord(loaded[0]) && !IsPermissionRecord(loaded[1]) && IsPermissionRecord(loaded[2]);
    assert Filter(IsPermissionRecord, [loaded[2]]) == [loaded[2]];
    assert Filter(IsPermissionRecord, loaded[1..]) == [loaded[2]];
  }

  lemma SmallListMenuFilter()
    ensures Filter(IsMenuRecord, Map(NormalizeOrder, SmallList())) == [SmallList()[0], SmallList()[1]["order" := Num(900)]]
  {
    SmallListLoaded();
    var l := SmallList();
    var loaded := [l[0], l[1]["order" := Num(900)], l[2]["order" := Undefined]];
    assert loaded[1..] == [loaded[1], loaded[2]] && loaded[1..][1..] == [loaded[2]] && [loaded[2]][1..] == [];
    assert IsMenuRecord(loaded[0]) && IsMenuRecord(loaded[1]) && !IsMenuRecord(loaded[2]);
    assert Filter(IsMenuRecord, [loaded[2]]) == [];
    assert Filter(IsMenuRecord, loaded[1..]) == [loaded[1]];
  }

  lemma SmallListIds()
    ensures StringifyIds(SmallList()[0]) == SmallList()[0]["id" := Str("1")]["parentId" := Str("undefined")]
    ensures StringifyIds(SmallList()[1]["order" := Num(900)]) == SmallList()[1]["order" := Num(900)]["id" := Str("2")]["parentId" := Str("1")]
  {
    assert IntToDecimal(1) == "1" && IntToDecimal(2) == "2";
  }

  /**
   * Once loaded, the two menus of the small list reach `formatMenus` in
   * order with textual ids, the root's missing `parentId` becoming
   * "undefined".
   */
  lemma SmallListMenus()
    ensures MenuProjection(Map(NormalizeOrder, SmallList())) ==
            [ SmallList()[0]["id" := Str("1")]["parentId" := Str("undefined")],
              SmallList()[1]["order" := Num(900)]["id" := Str("2")]["parentId" := Str("1")] ]
  {
    SmallListMenuFilter();
    SmallListIds();
  }

  // ---------------------------------------------------------------------
  // Saving a collected menu

  /** The body `saveCollectedMenu` posts: `{userId, menuId, collected}`. */
  function SaveCollectedRequest(loginUser: Option<Record>, menuId: JsValue, collected: JsValue): (q: Request)
    ensures q.PostRequest? && q.url == CollectedMenusUrl
    ensures q.body.Keys == {"userId", "menuId", "collected"}
    ensures q.body["userId"] == UserIdOf(loginUser)
    ensures q.body["menuId"] == menuId && q.body["collected"] == collected
  {
    PostRequest(CollectedMenusUrl, map["userId" := UserIdOf(loginUser), "menuId" := menuId, "collected" := collected])
  }

  // ---------------------------------------------------------------------
  // Micro-frontend registrations (getSubApps)

  /** `node._target === 'qiankun'` */
  predicate IsQiankun(node: MenuNode)
  {
    Get(node.fields, "_target") == Str("qiankun")
  }

  /** `{title, name, entry}` of a node. */
  function EntryOf(node: MenuNode): SubApp
  {
    SubApp(Get(node.fields, "title"), Get(node.fields, "name"), Get(node.fields, "entry"))
  }

  /** Every node of a forest, depth first, each before its children. */
  function PreOrder(nodes: seq<MenuNode>): seq<MenuNode>
    decreases nodes
  {
    if nodes == [] then [] else [nodes[0]] + PreOrder(nodes[0].children) + PreOrder(nodes[1..])
  }

  /** The registrations a forest yields: one entry per qiankun node, in pre-order. */
  function SubApps(nodes: seq<MenuNode>): seq<SubApp>
  {
    Map(EntryOf, Filter(IsQiankun, PreOrder(nodes)))
  }

  lemma {:induction false} PreOrderConcat(a: seq<MenuNode>, b: seq<MenuNode>)
    ensures PreOrder(a + b) == PreOrder(a) + PreOrder(b)
    decreases |a|
  {
    if a == [] {
      assert a + b == b;
    } else {
      assert (a + b)[0] == a[0];
      assert (a + b)[1..] == a[1..] + b;
      PreOrderConcat(a[1..], b);
    }
  }

  /** The registrations of the first `i + 1` roots extend those of the first `i` by the `i`-th root and its subtree. */
  lemma SubAppsStep(nodes: seq<MenuNode>, i: nat)
    requires i < |nodes|
    ensures SubApps(nodes[..i + 1]) ==
            SubApps(nodes[..i]) + (if IsQiankun(nodes[i]) then [EntryOf(nodes[i])] else []) + SubApps(nodes[i].children)
  {
    var n := nodes[i];
    assert nodes[..i + 1] == nodes[..i] + [n];
    PreOrderConcat(nodes[..i], [n]);
    assert [n][1..] == [];
    assert PreOrder([n]) == [n] + PreOrder(n.children);
    FilterConcat(IsQiankun, PreOrder(nodes[..i]), PreOrder([n]));
    FilterConcat(IsQiankun, [n], PreOrder(n.children));
    var f0, f1, f2 := Filter(IsQiankun, PreOrder(nodes[..i])), Filter(IsQiankun, [n]), Filter(IsQiankun, PreOrder(n.children));
    MapConcat(EntryOf, f0, f1 + f2);
    MapConcat(EntryOf, f1, f2);
  }

  /** Every child of a visited node is visited: the walk descends whether or not the parent qualifies. */
  lemma {:induction false} PreOrderVisitsChildren(nodes: seq<MenuNode>, n: MenuNode, c: MenuNode)
    requires n in PreOrder(nodes) && c in n.children
    ensures c in PreOrder(nodes)
    decreases nodes
  {
    var head, rest := nodes[0], nodes[1..];
    assert PreOrder(nodes) == [head] + PreOrder(head.children) + PreOrder(rest);
    if n == head {
      var j :| 0 <= j < |head.children| && head.children[j] == c;
      assert head.children == head.children[..j] + [c] + head.children[j + 1..];
      PreOrderConcat(head.children[..j] + [c], head.children[j + 1..]);
      PreOrderConcat(head.children[..j], [c]);
      assert PreOrder([c]) == [c] + PreOrder(c.children) + PreOrder([c][1..]);
    } else if n in PreOrder(head.children) {
      PreOrderVisitsChildren(head.children, n, c);
    } else {
      PreOrderVisitsChildren(rest, n, c);
    }
  }

  /**
   * A node contributes an entry exactly when it is a qiankun node of the
   * tree, and every qiankun node at any depth contributes one.
   */
  lemma SubAppsMembers(nodes: seq<MenuNode>, n: MenuNode)
    ensures n in PreOrder(nodes) && IsQiankun(n) ==> EntryOf(n) in SubApps(nodes)
    ensures n in Filter(IsQiankun, PreOrder(nodes)) <==> n in PreOrder(nodes) && IsQiankun(n)
  {
    FilterMembership(IsQiankun, PreOrder(nodes), n);
    if n in PreOrder(nodes) && IsQiankun(n) {
      var f := Filter(IsQiankun, PreOrder(nodes));
      var i :| 0 <= i < |f| && f[i] == n;
      assert SubApps(nodes)[i] == EntryOf(n);
    }
  }

  /** The registration entries are the qiankun nodes, in pre-order, as many as there are; an empty tree yields none. */
  lemma SubAppsExact(nodes: seq<MenuNode>)
    ensures |SubApps(nodes)| == |Filter(IsQiankun, PreOrder(nodes))|
    ensures forall k :: 0 <= k < |SubApps(nodes)| ==> SubApps(nodes)[k] == EntryOf(Filter(IsQiankun, PreOrder(nodes))[k])
    ensures IsSubsequence(Filter(IsQiankun, PreOrder(nodes)), PreOrder(nodes))
    ensures nodes == [] ==> SubApps(nodes) == []
  {
    FilterExact(IsQiankun, PreOrder(nodes));
  }

  /** The `result` array `getSubApps` pushes into while its recursive `loop` walks the tree. */
  class SubAppCollector {
    var result: seq<SubApp>

    constructor ()
      ensures result == []
    {
      result := [];
    }

    /** `loop(nodes)`: push each qiankun node's entry, then walk its children, for every node in turn. */
    method Loop(nodes: seq<MenuNode>)
      modifies this
      ensures result == old(result) + SubApps(nodes)
      decreases nodes
    {
      for i := 0 to |nodes|
        invariant result == old(result) + SubApps(nodes[..i])
      {
        var node := nodes[i];
        SubAppsStep(nodes, i);
        ghost var before := result;
        if IsQiankun(node) {
          result := result + [EntryOf(node)];
        }
        assert result == before + if IsQiankun(node) then [EntryOf(node)] else [];
        if |node.children| > 0 {
          Loop(node.children);
        } else {
          assert SubApps(node.children) == [];
        }
        assert result == before + (if IsQiankun(node) then [EntryOf(node)] else []) + SubApps(node.children);
      }
      assert nodes[..|nodes|] == nodes;
    }
  }

  /** The walk of `getSubApps` over a resolved menu tree. */
  method CollectSubApps(tree: seq<MenuNode>) returns (r: seq<SubApp>)
    ensures r == SubApps(tree)
  {
    var collector := new SubAppCollector();
    collector.Loop(tree);
    r := collector.result;
  }

  // ---------------------------------------------------------------------
  // The memoised loader and the exported operations

  /** The number of `/userMenus` fetches in a request log. */
  function MenuFetches(log: seq<Request>): nat
  {
    if log == [] then 0
    else (if log[|log| - 1].GetRequest? && log[|log| - 1].url == MenusUrl then 1 else 0) + MenuFetches(log[..|log| - 1])
  }

  /** The request `getMenuData` sends on a cache miss. */
  function MenuDataRequest(loginUser: Option<Record>): Request
  {
    GetRequest(MenusUrl, map["userId" := UserIdOf(loginUser)])
  }

  /** What `getMenuData` resolves to, given the login-page flag, the cache and the reply the backend would give. */
  function MenuDataOutcome(onLoginPage: bool, cache: Option<Reply<seq<Record>>>, server: Reply<seq<Record>>): Reply<seq<Record>>
  {
    if onLoginPage then Resolved([])
    else if cache.Some? then cache.value
    else NormalizeReply(server)
  }

  /** The module state: the memo slot `getMenuData.__CACHE` and the calls sent to the backend. */
  class MenuService {
    var cache: Option<Reply<seq<Record>>>
    var requests: seq<Request>

    /** At most one `/userMenus` fetch is ever sent: exactly one once the slot is filled, none before. */
    ghost predicate Valid()
      reads this
    {
      MenuFetches(requests) == if cache.Some? then 1 else 0
    }

    constructor ()
      ensures Valid() && cache == None && requests == []
    {
      cache := None;
      requests := [];
    }

    /**
     * `getMenuData`: on the login page, `[]` without touching the cache or
     * the backend; otherwise the stored outcome, or, on the first call, one
     * fetch whose normalised outcome (a rejection included) is stored.
     */
    method GetMenuData(onLoginPage: bool, loginUser: Option<Record>, server: Reply<seq<Record>>) returns (r: Reply<seq<Record>>)
      requires Valid()
      modifies this
      ensures Valid()
      ensures r == MenuDataOutcome(onLoginPage, old(cache), server)
      ensures onLoginPage || old(cache).Some? ==> cache == old(cache) && requests == old(requests)
      ensures !onLoginPage && old(cache).None? ==> cache == Some(r) && requests == old(requests) + [MenuDataRequest(loginUser)]
    {
      if onLoginPage {
        return Resolved([]);
      }
      if cache.None? {
        requests := requests + [MenuDataRequest(loginUser)];
        assert requests[..|requests| - 1] == old(requests);
        cache := Some(NormalizeReply(server));
      }
      r := cache.value;
    }

    /** `getMenus`: the menu records of the loaded list, handed to `formatMenus`. */
    method GetMenus(onLoginPage: bool, loginUser: Option<Record>, server: Reply<seq<Record>>,
                    formatMenus: seq<Record> -> seq<MenuNode>) returns (r: Reply<seq<MenuNode>>)
      requires Valid()
      modifies this
      ensures Valid()
      ensures r == match MenuDataOutcome(onLoginPage, old(cache), server)
                   case Resolved(list) => Resolved(formatMenus(MenuProjection(list)))
                   case Rejected(e) => Rejected(e)
      ensures onLoginPage || old(cache).Some? ==> cache == old(cache) && requests == old(requests)
      ensures !onLoginPage && old(cache).None? ==> cache == Some(NormalizeReply(server)) && requests == old(requests) + [MenuDataRequest(loginUser)]
    {
      var data := GetMenuData(onLoginPage, loginUser, server);
      match data
      case Resolved(list) => {
        r := Resolved(formatMenus(MenuProjection(list)));
      }
      case Rejected(e) => {
        r := Rejected(e);
      }
    }

    /** `getPermissions`: the codes of the permission records of the loaded list. */
    method GetPermissions(onLoginPage: bool, loginUser: Option<Record>, server: Reply<seq<Record>>) returns (r: Reply<seq<JsValue>>)
      requires Valid()
      modifies this
      ensures Valid()
      ensures r == match MenuDataOutcome(onLoginPage, old(cache), server)
                   case Resolved(list) => Resolved(PermissionCodes(list))
                   case Rejected(e) => Rejected(e)
      ensures onLoginPage || old(cache).Some? ==> cache == old(cache) && requests == old(requests)
      ensures !onLoginPage && old(cache).None? ==> cache == Some(NormalizeReply(server)) && requests == old(requests) + [MenuDataRequest(loginUser)]
    {
      var data := GetMenuData(onLoginPage, loginUser, server);
      match data
      case Resolved(list) => {
        r := Resolved(PermissionCodes(list));
      }
      case Rejected(e) => {
        r := Rejected(e);
      }
    }

    /** `getSubApps`: the registrations found in the tree `getMenus` resolves to. */
    method GetSubApps(onLoginPage: bool, loginUser: Option<Record>, server: Reply<seq<Record>>,
                      formatMenus: seq<Record> -> seq<MenuNode>) returns (r: Reply<seq<SubApp>>)
      requires Valid()
      modifies this
      ensures Valid()
      ensures r == match MenuDataOutcome(onLoginPage, old(cache), server)
                   case Resolved(list) => Resolved(SubApps(formatMenus(MenuProjection(list))))
                   case Rejected(e) => Rejected(e)
      ensures onLoginPage || old(cache).Some? ==> cache == old(cache) && requests == old(requests)
      ensures !onLoginPage && old(cache).None? ==> cache == Some(NormalizeReply(server)) && requests == old(requests) + [MenuDataRequest(loginUser)]
    {
      var menus := GetMenus(onLoginPage, loginUser, server, formatMenus);
      match menus
      case Resolved(tree) => {
        var apps := CollectSubApps(tree);
        r := Resolved(apps);
      }
      case Rejected(e) => {
        r := Rejected(e);
      }
    }

    /**
     * `getCollectedMenus`: on the login page `[]` with no request; otherwise
     * one uncached `/userCollectMenus` fetch whose `type === 1` records are
     * tagged and handed to `formatMenus`. The memo slot is never used.
     */
    method GetCollectedMenus(onLoginPage: bool, loginUser: Option<Record>, server: Reply<seq<Record>>,
                             formatMenus: seq<Record> -> seq<MenuNode>) returns (r: Reply<seq<MenuNode>>)
      requires Valid()
      modifies this
      ensures Valid() && cache == old(cache)
      ensures onLoginPage ==> r == Resolved([]) && requests == old(requests)
      ensures !onLoginPage ==> requests == old(requests) + [GetRequest(CollectedMenusUrl, map["userId" := UserIdOf(loginUser)])]
      ensures !onLoginPage ==> r == match server
                                   case Resolved(data) => Resolved(formatMenus(CollectedProjection(data)))
                                   case Rejected(e) => Rejected(e)
    {
      if onLoginPage {
        return Resolved([]);
      }
      requests := requests + [GetRequest(CollectedMenusUrl, map["userId" := UserIdOf(loginUser)])];
      assert requests[..|requests| - 1] == old(requests);
      match server
      case Resolved(data) => {
        r := Resolved(formatMenus(CollectedProjection(data)));
      }
      case Rejected(e) => {
        r := Rejected(e);
      }
    }

    /** `saveCollectedMenu`: posts `{userId, menuId, collected}`; resolves to nothing or passes the rejection on. */
    method SaveCollectedMenu(loginUser: Option<Record>, menuId: JsValue, collected: JsValue, server: Reply<()>) returns (r: Reply<()>)
      requires Valid()
      modifies this
      ensures Valid() && cache == old(cache)
      ensures requests == old(requests) + [SaveCollectedRequest(loginUser, menuId, collected)]
      ensures r == server
    {
      requests := requests + [SaveCollectedRequest(loginUser, menuId, collected)];
      assert requests[..|requests| - 1] == old(requests);
      r := server;
    }
  }

  /**
   * Two calls outside the login page, for possibly different users and
   * with possibly different backend replies: both see the outcome of the
   * first fetch (a rejection stays a rejection) and only one fetch is sent.
   */
  method MenuDataIsFetchedOnce(user1: Option<Record>, server1: Reply<seq<Record>>,
                               user2: Option<Record>, server2: Reply<seq<Record>>)
    returns (r1: Reply<seq<Record>>, r2: Reply<seq<Record>>, fetches: nat)
    ensures r1 == NormalizeReply(server1) && r2 == r1
    ensures fetches == 1
  {
    var service := new MenuService();
    r1 := service.GetMenuData(false, user1, server1);
    r2 := service.GetMenuData(false, user2, server2);
    fetches := MenuFetches(service.requests);
  }

  /**
   * A call on the login page neither reads nor fills the memo slot: it
   * resolves to `[]` before and after the slot is filled, sends nothing,
   * and the next call outside the login page still fetches.
   */
  method LoginPageBypassesCache(user: Option<Record>, server: Reply<seq<Record>>, other: Reply<seq<Record>>)
    returns (before: Reply<seq<Record>>, loaded: Reply<seq<Record>>, after: Reply<seq<Record>>, fetches: nat)
    ensures before == Resolved([]) && after == Resolved([])
    ensures loaded == NormalizeReply(server)
    ensures fetches == 1
  {
    var service := new MenuService();
    before := service.GetMenuData(true, user, other);
    loaded := service.GetMenuData(false, user, server);
    after := service.GetMenuData(true, user, other);
    fetches := MenuFetches(service.requests);
  }

  /**
   * The exported operations share the one fetch: `getMenus` loads the
   * list, and a later `getPermissions` (with another backend reply) sees
   * the codes of that first list, or its rejection.
   */
  method OperationsShareFirstFetch(user: Option<Record>, server: Reply<seq<Record>>, other: Reply<seq<Record>>,
                                   formatMenus: seq<Record> -> seq<MenuNode>)
    returns (menus: Reply<seq<MenuNode>>, codes: Reply<seq<JsValue>>, fetches: nat)
    ensures server.Resolved? ==> menus == Resolved(formatMenus(MenuProjection(NormalizeReply(server).value)))
    ensures server.Resolved? ==> codes == Resolved(PermissionCodes(NormalizeReply(server).value))
    ensures server.Rejected? ==> menus == Rejected(server.reason) && codes == Rejected(server.reason)
    ensures fetches == 1
  {
    var service := new MenuService();
    menus := service.GetMenus(false, user, server, formatMenus);
    codes := service.GetPermissions(false, user, other);
    fetches := MenuFetches(service.requests);
  }
}
