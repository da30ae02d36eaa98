/** The menus of a user: the permitted ones and their active ancestors, computed by a worklist over
    the database and by walks up the parents in memory. */
module MenuAccess {
  import opened Options

  type Id = nat

  /** A menu row; parent is None for a null or empty parent id. */
  datatype Menu = Menu(id: Id, name: string, parent: Option<Id>, active: bool, deleted: bool)

  /** The rows that the parent query may return, by id. */
  type Table = map<Id, Menu>

  ghost predicate TableOk(t: Table) { forall id :: id in t ==> t[id].id == id && t[id].active && !t[id].deleted }

  function IdSet(menus: seq<Menu>): set<Id> { set m | m in menus :: m.id }

  /** Closed under active parents. */
  ghost predicate Closed(s: set<Id>, t: Table) {
    forall id :: id in s && id in t && t[id].parent.Some? && t[id].parent.value in t ==> t[id].parent.value in s
  }

  /** The least set that contains the permitted menus and is closed under active parents. */
  ghost predicate IsAccess(s: set<Id>, direct: set<Id>, t: Table) {
    direct <= s && Closed(s, t) && Needed(s, direct, t)
  }

  /** Every closed set with the permitted menus has these. */
  ghost predicate Needed(ids: set<Id>, direct: set<Id>, t: Table) {
    forall other :: direct <= other && Closed(other, t) ==> ids <= other
  }

  lemma AccessIsUnique(a: set<Id>, b: set<Id>, direct: set<Id>, t: Table)
    requires IsAccess(a, direct, t) && IsAccess(b, direct, t)
    ensures a == b
  {
  }

  /** The rows of a query's answer, each once, in any order. */
  ghost predicate Lists(menus: seq<Menu>, ids: set<Id>) {
    && (forall i, j :: 0 <= i < j < |menus| ==> menus[i].id != menus[j].id)
    && IdSet(menus) == ids
  }

  ghost predicate AllFrom(menus: seq<Menu>, t: Table) { forall m :: m in menus ==> m.id in t && t[m.id] == m }

  function Present(ids: seq<Id>, t: Table): set<Id> { set id | id in ids && id in t }

  method FindByIds(t: Table, ids: seq<Id>) returns (found: seq<Menu>)
    requires TableOk(t)
    ensures AllFrom(found, t) && Lists(found, Present(ids, t))
  {
    found := [];
    for i := 0 to |ids|
      invariant AllFrom(found, t) && Lists(found, Present(ids[..i], t))
    {
      assert ids[..i + 1] == ids[..i] + [ids[i]];
      if ids[i] in t && ids[i] !in ids[..i] {
        assert IdSet(found + [t[ids[i]]]) == IdSet(found) + {ids[i]};
        found := found + [t[ids[i]]];
      }
    }
    assert ids[..|ids|] == ids;
  }

  /** What the worklist has collected: nothing superfluous, and closed but for the pending parents. */
  ghost predicate Collected(menus: seq<Menu>, pending: seq<Id>, direct: set<Id>, t: Table) {
    && direct <= IdSet(menus) && AllFrom(menus, t) && Lists(menus, IdSet(menus))
    && (forall m :: m in menus && m.parent.Some? && m.parent.value in t ==>
      m.parent.value in IdSet(menus) || m.parent.value in pending)
    && Needed(IdSet(menus), direct, t)
    && Needed(Present(pending, t), direct, t)
  }

  /** GetUserMenus after the permission query; it ends on every parent graph, cyclic ones included. */
  method GetUserMenus(direct: seq<Menu>, t: Table) returns (ret: seq<Menu>)
    requires TableOk(t) && AllFrom(direct, t) && Lists(direct, IdSet(direct))
    ensures IsAccess(IdSet(ret), IdSet(direct), t)
    ensures AllFrom(ret, t) && Lists(ret, IdSet(ret))
  {
    var pending := InitialParents(direct, t);
    ret := direct;
    while |pending| > 0
      invariant Collected(ret, pending, IdSet(direct), t)
      decreases Left(t, ret), |pending|
    {
      ret, pending := Round(ret, pending, IdSet(direct), t);
    }
    NothingPending(ret, pending, IdSet(direct), t);
  }

  /** With nothing pending the collected menus are closed. */
  lemma NothingPending(menus: seq<Menu>, pending: seq<Id>, direct: set<Id>, t: Table)
    requires Collected(menus, pending, direct, t) && pending == []
    ensures IsAccess(IdSet(menus), direct, t)
  {
  }

  /** How many rows are not collected yet. */
  ghost function Left(t: Table, menus: seq<Menu>): nat { |t.Keys - IdSet(menus)| }

  method Round(menus: seq<Menu>, pending: seq<Id>, ghost direct: set<Id>, t: Table)
      returns (ret: seq<Menu>, next: seq<Id>)
    requires TableOk(t) && Collected(menus, pending, direct, t)
    ensures Collected(ret, next, direct, t)
    ensures Left(t, ret) < Left(t, menus) || (Left(t, ret) == Left(t, menus) && next == [])
  {
    var parents := FindByIds(t, pending);
    ret, next := AddParents(menus, parents, pending, direct, t);
    if IdSet(ret) != IdSet(menus) {
      assert IdSet(ret) <= t.Keys;
      Shrinks(t.Keys, IdSet(menus), IdSet(ret));
    }
  }

  lemma Shrinks(all: set<Id>, a: set<Id>, b: set<Id>)
    requires a < b <= all
    ensures |all - b| < |all - a|
  {
    var x :| x in b && x !in a;
    assert (all - b) + {x} <= all - a;
    SubsetCount((all - b) + {x}, all - a);
  }

  /** The first pending parents: those that the loop has not met yet when it meets the child. */
  method InitialParents(direct: seq<Menu>, t: Table) returns (pending: seq<Id>)
    requires AllFrom(direct, t) && Lists(direct, IdSet(direct))
    ensures Collected(direct, pending, IdSet(direct), t)
  {
    pending := [];
    for i := 0 to |direct|
      invariant forall j :: 0 <= j < i && direct[j].parent.Some? ==>
        direct[j].parent.value in IdSet(direct) || direct[j].parent.value in pending
      invariant forall p :: p in pending ==> exists j :: 0 <= j < i && direct[j].parent == Some(p)
    {
      var m := direct[i];
      assert IdSet(direct[..i + 1]) <= IdSet(direct);
      if m.parent.Some? && m.parent.value !in IdSet(direct[..i + 1]) { pending := pending + [m.parent.value]; }
    }
    forall s, p | IdSet(direct) <= s && Closed(s, t) && p in pending && p in t ensures p in s {
      var j :| 0 <= j < |direct| && direct[j].parent == Some(p);
      assert direct[j] in direct && direct[j].id in IdSet(direct);
    }
  }

  /** Within one round: the parents found are still to be added. */
  ghost predicate InRound(ret: seq<Menu>, next: seq<Id>, found: set<Id>, direct: set<Id>, t: Table) {
    && direct <= IdSet(ret) && AllFrom(ret, t) && Lists(ret, IdSet(ret))
    && Needed(IdSet(ret), direct, t) && Needed(Present(next, t), direct, t) && Needed(found, direct, t)
    && forall m :: m in ret && m.parent.Some? && m.parent.value in t ==>
         m.parent.value in IdSet(ret) || m.parent.value in next || m.parent.value in found
  }

  method AddParent(ret: seq<Menu>, next: seq<Id>, m: Menu, ghost found: set<Id>, ghost direct: set<Id>, ghost t: Table)
    returns (ret': seq<Menu>, next': seq<Id>)
    requires InRound(ret, next, found, direct, t) && m.id in found && m.id in t && t[m.id] == m
    requires m.id !in IdSet(ret)
    ensures InRound(ret', next', found, direct, t) && IdSet(ret') == IdSet(ret) + {m.id}
  {
    ret', next' := ret + [m], next;
    assert IdSet(ret') == IdSet(ret) + {m.id};
    NeededGrows(IdSet(ret), m, direct, t);
    if m.parent.Some? && m.parent.value !in IdSet(ret') {
      next' := next + [m.parent.value];
      assert Present(next', t) <= Present(next, t) + {m.parent.value};
    }
  }

  /** One round of the worklist: new parents are added, and their parents become pending. */
  method AddParents(menus: seq<Menu>, parents: seq<Menu>, pending: seq<Id>, ghost direct: set<Id>, ghost t: Table)
    returns (ret: seq<Menu>, next: seq<Id>)
    requires Collected(menus, pending, direct, t) && AllFrom(parents, t)
    requires Lists(parents, Present(pending, t))
    ensures Collected(ret, next, direct, t) && IdSet(menus) <= IdSet(ret)
    ensures IdSet(ret) == IdSet(menus) ==> next == []
  {
    ghost var found := IdSet(parents);
    ret, next := menus, [];
    assert Present(next, t) == {};
    for i := 0 to |parents|
      invariant InRound(ret, next, found, direct, t) && IdSet(menus) <= IdSet(ret)
      invariant IdSet(ret) == IdSet(menus) ==> next == []
      invariant forall j :: 0 <= j < i ==> parents[j].id in IdSet(ret)
    {
      assert parents[i] in parents && parents[i].id in found;
      if parents[i].id !in IdSet(ret) {
        ret, next := AddParent(ret, next, parents[i], found, direct, t);
      }
    }
    assert found <= IdSet(ret);
  }

  /** A needed row's active parent is needed as well. */
  lemma NeededGrows(ids: set<Id>, m: Menu, direct: set<Id>, t: Table)
    requires Needed(ids, direct, t) && m.id in t && t[m.id] == m
    requires forall other :: direct <= other && Closed(other, t) ==> m.id in other
    ensures Needed(ids + {m.id}, direct, t)
    ensures m.parent.Some? && m.parent.value in t ==>
      forall other :: direct <= other && Closed(other, t) ==> m.parent.value in other
  {
  }

  // -------------------------------------------------- walks up the parents

  function ById(menus: seq<Menu>): (t: Table)
    ensures t.Keys == IdSet(menus)
  {
    if menus == [] then map[]
    else
      var front, last := menus[..|menus| - 1], menus[|menus| - 1];
      assert menus == front + [last];
      ById(front)[last.id := last]
  }

  function ByName(menus: seq<Menu>): map<string, Menu> {
    if menus == [] then map[] else ByName(menus[..|menus| - 1])[menus[|menus| - 1].name := menus[|menus| - 1]]
  }

  /** Where a walk that starts at `parent` is after n steps up; None once it has ended. */
  function Walk(t: Table, parent: Option<Id>, n: nat): Option<Id>
    decreases n
  {
    if parent.None? || parent.value !in t then None
    else if n == 0 then parent
    else Walk(t, t[parent.value].parent, n - 1)
  }

  ghost predicate Halts(t: Table, parent: Option<Id>) { exists n: nat :: Walk(t, parent, n).None? }

  lemma {:induction false} WalkAdds(t: Table, parent: Option<Id>, a: nat, b: nat)
    ensures Walk(t, Walk(t, parent, a), b) == Walk(t, parent, a + b)
    decreases a
  {
    if parent.Some? && parent.value in t && a > 0 {
      WalkAdds(t, t[parent.value].parent, a - 1, b);
    }
  }

  lemma EndedStays(t: Table, parent: Option<Id>, n: nat, m: nat)
    requires n <= m && Walk(t, parent, n).None?
    ensures Walk(t, parent, m).None?
  {
    WalkAdds(t, parent, n, m - n);
  }

  /** A walk that comes back to a menu goes on for ever. */
  lemma {:induction false} CycleNeverHalts(t: Table, q: Option<Id>, d: nat, k: nat)
    requires q.Some? && d > 0 && Walk(t, q, d) == q
    ensures Walk(t, q, k).Some?
    decreases k
  {
    if k >= d {
      WalkAdds(t, q, d, k - d);
      CycleNeverHalts(t, q, d, k - d);
    } else if Walk(t, q, k).None? {
      EndedStays(t, q, k, d);
    }
  }

  ghost predicate Revisits(t: Table, parent: Option<Id>) {
    exists n: nat, m: nat :: n < m && Walk(t, parent, n).Some? && Walk(t, parent, n) == Walk(t, parent, m)
  }

  /** The menus that a walk meets before step n. */
  function Met(t: Table, parent: Option<Id>, n: nat): set<Id> {
    if n == 0 then {}
    else
      var w := Walk(t, parent, n - 1);
      Met(t, parent, n - 1) + if w.Some? then {w.value} else {}
  }

  lemma {:induction false} MetAt(t: Table, parent: Option<Id>, n: nat, id: Id) returns (k: nat)
    requires id in Met(t, parent, n)
    ensures k < n && Walk(t, parent, k) == Some(id)
    decreases n
  {
    if Walk(t, parent, n - 1) == Some(id) { k := n - 1; } else { k := MetAt(t, parent, n - 1, id); }
  }

  /** A walk that neither ends nor comes back meets one more menu at every step. */
  lemma {:induction false} MetCount(t: Table, parent: Option<Id>, n: nat)
    requires !Halts(t, parent) && !Revisits(t, parent)
    ensures Met(t, parent, n) <= t.Keys && |Met(t, parent, n)| == n
    decreases n
  {
    if n > 0 {
      MetCount(t, parent, n - 1);
      WalkStaysInside(t, parent, n - 1);
      var id := Walk(t, parent, n - 1).value;
      if id in Met(t, parent, n - 1) { var k := MetAt(t, parent, n - 1, id); }
    }
  }

  lemma {:induction false} WalkStaysInside(t: Table, parent: Option<Id>, n: nat)
    ensures Walk(t, parent, n).Some? ==> Walk(t, parent, n).value in t
    decreases n
  {
    if parent.Some? && parent.value in t && n > 0 { WalkStaysInside(t, t[parent.value].parent, n - 1); }
  }

  /** Exactly when the walk of ResolveAccessibleMenus ends: it never comes back to a menu. */
  lemma HaltsIff(t: Table, parent: Option<Id>)
    ensures Halts(t, parent) <==> !Revisits(t, parent)
  {
    if n: nat, m: nat :| n < m && Walk(t, parent, n).Some? && Walk(t, parent, n) == Walk(t, parent, m) {
      forall k: nat ensures Walk(t, parent, k).Some? {
        if k < n {
          if Walk(t, parent, k).None? { EndedStays(t, parent, k, n); }
        } else {
          WalkAdds(t, parent, n, m - n);
          WalkAdds(t, parent, n, k - n);
          CycleNeverHalts(t, Walk(t, parent, n), m - n, k - n);
        }
      }
    } else if !Halts(t, parent) {
      MetCount(t, parent, |t.Keys| + 1);
      SubsetCount(Met(t, parent, |t.Keys| + 1), t.Keys);
    }
  }

  /** The condition is needed: a menu that is its own parent is walked up for ever. */
  lemma OwnParentNeverHalts()
    ensures var t: Table := map[0 := Menu(0, "menus", Some(0), true, false)]; TableOk(t) && !Halts(t, t[0].parent)
  {
    var t: Table := map[0 := Menu(0, "menus", Some(0), true, false)];
    forall k: nat ensures Walk(t, Some(0), k).Some? { CycleNeverHalts(t, Some(0), 1, k); }
  }

  // ----------------------------------------------- ResolveAccessibleMenus

  /** The menus as GetActiveMenus lists them: live rows, no id and no name twice. */
  ghost predicate ActiveList(menus: seq<Menu>) {
    && (forall m :: m in menus ==> m.active && !m.deleted)
    && (forall i, j :: 0 <= i < j < |menus| ==> menus[i].id != menus[j].id && menus[i].name != menus[j].name)
  }

  lemma {:induction false} ByIdIs(menus: seq<Menu>)
    requires ActiveList(menus)
    ensures TableOk(ById(menus)) && AllFrom(menus, ById(menus))
  {
    if menus != [] {
      var front, last := menus[..|menus| - 1], menus[|menus| - 1];
      assert menus == front + [last];
      ByIdIs(front);
    }
  }

  lemma {:induction false} ByNameIs(menus: seq<Menu>, name: string)
    requires ActiveList(menus)
    ensures name in ByName(menus) ==> ByName(menus)[name] in menus && ByName(menus)[name].name == name
    ensures forall m :: m in menus && m.name == name ==> name in ByName(menus) && ByName(menus)[name] == m
  {
    if menus != [] {
      var front, last := menus[..|menus| - 1], menus[|menus| - 1];
      assert menus == front + [last];
      ByNameIs(front, name);
    }
  }

  /** The ids of the menus that the resources permit. */
  function DirectIds(menus: seq<Menu>, resources: seq<string>): set<Id> {
    set m | m in menus && m.name in resources :: m.id
  }

  /** The walk up from a permitted menu adds what is needed and leaves nothing out. */
  method WalkUp(t: Table, allowed: set<Id>, menu: Menu, ghost direct: set<Id>) returns (more: set<Id>)
    requires TableOk(t) && menu.id in t && t[menu.id] == menu && menu.id in direct && Halts(t, menu.parent)
    requires Closed(allowed, t) && Needed(allowed, direct, t) && allowed <= t.Keys
    ensures Closed(more, t) && Needed(more, direct, t) && allowed + {menu.id} <= more <= t.Keys
  {
    more := allowed + {menu.id};
    var parent := menu.parent;
    ghost var left: nat :| Walk(t, parent, left).None?;
    while parent.Some?
      invariant allowed + {menu.id} <= more <= t.Keys && Needed(more, direct, t)
      invariant parent.Some? && parent.value in t ==> Needed({parent.value}, direct, t)
      invariant forall id :: id in more && t[id].parent.Some? && t[id].parent.value in t ==>
        t[id].parent.value in more || t[id].parent == parent
      invariant Walk(t, parent, left).None?
      decreases left, parent.Some?
    {
      if parent.value !in t || !t[parent.value].active || t[parent.value].deleted { break; }
      var parentMenu := t[parent.value];
      more := more + {parentMenu.id};
      parent := parentMenu.parent;
      left := left - 1;
    }
  }

  /** ResolveAccessibleMenus, on graphs where the walks end: the active menus, in their order, whose
      ids are exactly the permitted ones and their active ancestors. */
  method ResolveAccessibleMenus(activeMenus: seq<Menu>, resources: seq<string>) returns (ret: seq<Menu>)
    requires ActiveList(activeMenus)
    requires forall m :: m in activeMenus && m.name in resources ==> Halts(ById(activeMenus), m.parent)
    ensures IsAccess(IdSet(ret), DirectIds(activeMenus, resources), ById(activeMenus))
    ensures AllFrom(ret, ById(activeMenus)) && Lists(ret, IdSet(ret))
  {
    if |activeMenus| == 0 || |resources| == 0 {
      assert IdSet([]) == {} == DirectIds(activeMenus, resources);
      return [];
    }
    var menuById, menuByName := Index(activeMenus);
    var allowed := AllowedIds(activeMenus, resources, menuById, menuByName);
    ret := Select(activeMenus, allowed);
  }

  method AllowedIds(activeMenus: seq<Menu>, resources: seq<string>, menuById: Table, menuByName: map<string, Menu>)
    returns (allowed: set<Id>)
    requires ActiveList(activeMenus) && menuById == ById(activeMenus) && menuByName == ByName(activeMenus)
    requires forall m :: m in activeMenus && m.name in resources ==> Halts(menuById, m.parent)
    ensures IsAccess(allowed, DirectIds(activeMenus, resources), menuById) && allowed <= menuById.Keys
  {
    ghost var direct := DirectIds(activeMenus, resources);
    ByIdIs(activeMenus);
    allowed := {};
    for i := 0 to |resources|
      invariant Closed(allowed, menuById) && Needed(allowed, direct, menuById) && allowed <= menuById.Keys
      invariant DirectIds(activeMenus, resources[..i]) <= allowed
    {
      assert resources[..i + 1] == resources[..i] + [resources[i]];
      assert forall m :: m in activeMenus && m.name in resources[..i + 1] ==>
        m.name in resources[..i] || m.name == resources[i];
      ByNameIs(activeMenus, resources[i]);
      if resources[i] in menuByName {
        var menu := menuByName[resources[i]];
        assert menu in activeMenus && menu.name in resources && menu.id in direct;
        allowed := WalkUp(menuById, allowed, menu, direct);
      }
    }
    assert resources[..|resources|] == resources;
  }

  method Index(menus: seq<Menu>) returns (byId: Table, byName: map<string, Menu>)
    ensures byId == ById(menus) && byName == ByName(menus)
  {
    byId, byName := map[], map[];
    for i := 0 to |menus|
      invariant byId == ById(menus[..i]) && byName == ByName(menus[..i])
    {
      assert menus[..i + 1][..i] == menus[..i];
      byId, byName := byId[menus[i].id := menus[i]], byName[menus[i].name := menus[i]];
    }
    assert menus[..|menus|] == menus;
  }

  /** The menus whose id is allowed, in their order. */
  method Select(menus: seq<Menu>, allowed: set<Id>) returns (ret: seq<Menu>)
    requires ActiveList(menus) && allowed <= IdSet(menus)
    ensures IdSet(ret) == allowed && Lists(ret, allowed) && AllFrom(ret, ById(menus))
  {
    ret := [];
    for i := 0 to |menus|
      invariant forall m :: m in ret <==> m in menus[..i] && m.id in allowed
      invariant forall j, k :: 0 <= j < k < |ret| ==> ret[j].id != ret[k].id
    {
      assert menus[..i + 1] == menus[..i] + [menus[i]];
      if menus[i].id in allowed {
        forall j | 0 <= j < |ret| ensures ret[j].id != menus[i].id {
          assert ret[j] in ret;
        }
        ret := ret + [menus[i]];
      }
    }
    assert menus[..|menus|] == menus;
    ByIdIs(menus);
    assert IdSet(ret) == allowed by {
      forall id | id in allowed ensures id in IdSet(ret) {
        var m :| m in menus && m.id == id;
        assert m in ret;
      }
    }
  }

  /** The worklist and the walks give the same menus: both are the access set of the permitted ones. */
  lemma BothGiveTheSame(activeMenus: seq<Menu>, resources: seq<string>, worklist: seq<Menu>, walks: seq<Menu>)
    requires IsAccess(IdSet(worklist), DirectIds(activeMenus, resources), ById(activeMenus))
    requires IsAccess(IdSet(walks), DirectIds(activeMenus, resources), ById(activeMenus))
    requires AllFrom(worklist, ById(activeMenus)) && AllFrom(walks, ById(activeMenus))
    ensures forall m :: m in worklist <==> m in walks
  {
    AccessIsUnique(IdSet(worklist), IdSet(walks), DirectIds(activeMenus, resources), ById(activeMenus));
    forall m | m in worklist || m in walks ensures m in worklist && m in walks {
      assert m.id in IdSet(worklist) && m.id in IdSet(walks);
    }
  }

  /** Both ways on one list of menus: the worklist starts from the permitted rows, as the permission
      query answers, and the walks from the names; they end with the same menus. */
  method ResolveBothWays(activeMenus: seq<Menu>, resources: seq<string>) returns (worklist: seq<Menu>, walks: seq<Menu>)
    requires ActiveList(activeMenus)
    requires forall m :: m in activeMenus && m.name in resources ==> Halts(ById(activeMenus), m.parent)
    ensures forall m :: m in worklist <==> m in walks
    ensures |worklist| == |walks|
  {
    ByIdIs(activeMenus);
    var table, names := Index(activeMenus);
    var direct := Select(activeMenus, DirectIds(activeMenus, resources));
    worklist := GetUserMenus(direct, table);
    walks := ResolveAccessibleMenus(activeMenus, resources);
    BothGiveTheSame(activeMenus, resources, worklist, walks);
    SameLength(worklist, walks);
  }

  lemma {:induction false} IdCount(menus: seq<Menu>)
    requires forall i, j :: 0 <= i < j < |menus| ==> menus[i].id != menus[j].id
    ensures |IdSet(menus)| == |menus|
  {
    if menus != [] {
      var front, last := menus[..|menus| - 1], menus[|menus| - 1];
      IdCount(front);
      assert menus == front + [last];
      assert IdSet(menus) == IdSet(front) + {last.id};
    }
  }

  lemma SameLength(a: seq<Menu>, b: seq<Menu>)
    requires Lists(a, IdSet(a)) && Lists(b, IdSet(b)) && forall m :: m in a <==> m in b
    ensures |a| == |b|
  {
    assert IdSet(a) == IdSet(b);
    IdCount(a);
    IdCount(b);
  }
}
