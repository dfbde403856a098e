/**
 * The handlers that apply server state to the store: "update", "remove",
 * "addPlayer", "addObject" and "featureChange".  Each walks the children of
 * the message in order; each is written here as a left fold over the
 * children, the shape of the Java loop, so that the loops of
 * `InGameInputHandler` can be proved against them child by child.
 */
module Apply {
  import opened Dom
  import opened GameStore

  // ---------------------------------------------------------------------
  // Children and their identifiers

  /** The identifiers the children of a message carry. */
  function ChildIds(kids: seq<Element>): (ids: set<Id>)
    ensures forall id :: id in ids <==> exists i :: 0 <= i < |kids| && ReadId(kids[i]) == id
  {
    if kids == [] then {}
    else
      var p := kids[..|kids| - 1];
      assert forall i :: 0 <= i < |p| ==> p[i] == kids[i];
      ChildIds(p) + {ReadId(kids[|kids| - 1])}
  }

  /** The last child carrying identifier `id`. */
  function LastWithId(kids: seq<Element>, id: Id): (r: Option<Element>)
    ensures r.Some? <==> id in ChildIds(kids)
    ensures r.Some? ==> ReadId(r.value) == id
  {
    if kids == [] then None
    else if ReadId(kids[|kids| - 1]) == id then Some(kids[|kids| - 1])
    else LastWithId(kids[..|kids| - 1], id)
  }

  /** The work every "update" and "remove" ends with: one invalidation if needed, then a repaint. */
  function Closing(my: Id, visibilityChange: bool): seq<Effect>
  {
    (if visibilityChange then [InvalidateCanSeeTiles(my)] else []) + [RefreshCanvas(false)]
  }

  lemma CountOfAbsent(x: Effect, es: seq<Effect>)
    requires x !in es
    ensures CountOf(x, es) == 0
  {
    if es != [] {
      assert es[|es| - 1] in es;
      assert forall y :: y in es[..|es| - 1] ==> y in es;
      CountOfAbsent(x, es[..|es| - 1]);
    }
  }

  lemma ClosingInvalidatesOnce(my: Id, vis: bool)
    ensures CountOf(InvalidateCanSeeTiles(my), Closing(my, vis)) == if vis then 1 else 0
  {
    var x := InvalidateCanSeeTiles(my);
    if vis {
      assert Closing(my, vis) == [x] + [RefreshCanvas(false)];
      CountOfAppend(x, [x], [RefreshCanvas(false)]);
      assert [x][..0] == [];
      assert [RefreshCanvas(false)][..0] == [];
    } else {
      assert Closing(my, vis)[..0] == [];
    }
  }

  // ---------------------------------------------------------------------
  // "update"

  /**
   * Whether an object, as it is after the update, changes what my player
   * can see: it is my player, or a settlement or unit my player owns.
   */
  predicate SeesChange(my: Id, id: Id, o: GameObject)
  {
    (o.kind == PlayerKind && id == my)
    || ((IsSettlement(o.kind) || o.kind == UnitKind) && o.owner == my)
  }

  /** One child of "update": a known object reads itself from it; an unknown identifier changes nothing. */
  function UpdateChild(my: Id, objects: Store, e: Element): (Store, bool)
  {
    var id := ReadId(e);
    match Lookup(objects, id)
    case None => (objects, false)
    case Some(fcgo) =>
      var o := ReadFrom(fcgo, e);
      (objects[id := o], SeesChange(my, id, o))
  }

  /** The children of "update" in order: the store and the `visibilityChange` flag afterwards. */
  function UpdateAll(my: Id, objects: Store, kids: seq<Element>): (r: (Store, bool))
    ensures r.0.Keys == objects.Keys
  {
    if kids == [] then (objects, false)
    else
      var prev := UpdateAll(my, objects, kids[..|kids| - 1]);
      var next := UpdateChild(my, prev.0, kids[|kids| - 1]);
      (next.0, prev.1 || next.1)
  }

  /** The fold of "update" one child further. */
  lemma UpdateAllStep(my: Id, objects: Store, kids: seq<Element>, i: nat)
    requires i < |kids|
    ensures var prev := UpdateAll(my, objects, kids[..i]);
      var next := UpdateChild(my, prev.0, kids[i]);
      UpdateAll(my, objects, kids[..i + 1]) == (next.0, prev.1 || next.1)
  {
    var k := kids[..i + 1];
    assert k[..|k| - 1] == kids[..i];
    assert k[|k| - 1] == kids[i];
  }

  /** "update": apply every child, then invalidate my player's visible tiles if needed, then repaint. */
  function UpdateSpec(cfg: Config, s: Client, m: Element): Client
  {
    var r := UpdateAll(cfg.myPlayer, s.objects, m.children);
    s.(objects := r.0, effects := s.effects + Closing(cfg.myPlayer, r.1))
  }

  /**
   * Whether a child of "update" affects my player's view, judged on the
   * store as it was before the message.
   */
  predicate Qualifies(my: Id, objects: Store, e: Element)
  {
    var id := ReadId(e);
    Live(objects, id) && SeesChange(my, id, ReadFrom(objects[id], e))
  }

  /** The entry `id` after "update", as a function of the store before it. */
  function UpdatedEntry(objects: Store, kids: seq<Element>, id: Id): GameObject
    requires id in objects
  {
    if Live(objects, id) && LastWithId(kids, id).Some?
    then ReadFrom(objects[id], LastWithId(kids, id).value)
    else objects[id]
  }

  lemma {:induction false} UpdateAllAt(my: Id, objects: Store, kids: seq<Element>, id: Id)
    requires id in objects
    ensures UpdateAll(my, objects, kids).0[id] == UpdatedEntry(objects, kids, id)
  {
    if kids != [] {
      var p := kids[..|kids| - 1];
      var k := kids[|kids| - 1];
      UpdateAllAt(my, objects, p, id);
      if ReadId(k) == id && Live(objects, id) {
        ReadFromTwice(objects[id], if LastWithId(p, id).Some? then LastWithId(p, id).value else k, k);
      }
    }
  }

  /**
   * After "update", every live object named by some child has read itself
   * from the last child naming it; every other entry is as it was; no entry
   * appears, disappears, changes class or stops resolving.
   */
  lemma UpdateAllResult(my: Id, objects: Store, kids: seq<Element>)
    ensures var r := UpdateAll(my, objects, kids).0;
      && r.Keys == objects.Keys
      && (forall id :: id in objects ==> r[id] == UpdatedEntry(objects, kids, id))
      && (forall id :: Live(r, id) <==> Live(objects, id))
      && (forall id :: id in objects ==> r[id].kind == objects[id].kind)
  {
    forall id | id in objects
      ensures UpdateAll(my, objects, kids).0[id] == UpdatedEntry(objects, kids, id)
    {
      UpdateAllAt(my, objects, kids, id);
    }
  }

  /**
   * The `visibilityChange` flag of "update" is set exactly when some child
   * resolved to my player, or to a settlement or unit that my player owns.
   */
  lemma {:induction false} UpdateVisibility(my: Id, objects: Store, kids: seq<Element>)
    ensures UpdateAll(my, objects, kids).1 <==>
      exists i :: 0 <= i < |kids| && Qualifies(my, objects, kids[i])
  {
    if kids != [] {
      var p := kids[..|kids| - 1];
      var k := kids[|kids| - 1];
      UpdateVisibility(my, objects, p);
      var prev := UpdateAll(my, objects, p).0;
      var id := ReadId(k);
      if id in objects {
        UpdateAllAt(my, objects, p, id);
      }
      assert UpdateChild(my, prev, k).1 == Qualifies(my, objects, k);
      ExistsSplit(my, objects, kids, p);
    }
  }

  lemma ExistsSplit(my: Id, objects: Store, kids: seq<Element>, p: seq<Element>)
    requires kids != [] && p == kids[..|kids| - 1]
    ensures (exists i :: 0 <= i < |kids| && Qualifies(my, objects, kids[i])) <==>
      (exists i :: 0 <= i < |p| && Qualifies(my, objects, p[i])) || Qualifies(my, objects, kids[|kids| - 1])
  {
    assert forall i :: 0 <= i < |p| ==> p[i] == kids[i];
  }

  /**
   * "update" invalidates my player's visible tiles at most once, and exactly
   * when some child qualifies; the only other work it hands over is one repaint.
   */
  lemma UpdateInvalidatesOnce(cfg: Config, s: Client, m: Element)
    ensures var s' := UpdateSpec(cfg, s, m);
      var vis := exists i :: 0 <= i < |m.children| && Qualifies(cfg.myPlayer, s.objects, m.children[i]);
      && s'.effects == s.effects + Closing(cfg.myPlayer, vis)
      && CountOf(InvalidateCanSeeTiles(cfg.myPlayer), s'.effects[|s.effects|..]) == (if vis then 1 else 0)
      && s'.currentPlayer == s.currentPlayer && s'.activeUnit == s.activeUnit
  {
    UpdateVisibility(cfg.myPlayer, s.objects, m.children);
    var s' := UpdateSpec(cfg, s, m);
    var vis := UpdateAll(cfg.myPlayer, s.objects, m.children).1;
    assert s'.effects[|s.effects|..] == Closing(cfg.myPlayer, vis);
    ClosingInvalidatesOnce(cfg.myPlayer, vis);
  }

  // ---------------------------------------------------------------------
  // "remove"

  /** The loop state of "remove": store, GUI active unit, work handed over, `visibilityChange`. */
  datatype RemoveAcc = RemoveAcc(objects: Store, active: Option<Id>, effects: seq<Effect>, vis: bool)

  /**
   * `getOwner().removeSettlement(..)` or `removeUnit(..)`: the owner loses
   * the object from its collection, even when an earlier child of the same
   * message has already disposed the owner.
   */
  function Detach(objects: Store, owner: Id, id: Id, settlement: bool): (r: Store)
    ensures r.Keys == objects.Keys
  {
    if !PlayerEntry(objects, owner) then objects
    else
      var p := objects[owner];
      objects[owner := if settlement then p.(settlements := p.settlements - {id}) else p.(units := p.units - {id})]
  }

  /** `disposeResources`: the object no longer resolves. */
  function Dispose(objects: Store, id: Id): (r: Store)
    requires id in objects
    ensures r.Keys == objects.Keys
  {
    objects[id := objects[id].(disposed := true)]
  }

  /**
   * One child of "remove".  An unknown identifier is skipped silently.  A
   * known object has its messages diverted (when the message names a live
   * "divert" object); a settlement or unit leaves its owner's collection and
   * sets `visibilityChange`, and a unit that is the GUI's active unit is
   * deselected first; every known object is disposed.
   */
  function RemoveChild(divert: Option<Id>, acc: RemoveAcc, e: Element): (r: RemoveAcc)
    ensures r.objects.Keys == acc.objects.Keys
  {
    var id := ReadId(e);
    match Lookup(acc.objects, id)
    case None => acc
    case Some(fcgo) =>
      var diverted := acc.effects + (if divert.Some? then [DivertModelMessages(id, divert.value)] else []);
      if IsSettlement(fcgo.kind) then
        RemoveAcc(Dispose(Detach(acc.objects, fcgo.owner, id, true), id), acc.active, diverted, true)
      else if fcgo.kind == UnitKind then
        var deselect := acc.active == Some(id);
        RemoveAcc(Dispose(Detach(acc.objects, fcgo.owner, id, false), id),
                  if deselect then None else acc.active,
                  diverted + (if deselect then [DeselectActiveUnit] else []),
                  true)
      else
        RemoveAcc(Dispose(acc.objects, id), acc.active, diverted, acc.vis)
  }

  function RemoveAll(divert: Option<Id>, acc: RemoveAcc, kids: seq<Element>): (r: RemoveAcc)
    ensures r.objects.Keys == acc.objects.Keys
  {
    if kids == [] then acc
    else RemoveChild(divert, RemoveAll(divert, acc, kids[..|kids| - 1]), kids[|kids| - 1])
  }

  /** The fold of "remove" one child further. */
  lemma RemoveAllStep(divert: Option<Id>, acc: RemoveAcc, kids: seq<Element>, i: nat)
    requires i < |kids|
    ensures RemoveAll(divert, acc, kids[..i + 1]) == RemoveChild(divert, RemoveAll(divert, acc, kids[..i]), kids[i])
  {
    var k := kids[..i + 1];
    assert k[..|k| - 1] == kids[..i];
    assert k[|k| - 1] == kids[i];
  }

  /** One child of "remove" extends the work handed over and `visibilityChange`, and depends on neither. */
  lemma RemoveChildShift(divert: Option<Id>, acc: RemoveAcc, e: Element)
    ensures var r := RemoveChild(divert, RemoveAcc(acc.objects, acc.active, [], false), e);
      RemoveChild(divert, acc, e) == RemoveAcc(r.objects, r.active, acc.effects + r.effects, acc.vis || r.vis)
  {
  }

  /** The "divert" object of a "remove" message, resolved once before the children. */
  function DivertOf(objects: Store, m: Element): Option<Id>
  {
    var ds := Attr(m, "divert");
    if Live(objects, ds) then Some(ds) else None
  }

  /** "remove": remove every child, then invalidate my player's visible tiles if needed, then repaint. */
  function RemoveSpec(cfg: Config, s: Client, m: Element): Client
  {
    var acc := RemoveAll(DivertOf(s.objects, m), RemoveAcc(s.objects, s.activeUnit, [], false), m.children);
    s.(objects := acc.objects, activeUnit := acc.active,
       effects := s.effects + acc.effects + Closing(cfg.myPlayer, acc.vis))
  }

  /** A live settlement or unit, in the store before the message. */
  predicate SettlementOrUnit(objects: Store, id: Id)
  {
    Live(objects, id) && (IsSettlement(objects[id].kind) || objects[id].kind == UnitKind)
  }

  /** Detaching changes no entry's class, owner or disposal. */
  lemma DetachAt(objects: Store, owner: Id, id: Id, settlement: bool, q: Id)
    requires q in objects
    ensures var r := Detach(objects, owner, id, settlement);
      r[q].kind == objects[q].kind && r[q].owner == objects[q].owner && r[q].disposed == objects[q].disposed
  {
  }

  /** One child of "remove" changes no class or owner, and disposes exactly the live object it names. */
  lemma RemoveChildAt(divert: Option<Id>, acc: RemoveAcc, e: Element, id: Id)
    requires id in acc.objects
    ensures var r := RemoveChild(divert, acc, e).objects;
      && r[id].kind == acc.objects[id].kind
      && r[id].owner == acc.objects[id].owner
      && (Live(r, id) <==> Live(acc.objects, id) && id != ReadId(e))
  {
    var j := ReadId(e);
    if Live(acc.objects, j) {
      var o := acc.objects[j];
      var b := IsSettlement(o.kind);
      DetachAt(acc.objects, o.owner, j, b, id);
      DetachAt(acc.objects, o.owner, j, b, j);
    }
  }

  /**
   * "remove" changes no entry's class or owner, and the entry `id` stops
   * resolving exactly when it was live and some child names it.
   */
  lemma {:induction false} RemoveAllAt(divert: Option<Id>, acc: RemoveAcc, kids: seq<Element>, id: Id)
    requires id in acc.objects
    ensures var r := RemoveAll(divert, acc, kids).objects;
      && r[id].kind == acc.objects[id].kind
      && r[id].owner == acc.objects[id].owner
      && (Live(r, id) <==> Live(acc.objects, id) && id !in ChildIds(kids))
  {
    if kids != [] {
      var p := kids[..|kids| - 1];
      RemoveAllAt(divert, acc, p, id);
      RemoveChildAt(divert, RemoveAll(divert, acc, p), kids[|kids| - 1], id);
    }
  }

  /** One child of "remove" sets the flag exactly when it names a live settlement or unit. */
  lemma RemoveChildVisibility(divert: Option<Id>, acc: RemoveAcc, e: Element)
    ensures RemoveChild(divert, acc, e).vis == (acc.vis || SettlementOrUnit(acc.objects, ReadId(e)))
  {
  }

  lemma ExistsSettlementOrUnitSplit(objects: Store, kids: seq<Element>, p: seq<Element>)
    requires kids != [] && p == kids[..|kids| - 1]
    ensures (exists i :: 0 <= i < |kids| && SettlementOrUnit(objects, ReadId(kids[i]))) <==>
      (exists i :: 0 <= i < |p| && SettlementOrUnit(objects, ReadId(p[i])))
      || SettlementOrUnit(objects, ReadId(kids[|kids| - 1]))
  {
    assert forall i :: 0 <= i < |p| ==> p[i] == kids[i];
  }

  /** The flag of "remove" is set exactly when some child named a live settlement or unit. */
  lemma {:induction false} RemoveAllVisibility(divert: Option<Id>, acc: RemoveAcc, kids: seq<Element>)
    ensures RemoveAll(divert, acc, kids).vis <==>
      acc.vis || exists i :: 0 <= i < |kids| && SettlementOrUnit(acc.objects, ReadId(kids[i]))
  {
    if kids != [] {
      var p := kids[..|kids| - 1];
      var k := kids[|kids| - 1];
      RemoveAllVisibility(divert, acc, p);
      RemoveChildVisibility(divert, RemoveAll(divert, acc, p), k);
      ExistsSettlementOrUnitSplit(acc.objects, kids, p);
      var id := ReadId(k);
      if id in acc.objects {
        RemoveAllAt(divert, acc, p, id);
        if id in ChildIds(p) && SettlementOrUnit(acc.objects, id) {
          var i :| 0 <= i < |p| && ReadId(p[i]) == id;
          assert SettlementOrUnit(acc.objects, ReadId(p[i]));
        }
      }
    }
  }

  /** The only work "remove" hands over while walking the children: diversions and deselections. */
  lemma {:induction false} RemoveAllEffects(divert: Option<Id>, acc: RemoveAcc, kids: seq<Element>)
    requires forall x :: x in acc.effects ==> x.DivertModelMessages? || x.DeselectActiveUnit?
    ensures forall x :: x in RemoveAll(divert, acc, kids).effects ==> x.DivertModelMessages? || x.DeselectActiveUnit?
  {
    if kids != [] {
      RemoveAllEffects(divert, acc, kids[..|kids| - 1]);
    }
  }

  /** The entry `id` after "remove" may differ from `o` only in its disposal and its two collections. */
  predicate RemovedEntry(o: GameObject, r: GameObject, disposed: bool)
  {
    r == o.(disposed := disposed, units := r.units, settlements := r.settlements)
  }

  /**
   * One child of "remove" disposes the live object it names, changes only
   * the collections of its owner, a player entry, and touches nothing else.
   */
  lemma RemoveChildFrame(divert: Option<Id>, acc: RemoveAcc, e: Element, id: Id)
    requires id in acc.objects
    ensures var r := RemoveChild(divert, acc, e).objects;
      var o := acc.objects[id];
      && RemovedEntry(o, r[id], o.disposed || (Live(acc.objects, id) && id == ReadId(e)))
      && (!PlayerEntry(acc.objects, id) ==> r[id].units == o.units && r[id].settlements == o.settlements)
  {
    var j := ReadId(e);
    var o := acc.objects[id];
    if Live(acc.objects, j) {
      var f := acc.objects[j];
      var detached := Detach(acc.objects, f.owner, j, IsSettlement(f.kind));
      assert detached[id] == o || (id == f.owner && PlayerEntry(acc.objects, id) && RemovedEntry(o, detached[id], o.disposed));
      if IsSettlement(f.kind) || f.kind == UnitKind {
        assert RemoveChild(divert, acc, e).objects == Dispose(detached, j);
      } else {
        assert RemoveChild(divert, acc, e).objects == Dispose(acc.objects, j);
      }
    }
  }

  /**
   * "remove" disposes exactly the live objects the children name, changes
   * only the collections of player entries besides, disposed or not, and leaves every other
   * field of every entry as it was.
   */
  lemma {:induction false} RemoveAllFrame(divert: Option<Id>, acc: RemoveAcc, kids: seq<Element>, id: Id)
    requires id in acc.objects
    ensures var r := RemoveAll(divert, acc, kids).objects;
      var o := acc.objects[id];
      && RemovedEntry(o, r[id], o.disposed || (Live(acc.objects, id) && id in ChildIds(kids)))
      && (!PlayerEntry(acc.objects, id) ==> r[id].units == o.units && r[id].settlements == o.settlements)
  {
    if kids != [] {
      var p := kids[..|kids| - 1];
      var k := kids[|kids| - 1];
      assert ChildIds(kids) == ChildIds(p) + {ReadId(k)};
      var prev := RemoveAll(divert, acc, p);
      RemoveAllFrame(divert, acc, p, id);
      RemoveAllAt(divert, acc, p, id);
      RemoveChildFrame(divert, prev, k, id);
    }
  }

  /** Whether "remove" removes the GUI's active unit: it is a live unit that some child names. */
  predicate DeselectsActive(objects: Store, active: Option<Id>, kids: seq<Element>)
  {
    active.Some? && active.value in ChildIds(kids) && Live(objects, active.value) && objects[active.value].kind == UnitKind
  }

  /** "remove" deselects the active unit exactly when it removes it, and otherwise keeps it. */
  lemma {:induction false} RemoveAllActive(divert: Option<Id>, acc: RemoveAcc, kids: seq<Element>)
    ensures RemoveAll(divert, acc, kids).active ==
      if DeselectsActive(acc.objects, acc.active, kids) then None else acc.active
  {
    if kids != [] {
      var p := kids[..|kids| - 1];
      var j := ReadId(kids[|kids| - 1]);
      assert ChildIds(kids) == ChildIds(p) + {j};
      RemoveAllActive(divert, acc, p);
      if j in acc.objects {
        RemoveAllAt(divert, acc, p, j);
      }
    }
  }

  /**
   * The work "remove" hands over while walking the children: one diversion
   * of model messages to the "divert" object per live object the children
   * name, when there is such an object, and one deselection when it removes
   * the active unit; nothing else.
   */
  predicate RemoveWork(divert: Option<Id>, objects: Store, active: Option<Id>, kids: seq<Element>, x: Effect)
  {
    || (x == DeselectActiveUnit && DeselectsActive(objects, active, kids))
    || (x.DivertModelMessages? && divert == Some(x.divert) && Live(objects, x.source) && x.source in ChildIds(kids))
  }

  lemma {:induction false} RemoveAllWork(divert: Option<Id>, acc: RemoveAcc, kids: seq<Element>)
    ensures var r := RemoveAll(divert, acc, kids);
      && |acc.effects| <= |r.effects| && r.effects[..|acc.effects|] == acc.effects
      && forall x :: x in r.effects[|acc.effects|..] <==> RemoveWork(divert, acc.objects, acc.active, kids, x)
  {
    if kids != [] {
      var p := kids[..|kids| - 1];
      var k := kids[|kids| - 1];
      var j := ReadId(k);
      var prev := RemoveAll(divert, acc, p);
      var c := RemoveChild(divert, RemoveAcc(prev.objects, prev.active, [], false), k);
      RemoveAllWork(divert, acc, p);
      RemoveAllEffectsSplit(divert, acc, kids);
      PrefixAppend(acc.effects, prev.effects, c.effects);
      RemoveAllActive(divert, acc, p);
      if j in acc.objects {
        RemoveAllAt(divert, acc, p, j);
      }
      RemoveChildWork(divert, prev.objects, prev.active, k);
      assert ChildIds(kids) == ChildIds(p) + {j};
      RemoveWorkStep(divert, acc, kids, prev.objects, prev.active, prev.effects[|acc.effects|..], c.effects);
    }
  }

  /** The last child of "remove" appends its own work to what the children before it handed over. */
  lemma RemoveAllEffectsSplit(divert: Option<Id>, acc: RemoveAcc, kids: seq<Element>)
    requires kids != []
    ensures var prev := RemoveAll(divert, acc, kids[..|kids| - 1]);
      var c := RemoveChild(divert, RemoveAcc(prev.objects, prev.active, [], false), kids[|kids| - 1]);
      RemoveAll(divert, acc, kids).effects == prev.effects + c.effects
  {
    RemoveChildShift(divert, RemoveAll(divert, acc, kids[..|kids| - 1]), kids[|kids| - 1]);
  }

  lemma PrefixAppend(a: seq<Effect>, b: seq<Effect>, c: seq<Effect>)
    requires |a| <= |b| && b[..|a|] == a
    ensures (b + c)[..|a|] == a && (b + c)[|a|..] == b[|a|..] + c
  {
    assert (b + c)[..|a|] == b[..|a|];
  }

  /** The work one child of "remove" hands over: its diversion and, for the active unit, its deselection. */
  lemma RemoveChildWork(divert: Option<Id>, objects: Store, active: Option<Id>, e: Element)
    ensures var j := ReadId(e);
      forall x :: x in RemoveChild(divert, RemoveAcc(objects, active, [], false), e).effects <==>
        || (x == DeselectActiveUnit && active == Some(j) && Live(objects, j) && objects[j].kind == UnitKind)
        || (x.DivertModelMessages? && divert == Some(x.divert) && x.source == j && Live(objects, j))
  {
  }

  /** The work one child of "remove" hands over, written out: its diversion, then its deselection. */
  function ChildWork(divert: Option<Id>, objects: Store, active: Option<Id>, j: Id): seq<Effect>
  {
    if !Live(objects, j) then []
    else
      (if divert.Some? then [DivertModelMessages(j, divert.value)] else [])
      + (if active == Some(j) && objects[j].kind == UnitKind then [DeselectActiveUnit] else [])
  }

  lemma RemoveChildEffects(divert: Option<Id>, objects: Store, active: Option<Id>, e: Element)
    ensures RemoveChild(divert, RemoveAcc(objects, active, [], false), e).effects == ChildWork(divert, objects, active, ReadId(e))
  {
    var j := ReadId(e);
    if Live(objects, j) && objects[j].kind != UnitKind {
      assert ChildWork(divert, objects, active, j) == (if divert.Some? then [DivertModelMessages(j, divert.value)] else []) + [];
    }
  }

  /** How often one child of "remove" diverts the messages of `id` and deselects the active unit. */
  lemma RemoveChildCounts(divert: Option<Id>, objects: Store, active: Option<Id>, j: Id, id: Id, d: Id)
    ensures var c := ChildWork(divert, objects, active, j);
      && CountOf(DivertModelMessages(id, d), c) == (if divert == Some(d) && id == j && Live(objects, j) then 1 else 0)
      && CountOf(DeselectActiveUnit, c) == (if active == Some(j) && Live(objects, j) && objects[j].kind == UnitKind then 1 else 0)
  {
    var c := ChildWork(divert, objects, active, j);
    var x := DivertModelMessages(id, d);
    var y := DeselectActiveUnit;
    if Live(objects, j) {
      var deselect := active == Some(j) && objects[j].kind == UnitKind;
      if divert.Some? && deselect {
        assert c == [DivertModelMessages(j, divert.value), y];
        CountOfPair(x, DivertModelMessages(j, divert.value), y);
        CountOfPair(y, DivertModelMessages(j, divert.value), y);
      } else if divert.Some? {
        assert c == [DivertModelMessages(j, divert.value)];
        CountOfAtMostOne(x, c);
        CountOfAtMostOne(y, c);
      } else if deselect {
        assert c == [y];
        CountOfAtMostOne(x, c);
        CountOfAtMostOne(y, c);
      } else {
        assert c == [];
      }
    }
  }

  lemma CountOfPair(x: Effect, a: Effect, b: Effect)
    ensures CountOf(x, [a, b]) == (if a == x then 1 else 0) + (if b == x then 1 else 0)
  {
    assert [a, b][..1] == [a];
    CountOfAtMostOne(x, [a]);
  }

  lemma CountOfAtMostOne(x: Effect, es: seq<Effect>)
    requires |es| <= 1
    ensures CountOf(x, es) == if es != [] && es[0] == x then 1 else 0
  {
    if es != [] {
      assert es[..0] == [];
    }
  }

  /**
   * The work "remove" hands over while walking the children holds one
   * diversion for each live object the children name, however often they
   * name it, and one deselection exactly when it removes the active unit.
   */
  lemma {:induction false} RemoveWorkCounts(divert: Option<Id>, acc: RemoveAcc, kids: seq<Element>, id: Id, d: Id)
    ensures var r := RemoveAll(divert, acc, kids);
      && |acc.effects| <= |r.effects|
      && CountOf(DivertModelMessages(id, d), r.effects[|acc.effects|..]) ==
           (if divert == Some(d) && Live(acc.objects, id) && id in ChildIds(kids) then 1 else 0)
      && CountOf(DeselectActiveUnit, r.effects[|acc.effects|..]) ==
           (if DeselectsActive(acc.objects, acc.active, kids) then 1 else 0)
  {
    RemoveAllPrefix(divert, acc, kids);
    if kids != [] {
      var p := kids[..|kids| - 1];
      var k := kids[|kids| - 1];
      var j := ReadId(k);
      var prev := RemoveAll(divert, acc, p);
      var c := RemoveChild(divert, RemoveAcc(prev.objects, prev.active, [], false), k);
      RemoveWorkCounts(divert, acc, p, id, d);
      RemoveAllPrefix(divert, acc, p);
      RemoveAllEffectsSplit(divert, acc, kids);
      PrefixAppend(acc.effects, prev.effects, c.effects);
      RemoveChildEffects(divert, prev.objects, prev.active, k);
      RemoveChildCounts(divert, prev.objects, prev.active, j, id, d);
      RemoveAllActive(divert, acc, p);
      if j in acc.objects {
        RemoveAllAt(divert, acc, p, j);
      }
      assert ChildIds(kids) == ChildIds(p) + {j};
      RemoveCountsStep(divert, acc, kids, prev.objects, prev.active, prev.effects[|acc.effects|..], c.effects, id, d);
    }
  }

  /** "remove" keeps the work handed over before the children. */
  lemma RemoveAllPrefix(divert: Option<Id>, acc: RemoveAcc, kids: seq<Element>)
    ensures var r := RemoveAll(divert, acc, kids);
      |acc.effects| <= |r.effects| && r.effects[..|acc.effects|] == acc.effects
  {
    RemoveAllWork(divert, acc, kids);
  }

  /** The induction step of `RemoveWorkCounts`, on the state the children before the last one left. */
  lemma RemoveCountsStep(divert: Option<Id>, acc: RemoveAcc, kids: seq<Element>, prev: Store, active: Option<Id>,
                         before: seq<Effect>, added: seq<Effect>, id: Id, d: Id)
    requires kids != []
    requires var p := kids[..|kids| - 1];
      && CountOf(DivertModelMessages(id, d), before) ==
           (if divert == Some(d) && Live(acc.objects, id) && id in ChildIds(p) then 1 else 0)
      && CountOf(DeselectActiveUnit, before) == (if DeselectsActive(acc.objects, acc.active, p) then 1 else 0)
    requires var j := ReadId(kids[|kids| - 1]);
      && CountOf(DivertModelMessages(id, d), added) == (if divert == Some(d) && id == j && Live(prev, j) then 1 else 0)
      && CountOf(DeselectActiveUnit, added) == (if active == Some(j) && Live(prev, j) && prev[j].kind == UnitKind then 1 else 0)
    requires var p := kids[..|kids| - 1];
      active == if DeselectsActive(acc.objects, acc.active, p) then None else acc.active
    requires var p := kids[..|kids| - 1];
      var j := ReadId(kids[|kids| - 1]);
      && (j in prev <==> j in acc.objects)
      && (j in acc.objects ==>
            prev[j].kind == acc.objects[j].kind && (Live(prev, j) <==> Live(acc.objects, j) && j !in ChildIds(p)))
    requires ChildIds(kids) == ChildIds(kids[..|kids| - 1]) + {ReadId(kids[|kids| - 1])}
    ensures CountOf(DivertModelMessages(id, d), before + added) ==
      (if divert == Some(d) && Live(acc.objects, id) && id in ChildIds(kids) then 1 else 0)
    ensures CountOf(DeselectActiveUnit, before + added) == (if DeselectsActive(acc.objects, acc.active, kids) then 1 else 0)
  {
    CountOfAppend(DivertModelMessages(id, d), before, added);
    CountOfAppend(DeselectActiveUnit, before, added);
  }

  /** The induction step of `RemoveAllWork`, on the state the children before the last one left. */
  lemma RemoveWorkStep(divert: Option<Id>, acc: RemoveAcc, kids: seq<Element>, prev: Store, active: Option<Id>,
                       before: seq<Effect>, added: seq<Effect>)
    requires kids != []
    requires var p := kids[..|kids| - 1];
      forall x :: x in before <==> RemoveWork(divert, acc.objects, acc.active, p, x)
    requires var j := ReadId(kids[|kids| - 1]);
      forall x :: x in added <==>
        || (x == DeselectActiveUnit && active == Some(j) && Live(prev, j) && prev[j].kind == UnitKind)
        || (x.DivertModelMessages? && divert == Some(x.divert) && x.source == j && Live(prev, j))
    requires var p := kids[..|kids| - 1];
      active == if DeselectsActive(acc.objects, acc.active, p) then None else acc.active
    requires var p := kids[..|kids| - 1];
      var j := ReadId(kids[|kids| - 1]);
      && (j in prev <==> j in acc.objects)
      && (j in acc.objects ==>
            prev[j].kind == acc.objects[j].kind && (Live(prev, j) <==> Live(acc.objects, j) && j !in ChildIds(p)))
    requires ChildIds(kids) == ChildIds(kids[..|kids| - 1]) + {ReadId(kids[|kids| - 1])}
    ensures forall x :: x in before + added <==> RemoveWork(divert, acc.objects, acc.active, kids, x)
  {
  }

  /**
   * What "remove" keeps: no entry appears or disappears and none changes
   * class or owner; exactly the live objects the children name stop
   * resolving; the flag is set exactly when some child named a live
   * settlement or unit.
   */
  lemma RemoveAllResult(divert: Option<Id>, acc: RemoveAcc, kids: seq<Element>)
    ensures var r := RemoveAll(divert, acc, kids);
      && r.objects.Keys == acc.objects.Keys
      && (forall id :: id in acc.objects ==>
            r.objects[id].kind == acc.objects[id].kind && r.objects[id].owner == acc.objects[id].owner)
      && (forall id :: Live(r.objects, id) <==> Live(acc.objects, id) && id !in ChildIds(kids))
      && (r.vis <==> acc.vis || exists i :: 0 <= i < |kids| && SettlementOrUnit(acc.objects, ReadId(kids[i])))
      && (forall id :: id in acc.objects ==>
            RemovedEntry(acc.objects[id], r.objects[id],
                         acc.objects[id].disposed || (Live(acc.objects, id) && id in ChildIds(kids))))
      && (forall id :: id in acc.objects && !PlayerEntry(acc.objects, id) ==>
            r.objects[id].units == acc.objects[id].units && r.objects[id].settlements == acc.objects[id].settlements)
      && r.active == (if DeselectsActive(acc.objects, acc.active, kids) then None else acc.active)
      && |acc.effects| <= |r.effects| && r.effects[..|acc.effects|] == acc.effects
      && (forall x :: x in r.effects[|acc.effects|..] <==> RemoveWork(divert, acc.objects, acc.active, kids, x))
  {
    forall id | id in acc.objects
      ensures var r := RemoveAll(divert, acc, kids).objects;
        var o := acc.objects[id];
        && RemovedEntry(o, r[id], o.disposed || (Live(acc.objects, id) && id in ChildIds(kids)))
        && (!PlayerEntry(acc.objects, id) ==> r[id].units == o.units && r[id].settlements == o.settlements)
    {
      RemoveAllFrame(divert, acc, kids, id);
    }
    RemoveAllActive(divert, acc, kids);
    RemoveAllWork(divert, acc, kids);
    forall id | id in acc.objects
      ensures var r := RemoveAll(divert, acc, kids).objects;
        && r[id].kind == acc.objects[id].kind
        && r[id].owner == acc.objects[id].owner
        && (Live(r, id) <==> Live(acc.objects, id) && id !in ChildIds(kids))
    {
      RemoveAllAt(divert, acc, kids, id);
    }
    RemoveAllVisibility(divert, acc, kids);
  }

  /** The settlements (or units) of `p` that the children of "remove" name. */
  function RemovedFrom(objects: Store, kids: seq<Element>, p: Id, settlement: bool): set<Id>
  {
    if kids == [] then {}
    else
      var id := ReadId(kids[|kids| - 1]);
      var hit := Live(objects, id) && objects[id].owner == p
                 && (if settlement then IsSettlement(objects[id].kind) else objects[id].kind == UnitKind);
      RemovedFrom(objects, kids[..|kids| - 1], p, settlement) + (if hit then {id} else {})
  }

  lemma {:induction false} RemovedFromContains(objects: Store, kids: seq<Element>, p: Id, i: nat, settlement: bool)
    requires i < |kids|
    requires var id := ReadId(kids[i]);
      Live(objects, id) && objects[id].owner == p
      && (if settlement then IsSettlement(objects[id].kind) else objects[id].kind == UnitKind)
    ensures ReadId(kids[i]) in RemovedFrom(objects, kids, p, settlement)
  {
    if i < |kids| - 1 {
      assert kids[..|kids| - 1][i] == kids[i];
      RemovedFromContains(objects, kids[..|kids| - 1], p, i, settlement);
    }
  }

  /** A player owning none of the settlements and units the children name loses none from its collections. */
  lemma {:induction false} RemovedFromEmpty(objects: Store, kids: seq<Element>, p: Id, settlement: bool)
    requires forall i :: 0 <= i < |kids| && SettlementOrUnit(objects, ReadId(kids[i])) ==> objects[ReadId(kids[i])].owner != p
    ensures RemovedFrom(objects, kids, p, settlement) == {}
  {
    if kids != [] {
      var pre := kids[..|kids| - 1];
      assert forall i :: 0 <= i < |pre| ==> pre[i] == kids[i];
      RemovedFromEmpty(objects, pre, p, settlement);
    }
  }

  /**
   * An entry that no child names, and that owns none of the settlements and
   * units the children name, is left exactly as it was: unknown and
   * unrelated identifiers are skipped.
   */
  lemma RemoveUntouched(divert: Option<Id>, acc: RemoveAcc, kids: seq<Element>, id: Id)
    requires id in acc.objects && id !in ChildIds(kids)
    requires forall i :: 0 <= i < |kids| && SettlementOrUnit(acc.objects, ReadId(kids[i])) ==>
      acc.objects[ReadId(kids[i])].owner != id
    ensures RemoveAll(divert, acc, kids).objects[id] == acc.objects[id]
  {
    RemoveAllFrame(divert, acc, kids, id);
    if PlayerEntry(acc.objects, id) {
      RemovedFromEmpty(acc.objects, kids, id, false);
      RemovedFromEmpty(acc.objects, kids, id, true);
      RemoveDetaches(divert, acc, kids, id);
    }
  }

  /** What one child of "remove" takes from the collections of a player entry. */
  lemma RemoveChildDetaches(divert: Option<Id>, acc: RemoveAcc, e: Element, p: Id)
    requires PlayerEntry(acc.objects, p)
    ensures var r := RemoveChild(divert, acc, e).objects;
      var j := ReadId(e);
      var mine := Live(acc.objects, j) && acc.objects[j].owner == p;
      && r[p].units == acc.objects[p].units - (if mine && acc.objects[j].kind == UnitKind then {j} else {})
      && r[p].settlements == acc.objects[p].settlements - (if mine && IsSettlement(acc.objects[j].kind) then {j} else {})
  {
  }

  /**
   * Every live settlement and unit that "remove" names leaves its owner's
   * collection, and nothing else does, for every player the store holds:
   * one the message itself removes, before or after its possessions, loses
   * them all the same.
   */
  lemma {:induction false} RemoveDetaches(divert: Option<Id>, acc: RemoveAcc, kids: seq<Element>, p: Id)
    requires PlayerEntry(acc.objects, p)
    ensures var r := RemoveAll(divert, acc, kids).objects;
      && r[p].units == acc.objects[p].units - RemovedFrom(acc.objects, kids, p, false)
      && r[p].settlements == acc.objects[p].settlements - RemovedFrom(acc.objects, kids, p, true)
  {
    if kids != [] {
      var pre := kids[..|kids| - 1];
      var k := kids[|kids| - 1];
      var id := ReadId(k);
      assert ChildIds(kids) == ChildIds(pre) + {id};
      RemoveDetaches(divert, acc, pre, p);
      RemoveAllAt(divert, acc, pre, p);
      var prevAcc := RemoveAll(divert, acc, pre);
      RemoveChildDetaches(divert, prevAcc, k, p);
      if id in acc.objects {
        RemoveAllAt(divert, acc, pre, id);
        if Live(acc.objects, id) && id in ChildIds(pre) && acc.objects[id].owner == p {
          RemoveDetachesAgain(acc.objects, pre, p, id);
        }
      }
      RemoveDetachesStep(acc.objects, prevAcc.objects, RemoveChild(divert, prevAcc, k).objects, kids, p);
    }
  }

  /** The induction step of `RemoveDetaches`, on the stores before, between and after. */
  lemma RemoveDetachesStep(objects: Store, prev: Store, next: Store, kids: seq<Element>, p: Id)
    requires kids != [] && p in objects && p in prev && p in next
    requires var pre := kids[..|kids| - 1];
      && prev[p].units == objects[p].units - RemovedFrom(objects, pre, p, false)
      && prev[p].settlements == objects[p].settlements - RemovedFrom(objects, pre, p, true)
    requires var pre := kids[..|kids| - 1];
      var j := ReadId(kids[|kids| - 1]);
      var mine := Live(prev, j) && prev[j].owner == p;
      && next[p].units == prev[p].units - (if mine && prev[j].kind == UnitKind then {j} else {})
      && next[p].settlements == prev[p].settlements - (if mine && IsSettlement(prev[j].kind) then {j} else {})
    requires var pre := kids[..|kids| - 1];
      var j := ReadId(kids[|kids| - 1]);
      && (j in objects <==> j in prev)
      && (j in objects ==>
            && prev[j].kind == objects[j].kind && prev[j].owner == objects[j].owner
            && (Live(prev, j) <==> Live(objects, j) && j !in ChildIds(pre)))
    requires var pre := kids[..|kids| - 1];
      var j := ReadId(kids[|kids| - 1]);
      Live(objects, j) && j in ChildIds(pre) && objects[j].owner == p ==>
        (objects[j].kind == UnitKind ==> j in RemovedFrom(objects, pre, p, false))
        && (IsSettlement(objects[j].kind) ==> j in RemovedFrom(objects, pre, p, true))
    ensures next[p].units == objects[p].units - RemovedFrom(objects, kids, p, false)
    ensures next[p].settlements == objects[p].settlements - RemovedFrom(objects, kids, p, true)
  {
  }

  /** A child naming an object an earlier child already named detaches nothing new. */
  lemma RemoveDetachesAgain(objects: Store, pre: seq<Element>, p: Id, id: Id)
    requires Live(objects, id) && id in ChildIds(pre) && objects[id].owner == p
    ensures objects[id].kind == UnitKind ==> id in RemovedFrom(objects, pre, p, false)
    ensures IsSettlement(objects[id].kind) ==> id in RemovedFrom(objects, pre, p, true)
  {
    var i :| 0 <= i < |pre| && ReadId(pre[i]) == id;
    if IsSettlement(objects[id].kind) {
      RemovedFromContains(objects, pre, p, i, true);
    } else if objects[id].kind == UnitKind {
      RemovedFromContains(objects, pre, p, i, false);
    }
  }

  /**
   * "remove" invalidates my player's visible tiles at most once, and exactly
   * when some child named a live settlement or unit, whoever owns it; it
   * ends with a repaint; the children's objects are exactly the ones that
   * stop resolving.
   */
  lemma RemoveInvalidatesOnce(cfg: Config, s: Client, m: Element)
    ensures var s' := RemoveSpec(cfg, s, m);
      var vis := exists i :: 0 <= i < |m.children| && SettlementOrUnit(s.objects, ReadId(m.children[i]));
      && CountOf(InvalidateCanSeeTiles(cfg.myPlayer), s'.effects[|s.effects|..]) == (if vis then 1 else 0)
      && s'.effects[|s'.effects| - 1] == RefreshCanvas(false)
      && (forall id :: Live(s'.objects, id) <==> Live(s.objects, id) && id !in ChildIds(m.children))
      && s'.currentPlayer == s.currentPlayer
  {
    RemoveSpecLive(cfg, s, m);
    RemoveSpecWork(cfg, s, m);
    RemoveAllVisibility(DivertOf(s.objects, m), RemoveAcc(s.objects, s.activeUnit, [], false), m.children);
  }

  lemma RemoveSpecLive(cfg: Config, s: Client, m: Element)
    ensures forall id :: Live(RemoveSpec(cfg, s, m).objects, id) <==> Live(s.objects, id) && id !in ChildIds(m.children)
  {
    var acc0 := RemoveAcc(s.objects, s.activeUnit, [], false);
    var divert := DivertOf(s.objects, m);
    forall id | id in s.objects
      ensures Live(RemoveAll(divert, acc0, m.children).objects, id) <==> Live(s.objects, id) && id !in ChildIds(m.children)
    {
      RemoveAllAt(divert, acc0, m.children, id);
    }
  }

  lemma RemoveSpecWork(cfg: Config, s: Client, m: Element)
    ensures var s' := RemoveSpec(cfg, s, m);
      var acc := RemoveAll(DivertOf(s.objects, m), RemoveAcc(s.objects, s.activeUnit, [], false), m.children);
      && CountOf(InvalidateCanSeeTiles(cfg.myPlayer), s'.effects[|s.effects|..]) == (if acc.vis then 1 else 0)
      && s'.effects[|s'.effects| - 1] == RefreshCanvas(false)
  {
    var acc0 := RemoveAcc(s.objects, s.activeUnit, [], false);
    var divert := DivertOf(s.objects, m);
    var acc := RemoveAll(divert, acc0, m.children);
    var tail := acc.effects + Closing(cfg.myPlayer, acc.vis);
    RemoveAllTail(cfg.myPlayer, divert, acc0, m.children);
    assert RemoveSpec(cfg, s, m).effects == s.effects + tail;
    TailOf(s.effects, tail);
  }

  /** What the children of "remove" hand over, followed by the closing work. */
  lemma RemoveAllTail(my: Id, divert: Option<Id>, acc0: RemoveAcc, kids: seq<Element>)
    requires acc0.effects == []
    ensures var acc := RemoveAll(divert, acc0, kids);
      var tail := acc.effects + Closing(my, acc.vis);
      && tail != []
      && CountOf(InvalidateCanSeeTiles(my), tail) == (if acc.vis then 1 else 0)
      && tail[|tail| - 1] == RefreshCanvas(false)
  {
    RemoveAllEffects(divert, acc0, kids);
    var acc := RemoveAll(divert, acc0, kids);
    RemoveTail(my, acc.effects, acc.vis);
  }

  /** The work "remove" hands over holds one invalidation when the flag is set, none otherwise, and ends with a repaint. */
  lemma RemoveTail(my: Id, fx: seq<Effect>, vis: bool)
    requires forall x :: x in fx ==> x.DivertModelMessages? || x.DeselectActiveUnit?
    ensures CountOf(InvalidateCanSeeTiles(my), fx + Closing(my, vis)) == (if vis then 1 else 0)
    ensures (fx + Closing(my, vis))[|fx + Closing(my, vis)| - 1] == RefreshCanvas(false)
  {
    var x := InvalidateCanSeeTiles(my);
    var c := Closing(my, vis);
    assert c[|c| - 1] == RefreshCanvas(false);
    assert (fx + c)[|fx + c| - 1] == c[|c| - 1];
    assert x !in fx;
    CountOfAbsent(x, fx);
    CountOfAppend(x, fx, c);
    ClosingInvalidatesOnce(my, vis);
  }

  lemma TailOf(e: seq<Effect>, tail: seq<Effect>)
    requires tail != []
    ensures (e + tail)[|e|..] == tail && (e + tail)[|e + tail| - 1] == tail[|tail| - 1]
  {
  }

  // ---------------------------------------------------------------------
  // "addPlayer"

  /** One child of "addPlayer": a known player reads itself from it; any other identifier gets a new player. */
  function AddPlayerChild(objects: Store, e: Element): Store
  {
    var id := ReadId(e);
    match LookupAs(objects, id, PlayerClass)
    case None => objects[id := Fresh(PlayerKind, e)]
    case Some(p) => objects[id := ReadFrom(p, e)]
  }

  function AddPlayerAll(objects: Store, kids: seq<Element>): (r: Store)
    ensures r.Keys == objects.Keys + ChildIds(kids)
  {
    if kids == [] then objects
    else AddPlayerChild(AddPlayerAll(objects, kids[..|kids| - 1]), kids[|kids| - 1])
  }

  /** The fold of "addPlayer" one child further. */
  lemma AddPlayerAllStep(objects: Store, kids: seq<Element>, i: nat)
    requires i < |kids|
    ensures AddPlayerAll(objects, kids[..i + 1]) == AddPlayerChild(AddPlayerAll(objects, kids[..i]), kids[i])
  {
    var k := kids[..i + 1];
    assert k[..|k| - 1] == kids[..i];
    assert k[|k| - 1] == kids[i];
  }

  function AddPlayerSpec(s: Client, m: Element): Client
  {
    s.(objects := AddPlayerAll(s.objects, m.children))
  }

  /** The entry `id` after "addPlayer", as a function of the store before it. */
  function AddedPlayer(objects: Store, kids: seq<Element>, id: Id): GameObject
    requires id in objects || id in ChildIds(kids)
  {
    match LastWithId(kids, id)
    case None => objects[id]
    case Some(last) => if IsPlayer(objects, id) then ReadFrom(objects[id], last) else Fresh(PlayerKind, last)
  }

  /** One child of "addPlayer" sets the entry it names and no other. */
  lemma AddPlayerChildAt(objects: Store, e: Element, id: Id)
    requires id in objects || id == ReadId(e)
    ensures AddPlayerChild(objects, e)[id] ==
      if ReadId(e) != id then objects[id]
      else if IsPlayer(objects, id) then ReadFrom(objects[id], e)
      else Fresh(PlayerKind, e)
  {
  }

  lemma {:induction false} AddPlayerAt(objects: Store, kids: seq<Element>, id: Id)
    requires id in objects || id in ChildIds(kids)
    ensures AddPlayerAll(objects, kids)[id] == AddedPlayer(objects, kids, id)
  {
    if kids != [] {
      var p := kids[..|kids| - 1];
      var k := kids[|kids| - 1];
      var prev := AddPlayerAll(objects, p);
      AddPlayerChildAt(prev, k, id);
      if id in objects || id in ChildIds(p) {
        AddPlayerAt(objects, p, id);
      }
      if ReadId(k) == id && id in ChildIds(p) {
        var last := LastWithId(p, id).value;
        if IsPlayer(objects, id) {
          assert prev[id] == ReadFrom(objects[id], last);
          ReadFromTwice(objects[id], last, k);
        } else {
          assert prev[id] == Fresh(PlayerKind, last);
          ReadFromTwice(Fresh(PlayerKind, last), last, k);
        }
      }
    }
  }

  /** After "addPlayer", the identifier a child carries resolves to a player, unless it is empty. */
  lemma AddPlayerResolvesAt(objects: Store, kids: seq<Element>, i: nat)
    requires i < |kids| && ReadId(kids[i]) != ""
    ensures IsPlayer(AddPlayerAll(objects, kids), ReadId(kids[i]))
  {
    AddPlayerAt(objects, kids, ReadId(kids[i]));
  }

  /**
   * After "addPlayer" every identifier the children carry holds a player:
   * a player that was already known has read itself from the last child
   * naming it, any other identifier holds a new player built from that
   * child; no other entry changes, and every non-empty identifier a child
   * carries resolves to a player.
   */
  lemma AddPlayerResult(objects: Store, kids: seq<Element>)
    ensures var r := AddPlayerAll(objects, kids);
      && r.Keys == objects.Keys + ChildIds(kids)
      && (forall id :: id in objects && id !in ChildIds(kids) ==> r[id] == objects[id])
      && (forall id :: id in ChildIds(kids) ==>
            r[id] == if IsPlayer(objects, id) then ReadFrom(objects[id], LastWithId(kids, id).value)
                     else Fresh(PlayerKind, LastWithId(kids, id).value))
      && (forall i :: 0 <= i < |kids| && ReadId(kids[i]) != "" ==> IsPlayer(r, ReadId(kids[i])))
  {
    forall id | id in objects || id in ChildIds(kids)
      ensures AddPlayerAll(objects, kids)[id] == AddedPlayer(objects, kids, id)
    {
      AddPlayerAt(objects, kids, id);
    }
    forall i | 0 <= i < |kids| && ReadId(kids[i]) != ""
      ensures IsPlayer(AddPlayerAll(objects, kids), ReadId(kids[i]))
    {
      AddPlayerResolvesAt(objects, kids, i);
    }
  }

  // ---------------------------------------------------------------------
  // "addObject"

  /** The per-player lists "addObject" appends to. */
  datatype List = History | LastSales | ModelMessages | TradeRoutes

  /** What "addObject" does with a child, by its tag. */
  datatype AddTag = FatherTag | ListTag(list: List) | OtherTag

  function AddTagOf(tag: string): AddTag
  {
    if tag == "foundingFather" then FatherTag
    else if tag == "historyEvent" then ListTag(History)
    else if tag == "lastSale" then ListTag(LastSales)
    else if tag == "modelMessage" then ListTag(ModelMessages)
    else if tag == "tradeRoute" then ListTag(TradeRoutes)
    else OtherTag
  }

  /** The list `l` of `o`. */
  function ListOf(o: GameObject, l: List): seq<Element>
  {
    match l
    case History => o.history
    case LastSales => o.lastSales
    case ModelMessages => o.modelMessages
    case TradeRoutes => o.tradeRoutes
  }

  /** `o` with list `l` replaced. */
  function WithList(o: GameObject, l: List, xs: seq<Element>): (r: GameObject)
    ensures ListOf(r, l) == xs
  {
    match l
    case History => o.(history := xs)
    case LastSales => o.(lastSales := xs)
    case ModelMessages => o.(modelMessages := xs)
    case TradeRoutes => o.(tradeRoutes := xs)
  }

  /**
   * What one child gives the live player that owns it: a founding father
   * the specification defines, or one more entry in the list its tag selects.
   */
  function ChildGain(fathers: set<Id>, o: GameObject, e: Element): GameObject
  {
    match AddTagOf(e.tag)
    case FatherTag => if ReadId(e) in fathers then o.(fathers := o.fathers + {ReadId(e)}) else o
    case ListTag(l) => WithList(o, l, ListOf(o, l) + [e])
    case OtherTag => o
  }

  /**
   * One child of "addObject".  A child whose owner is not a live player is
   * skipped.  A founding father is added when the specification defines it,
   * and the owner's visible tiles are invalidated either way; a history
   * event, last sale, model message or trade route is appended to the
   * owner's list; any other tag is skipped.
   */
  function AddObjectChild(fathers: set<Id>, acc: (Store, seq<Effect>), e: Element): (r: (Store, seq<Effect>))
    ensures r.0.Keys == acc.0.Keys
  {
    var owner := Attr(e, "owner");
    match LookupAs(acc.0, owner, PlayerClass)
    case None => acc
    case Some(p) =>
      (acc.0[owner := ChildGain(fathers, p, e)],
       acc.1 + if AddTagOf(e.tag) == FatherTag then [InvalidateCanSeeTiles(owner)] else [])
  }

  function AddObjectAll(fathers: set<Id>, objects: Store, kids: seq<Element>): (r: (Store, seq<Effect>))
    ensures r.0.Keys == objects.Keys
  {
    if kids == [] then (objects, [])
    else AddObjectChild(fathers, AddObjectAll(fathers, objects, kids[..|kids| - 1]), kids[|kids| - 1])
  }

  /** The fold of "addObject" one child further. */
  lemma AddObjectAllStep(fathers: set<Id>, objects: Store, kids: seq<Element>, i: nat)
    requires i < |kids|
    ensures AddObjectAll(fathers, objects, kids[..i + 1]) == AddObjectChild(fathers, AddObjectAll(fathers, objects, kids[..i]), kids[i])
  {
    var k := kids[..i + 1];
    assert k[..|k| - 1] == kids[..i];
    assert k[|k| - 1] == kids[i];
  }

  /** One child of "addObject" extends the invalidations already handed over and depends on none of them. */
  lemma AddObjectChildShift(fathers: set<Id>, acc: (Store, seq<Effect>), e: Element)
    ensures var r := AddObjectChild(fathers, (acc.0, []), e);
      AddObjectChild(fathers, acc, e) == (r.0, acc.1 + r.1)
  {
    var extra: seq<Effect> := if AddTagOf(e.tag) == FatherTag then [InvalidateCanSeeTiles(Attr(e, "owner"))] else [];
    assert [] + extra == extra;
    assert acc.1 + [] == acc.1;
  }

  function AddObjectSpec(cfg: Config, s: Client, m: Element): Client
  {
    var r := AddObjectAll(cfg.fathers, s.objects, m.children);
    s.(objects := r.0, effects := s.effects + r.1)
  }

  /** The children bound for list `l` of player `p`, in order. */
  function OwnedFor(kids: seq<Element>, p: Id, l: List): seq<Element>
  {
    if kids == [] then []
    else
      var k := kids[|kids| - 1];
      OwnedFor(kids[..|kids| - 1], p, l) + (if AddTagOf(k.tag) == ListTag(l) && Attr(k, "owner") == p then [k] else [])
  }

  /** The founding fathers the children give `p`, among those the specification defines. */
  function FathersFor(fathers: set<Id>, kids: seq<Element>, p: Id): set<Id>
  {
    if kids == [] then {}
    else
      var k := kids[|kids| - 1];
      FathersFor(fathers, kids[..|kids| - 1], p)
        + (if AddTagOf(k.tag) == FatherTag && Attr(k, "owner") == p && ReadId(k) in fathers then {ReadId(k)} else {})
  }

  /** `a` and `b` agree on everything but the founding fathers and the four lists. */
  predicate SameIdentity(a: GameObject, b: GameObject)
  {
    && a.kind == b.kind && a.owner == b.owner && a.location == b.location && a.disposed == b.disposed
    && a.abilities == b.abilities && a.modifiers == b.modifiers
    && a.units == b.units && a.settlements == b.settlements && a.state == b.state
  }

  /** A live player after "addObject": what it had, plus what the children give it. */
  predicate Gained(fathers: set<Id>, o: GameObject, kids: seq<Element>, p: Id, r: GameObject)
  {
    && SameIdentity(r, o)
    && r.fathers == o.fathers + FathersFor(fathers, kids, p)
    && forall l :: ListOf(r, l) == ListOf(o, l) + OwnedFor(kids, p, l)
  }

  /** One invalidation per founding-father child whose owner is a live player, in order. */
  function FatherInvalidations(objects: Store, kids: seq<Element>): seq<Effect>
  {
    if kids == [] then []
    else
      var k := kids[|kids| - 1];
      FatherInvalidations(objects, kids[..|kids| - 1])
        + (if AddTagOf(k.tag) == FatherTag && IsPlayer(objects, Attr(k, "owner")) then [InvalidateCanSeeTiles(Attr(k, "owner"))] else [])
  }

  /** One child of "addObject" changes only the live player that owns it. */
  lemma AddObjectChildAt(fathers: set<Id>, acc: (Store, seq<Effect>), e: Element, id: Id)
    requires id in acc.0
    ensures AddObjectChild(fathers, acc, e).0[id] ==
      if IsPlayer(acc.0, id) && Attr(e, "owner") == id then ChildGain(fathers, acc.0[id], e) else acc.0[id]
  {
  }

  /** What one child does to the player that owns it. */
  lemma ChildGainShape(fathers: set<Id>, g: GameObject, k: Element)
    ensures var r := ChildGain(fathers, g, k);
      && SameIdentity(r, g)
      && r.fathers == g.fathers + (if AddTagOf(k.tag) == FatherTag && ReadId(k) in fathers then {ReadId(k)} else {})
      && forall l :: ListOf(r, l) == ListOf(g, l) + (if AddTagOf(k.tag) == ListTag(l) then [k] else [])
  {
  }

  lemma GainedStep(fathers: set<Id>, o: GameObject, kids: seq<Element>, p: Id, g: GameObject)
    requires kids != []
    requires Gained(fathers, o, kids[..|kids| - 1], p, g)
    ensures var k := kids[|kids| - 1];
      Gained(fathers, o, kids, p, if Attr(k, "owner") == p then ChildGain(fathers, g, k) else g)
  {
    var k := kids[|kids| - 1];
    var r := if Attr(k, "owner") == p then ChildGain(fathers, g, k) else g;
    ChildGainShape(fathers, g, k);
    forall l
      ensures ListOf(r, l) == ListOf(o, l) + OwnedFor(kids, p, l)
    {
      GainedListStep(o, kids, p, g, r, l);
    }
  }

  lemma GainedListStep(o: GameObject, kids: seq<Element>, p: Id, g: GameObject, r: GameObject, l: List)
    requires kids != []
    requires ListOf(g, l) == ListOf(o, l) + OwnedFor(kids[..|kids| - 1], p, l)
    requires var k := kids[|kids| - 1];
      ListOf(r, l) == ListOf(g, l) + (if AddTagOf(k.tag) == ListTag(l) && Attr(k, "owner") == p then [k] else [])
    ensures ListOf(r, l) == ListOf(o, l) + OwnedFor(kids, p, l)
  {
    var pre := kids[..|kids| - 1];
    var k := kids[|kids| - 1];
    var extra := if AddTagOf(k.tag) == ListTag(l) && Attr(k, "owner") == p then [k] else [];
    assert ListOf(o, l) + OwnedFor(pre, p, l) + extra == ListOf(o, l) + (OwnedFor(pre, p, l) + extra);
  }

  lemma {:induction false} AddObjectAt(fathers: set<Id>, objects: Store, kids: seq<Element>, id: Id)
    requires id in objects
    ensures var r := AddObjectAll(fathers, objects, kids).0[id];
      if IsPlayer(objects, id) then Gained(fathers, objects[id], kids, id, r) else r == objects[id]
  {
    if kids != [] {
      var pre := kids[..|kids| - 1];
      AddObjectAt(fathers, objects, pre, id);
      var prev := AddObjectAll(fathers, objects, pre).0;
      AddObjectChildAt(fathers, AddObjectAll(fathers, objects, pre), kids[|kids| - 1], id);
      if IsPlayer(objects, id) {
        assert IsPlayer(prev, id);
        GainedStep(fathers, objects[id], kids, id, prev[id]);
      }
    }
  }

  lemma {:induction false} AddObjectEffects(fathers: set<Id>, objects: Store, kids: seq<Element>)
    ensures AddObjectAll(fathers, objects, kids).1 == FatherInvalidations(objects, kids)
  {
    if kids != [] {
      AddObjectEffects(fathers, objects, kids[..|kids| - 1]);
      var owner := Attr(kids[|kids| - 1], "owner");
      if owner in objects {
        AddObjectAt(fathers, objects, kids[..|kids| - 1], owner);
      }
    }
  }

  /**
   * "addObject" changes only live players: each gains the founding fathers
   * and list entries of the children it owns, in child order; children with a
   * broken owner change nothing; and one invalidation is handed over for
   * each founding-father child with a live owner (not once per message).
   */
  lemma AddObjectResult(fathers: set<Id>, objects: Store, kids: seq<Element>)
    ensures var r := AddObjectAll(fathers, objects, kids);
      && r.0.Keys == objects.Keys
      && (forall id :: id in objects && !IsPlayer(objects, id) ==> r.0[id] == objects[id])
      && (forall id :: IsPlayer(objects, id) ==> Gained(fathers, objects[id], kids, id, r.0[id]))
      && r.1 == FatherInvalidations(objects, kids)
  {
    forall id | id in objects
      ensures var r := AddObjectAll(fathers, objects, kids).0[id];
        if IsPlayer(objects, id) then Gained(fathers, objects[id], kids, id, r) else r == objects[id]
    {
      AddObjectAt(fathers, objects, kids, id);
    }
    AddObjectEffects(fathers, objects, kids);
  }

  // ---------------------------------------------------------------------
  // "featureChange"

  /** One child of "featureChange": an ability or modifier is added or removed; other tags are skipped. */
  function FeatureChild(add: bool, o: GameObject, e: Element): GameObject
  {
    if e.tag == "ability" then o.(abilities := if add then o.abilities + {e} else o.abilities - {e})
    else if e.tag == "modifier" then o.(modifiers := if add then o.modifiers + {e} else o.modifiers - {e})
    else o
  }

  function FeatureAll(add: bool, o: GameObject, kids: seq<Element>): GameObject
  {
    if kids == [] then o
    else FeatureChild(add, FeatureAll(add, o, kids[..|kids| - 1]), kids[|kids| - 1])
  }

  /** The fold of "featureChange" one child further. */
  lemma FeatureAllStep(add: bool, o: GameObject, kids: seq<Element>, i: nat)
    requires i < |kids|
    ensures FeatureAll(add, o, kids[..i + 1]) == FeatureChild(add, FeatureAll(add, o, kids[..i]), kids[i])
  {
    var k := kids[..i + 1];
    assert k[..|k| - 1] == kids[..i];
    assert k[|k| - 1] == kids[i];
  }

  /** Whether a "featureChange" adds: its "add" attribute is "add" in any letter case. */
  predicate IsAdd(m: Element)
  {
    EqualsIgnoreCase(Attr(m, "add"), "add")
  }

  /** "featureChange": the live object the message names takes the changes; an unknown one, nothing. */
  function FeatureChangeSpec(s: Client, m: Element): Client
  {
    var id := ReadId(m);
    match Lookup(s.objects, id)
    case None => s
    case Some(o) => s.(objects := s.objects[id := FeatureAll(IsAdd(m), o, m.children)])
  }

  /** The children with tag `tag`. */
  function TagSet(kids: seq<Element>, tag: string): set<Element>
  {
    if kids == [] then {}
    else TagSet(kids[..|kids| - 1], tag) + (if kids[|kids| - 1].tag == tag then {kids[|kids| - 1]} else {})
  }

  /**
   * "featureChange" adds every ability and modifier child to the object, or
   * removes every one of them, and changes nothing else about it.
   */
  lemma {:induction false} FeatureAllResult(add: bool, o: GameObject, kids: seq<Element>)
    ensures FeatureAll(add, o, kids) ==
      o.(abilities := if add then o.abilities + TagSet(kids, "ability") else o.abilities - TagSet(kids, "ability"),
         modifiers := if add then o.modifiers + TagSet(kids, "modifier") else o.modifiers - TagSet(kids, "modifier"))
  {
    if kids != [] {
      FeatureAllResult(add, o, kids[..|kids| - 1]);
    }
  }

  // ---------------------------------------------------------------------
  // The current player

  /**
   * "newTurn": the controller is told the new turn number (read as by
   * `getIntegerAttribute`), the current player is cleared at once, the map is
   * repainted and the menu bar refreshed.
   */
  function NewTurnSpec(s: Client, m: Element): (s': Client)
    ensures s'.currentPlayer.None?
    ensures s'.objects == s.objects && s'.activeUnit == s.activeUnit
    ensures s'.effects == s.effects + [NewTurn(GetIntegerAttribute(m, "turn")), RefreshCanvas(false), UpdateMenuBar]
  {
    s.(currentPlayer := None,
       effects := s.effects + [NewTurn(GetIntegerAttribute(m, "turn")), RefreshCanvas(false), UpdateMenuBar])
  }

  /** A turn number the server writes is the one the controller is told. */
  lemma NewTurnNumber(s: Client, m: Element, n: int)
    requires MinInt <= n <= MaxInt
    requires "turn" in m.attrs && m.attrs["turn"] == Decimal(n)
    ensures NewTurnSpec(s, m).effects[|s.effects|] == NewTurn(n)
  {
    GetIntegerAttributeRoundTrip(m, "turn", n);
  }

  /**
   * "setCurrentPlayer": the current player becomes the named player when
   * it is a live player, and nobody otherwise; then the map is repainted
   * with focus.
   */
  function SetCurrentPlayerSpec(s: Client, m: Element): (s': Client)
    ensures s'.currentPlayer.Some? <==> IsPlayer(s.objects, Attr(m, "player"))
    ensures s'.currentPlayer.Some? ==> s'.currentPlayer.value == Attr(m, "player")
    ensures s'.objects == s.objects && s'.activeUnit == s.activeUnit
    ensures s'.effects == s.effects + [RefreshCanvas(true)]
  {
    var pid := Attr(m, "player");
    s.(currentPlayer := if IsPlayer(s.objects, pid) then Some(pid) else None,
       effects := s.effects + [RefreshCanvas(true)])
  }
}
