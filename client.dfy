/**
 * `InGameInputHandler` itself: the router as an object whose handlers walk
 * the children of a message and update the client's store, its
 * current player, the GUI's active unit and the log of handed-over
 * work in place.  Each method is proved to leave exactly the state its
 * specification function in `Apply` or `Router` describes.
 */
module Client {
  import opened Dom
  import opened GameStore
  import opened Apply
  import opened Requests
  import opened Router

  class InGameInputHandler {
    /** My player, the specification and the GUI and controller decisions the router consults. */
    const cfg: Config
    var objects: Store
    var currentPlayer: Option<Id>
    var activeUnit: Option<Id>
    var effects: seq<Effect>

    function State(): Client
      reads this
    {
      Client(objects, currentPlayer, activeUnit, effects)
    }

    constructor(cfg: Config, objects: Store)
      ensures this.cfg == cfg
      ensures State() == Client(objects, None, None, [])
    {
      this.cfg := cfg;
      this.objects := objects;
      currentPlayer := None;
      activeUnit := None;
      effects := [];
    }

    /** `handle`: a null message is an error; any other is dispatched on its tag. */
    method Handle(m: Option<Element>) returns (reply: Reply)
      modifies this
      ensures Step(State(), reply) == HandleSpec(cfg, old(State()), m)
    {
      if m.None? {
        return Failure(NullMessage);
      }
      reply := Dispatch(m.value);
    }

    /** The `switch` of `handle`, then the flush check. */
    method Dispatch(m: Element) returns (reply: Reply)
      modifies this
      ensures Step(State(), reply) == DispatchSpec(cfg, old(State()), m)
      decreases m, 1
    {
      var h := HandlerFor(m.tag);
      if h == UnsupportedH {
        return Success(None);
      }
      match h {
        case Applies(a) =>
          RunApplier(m, a);
          reply := Success(None);
        case Decides(d) =>
          var out := Decide(cfg, objects, m, d);
          match out {
            case Threw(f) =>
              return Failure(f);
            case Done(fx, r) =>
              effects := effects + fx;
              reply := Success(r);
          }
        case MultipleH =>
          reply := Multiple(m);
        case UnsupportedH =>
          reply := Success(None);
      }
      if reply.Success? && Attr(m, "flush") == "true" && currentPlayer == Some(cfg.myPlayer) {
        effects := effects + [DisplayModelMessages];
      }
    }

    method RunApplier(m: Element, a: Applier)
      modifies this
      ensures State() == ApplySpec(cfg, old(State()), m, a)
    {
      match a {
        case UpdateA => Update(m);
        case RemoveA => Remove(m);
        case AddPlayerA => AddPlayer(m);
        case AddObjectA => AddObject(m);
        case FeatureChangeA => FeatureChange(m);
        case NewTurnA => NewTurn(m);
        case SetCurrentPlayerA => SetCurrentPlayer(m);
      }
    }

    /** `multiple`: handle each child in turn, catching its exception; collapse the non-null replies. */
    method Multiple(m: Element) returns (reply: Reply)
      modifies this
      ensures Step(State(), reply) == RunHandler(cfg, old(State()), m, MultipleH)
      decreases m, 0
    {
      var nodes := m.children;
      var results: seq<Element> := [];
      ghost var init := Batched(State(), []);
      var i := 0;
      while i < |nodes|
        invariant 0 <= i <= |nodes|
        invariant Batch(cfg, init, nodes[..i]) == Batched(State(), results)
      {
        ghost var prev := results;
        ghost var before := State();
        var reply := Dispatch(nodes[i]);
        BatchAfter(cfg, init, nodes, i, before, results, State(), reply);
        if reply.Success? && reply.value.Some? {
          results := results + [reply.value.value];
        }
        assert results == prev + Kept(reply);
        i := i + 1;
      }
      assert nodes[..|nodes|] == nodes;
      return Success(Collapse(results));
    }

    /** "update": every known child object reads itself from its element. */
    method Update(m: Element)
      modifies this
      ensures State() == UpdateSpec(cfg, old(State()), m)
    {
      ghost var init := objects;
      var visibilityChange := false;
      var nodes := m.children;
      var i := 0;
      while i < |nodes|
        invariant 0 <= i <= |nodes|
        invariant (objects, visibilityChange) == UpdateAll(cfg.myPlayer, init, nodes[..i])
        invariant currentPlayer == old(currentPlayer) && activeUnit == old(activeUnit) && effects == old(effects)
      {
        var seen := UpdateOne(nodes[i]);
        visibilityChange := visibilityChange || seen;
        UpdateAllStep(cfg.myPlayer, init, nodes, i);
        i := i + 1;
      }
      assert nodes[..|nodes|] == nodes;
      if visibilityChange {
        effects := effects + [InvalidateCanSeeTiles(cfg.myPlayer)];
      }
      effects := effects + [RefreshCanvas(false)];
    }

    /** The body of the loop of "update", for one child; `seen` is what it does to `visibilityChange`. */
    method UpdateOne(e: Element) returns (seen: bool)
      modifies this
      ensures (objects, seen) == UpdateChild(cfg.myPlayer, old(objects), e)
      ensures currentPlayer == old(currentPlayer) && activeUnit == old(activeUnit) && effects == old(effects)
    {
      seen := false;
      var id := ReadId(e);
      var fcgo := Lookup(objects, id);
      if fcgo.Some? {
        var o := ReadFrom(fcgo.value, e);
        objects := objects[id := o];
        seen := SeesChange(cfg.myPlayer, id, o);
      }
    }

    /** "remove": every known child object is detached from its owner where it is owned, and disposed. */
    method Remove(m: Element)
      modifies this
      ensures State() == RemoveSpec(cfg, old(State()), m)
    {
      var ds := Attr(m, "divert");
      var divert: Option<Id> := if Live(objects, ds) then Some(ds) else None;
      var visibilityChange := RemoveChildren(divert, m.children);
      if visibilityChange {
        effects := effects + [InvalidateCanSeeTiles(cfg.myPlayer)];
      }
      effects := effects + [RefreshCanvas(false)];
    }

    /** The loop of "remove"; `visibilityChange` is its flag at the end. */
    method RemoveChildren(divert: Option<Id>, nodes: seq<Element>) returns (visibilityChange: bool)
      modifies this
      ensures var acc := RemoveAll(divert, RemoveAcc(old(objects), old(activeUnit), [], false), nodes);
        objects == acc.objects && activeUnit == acc.active && effects == old(effects) + acc.effects
        && visibilityChange == acc.vis
      ensures currentPlayer == old(currentPlayer)
    {
      visibilityChange := false;
      ghost var handed: seq<Effect> := [];
      ghost var start := effects;
      ghost var init := RemoveAcc(objects, activeUnit, [], false);
      var i := 0;
      while i < |nodes|
        invariant 0 <= i <= |nodes|
        invariant effects == start + handed
        invariant RemoveAll(divert, init, nodes[..i]) == RemoveAcc(objects, activeUnit, handed, visibilityChange)
        invariant currentPlayer == old(currentPlayer)
      {
        ghost var before := RemoveAcc(objects, activeUnit, handed, visibilityChange);
        ghost var r := RemoveChild(divert, RemoveAcc(objects, activeUnit, [], false), nodes[i]);
        var removed := RemoveOne(divert, nodes[i]);
        assert start + handed + r.effects == start + (handed + r.effects);
        handed := handed + r.effects;
        visibilityChange := visibilityChange || removed;
        RemoveChildShift(divert, before, nodes[i]);
        RemoveAllStep(divert, init, nodes, i);
        i := i + 1;
      }
      assert nodes[..|nodes|] == nodes;
    }

    /** The body of the loop of "remove", for one child; `removed` is what it does to `visibilityChange`. */
    method RemoveOne(divert: Option<Id>, e: Element) returns (removed: bool)
      modifies this
      ensures var r := RemoveChild(divert, RemoveAcc(old(objects), old(activeUnit), [], false), e);
        objects == r.objects && activeUnit == r.active && effects == old(effects) + r.effects && removed == r.vis
      ensures currentPlayer == old(currentPlayer)
    {
      removed := false;
      var id := ReadId(e);
      var fcgo := Lookup(objects, id);
      if fcgo.Some? {
        var o := fcgo.value;
        if divert.Some? {
          effects := effects + [DivertModelMessages(id, divert.value)];
        }
        if IsSettlement(o.kind) {
          objects := Detach(objects, o.owner, id, true);
          removed := true;
        } else if o.kind == UnitKind {
          if activeUnit == Some(id) {
            effects := effects + [DeselectActiveUnit];
            activeUnit := None;
          }
          objects := Detach(objects, o.owner, id, false);
          removed := true;
        }
        objects := Dispose(objects, id);
      }
    }

    /** "addPlayer": a known player reads itself from its element; any other gets a new player. */
    method AddPlayer(m: Element)
      modifies this
      ensures State() == AddPlayerSpec(old(State()), m)
    {
      ghost var init := objects;
      var nodes := m.children;
      var i := 0;
      while i < |nodes|
        invariant 0 <= i <= |nodes|
        invariant objects == AddPlayerAll(init, nodes[..i])
        invariant currentPlayer == old(currentPlayer) && activeUnit == old(activeUnit) && effects == old(effects)
      {
        AddPlayerOne(nodes[i]);
        AddPlayerAllStep(init, nodes, i);
        i := i + 1;
      }
      assert nodes[..|nodes|] == nodes;
    }

    /** The body of the loop of "addPlayer", for one child. */
    method AddPlayerOne(playerElement: Element)
      modifies this
      ensures objects == AddPlayerChild(old(objects), playerElement)
      ensures currentPlayer == old(currentPlayer) && activeUnit == old(activeUnit) && effects == old(effects)
    {
      var id := ReadId(playerElement);
      var p := LookupAs(objects, id, PlayerClass);
      if p.None? {
        objects := objects[id := Fresh(PlayerKind, playerElement)];
      } else {
        objects := objects[id := ReadFrom(p.value, playerElement)];
      }
    }

    /** "addObject": each child with a live owner is added to that player by its tag. */
    method AddObject(m: Element)
      modifies this
      ensures State() == AddObjectSpec(cfg, old(State()), m)
    {
      ghost var handed: seq<Effect> := [];
      ghost var start := effects;
      ghost var init := objects;
      var nodes := m.children;
      var i := 0;
      while i < |nodes|
        invariant 0 <= i <= |nodes|
        invariant effects == start + handed
        invariant (objects, handed) == AddObjectAll(cfg.fathers, init, nodes[..i])
        invariant currentPlayer == old(currentPlayer) && activeUnit == old(activeUnit)
      {
        ghost var before := (objects, handed);
        ghost var r := AddObjectChild(cfg.fathers, (objects, []), nodes[i]);
        AddObjectOne(nodes[i]);
        assert start + handed + r.1 == start + (handed + r.1);
        handed := handed + r.1;
        AddObjectChildShift(cfg.fathers, before, nodes[i]);
        AddObjectAllStep(cfg.fathers, init, nodes, i);
        i := i + 1;
      }
      assert nodes[..|nodes|] == nodes;
    }

    /** The body of the loop of "addObject", for one child. */
    method AddObjectOne(e: Element)
      modifies this
      ensures var r := AddObjectChild(cfg.fathers, (old(objects), []), e);
        objects == r.0 && effects == old(effects) + r.1
      ensures currentPlayer == old(currentPlayer) && activeUnit == old(activeUnit)
    {
      var owner := Attr(e, "owner");
      var player := LookupAs(objects, owner, PlayerClass);
      if player.Some? {
        var p := player.value;
        match AddTagOf(e.tag) {
          case FatherTag =>
            var father := ReadId(e);
            if father in cfg.fathers {
              objects := objects[owner := p.(fathers := p.fathers + {father})];
            } else {
              assert objects[owner := p] == objects;
            }
            effects := effects + [InvalidateCanSeeTiles(owner)];
          case ListTag(l) =>
            objects := objects[owner := WithList(p, l, ListOf(p, l) + [e])];
          case OtherTag =>
            assert objects[owner := p] == objects;
        }
      }
    }

    /** "featureChange": add or remove each ability and modifier child on the named object. */
    method FeatureChange(m: Element)
      modifies this
      ensures State() == FeatureChangeSpec(old(State()), m)
    {
      var add := EqualsIgnoreCase(Attr(m, "add"), "add");
      var id := ReadId(m);
      var fcgo := Lookup(objects, id);
      if fcgo.None? {
        return;
      }
      var o := fcgo.value;
      var nodes := m.children;
      var i := 0;
      while i < |nodes|
        invariant 0 <= i <= |nodes|
        invariant o == FeatureAll(add, fcgo.value, nodes[..i])
        invariant objects == old(objects)[id := o]
        invariant currentPlayer == old(currentPlayer) && activeUnit == old(activeUnit) && effects == old(effects)
      {
        var e := nodes[i];
        if e.tag == "ability" {
          o := if add then o.(abilities := o.abilities + {e}) else o.(abilities := o.abilities - {e});
        } else if e.tag == "modifier" {
          o := if add then o.(modifiers := o.modifiers + {e}) else o.(modifiers := o.modifiers - {e});
        }
        objects := objects[id := o];
        FeatureAllStep(add, fcgo.value, nodes, i);
        i := i + 1;
      }
      assert nodes[..|nodes|] == nodes;
    }

    /** "newTurn": tell the controller, clear the current player, repaint, refresh the menu bar. */
    method NewTurn(m: Element)
      modifies this
      ensures State() == NewTurnSpec(old(State()), m)
    {
      var n := GetIntegerAttribute(m, "turn");
      effects := effects + [Effect.NewTurn(n)];
      currentPlayer := None;
      effects := effects + [RefreshCanvas(false)];
      effects := effects + [UpdateMenuBar];
    }

    /** "setCurrentPlayer": point at the named player, or at nobody, then repaint with focus. */
    method SetCurrentPlayer(m: Element)
      modifies this
      ensures State() == SetCurrentPlayerSpec(old(State()), m)
    {
      var id := Attr(m, "player");
      var player := LookupAs(objects, id, PlayerClass);
      currentPlayer := if player.Some? then Some(id) else None;
      effects := effects + [RefreshCanvas(true)];
    }
  }
}
