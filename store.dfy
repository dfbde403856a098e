/**
 * The client's replica of the game as the router sees it: an object store
 * keyed by identifier, typed lookups, what reading an object from an element
 * does to it, the log of work handed to the GUI and the controller, and the
 * session state (store, current player, active unit, effects).
 */
module GameStore {
  import opened Dom

  type Id = string

  /** Which class of `FreeColGameObject` an entry is. */
  datatype Kind = PlayerKind | UnitKind | ColonyKind | IndianSettlementKind | TileKind | RegionKind | OtherKind

  predicate IsSettlement(k: Kind)
  {
    k == ColonyKind || k == IndianSettlementKind
  }

  /** The class a typed lookup `getFreeColGameObject(id, C.class)` asks for. */
  datatype Class = PlayerClass | UnitClass | SettlementClass | ColonyClass | TileClass | RegionClass

  predicate InstanceOf(k: Kind, c: Class)
  {
    match c
    case PlayerClass => k == PlayerKind
    case UnitClass => k == UnitKind
    case SettlementClass => IsSettlement(k)
    case ColonyClass => k == ColonyKind
    case TileClass => k == TileKind
    case RegionClass => k == RegionKind
  }

  /**
   * One game object.  `owner` and `location` are identifiers ("" for none);
   * the collections are those the handlers add to or remove from; `state`
   * is the element the object was last read from, standing for the rest of
   * its fields.
   */
  datatype GameObject = GameObject(
    kind: Kind,
    owner: Id,
    location: Id,
    disposed: bool,
    abilities: set<Element>,
    modifiers: set<Element>,
    units: set<Id>,
    settlements: set<Id>,
    fathers: set<Id>,
    history: seq<Element>,
    lastSales: seq<Element>,
    modelMessages: seq<Element>,
    tradeRoutes: seq<Element>,
    state: Element)

  type Store = map<Id, GameObject>

  /**
   * `game.getFreeColGameObject(id)`: the live object with that identifier.
   * The empty identifier (a missing attribute) never resolves, and a disposed
   * object no longer does.
   */
  function Lookup(objects: Store, id: Id): (r: Option<GameObject>)
    ensures r.Some? <==> id != "" && id in objects && !objects[id].disposed
    ensures r.Some? ==> r.value == objects[id]
  {
    if id != "" && id in objects && !objects[id].disposed then Some(objects[id]) else None
  }

  /** `game.getFreeColGameObject(id, c)`: as `Lookup`, and null unless the object is an instance of `c`. */
  function LookupAs(objects: Store, id: Id, c: Class): (r: Option<GameObject>)
    ensures r.Some? <==> Lookup(objects, id).Some? && InstanceOf(objects[id].kind, c)
    ensures r.Some? ==> r.value == objects[id]
  {
    var o := Lookup(objects, id);
    if o.Some? && InstanceOf(o.value.kind, c) then o else None
  }

  predicate Live(objects: Store, id: Id)
  {
    Lookup(objects, id).Some?
  }

  /** A live player: `getFreeColGameObject(id, Player.class)` is not null. */
  predicate IsPlayer(objects: Store, id: Id)
  {
    LookupAs(objects, id, PlayerClass).Some?
  }

  /**
   * A player the store holds, disposed or not: what an object's `getOwner()`
   * still refers to after the owner itself has been disposed.
   */
  predicate PlayerEntry(objects: Store, id: Id)
  {
    id != "" && id in objects && objects[id].kind == PlayerKind
  }

  /**
   * `readFromXMLElement`: the object keeps its class and collections and
   * takes its owner, location and remaining state from the element.
   */
  function ReadFrom(o: GameObject, e: Element): GameObject
  {
    o.(owner := Attr(e, "owner"), location := Attr(e, "location"), state := e)
  }

  /** An object of class `k` constructed from an element (`new Player(game, e)`, `new Unit(game, e)`). */
  function Fresh(k: Kind, e: Element): GameObject
  {
    GameObject(k, Attr(e, "owner"), Attr(e, "location"), false, {}, {}, {}, {}, {}, [], [], [], [], e)
  }

  /** Reading twice keeps only what the second element says. */
  lemma ReadFromTwice(o: GameObject, a: Element, b: Element)
    ensures ReadFrom(ReadFrom(o, a), b) == ReadFrom(o, b)
    ensures ReadFrom(Fresh(o.kind, a), b) == Fresh(o.kind, b)
  {
  }

  /**
   * Work the router hands to the GUI or the controller, in the order it is
   * handed over (posted, waited for, or called directly).
   */
  datatype Effect =
    | InvalidateCanSeeTiles(player: Id)
    | RefreshCanvas(focus: bool)
    | DisplayModelMessages
    | DeselectActiveUnit
    | DivertModelMessages(source: Id, divert: Id)
    | AnimateUnitAttack(attacker: Id, defender: Id, attackerTile: Id, defenderTile: Id, success: bool)
    | AnimateUnitMove(unit: Id, oldTile: Id, newTile: Id)
    | AskDiplomacy(our: Id, other: Id)
    | UpdateMenuBar
    | AskIndianDemand(unit: Id, colony: Id)
    | ShowFirstContactDialog(player: Id, other: Id, contactTile: Option<Id>)
    | ShowSpyColonyPanel(tile: Id, full: Element, normal: Element)
    | ShowCaptureGoodsDialog(unit: Id, goods: seq<Element>, defender: string)
    | AskNewLandName(name: string, unit: Id)
    | AskNewRegionName(region: Id, name: string, regionTile: Option<Id>, namingUnit: Option<Id>)
    | AskFountainOfYouth(migrants: int)
    | NewTurn(turn: int)
    | Delegated(message: Element)

  /** How often an effect occurs in a log. */
  function CountOf(x: Effect, es: seq<Effect>): nat
  {
    if es == [] then 0 else CountOf(x, es[..|es| - 1]) + (if es[|es| - 1] == x then 1 else 0)
  }

  lemma {:induction false} CountOfAppend(x: Effect, a: seq<Effect>, b: seq<Effect>)
    ensures CountOf(x, a + b) == CountOf(x, a) + CountOf(x, b)
  {
    if b == [] {
      assert a + b == a;
    } else {
      assert (a + b)[..|a + b| - 1] == a + b[..|b| - 1];
      assert (a + b)[|a + b| - 1] == b[|b| - 1];
      CountOfAppend(x, a, b[..|b| - 1]);
    }
  }

  /**
   * The exceptions the router throws: a null message, and the
   * `IllegalStateException`s and `IllegalArgumentException` of the handlers.
   */
  datatype Failure =
    | NullMessage
    | MissingAttribute(name: string)
    | Unresolved(name: string)
    | NullLocation(unit: Id)
    | ForeignColony(colony: Id)

  /** What `handle` returns: a reply element or null, or an exception. */
  type Reply = Result<Option<Element>, Failure>

  /**
   * The client state the router reads and changes: the object store, the
   * current player, the GUI's active unit, and the effects so far.
   */
  datatype Client = Client(objects: Store, currentPlayer: Option<Id>, activeUnit: Option<Id>, effects: seq<Effect>)

  /** One handled message: the new client state and the reply. */
  datatype Step = Step(client: Client, reply: Reply)

  /**
   * What the router consults but does not decide: my player, the founding
   * fathers the specification defines, the game rules `getAnimationSpeed`,
   * `isIndian` and `hasTile`, and the user's answers to a native demand and to
   * a diplomatic proposal (each a function of the message asked about).
   */
  datatype Config = Config(
    myPlayer: Id,
    fathers: set<Id>,
    animationSpeed: GameObject -> int,
    isIndian: GameObject -> bool,
    hasTile: GameObject -> bool,
    demandAnswer: Element -> bool,
    diplomacyAnswer: Element -> Option<Element>)
}
