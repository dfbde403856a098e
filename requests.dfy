/**
 * The handlers that only decide: from the store and the message they choose
 * to do nothing, to hand work to the GUI or the controller, to reply, or to
 * throw.  None of them changes the store.
 */
module Requests {
  import opened Dom
  import opened GameStore

  /** What a deciding handler does: hand over work and return a reply (or null), or throw. */
  datatype Outcome = Done(effects: seq<Effect>, reply: Option<Element>) | Threw(failure: Failure)

  /** Nothing to do, no reply: the handlers' "log a warning and return null". */
  const Ignored: Outcome := Done([], None)

  // ---------------------------------------------------------------------
  // Units named by a message

  /** A unit child the message carries for `id`, whose location the store can resolve. */
  predicate CarriesUnit(objects: Store, m: Element, id: Id)
  {
    var e := FindById(m.children, id);
    e.Some? && Live(objects, Attr(e.value, "location"))
  }

  /**
   * `selectUnitFromElement`: the first child with identifier `id` made into
   * a unit; none when no child has it; an exception when the unit's
   * location does not resolve.
   */
  function SelectUnitFromElement(objects: Store, m: Element, id: Id): (r: Result<Option<GameObject>, Failure>)
    ensures FindById(m.children, id).None? ==> r == Success(None)
    ensures FindById(m.children, id).Some? ==>
      if CarriesUnit(objects, m, id)
      then r == Success(Some(Fresh(UnitKind, FindById(m.children, id).value)))
      else r == Failure(NullLocation(id))
  {
    match FindById(m.children, id)
    case None => Success(None)
    case Some(e) =>
      var u := Fresh(UnitKind, e);
      if Lookup(objects, u.location).None? then Failure(NullLocation(id)) else Success(Some(u))
  }

  /** A unit the store knows, or else one the message carries. */
  function ResolveUnit(objects: Store, m: Element, id: Id): (r: Result<Option<GameObject>, Failure>)
    ensures r.Success? && r.value.Some? <==> LookupAs(objects, id, UnitClass).Some? || CarriesUnit(objects, m, id)
    ensures r.Failure? ==> r.error == NullLocation(id)
  {
    match LookupAs(objects, id, UnitClass)
    case Some(u) => Success(Some(u))
    case None => SelectUnitFromElement(objects, m, id)
  }

  /** The unit `ResolveUnit` finds, when it finds one. */
  function UnitNamed(objects: Store, m: Element, id: Id): GameObject
    requires LookupAs(objects, id, UnitClass).Some? || CarriesUnit(objects, m, id)
  {
    ResolveUnit(objects, m, id).value.value
  }

  predicate TileNamed(objects: Store, id: Id)
  {
    LookupAs(objects, id, TileClass).Some?
  }

  // ---------------------------------------------------------------------
  // "animateAttack"

  /** How the checks of "animateAttack" end. */
  datatype AttackCheck =
    | Checked(attacker: Id, defender: Id, attackerTile: Id, defenderTile: Id, success: bool)
    | SpeedOff
    | Rejected(failure: Failure)

  /** A unit the message names under attribute `attr`, which the store knows or the message carries. */
  predicate UnitAttr(objects: Store, m: Element, attr: string)
  {
    var id := Attr(m, attr);
    id != "" && (LookupAs(objects, id, UnitClass).Some? || CarriesUnit(objects, m, id))
  }

  /**
   * The checks of "animateAttack", in the order `animateAttack` makes them: the attacker
   * (which must be named and known or carried), the animation speed, then
   * the defender and the two tiles.  Each failing check throws.
   */
  function CheckAttack(cfg: Config, objects: Store, m: Element): (r: AttackCheck)
    ensures Attr(m, "attacker") == "" ==> r == Rejected(MissingAttribute("attacker"))
    ensures r.Checked? ==>
      && r.attacker == Attr(m, "attacker") && r.defender == Attr(m, "defender")
      && r.attackerTile == Attr(m, "attackerTile") && r.defenderTile == Attr(m, "defenderTile")
      && r.success == ParseBoolean(Attr(m, "success"))
    ensures r.SpeedOff? ==>
      UnitAttr(objects, m, "attacker") && cfg.animationSpeed(UnitNamed(objects, m, Attr(m, "attacker"))) <= 0
  {
    var a := Attr(m, "attacker");
    if a == "" then Rejected(MissingAttribute("attacker"))
    else match ResolveUnit(objects, m, a)
      case Failure(f) => Rejected(f)
      case Success(None) => Rejected(Unresolved("attacker"))
      case Success(Some(attacker)) =>
        if cfg.animationSpeed(attacker) <= 0 then SpeedOff
        else
          var d := Attr(m, "defender");
          if d == "" then Rejected(MissingAttribute("defender"))
          else match ResolveUnit(objects, m, d)
            case Failure(f) => Rejected(f)
            case Success(None) => Rejected(Unresolved("defender"))
            case Success(Some(_)) =>
              var at := Attr(m, "attackerTile");
              if at == "" then Rejected(MissingAttribute("attackerTile"))
              else if !TileNamed(objects, at) then Rejected(Unresolved("attackerTile"))
              else
                var dt := Attr(m, "defenderTile");
                if dt == "" then Rejected(MissingAttribute("defenderTile"))
                else if !TileNamed(objects, dt) then Rejected(Unresolved("defenderTile"))
                else Checked(a, d, at, dt, ParseBoolean(Attr(m, "success")))
  }

  /** "animateAttack", as intended: animate the attacker hitting the defender, then repaint. */
  function AnimateAttack(cfg: Config, objects: Store, m: Element): (r: Outcome)
    ensures r.Done? ==> r.reply.None?
  {
    match CheckAttack(cfg, objects, m)
    case Rejected(f) => Threw(f)
    case SpeedOff => Ignored
    case Checked(a, d, at, dt, success) => Done([AnimateUnitAttack(a, d, at, dt, success), RefreshCanvas(false)], None)
  }

  /**
   * "animateAttack" as `InGameInputHandler` writes it: the variable holding the
   * attacker is reused for the defender before the animation is built, so
   * the defender is animated attacking itself.
   */
  function AnimateAttackAsWritten(cfg: Config, objects: Store, m: Element): (r: Outcome)
    ensures r.Done? ==> r.reply.None?
  {
    match CheckAttack(cfg, objects, m)
    case Rejected(f) => Threw(f)
    case SpeedOff => Ignored
    case Checked(_, d, at, dt, success) => Done([AnimateUnitAttack(d, d, at, dt, success), RefreshCanvas(false)], None)
  }

  /**
   * "animateAttack" throws exactly when the attacker is missing or
   * unknown, or, with animation on for it, when the defender is missing or
   * unknown or either tile does not resolve.
   */
  lemma AnimateAttackThrows(cfg: Config, objects: Store, m: Element)
    ensures AnimateAttack(cfg, objects, m).Threw? <==>
      !UnitAttr(objects, m, "attacker")
      || (cfg.animationSpeed(UnitNamed(objects, m, Attr(m, "attacker"))) > 0
          && (!UnitAttr(objects, m, "defender")
              || Attr(m, "attackerTile") == "" || !TileNamed(objects, Attr(m, "attackerTile"))
              || Attr(m, "defenderTile") == "" || !TileNamed(objects, Attr(m, "defenderTile"))))
  {
  }

  /**
   * With animation off for the attacker, "animateAttack" does nothing and
   * replies nothing, whatever the defender and tile attributes say.
   */
  lemma AnimateAttackSpeedOff(cfg: Config, objects: Store, m: Element, attrs: map<string, string>)
    requires UnitAttr(objects, m, "attacker")
    requires cfg.animationSpeed(UnitNamed(objects, m, Attr(m, "attacker"))) <= 0
    requires "attacker" in attrs <==> "attacker" in m.attrs
    requires "attacker" in attrs ==> attrs["attacker"] == m.attrs["attacker"]
    ensures AnimateAttack(cfg, objects, m) == Ignored
    ensures AnimateAttack(cfg, objects, m.(attrs := attrs)) == Ignored
  {
    var m' := m.(attrs := attrs);
    assert Attr(m', "attacker") == Attr(m, "attacker");
    assert ResolveUnit(objects, m', Attr(m', "attacker")) == ResolveUnit(objects, m, Attr(m, "attacker"));
  }

  /**
   * When every check passes, "animateAttack" animates the named attacker
   * against the named defender between the named tiles, then repaints.
   */
  lemma AnimateAttackAnimates(cfg: Config, objects: Store, m: Element)
    requires !AnimateAttack(cfg, objects, m).Threw? && AnimateAttack(cfg, objects, m) != Ignored
    ensures AnimateAttack(cfg, objects, m).effects ==
      [AnimateUnitAttack(Attr(m, "attacker"), Attr(m, "defender"), Attr(m, "attackerTile"), Attr(m, "defenderTile"),
                         ParseBoolean(Attr(m, "success"))),
       RefreshCanvas(false)]
  {
  }

  /** As written, every attack that is animated is animated as the defender attacking itself. */
  lemma AnimateAttackAsWrittenSelfAttack(cfg: Config, objects: Store, m: Element)
    requires AnimateAttackAsWritten(cfg, objects, m).Done? && AnimateAttackAsWritten(cfg, objects, m) != Ignored
    ensures var x := AnimateAttackAsWritten(cfg, objects, m).effects[0];
      x.AnimateUnitAttack? && x.attacker == x.defender == Attr(m, "defender")
  {
  }

  /** An attack of unit "a" on unit "d": the Java handler animates "d" attacking "d". */
  lemma AnimateAttackAsWrittenCounterexample()
    ensures var u := Fresh(UnitKind, Element("unit", map["location" := "t"], []));
      var t := Fresh(TileKind, Element("tile", map[], []));
      var cfg := Config("me", {}, (o: GameObject) => 1, (o: GameObject) => false, (o: GameObject) => true,
                        (e: Element) => false, (e: Element) => None);
      var objects := map["a" := u, "d" := u, "t" := t];
      var m := Element("animateAttack",
                       map["attacker" := "a", "defender" := "d", "attackerTile" := "t", "defenderTile" := "t"], []);
      && AnimateAttack(cfg, objects, m).effects[0] == AnimateUnitAttack("a", "d", "t", "t", false)
      && AnimateAttackAsWritten(cfg, objects, m).effects[0] == AnimateUnitAttack("d", "d", "t", "t", false)
  {
    var u := Fresh(UnitKind, Element("unit", map["location" := "t"], []));
    var t := Fresh(TileKind, Element("tile", map[], []));
    var objects := map["a" := u, "d" := u, "t" := t];
    var m := Element("animateAttack",
                     map["attacker" := "a", "defender" := "d", "attackerTile" := "t", "defenderTile" := "t"], []);
    assert Attr(m, "attacker") == "a" && Attr(m, "defender") == "d";
    assert Attr(m, "attackerTile") == "t" && Attr(m, "defenderTile") == "t";
    assert Attr(m, "success") == "";
    assert LookupAs(objects, "a", UnitClass) == Some(u);
    assert LookupAs(objects, "d", UnitClass) == Some(u);
    assert TileNamed(objects, "t");
  }

  // ---------------------------------------------------------------------
  // "animateMove"

  /**
   * "animateMove": animate the named unit between the named tiles, then
   * repaint.  A missing or unknown unit or tile, or animation off, logs and
   * returns; only a carried unit with an unresolvable location throws.
   */
  function AnimateMove(cfg: Config, objects: Store, m: Element): (r: Outcome)
    ensures r.Done? ==> r.reply.None?
    ensures r.Threw? ==> r.failure == NullLocation(Attr(m, "unit"))
  {
    var uid := Attr(m, "unit");
    if uid == "" then Ignored
    else match ResolveUnit(objects, m, uid)
      case Failure(f) => Threw(f)
      case Success(None) => Ignored
      case Success(Some(u)) =>
        if cfg.animationSpeed(u) <= 0 then Ignored
        else
          var ot := Attr(m, "oldTile");
          var nt := Attr(m, "newTile");
          if ot == "" || !TileNamed(objects, ot) || nt == "" || !TileNamed(objects, nt) then Ignored
          else Done([AnimateUnitMove(uid, ot, nt), RefreshCanvas(false)], None)
  }

  /**
   * "animateMove" throws only for a carried unit whose location does not
   * resolve, and animates exactly when the unit and both tiles resolve and
   * animation is on for the unit.
   */
  lemma AnimateMoveOutcome(cfg: Config, objects: Store, m: Element)
    ensures var uid := Attr(m, "unit");
      AnimateMove(cfg, objects, m).Threw? <==>
        uid != "" && LookupAs(objects, uid, UnitClass).None?
        && FindById(m.children, uid).Some? && !CarriesUnit(objects, m, uid)
    ensures var uid := Attr(m, "unit");
      var r := AnimateMove(cfg, objects, m);
      (r.Done? && r.effects != []) <==>
        UnitAttr(objects, m, "unit") && cfg.animationSpeed(UnitNamed(objects, m, uid)) > 0
        && Attr(m, "oldTile") != "" && TileNamed(objects, Attr(m, "oldTile"))
        && Attr(m, "newTile") != "" && TileNamed(objects, Attr(m, "newTile"))
  {
  }

  // ---------------------------------------------------------------------
  // "indianDemand"

  /**
   * "indianDemand": a demand by the named unit on the named colony.  A
   * missing unit or colony is ignored; a colony my player does not own is
   * an error; otherwise the user decides and the reply is the message with
   * the decision as its "result".
   */
  function IndianDemand(cfg: Config, objects: Store, m: Element): (r: Outcome)
    ensures (LookupAs(objects, Attr(m, "unit"), UnitClass).None? || LookupAs(objects, Attr(m, "colony"), ColonyClass).None?)
      ==> r == Ignored
    ensures r.Threw? <==>
      && LookupAs(objects, Attr(m, "unit"), UnitClass).Some?
      && LookupAs(objects, Attr(m, "colony"), ColonyClass).Some?
      && objects[Attr(m, "colony")].owner != cfg.myPlayer
    ensures r.Threw? ==> r.failure == ForeignColony(Attr(m, "colony"))
    ensures r.Done? && r.reply.Some? ==>
      && r.effects == [AskIndianDemand(Attr(m, "unit"), Attr(m, "colony"))]
      && r.reply.value.tag == m.tag && r.reply.value.children == m.children
      && ParseBoolean(Attr(r.reply.value, "result")) == cfg.demandAnswer(m)
      && (forall a :: a != "result" ==> Attr(r.reply.value, a) == Attr(m, a))
  {
    var uid := Attr(m, "unit");
    var cid := Attr(m, "colony");
    if LookupAs(objects, uid, UnitClass).None? then Ignored
    else match LookupAs(objects, cid, ColonyClass)
      case None => Ignored
      case Some(colony) =>
        if colony.owner != cfg.myPlayer then Threw(ForeignColony(cid))
        else Done([AskIndianDemand(uid, cid)], Some(m.(attrs := m.attrs["result" := BoolString(cfg.demandAnswer(m))])))
  }

  /** Every demand on a colony of my player by a known unit is answered. */
  lemma IndianDemandAnswered(cfg: Config, objects: Store, m: Element)
    requires LookupAs(objects, Attr(m, "unit"), UnitClass).Some?
    requires LookupAs(objects, Attr(m, "colony"), ColonyClass).Some?
    requires objects[Attr(m, "colony")].owner == cfg.myPlayer
    ensures IndianDemand(cfg, objects, m).Done? && IndianDemand(cfg, objects, m).reply.Some?
  {
  }

  // ---------------------------------------------------------------------
  // "firstContact"

  /**
   * The checks of "firstContact": the player is my player, the other is a
   * different, native player, and a tile, when one is named and known,
   * belongs to the other.
   */
  predicate ValidContact(cfg: Config, objects: Store, m: Element)
  {
    var pid := Attr(m, "player");
    var oid := Attr(m, "other");
    var tid := Attr(m, "tile");
    && IsPlayer(objects, pid) && pid == cfg.myPlayer
    && IsPlayer(objects, oid) && oid != pid && cfg.isIndian(objects[oid])
    && (LookupAs(objects, tid, TileClass).Some? ==> objects[tid].owner == oid)
  }

  /** "firstContact": show the first-contact dialog when the contact checks out; never a reply, never an error. */
  function FirstContact(cfg: Config, objects: Store, m: Element): (r: Outcome)
    ensures r.Done? && r.reply.None?
    ensures r.effects != [] <==> ValidContact(cfg, objects, m)
    ensures r.effects != [] ==> r.effects == [ShowFirstContactDialog(Attr(m, "player"), Attr(m, "other"),
      if LookupAs(objects, Attr(m, "tile"), TileClass).Some? then Some(Attr(m, "tile")) else None)]
  {
    var pid := Attr(m, "player");
    if LookupAs(objects, pid, PlayerClass).None? || pid != cfg.myPlayer then Ignored
    else
      var oid := Attr(m, "other");
      match LookupAs(objects, oid, PlayerClass)
      case None => Ignored
      case Some(other) =>
        if oid == pid || !cfg.isIndian(other) then Ignored
        else
          var tid := Attr(m, "tile");
          match LookupAs(objects, tid, TileClass)
          case Some(tile) => if tile.owner != oid then Ignored else Done([ShowFirstContactDialog(pid, oid, Some(tid))], None)
          case None => Done([ShowFirstContactDialog(pid, oid, None)], None)
  }

  // ---------------------------------------------------------------------
  // "lootCargo"

  /** "lootCargo": offer the captured goods when the winning unit is known; never a reply, never an error. */
  function LootCargo(objects: Store, m: Element): (r: Outcome)
    ensures r.Done? && r.reply.None?
    ensures r.effects != [] <==> LookupAs(objects, Attr(m, "winner"), UnitClass).Some?
    ensures r.effects != [] ==> r.effects == [ShowCaptureGoodsDialog(Attr(m, "winner"), m.children, Attr(m, "loser"))]
  {
    var uid := Attr(m, "winner");
    if LookupAs(objects, uid, UnitClass).None? then Ignored
    else Done([ShowCaptureGoodsDialog(uid, m.children, Attr(m, "loser"))], None)
  }

  // ---------------------------------------------------------------------
  // "newLandName" and "newRegionName"

  /** `message.getUnit(getMyPlayer())`: a unit of my player, and null for any other unit. */
  predicate MyUnit(cfg: Config, objects: Store, id: Id)
  {
    LookupAs(objects, id, UnitClass).Some? && objects[id].owner == cfg.myPlayer
  }

  /**
   * "newLandName": ask the user to name the new land when my unit is known
   * and on a tile and a default name is given; never a reply, never an error.
   */
  function NewLandName(cfg: Config, objects: Store, m: Element): (r: Outcome)
    ensures r.Done? && r.reply.None?
    ensures r.effects != [] <==>
      MyUnit(cfg, objects, Attr(m, "unit")) && "newLandName" in m.attrs && cfg.hasTile(objects[Attr(m, "unit")])
    ensures r.effects != [] ==> r.effects == [AskNewLandName(m.attrs["newLandName"], Attr(m, "unit"))]
  {
    var uid := Attr(m, "unit");
    if !MyUnit(cfg, objects, uid) then Ignored
    else match OptAttr(m, "newLandName")
      case None => Ignored
      case Some(name) => if !cfg.hasTile(objects[uid]) then Ignored else Done([AskNewLandName(name, uid)], None)
  }

  /**
   * "newRegionName": ask the user to name the region when the region is
   * known and a default name is given, passing the tile and my unit when
   * they are known; never a reply, never an error.
   */
  function NewRegionName(cfg: Config, objects: Store, m: Element): (r: Outcome)
    ensures r.Done? && r.reply.None?
    ensures r.effects != [] <==> "newRegionName" in m.attrs && LookupAs(objects, Attr(m, "region"), RegionClass).Some?
    ensures r.effects != [] ==> r.effects == [AskNewRegionName(Attr(m, "region"), m.attrs["newRegionName"],
      if TileNamed(objects, Attr(m, "tile")) then Some(Attr(m, "tile")) else None,
      if MyUnit(cfg, objects, Attr(m, "unit")) then Some(Attr(m, "unit")) else None)]
  {
    var tid := Attr(m, "tile");
    var uid := Attr(m, "unit");
    var rid := Attr(m, "region");
    var tile := if TileNamed(objects, tid) then Some(tid) else None;
    var unit := if MyUnit(cfg, objects, uid) then Some(uid) else None;
    match OptAttr(m, "newRegionName")
    case None => Ignored
    case Some(name) =>
      if LookupAs(objects, rid, RegionClass).None? then Ignored
      else Done([AskNewRegionName(rid, name, tile, unit)], None)
  }

  // ---------------------------------------------------------------------
  // "diplomacy"

  /**
   * "diplomacy": with both parties known, the user considers the proposal
   * and the menu bar is refreshed; the reply is the message carrying the
   * agreement the user settled on, and there is none when the user settled
   * on none.
   */
  function Diplomacy(cfg: Config, objects: Store, m: Element): (r: Outcome)
    ensures r.Done?
    ensures r.effects != [] <==> Live(objects, Attr(m, "our")) && Live(objects, Attr(m, "other"))
    ensures r.effects != [] ==> r.effects == [AskDiplomacy(Attr(m, "our"), Attr(m, "other")), UpdateMenuBar]
    ensures r.reply.Some? <==> r.effects != [] && cfg.diplomacyAnswer(m).Some?
    ensures r.reply.Some? ==>
      r.reply.value.tag == m.tag && r.reply.value.attrs == m.attrs && r.reply.value.children == [cfg.diplomacyAnswer(m).value]
  {
    var our := Attr(m, "our");
    var other := Attr(m, "other");
    if !Live(objects, our) || !Live(objects, other) then Ignored
    else
      var reply := match cfg.diplomacyAnswer(m)
        case None => None
        case Some(agreement) => Some(m.(children := [agreement]));
      Done([AskDiplomacy(our, other), UpdateMenuBar], reply)
  }

  // ---------------------------------------------------------------------
  // "fountainOfYouth"

  /** "fountainOfYouth": ask for migrants only for a positive count; never a reply, never an error. */
  function FountainOfYouth(m: Element): (r: Outcome)
    ensures r.Done? && r.reply.None?
    ensures r.effects != [] <==> GetIntegerAttribute(m, "migrants") > 0
    ensures r.effects != [] ==> r.effects == [AskFountainOfYouth(GetIntegerAttribute(m, "migrants"))]
  {
    var n := GetIntegerAttribute(m, "migrants");
    if n > 0 then Done([AskFountainOfYouth(n)], None) else Ignored
  }

  /** A positive count the server writes is the count the user is asked for; a missing one asks nothing. */
  lemma FountainOfYouthCount(m: Element, n: int)
    requires 0 < n <= MaxInt
    ensures "migrants" !in m.attrs ==> FountainOfYouth(m) == Ignored
    ensures "migrants" in m.attrs && m.attrs["migrants"] == Decimal(n) ==>
      FountainOfYouth(m).effects == [AskFountainOfYouth(n)]
  {
    if "migrants" in m.attrs && m.attrs["migrants"] == Decimal(n) {
      GetIntegerAttributeRoundTrip(m, "migrants", n);
    }
  }

  // ---------------------------------------------------------------------
  // "spyResult"

  /**
   * "spyResult": exactly two children, the full and the normal view of a
   * known tile, make the GUI show the spied colony; anything else is
   * ignored; never a reply, never an error.
   */
  function SpyResult(objects: Store, m: Element): (r: Outcome)
    ensures r.Done? && r.reply.None?
    ensures r.effects != [] <==> |m.children| == 2 && TileNamed(objects, Attr(m, "tile"))
    ensures r.effects != [] ==> r.effects == [ShowSpyColonyPanel(Attr(m, "tile"), m.children[0], m.children[1])]
  {
    if |m.children| != 2 then Ignored
    else
      var tid := Attr(m, "tile");
      if !TileNamed(objects, tid) then Ignored
      else Done([ShowSpyColonyPanel(tid, m.children[0], m.children[1])], None)
  }

  /**
   * The runnable the spy panel is posted with: the tile reads itself from
   * the full view before the panel is shown.
   */
  function SpyPanelOpened(objects: Store, x: Effect): Store
    requires x.ShowSpyColonyPanel? && x.tile in objects
  {
    objects[x.tile := ReadFrom(objects[x.tile], x.full)]
  }

  /** The runnable the panel runs when it closes: the tile reads itself from the normal view. */
  function SpyPanelClosed(objects: Store, x: Effect): Store
    requires x.ShowSpyColonyPanel? && x.tile in objects
  {
    var shown := SpyPanelOpened(objects, x);
    shown[x.tile := ReadFrom(shown[x.tile], x.normal)]
  }

  /**
   * While the spy panel is open the tile holds the full view; once it has
   * closed, the store is as if the tile had only read the normal view, so
   * nothing privileged stays behind and no other entry changed.
   */
  lemma SpyResultRestores(objects: Store, m: Element)
    requires SpyResult(objects, m).effects != []
    ensures var x := SpyResult(objects, m).effects[0];
      var tid := Attr(m, "tile");
      && x.ShowSpyColonyPanel? && x.tile == tid && tid in objects
      && SpyPanelOpened(objects, x)[tid].state == m.children[0]
      && SpyPanelClosed(objects, x) == objects[tid := ReadFrom(objects[tid], m.children[1])]
      && SpyPanelClosed(objects, x)[tid].state == m.children[1]
  {
    var x := SpyResult(objects, m).effects[0];
    ReadFromTwice(objects[x.tile], x.full, x.normal);
  }

  // ---------------------------------------------------------------------
  // Handlers outside this model

  /**
   * "disconnect", "chat", "chooseFoundingFather", "closeMenus", "error",
   * "gameEnded", "monarchAction", "reconnect", "setAI", "setDead" and
   * "setStance": their work is handed over whole, with no reply.
   */
  function Delegate(m: Element): (r: Outcome)
    ensures r.Done? && r.reply.None? && r.effects == [Delegated(m)]
  {
    Done([Delegated(m)], None)
  }
}
