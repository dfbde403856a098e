# FreeCol client in-game message router, in Dafny

This project models `InGameInputHandler`, the FreeCol client's router for
in-game messages from the server. A message is an XML element. Its tag
selects a handler, and the handler does one or more of these:

- changes the client's copy of the game;
- hands work to the GUI or the in-game controller;
- replies to the server;
- throws.

After the handler runs, a "flush" attribute may ask for the model
messages to be displayed. A "multiple" message carries a batch of
messages, which are handled one by one.

The model works on these values:

- **Message** (`Dom.Element`): a tag, a map of attributes and a sequence
  of child elements. A missing attribute reads as `""`, as the DOM returns
  it.
- **Game** (`GameStore.Store`): a map from identifier to `GameObject`.
  Each object records:
  - its class;
  - its owner and location;
  - a disposed flag;
  - for players, their units, settlements, founding fathers, history,
    last sales, model messages and trade routes;
  - its abilities and modifiers;
  - the element it last read itself from.
- **Client state** (`GameStore.Client`): the store, the controller's
  current player, the GUI's active unit, and an `effects` log.
- **Effects log**: every `invokeLater`/`invokeAndWait`, every GUI call and
  every controller call is appended to it as an `Effect`, in order.
  Examples are the `invalidateCanSeeTiles` calls, repaints, animations,
  dialogs and the model-message display.
- **Oracles** (`GameStore.Config`): the user's decisions and the rules
  the router consults. These are:
  - the answer to an Indian demand, and the agreement settled in
    diplomacy;
  - the animation speed, `isIndian`, and whether a unit has a tile;
  - the specification's founding fathers.

The modules follow the structure of the handler:

- `Dom` holds the message tree and the pure helpers `getIntegerAttribute`
  (with `Integer.parseInt` written out for the 32-bit range), `selectElement`
  and the reply packing of `multiple`.
- `GameStore` holds the store, its typed lookup, the effects and the client state.
- `Apply` holds the five state-changing handlers `update`, `remove`,
  `addPlayer`, `addObject` and `featureChange` as folds over the children,
  plus `newTurn` and `setCurrentPlayer`, with lemmas stating what each
  leaves behind.
- `Requests` holds the handlers that only decide: `animateAttack`,
  `animateMove`, `indianDemand`, `firstContact`, `lootCargo`,
  `newLandName`, `newRegionName`, `diplomacy`, `fountainOfYouth`,
  `spyResult`, and `selectUnitFromElement`.
- `Router` holds the `switch` of `handle`, the flush rule and the batch of
  `multiple`.
- `Client` holds the class `InGameInputHandler`. Its fields are the store,
  the current player, the active unit and the effects log. Its methods walk
  the children of a message with `while` loops and update those fields in
  place, as the Java handlers do. Each one is proved to leave exactly the
  state that its specification function in `Apply` or `Router` describes.

The model follows the code in one place where a reader might expect
otherwise. Every missing or unknown unit or tile in `animateMove` is logged
and ignored, except one case: when the message carries an unknown unit
whose location does not resolve, `selectUnitFromElement` throws, and
`animateMove` does not catch it. The model throws there too.

## Model

All source paths are `src/net/sf/freecol/client/control/InGameInputHandler.java`.

| member | source | states |
|---|---|---|
| Dom.ParseInt | src/net/sf/freecol/client/control/InGameInputHandler.java:187-195 | `Integer.parseInt` in radix 10: a value is always inside the 32-bit range; the empty string, a lone sign, a string not starting with a sign or digit, and a sign followed by a non-digit never parse; a negative value comes only from a leading '-' |
| Dom.GetIntegerAttribute | src/net/sf/freecol/client/control/InGameInputHandler.java:187-195 | the result is in the 32-bit range, and is `Integer.MIN_VALUE` whenever the attribute does not parse, in particular when it is missing |
| Dom.ParseIntRoundTrip | src/net/sf/freecol/client/control/InGameInputHandler.java:187-195 | every integer written in decimal, with a leading '-' when negative, parses back to itself when it is inside the 32-bit range and is rejected when it is outside |
| Dom.GetIntegerAttributeRoundTrip | src/net/sf/freecol/client/control/InGameInputHandler.java:187-195 | an attribute holding the decimal text of a 32-bit integer reads back as that integer |
| Dom.FindById | src/net/sf/freecol/client/control/InGameInputHandler.java:206-213 | no child is found exactly when no child has the identifier; a found child is one of the children and has the identifier |
| Dom.FindByIdFirst | src/net/sf/freecol/client/control/InGameInputHandler.java:206-213 | a child carrying the identifier, with no child before it carrying it, is the one found |
| Dom.SelectElement | src/net/sf/freecol/client/control/InGameInputHandler.java:206-213 | the scan returns the first child with the identifier, or none when no child has it |
| Dom.Collapse | src/net/sf/freecol/client/control/InGameInputHandler.java:919 | packing the kept replies gives no reply exactly when there are none; otherwise unpacking gives back all of them in order |
| Requests.SelectUnitFromElement | src/net/sf/freecol/client/control/InGameInputHandler.java:225-236 | no unit when no child has the identifier; the unit built from the first such child when its location resolves; a null-location failure otherwise |
| Requests.ResolveUnit | src/net/sf/freecol/client/control/InGameInputHandler.java:422-423 | a unit is found exactly when the store knows it as a unit or the message carries it with a resolvable location; the only failure is a null location for that identifier |
| Router.HandleSpec | src/net/sf/freecol/client/control/InGameInputHandler.java:245-314 | a null message fails and changes nothing; a message with an unsupported tag returns no reply and changes nothing |
| Router.UnsupportedIgnored | src/net/sf/freecol/client/control/InGameInputHandler.java:312-314 | an unsupported tag returns no reply, leaves the state as it was and schedules no display, because it returns before the flush check |
| Router.DispatchFailureUnchanged | src/net/sf/freecol/client/control/InGameInputHandler.java:245-327 | a handler that throws leaves the client state exactly as it was: in this model every check comes before every change (the unit `selectUnitFromElement` builds before it throws is not part of the store; see Left out) |
| Router.FlushRule | src/net/sf/freecol/client/control/InGameInputHandler.java:320-327 | after a supported handler other than `multiple`, the reply is the handler's own reply, and a model-message display is scheduled exactly when the handler did not throw, "flush" is "true" and the current player it left is my player |
| Router.NewTurnNeverFlushes | src/net/sf/freecol/client/control/InGameInputHandler.java:968-983 | "newTurn" never schedules a display, whatever its "flush" attribute, because it clears the current player first; it replies nothing |
| Router.MultipleNeverThrows | src/net/sf/freecol/client/control/InGameInputHandler.java:906-920 | `multiple` never throws, because every child's exception is caught |
| Router.BatchAppend | src/net/sf/freecol/client/control/InGameInputHandler.java:909-917 | handling the children in two parts is handling the second part on the state the first part left |
| Router.BatchSkipsFailure | src/net/sf/freecol/client/control/InGameInputHandler.java:910-917 | a child that throws contributes nothing: the batch ends as if that child were absent, and every later child is still handled |
| Router.BatchKeepsOrder | src/net/sf/freecol/client/control/InGameInputHandler.java:906-920 | the replies kept so far are a prefix of the final replies, and each child adds at most one reply |
| Router.BatchStepReply | src/net/sf/freecol/client/control/InGameInputHandler.java:912-913 | a child that returns a reply has exactly that reply appended after the replies of the children before it |
| Router.MultipleReply | src/net/sf/freecol/client/control/InGameInputHandler.java:906-920 | `multiple` succeeds; it returns no reply exactly when no child replied; otherwise its reply unpacks to the kept replies in child order |
| Apply.UpdateAllResult | src/net/sf/freecol/client/control/InGameInputHandler.java:1199-1207 | every live object named by a child has read itself from the last child naming it; every other entry is unchanged; no entry appears, disappears, changes class or stops resolving |
| Apply.UpdateVisibility | src/net/sf/freecol/client/control/InGameInputHandler.java:1208-1212 | `visibilityChange` is set exactly when some child resolved to my player, or to a settlement or unit that my player owns |
| Apply.UpdateInvalidatesOnce | src/net/sf/freecol/client/control/InGameInputHandler.java:1195-1219 | "update" invalidates my player's visible tiles at most once, exactly when some child qualifies; then it repaints; the current player and the active unit are unchanged |
| Apply.RemoveAllResult | src/net/sf/freecol/client/control/InGameInputHandler.java:1013-1053 | no entry appears or disappears; exactly the live objects the children name are disposed and stop resolving; besides that, an entry changes only in its unit and settlement collections, and only a player entry's collections change, whether or not that player is live; the active unit is deselected exactly when a child names it as a live unit, and kept otherwise; the work handed over keeps its old prefix, and the new tail holds exactly the model-message diversions for the live named objects, when the "divert" object exists, and the deselection (the counts are `Apply.RemoveWorkCounts`); the flag is set exactly when some child named a live settlement or unit |
| Apply.RemoveUntouched | src/net/sf/freecol/client/control/InGameInputHandler.java:1017-1024 | an entry that no child names and that owns none of the named settlements and units is left exactly as it was, so unknown identifiers change nothing |
| Apply.RemoveDetaches | src/net/sf/freecol/client/control/InGameInputHandler.java:1028-1043 | every player the store holds, disposed or not, loses exactly the named live settlements and units it owned from its collections; a player the same message removes loses them whichever child comes first, because `getOwner()` still refers to the disposed owner |
| Apply.RemoveWorkCounts | src/net/sf/freecol/client/control/InGameInputHandler.java:1025-1039 | the work handed over while walking the children holds exactly one diversion of each live named object's messages when the "divert" object exists, however often the children name it, and none otherwise; it holds exactly one deselection when the active unit is removed, and none otherwise |
| Apply.RemoveInvalidatesOnce | src/net/sf/freecol/client/control/InGameInputHandler.java:1006-1057 | "remove" invalidates my player's visible tiles at most once, exactly when some child named a live settlement or unit, whoever owns it; it ends with a repaint; exactly the named objects stop resolving |
| Apply.AddPlayerResult | src/net/sf/freecol/client/control/InGameInputHandler.java:385-399 | a known player reads itself from the last child naming it; any other identifier gets a new player built from that child; no other entry changes; every non-empty child identifier then resolves to a player |
| Apply.AddObjectResult | src/net/sf/freecol/client/control/InGameInputHandler.java:340-376 | only live players change; each gains the known founding fathers and the history, last-sale, model-message and trade-route children it owns, in child order; children with a broken owner change nothing; one invalidation is handed over per founding-father child with a live owner |
| Apply.FeatureAllResult | src/net/sf/freecol/client/control/InGameInputHandler.java:717-739 | "featureChange" adds every ability and modifier child to the object, or removes every one, and changes nothing else about it |
| Apply.NewTurnSpec | src/net/sf/freecol/client/control/InGameInputHandler.java:968-983 | the current player is cleared; the store and the active unit are unchanged; the new turn number, a repaint and a menu-bar refresh are handed over, in that order |
| Apply.NewTurnNumber | src/net/sf/freecol/client/control/InGameInputHandler.java:969-976 | a turn number the server writes in decimal is the number the controller is told |
| Apply.SetCurrentPlayerSpec | src/net/sf/freecol/client/control/InGameInputHandler.java:1082-1091 | the current player is the named identifier exactly when it resolves to a live player, and nobody otherwise; the store is unchanged; a focused repaint follows |
| Router.SetCurrentPlayerFlushes | src/net/sf/freecol/client/control/InGameInputHandler.java:1082-1091 | after "setCurrentPlayer" is handled, it replies nothing, a current player, if there is one, is a live player, and the model messages are displayed exactly when "flush" is "true" and the named player is my player and live |
| Requests.CheckAttack | src/net/sf/freecol/client/control/InGameInputHandler.java:418-466 | a missing attacker attribute is rejected as such; a passed check carries the four named identifiers and the parsed "success"; animation off happens only for a resolved attacker with speed at most 0 |
| Requests.AnimateAttackThrows | src/net/sf/freecol/client/control/InGameInputHandler.java:418-463 | "animateAttack" throws exactly when the attacker is missing or unresolved, or, with animation on, when the defender is missing or unresolved or either tile is missing or unknown |
| Requests.AnimateAttackSpeedOff | src/net/sf/freecol/client/control/InGameInputHandler.java:432 | with animation off for the attacker, "animateAttack" does nothing and replies nothing, whatever the defender and tile attributes are |
| Requests.AnimateAttack | src/net/sf/freecol/client/control/InGameInputHandler.java:411-479 | "animateAttack", corrected, never replies |
| Requests.AnimateAttackAnimates | src/net/sf/freecol/client/control/InGameInputHandler.java:465-478 | when every check passes, the corrected handler animates the named attacker against the named defender between the named tiles, then repaints |
| Requests.AnimateAttackAsWritten | src/net/sf/freecol/client/control/InGameInputHandler.java:434-478 | "animateAttack" as written never replies |
| Requests.AnimateAttackAsWrittenSelfAttack | src/net/sf/freecol/client/control/InGameInputHandler.java:434-475 | as written, every animated attack shows the defender attacking itself |
| Requests.AnimateAttackAsWrittenCounterexample | src/net/sf/freecol/client/control/InGameInputHandler.java:467-475 | a concrete attack of unit "a" on unit "d": the corrected handler animates "a" against "d", while the code as written animates "d" against "d" |
| Requests.AnimateMove | src/net/sf/freecol/client/control/InGameInputHandler.java:492-555 | "animateMove" never replies; when it throws, the failure is a null location for the named unit |
| Requests.AnimateMoveOutcome | src/net/sf/freecol/client/control/InGameInputHandler.java:492-555 | it throws exactly for an unknown unit that the message carries with an unresolvable location; it animates exactly when the unit and both tiles resolve and animation is on for the unit |
| Requests.IndianDemand | src/net/sf/freecol/client/control/InGameInputHandler.java:830-861 | a missing unit or colony gives no reply and does nothing; it throws exactly for a colony my player does not own; otherwise the user is asked and the reply is the message with "result" set to the user's decision, every other attribute unchanged |
| Requests.IndianDemandAnswered | src/net/sf/freecol/client/control/InGameInputHandler.java:836-860 | every demand by a known unit on a colony of my player gets a reply |
| Requests.FirstContact | src/net/sf/freecol/client/control/InGameInputHandler.java:750-774 | the dialog is shown exactly when the player is my player, the other is a different native player, and the named tile, when it is known, belongs to the other; never a reply, never an error |
| Requests.LootCargo | src/net/sf/freecol/client/control/InGameInputHandler.java:870-880 | the capture dialog is offered exactly when the winning unit is known; it carries the goods and the loser; never a reply, never an error |
| Requests.NewLandName | src/net/sf/freecol/client/control/InGameInputHandler.java:929-939 | the user is asked exactly when the unit is my player's, is on a tile, and a default name is given; never a reply, never an error |
| Requests.NewRegionName | src/net/sf/freecol/client/control/InGameInputHandler.java:948-959 | the user is asked exactly when a default name is given and the region is known; the tile and my unit are passed only when known |
| Requests.Diplomacy | src/net/sf/freecol/client/control/InGameInputHandler.java:620-648 | with both parties known, the user is asked and the menu bar refreshed, otherwise nothing; the reply exists exactly when the user settled on an agreement, and it is the message carrying that agreement |
| Requests.FountainOfYouth | src/net/sf/freecol/client/control/InGameInputHandler.java:783-792 | migrants are asked for exactly when the count is positive, for that count; never a reply, never an error |
| Requests.FountainOfYouthCount | src/net/sf/freecol/client/control/InGameInputHandler.java:783-792 | a missing count asks nothing; a positive count the server writes is the count the user is asked for |
| Requests.SpyResult | src/net/sf/freecol/client/control/InGameInputHandler.java:1145-1186 | the spy panel is shown exactly when there are two children and the tile is known, with the full and normal views in that order; never a reply, never an error |
| Requests.SpyResultRestores | src/net/sf/freecol/client/control/InGameInputHandler.java:1166-1183 | for the panel `spyResult` posts: while it is open the tile holds the full view; after it closes the store is the old store with the tile read from the normal view only, so nothing privileged stays behind and no other entry changed |
| Requests.Delegate | src/net/sf/freecol/client/control/InGameInputHandler.java:253-311 | the handlers outside this model hand the message over whole and reply nothing |
| Client.InGameInputHandler.constructor | src/net/sf/freecol/client/control/InGameInputHandler.java:130-132 | a new router starts on the given store with no current player, no active unit and nothing handed over |
| Client.InGameInputHandler.Handle | src/net/sf/freecol/client/control/InGameInputHandler.java:245-328 | the reply and the new state are those of `Router.HandleSpec` on the old state |
| Client.InGameInputHandler.Dispatch | src/net/sf/freecol/client/control/InGameInputHandler.java:250-327 | the reply and the new state are those of the tag's handler followed by the flush rule (`Router.DispatchSpec`) |
| Client.InGameInputHandler.Multiple | src/net/sf/freecol/client/control/InGameInputHandler.java:906-920 | the loop handles every child on the state the previous one left and keeps the non-null replies in order (`Router.Batch`); the reply is their packing |
| Client.InGameInputHandler.Update | src/net/sf/freecol/client/control/InGameInputHandler.java:1195-1219 | the store, flag and effects after the loop are those of `Apply.UpdateSpec` |
| Client.InGameInputHandler.Remove | src/net/sf/freecol/client/control/InGameInputHandler.java:1006-1057 | the store, active unit and effects after the loop are those of `Apply.RemoveSpec` |
| Client.InGameInputHandler.AddPlayer | src/net/sf/freecol/client/control/InGameInputHandler.java:385-399 | the store after the loop is that of `Apply.AddPlayerSpec` |
| Client.InGameInputHandler.AddObject | src/net/sf/freecol/client/control/InGameInputHandler.java:340-376 | the store and effects after the loop are those of `Apply.AddObjectSpec` |
| Client.InGameInputHandler.FeatureChange | src/net/sf/freecol/client/control/InGameInputHandler.java:706-741 | the named object after the loop is that of `Apply.FeatureChangeSpec`; an unknown object changes nothing |
| Client.InGameInputHandler.NewTurn | src/net/sf/freecol/client/control/InGameInputHandler.java:968-983 | the new state is that of `Apply.NewTurnSpec` |
| Client.InGameInputHandler.SetCurrentPlayer | src/net/sf/freecol/client/control/InGameInputHandler.java:1082-1091 | the new state is that of `Apply.SetCurrentPlayerSpec` |

## Left out

- Threads: no concurrency is modelled. Each `invokeLater` and `invokeAndWait` runnable is one entry in the effects log, in posting order. A synchronous deselection is applied to the active unit at once.
- The GUI and the in-game controller: animations, dialogs, repaints, menu-bar refreshes and `igc()` calls have no behaviour here beyond their entries in the log. The user's decisions in `indianDemand` and `diplomacy` are oracle functions of the message.
- XML decoding and object construction (`readFromXMLElement`, `new Player`, `new Unit`, `new HistoryEvent` and similar): an object reads only its owner and location attributes and keeps the element as its state. List entries are the child elements themselves.
- `selectUnitFromElement`: the unit it builds is not added to the game, and its location is resolved only against the store.
- The message wrapper classes are not part of this model. The attribute names they would read are assumptions:
  - `firstContact`: "player", "other", "tile";
  - `lootCargo`: "winner", "loser", with the goods as the children;
  - `newLandName`: "unit", "newLandName";
  - `newRegionName`: "tile", "unit", "region", "newRegionName";
  - `diplomacy`: "our", "other", with the agreement as a child;
  - `indianDemand`: "unit", "colony", "result".
  - `message.getUnit(getMyPlayer())` in `newLandName` and `newRegionName` is taken to give the unit only when my player owns it, and null otherwise (`Requests.MyUnit`).
- `DOMMessage.collapseElements` is not part of this model. It is modelled as order-preserving packing: one reply is sent as it is, several are wrapped in a "multiple" element.
- Requests.FirstContact: does not model the settlement count that `firstContact` passes to the dialog.
- Requests.IndianDemand: does not model the demanded goods type and amount; the dialog receives only the unit and the colony.
- Apply.AddObjectResult: a last sale is appended to a list, not keyed by its location and goods as `Player.addLastSale` may do.
- Apply.FeatureAllResult: abilities and modifiers are compared as the elements they are read from, not by `Ability`/`Modifier` equality.
- `Player.owns` is owner equality. `isIndian`, `getAnimationSpeed` and "the unit has a tile" are given predicates.
- Router.FlushRule: stated for every supported handler except `multiple`, whose children may each schedule a display of their own; for `multiple` the display after the batch follows the same rule in `Router.DispatchSpec`.
- The handlers `disconnect`, `chat`, `chooseFoundingFather`, `closeMenus`, `error`, `gameEnded`, `monarchAction`, `reconnect`, `setDead` and `setStance` are handed over whole to the GUI or the controller; their own failure modes are not modelled.
- `setAI` is also handed over whole, but the Java handler sets the AI flag of a player in the store and throws when the player is unknown. The model neither changes the store for it nor throws.
- `divertModelMessages` moves my player's model messages about a removed object to the "divert" object. The model records it as a `DivertModelMessages` effect and does not change my player's message list.
- Router.Decide: routes "animateAttack" to the corrected `Requests.AnimateAttack`, so `Router.HandleSpec`, `Router.DispatchSpec` and `Client.InGameInputHandler.Handle` describe the handler as intended, not as written. The code as written is `Requests.AnimateAttackAsWritten`; see Findings.
- Requests.SpyResultRestores: the two reads run inside the deferred runnables of the `ShowSpyColonyPanel` effect. `Requests.SpyPanelOpened` and `Requests.SpyPanelClosed` apply them to the store, and `readFromXMLElement` is the `GameStore.ReadFrom` abstraction above.
- `disposeUnits` is not reachable from `handle` and is not modelled.
- `Integer.parseInt` accepting non-ASCII digits is not modelled; only '0' to '9' are digits.
- Text nodes among the children are not modelled: every child is an element.
- Logging and `FreeColDebugger.finishDebugRun` are not modelled.

## Findings

| source | as written | input that shows it | evidently intended | confidence | as-written member | corrected member |
|---|---|---|---|---|---|---|
| src/net/sf/freecol/client/control/InGameInputHandler.java:469 | `final Unit attacker = u;` runs after `u` has been reassigned to the defender (line 438), so `animateUnitAttack` receives the defender as the attacker | an "animateAttack" with attacker "a", defender "d", both tiles "t", animation on: the animation shows "d" attacking "d" | the animation shows the unit named by "attacker" attacking the defender | not executed | Requests.AnimateAttackAsWrittenCounterexample | Requests.AnimateAttackAnimates |
