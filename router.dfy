/**
 * The dispatcher `handle` and the batch handler `multiple`: which handler a
 * tag selects, the "flush" rule applied after a handler has run, and the
 * handling of each child of a batch in order, a throwing child being
 * skipped.
 */
module Router {
  import opened Dom
  import opened GameStore
  import opened Apply
  import opened Requests

  /** The handlers that change the client state. */
  datatype Applier = UpdateA | RemoveA | AddPlayerA | AddObjectA | FeatureChangeA | NewTurnA | SetCurrentPlayerA

  /** The handlers that only decide. */
  datatype Decider =
    | AnimateAttackD | AnimateMoveD | DiplomacyD | FirstContactD | FountainOfYouthD | IndianDemandD
    | LootCargoD | NewLandNameD | NewRegionNameD | SpyResultD | DelegatedD

  datatype Handler = Applies(applier: Applier) | Decides(decider: Decider) | MultipleH | UnsupportedH

  /** The `switch` of `handle`: the tag each handler is registered under. */
  const Handlers: map<string, Handler> := map[
    "addObject" := Applies(AddObjectA),
    "addPlayer" := Applies(AddPlayerA),
    "animateAttack" := Decides(AnimateAttackD),
    "animateMove" := Decides(AnimateMoveD),
    "diplomacy" := Decides(DiplomacyD),
    "featureChange" := Applies(FeatureChangeA),
    "firstContact" := Decides(FirstContactD),
    "fountainOfYouth" := Decides(FountainOfYouthD),
    "indianDemand" := Decides(IndianDemandD),
    "lootCargo" := Decides(LootCargoD),
    "multiple" := MultipleH,
    "newLandName" := Decides(NewLandNameD),
    "newRegionName" := Decides(NewRegionNameD),
    "newTurn" := Applies(NewTurnA),
    "remove" := Applies(RemoveA),
    "setCurrentPlayer" := Applies(SetCurrentPlayerA),
    "spyResult" := Decides(SpyResultD),
    "update" := Applies(UpdateA),
    "disconnect" := Decides(DelegatedD),
    "chat" := Decides(DelegatedD),
    "chooseFoundingFather" := Decides(DelegatedD),
    "closeMenus" := Decides(DelegatedD),
    "error" := Decides(DelegatedD),
    "gameEnded" := Decides(DelegatedD),
    "monarchAction" := Decides(DelegatedD),
    "reconnect" := Decides(DelegatedD),
    "setAI" := Decides(DelegatedD),
    "setDead" := Decides(DelegatedD),
    "setStance" := Decides(DelegatedD)
  ]

  function HandlerFor(tag: string): Handler
  {
    if tag in Handlers then Handlers[tag] else UnsupportedH
  }

  function ApplySpec(cfg: Config, s: Client, m: Element, a: Applier): Client
  {
    match a
    case UpdateA => UpdateSpec(cfg, s, m)
    case RemoveA => RemoveSpec(cfg, s, m)
    case AddPlayerA => AddPlayerSpec(s, m)
    case AddObjectA => AddObjectSpec(cfg, s, m)
    case FeatureChangeA => FeatureChangeSpec(s, m)
    case NewTurnA => NewTurnSpec(s, m)
    case SetCurrentPlayerA => SetCurrentPlayerSpec(s, m)
  }

  function Decide(cfg: Config, objects: Store, m: Element, d: Decider): Outcome
  {
    match d
    case AnimateAttackD => AnimateAttack(cfg, objects, m)
    case AnimateMoveD => AnimateMove(cfg, objects, m)
    case DiplomacyD => Diplomacy(cfg, objects, m)
    case FirstContactD => FirstContact(cfg, objects, m)
    case FountainOfYouthD => FountainOfYouth(m)
    case IndianDemandD => IndianDemand(cfg, objects, m)
    case LootCargoD => LootCargo(objects, m)
    case NewLandNameD => NewLandName(cfg, objects, m)
    case NewRegionNameD => NewRegionName(cfg, objects, m)
    case SpyResultD => SpyResult(objects, m)
    case DelegatedD => Delegate(m)
  }

  /** The replies `multiple` has kept so far, and the client state. */
  datatype Batched = Batched(client: Client, replies: seq<Element>)

  /** What `multiple` keeps of one child's outcome: a non-null reply; nothing for null or an exception. */
  function Kept(r: Reply): seq<Element>
  {
    if r.Success? && r.value.Some? then [r.value.value] else []
  }

  /** The flush rule: "flush" is exactly "true" and the current player is my player. */
  predicate Flushes(cfg: Config, m: Element, c: Client)
  {
    Attr(m, "flush") == "true" && c.currentPlayer == Some(cfg.myPlayer)
  }

  /**
   * `handle` on a message: an unsupported tag returns no reply before the
   * flush check; otherwise the handler runs and, unless it threw, the
   * model messages are displayed when the flush rule holds.
   */
  function DispatchSpec(cfg: Config, s: Client, m: Element): Step
    decreases m, 1
  {
    var h := HandlerFor(m.tag);
    if h == UnsupportedH then Step(s, Success(None))
    else
      var st := RunHandler(cfg, s, m, h);
      if st.reply.Success? && Flushes(cfg, m, st.client)
      then Step(st.client.(effects := st.client.effects + [DisplayModelMessages]), st.reply)
      else st
  }

  function RunHandler(cfg: Config, s: Client, m: Element, h: Handler): Step
    decreases m, 0
  {
    match h
    case Applies(a) => Step(ApplySpec(cfg, s, m, a), Success(None))
    case Decides(d) =>
      (match Decide(cfg, s.objects, m, d)
       case Threw(f) => Step(s, Failure(f))
       case Done(fx, r) => Step(s.(effects := s.effects + fx), Success(r)))
    case MultipleH =>
      var b := Batch(cfg, Batched(s, []), m.children);
      Step(b.client, Success(Collapse(b.replies)))
    case UnsupportedH => Step(s, Success(None))
  }

  /** `multiple`: each child handled in order on the state the previous one left, its reply kept if non-null. */
  function Batch(cfg: Config, acc: Batched, kids: seq<Element>): Batched
    decreases kids
  {
    if kids == [] then acc
    else
      var prev := Batch(cfg, acc, kids[..|kids| - 1]);
      var st := DispatchSpec(cfg, prev.client, kids[|kids| - 1]);
      Batched(st.client, prev.replies + Kept(st.reply))
  }

  /** `handle`: a null message is an error; otherwise dispatch on its tag. */
  function HandleSpec(cfg: Config, s: Client, m: Option<Element>): (st: Step)
    ensures m.None? ==> st == Step(s, Failure(NullMessage))
    ensures m.Some? && HandlerFor(m.value.tag) == UnsupportedH ==> st == Step(s, Success(None))
  {
    match m
    case None => Step(s, Failure(NullMessage))
    case Some(e) => DispatchSpec(cfg, s, e)
  }

  // ---------------------------------------------------------------------
  // Properties

  /** A handler that throws has changed nothing: every check precedes every change. */
  lemma DispatchFailureUnchanged(cfg: Config, s: Client, m: Element)
    ensures DispatchSpec(cfg, s, m).reply.Failure? ==> DispatchSpec(cfg, s, m).client == s
  {
  }

  /** `multiple` never throws: a child's exception is caught. */
  lemma MultipleNeverThrows(cfg: Config, s: Client, m: Element)
    requires HandlerFor(m.tag) == MultipleH
    ensures DispatchSpec(cfg, s, m).reply.Success?
  {
  }

  /** Handling a batch in two parts is handling the second part after the first. */
  lemma {:induction false} BatchAppend(cfg: Config, acc: Batched, a: seq<Element>, b: seq<Element>)
    ensures Batch(cfg, acc, a + b) == Batch(cfg, Batch(cfg, acc, a), b)
    decreases b
  {
    if b == [] {
      assert a + b == a;
    } else {
      assert (a + b)[..|a + b| - 1] == a + b[..|b| - 1];
      assert (a + b)[|a + b| - 1] == b[|b| - 1];
      BatchAppend(cfg, acc, a, b[..|b| - 1]);
    }
  }

  /**
   * A child whose handling throws contributes nothing to `multiple`: the
   * batch ends exactly as if that child were absent, every later child
   * still being handled.
   */
  lemma BatchSkipsFailure(cfg: Config, acc: Batched, before: seq<Element>, k: Element, after: seq<Element>)
    requires DispatchSpec(cfg, Batch(cfg, acc, before).client, k).reply.Failure?
    ensures Batch(cfg, acc, before + [k] + after) == Batch(cfg, acc, before + after)
  {
    var mid := Batch(cfg, acc, before);
    DispatchFailureUnchanged(cfg, mid.client, k);
    BatchAppend(cfg, acc, before, [k]);
    assert [k][..0] == [];
    assert Batch(cfg, acc, before + [k]) == mid;
    BatchAppend(cfg, acc, before + [k], after);
    BatchAppend(cfg, acc, before, after);
  }

  /**
   * `multiple` keeps what it had and adds at most one reply per child, in
   * child order: the replies so far are a prefix of the replies at the end.
   */
  lemma {:induction false} BatchKeepsOrder(cfg: Config, acc: Batched, kids: seq<Element>)
    ensures var r := Batch(cfg, acc, kids).replies;
      |acc.replies| <= |r| <= |acc.replies| + |kids| && r[..|acc.replies|] == acc.replies
    decreases kids
  {
    if kids != [] {
      BatchKeepsOrder(cfg, acc, kids[..|kids| - 1]);
      var prev := Batch(cfg, acc, kids[..|kids| - 1]).replies;
      var st := DispatchSpec(cfg, Batch(cfg, acc, kids[..|kids| - 1]).client, kids[|kids| - 1]);
      assert (prev + Kept(st.reply))[..|acc.replies|] == prev[..|acc.replies|];
    }
  }

  /** One more child of a batch: it is handled on the state the children before it left. */
  lemma BatchStep(cfg: Config, acc: Batched, kids: seq<Element>, i: nat)
    requires i < |kids|
    ensures var prev := Batch(cfg, acc, kids[..i]);
      var st := DispatchSpec(cfg, prev.client, kids[i]);
      Batch(cfg, acc, kids[..i + 1]) == Batched(st.client, prev.replies + Kept(st.reply))
  {
    var k := kids[..i + 1];
    assert k[..|k| - 1] == kids[..i];
    assert k[|k| - 1] == kids[i];
  }

  /** The loop of `multiple` one child further, `c` and `r` being what handling that child left and returned. */
  lemma BatchAfter(cfg: Config, acc: Batched, kids: seq<Element>, i: nat, prev: Client, results: seq<Element>, c: Client, r: Reply)
    requires i < |kids|
    requires Batch(cfg, acc, kids[..i]) == Batched(prev, results)
    requires Step(c, r) == DispatchSpec(cfg, prev, kids[i])
    ensures Batch(cfg, acc, kids[..i + 1]) == Batched(c, results + Kept(r))
  {
    BatchStep(cfg, acc, kids, i);
  }

  /** One child's reply is the one `multiple` appends after those of the children before it. */
  lemma BatchStepReply(cfg: Config, acc: Batched, kids: seq<Element>, i: nat, e: Element)
    requires i < |kids|
    requires DispatchSpec(cfg, Batch(cfg, acc, kids[..i]).client, kids[i]).reply == Success(Some(e))
    ensures Batch(cfg, acc, kids[..i + 1]).replies == Batch(cfg, acc, kids[..i]).replies + [e]
  {
    BatchStep(cfg, acc, kids, i);
  }

  /** The reply of `multiple` carries the kept replies, in order, and there is none when none was kept. */
  lemma MultipleReply(cfg: Config, s: Client, m: Element)
    requires HandlerFor(m.tag) == MultipleH
    ensures var b := Batch(cfg, Batched(s, []), m.children);
      var reply := RunHandler(cfg, s, m, MultipleH).reply;
      && reply.Success?
      && (reply.value.None? <==> b.replies == [])
      && (reply.value.Some? ==> Unpack(reply.value.value, |b.replies|) == b.replies)
  {
  }

  /** An unsupported tag returns no reply, changes nothing and schedules no display. */
  lemma UnsupportedIgnored(cfg: Config, s: Client, m: Element)
    requires HandlerFor(m.tag) == UnsupportedH
    ensures DispatchSpec(cfg, s, m) == Step(s, Success(None))
  {
  }

  /** `s'` keeps the work `s` had handed over and adds no model-message display to it. */
  predicate AppendsNoDisplay(s: Client, s': Client)
  {
    |s.effects| <= |s'.effects| && s'.effects[..|s.effects|] == s.effects
    && DisplayModelMessages !in s'.effects[|s.effects|..]
  }

  lemma AppendsTail(s: Client, s': Client, tail: seq<Effect>)
    requires s'.effects == s.effects + tail
    requires DisplayModelMessages !in tail
    ensures AppendsNoDisplay(s, s')
  {
    assert s'.effects[..|s.effects|] == s.effects;
    assert s'.effects[|s.effects|..] == tail;
  }

  lemma ClosingNoDisplay(my: Id, vis: bool)
    ensures DisplayModelMessages !in Closing(my, vis)
  {
    if vis {
      assert Closing(my, vis) == [InvalidateCanSeeTiles(my), RefreshCanvas(false)];
    } else {
      assert Closing(my, vis) == [RefreshCanvas(false)];
    }
  }

  lemma UpdateNoDisplay(cfg: Config, s: Client, m: Element)
    ensures AppendsNoDisplay(s, UpdateSpec(cfg, s, m))
  {
    var vis := UpdateAll(cfg.myPlayer, s.objects, m.children).1;
    ClosingNoDisplay(cfg.myPlayer, vis);
    AppendsTail(s, UpdateSpec(cfg, s, m), Closing(cfg.myPlayer, vis));
  }

  lemma RemoveNoDisplay(cfg: Config, s: Client, m: Element)
    ensures AppendsNoDisplay(s, RemoveSpec(cfg, s, m))
  {
    var acc0 := RemoveAcc(s.objects, s.activeUnit, [], false);
    var divert := DivertOf(s.objects, m);
    RemoveAllEffects(divert, acc0, m.children);
    var acc := RemoveAll(divert, acc0, m.children);
    ClosingNoDisplay(cfg.myPlayer, acc.vis);
    var tail := acc.effects + Closing(cfg.myPlayer, acc.vis);
    assert DisplayModelMessages !in acc.effects;
    assert RemoveSpec(cfg, s, m).effects == s.effects + tail;
    AppendsTail(s, RemoveSpec(cfg, s, m), tail);
  }

  lemma AddObjectNoDisplay(cfg: Config, s: Client, m: Element)
    ensures AppendsNoDisplay(s, AddObjectSpec(cfg, s, m))
  {
    FatherInvalidationsOnly(s.objects, m.children);
    AddObjectEffects(cfg.fathers, s.objects, m.children);
    AppendsTail(s, AddObjectSpec(cfg, s, m), AddObjectAll(cfg.fathers, s.objects, m.children).1);
  }

  /** The state-changing handlers schedule no model-message display of their own. */
  lemma ApplyNoDisplay(cfg: Config, s: Client, m: Element, a: Applier)
    ensures AppendsNoDisplay(s, ApplySpec(cfg, s, m, a))
  {
    match a
    case UpdateA => UpdateNoDisplay(cfg, s, m);
    case RemoveA => RemoveNoDisplay(cfg, s, m);
    case AddPlayerA =>
    case AddObjectA => AddObjectNoDisplay(cfg, s, m);
    case FeatureChangeA =>
    case NewTurnA =>
      assert NewTurnSpec(s, m).effects[|s.effects|..] == [NewTurn(GetIntegerAttribute(m, "turn")), RefreshCanvas(false), UpdateMenuBar];
    case SetCurrentPlayerA =>
      assert SetCurrentPlayerSpec(s, m).effects[|s.effects|..] == [RefreshCanvas(true)];
  }

  lemma {:induction false} FatherInvalidationsOnly(objects: Store, kids: seq<Element>)
    ensures forall x :: x in FatherInvalidations(objects, kids) ==> x.InvalidateCanSeeTiles?
  {
    if kids != [] {
      FatherInvalidationsOnly(objects, kids[..|kids| - 1]);
    }
  }

  /** The deciding handlers schedule no model-message display of their own. */
  lemma DecideNoDisplay(cfg: Config, objects: Store, m: Element, d: Decider)
    ensures Decide(cfg, objects, m, d).Done? ==> DisplayModelMessages !in Decide(cfg, objects, m, d).effects
  {
  }

  /**
   * The flush rule: after a handler other than `multiple` has run, the
   * model messages are displayed, once, exactly when the handler did not
   * throw, "flush" is "true" and the current player, as the handler left
   * it, is my player; the handler's reply is returned unchanged.
   */
  lemma FlushRule(cfg: Config, s: Client, m: Element)
    requires HandlerFor(m.tag) != UnsupportedH && HandlerFor(m.tag) != MultipleH
    ensures var st := RunHandler(cfg, s, m, HandlerFor(m.tag));
      var d := DispatchSpec(cfg, s, m);
      && d.reply == st.reply
      && |s.effects| <= |d.client.effects|
      && (DisplayModelMessages in d.client.effects[|s.effects|..] <==> st.reply.Success? && Flushes(cfg, m, st.client))
  {
    var h := HandlerFor(m.tag);
    var st := RunHandler(cfg, s, m, h);
    match h
    case Applies(a) =>
      ApplyNoDisplay(cfg, s, m, a);
      FlushTail(s.effects, st.client.effects, st.reply.Success? && Flushes(cfg, m, st.client));
    case Decides(d) =>
      DecideNoDisplay(cfg, s.objects, m, d);
      if st.reply.Success? {
        var fx := Decide(cfg, s.objects, m, d).effects;
        assert st.client.effects == s.effects + fx;
        assert st.client.effects[|s.effects|..] == fx;
        FlushTail(s.effects, st.client.effects, Flushes(cfg, m, st.client));
      }
  }

  lemma FlushTail(e0: seq<Effect>, e1: seq<Effect>, flush: bool)
    requires |e0| <= |e1| && DisplayModelMessages !in e1[|e0|..]
    ensures var e2 := if flush then e1 + [DisplayModelMessages] else e1;
      DisplayModelMessages in e2[|e0|..] <==> flush
  {
    if flush {
      assert (e1 + [DisplayModelMessages])[|e0|..] == e1[|e0|..] + [DisplayModelMessages];
    }
  }

  /**
   * "newTurn" never displays the model messages, whatever its "flush"
   * attribute: it clears the current player before the flush check.
   */
  lemma NewTurnNeverFlushes(cfg: Config, s: Client, m: Element)
    requires HandlerFor(m.tag) == Applies(NewTurnA)
    ensures var d := DispatchSpec(cfg, s, m);
      && d.client.currentPlayer.None?
      && |s.effects| <= |d.client.effects|
      && DisplayModelMessages !in d.client.effects[|s.effects|..]
      && d.reply == Success(None)
  {
    FlushRule(cfg, s, m);
  }

  /**
   * After "setCurrentPlayer" a current player, if there is one, is a live
   * player, and the model messages are displayed exactly when "flush" is
   * "true" and the named player is my player and a live player.
   */
  lemma SetCurrentPlayerFlushes(cfg: Config, s: Client, m: Element)
    requires HandlerFor(m.tag) == Applies(SetCurrentPlayerA)
    ensures var d := DispatchSpec(cfg, s, m);
      && d.reply == Success(None)
      && (d.client.currentPlayer.Some? ==> IsPlayer(d.client.objects, d.client.currentPlayer.value))
      && |s.effects| <= |d.client.effects|
      && (DisplayModelMessages in d.client.effects[|s.effects|..] <==>
            Attr(m, "flush") == "true" && Attr(m, "player") == cfg.myPlayer && IsPlayer(s.objects, cfg.myPlayer))
  {
    FlushRule(cfg, s, m);
  }
}
