/** The drag-and-drop and hover protocol of the input controller, as a value:
    the controller's four nullable fields, the part of the scene it touches
    (cards, card targets, listener subscriptions, the warning log) and one
    transition function per controller method. The class in module Input is
    proved against these functions.

    Every transition keeps Valid: in particular the drag listeners are
    attached exactly while a card is selected. A handler called with a field it
    needs still null only appends a warning and changes nothing else. */
module Interaction {
  import opened Optional

  /** Cards and card targets are known only by identity. */
  type CardId = nat
  type TargetId = nat

  /** Layers.UICards: the z-order a card is created on and returns to. */
  const UICardsLayer := 30
  /** Palette.Highlight: the border colour of the target under a dragged card. */
  const HighlightColor := 0xD1E000

  datatype Point = Point(x: int, y: int)

  /** What the controller reads and writes on a card sprite. `outlined` is
      whether the outline filter is applied. */
  datatype CardState = CardState(
    interactive: bool,
    visible: bool,
    outlined: bool,
    x: int,
    y: int,
    zIndex: int)

  /** A card as constructed: interactive, visible, not outlined, on UICards. */
  function NewCard(at: Point): CardState {
    CardState(true, true, false, at.x, at.y, UICardsLayer)
  }

  /** A border drawn with no colour argument, or with one. */
  datatype Border = DefaultBorder | ColoredBorder(color: int)

  /** What the controller asks of a card target: the card it displays while a
      card is dragged over it, the card set into it, and its border. */
  datatype Slot = Slot(displayed: Option<CardId>, holds: Option<CardId>, border: Border)

  const EmptySlot := Slot(None, None, DefaultBorder)

  /** Where a listener is attached: the game stage or one card target. */
  datatype Emitter = Stage | OnTarget(target: TargetId)

  datatype EventName = PointerMove | PointerUp | PointerUpOutside | PointerOver | PointerOut

  /** The five callbacks the controller stores at construction. */
  datatype Callback =
    | DragCardCallback
    | DragEndCallback
    | DisplayCardTargetCallback
    | ClearCardTargetCallback
    | SetCardTargetCallback

  datatype Listener = Listener(emitter: Emitter, event: EventName, callback: Callback)

  /** The three stage listeners a drag attaches. */
  function StageListeners(): set<Listener> {
    {
      Listener(Stage, PointerMove, DragCardCallback),
      Listener(Stage, PointerUp, DragEndCallback),
      Listener(Stage, PointerUpOutside, DragEndCallback)
    }
  }

  /** The three listeners a drag attaches to target t. */
  function TargetListeners(t: TargetId): set<Listener> {
    {
      Listener(OnTarget(t), PointerOver, DisplayCardTargetCallback),
      Listener(OnTarget(t), PointerOut, ClearCardTargetCallback),
      Listener(OnTarget(t), PointerUp, SetCardTargetCallback)
    }
  }

  /** The listeners a drag attaches to the targets ts, one forEach step per
      target. */
  function AllTargetListeners(ts: seq<TargetId>): set<Listener> {
    if ts == [] then {}
    else
      var last := |ts| - 1;
      AllTargetListeners(ts[..last]) + TargetListeners(ts[last])
  }

  /** A listener is among those of the targets ts exactly when it sits on a
      target of ts and is one of that target's three. */
  lemma {:induction false} AllTargetListenersMembers(ts: seq<TargetId>, l: Listener)
    ensures l in AllTargetListeners(ts) <==>
      l.emitter.OnTarget? && l.emitter.target in ts && l in TargetListeners(l.emitter.target)
  {
    if ts != [] {
      var last := |ts| - 1;
      assert ts == ts[..last] + [ts[last]];
      AllTargetListenersMembers(ts[..last], l);
    }
  }

  /** One more forEach step: the listeners of the first i + 1 targets are
      those of the first i and those of target i. */
  lemma AllTargetListenersStep(ts: seq<TargetId>, i: nat)
    requires i < |ts|
    ensures AllTargetListeners(ts[..i + 1]) == AllTargetListeners(ts[..i]) + TargetListeners(ts[i])
  {
    assert ts[..i + 1][..i] == ts[..i];
  }

  /** Everything CardDragStart attaches. */
  function DragListeners(ts: seq<TargetId>): set<Listener> {
    StageListeners() + AllTargetListeners(ts)
  }

  /** Which stored callback the controller ever attaches to an emitter for an
      event; None where it attaches nothing. */
  function CallbackFor(e: Emitter, ev: EventName): Option<Callback> {
    match (e, ev)
    case (Stage, PointerMove) => Some(DragCardCallback)
    case (Stage, PointerUp) => Some(DragEndCallback)
    case (Stage, PointerUpOutside) => Some(DragEndCallback)
    case (OnTarget(_), PointerOver) => Some(DisplayCardTargetCallback)
    case (OnTarget(_), PointerOut) => Some(ClearCardTargetCallback)
    case (OnTarget(_), PointerUp) => Some(SetCardTargetCallback)
    case _ => None
  }

  /** During a drag over the targets ts, the listener for event ev on the
      stage or on a target of ts is attached exactly for the callback
      CallbackFor names: the lookup agrees with what CardDragStart attaches. */
  lemma CallbackForAttached(ts: seq<TargetId>, e: Emitter, ev: EventName, cb: Callback)
    requires e.Stage? || e.target in ts
    ensures Listener(e, ev, cb) in DragListeners(ts) <==> CallbackFor(e, ev) == Some(cb)
  {
    AllTargetListenersMembers(ts, Listener(e, ev, cb));
  }

  /** The controller's fields and the scene state its handlers touch. */
  datatype State = State(
    selectedCard: Option<CardId>,
    outlinedCard: Option<CardId>,
    pointerOffset: Option<Point>,
    draggedCardTarget: Option<TargetId>,
    cards: map<CardId, CardState>,
    destroyed: set<CardId>,
    targets: seq<TargetId>,
    slots: map<TargetId, Slot>,
    listeners: set<Listener>,
    warnings: seq<string>)

  /** The invariant every handler keeps. */
  ghost predicate Valid(s: State) {
    && (s.selectedCard.Some? ==> s.selectedCard.value in s.cards && s.pointerOffset.Some?)
    && (s.outlinedCard.Some? ==> s.outlinedCard.value in s.cards)
    && (s.draggedCardTarget.Some? ==> s.draggedCardTarget.value in s.slots)
    && (forall t :: t in s.slots <==> t in s.targets)
    && s.cards.Keys !! s.destroyed
    && s.listeners == (if s.selectedCard.Some? then DragListeners(s.targets) else {})
  }

  /** The controller as constructed, over cards just created at the given
      positions and the board's empty card targets. */
  function Initial(positions: map<CardId, Point>, targets: seq<TargetId>): (r: State)
    ensures Valid(r)
    ensures r.selectedCard.None? && r.outlinedCard.None? && r.pointerOffset.None? && r.draggedCardTarget.None?
    ensures r.listeners == {} && r.warnings == [] && r.destroyed == {}
    ensures r.cards.Keys == positions.Keys
    ensures forall c :: c in positions ==>
      r.cards[c].interactive && r.cards[c].zIndex == UICardsLayer && r.cards[c].x == positions[c].x && r.cards[c].y == positions[c].y
    ensures forall t :: t in targets ==> t in r.slots && r.slots[t] == EmptySlot
    ensures AtMostOneOutlined(r) && HeldAreDestroyed(r)
  {
    State(None, None, None, None,
          map c | c in positions :: NewCard(positions[c]),
          {}, targets,
          map t | t in targets :: EmptySlot,
          {}, [])
  }

  function Warn(s: State, message: string): State {
    s.(warnings := s.warnings + [message])
  }

  /** r holds the same cards as s and differs from it at most in card c. */
  predicate OnlyCardChanged(s: State, r: State, c: CardId) {
    && r.cards.Keys == s.cards.Keys
    && forall d :: d in s.cards && d != c ==> r.cards[d] == s.cards[d]
  }

  // The warning texts, with the spacing the handlers produce.

  function DisplayCardInTargetWarning(): string {
    "DisplayCardInTarget called but _selectedCard is null!"
  }

  function SetCardInTargetWarning(noCard: bool, noTarget: bool): string {
    "SetCardInTarget called but "
    + (if noCard then "_selectedCard " else "")
    + (if noTarget then "_draggedCardTarget" else "")
    + "is null!"
  }

  function RemoveCardFromTargetWarning(noCard: bool, noTarget: bool): string {
    "RemoveCardFromTarget called but "
    + (if noCard then "_selectedCard " else "")
    + (if noTarget then "_draggedCardTarget " else "")
    + " is null!"
  }

  function CardDragEndWarning(): string {
    "CardDragEnd called but _selectedCard is null!"
  }

  function DragCardWarning(noCard: bool, noOffset: bool): string {
    "DragCard called but "
    + (if noCard then "_selectedCard " else "")
    + (if noOffset then "_pointerOffset " else "")
    + "is null!"
  }

  /** Hovering c outlines it and raises it to the interaction layer, but only
      when no card is outlined yet; otherwise nothing changes (and nothing is
      logged). */
  function OutlineCard(s: State, c: CardId, interactionLayer: int): (r: State)
    requires Valid(s) && c in s.cards
    ensures Valid(r)
    ensures r == s.(outlinedCard := r.outlinedCard, cards := r.cards)
    ensures OnlyCardChanged(s, r, c)
    ensures s.outlinedCard.None? ==>
      && r.outlinedCard == Some(c)
      && r.cards[c] == s.cards[c].(outlined := true, zIndex := interactionLayer)
    ensures s.outlinedCard.Some? ==> r == s
  {
    if s.outlinedCard.None? then
      s.(outlinedCard := Some(c), cards := s.cards[c := s.cards[c].(outlined := true, zIndex := interactionLayer)])
    else
      s
  }

  /** Leaving c removes its outline and puts it back on UICards, but only when
      c is the outlined card; otherwise nothing changes. */
  function UnoutlineCard(s: State, c: CardId): (r: State)
    requires Valid(s) && c in s.cards
    ensures Valid(r)
    ensures r == s.(outlinedCard := r.outlinedCard, cards := r.cards)
    ensures OnlyCardChanged(s, r, c)
    ensures s.outlinedCard == Some(c) ==>
      && r.outlinedCard.None?
      && r.cards[c] == s.cards[c].(outlined := false, zIndex := UICardsLayer)
    ensures s.outlinedCard != Some(c) ==> r == s
  {
    if s.outlinedCard.Some? && c == s.outlinedCard.value then
      s.(outlinedCard := None, cards := s.cards[c := s.cards[c].(outlined := false, zIndex := UICardsLayer)])
    else
      s
  }

  /** Pointer-down on c starts a drag: c becomes the selected card and stops
      being interactive, the pointer offset is kept, and the drag listeners are
      attached to the stage and to every card target. */
  function CardDragStart(s: State, c: CardId, offset: Point): (r: State)
    requires Valid(s) && c in s.cards
    ensures Valid(r)
    ensures r == s.(selectedCard := r.selectedCard, pointerOffset := r.pointerOffset, cards := r.cards, listeners := r.listeners)
    ensures r.selectedCard == Some(c) && r.pointerOffset == Some(offset)
    ensures OnlyCardChanged(s, r, c) && r.cards[c] == s.cards[c].(interactive := false)
    ensures r.listeners == s.listeners + DragListeners(s.targets)
  {
    s.(selectedCard := Some(c),
       cards := s.cards[c := s.cards[c].(interactive := false)],
       pointerOffset := Some(offset),
       listeners := s.listeners + DragListeners(s.targets))
  }

  /** Ends the drag: the selected card is interactive again, no card is
      selected, and exactly the listeners CardDragStart attached are detached,
      which leaves none. With no selected card it only logs a warning. */
  function CardDragEnd(s: State): (r: State)
    requires Valid(s)
    ensures Valid(r)
    ensures s.selectedCard.Some? ==>
      var c := s.selectedCard.value;
      && r == s.(selectedCard := None, cards := r.cards, listeners := r.listeners)
      && OnlyCardChanged(s, r, c) && r.cards[c] == s.cards[c].(interactive := true)
      && r.listeners == s.listeners - DragListeners(s.targets)
      && r.listeners == {}
    ensures s.selectedCard.None? ==> r == Warn(s, CardDragEndWarning())
  {
    if s.selectedCard.Some? then
      var c := s.selectedCard.value;
      s.(cards := s.cards[c := s.cards[c].(interactive := true)],
         selectedCard := None,
         listeners := s.listeners - DragListeners(s.targets))
    else
      Warn(s, CardDragEndWarning())
  }

  /** A pointer move during a drag puts the selected card at the pointer
      minus the kept offset; nothing else moves. With either field null it
      only logs a warning. */
  function DragCard(s: State, pointer: Point): (r: State)
    requires Valid(s)
    ensures Valid(r)
    ensures s.selectedCard.Some? && s.pointerOffset.Some? ==>
      var c, offset := s.selectedCard.value, s.pointerOffset.value;
      && r == s.(cards := r.cards)
      && OnlyCardChanged(s, r, c)
      && r.cards[c] == s.cards[c].(x := r.cards[c].x, y := r.cards[c].y)
      && r.cards[c].x + offset.x == pointer.x
      && r.cards[c].y + offset.y == pointer.y
    ensures !(s.selectedCard.Some? && s.pointerOffset.Some?) ==>
      r == Warn(s, DragCardWarning(s.selectedCard.None?, s.pointerOffset.None?))
  {
    if s.selectedCard.Some? && s.pointerOffset.Some? then
      var c, offset := s.selectedCard.value, s.pointerOffset.value;
      s.(cards := s.cards[c := s.cards[c].(x := pointer.x - offset.x, y := pointer.y - offset.y)])
    else
      Warn(s, DragCardWarning(s.selectedCard.None?, s.pointerOffset.None?))
  }

  /** The dragged card enters target t: t displays it with a highlighted
      border, t becomes the dragged-over target and the card itself is hidden.
      With no selected card it only logs a warning. */
  function DisplayCardInTarget(s: State, t: TargetId): (r: State)
    requires Valid(s) && t in s.slots
    ensures Valid(r)
    ensures s.selectedCard.Some? ==>
      var c := s.selectedCard.value;
      && r == s.(slots := r.slots, draggedCardTarget := r.draggedCardTarget, cards := r.cards)
      && r.slots == s.slots[t := s.slots[t].(displayed := Some(c), border := ColoredBorder(HighlightColor))]
      && r.draggedCardTarget == Some(t)
      && OnlyCardChanged(s, r, c) && r.cards[c] == s.cards[c].(visible := false)
    ensures s.selectedCard.None? ==> r == Warn(s, DisplayCardInTargetWarning())
  {
    if s.selectedCard.Some? then
      var c := s.selectedCard.value;
      s.(slots := s.slots[t := s.slots[t].(displayed := Some(c), border := ColoredBorder(HighlightColor))],
         draggedCardTarget := Some(t),
         cards := s.cards[c := s.cards[c].(visible := false)])
    else
      Warn(s, DisplayCardInTargetWarning())
  }

  /** The dragged card leaves the dragged-over target: the target is cleared
      and its border reset, no target is dragged over and the card is visible
      again. With either field null it only logs a warning. */
  function RemoveCardFromTarget(s: State): (r: State)
    requires Valid(s)
    ensures Valid(r)
    ensures s.selectedCard.Some? && s.draggedCardTarget.Some? ==>
      var c, t := s.selectedCard.value, s.draggedCardTarget.value;
      && r == s.(slots := r.slots, draggedCardTarget := None, cards := r.cards)
      && r.slots == s.slots[t := s.slots[t].(displayed := None, border := DefaultBorder)]
      && OnlyCardChanged(s, r, c) && r.cards[c] == s.cards[c].(visible := true)
    ensures !(s.selectedCard.Some? && s.draggedCardTarget.Some?) ==>
      r == Warn(s, RemoveCardFromTargetWarning(s.selectedCard.None?, s.draggedCardTarget.None?))
  {
    if s.selectedCard.Some? && s.draggedCardTarget.Some? then
      var c, t := s.selectedCard.value, s.draggedCardTarget.value;
      s.(slots := s.slots[t := s.slots[t].(displayed := None, border := DefaultBorder)],
         draggedCardTarget := None,
         cards := s.cards[c := s.cards[c].(visible := true)])
    else
      Warn(s, RemoveCardFromTargetWarning(s.selectedCard.None?, s.draggedCardTarget.None?))
  }

  /** Drop onto the dragged-over target: the target holds the card with its
      border reset, the drag ends (every drag listener detached), the card
      sprite is removed and destroyed, and no card is selected or outlined and
      no target dragged over. With either field null it only logs a warning. */
  function SetCardInTarget(s: State): (r: State)
    requires Valid(s)
    ensures Valid(r)
    ensures s.selectedCard.Some? && s.draggedCardTarget.Some? ==>
      var c, t := s.selectedCard.value, s.draggedCardTarget.value;
      && r.slots == s.slots[t := s.slots[t].(holds := Some(c), border := DefaultBorder)]
      && r.selectedCard.None? && r.outlinedCard.None? && r.draggedCardTarget.None?
      && r.listeners == {}
      && r.cards == s.cards - {c} && r.destroyed == s.destroyed + {c}
      && r.pointerOffset == s.pointerOffset && r.targets == s.targets && r.warnings == s.warnings
    ensures !(s.selectedCard.Some? && s.draggedCardTarget.Some?) ==>
      r == Warn(s, SetCardInTargetWarning(s.selectedCard.None?, s.draggedCardTarget.None?))
  {
    if s.selectedCard.Some? && s.draggedCardTarget.Some? then
      var c, t := s.selectedCard.value, s.draggedCardTarget.value;
      var ended := CardDragEnd(PlaceCard(s));
      ended.(cards := ended.cards - {c}, destroyed := ended.destroyed + {c}, outlinedCard := None)
    else
      Warn(s, SetCardInTargetWarning(s.selectedCard.None?, s.draggedCardTarget.None?))
  }

  /** The first half of a drop: the dragged-over target takes the selected
      card and its border is reset, and no target is dragged over any more.
      The drag is still on, so the state is still valid for CardDragEnd. */
  function PlaceCard(s: State): (r: State)
    requires Valid(s) && s.selectedCard.Some? && s.draggedCardTarget.Some?
    ensures Valid(r)
    ensures r == s.(slots := r.slots, draggedCardTarget := None)
    ensures var t := s.draggedCardTarget.value;
      r.slots == s.slots[t := s.slots[t].(holds := s.selectedCard, border := DefaultBorder)]
  {
    var t := s.draggedCardTarget.value;
    s.(slots := s.slots[t := s.slots[t].(holds := s.selectedCard, border := DefaultBorder)],
       draggedCardTarget := None)
  }

  /** What a stored callback does when the emitter it is attached to calls it.
      The display callback acts only when the emitter is a card target. */
  function Invoke(s: State, cb: Callback, e: Emitter, pointer: Point): (r: State)
    requires Valid(s)
    ensures Valid(r)
    ensures cb == DisplayCardTargetCallback && e.Stage? ==> r == s
  {
    match cb
    case DragCardCallback => DragCard(s, pointer)
    case DragEndCallback => CardDragEnd(s)
    case DisplayCardTargetCallback =>
      if e.OnTarget? && e.target in s.slots then DisplayCardInTarget(s, e.target) else s
    case ClearCardTargetCallback => RemoveCardFromTarget(s)
    case SetCardTargetCallback => SetCardInTarget(s)
  }

  /** A pointer event on an emitter: the callback attached there for that
      event runs, and with none attached nothing happens. While no card is
      selected no listener is attached, so every event is ignored. */
  function Dispatch(s: State, e: Emitter, ev: EventName, pointer: Point): (r: State)
    requires Valid(s)
    ensures Valid(r)
    ensures s.selectedCard.None? ==> r == s
  {
    match CallbackFor(e, ev)
    case Some(cb) => if Listener(e, ev, cb) in s.listeners then Invoke(s, cb, e, pointer) else s
    case None => s
  }

  /** Only the selected card is ever non-interactive. */
  ghost predicate OnlySelectedLifted(s: State) {
    forall c :: c in s.cards && !s.cards[c].interactive ==> s.selectedCard == Some(c)
  }

  /** Starting a drag from Idle keeps OnlySelectedLifted. */
  lemma DragStartFromIdleKeepsOnlySelectedLifted(s: State, c: CardId, offset: Point)
    requires Valid(s) && c in s.cards && s.selectedCard.None?
    requires OnlySelectedLifted(s)
    ensures OnlySelectedLifted(CardDragStart(s, c, offset))
  {
  }

  /** Every card but the selected one is interactive in r when it was in s
      and keeps its interactive flag. */
  lemma OthersStayInteractive(s: State, r: State, c: CardId)
    requires OnlySelectedLifted(s) && s.selectedCard == Some(c)
    requires r.cards.Keys <= s.cards.Keys
    requires forall d :: d in r.cards && d != c ==> r.cards[d].interactive == s.cards[d].interactive
    requires c in r.cards && !r.cards[c].interactive ==> r.selectedCard == Some(c)
    ensures OnlySelectedLifted(r)
  {
  }

  // Each handler leaves every card but the selected one as interactive as it was.

  lemma DragCardKeepsOnlySelectedLifted(s: State, pointer: Point)
    requires Valid(s) && OnlySelectedLifted(s) && s.selectedCard.Some?
    ensures OnlySelectedLifted(DragCard(s, pointer))
  {
    OthersStayInteractive(s, DragCard(s, pointer), s.selectedCard.value);
  }

  lemma CardDragEndKeepsOnlySelectedLifted(s: State)
    requires Valid(s) && OnlySelectedLifted(s) && s.selectedCard.Some?
    ensures OnlySelectedLifted(CardDragEnd(s))
  {
    OthersStayInteractive(s, CardDragEnd(s), s.selectedCard.value);
  }

  lemma DisplayCardInTargetKeepsOnlySelectedLifted(s: State, t: TargetId)
    requires Valid(s) && OnlySelectedLifted(s) && s.selectedCard.Some? && t in s.slots
    ensures OnlySelectedLifted(DisplayCardInTarget(s, t))
  {
    OthersStayInteractive(s, DisplayCardInTarget(s, t), s.selectedCard.value);
  }

  lemma RemoveCardFromTargetKeepsOnlySelectedLifted(s: State)
    requires Valid(s) && OnlySelectedLifted(s) && s.selectedCard.Some?
    ensures OnlySelectedLifted(RemoveCardFromTarget(s))
  {
    OthersStayInteractive(s, RemoveCardFromTarget(s), s.selectedCard.value);
  }

  lemma SetCardInTargetKeepsOnlySelectedLifted(s: State)
    requires Valid(s) && OnlySelectedLifted(s) && s.selectedCard.Some?
    ensures OnlySelectedLifted(SetCardInTarget(s))
  {
    OthersStayInteractive(s, SetCardInTarget(s), s.selectedCard.value);
  }

  /** No stored callback makes a card other than the selected one
      non-interactive. */
  lemma InvokeKeepsOnlySelectedLifted(s: State, cb: Callback, e: Emitter, pointer: Point)
    requires Valid(s) && OnlySelectedLifted(s) && s.selectedCard.Some?
    ensures OnlySelectedLifted(Invoke(s, cb, e, pointer))
  {
    match cb {
      case DragCardCallback => DragCardKeepsOnlySelectedLifted(s, pointer);
      case DragEndCallback => CardDragEndKeepsOnlySelectedLifted(s);
      case DisplayCardTargetCallback =>
        if e.OnTarget? && e.target in s.slots {
          DisplayCardInTargetKeepsOnlySelectedLifted(s, e.target);
        }
      case ClearCardTargetCallback => RemoveCardFromTargetKeepsOnlySelectedLifted(s);
      case SetCardTargetCallback => SetCardInTargetKeepsOnlySelectedLifted(s);
    }
  }

  /** No pointer event delivered to the controller's listeners makes a card
      other than the selected one non-interactive. */
  lemma DispatchKeepsOnlySelectedLifted(s: State, e: Emitter, ev: EventName, pointer: Point)
    requires Valid(s) && OnlySelectedLifted(s)
    ensures OnlySelectedLifted(Dispatch(s, e, ev, pointer))
  {
    var found := CallbackFor(e, ev);
    if s.selectedCard.Some? && found.Some? && Listener(e, ev, found.value) in s.listeners {
      assert Dispatch(s, e, ev, pointer) == Invoke(s, found.value, e, pointer);
      InvokeKeepsOnlySelectedLifted(s, found.value, e, pointer);
    } else {
      assert Dispatch(s, e, ev, pointer) == s;
    }
  }

  /** Hovering a card changes no interactive flag. */
  lemma OutlineCardKeepsOnlySelectedLifted(s: State, c: CardId, interactionLayer: int)
    requires Valid(s) && c in s.cards && OnlySelectedLifted(s)
    ensures OnlySelectedLifted(OutlineCard(s, c, interactionLayer))
  {
  }

  /** Leaving a card changes no interactive flag. */
  lemma UnoutlineCardKeepsOnlySelectedLifted(s: State, c: CardId)
    requires Valid(s) && c in s.cards && OnlySelectedLifted(s)
    ensures OnlySelectedLifted(UnoutlineCard(s, c))
  {
  }

  /** A second drag start before the first drag ends (nothing guards against
      it) leaves the first card non-interactive after the drag is over: the
      controller does not keep OnlySelectedLifted on its own. */
  lemma SecondDragStartStrandsFirstCard(s: State, a: CardId, b: CardId, oa: Point, ob: Point)
    requires Valid(s) && a in s.cards && b in s.cards && a != b
    ensures var r := CardDragEnd(CardDragStart(CardDragStart(s, a, oa), b, ob));
      && r.selectedCard.None?
      && a in r.cards && !r.cards[a].interactive
      && !OnlySelectedLifted(r)
  {
    var s1 := CardDragStart(s, a, oa);
    var s2 := CardDragStart(s1, b, ob);
    assert s2.cards[a] == s1.cards[a];
  }

  /** A drag that ends without touching a target detaches every listener it
      attached and restores the card's interactivity: the state is the one
      before the drag except for the kept pointer offset. */
  lemma DragStartThenEnd(s: State, c: CardId, offset: Point)
    requires Valid(s) && c in s.cards && s.selectedCard.None? && s.cards[c].interactive
    ensures CardDragEnd(CardDragStart(s, c, offset)) == s.(pointerOffset := Some(offset))
  {
    var r := CardDragEnd(CardDragStart(s, c, offset));
    assert r.cards == s.cards;
  }

  /** A complete drop: from Idle, drag c, enter target t and release there.
      Afterwards t holds c, c is destroyed, the controller is Idle with no
      listener attached, and nothing was logged. */
  lemma DropIntoTarget(s: State, c: CardId, offset: Point, t: TargetId)
    requires Valid(s) && c in s.cards && s.selectedCard.None? && t in s.targets
    ensures var r := SetCardInTarget(DisplayCardInTarget(CardDragStart(s, c, offset), t));
      && r.slots[t].holds == Some(c)
      && c !in r.cards && c in r.destroyed
      && r.selectedCard.None? && r.draggedCardTarget.None? && r.outlinedCard.None?
      && r.listeners == {}
      && r.warnings == s.warnings
      && (forall u :: u in s.slots && u != t ==> r.slots[u] == s.slots[u])
  {
    var s1 := CardDragStart(s, c, offset);
    var s2 := DisplayCardInTarget(s1, t);
    assert s2.selectedCard == Some(c) && s2.draggedCardTarget == Some(t);
  }

  /** A cancelled drop: from Idle, drag c over target t, leave it again and
      release outside. Afterwards c is visible and interactive again, t
      neither displays nor holds anything new, and the controller is Idle
      with no listener attached. */
  lemma CancelOverTarget(s: State, c: CardId, offset: Point, t: TargetId)
    requires Valid(s) && c in s.cards && s.selectedCard.None? && t in s.targets
    ensures var r := CardDragEnd(RemoveCardFromTarget(DisplayCardInTarget(CardDragStart(s, c, offset), t)));
      && c in r.cards && r.cards[c].interactive && r.cards[c].visible
      && r.slots[t].displayed.None? && r.slots[t].holds == s.slots[t].holds
      && r.selectedCard.None? && r.draggedCardTarget.None?
      && r.listeners == {}
      && r.warnings == s.warnings
      && (forall u :: u in s.slots && u != t ==> r.slots[u] == s.slots[u])
  {
    var s1 := CardDragStart(s, c, offset);
    var s2 := DisplayCardInTarget(s1, t);
    assert s2.selectedCard == Some(c) && s2.draggedCardTarget == Some(t);
    var s3 := RemoveCardFromTarget(s2);
    assert s3.selectedCard == Some(c);
  }

  /** Only the outlined card shows the outline: the guard of OutlineCard is
      there so that at most one card is outlined at a time. */
  ghost predicate AtMostOneOutlined(s: State) {
    forall d :: d in s.cards && s.cards[d].outlined ==> s.outlinedCard == Some(d)
  }

  lemma OutlineCardKeepsAtMostOneOutlined(s: State, c: CardId, interactionLayer: int)
    requires Valid(s) && c in s.cards && AtMostOneOutlined(s)
    ensures AtMostOneOutlined(OutlineCard(s, c, interactionLayer))
  {
  }

  lemma UnoutlineCardKeepsAtMostOneOutlined(s: State, c: CardId)
    requires Valid(s) && c in s.cards && AtMostOneOutlined(s)
    ensures AtMostOneOutlined(UnoutlineCard(s, c))
  {
  }

  /** A drop keeps AtMostOneOutlined when the outlined card, if any, is the
      dropped card: it is destroyed together with its outline. */
  lemma DropOfOutlinedCardKeepsAtMostOneOutlined(s: State)
    requires Valid(s) && AtMostOneOutlined(s)
    requires s.outlinedCard.None? || s.outlinedCard == s.selectedCard
    ensures AtMostOneOutlined(SetCardInTarget(s))
  {
    if s.selectedCard.Some? && s.draggedCardTarget.Some? {
      var r := SetCardInTarget(s);
      forall d | d in r.cards
        ensures !r.cards[d].outlined
      {
        assert d != s.selectedCard.value && r.cards[d].outlined == s.cards[d].outlined;
      }
    }
  }

  /** A drop forgets the outlined card without taking its outline off. When
      the outlined card d is not the dropped card, d stays outlined, and
      hovering another card e afterwards outlines e as well. */
  lemma DropLeavesStaleOutline(s: State, d: CardId, e: CardId, interactionLayer: int)
    requires Valid(s) && AtMostOneOutlined(s) && s.selectedCard.Some? && s.draggedCardTarget.Some?
    requires d in s.cards && e in s.cards && d != e
    requires s.selectedCard != Some(d) && s.selectedCard != Some(e)
    requires s.outlinedCard == Some(d) && s.cards[d].outlined
    ensures var r := OutlineCard(SetCardInTarget(s), e, interactionLayer);
      && r.cards[d].outlined && r.cards[e].outlined
      && !AtMostOneOutlined(r)
  {
    var dropped := SetCardInTarget(s);
    assert dropped.outlinedCard.None? && dropped.cards[d] == s.cards[d];
  }

  /** Every card a target holds has been destroyed: SetCard is followed by
      the destruction of the card within the same drop. */
  ghost predicate HeldAreDestroyed(s: State) {
    forall u :: u in s.slots && s.slots[u].holds.Some? ==> s.slots[u].holds.value in s.destroyed
  }

  /** The card handlers keep HeldAreDestroyed. */
  lemma CardHandlersKeepHeldAreDestroyed(s: State, c: CardId, offset: Point, interactionLayer: int)
    requires Valid(s) && c in s.cards && HeldAreDestroyed(s)
    ensures HeldAreDestroyed(OutlineCard(s, c, interactionLayer))
    ensures HeldAreDestroyed(UnoutlineCard(s, c))
    ensures HeldAreDestroyed(CardDragStart(s, c, offset))
  {
  }

  // Each stored callback's handler keeps HeldAreDestroyed.

  lemma DragCardKeepsHeldAreDestroyed(s: State, pointer: Point)
    requires Valid(s) && HeldAreDestroyed(s)
    ensures HeldAreDestroyed(DragCard(s, pointer))
  {
  }

  lemma CardDragEndKeepsHeldAreDestroyed(s: State)
    requires Valid(s) && HeldAreDestroyed(s)
    ensures HeldAreDestroyed(CardDragEnd(s))
  {
  }

  lemma DisplayCardInTargetKeepsHeldAreDestroyed(s: State, t: TargetId)
    requires Valid(s) && HeldAreDestroyed(s) && t in s.slots
    ensures HeldAreDestroyed(DisplayCardInTarget(s, t))
  {
  }

  lemma RemoveCardFromTargetKeepsHeldAreDestroyed(s: State)
    requires Valid(s) && HeldAreDestroyed(s)
    ensures HeldAreDestroyed(RemoveCardFromTarget(s))
  {
  }

  /** The drop sets the card into the target and destroys it. */
  lemma SetCardInTargetKeepsHeldAreDestroyed(s: State)
    requires Valid(s) && HeldAreDestroyed(s)
    ensures HeldAreDestroyed(SetCardInTarget(s))
  {
  }

  /** No pointer event delivered to the controller's listeners breaks
      HeldAreDestroyed. */
  lemma DispatchKeepsHeldAreDestroyed(s: State, e: Emitter, ev: EventName, pointer: Point)
    requires Valid(s) && HeldAreDestroyed(s)
    ensures HeldAreDestroyed(Dispatch(s, e, ev, pointer))
  {
    var found := CallbackFor(e, ev);
    if s.selectedCard.Some? && found.Some? && Listener(e, ev, found.value) in s.listeners {
      assert Dispatch(s, e, ev, pointer) == Invoke(s, found.value, e, pointer);
      match found.value {
        case DragCardCallback => DragCardKeepsHeldAreDestroyed(s, pointer);
        case DragEndCallback => CardDragEndKeepsHeldAreDestroyed(s);
        case DisplayCardTargetCallback =>
          if e.OnTarget? && e.target in s.slots {
            DisplayCardInTargetKeepsHeldAreDestroyed(s, e.target);
          }
        case ClearCardTargetCallback => RemoveCardFromTargetKeepsHeldAreDestroyed(s);
        case SetCardTargetCallback => SetCardInTargetKeepsHeldAreDestroyed(s);
      }
    } else {
      assert Dispatch(s, e, ev, pointer) == s;
    }
  }

  /** After a complete drop of c into t no other target holds c: c was alive
      before the drag, and only destroyed cards are held. */
  lemma DropLeavesNoOtherHolder(s: State, c: CardId, offset: Point, t: TargetId)
    requires Valid(s) && HeldAreDestroyed(s) && c in s.cards && s.selectedCard.None? && t in s.targets
    ensures var r := SetCardInTarget(DisplayCardInTarget(CardDragStart(s, c, offset), t));
      && HeldAreDestroyed(r)
      && forall u :: u in r.slots && u != t ==> r.slots[u].holds != Some(c)
  {
    DropIntoTarget(s, c, offset, t);
    var s2 := DisplayCardInTarget(CardDragStart(s, c, offset), t);
    SetCardInTargetKeepsHeldAreDestroyed(s2);
  }

  /** After a cancelled drop no target holds c. */
  lemma CancelLeavesNoHolder(s: State, c: CardId, offset: Point, t: TargetId)
    requires Valid(s) && HeldAreDestroyed(s) && c in s.cards && s.selectedCard.None? && t in s.targets
    ensures var r := CardDragEnd(RemoveCardFromTarget(DisplayCardInTarget(CardDragStart(s, c, offset), t)));
      forall u :: u in r.slots ==> r.slots[u].holds != Some(c)
  {
    CancelOverTarget(s, c, offset, t);
  }

}
