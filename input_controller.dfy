/** The input controller: one object whose four nullable fields track the
    hovered (outlined) card, the dragged (selected) card, the pointer offset
    inside it and the card target it is dragged over. Its handlers update
    those fields, the cards and the card targets in place, and attach and
    detach the drag listeners one target at a time. Each handler is proved to
    perform exactly the transition of the same name in module Interaction. */
module Input {
  import opened Optional
  import opened Interaction

  class InputController {
    var selectedCard: Option<CardId>
    var outlinedCard: Option<CardId>
    var pointerOffset: Option<Point>
    var draggedCardTarget: Option<TargetId>

    // The scene state the handlers touch.
    var cards: map<CardId, CardState>
    var destroyed: set<CardId>
    /** What the board's GetCardTargets returns. */
    const targets: seq<TargetId>
    var slots: map<TargetId, Slot>
    var listeners: set<Listener>
    /** Every warning logged, oldest first. */
    var warnings: seq<string>

    /** The z-order of an outlined card (Layers.Interaction). */
    const interactionLayer: int

    function Model(): State
      reads this
    {
      State(selectedCard, outlinedCard, pointerOffset, draggedCardTarget,
            cards, destroyed, targets, slots, listeners, warnings)
    }

    ghost predicate Valid()
      reads this
    {
      Interaction.Valid(Model())
    }

    /** A controller over freshly created cards at the given positions and
        the board's empty card targets: nothing outlined, selected or dragged
        over, and no listener attached. */
    constructor (positions: map<CardId, Point>, targets: seq<TargetId>, interactionLayer: int)
      ensures Model() == Initial(positions, targets)
      ensures Valid()
      ensures this.interactionLayer == interactionLayer
    {
      selectedCard := None;
      outlinedCard := None;
      pointerOffset := None;
      draggedCardTarget := None;
      cards := map c | c in positions :: NewCard(positions[c]);
      destroyed := {};
      this.targets := targets;
      slots := map t | t in targets :: EmptySlot;
      listeners := {};
      warnings := [];
      this.interactionLayer := interactionLayer;
    }

    method DisplayCardInTarget(target: TargetId)
      requires Valid() && target in slots
      modifies this
      ensures Model() == Interaction.DisplayCardInTarget(old(Model()), target)
      ensures Valid()
    {
      ghost var expected := Interaction.DisplayCardInTarget(Model(), target);
      if selectedCard.Some? {
        var card := selectedCard.value;
        slots := slots[target := slots[target].(displayed := Some(card))];
        slots := slots[target := slots[target].(border := ColoredBorder(HighlightColor))];
        assert slots == old(slots)[target := old(slots)[target].(displayed := Some(card), border := ColoredBorder(HighlightColor))];
        draggedCardTarget := Some(target);
        cards := cards[card := cards[card].(visible := false)];
      } else {
        warnings := warnings + [DisplayCardInTargetWarning()];
      }
      assert Model() == expected;
    }

    method SetCardInTarget()
      requires Valid()
      modifies this
      ensures Model() == Interaction.SetCardInTarget(old(Model()))
      ensures Valid()
    {
      ghost var expected := Interaction.SetCardInTarget(Model());
      if selectedCard.Some? && draggedCardTarget.Some? {
        PlaceSelectedCard();
        var draggedCardReference := selectedCard.value;
        CardDragEnd();
        // removed from its parent and destroyed
        cards := cards - {draggedCardReference};
        destroyed := destroyed + {draggedCardReference};
        outlinedCard := None;
      } else {
        warnings := warnings + [SetCardInTargetWarning(selectedCard.None?, draggedCardTarget.None?)];
      }
      assert Model() == expected;
    }

    /** The dragged-over target takes the selected card and its border is
        reset; the controller forgets the target. */
    method PlaceSelectedCard()
      requires Valid() && selectedCard.Some? && draggedCardTarget.Some?
      modifies this`slots, this`draggedCardTarget
      ensures Model() == PlaceCard(old(Model()))
      ensures Valid()
    {
      var target := draggedCardTarget.value;
      slots := slots[target := slots[target].(holds := selectedCard)];
      slots := slots[target := slots[target].(border := DefaultBorder)];
      draggedCardTarget := None;
    }

    method RemoveCardFromTarget()
      requires Valid()
      modifies this
      ensures Model() == Interaction.RemoveCardFromTarget(old(Model()))
      ensures Valid()
    {
      if selectedCard.Some? && draggedCardTarget.Some? {
        var target := draggedCardTarget.value;
        slots := slots[target := slots[target].(displayed := None)];
        slots := slots[target := slots[target].(border := DefaultBorder)];
        draggedCardTarget := None;
        var card := selectedCard.value;
        cards := cards[card := cards[card].(visible := true)];
      } else {
        warnings := warnings + [RemoveCardFromTargetWarning(selectedCard.None?, draggedCardTarget.None?)];
      }
    }

    method OutlineCard(card: CardId)
      requires Valid() && card in cards
      modifies this
      ensures Model() == Interaction.OutlineCard(old(Model()), card, interactionLayer)
      ensures Valid()
    {
      if outlinedCard.None? {
        outlinedCard := Some(card);
        cards := cards[card := cards[card].(outlined := true)];
        cards := cards[card := cards[card].(zIndex := interactionLayer)];
      }
    }

    method UnoutlineCard(card: CardId)
      requires Valid() && card in cards
      modifies this
      ensures Model() == Interaction.UnoutlineCard(old(Model()), card)
      ensures Valid()
    {
      if outlinedCard.Some? && card == outlinedCard.value {
        outlinedCard := None;
        cards := cards[card := cards[card].(outlined := false)];
        cards := cards[card := cards[card].(zIndex := UICardsLayer)];
      }
    }

    /** Starts a drag of card, whose grab point lies offset from its
        position, and attaches the drag listeners. */
    method CardDragStart(card: CardId, offset: Point)
      requires Valid() && card in cards
      modifies this
      ensures Model() == Interaction.CardDragStart(old(Model()), card, offset)
      ensures Valid()
    {
      ghost var expected := Interaction.CardDragStart(Model(), card, offset);
      selectedCard := Some(card);
      cards := cards[card := cards[card].(interactive := false)];
      pointerOffset := Some(offset);

      var attached := listeners;
      attached := attached + {Listener(Stage, PointerMove, DragCardCallback)};
      attached := attached + {Listener(Stage, PointerUp, DragEndCallback)};
      attached := attached + {Listener(Stage, PointerUpOutside, DragEndCallback)};
      assert attached == listeners + StageListeners();

      attached := AttachTargetListeners(attached, targets);
      assert attached == listeners + DragListeners(targets);
      listeners := attached;
      assert Model() == expected;
    }

    /** Ends the drag and detaches the drag listeners. */
    method CardDragEnd()
      requires Valid()
      modifies this
      ensures Model() == Interaction.CardDragEnd(old(Model()))
      ensures Valid()
    {
      ghost var expected := Interaction.CardDragEnd(Model());
      if selectedCard.Some? {
        var card := selectedCard.value;
        cards := cards[card := cards[card].(interactive := true)];
        selectedCard := None;

        var attached := listeners;
        attached := attached - {Listener(Stage, PointerMove, DragCardCallback)};
        attached := attached - {Listener(Stage, PointerUp, DragEndCallback)};
        attached := attached - {Listener(Stage, PointerUpOutside, DragEndCallback)};
        assert attached == listeners - StageListeners();

        attached := DetachTargetListeners(attached, targets);
        assert attached == listeners - DragListeners(targets);
        listeners := attached;
      } else {
        warnings := warnings + [CardDragEndWarning()];
      }
      assert Model() == expected;
    }

    /** Moves the dragged card so that its grab point is under the pointer. */
    method DragCard(pointer: Point)
      requires Valid()
      modifies this
      ensures Model() == Interaction.DragCard(old(Model()), pointer)
      ensures Valid()
    {
      if selectedCard.Some? && pointerOffset.Some? {
        var card, offset := selectedCard.value, pointerOffset.value;
        cards := cards[card := cards[card].(x := pointer.x - offset.x)];
        cards := cards[card := cards[card].(y := pointer.y - offset.y)];
      } else {
        warnings := warnings + [DragCardWarning(selectedCard.None?, pointerOffset.None?)];
      }
    }

    /** The body of the stored callback cb when emitter e calls it. */
    method Invoke(cb: Callback, e: Emitter, pointer: Point)
      requires Valid()
      modifies this
      ensures Model() == Interaction.Invoke(old(Model()), cb, e, pointer)
      ensures Valid()
    {
      match cb {
        case DragCardCallback => DragCard(pointer);
        case DragEndCallback => CardDragEnd();
        case DisplayCardTargetCallback =>
          if e.OnTarget? && e.target in slots {
            DisplayCardInTarget(e.target);
          }
        case ClearCardTargetCallback => RemoveCardFromTarget();
        case SetCardTargetCallback => SetCardInTarget();
      }
    }

    /** A pointer event on emitter e: runs the callback attached there for
        that event, if any. */
    method HandleEvent(e: Emitter, ev: EventName, pointer: Point)
      requires Valid()
      modifies this
      ensures Model() == Dispatch(old(Model()), e, ev, pointer)
      ensures Valid()
    {
      var cb := CallbackFor(e, ev);
      if cb.Some? && Listener(e, ev, cb.value) in listeners {
        Invoke(cb.value, e, pointer);
      }
    }
  }

  /** The forEach of CardDragStart: adds the three drag listeners of every
      target of ts, one target at a time, to the listeners ls. */
  method AttachTargetListeners(ls: set<Listener>, ts: seq<TargetId>) returns (attached: set<Listener>)
    ensures attached == ls + AllTargetListeners(ts)
  {
    attached := ls;
    var i := 0;
    while i < |ts|
      invariant 0 <= i <= |ts|
      invariant attached == ls + AllTargetListeners(ts[..i])
    {
      var targ := ts[i];
      ghost var before := attached;
      attached := attached + {Listener(OnTarget(targ), PointerOver, DisplayCardTargetCallback)};
      attached := attached + {Listener(OnTarget(targ), PointerOut, ClearCardTargetCallback)};
      attached := attached + {Listener(OnTarget(targ), PointerUp, SetCardTargetCallback)};
      assert attached == before + TargetListeners(targ);
      AllTargetListenersStep(ts, i);
      i := i + 1;
    }
    assert ts[..i] == ts;
  }

  /** The forEach of CardDragEnd: removes the three drag listeners of every
      target of ts, one target at a time, from the listeners ls. */
  method DetachTargetListeners(ls: set<Listener>, ts: seq<TargetId>) returns (detached: set<Listener>)
    ensures detached == ls - AllTargetListeners(ts)
  {
    detached := ls;
    var i := 0;
    while i < |ts|
      invariant 0 <= i <= |ts|
      invariant detached == ls - AllTargetListeners(ts[..i])
    {
      var targ := ts[i];
      ghost var before := detached;
      detached := detached - {Listener(OnTarget(targ), PointerOver, DisplayCardTargetCallback)};
      detached := detached - {Listener(OnTarget(targ), PointerOut, ClearCardTargetCallback)};
      detached := detached - {Listener(OnTarget(targ), PointerUp, SetCardTargetCallback)};
      assert detached == before - TargetListeners(targ);
      AllTargetListenersStep(ts, i);
      i := i + 1;
    }
    assert ts[..i] == ts;
  }

}
