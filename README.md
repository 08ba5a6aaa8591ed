# Card drag-and-drop and board counters of a Wing Commander CCG client

This project models two parts of a browser card-game client written in
TypeScript on PIXI:

- **The input controller** (`src/InputController.ts`). It lets the player
  hover a card (outline and raise it), drag it across the board, show it in a
  card target while the pointer is over that target, and drop it there. It
  keeps four nullable references:
  - the outlined card;
  - the selected (dragged) card;
  - the pointer offset inside the dragged card;
  - the card target the card is dragged over.

  A drag attaches five stored callbacks to the game stage and to every card
  target. Ending the drag detaches them again.
- **The board's user interface** (`src/UserInterface.ts`). This part covers:
  - the player's and the opponent's power-point counters, which start at
    "30" and keep their value only as the text they display;
  - the turn indicator, which flips between the Confed star and the Kilrathi
    sigil.

Files:

- `optional.dfy`: `Option`, the stand-in for a nullable reference and for
  `NaN`.
- `decimal.dfy`: the integer-to-text rendering `${n}` (`FormatInt`) and
  `parseInt` (`ParseInt`), proved to be inverse bijections between the
  integers and the canonical decimal texts.
- `user_interface.dfy`: the counters as a class over their two texts, and the
  turn indicator as a class over its flag and its texture.
- `interaction.dfy`: the controller's state as a value (`State`), together with
  - the invariant every handler keeps (`Valid`);
  - one transition function per handler;
  - the dispatch of a pointer event to the attached callbacks;
  - lemmas about whole drag sessions (drop, cancel, drag without target, a
    second drag start);
  - three invariants of reachable states beyond `Valid`, each with the
    lemmas that keep it or show where the code breaks it:
    - only the selected card is non-interactive (`OnlySelectedLifted`);
    - at most one card is outlined (`AtMostOneOutlined`);
    - every held card has been destroyed (`HeldAreDestroyed`).

    `HeldAreDestroyed` is not part of `Valid`: it fails between `SetCard`
    and `destroy` inside one drop (src/InputController.ts:59-65), where
    `CardDragEnd` still runs and needs `Valid`.
- `input_controller.dfy`: `InputController` as a class whose fields the
  handlers update in place. Each handler is proved to perform exactly the
  transition of the same name in `Interaction`. There are two exceptions:
  `HandleEvent` performs `Dispatch`, and `PlaceSelectedCard` performs
  `PlaceCard`. The two `forEach` loops over the card targets are methods with
  loop invariants.

How the scene is modelled:

- Cards are identified by number. Each card's `interactive`, `visible`,
  outline, position and `zIndex` are kept in a map.
- A destroyed card leaves the map and enters `destroyed`.
- The card targets are the fixed sequence `GetCardTargets` returns. Each
  target has a `Slot`, which records:
  - the card it displays (`DisplayCard`/`ClearCard`);
  - the card it holds (`SetCard`);
  - its border (`DrawBorder`).
- The emitters' listeners form a set of (emitter, event, callback) triples.
  `off` removes every copy of a listener. `on` does not merge a second
  subscription of the same callback, but the set does, so after a second
  `CardDragStart` each event runs its callback once here where the game
  would run it twice.
- `game.Warning` appends its message to `warnings`. Each message is the exact
  text the handler builds, with the same spacing.

## Model

| member | source | states |
|---|---|---|
| Decimal.FormatThenParse | src/UserInterface.ts:178-179 | parsing the text a counter writes for n gives back n, for every integer n |
| Decimal.ParseThenFormat | src/UserInterface.ts:178-179 | every canonical decimal text is what writing its parsed value produces; with FormatThenParse the two are inverse |
| Decimal.Digits | src/UserInterface.ts:179 | the digits of n are canonical (no leading zero) and denote n |
| Decimal.FormatInt | src/UserInterface.ts:179 | the rendering of any integer is a canonical decimal text, never "-0" |
| Decimal.ParseInt | src/UserInterface.ts:178 | parseInt reads an optional sign and then the longest leading run of decimal digits; it is NaN (None) exactly when no digit follows the sign, and a number read after "-" is never positive, any other never negative |
| Decimal.LeadingDigits | src/UserInterface.ts:178 | parseInt reads the longest leading run of digits: the result is a prefix of digits and the next character is not a digit |
| Decimal.DigitsOfValue | src/UserInterface.ts:178-179 | the canonical digits of the value a canonical run denotes are that run |
| Decimal.LeadingNonZeroIsPositive | src/UserInterface.ts:178 | a run of digits not starting with 0 denotes a positive number |
| Decimal.LeadingZeroIsZero | src/UserInterface.ts:178 | a canonical run starting with 0 denotes 0 |
| Decimal.AllDigitsLeadingDigits | src/UserInterface.ts:178 | on a text made only of digits, parseInt reads all of it |
| UI.ShiftedText | src/UserInterface.ts:177-180 | after an update by delta, a counter whose text holds a number shows a canonical text that reads back as that number plus delta; one whose text holds no number shows NaN again |
| UI.NotANumberReadsAsNaN | src/UserInterface.ts:178-179 | the text NaN renders holds no number, so a counter showing NaN reads NaN again |
| UI.InitialPowerPointsIsThirty | src/UserInterface.ts:68 | the initial counter text "30" reads back as 30 and is how 30 is written |
| UI.ShiftsAccumulate | src/UserInterface.ts:177-189 | an update by d1 and then by d2 shows the same text as one update by d1 + d2, whatever the text |
| UI.ThirtyMinusFive | src/UserInterface.ts:68 | a counter showing "30" shows "25" after an update by -5 |
| UI.UserInterface.constructor | src/UserInterface.ts:68-79 | both counters show "30" and stand for 30 |
| UI.UserInterface.PlayerPowerPoints | src/UserInterface.ts:177-180 | the player's text becomes the canonical text of the old value plus delta, and it reads back as that sum; the opponent's counter is untouched |
| UI.UserInterface.OpponentPowerPoints | src/UserInterface.ts:186-189 | the opponent's text becomes the canonical text of the old value plus delta, and it reads back as that sum; the player's counter is untouched |
| UI.Flip | src/UserInterface.ts:227-238 | a flip negates the flag, and the texture at the end of the animation is the face of the new flag, never the face of the old one |
| UI.FlipTwiceRestores | src/UserInterface.ts:227-238 | two flips restore both the flag and the texture |
| UI.TurnIndicator.constructor | src/UserInterface.ts:207-217 | the indicator starts flipped and shows the Kilrathi sigil |
| UI.TurnIndicator.FlipOver | src/UserInterface.ts:227-238 | the flag is negated; the texture becomes the Confed star when the indicator was flipped and the Kilrathi sigil when it was not |
| Interaction.AllTargetListenersMembers | src/InputController.ts:144-148 | a listener is attached by the forEach over the targets exactly when it sits on one of those targets and is one of that target's three |
| Interaction.AllTargetListenersStep | src/InputController.ts:144-148 | each forEach step adds exactly the three listeners of the next target |
| Interaction.CallbackForAttached | src/InputController.ts:139-148 | during a drag, the listener for an event on the stage or on a card target is attached exactly for the callback the lookup names |
| Interaction.Initial | src/Card.ts:40-41 | new cards are interactive on the UICards layer at their positions; nothing is outlined, selected or dragged over, no listener is attached and every target is empty; at most one card is outlined and every held card is destroyed |
| Interaction.OutlineCard | src/InputController.ts:96-107 | with no outlined card, the card becomes outlined at the interaction layer and nothing else changes; otherwise the state is unchanged |
| Interaction.UnoutlineCard | src/InputController.ts:113-124 | only the outlined card can be unoutlined; it goes back to UICards and nothing else changes; any other card leaves the state unchanged |
| Interaction.CardDragStart | src/InputController.ts:131-149 | the card becomes the selected, non-interactive card, the offset is kept, and exactly the stage and target drag listeners are added |
| Interaction.CardDragEnd | src/InputController.ts:155-175 | the selected card is interactive again, no card is selected and no listener remains; with no selected card only the exact warning is logged |
| Interaction.DragCard | src/InputController.ts:181-193 | the dragged card's position plus the offset equals the pointer; nothing else moves; otherwise the exact warning naming the null fields is logged |
| Interaction.DisplayCardInTarget | src/InputController.ts:43-52 | the target displays the selected card with a highlighted border, becomes the dragged-over target, and the card is hidden; otherwise the exact warning is logged |
| Interaction.RemoveCardFromTarget | src/InputController.ts:78-90 | the dragged-over target is cleared and its border reset, no target is dragged over and the card is visible again; otherwise the exact warning is logged |
| Interaction.SetCardInTarget | src/InputController.ts:57-73 | the target holds the card with its border reset; the drag ends with no listener left; the card is destroyed; nothing is selected, outlined or dragged over; otherwise the exact warning is logged |
| Interaction.PlaceCard | src/InputController.ts:59-61 | with a card dragged over a target, that target takes the card with its border reset and no target is dragged over; nothing else changes and the invariant still holds, so the drag can be ended |
| Interaction.Invoke | src/InputController.ts:19-37 | every stored callback keeps the invariant; the display callback does nothing unless its emitter is a card target |
| Interaction.Dispatch | src/InputController.ts:139-148 | a pointer event keeps the invariant, and while no card is dragged no listener is attached, so every event is ignored |
| Interaction.DragStartFromIdleKeepsOnlySelectedLifted | src/InputController.ts:131-133 | starting a drag from idle leaves only the selected card non-interactive |
| Interaction.OthersStayInteractive | src/InputController.ts:155-159 | a transition that leaves every other card's interactive flag alone keeps "only the selected card is non-interactive" |
| Interaction.DragCardKeepsOnlySelectedLifted | src/InputController.ts:181-193 | moving the dragged card leaves only the selected card non-interactive |
| Interaction.CardDragEndKeepsOnlySelectedLifted | src/InputController.ts:155-175 | ending the drag leaves only the selected card, if any, non-interactive |
| Interaction.DisplayCardInTargetKeepsOnlySelectedLifted | src/InputController.ts:43-52 | showing the card in a target leaves only the selected card non-interactive |
| Interaction.RemoveCardFromTargetKeepsOnlySelectedLifted | src/InputController.ts:78-90 | clearing the target leaves only the selected card non-interactive |
| Interaction.SetCardInTargetKeepsOnlySelectedLifted | src/InputController.ts:57-73 | dropping the card into the target leaves only the selected card, if any, non-interactive |
| Interaction.InvokeKeepsOnlySelectedLifted | src/InputController.ts:19-37 | no stored callback makes a card other than the selected one non-interactive |
| Interaction.OutlineCardKeepsOnlySelectedLifted | src/InputController.ts:96-107 | hovering a card changes no interactive flag |
| Interaction.UnoutlineCardKeepsOnlySelectedLifted | src/InputController.ts:113-124 | leaving a card changes no interactive flag |
| Interaction.DispatchKeepsOnlySelectedLifted | src/InputController.ts:139-148 | no pointer event delivered during a drag makes a card other than the selected one non-interactive |
| Interaction.SecondDragStartStrandsFirstCard | src/InputController.ts:131-133 | a second drag start before the first ends leaves the first card non-interactive after the drag ends |
| Interaction.DragStartThenEnd | src/InputController.ts:131-175 | a drag ended without visiting a target restores the state before the drag, except for the kept offset |
| Interaction.DropIntoTarget | src/InputController.ts:43-73 | drag, enter a target and release: the target holds the card, the card is destroyed, the controller is idle with no listener, nothing is logged and no other target changes |
| Interaction.CancelOverTarget | src/InputController.ts:43-90 | drag over a target, leave it and release outside: the card is visible and interactive, the target displays nothing and holds what it held, the controller is idle with no listener, and every other target is unchanged |
| Interaction.OutlineCardKeepsAtMostOneOutlined | src/InputController.ts:96-107 | the guard works: hovering a card keeps at most one card outlined, the outlined one |
| Interaction.UnoutlineCardKeepsAtMostOneOutlined | src/InputController.ts:113-124 | leaving a card keeps at most one card outlined |
| Interaction.DropOfOutlinedCardKeepsAtMostOneOutlined | src/InputController.ts:57-73 | a drop keeps at most one card outlined when the outlined card, if any, is the dropped one |
| Interaction.DropLeavesStaleOutline | src/InputController.ts:66 | as written, a drop while another card d is outlined forgets d without removing its outline, so hovering a third card afterwards leaves two cards outlined |
| Interaction.CardHandlersKeepHeldAreDestroyed | src/InputController.ts:96-149 | hovering, leaving and starting a drag keep every held card destroyed |
| Interaction.DragCardKeepsHeldAreDestroyed | src/InputController.ts:181-193 | moving the dragged card keeps every held card destroyed |
| Interaction.CardDragEndKeepsHeldAreDestroyed | src/InputController.ts:155-175 | ending the drag keeps every held card destroyed |
| Interaction.DisplayCardInTargetKeepsHeldAreDestroyed | src/InputController.ts:43-52 | showing the card in a target keeps every held card destroyed |
| Interaction.RemoveCardFromTargetKeepsHeldAreDestroyed | src/InputController.ts:78-90 | clearing the target keeps every held card destroyed |
| Interaction.SetCardInTargetKeepsHeldAreDestroyed | src/InputController.ts:57-73 | the drop sets the card into the target and destroys it in the same call, so every held card stays destroyed |
| Interaction.DispatchKeepsHeldAreDestroyed | src/InputController.ts:139-148 | no pointer event delivered to the listeners makes a target hold a live card |
| Interaction.DropLeavesNoOtherHolder | src/InputController.ts:43-73 | after a complete drop into t, every held card is still destroyed and no target other than t holds the dropped card |
| Interaction.CancelLeavesNoHolder | src/InputController.ts:43-90 | after a cancelled drop no target holds the card |
| Input.InputController.constructor | src/InputController.ts:8-11 | all four references start null over fresh cards and empty targets: the initial state |
| Input.InputController.DisplayCardInTarget | src/InputController.ts:43-52 | the fields change exactly as Interaction.DisplayCardInTarget says, and the invariant is kept |
| Input.InputController.SetCardInTarget | src/InputController.ts:57-73 | the fields change exactly as Interaction.SetCardInTarget says, by way of the PlaceSelectedCard and CardDragEnd methods, and the invariant is kept |
| Input.InputController.PlaceSelectedCard | src/InputController.ts:59-61 | only the targets and the dragged-over target change, exactly as Interaction.PlaceCard says, and the invariant is kept |
| Input.InputController.RemoveCardFromTarget | src/InputController.ts:78-90 | the fields change exactly as Interaction.RemoveCardFromTarget says, and the invariant is kept |
| Input.InputController.OutlineCard | src/InputController.ts:96-107 | the fields change exactly as Interaction.OutlineCard says, and the invariant is kept |
| Input.InputController.UnoutlineCard | src/InputController.ts:113-124 | the fields change exactly as Interaction.UnoutlineCard says, and the invariant is kept |
| Input.InputController.CardDragStart | src/InputController.ts:131-149 | the fields change exactly as Interaction.CardDragStart says, with listeners attached one at a time, and the invariant is kept |
| Input.InputController.CardDragEnd | src/InputController.ts:155-175 | the fields change exactly as Interaction.CardDragEnd says, with listeners detached one at a time, and the invariant is kept |
| Input.InputController.DragCard | src/InputController.ts:181-193 | the fields change exactly as Interaction.DragCard says, and the invariant is kept |
| Input.InputController.Invoke | src/InputController.ts:19-37 | running a stored callback performs Interaction.Invoke |
| Input.InputController.HandleEvent | src/InputController.ts:139-148 | delivering a pointer event to the attached listeners performs Interaction.Dispatch |
| Input.AttachTargetListeners | src/InputController.ts:144-148 | the loop over the targets adds exactly the listeners of all targets |
| Input.DetachTargetListeners | src/InputController.ts:167-171 | the loop over the targets removes exactly the listeners of all targets |

## Left out

- The gsap tweens are left out: the zoom of OutlineCard and UnoutlineCard, and the flip animation of FlipOver. FlipOver is modelled by its state at the end of the animation, after `onRepeat` has swapped the texture.
- Card scales (`Card.DefaultScale`, `Card.ZoomScale`) are floating point and animated, so they are not modelled.
- `Interaction.CardDragStart`: the offset is taken as a parameter. The scaling of `getLocalPosition` by `card.scale`, floating-point arithmetic on `PIXI.Point`, is not modelled.
- `Layers.Interaction` is not defined in `src/Global.ts`, so the interaction layer is a constructor parameter.
- The outline filter is modelled as a boolean `outlined` flag.
- Inside a card target, only what the controller asks of it is modelled: what it displays, what it holds and its border. Its rendering and any acceptance rules are not modelled.
- The card target class is not part of this model, so the effects of `DisplayCard`, `SetCard` and `ClearCard` are assumed. `DisplayCard` is assumed to record the displayed card. `SetCard` is assumed to always take the card into `holds` and to leave `displayed` as it was. `ClearCard` is assumed to clear only `displayed` and to leave `holds` alone. These assumptions decide two results: the "holds what it held" clause of `Interaction.CancelOverTarget`, and the slot of `Interaction.DropIntoTarget` still displaying the destroyed card.
- Duplicate subscriptions are merged: a repeated `on` of the same callback is kept once, so the repeated callback runs and extra warnings after a second `CardDragStart` are not modelled.
- `game.Warning` is modelled as appending its message to a log.
- The stage's listener dispatch order and PIXI's hit-testing are left out. An event reaches exactly the emitter named in `Dispatch`.
- `removeChild` and `destroy` are modelled together as moving the card from `cards` to `destroyed`.
- `Decimal.ParseInt`: leading white space, a `0x` prefix and non-decimal radixes are not handled; the counters never hold such text.
- `UI.ShiftedText`: numbers are unbounded integers. JavaScript's double-precision rounding and exponent notation beyond 2^53 are not modelled. A non-integral `delta` is not modelled either.
- The card's own `pointerdown` handler calls `game.input.cardClicked`, which `src/InputController.ts` does not define. `src/main.ts` and the layout code of the `UserInterface` constructor (positions, styles, children) are not part of this model.
