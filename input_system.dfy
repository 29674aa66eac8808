/**
 * Keyboard input: which movement keys are held this frame, and how a key
 * press starts, steers or ends a conversation with an NPC.
 */
module InputSystem {
  import opened Wrappers
  import opened Keyboard
  import opened Dialog
  import opened Components

  /**
   * `player_movements` (and its older copy `handle_input`): the held
   * movement keys, scanned in the order Up, Down, Left, Right.
   * `isKeyPressed` stands for the framework's keyboard query.
   */
  method PlayerMovements(isKeyPressed: KeyCode -> bool) returns (pressedMovKeys: seq<KeyCode>)
    ensures pressedMovKeys == PressedAmong(MovementKeys, isKeyPressed)
    ensures forall k :: k in pressedMovKeys <==> IsArrow(k) && isKeyPressed(k)
    ensures forall a, b :: 0 <= a < b < |pressedMovKeys| ==>
              ScanRank(pressedMovKeys[a]) < ScanRank(pressedMovKeys[b])
    ensures |pressedMovKeys| <= 4
    ensures pressedMovKeys == [] <==> forall k :: IsArrow(k) ==> !isKeyPressed(k)
  {
    var playerMovKeys := MovementKeys;
    pressedMovKeys := [];
    for i := 0 to |playerMovKeys|
      invariant pressedMovKeys == PressedAmong(playerMovKeys[..i], isKeyPressed)
    {
      var key := playerMovKeys[i];
      assert playerMovKeys[..i + 1][..i] == playerMovKeys[..i];
      if isKeyPressed(key) {
        pressedMovKeys := pressedMovKeys + [key];
      }
    }
    assert playerMovKeys[..|playerMovKeys|] == MovementKeys;
    HeldMovementKeys(isKeyPressed);
  }

  /** The keys of `keys` that are held, in the order of `keys`. */
  function PressedAmong(keys: seq<KeyCode>, isKeyPressed: KeyCode -> bool): seq<KeyCode>
    decreases |keys|
  {
    if keys == [] then []
    else PressedAmong(keys[..|keys| - 1], isKeyPressed)
         + (if isKeyPressed(keys[|keys| - 1]) then [keys[|keys| - 1]] else [])
  }

  /** The filter keeps exactly the held keys of `keys`, and no more of them than there are. */
  lemma {:induction false} PressedAmongMembers(keys: seq<KeyCode>, isKeyPressed: KeyCode -> bool)
    ensures forall k :: k in PressedAmong(keys, isKeyPressed) <==> k in keys && isKeyPressed(k)
    ensures |PressedAmong(keys, isKeyPressed)| <= |keys|
    decreases |keys|
  {
    if keys != [] {
      var init := keys[..|keys| - 1];
      PressedAmongMembers(init, isKeyPressed);
      assert keys == init + [keys[|keys| - 1]];
    }
  }

  /** Keys listed in strictly increasing scan rank are filtered into a sequence of strictly increasing rank. */
  lemma {:induction false} PressedAmongOrdered(keys: seq<KeyCode>, isKeyPressed: KeyCode -> bool)
    requires forall a, b :: 0 <= a < b < |keys| ==> ScanRank(keys[a]) < ScanRank(keys[b])
    ensures var r := PressedAmong(keys, isKeyPressed);
      forall a, b :: 0 <= a < b < |r| ==> ScanRank(r[a]) < ScanRank(r[b])
    decreases |keys|
  {
    if keys != [] {
      var init := keys[..|keys| - 1];
      var last := keys[|keys| - 1];
      PressedAmongOrdered(init, isKeyPressed);
      PressedAmongMembers(init, isKeyPressed);
      var r0 := PressedAmong(init, isKeyPressed);
      forall a | 0 <= a < |r0| ensures ScanRank(r0[a]) < ScanRank(last) {
        assert r0[a] in r0;
        var j :| 0 <= j < |init| && init[j] == r0[a];
      }
    }
  }

  /**
   * The held movement keys are exactly the held arrows, in the order Up,
   * Down, Left, Right, each at most once; none iff no arrow is held.
   */
  lemma HeldMovementKeys(isKeyPressed: KeyCode -> bool)
    ensures var r := PressedAmong(MovementKeys, isKeyPressed);
      && (forall k :: k in r <==> IsArrow(k) && isKeyPressed(k))
      && (forall a, b :: 0 <= a < b < |r| ==> ScanRank(r[a]) < ScanRank(r[b]))
      && |r| <= 4
      && (r == [] <==> forall k :: IsArrow(k) ==> !isKeyPressed(k))
  {
    var r := PressedAmong(MovementKeys, isKeyPressed);
    MovementKeysAreTheArrows();
    PressedAmongMembers(MovementKeys, isKeyPressed);
    PressedAmongOrdered(MovementKeys, isKeyPressed);
    if r != [] {
      assert r[0] in r;
    }
  }

  /** The scanned keys are the four arrows, in increasing scan rank. */
  lemma MovementKeysAreTheArrows()
    ensures forall k :: k in MovementKeys <==> IsArrow(k)
    ensures forall a, b :: 0 <= a < b < |MovementKeys| ==> ScanRank(MovementKeys[a]) < ScanRank(MovementKeys[b])
  {
    forall k ensures k in MovementKeys <==> IsArrow(k) {
      if IsArrow(k) {
        assert MovementKeys[ScanRank(k)] == k;
      }
    }
  }

  /** What a key press makes of the active interaction: the next one, or a panic of the source. */
  datatype Outcome = Next(interaction: Option<Interaction>) | Panic

  /**
   * `key_down_event_interaction`: while a conversation is active every key
   * goes to the interaction handler; otherwise only Return can start one.
   */
  function KeyDownEventInteraction(
    current: Option<Interaction>, currentFocus: Option<EntityIndex>,
    npcsComponents: seq<Option<Npc>>, npcsInteractions: seq<Option<Interaction>>, key: KeyCode): (r: Outcome)
    ensures current.None? && !key.Return? ==> r == Next(None)
    ensures current.None? && key.Return? ==> r == BeginInteraction(currentFocus, npcsComponents, npcsInteractions)
    ensures current.Some? && !(key.Up? || key.Down? || key.Return?) ==> r == Next(None)
    ensures current.Some? && (key.Up? || key.Down? || key.Return?) ==> r == UpdateInteraction(current.value, key)
  {
    match current
    case Some(_) => InteractionInputHandler(current.value, key)
    case None =>
      match key
      case Return => BeginInteraction(currentFocus, npcsComponents, npcsInteractions)
      case _ => Next(None)
  }

  /** `interaction_input_handler`: Up, Down and Return steer; Escape and every other key end. */
  function InteractionInputHandler(current: Interaction, key: KeyCode): (r: Outcome)
    ensures (key.Up? || key.Down? || key.Return?) ==> r == UpdateInteraction(current, key)
    ensures !(key.Up? || key.Down? || key.Return?) ==> r == Next(None)
  {
    match key
    case Up => UpdateInteraction(current, key)
    case Down => UpdateInteraction(current, key)
    case Return => UpdateInteraction(current, key)
    case Escape => Next(None)
    case _ => Next(None)
  }

  /**
   * `begin_interaction`: the focused slot's stored interaction, if the
   * focused slot holds an NPC. Indexing past the end of a collection panics.
   */
  function BeginInteraction(
    currentFocus: Option<EntityIndex>, npcsComponents: seq<Option<Npc>>,
    npcsInteractions: seq<Option<Interaction>>): (r: Outcome)
    ensures r.Panic? <==>
      currentFocus.Some?
      && (currentFocus.value >= |npcsComponents|
          || (npcsComponents[currentFocus.value].Some? && currentFocus.value >= |npcsInteractions|))
    ensures (r.Next? && r.interaction.Some?) <==>
      currentFocus.Some? && currentFocus.value < |npcsComponents| && npcsComponents[currentFocus.value].Some?
      && currentFocus.value < |npcsInteractions| && npcsInteractions[currentFocus.value].Some?
    ensures r.Next? && r.interaction.Some? ==> r.interaction == npcsInteractions[currentFocus.value]
  {
    match currentFocus
    case Some(focusedEntityId) =>
      if focusedEntityId >= |npcsComponents| then Panic
      else if npcsComponents[focusedEntityId].None? then Next(None)
      else if focusedEntityId >= |npcsInteractions| then Panic
      else Next(npcsInteractions[focusedEntityId])
    case None => Next(None)
  }

  /**
   * `update_interaction`: on a node with sub-interactions, Up and Down move
   * the cursor without wrapping and Return descends into the hovered
   * sub-tree; anything else, and every key on a node without
   * sub-interactions, ends the conversation. Down unwraps `options` and
   * computes `len() - 1` in unsigned arithmetic, so it panics when the
   * options are missing or empty; Return panics when the cursor is past the
   * sub-interactions.
   */
  function UpdateInteraction(interaction: Interaction, action: KeyCode): (r: Outcome)
    ensures interaction.subInteractions.NoSubInteractions? ==> r == Next(None)
    ensures interaction.subInteractions.SubInteractions? && action.Up? ==>
      r.Next? && r.interaction.Some?
      && r.interaction.value.hoveredOption
         == (if interaction.hoveredOption == 0 then 0 else interaction.hoveredOption - 1)
      && r.interaction.value.(hoveredOption := interaction.hoveredOption) == interaction
    ensures interaction.subInteractions.SubInteractions? && action.Down? ==>
      (r.Panic? <==> interaction.options.None? || |interaction.options.value| == 0)
    ensures interaction.subInteractions.SubInteractions? && action.Down? && r.Next? ==>
      r.interaction.Some?
      && r.interaction.value.(hoveredOption := interaction.hoveredOption) == interaction
      && r.interaction.value.hoveredOption
         == (if interaction.hoveredOption + 1 < |interaction.options.value|
             then interaction.hoveredOption + 1 else interaction.hoveredOption)
      && (interaction.hoveredOption < |interaction.options.value| ==>
            r.interaction.value.hoveredOption < |interaction.options.value|)
    ensures interaction.subInteractions.SubInteractions? && action.Return? ==>
      r == (if interaction.hoveredOption < |interaction.subInteractions.value|
            then Next(Some(interaction.subInteractions.value[interaction.hoveredOption]))
            else Panic)
    ensures interaction.subInteractions.SubInteractions? && !(action.Up? || action.Down? || action.Return?) ==>
      r == Next(None)
  {
    var interaction := interaction;
    match interaction.subInteractions
    case SubInteractions(subInteractions) =>
      (match action
       case Up =>
         var interaction := if interaction.hoveredOption != 0
           then interaction.(hoveredOption := interaction.hoveredOption - 1) else interaction;
         Next(Some(interaction))
       case Down =>
         if interaction.options.None? || |interaction.options.value| == 0 then Panic
         else
           var interaction := if interaction.hoveredOption < |interaction.options.value| - 1
             then interaction.(hoveredOption := interaction.hoveredOption + 1) else interaction;
           Next(Some(interaction))
       case Return =>
         if interaction.hoveredOption < |subInteractions|
         then Next(Some(subInteractions[interaction.hoveredOption]))
         else Panic
       case _ => Next(None))
    case NoSubInteractions => Next(None)
  }

  /**
   * The entity store as the dialog sees it: the collections have equal
   * length, the focus names a slot, and every stored tree is well formed.
   */
  predicate StoreReady(
    currentFocus: Option<EntityIndex>, npcsComponents: seq<Option<Npc>>,
    npcsInteractions: seq<Option<Interaction>>)
  {
    && |npcsComponents| == |npcsInteractions|
    && (currentFocus.Some? ==> currentFocus.value < |npcsComponents|)
    && forall k :: 0 <= k < |npcsInteractions| && npcsInteractions[k].Some? ==> WellFormed(npcsInteractions[k].value)
  }

  /** A well-formed active node never makes `update_interaction` panic, and stays well formed. */
  lemma UpdateInteractionKeepsWellFormed(interaction: Interaction, action: KeyCode)
    requires WellFormed(interaction)
    ensures UpdateInteraction(interaction, action).Next?
    ensures var r := UpdateInteraction(interaction, action);
      r.interaction.Some? ==> WellFormed(r.interaction.value)
  {
  }

  /** On a ready store with a well-formed active node, a key press never panics and keeps the shape. */
  lemma KeyDownKeepsWellFormed(
    current: Option<Interaction>, currentFocus: Option<EntityIndex>,
    npcsComponents: seq<Option<Npc>>, npcsInteractions: seq<Option<Interaction>>, key: KeyCode)
    requires StoreReady(currentFocus, npcsComponents, npcsInteractions)
    requires current.Some? ==> WellFormed(current.value)
    ensures KeyDownEventInteraction(current, currentFocus, npcsComponents, npcsInteractions, key).Next?
    ensures var r := KeyDownEventInteraction(current, currentFocus, npcsComponents, npcsInteractions, key);
      r.interaction.Some? ==> WellFormed(r.interaction.value)
  {
    if current.Some? {
      UpdateInteractionKeepsWellFormed(current.value, key);
    }
  }

  /** A run of key presses, each applied to the interaction the previous one left (focus is fixed). */
  function RunKeys(
    current: Option<Interaction>, currentFocus: Option<EntityIndex>,
    npcsComponents: seq<Option<Npc>>, npcsInteractions: seq<Option<Interaction>>, keys: seq<KeyCode>): Outcome
    decreases |keys|
  {
    if keys == [] then Next(current)
    else
      match KeyDownEventInteraction(current, currentFocus, npcsComponents, npcsInteractions, keys[0])
      case Panic => Panic
      case Next(next) => RunKeys(next, currentFocus, npcsComponents, npcsInteractions, keys[1..])
  }

  /**
   * However many keys arrive, a well-formed conversation never panics and
   * its cursor stays on one of its options.
   */
  lemma {:induction false} RunKeysKeepsCursorInRange(
    current: Option<Interaction>, currentFocus: Option<EntityIndex>,
    npcsComponents: seq<Option<Npc>>, npcsInteractions: seq<Option<Interaction>>, keys: seq<KeyCode>)
    requires StoreReady(currentFocus, npcsComponents, npcsInteractions)
    requires current.Some? ==> WellFormed(current.value)
    ensures RunKeys(current, currentFocus, npcsComponents, npcsInteractions, keys).Next?
    ensures var r := RunKeys(current, currentFocus, npcsComponents, npcsInteractions, keys);
      r.interaction.Some? ==> WellFormed(r.interaction.value)
    ensures var r := RunKeys(current, currentFocus, npcsComponents, npcsInteractions, keys);
      r.interaction.Some? && r.interaction.value.options.Some? ==>
        r.interaction.value.hoveredOption < |r.interaction.value.options.value|
    decreases |keys|
  {
    if keys != [] {
      KeyDownKeepsWellFormed(current, currentFocus, npcsComponents, npcsInteractions, keys[0]);
      var next := KeyDownEventInteraction(current, currentFocus, npcsComponents, npcsInteractions, keys[0]).interaction;
      RunKeysKeepsCursorInRange(next, currentFocus, npcsComponents, npcsInteractions, keys[1..]);
    }
  }

  /**
   * Whatever keys came before, a run that has not panicked is over once
   * Escape arrives: an active conversation ends, and with none active
   * Escape starts none.
   */
  lemma {:induction false} EscapeEndsAnyRun(
    current: Option<Interaction>, currentFocus: Option<EntityIndex>,
    npcsComponents: seq<Option<Npc>>, npcsInteractions: seq<Option<Interaction>>, keys: seq<KeyCode>)
    requires RunKeys(current, currentFocus, npcsComponents, npcsInteractions, keys).Next?
    ensures RunKeys(current, currentFocus, npcsComponents, npcsInteractions, keys + [Escape]) == Next(None)
    decreases |keys|
  {
    if keys == [] {
      assert keys + [Escape] == [Escape];
      assert [Escape][1..] == [];
    } else {
      assert (keys + [Escape])[0] == keys[0];
      assert (keys + [Escape])[1..] == keys[1..] + [Escape];
      var next := KeyDownEventInteraction(current, currentFocus, npcsComponents, npcsInteractions, keys[0]).interaction;
      EscapeEndsAnyRun(next, currentFocus, npcsComponents, npcsInteractions, keys[1..]);
    }
  }

  /**
   * A three-option menu: Down twice reaches the last option, a third Down
   * stays there, and Return then opens the last option's sub-tree.
   */
  lemma ThreeOptionMenuScenario(currentFocus: Option<EntityIndex>,
    npcsComponents: seq<Option<Npc>>, npcsInteractions: seq<Option<Interaction>>)
    ensures var leaf := Default();
      var farewell := New(None, NoSubInteractions, "Bye!");
      var menu := New(Some(["a", "b", "c"]), SubInteractions([leaf, leaf, farewell]), "Pick one");
      RunKeys(Some(menu), currentFocus, npcsComponents, npcsInteractions, [Down, Down])
        == Next(Some(menu.(hoveredOption := 2)))
      && RunKeys(Some(menu), currentFocus, npcsComponents, npcsInteractions, [Down, Down, Down])
        == Next(Some(menu.(hoveredOption := 2)))
      && RunKeys(Some(menu), currentFocus, npcsComponents, npcsInteractions, [Down, Down, Down, Return])
        == Next(Some(farewell))
  {
    assert [Down, Down][1..] == [Down];
    assert [Down, Down, Down][1..] == [Down, Down];
    assert [Down, Down, Down, Return][1..] == [Down, Down, Return];
    assert [Down, Down, Return][1..] == [Down, Return];
    assert [Down, Return][1..] == [Return];
    assert [Return][1..] == [];
  }

  /** Focus on an NPC slot holding a tree, then Return: that tree becomes the active node. */
  lemma ReturnStartsFocusedConversation(
    i: EntityIndex, npcsComponents: seq<Option<Npc>>, npcsInteractions: seq<Option<Interaction>>)
    requires i < |npcsComponents| == |npcsInteractions|
    requires npcsComponents[i].Some? && npcsInteractions[i].Some?
    ensures KeyDownEventInteraction(None, Some(i), npcsComponents, npcsInteractions, Return)
      == Next(npcsInteractions[i])
  {
  }
}
