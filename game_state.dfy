/**
 * The current snapshot's game state: parallel component collections that
 * share one entity index, the player, the active conversation, the focus,
 * the camera, the world and the frame counter. Sprites, sprite batches and
 * tiles are drawing state and are not part of this model.
 */
module Game {
  import opened Wrappers
  import opened Keyboard
  import opened Constants
  import opened Positioning
  import opened Physics
  import Dialog
  import opened Components
  import opened CameraSystem
  import opened InputSystem
  import opened PhysicsSystem
  import opened Loading

  /** A draw of the random NPC position generator: x in [300, 900), y in [200, 700). */
  predicate NpcPosition(p: (int, int)) {
    300 <= p.0 < 900 && 200 <= p.1 < 700
  }

  predicate AllNpcPositions(ps: seq<(int, int)>) {
    forall k :: 0 <= k < |ps| ==> NpcPosition(ps[k])
  }

  /** The physics slots `add_npcs` appends, one NPC body per random draw. */
  function NpcBodies(npcPositions: seq<(int, int)>): (r: seq<Option<Physics>>)
    requires AllNpcPositions(npcPositions)
    ensures |r| == |npcPositions|
    ensures forall k :: 0 <= k < |r| ==>
      r[k] == Some(GenerateNpcPhysics(npcPositions[k].0, npcPositions[k].1))
    decreases |npcPositions|
  {
    if npcPositions == [] then []
    else
      var last := npcPositions[|npcPositions| - 1];
      NpcBodies(npcPositions[..|npcPositions| - 1]) + [Some(GenerateNpcPhysics(last.0, last.1))]
  }

  /** The NPC slots `add_npcs` appends: each record's id and name. */
  function NpcSlots(npcs: seq<NpcRecord>): (r: seq<Option<Npc>>)
    ensures |r| == |npcs|
    ensures forall k :: 0 <= k < |r| ==> r[k] == Some(Npc(Some(npcs[k].id), npcs[k].name))
    decreases |npcs|
  {
    if npcs == [] then []
    else
      var last := npcs[|npcs| - 1];
      NpcSlots(npcs[..|npcs| - 1]) + [Some(Npc(Some(last.id), last.name))]
  }

  /** The interaction slots `add_npcs` appends: each record's main interaction. */
  function NpcInteractions(npcs: seq<NpcRecord>): (r: seq<Option<Dialog.Interaction>>)
    ensures |r| == |npcs|
    ensures forall k :: 0 <= k < |r| ==> r[k] == npcs[k].mainInteraction
    decreases |npcs|
  {
    if npcs == [] then []
    else NpcInteractions(npcs[..|npcs| - 1]) + [npcs[|npcs| - 1].mainInteraction]
  }

  /** One more NPC record extends each run of slots by its own slot. */
  lemma NpcSlotsStep(bodies: seq<Option<Physics>>, slots: seq<Option<Npc>>, dialogs: seq<Option<Dialog.Interaction>>,
                     npcs: seq<NpcRecord>, npcPositions: seq<(int, int)>, i: nat)
    requires i < |npcs| && i < |npcPositions| && AllNpcPositions(npcPositions)
    ensures AllNpcPositions(npcPositions[..i]) && AllNpcPositions(npcPositions[..i + 1])
    ensures bodies + NpcBodies(npcPositions[..i]) + [Some(GenerateNpcPhysics(npcPositions[i].0, npcPositions[i].1))]
      == bodies + NpcBodies(npcPositions[..i + 1])
    ensures slots + NpcSlots(npcs[..i]) + [Some(Npc(Some(npcs[i].id), npcs[i].name))] == slots + NpcSlots(npcs[..i + 1])
    ensures dialogs + NpcInteractions(npcs[..i]) + [npcs[i].mainInteraction] == dialogs + NpcInteractions(npcs[..i + 1])
  {
    assert npcs[..i + 1][..i] == npcs[..i];
    assert npcPositions[..i + 1][..i] == npcPositions[..i];
  }

  /** The player at its starting place overlaps no NPC and no desk of the first row. */
  lemma InitialPlayerClear(npcPositions: seq<(int, int)>)
    requires AllNpcPositions(npcPositions)
    ensures ClearOf(InitialPlayerPhysics(), NpcBodies(npcPositions) + DeskRow())
  {
    var bodies := NpcBodies(npcPositions) + DeskRow();
    forall j | 0 <= j < |bodies| ensures !Hits(InitialPlayerPhysics(), bodies[j]) {
      if j < |npcPositions| {
        InitialPlayerPlacement(npcPositions[j].0, npcPositions[j].1);
      } else {
        assert bodies[j] == DeskRow()[j - |npcPositions|];
      }
    }
  }

  class GameState {
    var physicsComponents: seq<Option<Physics>>
    var npcsComponents: seq<Option<Npc>>
    var playerPhysics: Physics
    var currentInteraction: Option<Dialog.Interaction>
    var npcsInteractions: seq<Option<Dialog.Interaction>>
    var currentFocus: Option<EntityIndex>
    var camera: Camera
    var worldSize: Size
    var frames: nat

    /**
     * The collections stay the same length, the player fits in the world,
     * stays inside it and faces some direction, and the focus names a slot
     * that holds a body.
     */
    predicate Valid()
      reads this
    {
      && |physicsComponents| == |npcsComponents| == |npcsInteractions|
      && PlayerSettled(Resolved(playerPhysics, currentFocus, camera), physicsComponents, worldSize)
    }

    /** The player overlaps no stored body. */
    predicate PlayerClear()
      reads this
    {
      ClearOf(playerPhysics, physicsComponents)
    }

    /** Every stored dialog tree, and the active one, is well formed. */
    predicate DialogsReady()
      reads this
    {
      && (forall k :: 0 <= k < |npcsInteractions| && npcsInteractions[k].Some? ==>
            Dialog.WellFormed(npcsInteractions[k].value))
      && (currentInteraction.Some? ==> Dialog.WellFormed(currentInteraction.value))
    }

    /**
     * `GameState::new` followed by `load_initial_components`: the NPC
     * records (from the roster file) and the random position of each NPC
     * are parameters. The NPCs take the first slots and the desks the next
     * four.
     */
    constructor (npcs: seq<NpcRecord>, npcPositions: seq<(int, int)>)
      requires |npcPositions| == |npcs| && AllNpcPositions(npcPositions)
      ensures Valid() && PlayerClear()
      ensures playerPhysics == InitialPlayerPhysics()
      ensures camera == CameraSystem.New(playerPhysics.position)
      ensures worldSize == Size(INTIAL_WORLD_W, INTIAL_WORLD_H)
      ensures currentInteraction == None && currentFocus == None && frames == 0
      ensures physicsComponents == NpcBodies(npcPositions) + DeskRow()
      ensures npcsComponents == NpcSlots(npcs) + [None, None, None, None]
      ensures npcsInteractions == NpcInteractions(npcs) + [None, None, None, None]
    {
      physicsComponents := [];
      npcsComponents := [];
      playerPhysics := InitialPlayerPhysics();
      npcsInteractions := [];
      currentInteraction := None;
      currentFocus := None;
      camera := CameraSystem.New(InitialPlayerPhysics().position);
      worldSize := Size(INTIAL_WORLD_W, INTIAL_WORLD_H);
      frames := 0;
      new;
      InitialPlayerClear(npcPositions);
      LoadInitialComponents(npcs, npcPositions);
      assert [] + NpcBodies(npcPositions) + DeskRow() == NpcBodies(npcPositions) + DeskRow();
    }

    /** `load_initial_components`: the NPCs, then the first desk row. */
    method LoadInitialComponents(npcs: seq<NpcRecord>, npcPositions: seq<(int, int)>)
      requires Valid()
      requires |npcPositions| == |npcs| && AllNpcPositions(npcPositions)
      modifies this
      ensures Valid()
      ensures physicsComponents == old(physicsComponents) + NpcBodies(npcPositions) + DeskRow()
      ensures npcsComponents == old(npcsComponents) + NpcSlots(npcs) + [None, None, None, None]
      ensures npcsInteractions == old(npcsInteractions) + NpcInteractions(npcs) + [None, None, None, None]
      ensures playerPhysics == old(playerPhysics) && currentInteraction == old(currentInteraction)
      ensures currentFocus == old(currentFocus) && camera == old(camera)
      ensures worldSize == old(worldSize) && frames == old(frames)
    {
      AddNpcs(npcs, npcPositions);
      AddFirstDeskRow();
    }

    /** `add_npcs`: one slot per NPC record, with its body, its id and name, and its main interaction. */
    method AddNpcs(npcs: seq<NpcRecord>, npcPositions: seq<(int, int)>)
      requires Valid()
      requires |npcPositions| == |npcs| && AllNpcPositions(npcPositions)
      modifies this
      ensures Valid()
      ensures physicsComponents == old(physicsComponents) + NpcBodies(npcPositions)
      ensures npcsComponents == old(npcsComponents) + NpcSlots(npcs)
      ensures npcsInteractions == old(npcsInteractions) + NpcInteractions(npcs)
      ensures playerPhysics == old(playerPhysics) && currentInteraction == old(currentInteraction)
      ensures currentFocus == old(currentFocus) && camera == old(camera)
      ensures worldSize == old(worldSize) && frames == old(frames)
    {
      for i := 0 to |npcs|
        invariant Valid()
        invariant physicsComponents == old(physicsComponents) + NpcBodies(npcPositions[..i])
        invariant npcsComponents == old(npcsComponents) + NpcSlots(npcs[..i])
        invariant npcsInteractions == old(npcsInteractions) + NpcInteractions(npcs[..i])
        invariant playerPhysics == old(playerPhysics) && currentInteraction == old(currentInteraction)
        invariant currentFocus == old(currentFocus) && camera == old(camera)
        invariant worldSize == old(worldSize) && frames == old(frames)
      {
        var npcData := npcs[i];
        var position := npcPositions[i];
        NpcSlotsStep(old(physicsComponents), old(npcsComponents), old(npcsInteractions), npcs, npcPositions, i);
        AddEntity(Some(GenerateNpcPhysics(position.0, position.1)),
                  Some(Npc(Some(npcData.id), npcData.name)),
                  npcData.mainInteraction);
      }
      assert npcs[..|npcs|] == npcs;
      assert npcPositions[..|npcPositions|] == npcPositions;
    }

    /** `add_first_desk_row`: desks 2 to 5, each in a slot with no NPC and no interaction. */
    method AddFirstDeskRow()
      requires Valid()
      modifies this
      ensures Valid()
      ensures physicsComponents == old(physicsComponents) + DeskRow()
      ensures npcsComponents == old(npcsComponents) + [None, None, None, None]
      ensures npcsInteractions == old(npcsInteractions) + [None, None, None, None]
      ensures playerPhysics == old(playerPhysics) && currentInteraction == old(currentInteraction)
      ensures currentFocus == old(currentFocus) && camera == old(camera)
      ensures worldSize == old(worldSize) && frames == old(frames)
    {
      for n := 2 to 6
        invariant Valid()
        invariant physicsComponents == old(physicsComponents) + DeskRowUpTo(n)
        invariant npcsComponents == old(npcsComponents) + Vacant(n - 2)
        invariant npcsInteractions == old(npcsInteractions) + Vacant(n - 2)
        invariant playerPhysics == old(playerPhysics) && currentInteraction == old(currentInteraction)
        invariant currentFocus == old(currentFocus) && camera == old(camera)
        invariant worldSize == old(worldSize) && frames == old(frames)
      {
        var objectPhysics := Some(DeskPhysics(n));
        AddEntity(objectPhysics, None, None);
      }
      assert Vacant<Npc>(4) == [None, None, None, None];
      assert Vacant<Dialog.Interaction>(4) == [None, None, None, None];
    }

    /**
     * `add_entity`: one slot appended to each of the three collections, so
     * the new entity's index is the old length.
     */
    method AddEntity(physics: Option<Physics>, npc: Option<Npc>, interaction: Option<Dialog.Interaction>)
      requires Valid()
      modifies this
      ensures Valid()
      ensures physicsComponents == old(physicsComponents) + [physics]
      ensures npcsComponents == old(npcsComponents) + [npc]
      ensures npcsInteractions == old(npcsInteractions) + [interaction]
      ensures playerPhysics == old(playerPhysics) && currentInteraction == old(currentInteraction)
      ensures currentFocus == old(currentFocus) && camera == old(camera)
      ensures worldSize == old(worldSize) && frames == old(frames)
    {
      physicsComponents := physicsComponents + [physics];
      npcsComponents := npcsComponents + [npc];
      npcsInteractions := npcsInteractions + [interaction];
    }

    /**
     * `update`: while a conversation is active nothing moves; otherwise the
     * resolver moves the player and sets the focus for the held movement
     * keys, and then the camera follows the moved player. `isKeyPressed`
     * and `dt` stand for the framework's keyboard query and frame time.
     */
    method Update(isKeyPressed: KeyCode -> bool, dt: real)
      requires Valid()
      modifies this
      ensures Valid()
      ensures old(currentInteraction).Some? ==>
        playerPhysics == old(playerPhysics) && currentFocus == old(currentFocus) && camera == old(camera)
      ensures old(currentInteraction).None? ==>
        var r := PlayerPhysicsAfter(PressedAmong(MovementKeys, isKeyPressed),
                                    Resolved(old(playerPhysics), old(currentFocus), old(camera)),
                                    physicsComponents, worldSize, dt);
        playerPhysics == r.player && currentFocus == r.focus
        && camera == MaybeScrolled(old(camera), r.player, worldSize, dt)
      ensures old(PlayerClear()) ==> PlayerClear()
      ensures old(DialogsReady()) ==> DialogsReady()
      ensures physicsComponents == old(physicsComponents) && npcsComponents == old(npcsComponents)
      ensures npcsInteractions == old(npcsInteractions) && currentInteraction == old(currentInteraction)
      ensures worldSize == old(worldSize) && frames == old(frames)
    {
      var playerMovActions := PlayerMovements(isKeyPressed);
      match currentInteraction {
        case Some(_) =>
        case None =>
          PlayerPhysicsAfterKeepsSettled(playerMovActions, Resolved(playerPhysics, currentFocus, camera),
                                         physicsComponents, worldSize, dt);
          var newPlayer, newFocus, _ := UpdatePlayerPhysics(playerMovActions, playerPhysics, currentFocus,
                                                            camera, physicsComponents, worldSize, dt);
          playerPhysics := newPlayer;
          currentFocus := newFocus;
          camera := camera.MaybeUpdate(playerPhysics, worldSize, dt);
      }
    }

    /**
     * `key_down_event`: the active conversation becomes what the key makes
     * of it. When the source would panic the result says so and nothing
     * changes here.
     */
    method KeyDownEvent(key: KeyCode) returns (panicked: bool)
      requires Valid()
      modifies this
      ensures Valid()
      ensures var o := KeyDownEventInteraction(old(currentInteraction), currentFocus, npcsComponents,
                                               npcsInteractions, key);
        (panicked <==> o.Panic?) && (o.Next? ==> currentInteraction == o.interaction)
      ensures panicked ==> currentInteraction == old(currentInteraction)
      ensures old(DialogsReady()) ==> !panicked && DialogsReady()
      ensures physicsComponents == old(physicsComponents) && npcsComponents == old(npcsComponents)
      ensures npcsInteractions == old(npcsInteractions) && playerPhysics == old(playerPhysics)
      ensures currentFocus == old(currentFocus) && camera == old(camera)
      ensures worldSize == old(worldSize) && frames == old(frames)
    {
      if DialogsReady() {
        KeyDownKeepsWellFormed(currentInteraction, currentFocus, npcsComponents, npcsInteractions, key);
      }
      var outcome := KeyDownEventInteraction(currentInteraction, currentFocus, npcsComponents,
                                             npcsInteractions, key);
      match outcome {
        case Panic => panicked := true;
        case Next(interaction) =>
          panicked := false;
          currentInteraction := interaction;
      }
    }

    /** The frame counter part of `draw`: one more frame; the drawing itself is not part of this model. */
    method Draw()
      modifies this
      ensures frames == old(frames) + 1
      ensures physicsComponents == old(physicsComponents) && npcsComponents == old(npcsComponents)
      ensures npcsInteractions == old(npcsInteractions) && playerPhysics == old(playerPhysics)
      ensures currentInteraction == old(currentInteraction) && currentFocus == old(currentFocus)
      ensures camera == old(camera) && worldSize == old(worldSize)
    {
      frames := frames + 1;
    }
  }

  /** A fresh game state gives no NPC a conversation, and Return starts the focused NPC's stored one. */
  lemma ReturnOnFocusedNpcStartsItsDialog(
    npcs: seq<NpcRecord>, npcPositions: seq<(int, int)>, i: nat)
    requires |npcPositions| == |npcs| && AllNpcPositions(npcPositions) && i < |npcs|
    ensures KeyDownEventInteraction(None, Some(i), NpcSlots(npcs) + [None, None, None, None],
                                    NpcInteractions(npcs) + [None, None, None, None], Return)
         == Next(npcs[i].mainInteraction)
    ensures KeyDownEventInteraction(None, Some(|npcs|), NpcSlots(npcs) + [None, None, None, None],
                                    NpcInteractions(npcs) + [None, None, None, None], Return)
         == Next(None)
  {
    var slots := NpcSlots(npcs) + [None, None, None, None];
    var dialogs := NpcInteractions(npcs) + [None, None, None, None];
    assert slots[i] == NpcSlots(npcs)[i] && dialogs[i] == npcs[i].mainInteraction;
    assert BeginInteraction(Some(i), slots, dialogs) == Next(npcs[i].mainInteraction);
    assert slots[|npcs|] == None;
    assert BeginInteraction(Some(|npcs|), slots, dialogs) == Next(None);
  }
}
