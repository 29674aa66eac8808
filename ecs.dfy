/**
 * The middle snapshot's entity store: physics and NPC components under one
 * index, the player's physics, the active conversation and the focus.
 */
module EcsStore {
  import opened Wrappers
  import opened Keyboard
  import opened Physics
  import opened Components
  import opened InputSystem
  import opened Loading

  /** The roster this snapshot hard-codes. */
  const WyeworkersNames: seq<string> := ["Juan", "Andrés", "Nico", "Mauri"]

  /** `get_wyeworkers_npcs`: the four names, pushed in order. */
  method GetWyeworkersNpcs() returns (wyeworkers: seq<string>)
    ensures wyeworkers == WyeworkersNames
    ensures |wyeworkers| == 4 && wyeworkers[0] == "Juan" && wyeworkers[3] == "Mauri"
    ensures forall a, b :: 0 <= a < b < |wyeworkers| ==> wyeworkers[a] != wyeworkers[b]
  {
    wyeworkers := [];
    wyeworkers := wyeworkers + ["Juan"];
    wyeworkers := wyeworkers + ["Andrés"];
    wyeworkers := wyeworkers + ["Nico"];
    wyeworkers := wyeworkers + ["Mauri"];
  }

  /** The physics slots for a run of bodies: each body in its own slot. */
  function Bodies(physics: seq<Physics>): (r: seq<Option<Physics>>)
    ensures |r| == |physics| && forall k :: 0 <= k < |r| ==> r[k] == Some(physics[k])
    decreases |physics|
  {
    if physics == [] then [] else Bodies(physics[..|physics| - 1]) + [Some(physics[|physics| - 1])]
  }

  /** The NPC slots for a run of names: an NPC with that name and no roster id. */
  function NamedNpcs(names: seq<string>): (r: seq<Option<Npc>>)
    ensures |r| == |names| && forall k :: 0 <= k < |r| ==> r[k] == Some(Npc(None, names[k]))
    decreases |names|
  {
    if names == [] then [] else NamedNpcs(names[..|names| - 1]) + [Some(Npc(None, names[|names| - 1]))]
  }

  /**
   * The movement resolver this snapshot calls: from the held keys, the
   * player, the focus and the bodies to the new player and focus.
   */
  type Resolver = (seq<KeyCode>, Physics, Option<EntityIndex>, seq<Option<Physics>>) -> (Physics, Option<EntityIndex>)

  class Ecs {
    var physicsComponents: seq<Option<Physics>>
    var npcsComponents: seq<Option<Npc>>
    var playerPhysics: Physics
    var currentInteraction: Option<Engagement>
    var currentFocus: Option<EntityIndex>

    /** The two collections stay the same length. */
    predicate Valid()
      reads this
    {
      |physicsComponents| == |npcsComponents|
    }

    /** `Ecs::new`: empty collections, no conversation, no focus; the player's body is given. */
    constructor (playerPhysics: Physics)
      ensures Valid()
      ensures physicsComponents == [] && npcsComponents == []
      ensures this.playerPhysics == playerPhysics
      ensures currentInteraction == None && currentFocus == None
    {
      physicsComponents := [];
      npcsComponents := [];
      this.playerPhysics := playerPhysics;
      currentInteraction := None;
      currentFocus := None;
    }

    /** `load_initial_components`: the four NPCs, then the first desk row. One generated body per NPC is given. */
    method LoadInitialComponents(npcPhysics: seq<Physics>)
      requires Valid() && |npcPhysics| == |WyeworkersNames|
      modifies this
      ensures Valid()
      ensures physicsComponents == old(physicsComponents) + Bodies(npcPhysics) + DeskRow()
      ensures npcsComponents == old(npcsComponents) + NamedNpcs(WyeworkersNames) + Vacant(4)
      ensures playerPhysics == old(playerPhysics)
      ensures currentInteraction == old(currentInteraction) && currentFocus == old(currentFocus)
    {
      AddNpcs(npcPhysics);
      AddInnanimateObjects();
    }

    /** `add_npcs`: one slot per roster name, with its generated body. */
    method AddNpcs(npcPhysics: seq<Physics>)
      requires Valid() && |npcPhysics| == |WyeworkersNames|
      modifies this
      ensures Valid()
      ensures physicsComponents == old(physicsComponents) + Bodies(npcPhysics)
      ensures npcsComponents == old(npcsComponents) + NamedNpcs(WyeworkersNames)
      ensures playerPhysics == old(playerPhysics)
      ensures currentInteraction == old(currentInteraction) && currentFocus == old(currentFocus)
    {
      var npcs := GetWyeworkersNpcs();
      for i := 0 to |npcs|
        invariant Valid()
        invariant physicsComponents == old(physicsComponents) + Bodies(npcPhysics[..i])
        invariant npcsComponents == old(npcsComponents) + NamedNpcs(npcs[..i])
        invariant playerPhysics == old(playerPhysics)
        invariant currentInteraction == old(currentInteraction) && currentFocus == old(currentFocus)
      {
        assert npcs[..i + 1][..i] == npcs[..i];
        assert npcPhysics[..i + 1][..i] == npcPhysics[..i];
        AddEntity(Some(npcPhysics[i]), Some(Npc(None, npcs[i])));
      }
      assert npcs[..|npcs|] == npcs;
      assert npcPhysics[..|npcPhysics|] == npcPhysics;
    }

    /** `add_innanimate_objects`: the first desk row. */
    method AddInnanimateObjects()
      requires Valid()
      modifies this
      ensures Valid()
      ensures physicsComponents == old(physicsComponents) + DeskRow()
      ensures npcsComponents == old(npcsComponents) + Vacant(4)
      ensures playerPhysics == old(playerPhysics)
      ensures currentInteraction == old(currentInteraction) && currentFocus == old(currentFocus)
    {
      AddFirstDeskRow();
    }

    /** `add_first_desk_row`: desks 2 to 5, in slots without an NPC. */
    method AddFirstDeskRow()
      requires Valid()
      modifies this
      ensures Valid()
      ensures physicsComponents == old(physicsComponents) + DeskRow()
      ensures npcsComponents == old(npcsComponents) + Vacant(4)
      ensures playerPhysics == old(playerPhysics)
      ensures currentInteraction == old(currentInteraction) && currentFocus == old(currentFocus)
    {
      for n := 2 to 6
        invariant Valid()
        invariant physicsComponents == old(physicsComponents) + DeskRowUpTo(n)
        invariant npcsComponents == old(npcsComponents) + Vacant(n - 2)
        invariant playerPhysics == old(playerPhysics)
        invariant currentInteraction == old(currentInteraction) && currentFocus == old(currentFocus)
      {
        var objectPhysics := Some(DeskPhysics(n));
        AddEntity(objectPhysics, None);
      }
    }

    /** `add_entity`: one slot appended to each collection. */
    method AddEntity(physics: Option<Physics>, npc: Option<Npc>)
      requires Valid()
      modifies this
      ensures Valid()
      ensures physicsComponents == old(physicsComponents) + [physics]
      ensures npcsComponents == old(npcsComponents) + [npc]
      ensures playerPhysics == old(playerPhysics)
      ensures currentInteraction == old(currentInteraction) && currentFocus == old(currentFocus)
    {
      physicsComponents := physicsComponents + [physics];
      npcsComponents := npcsComponents + [npc];
    }

    /**
     * `update`: while a conversation is active nothing moves; otherwise the
     * resolver gets the held movement keys. The resolver this snapshot
     * calls is not part of this model and is a parameter.
     */
    method Update(isKeyPressed: KeyCode -> bool, resolve: Resolver)
      requires Valid()
      modifies this
      ensures Valid()
      ensures old(currentInteraction).Some? ==>
        playerPhysics == old(playerPhysics) && currentFocus == old(currentFocus)
      ensures old(currentInteraction).None? ==>
        (playerPhysics, currentFocus)
        == resolve(PressedAmong(MovementKeys, isKeyPressed), old(playerPhysics), old(currentFocus), physicsComponents)
      ensures physicsComponents == old(physicsComponents) && npcsComponents == old(npcsComponents)
      ensures currentInteraction == old(currentInteraction)
    {
      match currentInteraction {
        case Some(_) =>
        case None =>
          var playerMovActions := PlayerMovements(isKeyPressed);
          var resolved := resolve(playerMovActions, playerPhysics, currentFocus, physicsComponents);
          playerPhysics := resolved.0;
          currentFocus := resolved.1;
      }
    }

    /**
     * `begin_interaction`: a conversation with the focused entity starts
     * when the focused slot exists and holds an NPC; a focus past the end is
     * looked up with `get` and does nothing.
     */
    method BeginInteraction()
      requires Valid()
      modifies this
      ensures Valid()
      ensures (currentFocus.Some? && currentFocus.value < |npcsComponents| && npcsComponents[currentFocus.value].Some?)
        ==> currentInteraction == Some(Engagement(currentFocus.value))
      ensures !(currentFocus.Some? && currentFocus.value < |npcsComponents| && npcsComponents[currentFocus.value].Some?)
        ==> currentInteraction == old(currentInteraction)
      ensures physicsComponents == old(physicsComponents) && npcsComponents == old(npcsComponents)
      ensures playerPhysics == old(playerPhysics) && currentFocus == old(currentFocus)
    {
      match currentFocus {
        case Some(focusedEntityId) =>
          var someNpc := if focusedEntityId < |npcsComponents| then Some(npcsComponents[focusedEntityId]) else None;
          match someNpc {
            case Some(npc) =>
              match npc {
                case Some(_) => currentInteraction := Some(Engagement(focusedEntityId));
                case None =>
              }
            case None =>
          }
        case None =>
      }
    }

    /** `end_interaction`: no conversation and no focus. */
    method EndInteraction()
      requires Valid()
      modifies this
      ensures Valid()
      ensures currentInteraction == None && currentFocus == None
      ensures physicsComponents == old(physicsComponents) && npcsComponents == old(npcsComponents)
      ensures playerPhysics == old(playerPhysics)
    {
      currentInteraction := None;
      currentFocus := None;
    }
  }

  /**
   * A freshly loaded store: slots 0 to 3 are the named NPCs with their
   * bodies, slots 4 to 7 the desks, with no NPC.
   */
  lemma LoadedLayout(npcPhysics: seq<Physics>)
    requires |npcPhysics| == |WyeworkersNames|
    ensures var physics := Bodies(npcPhysics) + DeskRow();
      var npcs := NamedNpcs(WyeworkersNames) + Vacant<Npc>(4);
      && |physics| == |npcs| == 8
      && (forall k :: 0 <= k < 4 ==> physics[k] == Some(npcPhysics[k]) && npcs[k] == Some(Npc(None, WyeworkersNames[k])))
      && (forall k :: 4 <= k < 8 ==> physics[k] == Some(DeskPhysics(k - 2)) && npcs[k] == None)
  {
    var physics := Bodies(npcPhysics) + DeskRow();
    var npcs := NamedNpcs(WyeworkersNames) + Vacant<Npc>(4);
    forall k | 4 <= k < 8 ensures physics[k] == Some(DeskPhysics(k - 2)) && npcs[k] == None {
      assert physics[k] == DeskRow()[k - 4];
      assert npcs[k] == Vacant<Npc>(4)[k - 4];
    }
  }
}
