/**
 * The oldest snapshot's entity store: player, physics and NPC components
 * under one index, and the list of indices whose slot holds a player.
 */
module WorldStore {
  import opened Wrappers
  import opened Physics
  import opened Components
  import opened Loading
  import EcsStore

  /** The roster this snapshot hard-codes, with the second name as its file spells it. */
  const WorldNames: seq<string> := ["Juan", "Andr√©s", "Nico", "Mauri"]

  /** `get_wyeworkers_npcs` of this snapshot: the four names, pushed in order. */
  method GetWyeworkersNpcs() returns (wyeworkers: seq<string>)
    ensures wyeworkers == WorldNames
    ensures |wyeworkers| == 4 && wyeworkers[0] == "Juan" && wyeworkers[3] == "Mauri"
    ensures forall a, b :: 0 <= a < b < |wyeworkers| ==> wyeworkers[a] != wyeworkers[b]
  {
    wyeworkers := [];
    wyeworkers := wyeworkers + ["Juan"];
    wyeworkers := wyeworkers + ["Andr√©s"];
    wyeworkers := wyeworkers + ["Nico"];
    wyeworkers := wyeworkers + ["Mauri"];
  }

  /** The indices of the slots that hold a player, in increasing order. */
  function PlayerIndices(slots: seq<Option<PlayerComponent>>): (r: seq<EntityIndex>)
    ensures forall i: nat :: i in r <==> i < |slots| && slots[i].Some?
    ensures forall a :: 0 <= a < |r| ==> r[a] < |slots|
    ensures forall a, b :: 0 <= a < b < |r| ==> r[a] < r[b]
  {
    PlayersBelow(slots, |slots|)
  }

  /** The indices below `n` of the slots that hold a player, in increasing order. */
  function PlayersBelow(slots: seq<Option<PlayerComponent>>, n: nat): (r: seq<EntityIndex>)
    requires n <= |slots|
    ensures forall i: nat :: i in r <==> i < n && slots[i].Some?
    ensures forall a :: 0 <= a < |r| ==> r[a] < n
    ensures forall a, b :: 0 <= a < b < |r| ==> r[a] < r[b]
    decreases n
  {
    if n == 0 then []
    else
      var init := PlayersBelow(slots, n - 1);
      if slots[n - 1].Some? then init + [n - 1] else init
  }

  /** The indices below `n` depend only on the first `n` slots. */
  lemma {:induction false} PlayersBelowPrefix(slots: seq<Option<PlayerComponent>>, more: seq<Option<PlayerComponent>>, n: nat)
    requires n <= |slots|
    ensures PlayersBelow(slots + more, n) == PlayersBelow(slots, n)
    decreases n
  {
    if n > 0 {
      PlayersBelowPrefix(slots, more, n - 1);
      assert (slots + more)[n - 1] == slots[n - 1];
    }
  }

  /** What `begin_interaction` makes of one player slot: a focused player engages its focus. */
  function Engaged(slot: Option<PlayerComponent>): (r: Option<PlayerComponent>)
    ensures slot.None? ==> r.None?
    ensures slot.Some? && slot.value.currentFocus.None? ==> r == slot
    ensures slot.Some? && slot.value.currentFocus.Some? ==>
      r == Some(slot.value.(interacting := Some(Engagement(slot.value.currentFocus.value))))
  {
    match slot
    case Some(player) =>
      (match player.currentFocus
       case Some(focusedEntityId) => Some(player.(interacting := Some(Engagement(focusedEntityId))))
       case None => slot)
    case None => slot
  }

  /** Engaging twice is engaging once. */
  lemma EngagedIdempotent(slot: Option<PlayerComponent>)
    ensures Engaged(Engaged(slot)) == Engaged(slot)
  {
  }

  class World {
    var playerComponents: seq<Option<PlayerComponent>>
    var physicsComponents: seq<Option<Physics>>
    var npcsComponents: seq<Option<Npc>>
    var players: seq<EntityIndex>

    /** The three collections stay the same length, and `players` lists exactly the player slots. */
    predicate Valid()
      reads this
    {
      && |playerComponents| == |physicsComponents| == |npcsComponents|
      && players == PlayerIndices(playerComponents)
    }

    /** `World::new`: everything empty. */
    constructor ()
      ensures Valid()
      ensures playerComponents == [] && physicsComponents == [] && npcsComponents == [] && players == []
    {
      players := [];
      physicsComponents := [];
      npcsComponents := [];
      playerComponents := [];
    }

    /**
     * `load_initial_components`: the player, the four NPCs, then the first
     * desk row. The bodies the physics generator makes are given.
     */
    method LoadInitialComponents(playerPhysics: Physics, npcPhysics: seq<Physics>)
      requires Valid() && |npcPhysics| == |WorldNames|
      modifies this
      ensures Valid()
      ensures playerComponents == old(playerComponents) + [Some(PlayerComponent(None, None))] + Vacant(4) + Vacant(4)
      ensures physicsComponents == old(physicsComponents) + [Some(playerPhysics)] + EcsStore.Bodies(npcPhysics) + DeskRow()
      ensures npcsComponents == old(npcsComponents) + [None] + EcsStore.NamedNpcs(WorldNames) + Vacant(4)
      ensures players == old(players) + [|old(playerComponents)|]
    {
      AddPlayer(playerPhysics);
      AddNpcs(npcPhysics);
      AddInnanimateObjects();
      PlayerIndicesOfVacant(old(playerComponents) + [Some(PlayerComponent(None, None))], 8);
      assert Vacant<PlayerComponent>(4) + Vacant(4) == Vacant(8);
    }

    /** `add_player`: a player slot with no conversation and no focus, and its body. */
    method AddPlayer(playerPhysics: Physics)
      requires Valid()
      modifies this
      ensures Valid()
      ensures playerComponents == old(playerComponents) + [Some(PlayerComponent(None, None))]
      ensures physicsComponents == old(physicsComponents) + [Some(playerPhysics)]
      ensures npcsComponents == old(npcsComponents) + [None]
      ensures players == old(players) + [|old(playerComponents)|]
    {
      var playerComponent := Some(PlayerComponent(None, None));
      AddEntity(Some(playerPhysics), playerComponent, None);
    }

    /** `add_npcs`: one slot per roster name, with its generated body and no player. */
    method AddNpcs(npcPhysics: seq<Physics>)
      requires Valid() && |npcPhysics| == |WorldNames|
      modifies this
      ensures Valid()
      ensures playerComponents == old(playerComponents) + Vacant(4)
      ensures physicsComponents == old(physicsComponents) + EcsStore.Bodies(npcPhysics)
      ensures npcsComponents == old(npcsComponents) + EcsStore.NamedNpcs(WorldNames)
      ensures players == old(players)
    {
      var npcs := GetWyeworkersNpcs();
      for i := 0 to |npcs|
        invariant Valid()
        invariant playerComponents == old(playerComponents) + Vacant(i)
        invariant physicsComponents == old(physicsComponents) + EcsStore.Bodies(npcPhysics[..i])
        invariant npcsComponents == old(npcsComponents) + EcsStore.NamedNpcs(npcs[..i])
        invariant players == old(players)
      {
        NpcSlotsStep(old(physicsComponents), old(npcsComponents), npcPhysics, npcs, i);
        VacantStep<PlayerComponent>(old(playerComponents), i);
        AddEntity(Some(npcPhysics[i]), None, Some(Npc(None, npcs[i])));
      }
      assert npcs[..|npcs|] == npcs;
      assert npcPhysics[..|npcPhysics|] == npcPhysics;
    }

    /** `add_innanimate_objects`: the first desk row. */
    method AddInnanimateObjects()
      requires Valid()
      modifies this
      ensures Valid()
      ensures playerComponents == old(playerComponents) + Vacant(4)
      ensures physicsComponents == old(physicsComponents) + DeskRow()
      ensures npcsComponents == old(npcsComponents) + Vacant(4)
      ensures players == old(players)
    {
      AddFirstDeskRow();
    }

    /** `add_first_desk_row`: desks 2 to 5, in slots with no player and no NPC. */
    method AddFirstDeskRow()
      requires Valid()
      modifies this
      ensures Valid()
      ensures playerComponents == old(playerComponents) + Vacant(4)
      ensures physicsComponents == old(physicsComponents) + DeskRow()
      ensures npcsComponents == old(npcsComponents) + Vacant(4)
      ensures players == old(players)
    {
      for n := 2 to 6
        invariant Valid()
        invariant playerComponents == old(playerComponents) + Vacant(n - 2)
        invariant physicsComponents == old(physicsComponents) + DeskRowUpTo(n)
        invariant npcsComponents == old(npcsComponents) + Vacant(n - 2)
        invariant players == old(players)
      {
        var objectPhysics := Some(DeskPhysics(n));
        AddEntity(objectPhysics, None, None);
      }
    }

    /**
     * `add_entity`: one slot appended to each collection; a player slot's
     * index (the old length) is appended to `players`.
     */
    method AddEntity(physics: Option<Physics>, player: Option<PlayerComponent>, npc: Option<Npc>)
      requires Valid()
      modifies this
      ensures Valid()
      ensures physicsComponents == old(physicsComponents) + [physics]
      ensures npcsComponents == old(npcsComponents) + [npc]
      ensures playerComponents == old(playerComponents) + [player]
      ensures players == old(players) + (if player.Some? then [|old(playerComponents)|] else [])
    {
      physicsComponents := physicsComponents + [physics];
      npcsComponents := npcsComponents + [npc];
      playerComponents := playerComponents + [player];
      match player {
        case Some(_) => players := players + [|playerComponents| - 1];
        case None =>
      }
      PlayersBelowPrefix(old(playerComponents), [player], |old(playerComponents)|);
    }

    /**
     * `begin_interaction`: every player with a focus starts a conversation
     * with the focused entity; other slots are left as they are.
     */
    method BeginInteraction()
      requires Valid()
      modifies this
      ensures Valid()
      ensures |playerComponents| == |old(playerComponents)|
      ensures forall k :: 0 <= k < |playerComponents| ==> playerComponents[k] == Engaged(old(playerComponents)[k])
      ensures physicsComponents == old(physicsComponents) && npcsComponents == old(npcsComponents)
      ensures players == old(players)
    {
      for k := 0 to |playerComponents|
        invariant |playerComponents| == |old(playerComponents)|
        invariant forall j :: 0 <= j < k ==> playerComponents[j] == Engaged(old(playerComponents)[j])
        invariant forall j :: k <= j < |playerComponents| ==> playerComponents[j] == old(playerComponents)[j]
        invariant physicsComponents == old(physicsComponents) && npcsComponents == old(npcsComponents)
        invariant players == old(players)
      {
        match playerComponents[k] {
          case Some(player) =>
            var currentFocus := player.currentFocus;
            match currentFocus {
              case Some(focusedEntityId) =>
                playerComponents := playerComponents[k := Some(player.(interacting := Some(Engagement(focusedEntityId))))];
              case None =>
            }
          case None =>
        }
      }
      EngagedKeepsPlayerIndices(old(playerComponents), playerComponents);
    }
  }

  lemma VacantStep<T>(prefix: seq<Option<T>>, i: nat)
    ensures prefix + Vacant(i) + [None] == prefix + Vacant(i + 1)
  {
  }

  /** One more NPC extends each run of slots by one. */
  lemma NpcSlotsStep(bodies: seq<Option<Physics>>, npcs: seq<Option<Npc>>,
                     npcPhysics: seq<Physics>, names: seq<string>, i: nat)
    requires i < |npcPhysics| && i < |names|
    ensures bodies + EcsStore.Bodies(npcPhysics[..i]) + [Some(npcPhysics[i])] == bodies + EcsStore.Bodies(npcPhysics[..i + 1])
    ensures npcs + EcsStore.NamedNpcs(names[..i]) + [Some(Npc(None, names[i]))] == npcs + EcsStore.NamedNpcs(names[..i + 1])
  {
    assert npcPhysics[..i + 1][..i] == npcPhysics[..i];
    assert names[..i + 1][..i] == names[..i];
  }

  /** Appending empty slots adds no player index. */
  lemma PlayerIndicesOfVacant(slots: seq<Option<PlayerComponent>>, n: nat)
    ensures PlayerIndices(slots + Vacant(n)) == PlayerIndices(slots)
  {
    VacantAddsNoPlayer(slots, n, n);
    PlayersBelowPrefix(slots, Vacant(n), |slots|);
  }

  lemma {:induction false} VacantAddsNoPlayer(slots: seq<Option<PlayerComponent>>, n: nat, k: nat)
    requires k <= n
    ensures PlayersBelow(slots + Vacant(n), |slots| + k) == PlayersBelow(slots + Vacant(n), |slots|)
    decreases k
  {
    if k > 0 {
      VacantAddsNoPlayer(slots, n, k - 1);
      assert (slots + Vacant(n))[|slots| + k - 1] == Vacant<PlayerComponent>(n)[k - 1];
    }
  }

  /** Engaging players turns no empty slot into a player and no player into an empty slot. */
  lemma EngagedKeepsPlayerIndices(before: seq<Option<PlayerComponent>>, after: seq<Option<PlayerComponent>>)
    requires |after| == |before|
    requires forall k :: 0 <= k < |after| ==> after[k] == Engaged(before[k])
    ensures PlayerIndices(after) == PlayerIndices(before)
  {
    EngagedKeepsPlayersBelow(before, after, |before|);
  }

  lemma {:induction false} EngagedKeepsPlayersBelow(before: seq<Option<PlayerComponent>>, after: seq<Option<PlayerComponent>>, n: nat)
    requires |after| == |before| && n <= |before|
    requires forall k :: 0 <= k < |after| ==> after[k] == Engaged(before[k])
    ensures PlayersBelow(after, n) == PlayersBelow(before, n)
    decreases n
  {
    if n > 0 {
      EngagedKeepsPlayersBelow(before, after, n - 1);
      assert after[n - 1].Some? <==> before[n - 1].Some?;
    }
  }

  /** A freshly loaded world: the player at slot 0, NPCs at 1 to 4, desks at 5 to 8, one player index. */
  lemma LoadedLayout(playerPhysics: Physics, npcPhysics: seq<Physics>)
    requires |npcPhysics| == |WorldNames|
    ensures var players := [Some(PlayerComponent(None, None))] + Vacant<PlayerComponent>(4) + Vacant(4);
      var physics := [Some(playerPhysics)] + EcsStore.Bodies(npcPhysics) + DeskRow();
      var npcs := [None] + EcsStore.NamedNpcs(WorldNames) + Vacant<Npc>(4);
      && |players| == |physics| == |npcs| == 9
      && players[0].Some? && physics[0] == Some(playerPhysics) && npcs[0] == None
      && (forall k :: 1 <= k < 5 ==> players[k] == None && physics[k] == Some(npcPhysics[k - 1])
                                     && npcs[k] == Some(Npc(None, WorldNames[k - 1])))
      && (forall k :: 5 <= k < 9 ==> players[k] == None && physics[k] == Some(DeskPhysics(k - 3)) && npcs[k] == None)
      && PlayerIndices(players) == [0]
  {
    var players := [Some(PlayerComponent(None, None))] + Vacant<PlayerComponent>(4) + Vacant(4);
    var physics := [Some(playerPhysics)] + EcsStore.Bodies(npcPhysics) + DeskRow();
    var npcs := [None] + EcsStore.NamedNpcs(WorldNames) + Vacant<Npc>(4);
    forall k | 1 <= k < 5
      ensures players[k] == None && physics[k] == Some(npcPhysics[k - 1]) && npcs[k] == Some(Npc(None, WorldNames[k - 1]))
    {
      assert physics[k] == EcsStore.Bodies(npcPhysics)[k - 1];
      assert npcs[k] == EcsStore.NamedNpcs(WorldNames)[k - 1];
    }
    forall k | 5 <= k < 9 ensures players[k] == None && physics[k] == Some(DeskPhysics(k - 3)) && npcs[k] == None {
      assert physics[k] == DeskRow()[k - 5];
      assert npcs[k] == Vacant<Npc>(4)[k - 5];
    }
    PlayerIndicesOfVacant([Some(PlayerComponent(None, None))], 8);
    assert Vacant<PlayerComponent>(4) + Vacant(4) == Vacant(8);
    assert [Some(PlayerComponent(None, None))] + Vacant<PlayerComponent>(4) + Vacant(4)
        == [Some(PlayerComponent(None, None))] + Vacant(8);
    assert [Some(PlayerComponent(None, None))][..0] == [];
  }
}
