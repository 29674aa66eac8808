/**
 * The physics system: the starting bodies of the player and the NPCs, and
 * the movement resolver that moves the player one held key at a time,
 * scrolls the camera and refuses any step that would overlap a body.
 */
module PhysicsSystem {
  import opened Wrappers
  import opened Keyboard
  import opened Constants
  import opened Positioning
  import opened Physics
  import opened Collision
  import opened CameraSystem

  /** `initial_player_physics`: the player starts in the middle of the world, facing down, standing. */
  function InitialPlayerPhysics(): (p: Physics)
    ensures p.position == Position(INITIAL_PLAYER_X, INITIAL_PLAYER_Y)
    ensures p.size == Size(HUMANOID_W, HUMANOID_H) && p.speed == INITIAL_PLAYER_SPEED
    ensures p.direction == Some(Direction.Down) && !p.walking
  {
    Physics(Position(INITIAL_PLAYER_X, INITIAL_PLAYER_Y), Size(HUMANOID_W, HUMANOID_H),
            INITIAL_PLAYER_SPEED, Some(Direction.Down), false)
  }

  /**
   * `generate_npc_physics`: a standing humanoid at a random whole-number
   * position; the random generator's two draws are the parameters.
   */
  function GenerateNpcPhysics(x: int, y: int): (p: Physics)
    requires 300 <= x < 900 && 200 <= y < 700
    ensures p.position == Position(x as real, y as real)
    ensures p.size == Size(HUMANOID_W, HUMANOID_H) && p.speed == 0.0
    ensures p.direction == None && !p.walking
  {
    Physics(Position(x as real, y as real), Size(HUMANOID_W, HUMANOID_H), 0.0, None, false)
  }

  /** The initial world: the rectangle the player and the camera start in. */
  const InitialWorld := Size(INTIAL_WORLD_W, INTIAL_WORLD_H)

  /** The player starts inside the initial world, and it does not collide with any NPC, wherever that is drawn. */
  lemma InitialPlayerPlacement(x: int, y: int)
    requires 300 <= x < 900 && 200 <= y < 700
    ensures InsideArea(InitialPlayerPhysics().position, InitialPlayerPhysics().size, WorldCorner(InitialWorld))
    ensures !ObjectsCollide(InitialPlayerPhysics(), GenerateNpcPhysics(x, y))
  {
  }

  /** A slot of `physics_components` that holds a body the candidate overlaps. */
  predicate Hits(candidate: Physics, slot: Option<Physics>) {
    slot.Some? && ObjectsCollide(candidate, slot.value)
  }

  /**
   * The focus the collision scan leaves: the scan visits every slot and
   * overwrites the focus on each hit, so the last slot hit wins.
   */
  function LastCollision(candidate: Physics, bodies: seq<Option<Physics>>): (r: Option<nat>)
    ensures r.Some? ==> r.value < |bodies| && Hits(candidate, bodies[r.value])
    ensures r.Some? ==> forall j :: r.value < j < |bodies| ==> !Hits(candidate, bodies[j])
    ensures r.None? <==> forall j :: 0 <= j < |bodies| ==> !Hits(candidate, bodies[j])
    decreases |bodies|
  {
    if bodies == [] then None
    else if Hits(candidate, bodies[|bodies| - 1]) then Some(|bodies| - 1)
    else LastCollision(candidate, bodies[..|bodies| - 1])
  }

  /**
   * The scan over `physics_components`: whether the candidate overlaps any
   * body, and the focus afterwards (the last body hit, else unchanged).
   */
  method ScanCollisions(candidate: Physics, bodies: seq<Option<Physics>>, focus: Option<nat>)
    returns (playerCollides: bool, newFocus: Option<nat>)
    ensures playerCollides <==> LastCollision(candidate, bodies).Some?
    ensures newFocus == if playerCollides then LastCollision(candidate, bodies) else focus
  {
    playerCollides := false;
    newFocus := focus;
    for index := 0 to |bodies|
      invariant playerCollides <==> LastCollision(candidate, bodies[..index]).Some?
      invariant newFocus == if playerCollides then LastCollision(candidate, bodies[..index]) else focus
    {
      assert bodies[..index + 1][..index] == bodies[..index];
      match bodies[index] {
        case Some(physics) =>
          if ObjectsCollide(candidate, physics) {
            playerCollides := true;
            newFocus := Some(index);
          }
        case None =>
      }
    }
    assert bodies[..|bodies|] == bodies;
  }

  /** The direction the player faces after a step: the last held key's, else the current one. */
  function DirectionAfter(lastMovKey: KeyCode, current: Option<Direction>): (d: Option<Direction>)
    ensures IsArrow(lastMovKey) ==> d == KeyDirection(lastMovKey)
    ensures !IsArrow(lastMovKey) ==> d == current
  {
    match KeyDirection(lastMovKey)
    case Some(direction) => Some(direction)
    case None => current
  }

  /** What the resolver carries from one key to the next. */
  datatype Resolved = Resolved(player: Physics, focus: Option<nat>, camera: Camera)

  /** The camera rule of one step: scroll when the candidate nears the key's edge and the world allows it. */
  function StepCamera(camera: Camera, candidate: Physics, key: KeyCode, worldSize: Size, dt: real): Camera {
    if camera.IsPlayerApproachingCameraEdgeForKey(candidate.position, key)
       && camera.IsWithinWorldBoundsForKey(worldSize, key)
    then ScrolledForKey(camera, key, dt)
    else camera
  }

  /**
   * One iteration of the key loop. The candidate is the player moved by
   * `key`; the camera is decided on the candidate before any collision is
   * known; a candidate that hits a body is dropped and the focus moves to
   * that body, otherwise the focus is cleared and the candidate, turned
   * toward the last held key, becomes the player.
   */
  function KeyStep(s: Resolved, key: KeyCode, lastMovKey: KeyCode,
                   bodies: seq<Option<Physics>>, worldSize: Size, dt: real): (t: Resolved)
    ensures t.camera == StepCamera(s.camera, Moved(s.player, key, dt, worldSize), key, worldSize, dt)
    ensures t.focus == LastCollision(Moved(s.player, key, dt, worldSize), bodies)
    ensures t.focus.Some? ==> t.player == s.player
    ensures t.focus.None? ==>
      t.player == Moved(s.player, key, dt, worldSize).(direction := DirectionAfter(lastMovKey, s.player.direction))
  {
    var candidate := Moved(s.player, key, dt, worldSize);
    var camera := StepCamera(s.camera, candidate, key, worldSize, dt);
    var hit := LastCollision(candidate, bodies);
    var candidate := candidate.(direction := DirectionAfter(lastMovKey, s.player.direction));
    if hit.None? then Resolved(candidate, None, camera) else Resolved(s.player, hit, camera)
  }

  /** The key loop over `keys`, all of them seeing the same last held key. */
  function Resolve(s: Resolved, keys: seq<KeyCode>, lastMovKey: KeyCode,
                   bodies: seq<Option<Physics>>, worldSize: Size, dt: real): Resolved
    decreases |keys|
  {
    if keys == [] then s
    else KeyStep(Resolve(s, keys[..|keys| - 1], lastMovKey, bodies, worldSize, dt),
                 keys[|keys| - 1], lastMovKey, bodies, worldSize, dt)
  }

  /** What `update_player_physics` leaves: the stop rule for no key, the key loop otherwise. */
  function PlayerPhysicsAfter(playerMovActions: seq<KeyCode>, s: Resolved,
                              bodies: seq<Option<Physics>>, worldSize: Size, dt: real): Resolved
  {
    if playerMovActions == [] then s.(player := s.player.(walking := false))
    else Resolve(s, playerMovActions, playerMovActions[|playerMovActions| - 1], bodies, worldSize, dt)
  }

  /**
   * `update_player_physics` of the current snapshot: with no key held the
   * player only stops walking; otherwise the key loop runs over every held
   * key in order.
   */
  method UpdatePlayerPhysics(playerMovActions: seq<KeyCode>, playerPhysics: Physics, currentFocus: Option<nat>,
                             camera: Camera, physicsComponents: seq<Option<Physics>>, worldSize: Size, dt: real)
    returns (newPlayer: Physics, newFocus: Option<nat>, newCamera: Camera)
    ensures Resolved(newPlayer, newFocus, newCamera)
      == PlayerPhysicsAfter(playerMovActions, Resolved(playerPhysics, currentFocus, camera),
                            physicsComponents, worldSize, dt)
  {
    newPlayer, newFocus, newCamera := playerPhysics, currentFocus, camera;
    if |playerMovActions| == 0 {
      newPlayer := newPlayer.(walking := false);
      return;
    }
    ghost var start := Resolved(playerPhysics, currentFocus, camera);
    var lastMovKey := playerMovActions[|playerMovActions| - 1];
    for i := 0 to |playerMovActions|
      invariant Resolved(newPlayer, newFocus, newCamera)
        == Resolve(start, playerMovActions[..i], lastMovKey, physicsComponents, worldSize, dt)
    {
      var key := playerMovActions[i];
      var newPotentialPlayerPhysics := newPlayer.UpdatePosition(key, dt, worldSize);
      var shouldUpdateCamera := newCamera.IsPlayerApproachingCameraEdgeForKey(newPotentialPlayerPhysics.position, key)
        && newCamera.IsWithinWorldBoundsForKey(worldSize, key);
      if shouldUpdateCamera {
        newCamera := newCamera.UpdatePositionForKey(key, dt);
      }
      var playerCollides;
      playerCollides, newFocus := ScanCollisions(newPotentialPlayerPhysics, physicsComponents, newFocus);
      newPotentialPlayerPhysics := newPotentialPlayerPhysics.(direction := DirectionAfter(lastMovKey, newPlayer.direction));
      if !playerCollides {
        newFocus := None;
        newPlayer := newPotentialPlayerPhysics;
      }
      assert playerMovActions[..i + 1][..i] == playerMovActions[..i];
    }
    assert playerMovActions[..|playerMovActions|] == playerMovActions;
  }

  /** No slot of `bodies` holding a body overlaps `p`. */
  predicate ClearOf(p: Physics, bodies: seq<Option<Physics>>) {
    forall j :: 0 <= j < |bodies| ==> !Hits(p, bodies[j])
  }

  /** A player clear of every body stays clear: the resolver never moves it into an overlap. */
  lemma {:induction false} ResolveKeepsPlayerClear(s: Resolved, keys: seq<KeyCode>, lastMovKey: KeyCode,
                                                   bodies: seq<Option<Physics>>, worldSize: Size, dt: real)
    requires ClearOf(s.player, bodies)
    ensures ClearOf(Resolve(s, keys, lastMovKey, bodies, worldSize, dt).player, bodies)
    decreases |keys|
  {
    if keys != [] {
      var mid := Resolve(s, keys[..|keys| - 1], lastMovKey, bodies, worldSize, dt);
      ResolveKeepsPlayerClear(s, keys[..|keys| - 1], lastMovKey, bodies, worldSize, dt);
      var t := KeyStep(mid, keys[|keys| - 1], lastMovKey, bodies, worldSize, dt);
      if t.focus.None? {
        var candidate := Moved(mid.player, keys[|keys| - 1], dt, worldSize);
        forall j | 0 <= j < |bodies| ensures !Hits(t.player, bodies[j]) {
          assert !Hits(candidate, bodies[j]);
        }
      }
    }
  }

  /** A player that fits in the world and starts inside it stays inside it. */
  lemma {:induction false} ResolveKeepsPlayerInWorld(s: Resolved, keys: seq<KeyCode>, lastMovKey: KeyCode,
                                                     bodies: seq<Option<Physics>>, worldSize: Size, dt: real)
    requires Fits(s.player.size, WorldCorner(worldSize))
    requires InsideArea(s.player.position, s.player.size, WorldCorner(worldSize))
    ensures var r := Resolve(s, keys, lastMovKey, bodies, worldSize, dt);
      r.player.size == s.player.size && r.player.speed == s.player.speed
      && InsideArea(r.player.position, r.player.size, WorldCorner(worldSize))
    decreases |keys|
  {
    if keys != [] {
      var mid := Resolve(s, keys[..|keys| - 1], lastMovKey, bodies, worldSize, dt);
      ResolveKeepsPlayerInWorld(s, keys[..|keys| - 1], lastMovKey, bodies, worldSize, dt);
      MovedStaysInWorld(mid.player, keys[|keys| - 1], dt, worldSize);
    }
  }

  /**
   * After at least one key, the focus is either cleared (the last step was
   * free) or names a slot holding a body the last candidate overlapped —
   * never an empty slot, never past the end.
   */
  lemma ResolveFocusNamesABody(s: Resolved, keys: seq<KeyCode>, lastMovKey: KeyCode,
                               bodies: seq<Option<Physics>>, worldSize: Size, dt: real)
    requires keys != []
    ensures var r := Resolve(s, keys, lastMovKey, bodies, worldSize, dt);
      r.focus.Some? ==> r.focus.value < |bodies| && bodies[r.focus.value].Some?
  {
    var mid := Resolve(s, keys[..|keys| - 1], lastMovKey, bodies, worldSize, dt);
    var t := KeyStep(mid, keys[|keys| - 1], lastMovKey, bodies, worldSize, dt);
    assert Resolve(s, keys, lastMovKey, bodies, worldSize, dt) == t;
  }

  /**
   * The player's facing after the loop: the one it had, or the last held
   * key's when that key is an arrow; keys other than arrows never turn it.
   */
  lemma {:induction false} ResolveDirection(s: Resolved, keys: seq<KeyCode>, lastMovKey: KeyCode,
                                            bodies: seq<Option<Physics>>, worldSize: Size, dt: real)
    ensures var d := Resolve(s, keys, lastMovKey, bodies, worldSize, dt).player.direction;
      d == s.player.direction || (IsArrow(lastMovKey) && d == KeyDirection(lastMovKey))
    decreases |keys|
  {
    if keys != [] {
      ResolveDirection(s, keys[..|keys| - 1], lastMovKey, bodies, worldSize, dt);
    }
  }

  /** The camera moves the same whether or not the step is refused: the scroll is decided before the scan. */
  lemma CameraIgnoresCollisions(s: Resolved, key: KeyCode, lastMovKey: KeyCode,
                                bodies: seq<Option<Physics>>, worldSize: Size, dt: real)
    ensures KeyStep(s, key, lastMovKey, bodies, worldSize, dt).camera
         == KeyStep(s, key, lastMovKey, [], worldSize, dt).camera
  {
  }

  /** A refused step: the player stays where it was, and the focus is on the body it ran into. */
  lemma RefusedStepKeepsPlayer(s: Resolved, key: KeyCode, lastMovKey: KeyCode,
                               bodies: seq<Option<Physics>>, worldSize: Size, dt: real, j: nat)
    requires j < |bodies| && Hits(Moved(s.player, key, dt, worldSize), bodies[j])
    ensures var t := KeyStep(s, key, lastMovKey, bodies, worldSize, dt);
      t.player == s.player && t.focus.Some? && j <= t.focus.value < |bodies|
  {
  }

  /** The camera's viewport and speed never change during the loop; only its centre scrolls. */
  lemma {:induction false} ResolveKeepsCameraShape(s: Resolved, keys: seq<KeyCode>, lastMovKey: KeyCode,
                                                   bodies: seq<Option<Physics>>, worldSize: Size, dt: real)
    ensures var c := Resolve(s, keys, lastMovKey, bodies, worldSize, dt).camera;
      c.size == s.camera.size && c.speed == s.camera.speed
    decreases |keys|
  {
    if keys != [] {
      ResolveKeepsCameraShape(s, keys[..|keys| - 1], lastMovKey, bodies, worldSize, dt);
    }
  }

  /**
   * What the rest of the game relies on: the player fits in and stays inside
   * the world and faces some direction, and the focus, if any, names a slot
   * holding a body.
   */
  predicate PlayerSettled(s: Resolved, bodies: seq<Option<Physics>>, worldSize: Size) {
    && Fits(s.player.size, WorldCorner(worldSize))
    && InsideArea(s.player.position, s.player.size, WorldCorner(worldSize))
    && s.player.direction.Some?
    && (s.focus.Some? ==> s.focus.value < |bodies| && bodies[s.focus.value].Some?)
  }

  /**
   * One frame of the resolver keeps the player settled and clear of the
   * bodies it was clear of, and keeps the camera's viewport and speed.
   */
  lemma PlayerPhysicsAfterKeepsSettled(playerMovActions: seq<KeyCode>, s: Resolved,
                                       bodies: seq<Option<Physics>>, worldSize: Size, dt: real)
    requires PlayerSettled(s, bodies, worldSize)
    ensures PlayerSettled(PlayerPhysicsAfter(playerMovActions, s, bodies, worldSize, dt), bodies, worldSize)
    ensures ClearOf(s.player, bodies) ==>
      ClearOf(PlayerPhysicsAfter(playerMovActions, s, bodies, worldSize, dt).player, bodies)
    ensures var c := PlayerPhysicsAfter(playerMovActions, s, bodies, worldSize, dt).camera;
      c.size == s.camera.size && c.speed == s.camera.speed
  {
    if playerMovActions != [] {
      var lastMovKey := playerMovActions[|playerMovActions| - 1];
      if ClearOf(s.player, bodies) {
        ResolveKeepsPlayerClear(s, playerMovActions, lastMovKey, bodies, worldSize, dt);
      }
      ResolveKeepsPlayerInWorld(s, playerMovActions, lastMovKey, bodies, worldSize, dt);
      ResolveFocusNamesABody(s, playerMovActions, lastMovKey, bodies, worldSize, dt);
      ResolveDirection(s, playerMovActions, lastMovKey, bodies, worldSize, dt);
      ResolveKeepsCameraShape(s, playerMovActions, lastMovKey, bodies, worldSize, dt);
    } else if ClearOf(s.player, bodies) {
      var t := PlayerPhysicsAfter(playerMovActions, s, bodies, worldSize, dt);
      forall j | 0 <= j < |bodies| ensures !Hits(t.player, bodies[j]) {
        assert !Hits(s.player, bodies[j]);
      }
    }
  }
}
