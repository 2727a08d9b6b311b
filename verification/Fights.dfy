/** Fights, deaths and respawns as functions on the creature registries
    (crates/world/src/game/combat.rs), and the invariants every step keeps. */
module Fights {
  import opened World

  /** Creature ids: the three id spaces are allocated upwards from fixed bases. */
  type Id = nat

  const PLAYER_ID_BASE: Id := 0x1000_0000
  const MONSTER_ID_BASE: Id := 0x4000_0000
  const NPC_ID_BASE: Id := 0x8000_0000

  /** There is room for 3 * 2^28 players and 2^30 monsters. */
  lemma IdSpaces()
    ensures PLAYER_ID_BASE == 268435456
    ensures MONSTER_ID_BASE == PLAYER_ID_BASE + 3 * 268435456 && NPC_ID_BASE == MONSTER_ID_BASE + 4 * 268435456
  {
  }

  const MELEE_ATTACK_INTERVAL_MS: nat := 2000
  const RANGED_MAX_DISTANCE: int := 8
  const COWARD_FLEE_THRESHOLD: nat := 1

  datatype Player = Player(position: Position, health: uint32, maxHealth: uint32, attacking: Option<Id>, lastAttack: nat)

  /** What a spawn point knows of the monster it makes. */
  datatype Breed = Breed(position: Position, health: uint32, maxHealth: uint32, attack: uint16, hostile: bool,
                         coward: bool, aggressive: bool, runOnHealth: uint32, targetDistance: int, aggroRange: int)

  datatype Monster = Monster(breed: Breed, position: Position, health: uint32, attacking: Option<Id>,
                             followTarget: Option<Id>, lastAttack: nat, spawnId: Option<Id>)

  datatype Spawn = Spawn(breed: Breed, interval: nat, respawnAt: Option<nat>)

  datatype State = State(players: map<Id, Player>, monsters: map<Id, Monster>, spawns: map<Id, Spawn>,
                         npcs: map<Id, Position>, nextId: Id, nextMonsterId: Id, nextSpawnId: Id)

  const NO_CREATURES := State(map[], map[], map[], map[], PLAYER_ID_BASE, MONSTER_ID_BASE, 1)

  // ---------------------------------------------------------------------
  // Looking creatures up
  // ---------------------------------------------------------------------

  /** A combatant: an NPC is visible but no target. */
  predicate Exists(s: State, id: Id) {
    id in s.players || id in s.monsters
  }

  function PositionOf(s: State, id: Id): Option<Position> {
    if id in s.players then Some(s.players[id].position)
    else if id in s.npcs then Some(s.npcs[id])
    else if id in s.monsters then Some(s.monsters[id].position)
    else None
  }

  function IsFleeing(m: Monster): bool {
    || (m.breed.coward
        && Min(m.health * 4, 0xFFFF_FFFF) < Min(m.breed.maxHealth * COWARD_FLEE_THRESHOLD, 0xFFFF_FFFF))
    || (m.breed.runOnHealth > 0 && m.health <= m.breed.runOnHealth)
  }

  /** A coward flees below a quarter of its health, anyone at or below its own limit; saturation changes nothing. */
  lemma FleeingMeans(m: Monster)
    ensures IsFleeing(m) <==> || (m.breed.coward && 4 * m.health < m.breed.maxHealth)
                              || (m.breed.runOnHealth > 0 && m.health <= m.breed.runOnHealth)
  {
  }

  // ---------------------------------------------------------------------
  // Deaths, departures and respawns
  // ---------------------------------------------------------------------

  function Forget(attacking: Option<Id>, victim: Id): Option<Id> {
    if attacking == Some(victim) then None else attacking
  }

  /** No one fights `victim` any more. */
  function ClearFights(s: State, victim: Id): State {
    s.(players := map id | id in s.players :: s.players[id].(attacking := Forget(s.players[id].attacking, victim)),
       monsters := map id | id in s.monsters :: s.monsters[id].(attacking := Forget(s.monsters[id].attacking, victim)))
  }

  /** Death is a logout with all fights cleared. */
  function PlayerDies(s: State, victim: Id): State {
    var c := ClearFights(s, victim);
    c.(players := c.players - {victim})
  }

  function Logout(s: State, id: Id): State {
    s.(players := s.players - {id})
  }

  function MonsterDies(s: State, victim: Id, now: nat): State {
    if victim !in s.monsters then s
    else
      var c := ClearFights(s, victim);
      var c := c.(monsters := c.monsters - {victim});
      var sid := s.monsters[victim].spawnId;
      if sid.Some? && sid.value in s.spawns then
        var spawn := s.spawns[sid.value];
        c.(spawns := s.spawns[sid.value := spawn.(respawnAt := Some(now + spawn.interval))])
      else c
  }

  function Born(breed: Breed, spawnId: Option<Id>): Monster {
    Monster(breed, breed.position, breed.health, None, None, 0, spawnId)
  }

  function AddMonster(s: State, breed: Breed, spawnId: Option<Id>): State {
    s.(monsters := s.monsters[s.nextMonsterId := Born(breed, spawnId)], nextMonsterId := s.nextMonsterId + 1)
  }

  function Respawn(s: State, sid: Id): State
    requires sid in s.spawns
  {
    var cleared := s.(spawns := s.spawns[sid := s.spawns[sid].(respawnAt := None)]);
    AddMonster(cleared, s.spawns[sid].breed, Some(sid))
  }

  /** A new spawn point, with its first monster. */
  function AddSpawn(s: State, breed: Breed, interval: nat): State {
    var c := s.(spawns := s.spawns[s.nextSpawnId := Spawn(breed, interval, None)], nextSpawnId := s.nextSpawnId + 1);
    AddMonster(c, breed, Some(s.nextSpawnId))
  }

  function Login(s: State, p: Player): State {
    s.(players := s.players[s.nextId := p.(attacking := None, lastAttack := 0)], nextId := s.nextId + 1)
  }

  // ---------------------------------------------------------------------
  // Damage and swings
  // ---------------------------------------------------------------------

  function Less(health: uint32, dmg: int): uint32 {
    Max(health - Max(dmg, 0), 0)
  }

  function HurtPlayer(s: State, victim: Id, dmg: int): State {
    if victim !in s.players then s
    else
      var p := s.players[victim];
      var hurt := s.(players := s.players[victim := p.(health := Less(p.health, dmg))]);
      if Less(p.health, dmg) == 0 then PlayerDies(hurt, victim) else hurt
  }

  /** A hurt monster that fights no one yet turns on its attacker, unless it is peaceful or fleeing. */
  function Retaliate(m: Monster, attacker: Id): Monster {
    if m.attacking.None? && m.breed.hostile && !IsFleeing(m) then m.(attacking := Some(attacker), lastAttack := 0) else m
  }

  function HurtMonster(s: State, attacker: Id, victim: Id, dmg: int, now: nat): State {
    if victim !in s.monsters then s
    else
      var m := s.monsters[victim];
      var hurt := m.(health := Less(m.health, dmg));
      if hurt.health == 0 then MonsterDies(s.(monsters := s.monsters[victim := hurt]), victim, now)
      else s.(monsters := s.monsters[victim := Retaliate(hurt, attacker)])
  }

  function Hurt(s: State, attacker: Id, victim: Id, dmg: int, now: nat): State {
    if victim in s.players then HurtPlayer(s, victim, dmg) else HurtMonster(s, attacker, victim, dmg, now)
  }

  /** What a swing came to: nothing yet, the fight dropped, a miss, or a hit for `dmg` after mitigation. */
  datatype Swing = Idle | Dropped | Missed | Hit(dmg: int)

  function PlayerSwing(s: State, attacker: Id, target: Id, now: nat, swing: Swing): State {
    if attacker !in s.players || swing.Idle? then s
    else
      var p := s.players[attacker];
      if swing.Dropped? then s.(players := s.players[attacker := p.(attacking := None)])
      else
        var swung := s.(players := s.players[attacker := p.(lastAttack := now)]);
        if swing.Missed? then swung else Hurt(swung, attacker, target, swing.dmg, now)
  }

  /** `calm` is set when the fight is dropped together with the chase. */
  function MonsterSwing(s: State, attacker: Id, target: Id, now: nat, swing: Swing, calm: bool): State {
    if attacker !in s.monsters || swing.Idle? then s
    else
      var m := s.monsters[attacker];
      if swing.Dropped? then
        var m := m.(attacking := None, followTarget := if calm then None else m.followTarget);
        s.(monsters := s.monsters[attacker := m])
      else
        var swung := s.(monsters := s.monsters[attacker := m.(lastAttack := now)]);
        if swing.Missed? then swung else Hurt(swung, attacker, target, swing.dmg, now)
  }

  // ---------------------------------------------------------------------
  // Spawn points
  // ---------------------------------------------------------------------

  predicate Carries(s: State, mid: Id, sid: Id) {
    mid in s.monsters && s.monsters[mid].spawnId == Some(sid)
  }

  predicate Waiting(s: State, sid: Id) {
    sid in s.spawns && s.spawns[sid].respawnAt.Some?
  }

  predicate IsDue(spawn: Spawn, now: nat) {
    spawn.respawnAt.Some? && spawn.respawnAt.value <= now
  }

  predicate HasMonster(s: State, sid: Id) {
    exists mid :: mid in s.monsters && Carries(s, mid, sid)
  }

  /** Each spawn point has one live monster or one pending respawn, never both and never neither. */
  ghost predicate SpawnsSound(s: State) {
    && (forall sid :: sid in s.spawns ==> (HasMonster(s, sid) <==> !Waiting(s, sid)))
    && (forall m1, m2, sid :: Carries(s, m1, sid) && Carries(s, m2, sid) ==> m1 == m2)
    && (forall mid, sid :: Carries(s, mid, sid) ==> sid in s.spawns)
  }

  // ---------------------------------------------------------------------
  // Ids and targets
  // ---------------------------------------------------------------------

  /** The id spaces stay apart, and no id is handed out twice. */
  ghost predicate IdsApart(s: State) {
    && (forall id :: id in s.players ==> PLAYER_ID_BASE <= id < s.nextId)
    && (forall id :: id in s.monsters ==> MONSTER_ID_BASE <= id < s.nextMonsterId)
    && (forall id :: id in s.npcs ==> NPC_ID_BASE <= id)
    && (forall sid :: sid in s.spawns ==> sid < s.nextSpawnId)
    && PLAYER_ID_BASE <= s.nextId <= MONSTER_ID_BASE <= s.nextMonsterId <= NPC_ID_BASE
  }

  /** `id` fights someone other than itself, and no NPC; perhaps someone who has left. */
  predicate SaneTarget(id: Id, attacking: Option<Id>) {
    attacking.Some? ==> attacking.value != id && attacking.value < NPC_ID_BASE
  }

  ghost predicate TargetsSane(s: State) {
    && (forall id :: id in s.players ==> SaneTarget(id, s.players[id].attacking))
    && (forall id :: id in s.monsters ==> SaneTarget(id, s.monsters[id].attacking))
  }

  predicate Live(s: State, attacking: Option<Id>) {
    attacking.Some? ==> Exists(s, attacking.value)
  }

  /** Every player's fight is with an existing creature, except that a pending attacker may still hold the
      target it was seen with. */
  ghost predicate PlayersLive(s: State, pending: map<Id, Id>) {
    forall id :: id in s.players ==>
      Live(s, s.players[id].attacking) || (id in pending && s.players[id].attacking == Some(pending[id]))
  }

  ghost predicate MonstersLive(s: State, pending: map<Id, Id>) {
    forall id :: id in s.monsters ==>
      Live(s, s.monsters[id].attacking) || (id in pending && s.monsters[id].attacking == Some(pending[id]))
  }

  ghost predicate AllLive(s: State) {
    PlayersLive(s, map[]) && MonstersLive(s, map[])
  }

  /** The invariant of the registries. */
  ghost predicate Valid(s: State) {
    SpawnsSound(s) && IdsApart(s) && TargetsSane(s)
  }
}
