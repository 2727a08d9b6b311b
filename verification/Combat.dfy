/** The combat part of the game actor (crates/world/src/game/combat.rs): creature registries updated in
    place, over snapshots of ids, with every random draw and every weapon left open. */
module Combat {
  import opened World
  import opened Fights
  import opened FightInvariants

  datatype Command =
    | Login(player: Player)
    | Logout(id: Id)
    | SetTarget(id: Id, target: Id)
    | CombatTick(now: nat)
    | AiTick(bucket: nat)
    | MakeMonster(breed: Breed)
    | Move(id: Id, to: Position)

  // ---------------------------------------------------------------------
  // Shield and armour
  // ---------------------------------------------------------------------

  datatype BlockKind = Unblocked | ByDefense | ByArmor

  function LeastSoaked(defense: int, armor: int, checkDefense: bool): nat {
    (if checkDefense && defense > 0 then defense / 2 else 0)
    + if armor > 3 then armor / 2 else if armor > 0 then 1 else 0
  }

  function MostSoaked(defense: int, armor: int, checkDefense: bool): nat {
    (if checkDefense && defense > 0 then defense else 0)
    + if armor > 3 then armor - (armor % 2 + 1) else if armor > 0 then 1 else 0
  }

  /** A shield that may block soaks up half its value to all of it. Armour above 3 soaks up half its value to all but
      one or two of it, some armour at most 3 soaks up one, and none nothing. */
  lemma SoakedMeans(defense: int, armor: int, blocks: bool)
    ensures var shield := if blocks && defense > 0 then defense else 0;
            && (armor <= 0 ==> LeastSoaked(defense, armor, blocks) == shield / 2
                               && MostSoaked(defense, armor, blocks) == shield)
            && (0 < armor <= 3 ==> LeastSoaked(defense, armor, blocks) == shield / 2 + 1
                                   && MostSoaked(defense, armor, blocks) == shield + 1)
            && (armor > 3 ==> LeastSoaked(defense, armor, blocks) == shield / 2 + armor / 2
                              && MostSoaked(defense, armor, blocks)
                                 == shield + armor - if armor % 2 == 0 then 1 else 2)
  {
  }

  /** `apply_defense_armor`: whatever is drawn, what gets through lies between the damage less the most and less
      the least that shield and armour soak up, and it is zero exactly when something blocked a real blow. */
  method ApplyDefenseArmor(damage: int, defense: int, armor: int, checkDefense: bool)
    returns (left: int, block: BlockKind)
    ensures 0 <= left <= Max(damage, 0)
    ensures damage > 0 ==> (left > 0 <==> block.Unblocked?)
    ensures damage <= 0 ==> block.Unblocked?
    ensures left > 0 ==> damage - MostSoaked(defense, armor, checkDefense) <= left
                         <= damage - LeastSoaked(defense, armor, checkDefense)
    ensures damage > MostSoaked(defense, armor, checkDefense) ==> left > 0
    ensures block.ByDefense? ==> checkDefense && damage <= defense
    ensures block.ByArmor? ==> armor > 0
  {
    if damage <= 0 {
      return 0, Unblocked;
    }
    left := damage;
    if checkDefense && defense > 0 {
      var lo := defense / 2;
      var hi := Max(defense, lo);
      var soaked: int :| lo <= soaked <= hi;
      left := left - soaked;
      if left <= 0 {
        return 0, ByDefense;
      }
    }
    if armor > 3 {
      var lo := armor / 2;
      var hi := Max(armor - (armor % 2 + 1), lo);
      var soaked: int :| lo <= soaked <= hi;
      left := left - soaked;
    } else if armor > 0 {
      left := left - 1;
    }
    return if left <= 0 then 0 else left, if left <= 0 then ByArmor else Unblocked;
  }

  // ---------------------------------------------------------------------
  // Helpers
  // ---------------------------------------------------------------------

  function Somes<T>(s: seq<Option<T>>): seq<T> {
    if s == [] then []
    else Somes(s[..|s| - 1]) + if s[|s| - 1].Some? then [s[|s| - 1].value] else []
  }

  lemma SomesSnoc<T>(s: seq<Option<T>>, i: nat)
    requires i < |s|
    ensures Somes(s[..i + 1]) == if s[i].Some? then Somes(s[..i]) + [s[i].value] else Somes(s[..i])
  {
    assert s[..i + 1][..i] == s[..i];
  }

  /** One new point for each of `points` in turn. */
  function AddSpawns(s: State, points: seq<Spawn>): State {
    if points == [] then s
    else
      var last := points[|points| - 1];
      AddSpawn(AddSpawns(s, points[..|points| - 1]), last.breed, last.interval)
  }

  lemma NoSpawns(s: State)
    ensures Somes<Spawn>([]) == [] && AddSpawns(s, []) == s
  {
  }

  lemma AddedSpawn(s: State, s': State, breed: Breed, interval: nat)
    requires s' == s.(spawns := s.spawns[s.nextSpawnId := Spawn(breed, interval, None)],
                      nextSpawnId := s.nextSpawnId + 1,
                      monsters := s.monsters[s.nextMonsterId := Born(breed, Some(s.nextSpawnId))],
                      nextMonsterId := s.nextMonsterId + 1)
    ensures s' == AddSpawn(s, breed, interval)
  {
  }

  lemma AddSpawnsSnoc(s: State, points: seq<Spawn>, p: Spawn)
    ensures AddSpawns(s, points + [p]) == AddSpawn(AddSpawns(s, points), p.breed, p.interval)
  {
    assert (points + [p])[..|points|] == points;
  }

  /** No one has logged out since the last combat tick, or since the start. */
  predicate EndsLive(commands: seq<Command>) {
    commands == []
    || (var last := commands[|commands| - 1];
        last.CombatTick? || (!last.Logout? && EndsLive(commands[..|commands| - 1])))
  }

  lemma NothingYetEndsLive()
    ensures EndsLive([])
  {
  }

  lemma OneMoreEndsLive(commands: seq<Command>, i: nat)
    requires i < |commands|
    ensures EndsLive(commands[..i + 1])
       <==> commands[i].CombatTick? || (!commands[i].Logout? && EndsLive(commands[..i]))
  {
    assert commands[..i + 1][..i] == commands[..i];
  }

  lemma NoFightYet(s: State, pz: Position -> bool, sight: Sight, fights: map<Id, Id>, now: nat)
    ensures Halfway([], fights, fights)
    ensures s == PlayerRound(s, [], now) == MonsterRound(s, [], now)
    ensures IsPlayerRound(s, pz, sight, [], now) && IsMonsterRound(s, pz, sight, [], now)
  {
    assert fights - fights.Keys == map[];
  }

  lemma AllFightsDone(log: seq<Blow>, fights: map<Id, Id>)
    requires Halfway(log, fights, map[])
    ensures OncePerFight(log, fights)
  {
    assert fights - {} == fights;
  }

  /** Since `s0`, the overdue spawn points outside `due` have been served and nothing else has changed. */
  ghost predicate RespawnedBut(s0: State, s: State, now: nat, due: set<Id>) {
    && s == s0.(spawns := s.spawns, monsters := s.monsters, nextMonsterId := s.nextMonsterId)
    && s.spawns.Keys == s0.spawns.Keys
    && (forall sid :: sid in due ==> sid in s0.spawns && IsDue(s0.spawns[sid], now))
    && (forall sid :: sid in s0.spawns ==>
         s.spawns[sid] == if IsDue(s0.spawns[sid], now) && sid !in due then s0.spawns[sid].(respawnAt := None)
                          else s0.spawns[sid])
    && (forall id :: id in s0.monsters ==> id in s.monsters && s.monsters[id] == s0.monsters[id])
    && (forall id :: id in s.monsters && id !in s0.monsters ==>
         exists sid :: sid in s0.spawns && s.monsters[id] == Born(s0.spawns[sid].breed, Some(sid)))
  }

  lemma NoneRespawned(s: State, now: nat, due: set<Id>)
    requires due == set sid | sid in s.spawns && IsDue(s.spawns[sid], now)
    ensures RespawnedBut(s, s, now, due)
  {
  }

  lemma RespawnOne(s0: State, s: State, now: nat, due: set<Id>, sid: Id)
    requires Valid(s) && RespawnedBut(s0, s, now, due) && sid in due && s.nextMonsterId < NPC_ID_BASE
    ensures sid in s.spawns && RespawnedBut(s0, Respawn(s, sid), now, due - {sid})
    ensures Valid(Respawn(s, sid)) && (AllLive(s) ==> AllLive(Respawn(s, sid)))
  {
    hide AllLive, SpawnsSound, TargetsSane;
    RespawnKeepsValid(s, sid);
    var s', mid := Respawn(s, sid), s.nextMonsterId;
    assert s'.monsters[mid] == Born(s0.spawns[sid].breed, Some(sid));
  }

  lemma NoneDue(s0: State, s: State, now: nat)
    requires RespawnedBut(s0, s, now, {})
    ensures s.spawns.Keys == s0.spawns.Keys && s.players == s0.players && s.npcs == s0.npcs && s.nextId == s0.nextId
    ensures forall sid :: sid in s.spawns ==> !IsDue(s.spawns[sid], now)
  {
  }

  lemma SamePoints(s0: State, s: State, now: nat)
    requires RespawnedBut(s0, s, now, {})
    ensures |s.spawns| == |s0.spawns|
  {
    assert |s.spawns.Keys| == |s0.spawns.Keys|;
  }

  lemma {:induction false} DueFewer(spawns: map<Id, Spawn>, due: set<Id>)
    requires due <= spawns.Keys
    ensures |due| <= |spawns|
  {
    var rest := spawns.Keys - due;
    assert spawns.Keys == due + rest;
  }

  // ---------------------------------------------------------------------
  // The actor
  // ---------------------------------------------------------------------

  class Game {
    var players: map<Id, Player>
    var monsters: map<Id, Monster>
    var spawns: map<Id, Spawn>
    var npcs: map<Id, Position>
    var nextId: Id
    var nextMonsterId: Id
    var nextSpawnId: Id

    /** The protection zones and lines of sight of the map. */
    const pz: Position -> bool
    const sight: Sight

    function S(): State
      reads this
    {
      State(players, monsters, spawns, npcs, nextId, nextMonsterId, nextSpawnId)
    }

    constructor (pz: Position -> bool, sight: Sight, npcs: map<Id, Position>)
      requires forall id :: id in npcs ==> NPC_ID_BASE <= id
      ensures S() == NO_CREATURES.(npcs := npcs) && Valid(S()) && AllLive(S())
      ensures this.pz == pz && this.sight == sight
    {
      players, monsters, spawns, this.npcs := map[], map[], map[], npcs;
      nextId, nextMonsterId, nextSpawnId := PLAYER_ID_BASE, MONSTER_ID_BASE, 1;
      this.pz, this.sight := pz, sight;
    }

    // -------------------------------------------------------------------
    // Deaths
    // -------------------------------------------------------------------

    method ClearPlayerFights(victim: Id)
      modifies this`players
      ensures players == ClearFights(old(S()), victim).players
    {
      var todo := players.Keys;
      while todo != {}
        invariant todo <= players.Keys == old(players).Keys
        invariant forall id :: id in players ==>
          players[id] == if id in todo then old(players)[id]
                         else old(players)[id].(attacking := Forget(old(players)[id].attacking, victim))
        decreases |todo|
      {
        var id :| id in todo;
        todo := todo - {id};
        if players[id].attacking == Some(victim) {
          players := players[id := players[id].(attacking := None)];
        }
      }
    }

    method ClearMonsterFights(victim: Id)
      modifies this`monsters
      ensures monsters == ClearFights(old(S()), victim).monsters
    {
      var todo := monsters.Keys;
      while todo != {}
        invariant todo <= monsters.Keys == old(monsters).Keys
        invariant forall id :: id in monsters ==>
          monsters[id] == if id in todo then old(monsters)[id]
                          else old(monsters)[id].(attacking := Forget(old(monsters)[id].attacking, victim))
        decreases |todo|
      {
        var id :| id in todo;
        todo := todo - {id};
        if monsters[id].attacking == Some(victim) {
          monsters := monsters[id := monsters[id].(attacking := None)];
        }
      }
    }

    method DoDeath(victim: Id)
      modifies this`players, this`monsters
      ensures S() == PlayerDies(old(S()), victim)
    {
      ClearPlayerFights(victim);
      ClearMonsterFights(victim);
      players := players - {victim};
    }

    method DoMonsterDeath(victim: Id, now: nat)
      modifies this`players, this`monsters, this`spawns
      ensures S() == MonsterDies(old(S()), victim, now)
    {
      if victim !in monsters {
        return;
      }
      var sid := monsters[victim].spawnId;
      ClearPlayerFights(victim);
      ClearMonsterFights(victim);
      monsters := monsters - {victim};
      if sid.Some? && sid.value in spawns {
        var spawn := spawns[sid.value];
        spawns := spawns[sid.value := spawn.(respawnAt := Some(now + spawn.interval))];
      }
    }

    // -------------------------------------------------------------------
    // Damage
    // -------------------------------------------------------------------

    method ApplyDamage(victim: Id, dmg: int)
      modifies this`players, this`monsters
      ensures S() == HurtPlayer(old(S()), victim, dmg)
    {
      if victim !in players {
        return;
      }
      var v := players[victim];
      players := players[victim := v.(health := Less(v.health, dmg))];
      if players[victim].health == 0 {
        DoDeath(victim);
      }
    }

    method ApplyMonsterDamage(attacker: Id, victim: Id, dmg: int, now: nat)
      modifies this`players, this`monsters, this`spawns
      ensures S() == HurtMonster(old(S()), attacker, victim, dmg, now)
    {
      hide IsFleeing, Less;
      if victim !in monsters {
        return;
      }
      var m := monsters[victim];
      m := m.(health := Less(m.health, dmg));
      monsters := monsters[victim := m];
      if m.health > 0 && m.attacking.None? && m.breed.hostile && !IsFleeing(m) {
        monsters := monsters[victim := m.(attacking := Some(attacker), lastAttack := 0)];
      }
      if m.health == 0 {
        DoMonsterDeath(victim, now);
      }
    }

    // -------------------------------------------------------------------
    // Targets and swings
    // -------------------------------------------------------------------

    /** Zero clears the fight. A player outside protection zones takes on any other player or any monster;
        every other request changes nothing. */
    method DoSetTarget(id: Id, target: Id)
      modifies this`players
      ensures S() == FightInvariants.SetTarget(old(S()), pz, id, target)
    {
      if target == 0 {
        if id in players {
          players := players[id := players[id].(attacking := None)];
        }
        return;
      }
      if target == id || id !in players {
        return;
      }
      if pz(players[id].position) || !(target in players || target in monsters) {
        return;
      }
      players := players[id := players[id].(attacking := Some(target), lastAttack := 0)];
    }

    method ProcessPlayerAttack(attacker: Id, target: Id, now: nat, w: Weapon) returns (swing: Swing)
      modifies this`players, this`monsters, this`spawns
      ensures S() == PlayerSwing(old(S()), attacker, target, now, swing)
      ensures IsPlayerSwing(old(S()), pz, sight, attacker, target, now, w, swing)
    {
      hide HurtPlayer, HurtMonster;
      var position := PositionOf(S(), target);
      if position.None? {
        if attacker in players {
          players := players[attacker := players[attacker].(attacking := None)];
        }
        return Dropped;
      }
      if attacker !in players {
        return Idle;
      }
      var p, to := players[attacker], position.value;
      if pz(p.position) || (target in players && pz(to)) {
        players := players[attacker := p.(attacking := None)];
        return Dropped;
      }
      if Max(now - p.lastAttack, 0) < MELEE_ATTACK_INTERVAL_MS || p.position.z != to.z {
        return Idle;
      }
      var far := Distance(p.position, to);
      if far > Min(RANGED_MAX_DISTANCE, Max(w.range, 1)) {
        return Idle;
      }
      var ranged := w.distance || w.range > 1 || far > 1;
      if ranged && !sight(p.position, to, true) {
        return Idle;
      }
      players := players[attacker := p.(lastAttack := now)];
      var misses: bool, dmg: nat := *, *;
      if w.distance && misses {
        return Missed;
      }
      var defense, armor, checked := *, *, *;
      var left, _ := ApplyDefenseArmor(dmg, defense, armor, checked);
      if target in players {
        ApplyDamage(target, left);
      } else {
        ApplyMonsterDamage(attacker, target, left, now);
      }
      return Hit(left);
    }

    method ProcessMonsterAttack(attacker: Id, target: Id, now: nat) returns (swing: Swing, calm: bool)
      modifies this`players, this`monsters, this`spawns
      ensures S() == MonsterSwing(old(S()), attacker, target, now, swing, calm)
      ensures IsMonsterSwing(old(S()), pz, sight, attacker, target, now, swing)
      ensures swing.Dropped? ==> calm == CalmsDown(old(S()), pz, attacker, target)
    {
      hide HurtPlayer, HurtMonster, IsFleeing;
      calm := false;
      var position := PositionOf(S(), target);
      if position.None? {
        if attacker in monsters {
          monsters := monsters[attacker := monsters[attacker].(attacking := None)];
        }
        return Dropped, false;
      }
      if attacker !in monsters {
        return Idle, false;
      }
      var m, to := monsters[attacker], position.value;
      if !(m.breed.hostile && !IsFleeing(m) && m.breed.attack > 0) {
        calm := IsFleeing(m) || !m.breed.hostile;
        monsters := monsters[attacker :=
          m.(attacking := None, followTarget := if calm then None else m.followTarget)];
        return Dropped, calm;
      }
      if pz(m.position) || (target in players && pz(to)) {
        calm := target in players && pz(to);
        monsters := monsters[attacker :=
          m.(attacking := None, followTarget := if calm then None else m.followTarget)];
        return Dropped, calm;
      }
      if Max(now - m.lastAttack, 0) < MELEE_ATTACK_INTERVAL_MS || m.position.z != to.z {
        return Idle, false;
      }
      var range, far := Max(m.breed.targetDistance, 1), Distance(m.position, to);
      if far > Min(RANGED_MAX_DISTANCE, range) {
        return Idle, false;
      }
      if (range > 1 || far > 1) && !CanThrow(sight, m.position, to) {
        return Idle, false;
      }
      var dmg :| 0 <= dmg <= m.breed.attack;
      monsters := monsters[attacker := m.(lastAttack := now)];
      var defense, armor, checked := *, *, *;
      var left, _ := ApplyDefenseArmor(dmg, defense, armor, checked);
      if target in players {
        ApplyDamage(target, left);
      } else {
        ApplyMonsterDamage(attacker, target, left, now);
      }
      return Hit(left), false;
    }

    // -------------------------------------------------------------------
    // The combat tick
    // -------------------------------------------------------------------

    /** One swing for every player fight of the snapshot, in whatever order. */
    method PlayerAttacks(now: nat) returns (log: seq<Blow>)
      requires Valid(S())
      modifies this`players, this`monsters, this`spawns
      ensures Valid(S()) && PlayersLive(S(), map[])
      ensures S() == PlayerRound(old(S()), log, now) && IsPlayerRound(old(S()), pz, sight, log, now)
      ensures OncePerFight(log, PlayerFights(old(S())))
      ensures SameIds(old(S()), S())
    {
      hide Valid, PlayersLive, MonstersLive, PlayerSwing, IsPlayerSwing, IsMonsterSwing, PlayerFights, Halfway,
        PlayerRound, IsPlayerRound;
      log := [];
      var fights := PlayerFights(S());
      var todo: map<Id, Id> := fights;
      SnapshotSettles(S());
      NoFightYet(S(), pz, sight, fights, now);
      while todo != map[]
        invariant Valid(S()) && PlayersLive(S(), todo)
        invariant forall id :: id in todo ==> todo[id] != id && todo[id] < NPC_ID_BASE
        invariant SameIds(old(S()), S()) && Halfway(log, fights, todo)
        invariant S() == PlayerRound(old(S()), log, now) && IsPlayerRound(old(S()), pz, sight, log, now)
        decreases |todo|
      {
        var attacker :| attacker in todo;
        var target := todo[attacker];
        var range, distance := *, *;
        var w := Weapon(range, distance);
        ghost var before := S();
        var swing := ProcessPlayerAttack(attacker, target, now, w);
        PlayerSwingIsFit(before, pz, sight, attacker, target, now, w, swing);
        PlayerSwingSettles(before, attacker, target, now, swing, todo, map[]);
        PlayerSwingKeepsIds(before, attacker, target, now, swing);
        var b := Blow(attacker, target, w, swing, false);
        RoundSnoc(old(S()), pz, sight, log, b, now);
        NextFight(log, fights, todo, b);
        log := log + [b];
        todo := todo - {attacker};
      }
      AllFightsDone(log, fights);
    }

    /** One swing for every monster fight of the snapshot, in whatever order. */
    method MonsterAttacks(now: nat) returns (log: seq<Blow>)
      requires Valid(S()) && PlayersLive(S(), map[])
      modifies this`players, this`monsters, this`spawns
      ensures Valid(S()) && AllLive(S())
      ensures S() == MonsterRound(old(S()), log, now) && IsMonsterRound(old(S()), pz, sight, log, now)
      ensures OncePerFight(log, MonsterFights(old(S())))
      ensures SameIds(old(S()), S())
    {
      hide Valid, PlayersLive, MonstersLive, MonsterSwing, IsPlayerSwing, IsMonsterSwing, MonsterFights, Halfway,
        MonsterRound, IsMonsterRound, CalmsDown;
      log := [];
      var fights := MonsterFights(S());
      var todo: map<Id, Id> := fights;
      SnapshotSettles(S());
      NoFightYet(S(), pz, sight, fights, now);
      while todo != map[]
        invariant Valid(S()) && MonstersLive(S(), todo) && PlayersLive(S(), map[])
        invariant forall id :: id in todo ==> todo[id] != id && todo[id] < NPC_ID_BASE
        invariant SameIds(old(S()), S()) && Halfway(log, fights, todo)
        invariant S() == MonsterRound(old(S()), log, now) && IsMonsterRound(old(S()), pz, sight, log, now)
        decreases |todo|
      {
        var attacker :| attacker in todo;
        var target := todo[attacker];
        ghost var before := S();
        var swing, calm := ProcessMonsterAttack(attacker, target, now);
        MonsterSwingIsFit(before, pz, sight, attacker, target, now, swing);
        MonsterSwingSettles(before, attacker, target, now, swing, calm, map[], todo);
        MonsterSwingKeepsIds(before, attacker, target, now, swing, calm);
        var b := Blow(attacker, target, Weapon(1, false), swing, calm);
        RoundSnoc(old(S()), pz, sight, log, b, now);
        NextFight(log, fights, todo, b);
        log := log + [b];
        todo := todo - {attacker};
      }
      AllFightsDone(log, fights);
    }

    /** Every overdue spawn point gets its monster back; the other points and the living are untouched. */
    method ProcessRespawns(now: nat)
      requires Valid(S()) && nextMonsterId + |spawns| <= NPC_ID_BASE
      modifies this`monsters, this`spawns, this`nextMonsterId
      ensures Valid(S()) && (AllLive(old(S())) ==> AllLive(S()))
      ensures RespawnedBut(old(S()), S(), now, {})
      ensures nextMonsterId <= old(nextMonsterId) + |spawns|
    {
      hide Valid, AllLive, RespawnedBut, IsDue;
      var due := set sid | sid in spawns && IsDue(spawns[sid], now);
      NoneRespawned(S(), now, due);
      DueFewer(spawns, due);
      while due != {}
        invariant Valid(S()) && (AllLive(old(S())) ==> AllLive(S()))
        invariant RespawnedBut(old(S()), S(), now, due)
        invariant |due| <= |old(spawns)| && nextMonsterId + |due| <= old(nextMonsterId) + |old(spawns)|
        decreases |due|
      {
        var sid :| sid in due;
        ghost var before := S();
        RespawnOne(old(S()), before, now, due, sid);
        due := due - {sid};
        spawns := spawns[sid := spawns[sid].(respawnAt := None)];
        monsters := monsters[nextMonsterId := Born(spawns[sid].breed, Some(sid))];
        nextMonsterId := nextMonsterId + 1;
        assert S() == Respawn(before, sid);
      }
      SamePoints(old(S()), S(), now);
    }

    /** A tick is one swing for every player fight, then one for every monster fight, then the respawns. It heals:
        whatever fights were left with creatures that are gone, afterwards every fight is with an existing
        combatant, and no respawn is overdue. */
    method OnCombatTick(now: nat) returns (players_: seq<Blow>, monsters_: seq<Blow>)
      requires Valid(S()) && nextMonsterId + |spawns| <= NPC_ID_BASE
      modifies this`players, this`monsters, this`spawns, this`nextMonsterId
      ensures Valid(S()) && AllLive(S())
      ensures var s1 := PlayerRound(old(S()), players_, now);
              var s2 := MonsterRound(s1, monsters_, now);
              && IsPlayerRound(old(S()), pz, sight, players_, now) && OncePerFight(players_, PlayerFights(old(S())))
              && IsMonsterRound(s1, pz, sight, monsters_, now) && OncePerFight(monsters_, MonsterFights(s1))
              && RespawnedBut(s2, S(), now, {})
      ensures forall sid :: sid in spawns ==> !IsDue(spawns[sid], now)
      ensures spawns.Keys == old(spawns).Keys && nextMonsterId <= old(nextMonsterId) + |spawns|
    {
      hide Valid, PlayersLive, MonstersLive, IsDue, PlayerRound, MonsterRound, IsPlayerRound, IsMonsterRound,
        OncePerFight, PlayerFights, MonsterFights, RespawnedBut;
      players_ := PlayerAttacks(now);
      monsters_ := MonsterAttacks(now);
      assert |spawns.Keys| == |old(spawns).Keys|;
      ghost var before := S();
      ProcessRespawns(now);
      NoneDue(before, S(), now);
    }

    // -------------------------------------------------------------------
    // The other commands
    // -------------------------------------------------------------------

    /** The nearest player on the same floor inside the square of `range` around `at`. */
    method NearestPlayer(at: Position, range: int) returns (found: Option<Id>)
      ensures IsNearest(players, at, range, found)
    {
      found := None;
      var todo := players.Keys;
      while todo != {}
        invariant todo <= players.Keys
        invariant found.None? <==> forall id :: id in players && id !in todo ==> !InSquare(at, players[id].position, range)
        invariant found.Some? ==>
          && found.value in players && InSquare(at, players[found.value].position, range)
          && forall id :: id in players && id !in todo && InSquare(at, players[id].position, range) ==>
               Steps(at, players[found.value].position) <= Steps(at, players[id].position)
        decreases |todo|
      {
        var id :| id in todo;
        todo := todo - {id};
        var to := players[id].position;
        if InSquare(at, to, range) && (found.None? || Steps(at, to) < Steps(at, players[found.value].position)) {
          found := Some(id);
        }
      }
    }

    /** The fights of one bucket of the monster AI: who is fleeing, who turns on the nearest player. */
    method AiFights(bucket: nat)
      requires Valid(S())
      modifies this`monsters
      ensures Valid(S()) && (AllLive(old(S())) ==> AllLive(S()))
      ensures monsters.Keys == old(monsters).Keys
      ensures forall id :: id in monsters ==>
        if id % 10 == bucket then IsMood(players, pz, old(monsters)[id], monsters[id])
        else monsters[id] == old(monsters)[id]
    {
      hide Valid, AllLive, Mood, IsFleeing, IsNearest;
      var todo := set id | id in monsters && id % 10 == bucket;
      while todo != {}
        invariant Valid(S()) && (AllLive(old(S())) ==> AllLive(S()))
        invariant monsters.Keys == old(monsters).Keys && todo <= monsters.Keys
        invariant forall id :: id in todo ==> id % 10 == bucket
        invariant forall id :: id in monsters ==>
          if id % 10 == bucket && id !in todo then IsMood(players, pz, old(monsters)[id], monsters[id])
          else monsters[id] == old(monsters)[id]
        decreases |todo|
      {
        var id :| id in todo;
        todo := todo - {id};
        var m := monsters[id];
        var prey := NearestPlayer(m.position, m.breed.aggroRange);
        MoodKeepsValid(S(), pz, id, prey);
        ghost var before := S();
        monsters := monsters[id := Mood(players, pz, m, prey)];
        assert IsMood(players, pz, m, monsters[id]);
        assert S() == before.(monsters := before.monsters[id := Mood(before.players, pz, m, prey)]);
      }
    }

    /** The spawn file: one point and one monster for each entry whose name is known. */
    method LoadSpawns(entries: seq<Option<Spawn>>)
      requires Valid(S()) && nextMonsterId + |entries| <= NPC_ID_BASE
      modifies this`monsters, this`spawns, this`nextMonsterId, this`nextSpawnId
      ensures Valid(S()) && (AllLive(old(S())) ==> AllLive(S()))
      ensures S() == AddSpawns(old(S()), Somes(entries))
    {
      hide Valid, AllLive, Somes, AddSpawns, AddSpawn;
      NoSpawns(S());
      for i := 0 to |entries|
        invariant Valid(S()) && (AllLive(old(S())) ==> AllLive(S()))
        invariant S() == AddSpawns(old(S()), Somes(entries[..i])) && nextMonsterId <= old(nextMonsterId) + i
      {
        SomesSnoc(entries, i);
        if entries[i].Some? {
          var e := entries[i].value;
          ghost var before := S();
          AddSpawnKeepsValid(before, e.breed, e.interval);
          var sid, mid := nextSpawnId, nextMonsterId;
          nextSpawnId := nextSpawnId + 1;
          spawns := spawns[sid := Spawn(e.breed, e.interval, None)];
          nextMonsterId := nextMonsterId + 1;
          monsters := monsters[mid := Born(e.breed, Some(sid))];
          AddedSpawn(before, S(), e.breed, e.interval);
          AddSpawnsSnoc(old(S()), Somes(entries[..i]), e);
        }
      }
      assert entries[..|entries|] == entries;
    }

    method DoLogin(p: Player) returns (id: Id)
      modifies this`players, this`nextId
      ensures S() == Fights.Login(old(S()), p) && id == old(nextId)
    {
      id := nextId;
      nextId := nextId + 1;
      players := players[id := p.(attacking := None, lastAttack := 0)];
    }

    /** No fight is cleared here. */
    method DoLogout(id: Id)
      modifies this`players
      ensures S() == Fights.Logout(old(S()), id)
    {
      players := players - {id};
    }

    method DoMakeMonster(breed: Breed)
      modifies this`monsters, this`nextMonsterId
      ensures S() == AddMonster(old(S()), breed, None)
    {
      var mid := nextMonsterId;
      nextMonsterId := nextMonsterId + 1;
      monsters := monsters[mid := Born(breed, None)];
    }

    /** Wherever the movement code puts a creature. */
    method DoMove(id: Id, to: Position)
      requires Valid(S())
      modifies this`players, this`monsters
      ensures Valid(S()) && (AllLive(old(S())) ==> AllLive(S()))
      ensures players.Keys == old(players).Keys && monsters.Keys == old(monsters).Keys
    {
      ghost var before := S();
      if id in players {
        players := players[id := players[id].(position := to)];
      } else if id in monsters {
        monsters := monsters[id := monsters[id].(position := to)];
      }
      BookkeepingKeepsValid(before, S(), id, map[], map[]);
    }

    // -------------------------------------------------------------------
    // The actor loop
    // -------------------------------------------------------------------

    /** One command, whatever it is. */
    method Handle(command: Command)
      requires Valid(S())
      requires nextId < MONSTER_ID_BASE && nextMonsterId + |spawns| < NPC_ID_BASE
      modifies this`players, this`monsters, this`spawns, this`nextId, this`nextMonsterId
      ensures Valid(S())
      ensures command.CombatTick? ==> AllLive(S())
      ensures !command.Logout? && AllLive(old(S())) ==> AllLive(S())
      ensures spawns.Keys == old(spawns).Keys
      ensures nextId <= old(nextId) + 1 && nextMonsterId <= old(nextMonsterId) + |spawns| + 1
    {
      hide Valid, AllLive;
      ghost var before := S();
      match command
      case Login(p) =>
        LoginKeepsValid(before, p);
        var _ := DoLogin(p);
      case Logout(id) =>
        LogoutKeepsValid(before, id);
        DoLogout(id);
      case SetTarget(id, target) =>
        SetTargetKeepsValid(before, pz, id, target);
        DoSetTarget(id, target);
      case CombatTick(now) =>
        var _, _ := OnCombatTick(now);
        assert |spawns.Keys| == |old(spawns).Keys|;
      case AiTick(bucket) =>
        AiFights(bucket);
      case MakeMonster(breed) =>
        AddMonsterKeepsValid(before, breed);
        DoMakeMonster(breed);
      case Move(id, to) =>
        DoMove(id, to);
    }

    /** Every run of commands, in whatever order and with whatever rolls, keeps each spawn point at one monster or
        one timer, every id space apart and every target sane; and all fights are live at the end unless someone
        has logged out since the last combat tick. It goes on for as long as the id spaces have room: it stops at a
        command only if no player id is left, or no more monster ids than there are spawn points. */
    method Serve(commands: seq<Command>) returns (served: nat)
      requires Valid(S()) && AllLive(S())
      modifies this`players, this`monsters, this`spawns, this`nextId, this`nextMonsterId
      ensures served <= |commands|
      ensures served < |commands| ==> nextId >= MONSTER_ID_BASE || nextMonsterId + |spawns| >= NPC_ID_BASE
      ensures Valid(S()) && spawns.Keys == old(spawns).Keys
      ensures EndsLive(commands[..served]) ==> AllLive(S())
    {
      hide Valid, AllLive, EndsLive;
      NothingYetEndsLive();
      served := 0;
      while served < |commands| && nextId < MONSTER_ID_BASE && nextMonsterId + |spawns| < NPC_ID_BASE
        invariant served <= |commands|
        invariant Valid(S()) && spawns.Keys == old(spawns).Keys
        invariant EndsLive(commands[..served]) ==> AllLive(S())
      {
        OneMoreEndsLive(commands, served);
        Handle(commands[served]);
        served := served + 1;
      }
    }
  }
}
