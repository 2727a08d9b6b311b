/** What every change of the registries keeps: spawn points, id spaces, targets and live fights
    (crates/world/src/game/combat.rs). */
module FightInvariants {
  import opened World
  import opened Fights

  // ---------------------------------------------------------------------
  // Spawn points
  // ---------------------------------------------------------------------

  /** Spawn points do not notice a change that keeps which monster carries which point and every timer. */
  lemma SameCarriers(s: State, s': State)
    requires SpawnsSound(s) && s'.spawns == s.spawns
    requires forall mid, sid :: Carries(s', mid, sid) <==> Carries(s, mid, sid)
    ensures SpawnsSound(s')
  {
    hide Carries, Waiting;
    forall sid | sid in s.spawns ensures HasMonster(s', sid) <==> HasMonster(s, sid) {
      if mid :| mid in s.monsters && Carries(s, mid, sid) {
        assert Carries(s', mid, sid);
        CarriersAreMonsters(s', mid, sid);
      }
      if mid :| mid in s'.monsters && Carries(s', mid, sid) {
        assert Carries(s, mid, sid);
        CarriersAreMonsters(s, mid, sid);
      }
    }
    forall sid ensures Waiting(s', sid) == Waiting(s, sid) {
      WaitingIsInSpawns(s, s', sid);
    }
  }

  lemma CarriersAreMonsters(s: State, mid: Id, sid: Id)
    requires Carries(s, mid, sid)
    ensures mid in s.monsters
  {
  }

  lemma WaitingIsInSpawns(s: State, s': State, sid: Id)
    requires s.spawns == s'.spawns
    ensures Waiting(s, sid) == Waiting(s', sid)
  {
  }

  /** A dead monster's spawn point switches from living to waiting, and no other point changes. */
  lemma MonsterDiesKeepsSpawns(s: State, victim: Id, now: nat)
    requires SpawnsSound(s)
    ensures var s' := MonsterDies(s, victim, now);
            && SpawnsSound(s')
            && (forall sid :: Carries(s, victim, sid) ==>
                 !Waiting(s, sid) && Waiting(s', sid) && !HasMonster(s', sid))
            && (forall sid :: sid in s.spawns && !Carries(s, victim, sid) ==> s'.spawns[sid] == s.spawns[sid])
  {
    if victim in s.monsters {
      var s' := MonsterDies(s, victim, now);
      assert forall mid, sid :: Carries(s', mid, sid) <==> mid != victim && Carries(s, mid, sid);
      forall sid | sid in s'.spawns ensures HasMonster(s', sid) <==> !Waiting(s', sid) {
        if s.monsters[victim].spawnId == Some(sid) {
          assert Carries(s, victim, sid);
        } else {
          if mid :| mid in s.monsters && Carries(s, mid, sid) {
            assert Carries(s', mid, sid);
          }
          assert HasMonster(s, sid) <==> HasMonster(s', sid);
        }
      }
    }
  }

  /** A point is due from the end of its interval on; with an interval of zero that is at once, in the tick of the
      death. */
  lemma DueAfterInterval(s: State, victim: Id, sid: Id, now: nat, later: nat)
    requires Carries(s, victim, sid) && sid in s.spawns
    ensures IsDue(MonsterDies(s, victim, now).spawns[sid], later) <==> later >= now + s.spawns[sid].interval
    ensures IsDue(MonsterDies(s, victim, now).spawns[sid], now) <==> s.spawns[sid].interval == 0
  {
  }

  /** A respawn switches its point from waiting to living, with a monster of a fresh id. */
  lemma RespawnKeepsSpawns(s: State, sid: Id)
    requires SpawnsSound(s) && IdsApart(s) && Waiting(s, sid)
    ensures SpawnsSound(Respawn(s, sid))
    ensures var s' := Respawn(s, sid);
            && !HasMonster(s, sid) && !Waiting(s', sid)
            && s.nextMonsterId !in s.monsters && Carries(s', s.nextMonsterId, sid)
  {
    var s' := Respawn(s, sid);
    var mid := s.nextMonsterId;
    assert forall m, k :: Carries(s', m, k) <==> Carries(s, m, k) || (m == mid && k == sid);
    assert !HasMonster(s, sid) && Carries(s', mid, sid);
    forall k | k in s'.spawns && k != sid ensures HasMonster(s', k) <==> HasMonster(s, k) {
      if m :| m in s.monsters && Carries(s, m, k) {
        assert Carries(s', m, k);
      }
    }
    forall m1, m2, k | Carries(s', m1, k) && Carries(s', m2, k) ensures m1 == m2 {
      if k == sid {
        assert m1 != mid ==> Carries(s, m1, sid) && HasMonster(s, sid);
        assert m2 != mid ==> Carries(s, m2, sid) && HasMonster(s, sid);
      }
    }
  }

  /** A new point starts with a monster of its own. */
  lemma AddSpawnKeepsSpawns(s: State, breed: Breed, interval: nat)
    requires SpawnsSound(s) && IdsApart(s)
    ensures SpawnsSound(AddSpawn(s, breed, interval))
    ensures var s' := AddSpawn(s, breed, interval);
            && s.nextSpawnId !in s.spawns && s.nextMonsterId !in s.monsters
            && Carries(s', s.nextMonsterId, s.nextSpawnId) && !Waiting(s', s.nextSpawnId)
  {
    var s' := AddSpawn(s, breed, interval);
    var mid, sid := s.nextMonsterId, s.nextSpawnId;
    assert forall m, k :: Carries(s', m, k) <==> Carries(s, m, k) || (m == mid && k == sid);
    assert forall m :: !Carries(s, m, sid);
    assert Carries(s', mid, sid);
    forall k | k in s'.spawns && k != sid ensures HasMonster(s', k) <==> HasMonster(s, k) {
      if m :| m in s.monsters && Carries(s, m, k) {
        assert Carries(s', m, k);
      }
    }
  }

  // ---------------------------------------------------------------------
  // Ids and targets
  // ---------------------------------------------------------------------

  /** At most `victim` leaves, and then no one fights it; every other fight is as before or dropped, or a
      monster's new one with `provoker`. */
  ghost predicate OnlyDrops(s: State, s': State, victim: Id, provoker: Id) {
    && s'.players.Keys <= s.players.Keys && s'.monsters.Keys <= s.monsters.Keys && s'.spawns.Keys == s.spawns.Keys
    && s'.npcs == s.npcs && s'.nextId == s.nextId && s'.nextMonsterId == s.nextMonsterId
    && s'.nextSpawnId == s.nextSpawnId
    && (forall id :: Exists(s, id) ==> Exists(s', id) || id == victim)
    && (forall id :: id in s'.players ==> FightDrops(s, s', victim, s.players[id].attacking, s'.players[id].attacking))
    && (forall id :: id in s'.monsters ==>
          || FightDrops(s, s', victim, s.monsters[id].attacking, s'.monsters[id].attacking)
          || (id != provoker && s'.monsters[id].attacking == Some(provoker) && Exists(s', provoker)))
  }

  predicate FightDrops(s: State, s': State, victim: Id, before: Option<Id>, after: Option<Id>) {
    after == None || (after == before && (after == Some(victim) && Exists(s, victim) ==> Exists(s', victim)))
  }

  lemma DropsKeepTargets(s: State, s': State, victim: Id, provoker: Id)
    requires OnlyDrops(s, s', victim, provoker) && IdsApart(s) && TargetsSane(s) && provoker < NPC_ID_BASE
    ensures IdsApart(s') && TargetsSane(s')
  {
  }

  /** Such a change leaves no one fighting the dead. */
  lemma DropsKeepLive(s: State, s': State, victim: Id, provoker: Id, ps: map<Id, Id>, ms: map<Id, Id>)
    requires OnlyDrops(s, s', victim, provoker)
    ensures PlayersLive(s, ps) ==> PlayersLive(s', ps)
    ensures MonstersLive(s, ms) ==> MonstersLive(s', ms)
  {
  }

  lemma PlayerDiesOnlyDrops(s: State, victim: Id, provoker: Id)
    requires victim !in s.monsters
    ensures OnlyDrops(s, PlayerDies(s, victim), victim, provoker)
  {
  }

  lemma MonsterDiesOnlyDrops(s: State, victim: Id, now: nat, provoker: Id)
    requires victim !in s.players
    ensures OnlyDrops(s, MonsterDies(s, victim, now), victim, provoker)
  {
  }

  lemma HurtOnlyDrops(s: State, attacker: Id, victim: Id, dmg: int, now: nat)
    requires IdsApart(s) && Exists(s, attacker) && attacker != victim
    ensures OnlyDrops(s, Hurt(s, attacker, victim, dmg, now), victim, attacker)
  {
    hide IsFleeing, Less, OnlyDrops, MonsterDies, PlayerDies;
    var s' := Hurt(s, attacker, victim, dmg, now);
    if victim in s.players {
      var h := s.(players := s.players[victim := s.players[victim].(health := Less(s.players[victim].health, dmg))]);
      if Less(s.players[victim].health, dmg) == 0 {
        PlayerDiesOnlyDrops(h, victim, attacker);
        SameFights(s, h, s', victim, attacker);
      } else {
        Provokes(s, s', victim, attacker);
      }
    } else if victim in s.monsters {
      var m := s.monsters[victim].(health := Less(s.monsters[victim].health, dmg));
      var h := s.(monsters := s.monsters[victim := m]);
      if m.health == 0 {
        MonsterDiesOnlyDrops(h, victim, now, attacker);
        SameFights(s, h, s', victim, attacker);
      } else {
        Provokes(s, s', victim, attacker);
      }
    } else {
      Provokes(s, s', victim, attacker);
    }
  }

  /** A change of health first makes no difference. */
  lemma SameFights(s: State, h: State, s': State, victim: Id, provoker: Id)
    requires OnlyDrops(h, s', victim, provoker)
    requires h.players.Keys == s.players.Keys && h.monsters.Keys == s.monsters.Keys
    requires h == s.(players := h.players, monsters := h.monsters)
    requires forall id :: id in s.players ==> h.players[id].attacking == s.players[id].attacking
    requires forall id :: id in s.monsters ==> h.monsters[id].attacking == s.monsters[id].attacking
    ensures OnlyDrops(s, s', victim, provoker)
  {
  }

  lemma Provokes(s: State, s': State, victim: Id, provoker: Id)
    requires s'.players.Keys == s.players.Keys && s'.monsters.Keys == s.monsters.Keys
    requires s' == s.(players := s'.players, monsters := s'.monsters)
    requires Exists(s, provoker) && provoker != victim
    requires forall id :: id in s.players ==> s'.players[id].attacking in {None, s.players[id].attacking}
    requires forall id :: id in s.monsters ==>
      || s'.monsters[id].attacking == s.monsters[id].attacking
      || (id == victim && s'.monsters[id].attacking == Some(provoker))
    ensures OnlyDrops(s, s', victim, provoker)
  {
  }

  // ---------------------------------------------------------------------
  // What a hit does
  // ---------------------------------------------------------------------

  /** `after` is `before`, except that a fight with `gone` is over. */
  predicate SameButFight(before: Option<Id>, after: Option<Id>, gone: Id, left: bool) {
    after == if left && before == Some(gone) then None else before
  }

  /** Everyone but `victim` is as before, except that no one fights it any more if it is gone. */
  ghost predicate OthersUntouched(s: State, s': State, victim: Id) {
    var left := !Exists(s', victim);
    && s'.npcs == s.npcs && s'.nextId == s.nextId && s'.nextMonsterId == s.nextMonsterId
    && s'.nextSpawnId == s.nextSpawnId
    && s'.players.Keys - {victim} == s.players.Keys - {victim}
    && s'.monsters.Keys - {victim} == s.monsters.Keys - {victim}
    && (forall id :: id in s.players && id != victim ==>
          && id in s'.players && SameButFight(s.players[id].attacking, s'.players[id].attacking, victim, left)
          && s'.players[id] == s.players[id].(attacking := s'.players[id].attacking))
    && (forall id :: id in s.monsters && id != victim ==>
          && id in s'.monsters && SameButFight(s.monsters[id].attacking, s'.monsters[id].attacking, victim, left)
          && s'.monsters[id] == s.monsters[id].(attacking := s'.monsters[id].attacking))
  }

  lemma PlayerDeathMeans(s: State, victim: Id)
    requires victim in s.players && victim !in s.monsters
    ensures var s' := PlayerDies(s, victim);
            OthersUntouched(s, s', victim) && s'.spawns == s.spawns && victim !in s'.players
  {
  }

  lemma MonsterDeathMeans(s: State, victim: Id, now: nat)
    requires victim in s.monsters && victim !in s.players
    ensures var s', m := MonsterDies(s, victim, now), s.monsters[victim];
            && OthersUntouched(s, s', victim) && victim !in s'.monsters && s'.spawns.Keys == s.spawns.Keys
            && (forall sid :: sid in s.spawns ==>
                 var spawn := s.spawns[sid];
                 s'.spawns[sid] == if m.spawnId == Some(sid) then spawn.(respawnAt := Some(now + spawn.interval)) else spawn)
  {
  }

  /** What changed about the victim before makes no difference to the others. */
  lemma OthersBefore(s: State, h: State, s': State, victim: Id)
    requires OthersUntouched(h, s', victim) && victim in h.players.Keys + h.monsters.Keys
    requires h == s.(players := h.players, monsters := h.monsters)
    requires h.players.Keys == s.players.Keys && h.monsters.Keys == s.monsters.Keys
    requires forall id :: id in s.players && id != victim ==> h.players[id] == s.players[id]
    requires forall id :: id in s.monsters && id != victim ==> h.monsters[id] == s.monsters[id]
    ensures OthersUntouched(s, s', victim)
  {
  }

  lemma NoDeath(s: State, s': State, victim: Id)
    requires s' == s.(players := s'.players, monsters := s'.monsters) && Exists(s', victim)
    requires s'.players.Keys == s.players.Keys && s'.monsters.Keys == s.monsters.Keys
    requires forall id :: id in s.players && id != victim ==> s'.players[id] == s.players[id]
    requires forall id :: id in s.monsters && id != victim ==> s'.monsters[id] == s.monsters[id]
    ensures OthersUntouched(s, s', victim)
  {
  }

  /** For every player and every hit: the player is gone if and only if the hit is at least its health, and otherwise
      has lost exactly the hit and nothing else. A negative hit takes nothing. */
  lemma PlayerHurtMeans(s: State, attacker: Id, victim: Id, dmg: int, now: nat)
    requires victim in s.players && victim !in s.monsters
    ensures var s' := Hurt(s, attacker, victim, dmg, now);
            && s' == HurtPlayer(s, victim, dmg)
            && OthersUntouched(s, s', victim) && s'.spawns == s.spawns
            && (victim !in s'.players <==> dmg >= s.players[victim].health || s.players[victim].health == 0)
            && (victim in s'.players ==>
                 && s.players[victim].health == s'.players[victim].health + (if dmg < 0 then 0 else dmg)
                 && s'.players[victim] == s.players[victim].(health := s'.players[victim].health))
  {
    hide PlayerDies, OthersUntouched;
    var p, s' := s.players[victim], Hurt(s, attacker, victim, dmg, now);
    var h := s.(players := s.players[victim := p.(health := Less(p.health, dmg))]);
    if Less(p.health, dmg) == 0 {
      PlayerDeathMeans(h, victim);
      OthersBefore(s, h, s', victim);
    } else {
      NoDeath(s, s', victim);
    }
  }

  /** The same for every monster. One that is gone has its spawn point waiting for the interval; one that is left turns
      on the attacker if it fought no one, is hostile, and does not flee with the health it has left. */
  lemma MonsterHurtMeans(s: State, attacker: Id, victim: Id, dmg: int, now: nat)
    requires victim in s.monsters && victim !in s.players
    ensures var s', m := Hurt(s, attacker, victim, dmg, now), s.monsters[victim];
            && s' == HurtMonster(s, attacker, victim, dmg, now)
            && OthersUntouched(s, s', victim)
            && (victim !in s'.monsters <==> dmg >= m.health || m.health == 0)
            && s'.spawns.Keys == s.spawns.Keys
            && (forall sid :: sid in s.spawns ==>
                 var spawn := s.spawns[sid];
                 s'.spawns[sid] == if victim !in s'.monsters && m.spawnId == Some(sid)
                                   then spawn.(respawnAt := Some(now + spawn.interval)) else spawn)
            && (victim in s'.monsters ==>
                 var m' := s'.monsters[victim];
                 && m.health == m'.health + (if dmg < 0 then 0 else dmg)
                 && var flees := || (m.breed.coward && 4 * m'.health < m.breed.maxHealth)
                                 || (m.breed.runOnHealth > 0 && m'.health <= m.breed.runOnHealth);
                    var turns := m.attacking.None? && m.breed.hostile && !flees;
                    m' == m.(health := m'.health, attacking := if turns then Some(attacker) else m.attacking,
                             lastAttack := if turns then 0 else m.lastAttack))
  {
    hide IsFleeing, MonsterDies, OthersUntouched;
    var m, s' := s.monsters[victim], Hurt(s, attacker, victim, dmg, now);
    var hurt := m.(health := Less(m.health, dmg));
    FleeingMeans(hurt);
    if hurt.health == 0 {
      var h := s.(monsters := s.monsters[victim := hurt]);
      MonsterDeathMeans(h, victim, now);
      OthersBefore(s, h, s', victim);
    } else {
      NoDeath(s, s', victim);
    }
  }

  /** A hit on no one changes nothing. */
  lemma NoOneHurt(s: State, attacker: Id, victim: Id, dmg: int, now: nat)
    requires !Exists(s, victim)
    ensures Hurt(s, attacker, victim, dmg, now) == s
  {
  }

  lemma HurtKeepsSpawns(s: State, attacker: Id, victim: Id, dmg: int, now: nat)
    requires SpawnsSound(s)
    ensures SpawnsSound(Hurt(s, attacker, victim, dmg, now))
  {
    hide IsFleeing, Less, SpawnsSound, MonsterDies;
    var s' := Hurt(s, attacker, victim, dmg, now);
    if victim in s.players {
      SameCarriers(s, s');
    } else if victim in s.monsters {
      var m := s.monsters[victim];
      var hurt := m.(health := Less(m.health, dmg));
      if hurt.health == 0 {
        var h := s.(monsters := s.monsters[victim := hurt]);
        SameCarriers(s, h);
        MonsterDiesKeepsSpawns(h, victim, now);
      } else {
        SameCarriers(s, s');
      }
    }
  }

  // ---------------------------------------------------------------------
  // Swings
  // ---------------------------------------------------------------------

  /** A swing at a target that is gone can only drop the fight. */
  predicate SwingFits(s: State, target: Id, swing: Swing) {
    PositionOf(s, target).None? ==> swing.Dropped?
  }

  lemma HurtKeepsValid(s: State, attacker: Id, victim: Id, dmg: int, now: nat, ps: map<Id, Id>, ms: map<Id, Id>)
    requires Valid(s) && Exists(s, attacker) && attacker != victim && attacker < NPC_ID_BASE
    ensures var s' := Hurt(s, attacker, victim, dmg, now);
            && Valid(s')
            && (PlayersLive(s, ps) ==> PlayersLive(s', ps)) && (MonstersLive(s, ms) ==> MonstersLive(s', ms))
  {
    hide Hurt, SpawnsSound, IdsApart, TargetsSane, PlayersLive, MonstersLive, OnlyDrops;
    var s' := Hurt(s, attacker, victim, dmg, now);
    HurtKeepsSpawns(s, attacker, victim, dmg, now);
    HurtOnlyDrops(s, attacker, victim, dmg, now);
    DropsKeepTargets(s, s', victim, attacker);
    DropsKeepLive(s, s', victim, attacker, ps, ms);
  }

  /** Changing one creature's bookkeeping, and dropping its fight or keeping it, is harmless. */
  lemma BookkeepingKeepsValid(s: State, s': State, id: Id, ps: map<Id, Id>, ms: map<Id, Id>)
    requires Valid(s) && s' == s.(players := s'.players, monsters := s'.monsters)
    requires s'.players.Keys == s.players.Keys && s'.monsters.Keys == s.monsters.Keys
    requires forall k :: k in s.players ==> s'.players[k].attacking in {None, s.players[k].attacking}
    requires forall k :: k in s.monsters ==> s'.monsters[k].attacking in {None, s.monsters[k].attacking}
    requires forall k :: k in s.monsters ==> s'.monsters[k].spawnId == s.monsters[k].spawnId
    ensures Valid(s')
    ensures PlayersLive(s, ps) ==> PlayersLive(s', ps)
    ensures MonstersLive(s, ms) ==> MonstersLive(s', ms)
  {
    assert SpawnsSound(s') by {
      SameCarriers(s, s');
    }
    hide SpawnsSound;
  }

  /** Processing a player's pending fight settles it: the player ends up fighting someone who exists, or no one. */
  lemma PlayerSwingSettles(s: State, attacker: Id, target: Id, now: nat, swing: Swing, ps: map<Id, Id>, ms: map<Id, Id>)
    requires Valid(s) && attacker != target && target < NPC_ID_BASE && SwingFits(s, target, swing)
    requires PlayersLive(s, ps) && (attacker in ps ==> ps[attacker] == target)
    ensures var s' := PlayerSwing(s, attacker, target, now, swing);
            Valid(s') && PlayersLive(s', ps - {attacker}) && (MonstersLive(s, ms) ==> MonstersLive(s', ms))
  {
    hide Hurt, SpawnsSound, TargetsSane;
    if attacker in s.players {
      var p := s.players[attacker];
      if swing.Dropped? {
        var d := s.(players := s.players[attacker := p.(attacking := None)]);
        BookkeepingKeepsValid(s, d, attacker, ps, ms);
        assert PlayersLive(d, ps - {attacker});
      } else {
        assert Exists(s, target);
        var swung := s.(players := s.players[attacker := p.(lastAttack := now)]);
        BookkeepingKeepsValid(s, swung, attacker, ps, ms);
        assert PlayersLive(s, ps - {attacker});
        assert PlayersLive(swung, ps - {attacker});
        if swing.Hit? {
          HurtKeepsValid(swung, attacker, target, swing.dmg, now, ps - {attacker}, ms);
        }
      }
    }
  }

  /** The same for a monster's pending fight. */
  lemma MonsterSwingSettles(s: State, attacker: Id, target: Id, now: nat, swing: Swing, calm: bool, ps: map<Id, Id>,
                            ms: map<Id, Id>)
    requires Valid(s) && attacker != target && target < NPC_ID_BASE && SwingFits(s, target, swing)
    requires MonstersLive(s, ms) && (attacker in ms ==> ms[attacker] == target)
    ensures var s' := MonsterSwing(s, attacker, target, now, swing, calm);
            Valid(s') && MonstersLive(s', ms - {attacker}) && (PlayersLive(s, ps) ==> PlayersLive(s', ps))
  {
    hide Hurt, SpawnsSound, TargetsSane;
    if attacker in s.monsters {
      var m := s.monsters[attacker];
      if swing.Dropped? {
        var d := MonsterSwing(s, attacker, target, now, swing, calm);
        BookkeepingKeepsValid(s, d, attacker, ps, ms);
        assert MonstersLive(d, ms - {attacker});
      } else {
        assert Exists(s, target);
        var swung := s.(monsters := s.monsters[attacker := m.(lastAttack := now)]);
        BookkeepingKeepsValid(s, swung, attacker, ps, ms);
        assert MonstersLive(s, ms - {attacker});
        assert MonstersLive(swung, ms - {attacker});
        if swing.Hit? {
          HurtKeepsValid(swung, attacker, target, swing.dmg, now, ps, ms - {attacker});
        }
      }
    }
  }

  // ---------------------------------------------------------------------
  // Arrivals and departures
  // ---------------------------------------------------------------------

  /** Who arrives, by login, by a respawn, by a new spawn point or by a gamemaster: healthy and where it should be,
      fighting no one, and owing no rest. No one else changes. */
  lemma ArrivalMeans(s: State, p: Player, sid: Id, breed: Breed, interval: nat, spawnId: Option<Id>)
    requires sid in s.spawns
    ensures var s' := Login(s, p);
            && s' == s.(players := s'.players, nextId := s.nextId + 1)
            && s'.players == s.players[s.nextId := p.(attacking := None, lastAttack := 0)]
    ensures var s' := AddMonster(s, breed, spawnId);
            && s' == s.(monsters := s'.monsters, nextMonsterId := s.nextMonsterId + 1)
            && s'.monsters == s.monsters[s.nextMonsterId :=
                 Monster(breed, breed.position, breed.health, None, None, 0, spawnId)]
    ensures var spawn, s' := s.spawns[sid], Respawn(s, sid);
            && s' == AddMonster(s, spawn.breed, Some(sid)).(spawns := s'.spawns)
            && s'.spawns == s.spawns[sid := Spawn(spawn.breed, spawn.interval, None)]
    ensures var s' := AddSpawn(s, breed, interval);
            && s' == AddMonster(s, breed, Some(s.nextSpawnId)).(spawns := s'.spawns, nextSpawnId := s.nextSpawnId + 1)
            && s'.spawns == s.spawns[s.nextSpawnId := Spawn(breed, interval, None)]
  {
  }

  lemma RespawnKeepsValid(s: State, sid: Id)
    requires Valid(s) && Waiting(s, sid) && s.nextMonsterId < NPC_ID_BASE
    ensures Valid(Respawn(s, sid)) && (AllLive(s) ==> AllLive(Respawn(s, sid)))
  {
    RespawnKeepsSpawns(s, sid);
    hide SpawnsSound;
  }

  lemma AddSpawnKeepsValid(s: State, breed: Breed, interval: nat)
    requires Valid(s) && s.nextMonsterId < NPC_ID_BASE
    ensures Valid(AddSpawn(s, breed, interval)) && (AllLive(s) ==> AllLive(AddSpawn(s, breed, interval)))
  {
    AddSpawnKeepsSpawns(s, breed, interval);
    hide SpawnsSound;
  }

  /** A monster without a spawn point, made by a gamemaster. */
  lemma AddMonsterKeepsValid(s: State, breed: Breed)
    requires Valid(s) && s.nextMonsterId < NPC_ID_BASE
    ensures Valid(AddMonster(s, breed, None)) && (AllLive(s) ==> AllLive(AddMonster(s, breed, None)))
    ensures s.nextMonsterId !in s.monsters && forall sid :: !Carries(AddMonster(s, breed, None), s.nextMonsterId, sid)
  {
    SameCarriers(s, AddMonster(s, breed, None));
    hide SpawnsSound;
  }

  lemma LoginKeepsValid(s: State, p: Player)
    requires Valid(s) && s.nextId < MONSTER_ID_BASE
    ensures Valid(Login(s, p)) && (AllLive(s) ==> AllLive(Login(s, p)))
    ensures s.nextId !in s.players && Login(s, p).players[s.nextId].attacking.None?
    ensures !IsFought(Login(s, p), s.nextId) || IsFought(s, s.nextId)
  {
    SameCarriers(s, Login(s, p));
    hide SpawnsSound;
  }

  function SetTarget(s: State, pz: Position -> bool, id: Id, target: Id): State {
    if id !in s.players then s
    else if target == 0 then s.(players := s.players[id := s.players[id].(attacking := None)])
    else if target != id && !pz(s.players[id].position) && Exists(s, target) then
      s.(players := s.players[id := s.players[id].(attacking := Some(target), lastAttack := 0)])
    else s
  }

  /** Zero ends the fight. Anything else starts one exactly for a player outside protection zones and another player
      or any monster; the new fight owes no rest. */
  lemma SetTargetMeans(s: State, pz: Position -> bool, id: Id, target: Id)
    requires id in s.players
    ensures var s', p := SetTarget(s, pz, id, target), s.players[id];
            var starts := target != 0 && target != id && !pz(p.position) && (target in s.players || target in s.monsters);
            && s' == s.(players := s'.players) && s'.players == s.players[id := s'.players[id]]
            && (target == 0 ==> s'.players[id] == p.(attacking := None))
            && (starts ==> s'.players[id] == p.(attacking := Some(target), lastAttack := 0))
            && (target != 0 && !starts ==> s'.players[id] == p)
  {
  }

  lemma SetTargetKeepsValid(s: State, pz: Position -> bool, id: Id, target: Id)
    requires Valid(s)
    ensures Valid(SetTarget(s, pz, id, target)) && (AllLive(s) ==> AllLive(SetTarget(s, pz, id, target)))
  {
    SameCarriers(s, SetTarget(s, pz, id, target));
    hide SpawnsSound;
  }

  predicate IsFought(s: State, id: Id) {
    || (exists p :: p in s.players && p != id && s.players[p].attacking == Some(id))
    || (exists m :: m in s.monsters && s.monsters[m].attacking == Some(id))
  }

  /** A logout clears no fights: it keeps every fight live exactly when no one was fighting the leaver.
      Spawn points, ids and sane targets it always keeps. */
  lemma LogoutKeepsLive(s: State, id: Id)
    requires Valid(s) && AllLive(s) && id in s.players
    ensures Valid(Logout(s, id)) && (AllLive(Logout(s, id)) <==> !IsFought(s, id))
  {
    var s' := Logout(s, id);
    SameCarriers(s, s');
    hide SpawnsSound;
    assert !Exists(s', id);
    if p :| p in s.players && p != id && s.players[p].attacking == Some(id) {
      assert p in s'.players && !Live(s', s'.players[p].attacking);
    }
    if m :| m in s.monsters && s.monsters[m].attacking == Some(id) {
      assert m in s'.monsters && !Live(s', s'.monsters[m].attacking);
    }
  }

  lemma LogoutKeepsValid(s: State, id: Id)
    requires Valid(s)
    ensures Valid(Logout(s, id))
  {
    SameCarriers(s, Logout(s, id));
    hide SpawnsSound;
  }

  /** Two players, one fighting the other: the other logs out, and the fight is with no one. */
  lemma LogoutLeavesStaleFight(at: Position)
    ensures var one := Player(at, 100, 100, Some(PLAYER_ID_BASE + 1), 0);
            var s := NO_CREATURES.(players := map[PLAYER_ID_BASE := one,
                                                  PLAYER_ID_BASE + 1 := one.(attacking := None)],
                                   nextId := PLAYER_ID_BASE + 2);
            Valid(s) && AllLive(s) && !AllLive(Logout(s, PLAYER_ID_BASE + 1))
  {
    var one := Player(at, 100, 100, Some(PLAYER_ID_BASE + 1), 0);
    var s := NO_CREATURES.(players := map[PLAYER_ID_BASE := one, PLAYER_ID_BASE + 1 := one.(attacking := None)],
                           nextId := PLAYER_ID_BASE + 2);
    assert PLAYER_ID_BASE in s.players && IsFought(s, PLAYER_ID_BASE + 1);
    LogoutKeepsLive(s, PLAYER_ID_BASE + 1);
  }

  // ---------------------------------------------------------------------
  // Monsters picking fights
  // ---------------------------------------------------------------------

  predicate InSquare(at: Position, to: Position, range: int) {
    at.z == to.z && Distance(at, to) <= range
  }

  function Steps(at: Position, to: Position): nat {
    Abs(at.x - to.x) + Abs(at.y - to.y)
  }

  /** `found` is a nearest player on the floor of `at` inside the square of `range`, or there is none. */
  ghost predicate IsNearest(players: map<Id, Player>, at: Position, range: int, found: Option<Id>) {
    && (found.None? <==> forall id :: id in players ==> !InSquare(at, players[id].position, range))
    && (found.Some? ==>
          && found.value in players && InSquare(at, players[found.value].position, range)
          && forall id :: id in players && InSquare(at, players[id].position, range) ==>
               Steps(at, players[found.value].position) <= Steps(at, players[id].position))
  }

  /** That is: with no player at most `range` tiles off along each axis there is none; and no such player is fewer
      steps away, along the axes, than the one found. */
  lemma NearestMeans(players: map<Id, Player>, at: Position, range: int, found: Option<Id>, id: Id)
    requires IsNearest(players, at, range, found) && id in players && players[id].position.z == at.z
    requires var p := players[id].position;
             -range <= p.x - at.x <= range && -range <= p.y - at.y <= range
    ensures found.Some? && found.value in players && players[found.value].position.z == at.z
    ensures var p, q := players[found.value].position, players[id].position;
            && -range <= p.x - at.x <= range && -range <= p.y - at.y <= range
            && (if p.x < at.x then at.x - p.x else p.x - at.x) + (if p.y < at.y then at.y - p.y else p.y - at.y)
               <= (if q.x < at.x then at.x - q.x else q.x - at.x) + (if q.y < at.y then at.y - q.y else q.y - at.y)
  {
    assert InSquare(at, players[id].position, range);
  }

  /** What one pass of the monster AI does to the monster's fight: flee, turn on `prey`, or give up a chase
      into a protection zone. */
  function Mood(players: map<Id, Player>, pz: Position -> bool, m: Monster, prey: Option<Id>): Monster {
    var calm := if IsFleeing(m) then m.(attacking := None, followTarget := None) else m;
    var keen :=
      if && m.breed.hostile && m.breed.aggressive && !IsFleeing(m) && m.attacking.None?
         && prey.Some? && prey.value in players && !pz(players[prey.value].position)
      then calm.(attacking := prey, followTarget := prey, lastAttack := 0)
      else calm;
    if && keen.followTarget.Some? && keen.followTarget.value in players
       && pz(players[keen.followTarget.value].position)
    then keen.(attacking := None, followTarget := None)
    else keen
  }

  ghost predicate IsMood(players: map<Id, Player>, pz: Position -> bool, before: Monster, after: Monster) {
    exists prey: Option<Id> :: IsNearest(players, before.position, before.breed.aggroRange, prey)
                               && after == Mood(players, pz, before, prey)
  }

  /** A monster that flees drops its fight and its chase. One that is hostile, aggressive, not fleeing and fights no one
      turns on the nearest player, unless that one stands in a protection zone. And whoever is chased into a protection
      zone is let go. */
  lemma MoodMeans(players: map<Id, Player>, pz: Position -> bool, m: Monster, after: Monster)
    requires IsMood(players, pz, m, after)
    ensures exists prey: Option<Id> ::
      && IsNearest(players, m.position, m.breed.aggroRange, prey)
      && var keen := && m.breed.hostile && m.breed.aggressive && !IsFleeing(m) && m.attacking.None?
                     && prey.Some? && !(prey.value in players && pz(players[prey.value].position));
         var chased := if keen then prey else if IsFleeing(m) then None else m.followTarget;
         var safe := chased.Some? && chased.value in players && pz(players[chased.value].position);
         && after.attacking == (if safe || IsFleeing(m) then None else if keen then prey else m.attacking)
         && after.followTarget == (if safe then None else chased)
         && after == m.(attacking := after.attacking, followTarget := after.followTarget,
                        lastAttack := if keen then 0 else m.lastAttack)
  {
    hide IsFleeing;
    var prey: Option<Id> :| IsNearest(players, m.position, m.breed.aggroRange, prey) && after == Mood(players, pz, m, prey);
    hide InSquare, Steps;
    assert prey.Some? ==> prey.value in players;
  }

  lemma MoodKeepsValid(s: State, pz: Position -> bool, id: Id, prey: Option<Id>)
    requires Valid(s) && id in s.monsters
    ensures var s' := s.(monsters := s.monsters[id := Mood(s.players, pz, s.monsters[id], prey)]);
            Valid(s') && (AllLive(s) ==> AllLive(s'))
  {
    hide IsFleeing;
    SameCarriers(s, s.(monsters := s.monsters[id := Mood(s.players, pz, s.monsters[id], prey)]));
    hide SpawnsSound;
  }

  // ---------------------------------------------------------------------
  // When a swing lands
  // ---------------------------------------------------------------------

  /** The reach of what the attacker holds. */
  datatype Weapon = Weapon(range: int, distance: bool)

  /** `sight(from, to, sameFloor)` */
  type Sight = (Position, Position, bool) -> bool

  function Distance(a: Position, b: Position): nat {
    Max(Abs(a.x - b.x), Abs(a.y - b.y))
  }

  /** The target is gone, or a protection zone ends the fight. */
  predicate MustDrop(s: State, pz: Position -> bool, at: Position, target: Id) {
    PositionOf(s, target).None? || pz(at) || (target in s.players && pz(PositionOf(s, target).value))
  }

  predicate InReach(at: Position, to: Position, range: int) {
    at.z == to.z && Distance(at, to) <= Min(RANGED_MAX_DISTANCE, Max(range, 1))
  }

  predicate Rested(lastAttack: nat, now: nat) {
    Max(now - lastAttack, 0) >= MELEE_ATTACK_INTERVAL_MS
  }

  /** A player's swing is dropped, idle or delivered under exactly these conditions. */
  predicate IsPlayerSwing(s: State, pz: Position -> bool, sight: Sight, attacker: Id, target: Id, now: nat, w: Weapon,
                          swing: Swing) {
    if attacker !in s.players then
      swing == if PositionOf(s, target).None? then Dropped else Idle
    else
      var p := s.players[attacker];
      if MustDrop(s, pz, p.position, target) then swing.Dropped?
      else
        var to := PositionOf(s, target).value;
        if && Rested(p.lastAttack, now) && InReach(p.position, to, w.range)
           && ((w.distance || w.range > 1 || Distance(p.position, to) > 1) ==> sight(p.position, to, true))
        then (swing.Missed? && w.distance) || (swing.Hit? && swing.dmg >= 0)
        else swing.Idle?
  }

  /** A throw also needs the target inside the 8x6 window. */
  predicate CanThrow(sight: Sight, at: Position, to: Position) {
    Abs(at.x - to.x) <= 8 && Abs(at.y - to.y) <= 6 && sight(at, to, false)
  }

  predicate MayAttack(m: Monster) {
    m.breed.hostile && !IsFleeing(m) && m.breed.attack > 0
  }

  /** A monster's swing: it never misses, and never costs more than its attack value. */
  predicate IsMonsterSwing(s: State, pz: Position -> bool, sight: Sight, attacker: Id, target: Id, now: nat,
                           swing: Swing) {
    if attacker !in s.monsters then
      swing == if PositionOf(s, target).None? then Dropped else Idle
    else
      var m := s.monsters[attacker];
      if !MayAttack(m) || MustDrop(s, pz, m.position, target) then swing.Dropped?
      else
        var to := PositionOf(s, target).value;
        var range := m.breed.targetDistance;
        if && Rested(m.lastAttack, now) && InReach(m.position, to, range)
           && ((range > 1 || Distance(m.position, to) > 1) ==> CanThrow(sight, m.position, to))
        then swing.Hit? && 0 <= swing.dmg <= m.breed.attack
        else swing.Idle?
  }

  /** Whether dropping the fight also drops the chase. */
  predicate CalmsDown(s: State, pz: Position -> bool, attacker: Id, target: Id) {
    attacker in s.monsters && PositionOf(s, target).Some? &&
    var m := s.monsters[attacker];
    if MayAttack(m) then target in s.players && pz(s.players[target].position)
    else IsFleeing(m) || !m.breed.hostile
  }

  /** Within `reach` steps of the king, on one floor. */
  predicate Reaches(at: Position, to: Position, reach: int) {
    at.z == to.z && -reach <= at.x - to.x <= reach && -reach <= at.y - to.y <= reach
  }

  /** A player's swing lands exactly two seconds or more after the last one, outside protection zones, at someone who
      exists within the weapon's reach and eight tiles, and in sight unless both hold hands. Only a distance weapon
      misses. */
  lemma PlayerSwingLands(s: State, pz: Position -> bool, sight: Sight, attacker: Id, target: Id, now: nat, w: Weapon,
                         swing: Swing)
    requires IsPlayerSwing(s, pz, sight, attacker, target, now, w, swing)
    ensures swing.Hit? || swing.Missed? <==>
              && attacker in s.players && (target in s.players || target in s.npcs || target in s.monsters)
              && (var p := s.players[attacker];
                  var to := if target in s.players then s.players[target].position
                            else if target in s.npcs then s.npcs[target] else s.monsters[target].position;
                  && now >= p.lastAttack + 2000 && !pz(p.position) && !(target in s.players && pz(to))
                  && Reaches(p.position, to, 8) && (Reaches(p.position, to, w.range) || Reaches(p.position, to, 1))
                  && (!(w.distance || w.range > 1 || !Reaches(p.position, to, 1)) || sight(p.position, to, true)))
    ensures swing.Missed? ==> w.distance
    ensures swing.Hit? ==> swing.dmg >= 0
  {
  }

  /** Whoever strikes, and hits or misses, has then struck now; a miss does nothing else, and a hit hurts the target. */
  lemma SwingRests(s: State, attacker: Id, target: Id, now: nat, dmg: int, calm: bool)
    ensures attacker in s.players ==>
              var struck := s.(players := s.players[attacker := s.players[attacker].(lastAttack := now)]);
              && PlayerSwing(s, attacker, target, now, Missed) == struck
              && PlayerSwing(s, attacker, target, now, Hit(dmg)) == Hurt(struck, attacker, target, dmg, now)
    ensures attacker in s.monsters ==>
              var struck := s.(monsters := s.monsters[attacker := s.monsters[attacker].(lastAttack := now)]);
              && MonsterSwing(s, attacker, target, now, Missed, calm) == struck
              && MonsterSwing(s, attacker, target, now, Hit(dmg), calm) == Hurt(struck, attacker, target, dmg, now)
  {
    hide Hurt;
  }

  /** The same for a monster, which has to be hostile, standing its ground and able to hurt, sees no further than eight
      by six tiles, never misses, and never hits for more than its attack value. */
  lemma MonsterSwingLands(s: State, pz: Position -> bool, sight: Sight, attacker: Id, target: Id, now: nat, swing: Swing)
    requires IsMonsterSwing(s, pz, sight, attacker, target, now, swing)
    ensures swing.Hit? <==>
              && attacker in s.monsters && (target in s.players || target in s.npcs || target in s.monsters)
              && (var m := s.monsters[attacker];
                  var range := m.breed.targetDistance;
                  var to := if target in s.players then s.players[target].position
                            else if target in s.npcs then s.npcs[target] else s.monsters[target].position;
                  && m.breed.hostile && !IsFleeing(m) && m.breed.attack > 0
                  && now >= m.lastAttack + 2000 && !pz(m.position) && !(target in s.players && pz(to))
                  && Reaches(m.position, to, 8) && (Reaches(m.position, to, range) || Reaches(m.position, to, 1))
                  && (!(range > 1 || !Reaches(m.position, to, 1))
                      || (-8 <= m.position.x - to.x <= 8 && -6 <= m.position.y - to.y <= 6
                          && sight(m.position, to, false))))
    ensures !swing.Missed? && (swing.Hit? ==> attacker in s.monsters && 0 <= swing.dmg <= s.monsters[attacker].breed.attack)
  {
    hide IsFleeing;
  }

  /** A monster that drops a fight also gives up the chase exactly if it flees or is peaceful, or, willing and able to
      fight on, lost its target to a protection zone. */
  lemma CalmMeans(s: State, pz: Position -> bool, attacker: Id, target: Id)
    requires attacker in s.monsters && (target in s.players || target in s.npcs || target in s.monsters)
    ensures var m := s.monsters[attacker];
            var fights := m.breed.hostile && !IsFleeing(m) && m.breed.attack > 0;
            CalmsDown(s, pz, attacker, target) <==>
              || (!fights && (IsFleeing(m) || !m.breed.hostile))
              || (fights && target in s.players && pz(s.players[target].position))
  {
    hide IsFleeing;
  }

  lemma PlayerSwingIsFit(s: State, pz: Position -> bool, sight: Sight, attacker: Id, target: Id, now: nat, w: Weapon,
                         swing: Swing)
    requires IsPlayerSwing(s, pz, sight, attacker, target, now, w, swing)
    ensures SwingFits(s, target, swing)
  {
  }

  lemma MonsterSwingIsFit(s: State, pz: Position -> bool, sight: Sight, attacker: Id, target: Id, now: nat, swing: Swing)
    requires IsMonsterSwing(s, pz, sight, attacker, target, now, swing)
    ensures SwingFits(s, target, swing)
  {
  }

  /** Swings add no creature and no spawn point, and hand out no id. */
  predicate SameIds(s: State, s': State) {
    && s'.players.Keys <= s.players.Keys && s'.monsters.Keys <= s.monsters.Keys && s'.spawns.Keys == s.spawns.Keys
    && s'.npcs == s.npcs && s'.nextId == s.nextId && s'.nextMonsterId == s.nextMonsterId
    && s'.nextSpawnId == s.nextSpawnId
  }

  lemma PlayerSwingKeepsIds(s: State, attacker: Id, target: Id, now: nat, swing: Swing)
    ensures SameIds(s, PlayerSwing(s, attacker, target, now, swing))
  {
    hide IsFleeing, Less;
  }

  lemma MonsterSwingKeepsIds(s: State, attacker: Id, target: Id, now: nat, swing: Swing, calm: bool)
    ensures SameIds(s, MonsterSwing(s, attacker, target, now, swing, calm))
  {
    hide IsFleeing, Less;
  }

  /** Right after a snapshot of the fights, every fight is pending. */
  lemma SnapshotSettles(s: State)
    requires Valid(s)
    ensures var fights := PlayerFights(s);
            PlayersLive(s, fights) && forall id :: id in fights ==> fights[id] != id && fights[id] < NPC_ID_BASE
    ensures var fights := MonsterFights(s);
            MonstersLive(s, fights) && forall id :: id in fights ==> fights[id] != id && fights[id] < NPC_ID_BASE
  {
  }

  // ---------------------------------------------------------------------
  // One round of swings
  // ---------------------------------------------------------------------

  datatype Blow = Blow(attacker: Id, target: Id, weapon: Weapon, swing: Swing, calm: bool)

  function PlayerRound(s: State, log: seq<Blow>, now: nat): State {
    if log == [] then s
    else
      var b := log[|log| - 1];
      PlayerSwing(PlayerRound(s, log[..|log| - 1], now), b.attacker, b.target, now, b.swing)
  }

  predicate IsPlayerRound(s: State, pz: Position -> bool, sight: Sight, log: seq<Blow>, now: nat) {
    log == []
    || (var front, b := log[..|log| - 1], log[|log| - 1];
        && IsPlayerRound(s, pz, sight, front, now)
        && IsPlayerSwing(PlayerRound(s, front, now), pz, sight, b.attacker, b.target, now, b.weapon, b.swing))
  }

  function MonsterRound(s: State, log: seq<Blow>, now: nat): State {
    if log == [] then s
    else
      var b := log[|log| - 1];
      MonsterSwing(MonsterRound(s, log[..|log| - 1], now), b.attacker, b.target, now, b.swing, b.calm)
  }

  predicate IsMonsterRound(s: State, pz: Position -> bool, sight: Sight, log: seq<Blow>, now: nat) {
    log == []
    || (var front, b := log[..|log| - 1], log[|log| - 1];
        var mid := MonsterRound(s, front, now);
        && IsMonsterRound(s, pz, sight, front, now)
        && IsMonsterSwing(mid, pz, sight, b.attacker, b.target, now, b.swing)
        && (b.swing.Dropped? ==> b.calm == CalmsDown(mid, pz, b.attacker, b.target)))
  }

  function PlayerFights(s: State): map<Id, Id> {
    map id | id in s.players && s.players[id].attacking.Some? :: s.players[id].attacking.value
  }

  function MonsterFights(s: State): map<Id, Id> {
    map id | id in s.monsters && s.monsters[id].attacking.Some? :: s.monsters[id].attacking.value
  }

  /** The fights swung so far. */
  function Swung(log: seq<Blow>): map<Id, Id> {
    if log == [] then map[] else Swung(log[..|log| - 1])[log[|log| - 1].attacker := log[|log| - 1].target]
  }

  /** The log holds exactly one blow for every fight, and no other. */
  predicate OncePerFight(log: seq<Blow>, fights: map<Id, Id>) {
    Swung(log) == fights && |log| == |fights|
  }

  lemma SwungSnoc(log: seq<Blow>)
    requires log != []
    ensures var before, b := Swung(log[..|log| - 1]), log[|log| - 1];
            && Swung(log) == before[b.attacker := b.target]
            && |Swung(log)| == |before| + if b.attacker in before then 0 else 1
  {
    var before, b := Swung(log[..|log| - 1]), log[|log| - 1];
    assert Swung(log).Keys == before.Keys + {b.attacker};
    assert |Swung(log).Keys| == |before.Keys| + if b.attacker in before then 0 else 1;
  }

  lemma {:induction false} SwungKeys(log: seq<Blow>)
    ensures forall id :: id in Swung(log) <==> exists k :: 0 <= k < |log| && log[k].attacker == id
  {
    if log != [] {
      SwungKeys(log[..|log| - 1]);
      SwungSnoc(log);
      hide Swung;
      assert log == log[..|log| - 1] + [log[|log| - 1]];
    }
  }

  lemma {:induction false} SwungMeans(log: seq<Blow>)
    ensures |Swung(log)| <= |log|
    ensures |Swung(log)| == |log| ==>
              && (forall k :: 0 <= k < |log| ==> log[k].attacker in Swung(log) && Swung(log)[log[k].attacker] == log[k].target)
              && (forall j, k :: 0 <= j < k < |log| ==> log[j].attacker != log[k].attacker)
  {
    if log != [] {
      var front := log[..|log| - 1];
      SwungMeans(front);
      SwungSnoc(log);
      SwungKeys(front);
      hide Swung;
      assert forall k :: 0 <= k < |front| ==> front[k] == log[k];
    }
  }

  /** Exactly one blow for every fight, at the one fought, and no other blow. */
  lemma OnceMeans(log: seq<Blow>, fights: map<Id, Id>)
    requires OncePerFight(log, fights)
    ensures forall j, k :: 0 <= j < k < |log| ==> log[j].attacker != log[k].attacker
    ensures forall k :: 0 <= k < |log| ==> log[k].attacker in fights && log[k].target == fights[log[k].attacker]
    ensures forall id :: id in fights ==> exists k :: 0 <= k < |log| && log[k].attacker == id
  {
    hide Swung;
    SwungMeans(log);
    SwungKeys(log);
  }

  /** Part way through the fights: the ones in `todo` are still to come. */
  predicate Halfway(log: seq<Blow>, fights: map<Id, Id>, todo: map<Id, Id>) {
    && todo.Keys <= fights.Keys && (forall id :: id in todo ==> todo[id] == fights[id])
    && Swung(log) == fights - todo.Keys && |log| + |todo| == |fights|
  }

  lemma NextFight(log: seq<Blow>, fights: map<Id, Id>, todo: map<Id, Id>, b: Blow)
    requires Halfway(log, fights, todo) && b.attacker in todo && b.target == todo[b.attacker]
    ensures Halfway(log + [b], fights, todo - {b.attacker})
  {
    var log', todo' := log + [b], todo - {b.attacker};
    assert log'[..|log|] == log && todo'.Keys == todo.Keys - {b.attacker};
    assert |todo'.Keys| == |todo.Keys| - 1;
    assert Swung(log') == fights - todo'.Keys;
  }

  lemma RoundSnoc(s: State, pz: Position -> bool, sight: Sight, log: seq<Blow>, b: Blow, now: nat)
    ensures PlayerRound(s, log + [b], now) == PlayerSwing(PlayerRound(s, log, now), b.attacker, b.target, now, b.swing)
    ensures MonsterRound(s, log + [b], now)
         == MonsterSwing(MonsterRound(s, log, now), b.attacker, b.target, now, b.swing, b.calm)
    ensures IsPlayerRound(s, pz, sight, log + [b], now)
       <==> && IsPlayerRound(s, pz, sight, log, now)
            && IsPlayerSwing(PlayerRound(s, log, now), pz, sight, b.attacker, b.target, now, b.weapon, b.swing)
    ensures IsMonsterRound(s, pz, sight, log + [b], now)
       <==> (var mid := MonsterRound(s, log, now);
             && IsMonsterRound(s, pz, sight, log, now)
             && IsMonsterSwing(mid, pz, sight, b.attacker, b.target, now, b.swing)
             && (b.swing.Dropped? ==> b.calm == CalmsDown(mid, pz, b.attacker, b.target)))
  {
    hide PlayerSwing, MonsterSwing, IsPlayerSwing, IsMonsterSwing, CalmsDown;
    assert (log + [b])[..|log|] == log;
  }
}
