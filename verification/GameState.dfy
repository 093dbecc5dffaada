/**
 The shared record as it lives in memory: every method is one locked body, updating the
 fields and the player table in place.
 */
module GameStates {
  import opened Record

  class GameState {
    var currentHp: int
    var maxHp: int
    var stage: Stage
    var onlineCount: int
    var isRespawning: bool
    var lastKiller: string
    var hasLuckyKillEvent: bool
    var luckyKillTimestamp: int
    const players: array<PlayerHistory>

    ghost function View(): Shared
      reads this, players
    {
      Shared(currentHp, maxHp, stage, onlineCount, isRespawning, lastKiller,
             hasLuckyKillEvent, luckyKillTimestamp, players[..])
    }

    constructor ()
      ensures View() == Initial() && fresh(players)
      ensures currentHp == maxHp == 1000 && stage == Stage1 && onlineCount == 0 && !isRespawning && lastKiller == ""
      ensures !hasLuckyKillEvent && players.Length == 100 && forall p :: p in players[..] ==> p.name == ""
    {
      stage := Stage1;
      maxHp := BOSS_1_MAX_HP;
      currentHp := BOSS_1_MAX_HP;
      onlineCount := 0;
      isRespawning := false;
      hasLuckyKillEvent := false;
      luckyKillTimestamp := 0;
      lastKiller := "";
      players := new PlayerHistory[MAX_TRACKED_PLAYERS](_ => FREE_SLOT);
      new;
      assert players[..] == Initial().players;
    }

    method PlayerJoin() returns (count: int)
      modifies this`onlineCount
      ensures View() == Joined(old(View()))
      ensures count == View().online
    {
      onlineCount := onlineCount + 1;
      count := onlineCount;
    }

    method PlayerLeave()
      modifies this`onlineCount
      ensures View() == Left(old(View()))
      ensures onlineCount == if old(onlineCount) > 0 then old(onlineCount) - 1 else old(onlineCount)
    {
      if onlineCount > 0 {
        onlineCount := onlineCount - 1;
      }
    }

    method GetSnapshot() returns (copy: Shared)
      ensures copy == View()
    {
      copy := Shared(currentHp, maxHp, stage, onlineCount, isRespawning, lastKiller,
                     hasLuckyKillEvent, luckyKillTimestamp, players[..]);
    }

    method ApplyDamage(damage: int, attacker: string) returns (justKilled: bool)
      modifies this`currentHp, this`isRespawning, this`lastKiller
      ensures (View(), justKilled) == Damaged(old(View()), damage, attacker)
      ensures justKilled <==> !old(isRespawning) && stage != Dead && old(currentHp) - damage <= 0
      ensures justKilled ==> lastKiller == if |attacker| <= 31 then attacker else attacker[..31]
    {
      justKilled := false;
      if isRespawning || stage == Dead {
        return;
      }
      currentHp := currentHp - damage;
      if currentHp <= 0 {
        currentHp := 0;
        if !isRespawning {
          justKilled := true;
          isRespawning := true;
          lastKiller := Copied(attacker);
        }
      }
    }

    method SpawnNextBoss()
      modifies this`stage, this`maxHp, this`currentHp, this`isRespawning, this`lastKiller
      ensures View() == Spawned(old(View()))
    {
      if stage == Stage1 {
        stage := Stage2;
        maxHp := BOSS_2_MAX_HP;
        currentHp := BOSS_2_MAX_HP;
      } else {
        stage := Dead;
        currentHp := 0;
      }
      isRespawning := false;
      if stage == Stage2 {
        lastKiller := "";
      }
    }

    method UpdateStreak(name: string, dice: int, win: bool) returns (streak: int)
      modifies players
      ensures View() == old(View()).(players := Tracked(old(players[..]), name, dice, win).0)
      ensures streak == Tracked(old(players[..]), name, dice, win).1
    {
      ghost var before := players[..];
      streak := 0;
      var slot := -1;

      for i := 0 to players.Length
        invariant slot == -1
        invariant players[..] == before
        invariant FindName(before, name, 0) == FindName(before, name, i)
      {
        if players[i].name != "" && players[i].name == name {
          slot := i;
          break;
        }
      }
      assert slot == -1 ==> FindName(before, name, 0) == |before|;
      assert slot != -1 ==> FindName(before, name, 0) == slot;

      if slot == -1 {
        for i := 0 to players.Length
          invariant slot == -1
          invariant players[..] == before
          invariant FindFree(before, 0) == FindFree(before, i)
        {
          if players[i].name == "" {
            slot := i;
            players[i] := players[i].(name := Copied(name));
            players[i] := players[i].(streak := 0);
            players[i] := players[i].(lastDice := 0);
            break;
          }
        }
        assert slot == -1 ==> FindFree(before, 0) == |before|;
        assert slot != -1 ==> FindFree(before, 0) == slot
                              && players[..] == before[slot := PlayerHistory(Copied(name), 0, 0)];
      }

      if slot != -1 {
        if win {
          if players[slot].lastDice == dice {
            players[slot] := players[slot].(streak := players[slot].streak + 1);
          } else {
            players[slot] := players[slot].(streak := 1);
          }
        } else {
          players[slot] := players[slot].(streak := 0);
        }
        players[slot] := players[slot].(lastDice := dice);
        streak := players[slot].streak;
      }
      assert players[..] == Tracked(before, name, dice, win).0;
    }

    method MarkLuckyKill(now: int)
      modifies this`hasLuckyKillEvent, this`luckyKillTimestamp
      ensures View() == Marked(old(View()), now)
    {
      hasLuckyKillEvent := true;
      luckyKillTimestamp := now;
    }

    method ClearLuckyKill()
      modifies this`hasLuckyKillEvent, this`luckyKillTimestamp
      ensures View() == Cleared(old(View())) && !hasLuckyKillEvent && luckyKillTimestamp == 0
    {
      hasLuckyKillEvent := false;
      luckyKillTimestamp := 0;
    }
  }
}
