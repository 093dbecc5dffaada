/**
 One worker process running its own code on the shared record, while the other workers do
 whatever a schedule says between any two of its locked bodies. Every execution of this
 code is a run of the state machine.
 */
module Session {
  import opened Record
  import opened Counting
  import opened GameStates
  import opened Machine
  import opened Safety
  import opened Answers
  import opened Validator
  import opened RateLimiters
  import opened Paths

  /** The state part of an answer, before the attack's own numbers are filled in. */
  function StateOf(g: Shared): GameStateMsg {
    AttackMsg(g, NO_RESULT)
  }

  function WithResult(state: GameStateMsg, r: AttackResult): GameStateMsg {
    state.(isCrit := r.isCrit, isLucky := r.isLucky, lastDamage := r.dmgDealt,
           lastBossDice := r.bossDice, lastStreak := r.streak, dmgTaken := r.dmgTaken)
  }

  /** A history with the number of kills the record shows; other processes' names are not known here. */
  function Tally(g: Shared): Log {
    EMPTY_LOG.(kills := seq(g.stage.Index() + Bit(g.respawning), _ => ""))
  }

  lemma TallyEnough(g: Shared, log: Log, clock: int, w: Worker, m: Move)
    requires CanMove(w, m) && BossOk(g, log)
    ensures Effect(g, Tally(g), clock, w, m).w == Effect(g, log, clock, w, m).w
    ensures Effect(g, Tally(g), clock, w, m).g == Effect(g, log, clock, w, m).g
  {
  }

  /** What an attack on a live boss comes to, in the game's own numbers; whether it killed apart. */
  predicate DuelResult(r: AttackResult, dice: int, boss: int, draw: nat) {
    && r.bossDice == boss
    && (r.isLucky <==> draw == 0)
    && (r.isWin <==> draw == 0 || dice > boss)
    && (draw == 0 || dice <= boss ==> r.streak == 0)
    && r.dmgDealt == (if draw == 0 || (dice > boss && r.streak >= 3) then 999999
                      else if dice <= boss then 0
                      else if dice == 6 then 12 else dice)
    && r.dmgTaken == (if draw != 0 && dice < boss then boss + 10 else 0)
    && (r.isCrit <==> draw == 0 || (dice > boss && (dice == 6 || r.streak >= 3)))
  }

  /** What happens meanwhile: time passes, in milliseconds, or another worker makes a move. */
  datatype Event = Elapse(ms: nat) | Other(who: nat, move: Move)

  /** The worker has sent `msg` and is ready, or could not and is leaving. */
  ghost predicate Answered(w: Worker, before: seq<Answer>, sent: bool, msg: GameStateMsg) {
    if sent then
      w.pc == Ready && |w.answers| == |before| + 1 && w.answers[..|before|] == before && w.answers[|before|].msg == msg
    else
      w.pc == Leaving && w.answers == before
  }

  class Process {
    const shm: GameState
    const me: nat
    var others: seq<Worker>
    var millis: nat
    var schedule: seq<seq<Event>>
    ghost var run: Behaviour

    ghost predicate Valid()
      reads this, shm, shm.players
    {
      && run.IsRun()
      && me < |others| == |run.Last().ws|
      && run.Last().g == shm.View()
      && run.Last().clock == Clock()
      && forall i :: 0 <= i < |others| && i != me ==> run.Last().ws[i] == others[i]
    }

    /** The clock as the program reads it: whole seconds. */
    function Clock(): int
      reads this
    {
      millis / 1000
    }

    ghost function Mine(): Worker
      requires Valid()
      reads this, shm, shm.players
    {
      run.Last().ws[me]
    }

    /** A fresh server with `n` worker processes to come. */
    constructor (shm: GameState, me: nat, n: nat, now: nat, schedule: seq<seq<Event>>)
      requires shm.View() == Initial() && me < n
      ensures Valid() && this.me == me && this.shm == shm && Mine() == NEW_WORKER && run.actions == []
    {
      this.shm := shm;
      this.me := me;
      this.millis := now;
      this.schedule := schedule;
      this.others := seq(n, _ => NEW_WORKER);
      this.run := Behaviour([World(Initial(), seq(n, _ => NEW_WORKER), now / 1000, EMPTY_LOG)], []);
    }

    /** The locked body of a move, on the record. */
    method CarryOut(w: Worker, m: Move)
      requires CanMove(w, m)
      modifies shm, shm.players
      ensures shm.View() == Effect(old(shm.View()), Tally(old(shm.View())), Clock(), w, m).g
    {
      match m {
        case Join(_) => var _ := shm.PlayerJoin();
        case Fight(boss, draw) =>
          if draw == 0 {
            shm.MarkLuckyKill(Clock());
          } else {
            var _ := shm.UpdateStreak(w.name, w.pc.dice, w.pc.dice > boss);
          }
        case Strike => var _ := shm.ApplyDamage(w.pc.res.dmgDealt, w.name);
        case Spawn => shm.SpawnNextBoss();
        case Clear => shm.ClearLuckyKill();
        case Leave => shm.PlayerLeave();
        case _ =>
      }
    }

    /** Another worker's move, carried out on the shared record by the same locked bodies. */
    method Perform(i: nat, m: Move)
      requires Valid() && i != me && i < |others| && CanMove(others[i], m)
      modifies this`others, this`run, shm, shm.players
      ensures Valid() && run == old(run).Then(Act(i, m))
      ensures Mine() == old(Mine())
    {
      var w := others[i];
      var g := shm.GetSnapshot();
      ghost var s := run.Last();
      RunSafe(run, |run.actions|);
      TallyEnough(g, s.log, Clock(), w, m);
      ThenRun(run, Act(i, m));
      var o := Effect(g, Tally(g), Clock(), w, m);
      CarryOut(w, m);
      others := others[i := o.w];
      run := run.Then(Act(i, m));
    }

    /**
     Whatever the other workers do before this worker's next locked body; time may pass.
     `start` and `ms` are where this worker's current code began and its moves since.
     */
    method Interleave(ghost start: Behaviour, ghost ms: seq<Move>)
      requires Valid() && Grew(start, run, me, ms)
      modifies this`others, this`millis, this`schedule, this`run, shm, shm.players
      ensures old(millis) <= millis
      ensures Valid() && Grew(start, run, me, ms) && Mine() == old(Mine())
    {
      if schedule == [] {
        return;
      }
      var batch := schedule[0];
      schedule := schedule[1..];
      for k := 0 to |batch|
        invariant Valid() && Grew(start, run, me, ms) && Mine() == old(Mine()) && old(millis) <= millis
      {
        OthersAct(batch[k], start, ms);
      }
    }

    /** One event of the schedule, if it is someone else's and can happen. */
    method OthersAct(e: Event, ghost start: Behaviour, ghost ms: seq<Move>)
      requires Valid() && Grew(start, run, me, ms)
      modifies this`others, this`millis, this`run, shm, shm.players
      ensures old(millis) <= millis
      ensures Valid() && Grew(start, run, me, ms) && Mine() == old(Mine())
    {
      match e
      case Elapse(d) => Passes(d, start, ms);
      case Other(i, m) =>
        GrewIf(start, ms, Act(i, m));
        if i != me && i < |others| && CanMove(others[i], m) {
          Perform(i, m);
        }
    }

    /** Time passes; the clock ticks as many whole seconds as are over. */
    method Passes(d: nat, ghost start: Behaviour, ghost ms: seq<Move>)
      requires Valid() && Grew(start, run, me, ms)
      modifies this`millis, this`run
      ensures Valid() && Grew(start, run, me, ms) && Mine() == old(Mine()) && millis == old(millis) + d
    {
      ghost var tick := Tick((millis + d) / 1000 - millis / 1000);
      GrewIf(start, ms, tick);
      run := run.Then(tick);
      millis := millis + d;
    }

    lemma GrewIf(b: Behaviour, ms: seq<Move>, a: Action)
      requires Valid() && Grew(b, run, me, ms)
      ensures Enabled(run.Last(), a) && !(a.Act? && a.who == me) ==>
                run.Then(a).IsRun() && run.Then(a).Last() == Next(run.Last(), a) && Grew(b, run.Then(a), me, ms)
    {
      if Enabled(run.Last(), a) {
        GrewThen(b, run, me, ms, a);
        assert ms + [] == ms;
      }
    }

    /** This worker's locked body for `m` has been carried out on the record, the run has yet to say so. */
    ghost predicate Due(m: Move)
      reads this, shm, shm.players
    {
      && run.IsRun()
      && me < |others| == |run.Last().ws|
      && run.Last().clock == Clock()
      && (forall i :: 0 <= i < |others| && i != me ==> run.Last().ws[i] == others[i])
      && CanMove(run.Last().ws[me], m)
      && shm.View() == Effect(run.Last().g, run.Last().log, Clock(), run.Last().ws[me], m).g
    }

    ghost method Moved(m: Move, start: Behaviour, ms: seq<Move>)
      requires Due(m) && Grew(start, run, me, ms)
      modifies this`run
      ensures Valid() && Grew(start, run, me, ms + [m])
      ensures var s := old(run).Last();
              Mine() == Effect(s.g, s.log, Clock(), s.ws[me], m).w
    {
      GrewThen(start, run, me, ms, Act(me, m));
      run := run.Then(Act(me, m));
    }

    /** The spawn a killing worker owes. */
    method PayDebt(ghost start: Behaviour, ghost ms: seq<Move>)
      requires Valid() && Grew(start, run, me, ms) && Mine().pc.Spawning?
      modifies this`others, this`millis, this`schedule, this`run, shm, shm.players
      ensures old(millis) <= millis
      ensures Valid() && Grew(start, run, me, ms + [Spawn])
      ensures Mine() == old(Mine()).(pc := Finishing(old(Mine()).pc.res, old(Mine()).pc.felled))
    {
      Interleave(start, ms);
      shm.SpawnNextBoss();
      Moved(Spawn, start, ms);
    }

    /** Applies the damage; the worker that is told it killed the boss brings the next one. */
    method Blow(res: AttackResult, name: string, ghost start: Behaviour, ghost ms: seq<Move>)
      returns (result: AttackResult, ghost ms': seq<Move>)
      requires Valid() && Grew(start, run, me, ms)
      requires Mine().pc.Striking? && Mine().pc.res == res && Mine().name == name
      modifies this`others, this`millis, this`schedule, this`run, shm, shm.players
      ensures old(millis) <= millis
      ensures Valid() && Grew(start, run, me, ms') && (ms' == ms + [Strike] || ms' == ms + [Strike] + [Spawn])
      ensures Mine().pc.Finishing? && Mine().pc.res == result
      ensures result == res.(bossJustDied := result.bossJustDied)
      ensures res.bossJustDied || (result.bossJustDied <==> ms' == ms + [Strike] + [Spawn])
      ensures Mine().answers == old(Mine().answers) && Mine().name == name
    {
      result := res;
      Interleave(start, ms);
      var killed := shm.ApplyDamage(result.dmgDealt, name);
      Moved(Strike, start, ms);
      ms' := ms + [Strike];
      if killed {
        result := result.(bossJustDied := true);
        PayDebt(start, ms');
        ms' := ms' + [Spawn];
      }
    }

    /** The locked step of a roll that is not lucky: the player's streak. */
    method RecordRoll(dice: int, name: string, bossRoll: int, draw: nat, ghost start: Behaviour, ghost ms: seq<Move>)
      returns (streak: int)
      requires Valid() && Grew(start, run, me, ms) && Die(bossRoll) && 0 < draw < 1000000
      requires Mine().pc.Fighting? && Mine().pc.dice == dice && Mine().name == name
      modifies this`others, this`millis, this`schedule, this`run, shm, shm.players
      ensures old(millis) <= millis
      ensures Valid() && Grew(start, run, me, ms + [Fight(bossRoll, draw)])
      ensures Mine() == AfterRoll(old(Mine()), bossRoll, streak)
    {
      Interleave(start, ms);
      streak := shm.UpdateStreak(name, dice, dice > bossRoll);
      Moved(Fight(bossRoll, draw), start, ms);
    }

    /** The locked step of a lucky attack: the event that is broadcast. */
    method RecordLuck(name: string, bossRoll: int, ghost start: Behaviour, ghost ms: seq<Move>)
      requires Valid() && Grew(start, run, me, ms) && Die(bossRoll) && Mine().pc.Fighting?
      modifies this`others, this`millis, this`schedule, this`run, shm, shm.players
      ensures old(millis) <= millis
      ensures Valid() && Grew(start, run, me, ms + [Fight(bossRoll, 0)])
      ensures Mine() == old(Mine()).(pc := Striking(LuckyResult(bossRoll), old(Mine()).pc.epoch))
    {
      Interleave(start, ms);
      shm.MarkLuckyKill(Clock());
      Moved(Fight(bossRoll, 0), start, ms);
    }

    /** The dice of an attack on a boss that was alive at the first look. */
    method Duel(playerDice: int, name: string, bossRoll: int, draw: nat, ghost start: Behaviour, ghost ms: seq<Move>)
      returns (result: AttackResult, ghost ms': seq<Move>)
      requires Valid() && Grew(start, run, me, ms) && Die(bossRoll) && draw < 1000000
      requires Mine().pc.Fighting? && Mine().pc.dice == playerDice && Mine().name == name
      modifies this`others, this`millis, this`schedule, this`run, shm, shm.players
      ensures old(millis) <= millis
      ensures Valid() && Grew(start, run, me, ms')
      ensures var fought := ms + [Fight(bossRoll, draw)];
              ms' == fought || ms' == fought + [Strike] || ms' == fought + [Strike] + [Spawn]
      ensures Mine().pc.Finishing? && Mine().pc.res == result
      ensures DuelResult(result, playerDice, bossRoll, draw) && (result.bossJustDied <==> |ms'| == |ms| + 3)
      ensures Mine().answers == old(Mine().answers) && Mine().name == name
    {
      result := NO_RESULT.(bossDice := bossRoll);
      ms' := ms + [Fight(bossRoll, draw)];
      if draw == 0 {
        RecordLuck(name, bossRoll, start, ms);
        result := result.(isWin := true, isCrit := true, isLucky := true, dmgDealt := INSTANT_KILL_DAMAGE);
        result, ms' := Blow(result, name, start, ms');
      } else if playerDice > bossRoll {
        result := result.(isWin := true, dmgDealt := playerDice);
        if playerDice == 6 {
          result := result.(isCrit := true, dmgDealt := result.dmgDealt * 2);
        }
        var streak := RecordRoll(playerDice, name, bossRoll, draw, start, ms);
        result := result.(streak := streak);
        if streak >= 3 {
          result := result.(isCrit := true, dmgDealt := INSTANT_KILL_DAMAGE);
        }
        result, ms' := Blow(result, name, start, ms');
      } else {
        result := result.(isWin := false);
        var _ := RecordRoll(playerDice, name, bossRoll, draw, start, ms);
        result := result.(streak := 0);
        if playerDice < bossRoll {
          result := result.(dmgTaken := bossRoll + 10);
        } else {
          result := result.(dmgTaken := 0, dmgDealt := 0);
        }
      }
    }

    /** The attack's first look at the record. */
    method AttackLook(playerDice: int, ghost start: Behaviour) returns (snap: Shared)
      requires Valid() && Grew(start, run, me, []) && Mine().pc == Ready && Die(playerDice)
      modifies this`others, this`millis, this`schedule, this`run, shm, shm.players
      ensures old(millis) <= millis
      ensures Valid() && Grew(start, run, me, [AttackSnap(playerDice, playerDice)])
      ensures Mine().answers == old(Mine().answers) && Mine().name == old(Mine().name)
      ensures if Alive(snap) then Mine().pc.Fighting? && Mine().pc.dice == playerDice
              else Mine().pc == Replying(Answer(AttackMsg(snap, NO_RESULT), 0))
    {
      Interleave(start, []);
      snap := shm.GetSnapshot();
      Moved(AttackSnap(playerDice, playerDice), start, []);
      assert [] + [AttackSnap(playerDice, playerDice)] == [AttackSnap(playerDice, playerDice)];
    }

    /** The attack's last look, which becomes the answer. */
    method LastLook(ghost result: AttackResult, ghost start: Behaviour, ghost ms: seq<Move>) returns (snap: Shared)
      requires Valid() && Grew(start, run, me, ms) && Mine().pc.Finishing? && Mine().pc.res == result
      modifies this`others, this`millis, this`schedule, this`run, shm, shm.players
      ensures old(millis) <= millis
      ensures Valid() && Grew(start, run, me, ms + [Finish])
      ensures Mine().answers == old(Mine().answers) && Mine().name == old(Mine().name)
      ensures Mine().pc.Replying? && Mine().pc.answer.msg == AttackMsg(snap, result)
    {
      Interleave(start, ms);
      snap := shm.GetSnapshot();
      Moved(Finish, start, ms);
    }

    /**
     One attack, with any interleaving of the other workers. What it returns is the answer the
     state machine's worker owes after the same moves, so every theorem about runs covers it.
     */
    method ProcessAttack(playerDice: int, name: string, bossRoll: int, draw: nat)
      returns (result: AttackResult, state: GameStateMsg, ghost ms: seq<Move>)
      requires Valid() && Mine().pc == Ready && Mine().name == name
      requires Die(playerDice) && Die(bossRoll) && draw < 1000000
      modifies this`others, this`millis, this`schedule, this`run, shm, shm.players
      ensures old(millis) <= millis
      ensures Valid() && Grew(old(run), run, me, ms) && AttackPath(ms, playerDice, bossRoll, draw)
      ensures Mine().pc.Replying? && Mine().pc.answer.msg == WithResult(state, result)
      ensures if |ms| == 1 then result == AttackResult(0, 0, 0, false, false, false, false, 0)
              else DuelResult(result, playerDice, bossRoll, draw) && (result.bossJustDied <==> |ms| == 5)
      ensures Mine().answers == old(Mine().answers) && Mine().name == name
    {
      ghost var start := run;
      result := NO_RESULT;
      var snap := AttackLook(playerDice, start);
      ms := [AttackSnap(playerDice, playerDice)];
      if snap.respawning || snap.stage == Dead {
        state := StateOf(snap);
        return;
      }
      result, state, ms := FightOut(playerDice, name, bossRoll, draw, start);
    }

    /** The part of an attack after a first look that saw a live boss. */
    method FightOut(playerDice: int, name: string, bossRoll: int, draw: nat, ghost start: Behaviour)
      returns (result: AttackResult, state: GameStateMsg, ghost ms: seq<Move>)
      requires Valid() && Grew(start, run, me, [AttackSnap(playerDice, playerDice)])
      requires Die(bossRoll) && draw < 1000000
      requires Mine().pc.Fighting? && Mine().pc.dice == playerDice && Mine().name == name
      modifies this`others, this`millis, this`schedule, this`run, shm, shm.players
      ensures old(millis) <= millis
      ensures Valid() && Grew(start, run, me, ms) && AttackPath(ms, playerDice, bossRoll, draw) && |ms| > 1
      ensures DuelResult(result, playerDice, bossRoll, draw) && (result.bossJustDied <==> |ms| == 5)
      ensures Mine().pc.Replying? && Mine().pc.answer.msg == WithResult(state, result)
      ensures Mine().answers == old(Mine().answers) && Mine().name == name
    {
      result, ms := Duel(playerDice, name, bossRoll, draw, start, [AttackSnap(playerDice, playerDice)]);
      var snap := LastLook(result, start, ms);
      ms := ms + [Finish];
      state := StateOf(snap);
    }

    /** A client's attack: its dice if it sent one, else the server's, and the answer filled in. */
    method HandleAttack(raw: int, name: string, draws: Draws, sent: bool)
      returns (msg: GameStateMsg, ghost ms: seq<Move>)
      requires Valid() && Mine().pc == Ready && Mine().name == name && draws.Ok()
      modifies this`others, this`millis, this`schedule, this`run, shm, shm.players
      ensures old(millis) <= millis
      ensures Valid() && Mine().name == name
      ensures Answered(Mine(), old(Mine().answers), sent, msg)
      ensures Grew(old(run), run, me, ms + [Sent(sent)])
      ensures AttackPath(ms, PlayerDice(raw, draws.serverRoll), draws.bossRoll, draws.draw)
      ensures ms[0] == if 1 <= raw <= 6 then AttackSnap(raw, raw)
                       else AttackSnap(draws.serverRoll, draws.serverRoll)
    {
      var playerDice := raw;
      if playerDice <= 0 || playerDice > 6 {
        playerDice := draws.serverRoll;
      }
      ghost var start := run;
      var result, state;
      result, state, ms := ProcessAttack(playerDice, name, draws.bossRoll, draws.draw);
      msg := WithResult(state, result);
      AnswerSent(sent, start, ms);
    }

    ghost method AnswerSent(sent: bool, start: Behaviour, ms: seq<Move>)
      requires Valid() && Mine().pc.Replying? && Grew(start, run, me, ms)
      modifies this`run
      ensures Valid() && Mine().name == old(Mine().name) && Grew(start, run, me, ms + [Sent(sent)])
      ensures Answered(Mine(), old(Mine().answers), sent, old(Mine()).pc.answer.msg)
    {
      Moved(Sent(sent), start, ms);
    }

    /** The heartbeat's look at the record. */
    method BeatLook(ghost start: Behaviour) returns (snap: Shared)
      requires Valid() && Mine().pc == Ready && Grew(start, run, me, [])
      modifies this`others, this`millis, this`schedule, this`run, shm, shm.players
      ensures old(millis) <= millis
      ensures Valid() && Mine() == old(Mine()).(pc := Beating(snap)) && Grew(start, run, me, [BeatSnap])
    {
      Interleave(start, []);
      snap := shm.GetSnapshot();
      Moved(BeatSnap, start, []);
      assert [] + [BeatSnap] == [BeatSnap];
    }

    /** The heartbeat's second locked step, when the event it saw is old. */
    method BeatClear(ghost start: Behaviour, ghost ms: seq<Move>)
      requires Valid() && Mine().pc.Clearing? && Grew(start, run, me, ms)
      modifies this`others, this`millis, this`schedule, this`run, shm, shm.players
      ensures old(millis) <= millis
      ensures Valid() && Mine() == old(Mine()).(pc := Replying(old(Mine()).pc.answer))
      ensures Grew(start, run, me, ms + [Clear])
    {
      Interleave(start, ms);
      shm.ClearLuckyKill();
      Moved(Clear, start, ms);
    }

    ghost method BeatReads(start: Behaviour, ms: seq<Move>)
      requires Valid() && Mine().pc.Beating? && Grew(start, run, me, ms)
      modifies this`run
      ensures Valid() && Mine() == AfterClock(old(Mine()), Clock()) && Grew(start, run, me, ms + [BeatClock])
    {
      Moved(BeatClock, start, ms);
    }

    /** The clock reading of a heartbeat: lucky, or not, or too old and to be cleared. */
    method BeatVerdict(snap: Shared, ghost start: Behaviour) returns (lucky: bool, ghost ms: seq<Move>)
      requires Valid() && Mine().pc == Beating(snap) && Grew(start, run, me, [BeatSnap])
      modifies this`others, this`millis, this`schedule, this`run, shm, shm.players
      ensures old(millis) <= millis
      ensures Valid() && Mine() == old(Mine()).(pc := Replying(Answer(BeatMsg(snap, lucky), 0)))
      ensures Grew(start, run, me, ms) && BeatPath(ms) && (lucky ==> snap.luckyEvent && |ms| == 2)
    {
      Interleave(start, [BeatSnap]);
      lucky := false;
      BeatReads(start, [BeatSnap]);
      ms := [BeatSnap, BeatClock];
      assert [BeatSnap] + [BeatClock] == ms;
      if snap.luckyEvent {
        var now := Clock();
        if now - snap.luckyTime > LUCKY_SECONDS {
          BeatClear(start, ms);
          ms := ms + [Clear];
        } else {
          lucky := true;
        }
      }
    }

    /** A heartbeat: when it came, the record as it is, and whether a lucky attack is to be shown. */
    method HandleHeartbeat(name: string, sent: bool) returns (at: nat, msg: GameStateMsg, ghost ms: seq<Move>)
      requires Valid() && Mine().pc == Ready && Mine().name == name
      modifies this`others, this`millis, this`schedule, this`run, shm, shm.players
      ensures Valid() && Mine().name == name && old(millis) <= at <= millis
      ensures Answered(Mine(), old(Mine().answers), sent, msg)
      ensures Grew(old(run), run, me, ms + [Sent(sent)]) && BeatPath(ms)
    {
      ghost var start := run;
      Interleave(start, []);
      at := millis;
      var snap := BeatLook(start);
      var lucky;
      lucky, ms := BeatVerdict(snap, start);
      msg := BeatMsg(snap, lucky);
      AnswerSent(sent, start, ms);
    }

    method LeaveGame(ghost start: Behaviour, ghost ms: seq<Move>)
      requires Valid() && Grew(start, run, me, ms) && Mine().pc == Leaving
      modifies this`others, this`millis, this`schedule, this`run, shm, shm.players
      ensures old(millis) <= millis
      ensures Valid() && Grew(start, run, me, ms + [Leave])
      ensures Mine().pc == Exited && Mine().joins == old(Mine().joins)
    {
      Interleave(start, ms);
      shm.PlayerLeave();
      Moved(Leave, start, ms);
    }

    /** The end of every session: leave if joined, then exit. */
    method Cleanup(playerId: int, ghost start: Behaviour, ghost ms: seq<Move>)
      requires Valid() && Grew(start, run, me, ms)
      requires if playerId >= 0 then Mine().pc == Leaving else Mine().pc == Connect
      modifies this`others, this`millis, this`schedule, this`run, shm, shm.players
      ensures old(millis) <= millis
      ensures Valid() && Grew(start, run, me, ms + [if playerId >= 0 then Leave else Refuse])
      ensures Mine().pc == Exited && Mine().joins == old(Mine().joins)
    {
      if playerId >= 0 {
        LeaveGame(start, ms);
      } else {
        Moved(Refuse, start, ms);
      }
    }

    /** Joins under the name in the packet and answers; a failed answer ends the session. */
    method HandleJoin(field: seq<char>, sent: bool) returns (playerId: int, name: string)
      requires Valid() && Mine().pc == Connect && ValidName(CString(field))
      modifies this`others, this`millis, this`schedule, this`run, shm, shm.players
      ensures old(millis) <= millis
      ensures Valid() && Grew(old(run), run, me, [Join(name), JoinSent(sent)])
      ensures playerId >= 1 && playerId == run.Last().g.online && name == CString(field) == Mine().name
      ensures Mine().pc == (if sent then Ready else Leaving) && Mine().joins == old(Mine().joins) + 1
    {
      ghost var start := run;
      name := Copied(CString(field));
      ValidCopied(CString(field));
      Interleave(start, []);
      SomeOnline();
      playerId := shm.PlayerJoin();
      Moved(Join(name), start, []);
      Moved(JoinSent(sent), start, [] + [Join(name)]);
      assert [] + [Join(name)] + [JoinSent(sent)] == [Join(name), JoinSent(sent)];
    }

    lemma SomeOnline()
      requires Valid()
      ensures shm.onlineCount >= 0
    {
      RunAnswers(run, |run.actions|);
    }

    ghost method OneMove(m: Move)
      requires Valid() && CanMove(Mine(), m) && (m == Quit || m == Ignore)
      modifies this`run
      ensures Valid() && Grew(old(run), run, me, [m])
      ensures Mine() == old(Mine()).(pc := if m == Quit then Leaving else Ready)
    {
      ghost var start := run;
      Moved(m, start, []);
      assert [] + [m] == [m];
    }

    /** One request inside the session; `more` tells whether the loop goes on. */
    method HandleRequest(rl: RateLimiter, turn: Turn, name: string)
      returns (more: bool, beat: bool, at: nat, ghost ms: seq<Move>)
      requires Valid() && Mine().pc == Ready && Mine().name == name && turn.draws.Ok()
      modifies this`others, this`millis, this`schedule, this`run, shm, shm.players, rl
      ensures old(millis) <= millis
      ensures rl.View() == Checked(old(rl.View()), old(Clock())).0
      ensures beat <==> Checked(old(rl.View()), old(Clock())).1 && Sized(turn) && turn.opcode == OP_HEARTBEAT
      ensures old(millis) <= at <= millis
      ensures Valid() && Mine().name == name && Mine().pc == (if more then Ready else Leaving)
      ensures Grew(old(run), run, me, ms) && RequestPath(ms, Checked(old(rl.View()), old(Clock())).1, turn)
      ensures more <==> Checked(old(rl.View()), old(Clock())).1 && Welcome(turn)
      ensures |Mine().answers| == |old(Mine().answers)| + Bit(more && Asks(turn))
    {
      more, beat, at := false, false, millis;
      ms := [Quit];
      var allowed := rl.Check(Clock());
      if !allowed {
        OneMove(Quit);
        return;
      }
      if !ValidateOpcode(turn.opcode) {
        OneMove(Quit);
        return;
      }
      var sized := ValidatePacketSize(turn.opcode, turn.length);
      if !sized {
        OneMove(Quit);
        return;
      }
      if turn.opcode == OP_ATTACK {
        var _, path := HandleAttack(turn.raw, name, turn.draws, turn.sent);
        more := turn.sent;
        ms := path + [Sent(turn.sent)];
        AnsweredPath(path, turn);
      } else if turn.opcode == OP_HEARTBEAT {
        beat := true;
        var when, _, path := HandleHeartbeat(name, turn.sent);
        at := when;
        more := turn.sent;
        ms := path + [Sent(turn.sent)];
        AnsweredPath(path, turn);
      } else if turn.opcode == OP_LEAVE {
        OneMove(Quit);
      } else {
        OneMove(Ignore);
        more := true;
        ms := [Ignore];
      }
    }

    /**
     A whole connection, from the first packet to the exit of the worker process. The run grows
     by the moves of that connection and no others of this worker: a refusal, or a join and its
     reply, the requests in turn, and the leave. So the session joins exactly when its first
     packet is a join with a valid name, and leaves exactly as often as it joined.
     */
    method HandleClient(first: First, turns: seq<Turn>) returns (ghost c: Course, ghost ms: seq<Move>)
      requires Valid() && Mine() == NEW_WORKER && |first.field| == NAME_FIELD
      requires forall t :: t in turns ==> t.draws.Ok()
      modifies this`others, this`millis, this`schedule, this`run, shm, shm.players
      ensures Valid() && Grew(old(run), run, me, ms) && ClientPath(first, turns, old(millis), c, ms)
      ensures Mine().pc == Exited && Mine().leaves == Mine().joins
      ensures Mine().joins == Bit(first.received && first.opcode == 0x10 && ValidName(CString(first.field)))
    {
      ghost var start := run;
      c := Course(millis, [], Stop(millis, millis, millis));
      var rl := new RateLimiter(5, 1, Clock());
      var playerId := -1;
      var valid := false;
      if first.received && first.opcode == OP_JOIN {
        valid := ValidateUsername(first.field);
      }
      if !valid {
        Cleanup(playerId, start, []);
        ms := [Refuse];
        assert [] + [Refuse] == ms;
        Balanced();
        return;
      }
      playerId, c, ms := Play(rl, first, turns);
      Cleanup(playerId, start, ms);
      ms := ms + [Leave];
      Balanced();
    }

    /** A connection whose first packet was accepted, up to its end. */
    method Play(rl: RateLimiter, first: First, turns: seq<Turn>)
      returns (playerId: int, ghost c: Course, ghost ms: seq<Move>)
      requires Valid() && Mine() == NEW_WORKER && Admitted(first) && rl.View() == Limiter(0, Clock(), 5, 1)
      requires forall t :: t in turns ==> t.draws.Ok()
      modifies this`others, this`millis, this`schedule, this`run, shm, shm.players, rl
      ensures Valid() && Grew(old(run), run, me, ms)
      ensures ClientPath(first, turns, old(millis), c, ms + [Leave])
      ensures playerId >= 1 && Mine().pc == Leaving && Mine().joins == 1
    {
      ghost var start := run;
      c := Course(millis, [], Stop(millis, millis, millis));
      var name;
      playerId, name := HandleJoin(first.field, first.sent);
      ms := [Join(name), JoinSent(first.sent)];
      if first.sent {
        ghost var joined, loop := run, [];
        c, loop := SessionLoop(rl, turns, name);
        GrewTwice(start, joined, run, me, ms, loop);
        PathOf(first, turns, old(millis), c, loop);
        ms := ms + loop;
      }
    }

    /** Waits for what arrives next, five seconds at most. */
    method Arrival(turns: seq<Turn>, n: nat, ghost start: Behaviour, ghost ms: seq<Move>) returns (arrived: bool)
      requires Valid() && Grew(start, run, me, ms)
      modifies this`others, this`millis, this`schedule, this`run, shm, shm.players
      ensures old(millis) <= millis
      ensures Valid() && Grew(start, run, me, ms) && Mine() == old(Mine())
      ensures arrived <==> Arrives(turns, n, old(millis))
      ensures arrived <==> n < |turns| && turns[n].arrives <= old(millis) + 5000
      ensures (if arrived then turns[n].arrives else old(millis) + 5000) <= millis
    {
      var until := millis + 1000 * RECEIVE_TIMEOUT;
      arrived := n < |turns| && turns[n].arrives <= until;
      if arrived {
        until := turns[n].arrives;
      }
      Interleave(start, ms);
      if millis < until {
        Passes(until - millis, start, ms);
      }
    }

    /**
     A packet has arrived and is handled; `rs` are the requests before it, `tested` is when the
     silence was tested and `waits` when the wait for the packet began.
     */
    method OneTurn(rl: RateLimiter, turn: Turn, name: string, ghost start: Behaviour, ghost r: Limiter,
                   ghost turns: seq<Turn>, ghost rs: seq<Request>,
                   ghost from: nat, ghost tested: nat, ghost waits: nat)
      returns (more: bool, beat: bool, at: nat, ghost rs': seq<Request>)
      requires Valid() && Mine().pc == Ready && Mine().name == name && turn.draws.Ok()
      requires Arrives(turns, |rs|, waits) && turns[|rs|] == turn && turn.received && turn.arrives <= millis
      requires !Silent(LastBeat(turns, rs), tested / 1000) && tested <= waits <= millis
      requires Grew(start, run, me, Flat(rs)) && Served(r, turns, rs) && rl.View() == LimiterAfter(r, Times(rs))
      requires InOrder(rs, from, tested)
      modifies this`others, this`millis, this`schedule, this`run, shm, shm.players, rl
      ensures Valid() && Mine().name == name && Mine().pc == (if more then Ready else Leaving)
      ensures |rs'| == |rs| + 1 && Grew(start, run, me, Flat(rs')) && InOrder(rs', from, millis)
      ensures rl.View() == LimiterAfter(r, Times(rs'))
      ensures more ==> LastBeat(turns, rs') == if beat then at / 1000 else LastBeat(turns, rs)
      ensures if more then Served(r, turns, rs')
              else LoopPath(r, turns, Course(from, rs', Stop(millis, millis, millis)), Flat(rs'))
    {
      Interleave(start, Flat(rs));
      ghost var now, before := millis, run;
      ghost var path;
      more, beat, at, path := HandleRequest(rl, turn, name);
      GrewTwice(start, before, run, me, Flat(rs), path);
      rs' := rs + [Request(tested, waits, now, at, path)];
      OneMore(r, turns, rs, Request(tested, waits, now, at, path), from, millis);
    }

    /** The top of the loop: the test of the silence, and the wait for a packet. */
    method NextPacket(turns: seq<Turn>, k: nat, lastHeartbeat: int,
                      ghost start: Behaviour, ghost rs: seq<Request>, ghost from: nat)
      returns (ok: bool, ghost stop: Stop)
      requires Valid() && Grew(start, run, me, Flat(rs)) && InOrder(rs, from, millis)
      requires |rs| == k <= |turns| && lastHeartbeat == LastBeat(turns, rs)
      modifies this`others, this`millis, this`schedule, this`run, shm, shm.players
      ensures old(millis) <= millis
      ensures Valid() && Grew(start, run, me, Flat(rs)) && Mine() == old(Mine())
      ensures InOrder(rs, from, stop.tested) && stop.tested <= stop.waits <= stop.left == millis
      ensures if ok
              then !Silent(LastBeat(turns, rs), stop.tested / 1000) && Arrives(turns, |rs|, stop.waits)
                   && turns[|rs|].received && turns[|rs|].arrives <= millis
              else NothingMore(turns, rs, stop)
    {
      Interleave(start, Flat(rs));
      OrderLater(rs, from, old(millis), millis);
      stop := Stop(millis, millis, millis);
      if lastHeartbeat > 0 && Clock() - lastHeartbeat > HEARTBEAT_TIMEOUT {
        return false, stop;
      }
      Interleave(start, Flat(rs));
      stop := stop.(waits := millis);
      var arrived := Arrival(turns, k, start, Flat(rs));
      stop := stop.(left := millis);
      ok := arrived && turns[k].received;
    }

    /** The session's loop over what arrives, until something ends it. */
    method SessionLoop(rl: RateLimiter, turns: seq<Turn>, name: string) returns (ghost c: Course, ghost ms: seq<Move>)
      requires Valid() && Mine().pc == Ready && Mine().name == name && Mine().joins == 1
      requires forall t :: t in turns ==> t.draws.Ok()
      modifies this`others, this`millis, this`schedule, this`run, shm, shm.players, rl
      ensures Valid() && Grew(old(run), run, me, ms) && LoopPath(old(rl.View()), turns, c, ms)
      ensures c.began == old(millis) && Mine().pc == Leaving && Mine().joins == 1
    {
      ghost var start, r, began, rs := run, rl.View(), millis, [];
      var lastHeartbeat, k := 0, 0;
      while true
        invariant k == |rs| <= |turns|
        invariant Valid() && Mine().pc == Ready && Mine().name == name
        invariant Grew(start, run, me, Flat(rs)) && Served(r, turns, rs) && InOrder(rs, began, millis)
        invariant lastHeartbeat == LastBeat(turns, rs) && rl.View() == LimiterAfter(r, Times(rs))
        decreases |turns| - k
      {
        var ok, stop := NextPacket(turns, k, lastHeartbeat, start, rs, began);
        if !ok {
          c, ms := Course(began, rs, stop), Flat(rs) + [Quit];
          Moved(Quit, start, Flat(rs));
          break;
        }
        var more, beat, at;
        more, beat, at, rs := OneTurn(rl, turns[k], name, start, r, turns, rs, began, stop.tested, stop.waits);
        if !more {
          c, ms := Course(began, rs, Stop(millis, millis, millis)), Flat(rs);
          break;
        }
        if beat {
          lastHeartbeat := at / 1000;
        }
        k := k + 1;
      }
      Balanced();
    }

    /** What the run says of this worker's joins and leaves. */
    lemma Balanced()
      requires Valid()
      ensures SessionOk(Mine())
    {
      RunAnswers(run, |run.actions|);
      assert Mine() in run.Last().ws;
    }
  }
}
