/**
 What every interleaving keeps: exactly one worker owes a spawn exactly while the boss is
 respawning, the kill count follows the stage, and the raid's life is conserved.
 */
module Safety {
  import opened Record
  import opened Machine
  import opened Counting

  const RAID_HP := BOSS_1_MAX_HP + BOSS_2_MAX_HP

  /** A worker that was told its blow killed the boss and has not yet spawned the next one. */
  predicate OwesSpawn(w: Worker) {
    w.pc.Spawning?
  }

  function TotalEffective(hits: seq<Hit>): int {
    if hits == [] then 0 else TotalEffective(hits[..|hits| - 1]) + hits[|hits| - 1].effective
  }

  lemma {:induction false} TotalSnoc(hits: seq<Hit>, x: Hit)
    ensures TotalEffective(hits + [x]) == TotalEffective(hits) + x.effective
  {
    assert (hits + [x])[..|hits|] == hits;
  }

  function OnBoss(b: nat): Hit -> bool {
    (x: Hit) => x.boss == b
  }

  function HitsOn(log: Log, b: nat): nat {
    Count(log.hits, OnBoss(b))
  }

  /** Every damage an attack can ask for. */
  predicate DamageOk(d: int) {
    d in {2, 3, 4, 5, 12, INSTANT_KILL_DAMAGE}
  }

  /** The shape of the record in every reachable state. */
  ghost predicate BossOk(g: Shared, log: Log) {
    && g.maxHp == (if g.stage == Stage1 then BOSS_1_MAX_HP else BOSS_2_MAX_HP)
    && (g.stage == Dead ==> !g.respawning)
    && (if Alive(g) then 0 < g.hp <= g.maxHp else g.hp == 0)
    && |log.kills| == g.stage.Index() + Bit(g.respawning)
    && g.killer == (if Alive(g) then "" else log.kills[|log.kills| - 1])
  }

  /** Hits taken so far, against the life each boss started with. */
  ghost predicate HitsOk(g: Shared, log: Log) {
    && Remaining(g.stage, g.hp) + TotalEffective(log.hits) == RAID_HP
    && HitsOn(log, 0) <= 500 && HitsOn(log, 1) <= 1000
    && (g.stage == Stage1 ==> HitsOn(log, 1) == 0)
    && (Alive(g) ==> 2 * HitsOn(log, g.stage.Index()) + g.hp <= g.maxHp)
  }

  /** What a worker in the middle of an attack may rely on. */
  ghost predicate FightOk(g: Shared, log: Log, w: Worker) {
    && w.instants <= |log.kills|
    && (!w.pc.Connect? && !w.pc.Exited? ==> ValidName(w.name))
    && match w.pc
       case Fighting(dice, epoch) => Die(dice) && epoch <= g.stage.Index() && epoch < 2 && w.instants <= epoch
       case Striking(res, epoch) =>
         && DamageOk(res.dmgDealt) && epoch <= g.stage.Index() && epoch < 2 && w.instants <= epoch
         && (res.streak >= 3 ==> res.dmgDealt == INSTANT_KILL_DAMAGE)
       case Spawning(_, felled) => 1 <= felled <= |log.kills| && log.kills[felled - 1] == w.name
       case Finishing(_, felled) =>
         felled <= g.stage.Index() && (felled > 0 ==> felled <= |log.kills| && log.kills[felled - 1] == w.name)
       case _ => true
  }

  /** Nothing any move does ever goes back. */
  ghost predicate Advance(g: Shared, log: Log, g': Shared, log': Log) {
    && g.stage.Index() <= g'.stage.Index()
    && Remaining(g'.stage, g'.hp) <= Remaining(g.stage, g.hp)
    && log.kills <= log'.kills
    && log.hits <= log'.hits
    && log.rolls <= log'.rolls
    && log.marks <= log'.marks
  }

  lemma ValidCopied(name: string)
    requires ValidName(name)
    ensures Copied(name) == name
  {
  }

  lemma {:induction false} HitSnoc(hits: seq<Hit>, x: Hit)
    ensures TotalEffective(hits + [x]) == TotalEffective(hits) + x.effective
    ensures Count(hits + [x], OnBoss(0)) == Count(hits, OnBoss(0)) + Bit(x.boss == 0)
    ensures Count(hits + [x], OnBoss(1)) == Count(hits, OnBoss(1)) + Bit(x.boss == 1)
  {
    TotalSnoc(hits, x);
    CountSnoc(hits, x, OnBoss(0));
    CountSnoc(hits, x, OnBoss(1));
  }

  lemma StrikeHits(g: Shared, log: Log, d: int, name: string)
    requires BossOk(g, log) && HitsOk(g, log) && d >= 2
    ensures var (g', killed) := Damaged(g, d, name);
            HitsOk(g', LogStrike(log, g, d, killed, name))
  {
    if Alive(g) {
      HitSnoc(log.hits, Hit(g.stage.Index(), d, if d < g.hp then d else g.hp));
    }
  }

  lemma StrikeBoss(g: Shared, log: Log, d: int, name: string)
    requires BossOk(g, log) && d >= 0 && ValidName(name)
    ensures var (g', killed) := Damaged(g, d, name);
            var log' := LogStrike(log, g, d, killed, name);
            && BossOk(g', log') && Advance(g, log, g', log')
            && Bit(killed) + Bit(g.respawning) == Bit(g'.respawning)
            && (killed ==> log'.kills == log.kills + [name] && |log'.kills| == g.stage.Index() + 1)
            && (Alive(g) && d >= g.hp ==> killed)
  {
    ValidCopied(name);
  }

  /** What one move owes: the record and its own worker stay in shape, and the spawn debt moves with them. */
  ghost predicate MoveOk(g: Shared, log: Log, w: Worker, o: Outcome) {
    && BossOk(o.g, o.log) && HitsOk(o.g, o.log) && FightOk(o.g, o.log, o.w)
    && Advance(g, log, o.g, o.log)
    && Bit(OwesSpawn(o.w)) + Bit(g.respawning) == Bit(OwesSpawn(w)) + Bit(o.g.respawning)
  }

  lemma StrikeKilled(g: Shared, log: Log, w: Worker)
    requires BossOk(g, log) && FightOk(g, log, w) && w.pc.Striking?
    ensures var (g', killed) := Damaged(g, w.pc.res.dmgDealt, w.name);
            var log' := LogStrike(log, g, w.pc.res.dmgDealt, killed, w.name);
            FightOk(g', log', AfterStrike(w, killed, g.stage.Index() + 1))
  {
    StrikeBoss(g, log, w.pc.res.dmgDealt, w.name);
  }

  lemma StrikeSafe(g: Shared, log: Log, clock: int, w: Worker)
    requires BossOk(g, log) && HitsOk(g, log) && FightOk(g, log, w) && w.pc.Striking?
    ensures MoveOk(g, log, w, Effect(g, log, clock, w, Strike))
  {
    var d := w.pc.res.dmgDealt;
    var (g', killed) := Damaged(g, d, w.name);
    var o := Outcome(g', LogStrike(log, g, d, killed, w.name), AfterStrike(w, killed, g.stage.Index() + 1));
    assert Effect(g, log, clock, w, Strike) == o;
    assert FightOk(o.g, o.log, o.w) by {
      StrikeKilled(g, log, w);
    }
    assert HitsOk(o.g, o.log) by {
      StrikeHits(g, log, d, w.name);
    }
    StrikeBoss(g, log, d, w.name);
  }

  lemma SpawnSafe(g: Shared, log: Log, clock: int, w: Worker)
    requires BossOk(g, log) && HitsOk(g, log) && FightOk(g, log, w) && w.pc.Spawning? && g.respawning
    ensures MoveOk(g, log, w, Effect(g, log, clock, w, Spawn))
  {
  }

  lemma MarkSafe(g: Shared, log: Log, clock: int, w: Worker, m: Move)
    requires BossOk(g, log) && HitsOk(g, log) && FightOk(g, log, w) && m.Fight? && m.draw == 0 && CanMove(w, m)
    ensures MoveOk(g, log, w, Effect(g, log, clock, w, m))
  {
  }

  lemma RollSafe(g: Shared, log: Log, clock: int, w: Worker, m: Move)
    requires BossOk(g, log) && HitsOk(g, log) && FightOk(g, log, w) && m.Fight? && m.draw != 0 && CanMove(w, m)
    ensures MoveOk(g, log, w, Effect(g, log, clock, w, m))
  {
  }

  lemma LookSafe(g: Shared, log: Log, clock: int, w: Worker, m: Move)
    requires BossOk(g, log) && HitsOk(g, log) && FightOk(g, log, w) && CanMove(w, m) && (m.AttackSnap? || m.Finish?)
    ensures MoveOk(g, log, w, Effect(g, log, clock, w, m))
  {
  }

  lemma QuietSafe(g: Shared, log: Log, clock: int, w: Worker, m: Move)
    requires BossOk(g, log) && HitsOk(g, log) && FightOk(g, log, w) && CanMove(w, m)
    requires !m.Strike? && !m.Spawn? && !m.Fight? && !m.AttackSnap? && !m.Finish?
    ensures MoveOk(g, log, w, Effect(g, log, clock, w, m))
  {
  }

  lemma EffectSafe(g: Shared, log: Log, clock: int, w: Worker, m: Move)
    requires BossOk(g, log) && HitsOk(g, log) && FightOk(g, log, w) && CanMove(w, m)
    requires w.pc.Spawning? ==> g.respawning
    ensures MoveOk(g, log, w, Effect(g, log, clock, w, m))
  {
    match m
    case Strike => StrikeSafe(g, log, clock, w);
    case Spawn => SpawnSafe(g, log, clock, w);
    case Fight(_, draw) =>
      if draw == 0 {
        MarkSafe(g, log, clock, w, m);
      } else {
        RollSafe(g, log, clock, w, m);
      }
    case AttackSnap(_, _) => LookSafe(g, log, clock, w, m);
    case Finish => LookSafe(g, log, clock, w, m);
    case _ => QuietSafe(g, log, clock, w, m);
  }

  lemma FightStable(g: Shared, log: Log, g': Shared, log': Log, w: Worker)
    requires FightOk(g, log, w) && Advance(g, log, g', log')
    ensures FightOk(g', log', w)
  {
  }

  /** The inductive invariant. */
  ghost predicate Safe(s: World) {
    && BossOk(s.g, s.log)
    && HitsOk(s.g, s.log)
    && Count(s.ws, OwesSpawn) == Bit(s.g.respawning)
    && forall w :: w in s.ws ==> FightOk(s.g, s.log, w)
  }

  lemma StartSafe(s: World)
    requires Start(s)
    ensures Safe(s)
  {
    CountNone(s.ws, OwesSpawn);
  }

  lemma StepSafe(s: World, a: Action)
    requires Safe(s) && Enabled(s, a)
    ensures Safe(Next(s, a))
    ensures Advance(s.g, s.log, Next(s, a).g, Next(s, a).log)
  {
    match a
    case Tick(_) =>
    case Act(i, m) =>
      var w := s.ws[i];
      if OwesSpawn(w) {
        CountPositive(s.ws, i, OwesSpawn);
      }
      EffectSafe(s.g, s.log, s.clock, w, m);
      assert MoveOk(s.g, s.log, w, Effect(s.g, s.log, s.clock, w, m));
      var s' := Next(s, a);
      CountUpdate(s.ws, i, s'.ws[i], OwesSpawn);
      forall v | v in s'.ws
        ensures FightOk(s'.g, s'.log, v)
      {
        if v != s'.ws[i] {
          FightStable(s.g, s.log, s'.g, s'.log, v);
        }
      }
  }

  lemma {:induction false} RunSafe(b: Behaviour, k: nat)
    requires b.IsRun() && k < |b.states|
    ensures Safe(b.states[k])
  {
    if k == 0 {
      StartSafe(b.states[0]);
    } else {
      RunSafe(b, k - 1);
      assert Enabled(b.states[k - 1], b.actions[k - 1]) && b.states[k] == Next(b.states[k - 1], b.actions[k - 1]);
      StepSafe(b.states[k - 1], b.actions[k - 1]);
    }
  }

  lemma AdvanceTwice(r: World, s: World, t: World)
    requires Advance(r.g, r.log, s.g, s.log) && Advance(s.g, s.log, t.g, t.log)
    ensures Advance(r.g, r.log, t.g, t.log)
  {
  }

  lemma RunStepAdvance(b: Behaviour, k: nat)
    requires b.IsRun() && k < |b.actions|
    ensures Advance(b.states[k].g, b.states[k].log, b.states[k + 1].g, b.states[k + 1].log)
  {
    RunSafe(b, k);
    assert Enabled(b.states[k], b.actions[k]) && b.states[k + 1] == Next(b.states[k], b.actions[k]);
    StepSafe(b.states[k], b.actions[k]);
  }

  lemma {:induction false} RunAdvance(b: Behaviour, j: nat, k: nat)
    requires b.IsRun() && j <= k < |b.states|
    ensures Advance(b.states[j].g, b.states[j].log, b.states[k].g, b.states[k].log)
  {
    if j < k {
      RunAdvance(b, j, k - 1);
      RunStepAdvance(b, k - 1);
      AdvanceTwice(b.states[j], b.states[k - 1], b.states[k]);
    }
  }

  // What every reachable state satisfies, in the game's own terms.

  /** Exactly one worker owes a spawn while the boss respawns, none otherwise; a live boss has life. */
  lemma SpawnOwedOnce(b: Behaviour, k: nat)
    requires b.IsRun() && k < |b.states|
    ensures var s := b.states[k];
            && Count(s.ws, OwesSpawn) == Bit(s.g.respawning)
            && |s.log.kills| == s.g.stage.Index() + Bit(s.g.respawning) <= 2
            && (Alive(s.g) ==> 0 < s.g.hp <= s.g.maxHp == if s.g.stage == Stage1 then 1000 else 2000)
            && (s.g.hp == 0 <==> s.g.respawning || s.g.stage == Dead)
  {
    RunSafe(b, k);
  }

  /** No boss is skipped: the stage moves by one, only by a spawn, and only while the boss is down. */
  lemma StagesInOrder(b: Behaviour, k: nat)
    requires b.IsRun() && k < |b.actions|
    ensures var s, s' := b.states[k], b.states[k + 1];
            s'.g.stage == s.g.stage
            || (s'.g.stage.Index() == s.g.stage.Index() + 1 && s.g.respawning && !s'.g.respawning
                && b.actions[k].Act? && b.actions[k].move.Spawn?)
    ensures b.actions[k].Act? && b.actions[k].move.Spawn? ==> b.states[k + 1].g.stage != b.states[k].g.stage
  {
    RunSafe(b, k);
    var s := b.states[k];
    match b.actions[k]
    case Tick(_) =>
    case Act(i, m) =>
      if m == Spawn {
        CountPositive(s.ws, i, OwesSpawn);
      }
  }

  /** The hit a state adds to the history, if the action is a strike on a boss that can be hit. */
  predicate Lands(s: World, a: Action) {
    a.Act? && a.move.Strike? && Alive(s.g)
  }

  lemma StrikeLife(g: Shared, log: Log, clock: int, w: Worker)
    requires BossOk(g, log) && FightOk(g, log, w) && w.pc.Striking?
    ensures var o, d := Effect(g, log, clock, w, Strike), w.pc.res.dmgDealt;
            var before, after := Remaining(g.stage, g.hp), Remaining(o.g.stage, o.g.hp);
            if Alive(g) then
              && o.log.hits == log.hits + [Hit(g.stage.Index(), d, before - after)]
              && before - after == (if d < g.hp then d else g.hp) > 0
            else
              o.log.hits == log.hits && after == before
  {
  }

  lemma OtherLife(g: Shared, log: Log, clock: int, w: Worker, m: Move)
    requires BossOk(g, log) && CanMove(w, m) && m != Strike && (m == Spawn ==> g.respawning)
    ensures var o := Effect(g, log, clock, w, m);
            o.log.hits == log.hits && Remaining(o.g.stage, o.g.hp) == Remaining(g.stage, g.hp)
  {
  }

  /** A landed strike takes min(damage, hp) off the raid; nothing else, a spawn included, changes it. */
  lemma RaidLifeStep(b: Behaviour, k: nat)
    requires b.IsRun() && k < |b.actions|
    ensures var s, s', a := b.states[k], b.states[k + 1], b.actions[k];
            var before, after := Remaining(s.g.stage, s.g.hp), Remaining(s'.g.stage, s'.g.hp);
            if Lands(s, a) then
              var d := s.ws[a.who].pc.res.dmgDealt;
              && s'.log.hits == s.log.hits + [Hit(s.g.stage.Index(), d, before - after)]
              && before - after == (if d < s.g.hp then d else s.g.hp) > 0
            else
              s'.log.hits == s.log.hits && after == before
  {
    RunSafe(b, k);
    var s := b.states[k];
    match b.actions[k]
    case Tick(_) =>
    case Act(i, m) =>
      assert FightOk(s.g, s.log, s.ws[i]);
      if m == Strike {
        StrikeLife(s.g, s.log, s.clock, s.ws[i]);
      } else {
        if m == Spawn {
          CountPositive(s.ws, i, OwesSpawn);
        }
        OtherLife(s.g, s.log, s.clock, s.ws[i], m);
      }
  }

  /** What is left and what was taken always add up; the raid is over only at exactly 3000. */
  lemma RaidLifeConserved(b: Behaviour, k: nat)
    requires b.IsRun() && k < |b.states|
    ensures var s := b.states[k];
            && Remaining(s.g.stage, s.g.hp) + TotalEffective(s.log.hits) == 3000
            && (TotalEffective(s.log.hits) == 3000
                <==> s.g.stage == Dead || (s.g.stage == Stage2 && s.g.respawning))
  {
    RunSafe(b, k);
  }

  /** Every hit asks for at least 2, so the first boss takes at most 500 and the second 1000. */
  lemma HitsLimited(b: Behaviour, k: nat)
    requires b.IsRun() && k < |b.states|
    ensures HitsOn(b.states[k].log, 0) <= 500 && HitsOn(b.states[k].log, 1) <= 1000
    ensures forall w :: w in b.states[k].ws && w.pc.Striking? ==> DamageOk(w.pc.res.dmgDealt)
  {
    RunSafe(b, k);
  }
}
