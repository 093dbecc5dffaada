/** The numbers an attack reports: every answer is one the rules of the dice allow. */
module Results {
  import opened Record
  import opened Machine
  import opened Safety
  import opened Answers

  /**
   An attack that met no live boss reports nothing. Any other is a draw, a loss to a boss that
   rolled higher, a lucky win, or a win over a boss that rolled lower; three equal wins or luck,
   and nothing else, make an instant kill.
   */
  predicate Fair(damage: int, taken: int, boss: int, crit: bool, lucky: bool, streak: int) {
    if boss == 0 then
      damage == 0 && taken == 0 && !crit && streak == 0
    else
      && Die(boss)
      && (if damage > 0 then DamageOk(damage) && taken == 0 else damage == 0 && (taken == 0 || taken == boss + 10))
      && (crit <==> damage == 12 || damage == INSTANT_KILL_DAMAGE)
      && (damage == INSTANT_KILL_DAMAGE <==> lucky || streak >= 3)
      && (streak > 0 ==> damage > 0 && !lucky)
      && (damage > 0 && !lucky ==> damage > boss)
      && (taken > 0 ==> boss >= 2)
  }

  predicate ResultOk(r: AttackResult) {
    Fair(r.dmgDealt, r.dmgTaken, r.bossDice, r.isCrit, r.isLucky, r.streak) && (r.isLucky ==> r.bossDice != 0)
  }

  predicate ReportOk(m: GameStateMsg) {
    Fair(m.lastDamage, m.dmgTaken, m.lastBossDice, m.isCrit, m.isLucky, m.lastStreak)
  }

  ghost predicate WorkerOk(w: Worker) {
    && (w.pc.Fighting? ==> Die(w.pc.dice))
    && (w.pc.Striking? ==> ResultOk(w.pc.res))
    && (w.pc.Spawning? ==> ResultOk(w.pc.res))
    && (w.pc.Finishing? ==> ResultOk(w.pc.res))
    && forall a :: a in Line(w) ==> ReportOk(a.msg)
  }

  lemma RollReported(dice: int, boss: int, streak: int)
    requires Die(dice) && Die(boss)
    ensures ResultOk(LuckyResult(boss)) && ResultOk(NO_RESULT)
    ensures dice > boss ==> ResultOk(WinResult(dice, boss, streak))
    ensures dice <= boss ==> ResultOk(LossResult(dice, boss))
  {
  }

  /** The answers a worker has after a move: those it had, or the one it just made up. */
  lemma LineAfter(g: Shared, log: Log, clock: int, w: Worker, m: Move)
    requires CanMove(w, m)
    ensures forall a :: a in Line(Effect(g, log, clock, w, m).w) ==>
              || a in Line(w)
              || (w.pc.Finishing? && a.msg == AttackMsg(g, w.pc.res))
              || a.msg == AttackMsg(g, NO_RESULT)
              || (exists snap, lucky :: a.msg == BeatMsg(snap, lucky))
  {
    match m
    case BeatClock =>
      var snap := w.pc.snap;
      assert Owed(AfterClock(w, clock).pc)[0].msg in [BeatMsg(snap, false), BeatMsg(snap, snap.luckyEvent)];
    case _ =>
  }

  lemma WorkerStep(g: Shared, log: Log, clock: int, w: Worker, m: Move)
    requires CanMove(w, m) && WorkerOk(w)
    ensures WorkerOk(Effect(g, log, clock, w, m).w)
  {
    LineAfter(g, log, clock, w, m);
    if m.Fight? {
      RollReported(w.pc.dice, m.boss, Tracked(g.players, w.name, w.pc.dice, w.pc.dice > m.boss).1);
    }
  }

  lemma {:induction false} RunResults(b: Behaviour, k: nat, i: nat)
    requires b.IsRun() && k < |b.states| && i < |b.states[k].ws|
    ensures WorkerOk(b.states[k].ws[i])
  {
    if k == 0 {
      assert b.states[0].ws[i] in b.states[0].ws;
    } else {
      var s, a := b.states[k - 1], b.actions[k - 1];
      assert Enabled(s, a) && b.states[k] == Next(s, a);
      RunResults(b, k - 1, i);
      if a.Act? && a.who == i {
        WorkerStep(s.g, s.log, s.clock, s.ws[i], a.move);
      }
    }
  }

  /** Every answer ever sent reports an outcome the rules of the dice allow. */
  lemma AnswersFollowTheDice(b: Behaviour, k: nat, i: nat, x: nat)
    requires b.IsRun() && k < |b.states| && i < |b.states[k].ws| && x < |b.states[k].ws[i].answers|
    ensures ReportOk(b.states[k].ws[i].answers[x].msg)
  {
    RunResults(b, k, i);
    var w := b.states[k].ws[i];
    assert w.answers[x] in Line(w);
  }
}
