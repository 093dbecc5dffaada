/**
 What a client is told, against what happened: every answer shows the record as it was when it
 was read, an attack's answer the numbers of its own roll, a heartbeat's answer none.
 */
module Told {
  import opened Record
  import opened Streaks
  import opened Machine
  import opened Blows
  import opened Answers

  /** The message shows the record `g`. */
  predicate ShowsRecord(m: GameStateMsg, g: Shared) {
    && m.hp == g.hp && m.maxHp == g.maxHp && m.online == g.online
    && m.stage == g.stage && m.respawning == g.respawning && m.killer == g.killer
  }

  /** The message says nothing of an attack. */
  predicate Plain(m: GameStateMsg) {
    !m.isCrit && m.lastDamage == 0 && m.lastBossDice == 0 && m.lastStreak == 0 && m.dmgTaken == 0
  }

  /** An attack with dice 1 to 6 from the client is played with it, any other with the server's roll. */
  lemma AttackBegins(b: Behaviour, h: nat, i: nat, raw: int, roll: int)
    requires b.IsRun() && h < |b.actions| && b.actions[h] == Act(i, AttackSnap(raw, roll))
    ensures i < |b.states[h].ws| && i < |b.states[h + 1].ws|
    ensures var g, w, w' := b.states[h].g, b.states[h].ws[i], b.states[h + 1].ws[i];
            && w'.answers == w.answers
            && if g.respawning || g.stage == Dead then
                 w'.pc.Replying? && ShowsRecord(w'.pc.answer.msg, g) && Plain(w'.pc.answer.msg)
                 && !w'.pc.answer.msg.isLucky
               else
                 w'.pc.Fighting? && w'.pc.dice == if 1 <= raw <= 6 then raw else roll
  {
    assert Enabled(b.states[h], b.actions[h]) && b.states[h + 1] == Next(b.states[h], b.actions[h]);
  }

  /** The message carries the numbers of the result. */
  predicate Tells(m: GameStateMsg, r: AttackResult) {
    && m.isCrit == r.isCrit && m.isLucky == r.isLucky && m.lastDamage == r.dmgDealt
    && m.lastBossDice == r.bossDice && m.lastStreak == r.streak && m.dmgTaken == r.dmgTaken
  }

  /** The same numbers, whether or not the attack killed. */
  predicate SameNumbers(r: AttackResult, q: AttackResult) {
    r == q.(bossJustDied := r.bossJustDied)
  }

  /** Answer number `n` of worker `i` was made up in step `f`, from the record and the result `q`. */
  ghost predicate MadeUp(b: Behaviour, f: nat, i: nat, m: GameStateMsg, q: AttackResult) {
    f < |b.actions| && f < |b.states| && b.actions[f] == Act(i, Finish) && ShowsRecord(m, b.states[f].g) && Tells(m, q)
  }

  /** In state `k` the worker is on its way to answer `n`, for an attack that came to `q`, or has sent it. */
  ghost predicate OnItsWay(b: Behaviour, k: nat, f: nat, i: nat, n: nat, q: AttackResult)
    requires k < |b.states| && i < |b.states[k].ws|
  {
    var w := b.states[k].ws[i];
    if n < |w.answers| then f < k && MadeUp(b, f, i, w.answers[n].msg, q)
    else
      && n == |w.answers|
      && match w.pc
         case Striking(res, _) => SameNumbers(res, q)
         case Spawning(res, _) => SameNumbers(res, q)
         case Finishing(res, _) => SameNumbers(res, q)
         case Replying(a) => f < k && MadeUp(b, f, i, a.msg, q)
         case Leaving => true
         case Exited => true
         case _ => false
  }

  lemma OneStepOn(b: Behaviour, k: nat, f: nat, i: nat, n: nat, q: AttackResult) returns (f': nat)
    requires b.IsRun() && k < |b.actions| && i < |b.states[k].ws| && OnItsWay(b, k, f, i, n, q)
    ensures i < |b.states[k + 1].ws| && OnItsWay(b, k + 1, f', i, n, q) && (f' == f || f' == k)
  {
    assert Enabled(b.states[k], b.actions[k]) && b.states[k + 1] == Next(b.states[k], b.actions[k]);
    f' := if n == |b.states[k].ws[i].answers| && b.actions[k] == Act(i, Finish) then k else f;
  }

  lemma {:induction false} Carried(b: Behaviour, j: nat, k: nat, i: nat, n: nat, q: AttackResult) returns (f: nat)
    requires b.IsRun() && j <= k < |b.states| && i < |b.states[j].ws|
    requires OnItsWay(b, j, j, i, n, q) && n == |b.states[j].ws[i].answers| && !b.states[j].ws[i].pc.Replying?
    ensures i < |b.states[k].ws| && OnItsWay(b, k, f, i, n, q) && j <= f
  {
    if j == k {
      f := j;
    } else {
      var g := Carried(b, j, k - 1, i, n, q);
      f := OneStepOn(b, k - 1, g, i, n, q);
    }
  }

  /** A roll that wins: the dice doubled for a six, or an instant kill on three equal wins in a row. */
  ghost predicate ToldWin(m: GameStateMsg, dice: int, boss: int, h: seq<Roll>, name: string) {
    && m.lastBossDice == boss && m.dmgTaken == 0 && !m.isLucky
    && m.lastDamage == (if ThreeInARow(h, name) then 999999 else if dice == 6 then 12 else dice)
    && (m.isCrit <==> dice == 6 || ThreeInARow(h, name))
    && if Followed(h, name) then IsStreak(Of(h, name), m.lastStreak) else m.lastStreak == 0
  }

  predicate ToldLoss(m: GameStateMsg, dice: int, boss: int) {
    && m.lastBossDice == boss && m.dmgTaken == (if dice == boss then 0 else boss + 10)
    && m.lastDamage == 0 && m.lastStreak == 0 && !m.isCrit && !m.isLucky
  }

  predicate ToldLuck(m: GameStateMsg, boss: int) {
    && m.lastBossDice == boss && m.lastDamage == 999999 && m.dmgTaken == 0
    && m.lastStreak == 0 && m.isCrit && m.isLucky
  }

  /**
   The first answer sent after a roll is that attack's own: it shows the record at the attack's
   last look, and the numbers of that very roll.
   */
  lemma AttackTells(b: Behaviour, j: nat, k: nat, i: nat, boss: int, draw: nat) returns (f: nat)
    requires b.IsRun() && j < k < |b.states| && b.actions[j] == Act(i, Fight(boss, draw))
    ensures i < |b.states[j].ws| && i < |b.states[k].ws| && b.states[j].ws[i].pc.Fighting?
    ensures var w, n, h := b.states[j].ws[i], |b.states[j].ws[i].answers|, b.states[j + 1].log.rolls;
            n < |b.states[k].ws[i].answers| ==>
              var m := b.states[k].ws[i].answers[n].msg;
              && j < f < k && b.actions[f] == Act(i, Finish) && ShowsRecord(m, b.states[f].g)
              && if draw == 0 then ToldLuck(m, boss)
                 else if w.pc.dice > boss then ToldWin(m, w.pc.dice, boss, h, w.name)
                 else ToldLoss(m, w.pc.dice, boss)
  {
    if draw == 0 {
      LuckyRoll(b, j, i, boss);
    } else {
      WinningRoll(b, j, i, boss, draw);
      LosingRoll(b, j, i, boss, draw);
    }
    assert Enabled(b.states[j], b.actions[j]) && b.states[j + 1] == Next(b.states[j], b.actions[j]);
    var w' := b.states[j + 1].ws[i];
    f := Carried(b, j + 1, k, i, |w'.answers|, w'.pc.res);
  }

  // Heartbeats.

  /** What a heartbeat that looked in step `h` and read the clock in step `q` says. */
  ghost predicate BeatTold(b: Behaviour, h: nat, q: nat, i: nat, m: GameStateMsg) {
    && h < q < |b.actions| && q < |b.states| && b.actions[q] == Act(i, BeatClock)
    && ShowsRecord(m, b.states[h].g) && Plain(m)
    && (m.isLucky <==> b.states[h].g.luckyEvent && b.states[q].clock - b.states[h].g.luckyTime <= 5)
  }

  ghost predicate BeatOnItsWay(b: Behaviour, h: nat, k: nat, q: nat, i: nat, n: nat)
    requires h < k < |b.states| && i < |b.states[k].ws|
  {
    var w := b.states[k].ws[i];
    if n < |w.answers| then q < k && BeatTold(b, h, q, i, w.answers[n].msg)
    else
      && n == |w.answers|
      && match w.pc
         case Beating(snap) => snap == b.states[h].g
         case Clearing(a) => q < k && BeatTold(b, h, q, i, a.msg)
         case Replying(a) => q < k && BeatTold(b, h, q, i, a.msg)
         case Leaving => true
         case Exited => true
         case _ => false
  }

  lemma BeatStepOn(b: Behaviour, h: nat, k: nat, q: nat, i: nat, n: nat) returns (q': nat)
    requires b.IsRun() && h < k < |b.actions| && i < |b.states[k].ws| && BeatOnItsWay(b, h, k, q, i, n)
    ensures i < |b.states[k + 1].ws| && BeatOnItsWay(b, h, k + 1, q', i, n)
  {
    assert Enabled(b.states[k], b.actions[k]) && b.states[k + 1] == Next(b.states[k], b.actions[k]);
    q' := if n == |b.states[k].ws[i].answers| && b.actions[k] == Act(i, BeatClock) then k else q;
  }

  /**
   The first answer sent after a heartbeat's look is that heartbeat's own: the record at the look,
   no attack, and lucky exactly when an event was seen that is at most five seconds old when the
   clock is read.
   */
  lemma {:induction false} HeartbeatTells(b: Behaviour, h: nat, k: nat, i: nat) returns (q: nat)
    requires b.IsRun() && h < k < |b.states| && b.actions[h] == Act(i, BeatSnap)
    ensures i < |b.states[h].ws| && i < |b.states[k].ws|
    ensures BeatOnItsWay(b, h, k, q, i, |b.states[h].ws[i].answers|)
    ensures var n := |b.states[h].ws[i].answers|;
            n < |b.states[k].ws[i].answers| ==> BeatTold(b, h, q, i, b.states[k].ws[i].answers[n].msg)
  {
    assert Enabled(b.states[h], b.actions[h]) && b.states[h + 1] == Next(b.states[h], b.actions[h]);
    q := h;
    if h + 1 < k {
      q := HeartbeatTells(b, h, k - 1, i);
      q := BeatStepOn(b, h, k - 1, q, i, |b.states[h].ws[i].answers|);
    }
  }
}
