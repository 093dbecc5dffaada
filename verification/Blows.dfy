/**
 Instant-kill blows and streaks. An instant blow is only dealt by an attack that saw a live
 boss and during which somebody killed one, and there are two kills in all.
 */
module Blows {
  import opened Record
  import opened Streaks
  import opened Machine
  import opened Safety
  import opened Counting

  /** In any run a worker deals at most two blows of 999999, and never more than there were kills. */
  lemma InstantBlowsLimited(b: Behaviour, k: nat, i: nat)
    requires b.IsRun() && k < |b.states| && i < |b.states[k].ws|
    ensures b.states[k].ws[i].instants <= |b.states[k].log.kills| <= 2
  {
    RunSafe(b, k);
    assert b.states[k].ws[i] in b.states[k].ws;
  }

  /** Step `h` is the first look of the attack that worker `i` is in at state `k`. */
  ghost predicate FirstLook(b: Behaviour, h: nat, k: nat, i: nat)
    requires b.Linked()
  {
    && h < k < |b.states| && b.actions[h].Act? && b.actions[h].who == i && b.actions[h].move.AttackSnap?
    && forall x :: h < x < k && b.actions[x].Act? && b.actions[x].who == i ==> !b.actions[x].move.AttackSnap?
  }

  lemma EpochStep(s: World, a: Action, i: nat)
    requires Enabled(s, a) && i < |s.ws|
    ensures var w' := Next(s, a).ws[i];
            w'.pc.Fighting? || w'.pc.Striking? ==>
              if a.Act? && a.who == i && a.move.AttackSnap? then w'.pc.epoch == |s.log.kills|
              else (s.ws[i].pc.Fighting? || s.ws[i].pc.Striking?) && w'.pc.epoch == s.ws[i].pc.epoch
  {
  }

  lemma StartsNew(b: Behaviour, i: nat)
    requires b.IsRun() && i < |b.states[0].ws|
    ensures b.states[0].ws[i] == NEW_WORKER
  {
    assert b.states[0].ws[i] in b.states[0].ws;
  }

  /** An attack that is fighting or about to strike has looked, and its epoch is the kills of that moment. */
  lemma {:induction false} LookedBefore(b: Behaviour, k: nat, i: nat) returns (h: nat)
    requires b.IsRun() && k < |b.states| && i < |b.states[k].ws|
    requires b.states[k].ws[i].pc.Fighting? || b.states[k].ws[i].pc.Striking?
    ensures FirstLook(b, h, k, i) && b.states[k].ws[i].pc.epoch == |b.states[h].log.kills|
  {
    if k == 0 {
      StartsNew(b, i);
    } else {
      var s, a := b.states[k - 1], b.actions[k - 1];
      assert Enabled(s, a) && b.states[k] == Next(s, a);
      EpochStep(s, a, i);
      if a.Act? && a.who == i && a.move.AttackSnap? {
        h := k - 1;
      } else {
        h := LookedBefore(b, k - 1, i);
      }
    }
  }

  /** A blow of 999999 lands, or falls on a boss already down, after a kill made since its own attack's first look. */
  lemma InstantBlowNeedsKill(b: Behaviour, k: nat, i: nat) returns (h: nat)
    requires b.IsRun() && k < |b.actions| && b.actions[k] == Act(i, Strike)
    ensures i < |b.states[k].ws| && b.states[k].ws[i].pc.Striking? && FirstLook(b, h, k, i)
    ensures b.states[k].ws[i].pc.res.dmgDealt == 999999 ==>
              |b.states[h].log.kills| < |b.states[k + 1].log.kills|
              && b.states[k + 1].ws[i].instants == b.states[k].ws[i].instants + 1
  {
    var s := b.states[k];
    assert Enabled(s, b.actions[k]);
    RunSafe(b, k);
    var w := s.ws[i];
    h := LookedBefore(b, k, i);
    assert FightOk(s.g, s.log, w);
    StrikeBoss(s.g, s.log, w.pc.res.dmgDealt, w.name);
  }

  function Connected(name: string): Worker -> bool {
    (w: Worker) => w.name == name && !w.pc.Connect? && !w.pc.Exited?
  }

  /** In an attack that first looked at `epoch` kills and has not rolled yet. */
  function Undecided(name: string, epoch: nat): Worker -> bool {
    (w: Worker) => w.name == name && w.pc.Fighting? && w.pc.epoch == epoch
  }

  /** In an attack of that epoch whose roll was a combo and whose blow is still to come. */
  function ComboReady(name: string, epoch: nat): Worker -> bool {
    (w: Worker) => w.name == name && w.pc.Striking? && w.pc.epoch == epoch && w.pc.res.streak >= 3
  }

  function ComboOf(name: string, epoch: nat): ComboRoll -> bool {
    (c: ComboRoll) => c.name == name && c.epoch == epoch
  }

  function Combos(log: Log, name: string, epoch: nat): nat {
    Count(log.combos, ComboOf(name, epoch))
  }

  /** At most `n` workers are connected under `name`. */
  predicate Crowd(s: World, name: string, n: nat) {
    Count(s.ws, Connected(name)) <= n
  }

  /**
   Combo rolls of one name and one epoch: none before the epoch; during it all of them are
   still waiting to strike; after it, they and the undecided attacks were all open at once.
   */
  ghost predicate ComboOk(s: World, name: string, epoch: nat, n: nat) {
    var kills := |s.log.kills|;
    if kills < epoch then
      Combos(s.log, name, epoch) == 0
    else if kills == epoch then
      Combos(s.log, name, epoch) <= Count(s.ws, ComboReady(name, epoch))
    else
      Combos(s.log, name, epoch) + Count(s.ws, Undecided(name, epoch)) <= n
  }

  lemma OpenAtOnce(s: World, name: string, epoch: nat)
    ensures Count(s.ws, ComboReady(name, epoch)) + Count(s.ws, Undecided(name, epoch)) <= Count(s.ws, Connected(name))
  {
    CountSplit(s.ws, ComboReady(name, epoch), Undecided(name, epoch), Connected(name));
  }

  lemma ComboFight(s: World, i: nat, m: Move, name: string, epoch: nat, n: nat)
    requires Safe(s) && Enabled(s, Act(i, m)) && m.Fight? && ComboOk(s, name, epoch, n)
    ensures ComboOk(Next(s, Act(i, m)), name, epoch, n)
  {
    var s' := Next(s, Act(i, m));
    assert FightOk(s.g, s.log, s.ws[i]);
    CountUpdate(s.ws, i, s'.ws[i], ComboReady(name, epoch));
    CountUpdate(s.ws, i, s'.ws[i], Undecided(name, epoch));
    assert s.log.combos + [] == s.log.combos;
    CountSnoc(s.log.combos, ComboRoll(s.ws[i].name, s.ws[i].pc.epoch), ComboOf(name, epoch));
  }

  lemma ComboStrike(s: World, i: nat, name: string, epoch: nat, n: nat)
    requires Safe(s) && Enabled(s, Act(i, Strike)) && ComboOk(s, name, epoch, n) && Crowd(s, name, n)
    ensures ComboOk(Next(s, Act(i, Strike)), name, epoch, n)
  {
    var w, s' := s.ws[i], Next(s, Act(i, Strike));
    assert FightOk(s.g, s.log, w);
    StrikeBoss(s.g, s.log, w.pc.res.dmgDealt, w.name);
    OpenAtOnce(s, name, epoch);
    CountUpdate(s.ws, i, s'.ws[i], ComboReady(name, epoch));
    CountUpdate(s.ws, i, s'.ws[i], Undecided(name, epoch));
  }

  lemma ComboQuiet(s: World, i: nat, m: Move, name: string, epoch: nat, n: nat)
    requires Safe(s) && Enabled(s, Act(i, m)) && !m.Fight? && !m.Strike? && ComboOk(s, name, epoch, n)
    ensures ComboOk(Next(s, Act(i, m)), name, epoch, n)
  {
    var s' := Next(s, Act(i, m));
    CountUpdate(s.ws, i, s'.ws[i], ComboReady(name, epoch));
    CountUpdate(s.ws, i, s'.ws[i], Undecided(name, epoch));
  }

  lemma ComboStep(s: World, a: Action, name: string, epoch: nat, n: nat)
    requires Safe(s) && Enabled(s, a) && ComboOk(s, name, epoch, n) && Crowd(s, name, n)
    ensures ComboOk(Next(s, a), name, epoch, n)
  {
    match a
    case Tick(_) =>
    case Act(i, m) =>
      if m.Fight? {
        ComboFight(s, i, m, name, epoch, n);
      } else if m.Strike? {
        ComboStrike(s, i, name, epoch, n);
      } else {
        ComboQuiet(s, i, m, name, epoch, n);
      }
  }

  function OfName(name: string): ComboRoll -> bool {
    (c: ComboRoll) => c.name == name
  }

  lemma {:induction false} CombosByEpoch(cs: seq<ComboRoll>, name: string)
    requires forall c :: c in cs ==> c.epoch < 2
    ensures Count(cs, OfName(name)) == Count(cs, ComboOf(name, 0)) + Count(cs, ComboOf(name, 1))
  {
    if cs != [] {
      CombosByEpoch(cs[..|cs| - 1], name);
    }
  }

  /** A slot's streak is paid for by combo rolls of its name, from the third equal win on. */
  ghost predicate StreaksPaid(ps: seq<PlayerHistory>, cs: seq<ComboRoll>) {
    && (forall c :: c in cs ==> c.epoch < 2)
    && forall p :: p in ps && p.name != "" ==> p.streak <= 2 + Count(cs, OfName(p.name))
  }

  lemma TrackedSlot(ps: seq<PlayerHistory>, name: string, dice: int, win: bool)
    requires ValidName(name)
    ensures var (ps', streak) := Tracked(ps, name, dice, win);
            forall p :: p in ps' ==>
              p in ps || (p.name == name && p.streak == streak
                          && (streak <= 1 || PlayerHistory(name, dice, streak - 1) in ps))
  {
    ValidCopied(name);
  }

  lemma StreaksPaidRoll(ps: seq<PlayerHistory>, cs: seq<ComboRoll>, name: string, dice: int, win: bool, epoch: nat)
    requires StreaksPaid(ps, cs) && ValidName(name) && epoch < 2
    ensures var (ps', streak) := Tracked(ps, name, dice, win);
            StreaksPaid(ps', cs + if streak >= 3 then [ComboRoll(name, epoch)] else [])
  {
    var (ps', streak) := Tracked(ps, name, dice, win);
    TrackedSlot(ps, name, dice, win);
    assert cs + [] == cs;
    forall p | p in ps' && p.name != ""
      ensures p.streak <= 2 + Count(cs + if streak >= 3 then [ComboRoll(name, epoch)] else [], OfName(p.name))
    {
      CountSnoc(cs, ComboRoll(name, epoch), OfName(p.name));
    }
  }

  /** Only a roll that is not lucky touches the table and what is recorded of it. */
  predicate IsRoll(a: Action) {
    a.Act? && a.move.Fight? && a.move.draw != 0
  }

  lemma TableUntouched(s: World, a: Action)
    requires Enabled(s, a) && !IsRoll(a)
    ensures var s' := Next(s, a);
            s'.g.players == s.g.players && s'.log.rolls == s.log.rolls && s'.log.combos == s.log.combos
  {
  }

  lemma StreaksPaidStep(s: World, a: Action)
    requires Safe(s) && Enabled(s, a) && StreaksPaid(s.g.players, s.log.combos)
    ensures StreaksPaid(Next(s, a).g.players, Next(s, a).log.combos)
  {
    if IsRoll(a) {
      var w := s.ws[a.who];
      assert FightOk(s.g, s.log, w);
      StreaksPaidRoll(s.g.players, s.log.combos, w.name, w.pc.dice, w.pc.dice > a.move.boss, w.pc.epoch);
    } else {
      TableUntouched(s, a);
    }
  }

  lemma {:induction false} RunCombos(b: Behaviour, k: nat, name: string, n: nat)
    requires b.IsRun() && k < |b.states| && forall j :: 0 <= j <= k ==> Crowd(b.states[j], name, n)
    ensures StreaksPaid(b.states[k].g.players, b.states[k].log.combos)
    ensures ComboOk(b.states[k], name, 0, n) && ComboOk(b.states[k], name, 1, n)
  {
    if k > 0 {
      var s, a := b.states[k - 1], b.actions[k - 1];
      RunCombos(b, k - 1, name, n);
      RunSafe(b, k - 1);
      StreaksPaidStep(s, a);
      ComboStep(s, a, name, 0, n);
      ComboStep(s, a, name, 1, n);
    }
  }

  /**
   With never more than `n` connections at a time under one name, that name's streak stays
   at or below 2 + 2n: every roll past two equal wins belongs to one of two kills.
   */
  lemma StreakLimited(b: Behaviour, k: nat, name: string, n: nat)
    requires b.IsRun() && k < |b.states| && name != ""
    requires forall j :: 0 <= j <= k ==> Crowd(b.states[j], name, n)
    ensures forall p :: p in b.states[k].g.players && p.name == name ==> p.streak <= 2 + 2 * n
  {
    var s := b.states[k];
    RunCombos(b, k, name, n);
    RunSafe(b, k);
    CombosByEpoch(s.log.combos, name);
    assert Crowd(s, name, n);
    OpenAtOnce(s, name, 0);
    OpenAtOnce(s, name, 1);
  }

  // The streak table over whole runs.

  lemma TableMove(s: World, a: Action)
    requires Safe(s) && Enabled(s, a) && TableOk(s.g.players, s.log.rolls)
    ensures TableOk(Next(s, a).g.players, Next(s, a).log.rolls)
    ensures forall i :: 0 <= i < MAX_TRACKED_PLAYERS && s.g.players[i].name != "" ==>
              Next(s, a).g.players[i].name == s.g.players[i].name
  {
    if IsRoll(a) {
      var w := s.ws[a.who];
      var x := Roll(w.name, w.pc.dice, w.pc.dice > a.move.boss);
      assert FightOk(s.g, s.log, w);
      TableStep(s.g.players, s.log.rolls, x);
      assert Next(s, a).log.rolls == s.log.rolls + [x];
    } else {
      TableUntouched(s, a);
    }
  }

  lemma {:induction false} RunTable(b: Behaviour, k: nat)
    requires b.IsRun() && k < |b.states|
    ensures TableOk(b.states[k].g.players, b.states[k].log.rolls)
  {
    if k == 0 {
      EmptyTable();
    } else {
      var s, a := b.states[k - 1], b.actions[k - 1];
      RunTable(b, k - 1);
      RunSafe(b, k - 1);
      TableMove(s, a);
    }
  }

  /** The three most recent rolls of a name are wins with one dice value, and the name is followed. */
  ghost predicate ThreeInARow(h: seq<Roll>, name: string) {
    Followed(h, name) && Combo(Of(h, name), 3)
  }

  /**
   A winning roll that is not lucky is recorded, reports the longest run of equal wins the
   player is on (0 when the table has no place for the name), and deals 999999 exactly when
   the player's last three rolls are equal wins, otherwise the dice, doubled for a six.
   */
  lemma WinningRoll(b: Behaviour, k: nat, i: nat, boss: int, draw: nat)
    requires b.IsRun() && k < |b.actions| && b.actions[k] == Act(i, Fight(boss, draw)) && draw != 0
    ensures i < |b.states[k].ws| && b.states[k].ws[i].pc.Fighting?
    ensures b.states[k].ws[i].pc.dice > boss ==>
      var w, w', h' := b.states[k].ws[i], b.states[k + 1].ws[i], b.states[k + 1].log.rolls;
      && w'.pc.Striking?
      && h' == b.states[k].log.rolls + [Roll(w.name, w.pc.dice, true)]
      && (if Followed(h', w.name) then IsStreak(Of(h', w.name), w'.pc.res.streak) else w'.pc.res.streak == 0)
      && (w'.pc.res.dmgDealt == 999999 <==> ThreeInARow(h', w.name))
      && (!ThreeInARow(h', w.name) ==> w'.pc.res.dmgDealt == if w.pc.dice == 6 then 12 else w.pc.dice)
      && w'.pc.res.bossDice == boss && w'.pc.res.dmgTaken == 0 && !w'.pc.res.isLucky
      && (w'.pc.res.isCrit <==> w.pc.dice == 6 || ThreeInARow(h', w.name))
      && w'.answers == w.answers
  {
    var s := b.states[k];
    assert Enabled(s, b.actions[k]);
    var w := s.ws[i];
    RunTable(b, k);
    RunSafe(b, k);
    assert FightOk(s.g, s.log, w);
    if w.pc.dice > boss {
      TableStep(s.g.players, s.log.rolls, Roll(w.name, w.pc.dice, true));
    }
  }

  /**
   A roll that does not beat the boss is recorded as lost, ends the player's streak and strikes
   no blow; the player takes the boss's dice plus ten unless it is a draw.
   */
  lemma LosingRoll(b: Behaviour, k: nat, i: nat, boss: int, draw: nat)
    requires b.IsRun() && k < |b.actions| && b.actions[k] == Act(i, Fight(boss, draw)) && draw != 0
    ensures i < |b.states[k].ws| && b.states[k].ws[i].pc.Fighting?
    ensures b.states[k].ws[i].pc.dice <= boss ==>
      var w, w', h' := b.states[k].ws[i], b.states[k + 1].ws[i], b.states[k + 1].log.rolls;
      && w'.pc.Finishing? && w'.pc.felled == 0 && w'.instants == w.instants
      && w'.pc.res.bossDice == boss && w'.pc.res.dmgDealt == 0 && w'.pc.res.streak == 0
      && !w'.pc.res.isCrit && !w'.pc.res.isLucky && w'.answers == w.answers
      && w'.pc.res.dmgTaken == (if w.pc.dice == boss then 0 else boss + 10)
      && h' == b.states[k].log.rolls + [Roll(w.name, w.pc.dice, false)]
      && forall p :: p in b.states[k + 1].g.players && p.name == w.name ==> p.streak == 0
  {
    var s := b.states[k];
    assert Enabled(s, b.actions[k]);
    var w := s.ws[i];
    RunTable(b, k);
    RunTable(b, k + 1);
    RunSafe(b, k);
    assert FightOk(s.g, s.log, w);
    if w.pc.dice <= boss {
      var x, h := Roll(w.name, w.pc.dice, false), s.log.rolls;
      forall p | p in b.states[k + 1].g.players && p.name == w.name
        ensures p.streak == 0
      {
        LostStreak(b.states[k + 1].g.players, h, x, p);
      }
    }
  }

  /** A lucky attack deals 999999 whatever the dice, and does not touch the table. */
  lemma LuckyRoll(b: Behaviour, k: nat, i: nat, boss: int)
    requires b.IsRun() && k < |b.actions| && b.actions[k] == Act(i, Fight(boss, 0))
    ensures i < |b.states[k].ws| && b.states[k].ws[i].pc.Fighting?
    ensures var w, w' := b.states[k].ws[i], b.states[k + 1].ws[i];
      && w'.pc.Striking? && w'.answers == w.answers
      && w'.pc.res.bossDice == boss && w'.pc.res.dmgDealt == 999999 && w'.pc.res.dmgTaken == 0
      && w'.pc.res.isCrit && w'.pc.res.isLucky && w'.pc.res.streak == 0
      && b.states[k + 1].log.rolls == b.states[k].log.rolls && b.states[k + 1].g.players == b.states[k].g.players
  {
    assert Enabled(b.states[k], b.actions[k]) && b.states[k + 1] == Next(b.states[k], b.actions[k]);
  }

  /** A name's streak is 0 right after it lost. */
  lemma LostStreak(ps: seq<PlayerHistory>, h: seq<Roll>, x: Roll, p: PlayerHistory)
    requires TableOk(ps, h + [x]) && p in ps && p.name == x.name != "" && !x.win
    ensures p.streak == 0
  {
    OfStep(h, x, x.name);
    var r := Of(h + [x], x.name);
    assert SlotOk(p, h + [x]);
    assert r[|r| - 1] == x;
    assert !Combo(r, 1);
    assert Combo(r, 1) <==> 1 <= p.streak;
  }

  lemma SlotStays(b: Behaviour, k: nat, i: nat)
    requires b.IsRun() && k < |b.actions| && i < MAX_TRACKED_PLAYERS
    ensures |b.states[k].g.players| == |b.states[k + 1].g.players| == MAX_TRACKED_PLAYERS
    ensures b.states[k].g.players[i].name != "" ==> b.states[k + 1].g.players[i].name == b.states[k].g.players[i].name
  {
    RunTable(b, k);
    RunSafe(b, k);
    TableMove(b.states[k], b.actions[k]);
  }

  ghost predicate FullTable(s: World) {
    |s.g.players| == MAX_TRACKED_PLAYERS
  }

  /** Names keep their slots: what is in the table stays where it is. */
  lemma {:induction false} SlotsNeverMove(b: Behaviour, j: nat, k: nat, i: nat)
    requires b.IsRun() && j < k < |b.states| && i < MAX_TRACKED_PLAYERS
    ensures FullTable(b.states[j]) && FullTable(b.states[k])
    ensures b.states[j].g.players[i].name != "" ==> b.states[k].g.players[i].name == b.states[j].g.players[i].name
  {
    SlotStays(b, k - 1, i);
    if j < k - 1 {
      SlotsNeverMove(b, j, k - 1, i);
    }
  }
}
