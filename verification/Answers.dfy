/**
 What the players are told: successive answers on a connection never go back, every answer
 after the last boss agrees on the victor, and the online count is exact.
 */
module Answers {
  import opened Record
  import opened Machine
  import opened Safety
  import opened Counting

  /** The second report is no earlier in the raid than the first. */
  predicate Later(m: GameStateMsg, n: GameStateMsg) {
    m.stage.Index() <= n.stage.Index() && Remaining(n.stage, n.hp) <= Remaining(m.stage, m.hp)
  }

  /** A report agrees with the kills so far: who is named, and when. */
  ghost predicate Truthful(log: Log, m: GameStateMsg) {
    && m.stage.Index() + Bit(m.respawning) <= |log.kills|
    && m.maxHp == (if m.stage == Stage1 then BOSS_1_MAX_HP else BOSS_2_MAX_HP)
    && m.hp <= m.maxHp && m.online >= 1
    && (m.stage == Dead ==> m.hp == 0 && !m.respawning && m.killer == log.kills[1])
    && (m.stage != Dead && m.respawning ==> m.hp == 0 && m.killer == log.kills[m.stage.Index()])
    && (m.stage != Dead && !m.respawning ==> m.hp > 0 && m.killer == "")
  }

  /** An answer of `name` is truthful, not ahead of the record, and shows the boss its own attack felled as gone. */
  ghost predicate AnswerOk(g: Shared, log: Log, name: string, a: Answer) {
    && Truthful(log, a.msg)
    && Later(a.msg, BeatMsg(g, false))
    && a.felled <= a.msg.stage.Index()
    && (a.felled > 0 ==> a.felled <= |log.kills| && log.kills[a.felled - 1] == name)
  }

  /** The answer a worker has already made up but not sent. */
  function Owed(pc: Pc): seq<Answer> {
    match pc
    case Beating(snap) => [Answer(BeatMsg(snap, false), 0)]
    case Clearing(a) => [a]
    case Replying(a) => [a]
    case _ => []
  }

  function Line(w: Worker): seq<Answer> {
    w.answers + Owed(w.pc)
  }

  ghost predicate LineOk(g: Shared, log: Log, w: Worker) {
    && (w.pc.Connect? ==> Line(w) == [])
    && (forall a :: a in Line(w) ==> AnswerOk(g, log, w.name, a))
    && forall i, j :: 0 <= i < j < |Line(w)| ==> Later(Line(w)[i].msg, Line(w)[j].msg)
  }

  /** Each session joins at most once and leaves as often as it joined. */
  predicate SessionOk(w: Worker) {
    match w.pc
    case Connect => w.joins == 0 && w.leaves == 0
    case Exited => w.joins == w.leaves <= 1
    case _ => w.joins == 1 && w.leaves == 0
  }

  predicate Online(w: Worker) {
    !w.pc.Connect? && !w.pc.Exited?
  }

  ghost predicate AnswersOk(s: World) {
    && s.g.online == Count(s.ws, Online)
    && forall w :: w in s.ws ==> LineOk(s.g, s.log, w) && SessionOk(w)
  }

  lemma LineStable(g: Shared, log: Log, g': Shared, log': Log, w: Worker)
    requires LineOk(g, log, w) && Advance(g, log, g', log')
    ensures LineOk(g', log', w)
  {
  }

  /** A report taken now is truthful and closes the line. */
  lemma LineGrows(g: Shared, log: Log, w: Worker, w': Worker, a: Answer)
    requires LineOk(g, log, w) && Line(w') == Line(w) + [a] && w'.name == w.name && !w'.pc.Connect?
    requires AnswerOk(g, log, w.name, a) && Later(BeatMsg(g, false), a.msg)
    ensures LineOk(g, log, w')
  {
    forall i, j | 0 <= i < j < |Line(w')|
      ensures Later(Line(w')[i].msg, Line(w')[j].msg)
    {
      if j == |Line(w)| {
        assert Line(w')[i] == Line(w)[i] && Line(w)[i] in Line(w);
      } else {
        assert Line(w')[i] == Line(w)[i] && Line(w')[j] == Line(w)[j];
      }
    }
  }

  lemma LineSame(g: Shared, log: Log, w: Worker, w': Worker)
    requires LineOk(g, log, w) && Line(w') == Line(w) && w'.name == w.name && !w'.pc.Connect?
    ensures LineOk(g, log, w')
  {
  }

  /** A worker that drops its unsent answer, or has none, keeps only what it sent. */
  lemma LineCut(g: Shared, log: Log, w: Worker, w': Worker)
    requires LineOk(g, log, w) && Line(w') == w.answers && w'.name == w.name && !w'.pc.Connect?
    ensures LineOk(g, log, w')
  {
    forall i, j | 0 <= i < j < |Line(w')|
      ensures Later(Line(w')[i].msg, Line(w')[j].msg)
    {
      assert Line(w)[i] == Line(w')[i] && Line(w)[j] == Line(w')[j];
    }
    forall a | a in Line(w')
      ensures AnswerOk(g, log, w'.name, a)
    {
      assert a in Line(w);
    }
  }

  /** Replacing the unsent answer by one that reports the same raid keeps the line. */
  lemma LineTail(g: Shared, log: Log, w: Worker, plain: Worker, w': Worker, a: Answer)
    requires LineOk(g, log, w) && |Owed(w.pc)| == 1 && plain.name == w.name == w'.name
    requires Line(plain) == w.answers && Line(w') == w.answers + [a] && !w'.pc.Connect?
    requires Later(a.msg, Owed(w.pc)[0].msg) && Later(Owed(w.pc)[0].msg, a.msg) && AnswerOk(g, log, w.name, a)
    ensures LineOk(g, log, w')
  {
    forall i, j | 0 <= i < j < |Line(w')|
      ensures Later(Line(w')[i].msg, Line(w')[j].msg)
    {
      assert Later(Line(w)[i].msg, Line(w)[j].msg);
      assert i < |w.answers| ==> Line(w')[i] == Line(w)[i];
      assert j < |w.answers| ==> Line(w')[j] == Line(w)[j];
    }
    forall x | x in Line(w')
      ensures AnswerOk(g, log, w'.name, x)
    {
      assert x in w.answers ==> x in Line(w);
    }
  }

  predicate ReadsRecord(m: Move) {
    m.AttackSnap? || m.Finish? || m.BeatSnap?
  }

  lemma LookMove(s: World, i: nat, m: Move)
    requires Safe(s) && Enabled(s, Act(i, m)) && LineOk(s.g, s.log, s.ws[i]) && ReadsRecord(m)
    requires s.g.online == Count(s.ws, Online)
    ensures LineOk(s.g, s.log, Effect(s.g, s.log, s.clock, s.ws[i], m).w)
  {
    var w := s.ws[i];
    CountPositive(s.ws, i, Online);
    var w' := Effect(s.g, s.log, s.clock, w, m).w;
    assert FightOk(s.g, s.log, w);
    if Owed(w'.pc) == [] {
      LineSame(s.g, s.log, w, w');
    } else {
      var a := Owed(w'.pc)[0];
      assert Line(w') == Line(w) + [a];
      LineGrows(s.g, s.log, w, w', a);
    }
  }

  lemma ClockMove(s: World, i: nat)
    requires Enabled(s, Act(i, BeatClock)) && LineOk(s.g, s.log, s.ws[i])
    ensures LineOk(s.g, s.log, Effect(s.g, s.log, s.clock, s.ws[i], BeatClock).w)
  {
    var w := s.ws[i];
    var w' := Effect(s.g, s.log, s.clock, w, BeatClock).w;
    assert Owed(w.pc)[0] == Line(w)[|w.answers|] && Owed(w.pc)[0] in Line(w);
    LineTail(s.g, s.log, w, w.(pc := Ready), w', Owed(w'.pc)[0]);
  }

  lemma SentMove(s: World, i: nat, ok: bool)
    requires Enabled(s, Act(i, Sent(ok))) && LineOk(s.g, s.log, s.ws[i])
    ensures LineOk(s.g, s.log, Effect(s.g, s.log, s.clock, s.ws[i], Sent(ok)).w)
  {
    var w := s.ws[i];
    var w' := Effect(s.g, s.log, s.clock, w, Sent(ok)).w;
    if ok {
      assert Line(w') == Line(w);
      LineSame(s.g, s.log, w, w');
    } else {
      assert Line(w') == w.answers;
      LineCut(s.g, s.log, w, w');
    }
  }

  /** Every other move leaves the line as it was. */
  lemma LineKept(s: World, i: nat, m: Move)
    requires Enabled(s, Act(i, m)) && !ReadsRecord(m) && !m.BeatClock? && !m.Sent? && !m.Join?
    ensures var w, w' := s.ws[i], Effect(s.g, s.log, s.clock, s.ws[i], m).w;
            Line(w') == Line(w) && w'.name == w.name && !w'.pc.Connect?
  {
  }

  lemma LineMove(s: World, i: nat, m: Move)
    requires Safe(s) && Enabled(s, Act(i, m)) && LineOk(s.g, s.log, s.ws[i])
    requires s.g.online == Count(s.ws, Online)
    ensures LineOk(s.g, s.log, Effect(s.g, s.log, s.clock, s.ws[i], m).w)
  {
    if ReadsRecord(m) {
      LookMove(s, i, m);
    } else if m.BeatClock? {
      ClockMove(s, i);
    } else if m.Sent? {
      SentMove(s, i, m.ok);
    } else if m.Join? {
      assert Line(s.ws[i]) == [];
    } else {
      LineKept(s, i, m);
      LineSame(s.g, s.log, s.ws[i], Effect(s.g, s.log, s.clock, s.ws[i], m).w);
    }
  }

  lemma OnlineMove(s: World, i: nat, m: Move)
    requires Enabled(s, Act(i, m)) && s.g.online == Count(s.ws, Online) && SessionOk(s.ws[i])
    ensures var s' := Next(s, Act(i, m));
            s'.g.online == Count(s'.ws, Online) && SessionOk(s'.ws[i])
    ensures m == Leave ==> s.g.online > 0
  {
    var s' := Next(s, Act(i, m));
    CountUpdate(s.ws, i, s'.ws[i], Online);
    if m == Leave {
      CountPositive(s.ws, i, Online);
    }
  }

  lemma AnswersStep(s: World, a: Action)
    requires Safe(s) && AnswersOk(s) && Enabled(s, a)
    ensures AnswersOk(Next(s, a))
  {
    match a
    case Tick(_) =>
    case Act(i, m) =>
      var s' := Next(s, a);
      assert s.ws[i] in s.ws;
      StepSafe(s, a);
      LineMove(s, i, m);
      OnlineMove(s, i, m);
      forall w | w in s'.ws
        ensures LineOk(s'.g, s'.log, w) && SessionOk(w)
      {
        if w == s'.ws[i] {
          LineStable(s.g, s.log, s'.g, s'.log, w);
        } else {
          assert w in s.ws;
          LineStable(s.g, s.log, s'.g, s'.log, w);
        }
      }
  }

  lemma {:induction false} RunAnswers(b: Behaviour, k: nat)
    requires b.IsRun() && k < |b.states|
    ensures AnswersOk(b.states[k])
  {
    if k == 0 {
      CountNone(b.states[0].ws, Online);
    } else {
      RunAnswers(b, k - 1);
      RunSafe(b, k - 1);
      AnswersStep(b.states[k - 1], b.actions[k - 1]);
    }
  }

  // What players and operators see, over every run.

  lemma SentAnswer(b: Behaviour, k: nat, i: nat, x: nat)
    requires b.IsRun() && k < |b.states| && i < |b.states[k].ws| && x < |b.states[k].ws[i].answers|
    ensures var s := b.states[k];
            AnswerOk(s.g, s.log, s.ws[i].name, s.ws[i].answers[x]) && Safe(s)
  {
    var w := b.states[k].ws[i];
    RunAnswers(b, k);
    RunSafe(b, k);
    assert LineOk(b.states[k].g, b.states[k].log, w);
    assert Line(w)[x] == w.answers[x] && w.answers[x] in Line(w);
  }

  /** Successive answers on one connection, attacks and heartbeats mixed, never go back. */
  lemma AnswersNeverGoBack(b: Behaviour, k: nat, i: nat, x: nat, y: nat)
    requires b.IsRun() && k < |b.states| && i < |b.states[k].ws| && x < y < |b.states[k].ws[i].answers|
    ensures Later(b.states[k].ws[i].answers[x].msg, b.states[k].ws[i].answers[y].msg)
  {
    var w := b.states[k].ws[i];
    RunAnswers(b, k);
    assert LineOk(b.states[k].g, b.states[k].log, w);
    assert Line(w)[x] == w.answers[x] && Line(w)[y] == w.answers[y];
  }

  /** Every answer ever sent with the last stage is the same victory: boss down, one victor. */
  lemma VictoryAgreement(b: Behaviour, k: nat, i: nat, x: nat)
    requires b.IsRun() && k < |b.states| && i < |b.states[k].ws| && x < |b.states[k].ws[i].answers|
    ensures var s, m := b.states[k], b.states[k].ws[i].answers[x].msg;
            m.stage == Dead ==> |s.log.kills| == 2 && m.hp == 0 && !m.respawning && m.killer == s.log.kills[1]
  {
    SentAnswer(b, k, i, x);
  }

  /** The second boss falls in step `j`, to a strike of worker `i`. */
  ghost predicate FellsLast(b: Behaviour, j: nat, i: nat) {
    && b.IsRun() && j < |b.actions|
    && b.actions[j] == Act(i, Strike)
    && |b.states[j].log.kills| == 1 && |b.states[j + 1].log.kills| == 2
  }

  /** A worker on its way to answer number `n`, the one for the attack that felled the last boss. */
  ghost predicate BearsVictory(w: Worker, n: nat) {
    && n <= |w.answers| && !w.pc.Connect?
    && if n < |w.answers| then w.answers[n].felled == 2
       else match w.pc
            case Spawning(_, felled) => felled == 2
            case Finishing(_, felled) => felled == 2
            case Replying(a) => a.felled == 2
            case Leaving => true
            case Exited => true
            case _ => false
  }

  lemma VictoryStep(s: World, a: Action, i: nat, n: nat)
    requires i < |s.ws| && Enabled(s, a) && BearsVictory(s.ws[i], n)
    ensures |Next(s, a).ws| == |s.ws| && BearsVictory(Next(s, a).ws[i], n) && Next(s, a).ws[i].name == s.ws[i].name
  {
  }

  lemma VictoryBegins(s: World, i: nat)
    requires Safe(s) && Enabled(s, Act(i, Strike))
    requires |s.log.kills| == 1 && |Next(s, Act(i, Strike)).log.kills| == 2
    ensures var w' := Next(s, Act(i, Strike)).ws[i];
            BearsVictory(w', |s.ws[i].answers|) && w'.name == s.ws[i].name
  {
    assert FightOk(s.g, s.log, s.ws[i]);
  }

  lemma {:induction false} VictoryCarried(b: Behaviour, j: nat, k: nat, i: nat)
    requires FellsLast(b, j, i) && j < k < |b.states|
    ensures i < |b.states[j].ws| == |b.states[k].ws|
    ensures BearsVictory(b.states[k].ws[i], |b.states[j].ws[i].answers|)
    ensures b.states[k].ws[i].name == b.states[j].ws[i].name
  {
    assert Enabled(b.states[k - 1], b.actions[k - 1]);
    if j < k - 1 {
      VictoryCarried(b, j, k - 1, i);
      VictoryStep(b.states[k - 1], b.actions[k - 1], i, |b.states[j].ws[i].answers|);
    } else {
      RunSafe(b, j);
      VictoryBegins(b.states[j], i);
    }
  }

  /**
   The player whose blow felled the last boss is told so in the answer to that very attack,
   whatever the other workers do in between: it shows the victory, under the player's name.
   */
  lemma VictorIsTold(b: Behaviour, j: nat, k: nat, i: nat)
    requires FellsLast(b, j, i) && j < k < |b.states|
    ensures i < |b.states[j].ws| == |b.states[k].ws|
    ensures var n := |b.states[j].ws[i].answers|;
            n < |b.states[k].ws[i].answers| ==>
              var m := b.states[k].ws[i].answers[n].msg;
              m.stage == Dead && m.hp == 0 && !m.respawning && m.killer == b.states[j].ws[i].name
  {
    VictoryCarried(b, j, k, i);
    var n := |b.states[j].ws[i].answers|;
    if n < |b.states[k].ws[i].answers| {
      SentAnswer(b, k, i, n);
    }
  }

  /** While a boss can be hit no killer is named, in the record or in any answer that shows it. */
  lemma NoKillerWhileAlive(b: Behaviour, k: nat, i: nat, x: nat)
    requires b.IsRun() && k < |b.states| && i < |b.states[k].ws| && x < |b.states[k].ws[i].answers|
    ensures Alive(b.states[k].g) ==> b.states[k].g.killer == ""
    ensures var m := b.states[k].ws[i].answers[x].msg;
            m.stage != Dead && !m.respawning ==> m.killer == "" && m.hp > 0
  {
    SentAnswer(b, k, i, x);
  }

  /** The online count is the number of sessions that joined and have not left. */
  lemma OnlineExact(b: Behaviour, k: nat)
    requires b.IsRun() && k < |b.states|
    ensures b.states[k].g.online == Count(b.states[k].ws, Online)
    ensures forall w :: w in b.states[k].ws ==> (Online(w) <==> w.joins > w.leaves) && w.leaves <= w.joins <= 1
    ensures k < |b.actions| && b.actions[k].Act? && b.actions[k].move == Leave ==>
              b.states[k + 1].g.online == b.states[k].g.online - 1
  {
    RunAnswers(b, k);
    if k < |b.actions| && b.actions[k].Act? {
      var s, i := b.states[k], b.actions[k].who;
      assert s.ws[i] in s.ws;
      OnlineMove(s, i, b.actions[k].move);
    }
  }
}
