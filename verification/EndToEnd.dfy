/** From the shared record to the player's screen. */
module EndToEnd {
  import opened Machine
  import opened Safety
  import opened Blows
  import opened Counting
  import opened Answers
  import opened Results
  import opened Handshake
  import opened Shown

  /** A message without what it says of an attack. */
  function RaidOf(m: GameStateMsg): GameStateMsg {
    m.(isCrit := false, isLucky := false, lastDamage := 0, lastBossDice := 0, lastStreak := 0, dmgTaken := 0)
  }

  /** A message as the client takes it apart. */
  function ScreenOf(m: GameStateMsg): Screen<GameStateMsg> {
    Screen(RaidOf(m), m.isLucky, Numbers(m.isCrit, m.lastDamage, m.lastBossDice, m.lastStreak, m.dmgTaken))
  }

  function Screens(answers: seq<Answer>): (ms: seq<Screen<GameStateMsg>>)
    ensures |ms| == |answers| && forall x :: 0 <= x < |ms| ==> ms[x] == ScreenOf(answers[x].msg)
  {
    if answers == [] then [] else [ScreenOf(answers[0].msg)] + Screens(answers[1..])
  }

  /** The raid shown is that of the last answer that came in. */
  lemma {:induction false} RaidOnScreen(t: Trace<GameStateMsg>, k: nat, answers: seq<Answer>)
    requires t.IsTrace() && k < |t.states| && t.states[0].inbox == Screens(answers) && t.states[k].published != []
    ensures var x := Newest(t.states[k].published).place;
            x < |answers| && t.states[k].f.latest.raid == RaidOf(answers[x].msg)
  {
    RaidIsLatest(t, k);
  }

  /**
   The raid on the player's screen, put together from one connection's answers, never goes back,
   whatever the other players, the other workers and the timeouts do.
   */
  lemma ScreenNeverGoesBack(b: Behaviour, n: nat, i: nat, t: Trace<GameStateMsg>, j: nat, k: nat)
    requires b.IsRun() && n < |b.states| && i < |b.states[n].ws|
    requires t.IsTrace() && j <= k < |t.states| && t.states[0].inbox == Screens(b.states[n].ws[i].answers)
    requires t.states[j].published != []
    ensures Later(t.states[j].f.latest.raid, t.states[k].f.latest.raid)
  {
    var answers, us, vs := b.states[n].ws[i].answers, t.states[j].published, t.states[k].published;
    PlacesRise(t, j, k);
    RaidOnScreen(t, j, answers);
    RaidOnScreen(t, k, answers);
    RaidsInOrder(b, n, i, Newest(us).place, Newest(vs).place);
  }

  lemma RaidsInOrder(b: Behaviour, n: nat, i: nat, x: nat, y: nat)
    requires b.IsRun() && n < |b.states| && i < |b.states[n].ws| && x <= y < |b.states[n].ws[i].answers|
    ensures Later(RaidOf(b.states[n].ws[i].answers[x].msg), RaidOf(b.states[n].ws[i].answers[y].msg))
  {
    if x < y {
      AnswersNeverGoBack(b, n, i, x, y);
    }
  }

  lemma PlacesRise(t: Trace<GameStateMsg>, j: nat, k: nat)
    requires t.IsTrace() && j <= k < |t.states| && t.states[j].published != []
    ensures t.states[k].published != []
    ensures Newest(t.states[j].published).place <= Newest(t.states[k].published).place
  {
    var us, vs := t.states[j].published, t.states[k].published;
    InboxRead(t, j, k);
    InboxRead(t, 0, k);
    assert us <= vs && vs[|us| - 1] == us[|us| - 1];
  }

  /** An answer has numbers to show exactly when it is an attack's on a live boss. */
  lemma NumbersToShow(b: Behaviour, k: nat, i: nat, x: nat)
    requires b.IsRun() && k < |b.states| && i < |b.states[k].ws| && x < |b.states[k].ws[i].answers|
    ensures var m := b.states[k].ws[i].answers[x].msg; ScreenOf(m).numbers != BLANK <==> m.lastBossDice != 0
  {
    AnswersFollowTheDice(b, k, i, x);
  }

  const INT_MAX := 0x7FFF_FFFF

  lemma {:induction false} SameWorkers(b: Behaviour, j: nat, k: nat)
    requires b.Linked() && j <= k < |b.states|
    ensures |b.states[j].ws| == |b.states[k].ws|
  {
    if j < k {
      SameWorkers(b, j, k - 1);
      assert Enabled(b.states[k - 1], b.actions[k - 1]);
    }
  }

  /** With fewer than a thousand million worker processes, no counter of the record overflows 32 bits. */
  lemma NumbersFit(b: Behaviour, k: nat)
    requires b.IsRun() && k < |b.states| && |b.states[k].ws| <= 1_000_000_000
    ensures var s := b.states[k];
            && 0 <= s.g.hp <= s.g.maxHp <= INT_MAX && 0 <= s.g.online <= INT_MAX
            && (forall p :: p in s.g.players && p.name != "" ==> p.streak <= INT_MAX)
            && (forall w :: w in s.ws && w.pc.Striking? ==> -INT_MAX <= s.g.hp - w.pc.res.dmgDealt)
  {
    var s := b.states[k];
    RunSafe(b, k);
    RunAnswers(b, k);
    CountAtMost(s.ws, Answers.Online);
    forall w | w in s.ws && w.pc.Striking?
      ensures -INT_MAX <= s.g.hp - w.pc.res.dmgDealt
    {
      assert FightOk(s.g, s.log, w);
    }
    forall p | p in s.g.players && p.name != ""
      ensures p.streak <= INT_MAX
    {
      forall j | 0 <= j <= k
        ensures Crowd(b.states[j], p.name, |s.ws|)
      {
        SameWorkers(b, j, k);
        CountAtMost(b.states[j].ws, Connected(p.name));
      }
      StreakLimited(b, k, p.name, |s.ws|);
    }
  }
}
