/**
 The lucky-kill broadcast. A lucky attack raises a time-stamped event; heartbeats report it
 for five seconds and the first one to find it older clears it, in a second locked step.
 */
module LuckyBroadcast {
  import opened Record
  import opened Machine
  import opened Answers
  import opened Results

  // Soundness: a lucky heartbeat has a lucky attack no more than five seconds behind it.

  ghost predicate EventTrue(g: Shared, marks: seq<int>) {
    g.luckyEvent ==> g.luckyTime in marks
  }

  ghost predicate LuckyOk(s: World) {
    && EventTrue(s.g, s.log.marks)
    && (forall t :: t in s.log.marks ==> t <= s.clock)
    && forall w :: w in s.ws && w.pc.Beating? ==> EventTrue(w.pc.snap, s.log.marks)
  }

  lemma LuckyStep(s: World, a: Action)
    requires LuckyOk(s) && Enabled(s, a)
    ensures LuckyOk(Next(s, a))
  {
  }

  lemma {:induction false} RunLucky(b: Behaviour, k: nat)
    requires b.IsRun() && k < |b.states|
    ensures LuckyOk(b.states[k])
  {
    if k > 0 {
      RunLucky(b, k - 1);
      LuckyStep(b.states[k - 1], b.actions[k - 1]);
    }
  }

  /** What a heartbeat about to read the clock will report. */
  predicate SaysLucky(s: World, i: nat)
    requires i < |s.ws| && s.ws[i].pc.Beating?
  {
    var pc := AfterClock(s.ws[i], s.clock).pc;
    pc.Replying? && pc.answer.msg.isLucky
  }

  /** The log entry of a mark at time `t`: some earlier action was a lucky attack at that clock. */
  ghost predicate MarkedAt(b: Behaviour, j: nat, t: int) {
    && j < |b.actions| && |b.states| == |b.actions| + 1
    && b.states[j].clock == t
    && b.actions[j].Act? && b.actions[j].move.Fight? && b.actions[j].move.draw == 0
  }

  lemma {:induction false} MarkHappened(b: Behaviour, k: nat, t: int) returns (j: nat)
    requires b.IsRun() && k < |b.states| && t in b.states[k].log.marks
    ensures j < k && MarkedAt(b, j, t)
  {
    assert k > 0;
    var s, a := b.states[k - 1], b.actions[k - 1];
    assert b.states[k] == Next(s, a) && Enabled(s, a);
    if t in s.log.marks {
      j := MarkHappened(b, k - 1, t);
    } else {
      assert a.Act? && a.move.Fight? && a.move.draw == 0;
      j := k - 1;
    }
  }

  /** A heartbeat says lucky only if some attack was lucky within the last five seconds. */
  lemma LuckyIsSound(b: Behaviour, k: nat, i: nat)
    requires b.IsRun() && k < |b.states| && i < |b.states[k].ws| && b.states[k].ws[i].pc.Beating?
    requires SaysLucky(b.states[k], i)
    ensures exists j: nat :: j < k && MarkedAt(b, j, b.states[j].clock)
                             && 0 <= b.states[k].clock - b.states[j].clock <= 5
  {
    RunLucky(b, k);
    assert b.states[k].ws[i] in b.states[k].ws;
    var t := b.states[k].ws[i].pc.snap.luckyTime;
    var j := MarkHappened(b, k, t);
  }

  /** Some attack was lucky at most five seconds before the clock of state `h`. */
  ghost predicate MarkedLately(b: Behaviour, h: nat) {
    h < |b.states| && exists j: nat :: j < h && j < |b.states| && MarkedAt(b, j, b.states[j].clock)
                                       && 0 <= b.states[h].clock - b.states[j].clock <= 5
  }

  /** In step `h` worker `i` read the clock for a heartbeat, and `m` is the lucky answer that came of it. */
  ghost predicate ToldAt(b: Behaviour, h: nat, i: nat, m: GameStateMsg) {
    && h < |b.actions| && h < |b.states| && b.actions[h] == Act(i, BeatClock)
    && i < |b.states[h].ws| && b.states[h].ws[i].pc.Beating? && m == BeatMsg(b.states[h].ws[i].pc.snap, true)
    && MarkedLately(b, h)
  }

  /** A lucky answer that is not an attack's: no boss rolled for it. */
  predicate LuckyBeat(m: GameStateMsg) {
    m.isLucky && m.lastBossDice == 0
  }

  lemma LuckyBeatAfter(g: Shared, log: Log, clock: int, w: Worker, m: Move, a: Answer)
    requires CanMove(w, m) && WorkerOk(w) && a in Line(Effect(g, log, clock, w, m).w) && LuckyBeat(a.msg)
    ensures a in Line(w)
            || (m == BeatClock && AfterClock(w, clock).pc == Replying(a) && a.msg == BeatMsg(w.pc.snap, true))
  {
  }

  lemma {:induction false} LuckyBeatTold(b: Behaviour, k: nat, i: nat, a: Answer) returns (h: nat)
    requires b.IsRun() && k < |b.states| && i < |b.states[k].ws| && a in Line(b.states[k].ws[i]) && LuckyBeat(a.msg)
    ensures h < k && ToldAt(b, h, i, a.msg)
  {
    if k == 0 {
      FreshLine(b, i);
    } else {
      var s, c := b.states[k - 1], b.actions[k - 1];
      assert Enabled(s, c) && b.states[k] == Next(s, c);
      RunResults(b, k - 1, i);
      if a in Line(s.ws[i]) {
        h := LuckyBeatTold(b, k - 1, i, a);
      } else {
        LuckyBeatAfter(s.g, s.log, s.clock, s.ws[i], c.move, a);
        LuckyIsSound(b, k - 1, i);
        h := k - 1;
      }
    }
  }

  lemma FreshLine(b: Behaviour, i: nat)
    requires b.IsRun() && i < |b.states[0].ws|
    ensures Line(b.states[0].ws[i]) == []
  {
    assert b.states[0].ws[i] in b.states[0].ws;
  }

  /**
   Every lucky heartbeat answer a client was ever sent was made up when its worker read the
   clock at some step, at most five seconds after a lucky attack.
   */
  lemma LuckyAnswerIsSound(b: Behaviour, k: nat, i: nat, x: nat) returns (h: nat)
    requires b.IsRun() && k < |b.states| && i < |b.states[k].ws| && x < |b.states[k].ws[i].answers|
    requires LuckyBeat(b.states[k].ws[i].answers[x].msg)
    ensures h < k && ToldAt(b, h, i, b.states[k].ws[i].answers[x].msg)
  {
    var w := b.states[k].ws[i];
    assert w.answers[x] in Line(w);
    h := LuckyBeatTold(b, k, i, w.answers[x]);
  }

  // Completeness: what a mark at time t needs of the heartbeats under way at that moment.

  /** A heartbeat that can still clear an event marked at `t` before it is five seconds old. */
  predicate Stale(w: Worker, t: int) {
    w.pc.Clearing? || (w.pc.Beating? && w.pc.snap.luckyEvent && w.pc.snap.luckyTime < t)
  }

  ghost predicate NoStale(s: World, t: int) {
    forall w :: w in s.ws ==> !Stale(w, t)
  }

  /** While the event of time `t` is fresh: it is set, and nobody is about to clear it. */
  ghost predicate Standing(s: World, t: int) {
    && s.g.luckyEvent && s.g.luckyTime >= t
    && NoStale(s, t)
  }

  lemma StandingStep(s: World, a: Action, t: int)
    requires Standing(s, t) && Enabled(s, a) && t <= s.clock && s.clock <= t + 5
    ensures Standing(Next(s, a), t)
  {
    match a
    case Tick(_) =>
    case Act(i, m) =>
      var s' := Next(s, a);
      assert s.ws[i] in s.ws;
      forall w | w in s'.ws
        ensures !Stale(w, t)
      {
        if w in s.ws {
        } else {
          assert w == s'.ws[i];
        }
      }
  }

  lemma {:induction false} StandsWhileFresh(b: Behaviour, j: nat, k: nat, t: int)
    requires b.Linked() && j < k < |b.states| && MarkedAt(b, j, t) && NoStale(b.states[j], t)
    requires b.states[k].clock <= t + 5
    ensures Standing(b.states[k], t)
  {
    var s, a := b.states[k - 1], b.actions[k - 1];
    assert Enabled(s, a) && b.states[k] == Next(s, a);
    if j == k - 1 {
      forall w | w in b.states[k].ws
        ensures !Stale(w, t)
      {
        assert w in s.ws || w == b.states[k].ws[a.who];
      }
    } else {
      ClockMonotone(b, j, k - 1);
      ClockMonotone(b, k - 1, k);
      StandsWhileFresh(b, j, k - 1, t);
      StandingStep(s, a, t);
    }
  }

  /** Worker `i` looks in step `h` and has not moved again when it reads the clock in state `k`. */
  ghost predicate Looked(b: Behaviour, i: nat, h: nat, k: nat) {
    && h < k < |b.states| && |b.states| == |b.actions| + 1
    && b.actions[h] == Act(i, BeatSnap)
    && forall x :: h < x < k && b.actions[x].Act? ==> b.actions[x].who != i
  }

  lemma {:induction false} HoldsItsLook(b: Behaviour, i: nat, h: nat, k: nat)
    requires b.Linked() && Looked(b, i, h, k)
    ensures i < |b.states[k].ws| && b.states[k].ws[i].pc == Beating(b.states[h].g)
  {
    var s, a := b.states[k - 1], b.actions[k - 1];
    assert Enabled(s, a) && b.states[k] == Next(s, a);
    if h < k - 1 {
      HoldsItsLook(b, i, h, k - 1);
    }
  }

  /**
   With no stale heartbeat at the mark, every heartbeat that looks after it and reads the
   clock within five seconds of it says lucky.
   */
  lemma LuckyIsComplete(b: Behaviour, j: nat, h: nat, k: nat, i: nat, t: int)
    requires b.Linked() && MarkedAt(b, j, t) && NoStale(b.states[j], t)
    requires j < h && Looked(b, i, h, k) && b.states[k].clock <= t + 5
    ensures i < |b.states[k].ws| && b.states[k].ws[i].pc.Beating? && SaysLucky(b.states[k], i)
  {
    ClockMonotone(b, j, h);
    ClockMonotone(b, h, k);
    HoldsItsLook(b, i, h, k);
    StandsWhileFresh(b, j, h, t);
  }

  // The condition is exact: a stale heartbeat at the mark can silence the broadcast.

  /** `c` goes on from the moment just after action `j` of `b`, in whatever way. */
  ghost predicate Continues(c: Behaviour, b: Behaviour, j: nat) {
    && c.Linked() && b.Linked() && j < |b.actions| && j < |c.actions|
    && c.states[..j + 2] == b.states[..j + 2]
    && c.actions[..j + 1] == b.actions[..j + 1]
  }

  /** A heartbeat looking after the mark and reading the clock in time that is not told. */
  ghost predicate Misses(c: Behaviour, j: nat, h: nat, k: nat, i: nat, t: int) {
    && j < h && Looked(c, i, h, k) && c.states[k].clock <= t + 5
    && i < |c.states[k].ws| && c.states[k].ws[i].pc.Beating? && !SaysLucky(c.states[k], i)
  }

  lemma ThenContinues(c: Behaviour, b: Behaviour, j: nat, a: Action)
    requires Continues(c, b, j) && Enabled(c.Last(), a)
    ensures Continues(c.Then(a), b, j) && c.Then(a).Last() == Next(c.Last(), a)
    ensures |c.Then(a).actions| == |c.actions| + 1 && c.Then(a).actions[|c.actions|] == a
  {
  }

  lemma ClearThenLook(c: Behaviour, b: Behaviour, j: nat, v: nat, t: int) returns (d: Behaviour, h: nat, k: nat)
    requires Continues(c, b, j) && v < |c.Last().ws| && c.Last().ws[v].pc.Clearing?
    requires c.Last().clock <= t + 5
    ensures Continues(d, b, j) && Misses(d, j, h, k, v, t)
  {
    ThenContinues(c, b, j, Act(v, Clear));
    var c1 := c.Then(Act(v, Clear));
    ThenContinues(c1, b, j, Act(v, Sent(true)));
    var c2 := c1.Then(Act(v, Sent(true)));
    ThenContinues(c2, b, j, Act(v, BeatSnap));
    d := c2.Then(Act(v, BeatSnap));
    h := |c2.actions|;
    k := |d.actions|;
    assert d.states[k] == d.Last();
  }

  lemma StaleSilences(b: Behaviour, j: nat, v: nat, t: int) returns (d: Behaviour, h: nat, k: nat)
    requires b.Linked() && MarkedAt(b, j, t) && v < |b.states[j].ws| && Stale(b.states[j].ws[v], t)
    ensures Continues(d, b, j) && Misses(d, j, h, k, v, t)
  {
    assert Enabled(b.states[j], b.actions[j]) && b.states[j + 1] == Next(b.states[j], b.actions[j]);
    var c := Behaviour(b.states[..j + 2], b.actions[..j + 1]);
    assert Continues(c, b, j);
    assert c.Last() == b.states[j + 1];
    assert c.Last().ws[v] == b.states[j].ws[v];
    if c.Last().ws[v].pc.Beating? {
      ThenContinues(c, b, j, Tick(5));
      var c1 := c.Then(Tick(5));
      ThenContinues(c1, b, j, Act(v, BeatClock));
      c := c1.Then(Act(v, BeatClock));
    }
    d, h, k := ClearThenLook(c, b, j, v, t);
  }

  /**
   Every heartbeat that looks after a mark and reads the clock within five seconds says lucky,
   in every continuation, exactly when no heartbeat is stale at the moment of the mark.
   */
  lemma LuckyCompleteExactly(b: Behaviour, j: nat, t: int)
    requires b.Linked() && MarkedAt(b, j, t)
    ensures NoStale(b.states[j], t)
       <==> forall c, h, k, i :: Continues(c, b, j) ==> !Misses(c, j, h, k, i, t)
  {
    if NoStale(b.states[j], t) {
      forall c, h, k, i | Continues(c, b, j)
        ensures !Misses(c, j, h, k, i, t)
      {
        assert c.states[j] == c.states[..j + 2][j] == b.states[j];
        assert c.actions[j] == c.actions[..j + 1][j] == b.actions[j];
        if Misses(c, j, h, k, i, t) {
          LuckyIsComplete(c, j, h, k, i, t);
        }
      }
    } else {
      var w :| w in b.states[j].ws && Stale(w, t);
      var v :| 0 <= v < |b.states[j].ws| && b.states[j].ws[v] == w;
      var d, h, k := StaleSilences(b, j, v, t);
    }
  }

  /** Worker `i` joins and reaches its session loop. */
  lemma Enters(b: Behaviour, i: nat, name: string) returns (c: Behaviour)
    requires b.IsRun() && i < |b.Last().ws| && b.Last().ws[i] == NEW_WORKER && ValidName(name)
    ensures c.IsRun() && c.Last().clock == b.Last().clock && c.Last().log == b.Last().log
    ensures c.Last().g == b.Last().g.(online := b.Last().g.online + 1)
    ensures c.Last().ws == b.Last().ws[i := NEW_WORKER.(pc := Ready, name := name, joins := 1)]
  {
    ThenRun(b, Act(i, Join(name)));
    var b1 := b.Then(Act(i, Join(name)));
    ThenRun(b1, Act(i, JoinSent(true)));
    c := b1.Then(Act(i, JoinSent(true)));
  }

  /** Worker `i` attacks a live boss and is about to roll. */
  lemma Attacks(b: Behaviour, i: nat) returns (c: Behaviour)
    requires b.IsRun() && i < |b.Last().ws| && b.Last().ws[i].pc == Ready && Alive(b.Last().g)
    ensures c.IsRun() && c.Last().clock == b.Last().clock && c.Last().g == b.Last().g && c.Last().log == b.Last().log
    ensures c.Last().ws == b.Last().ws[i := b.Last().ws[i].(pc := Fighting(1, |b.Last().log.kills|))]
  {
    ThenRun(b, Act(i, AttackSnap(0, 1)));
    c := b.Then(Act(i, AttackSnap(0, 1)));
  }

  /** Three players in the game, two of them about to roll, the third idle. */
  lemma ThreePlayers() returns (b: Behaviour)
    ensures b.IsRun() && b.Last().clock == 0 && |b.Last().ws| == 3
    ensures b.Last().ws[0].pc.Fighting? && b.Last().ws[1].pc.Ready? && b.Last().ws[2].pc.Fighting?
  {
    b := Behaviour([World(Initial(), [NEW_WORKER, NEW_WORKER, NEW_WORKER], 0, EMPTY_LOG)], []);
    b := Enters(b, 0, "a");
    b := Enters(b, 1, "b");
    b := Enters(b, 2, "c");
    b := Attacks(b, 0);
    b := Attacks(b, 2);
  }

  /** The silenced broadcast is reachable: three players, two lucky attacks six seconds apart. */
  lemma SilencedBroadcast() returns (b: Behaviour, j: nat, t: int)
    ensures b.IsRun() && MarkedAt(b, j, t) && !NoStale(b.states[j], t)
  {
    b := ThreePlayers();
    ThenRun(b, Act(0, Fight(1, 0)));
    b := b.Then(Act(0, Fight(1, 0)));
    ThenRun(b, Act(1, BeatSnap));
    b := b.Then(Act(1, BeatSnap));
    ThenRun(b, Tick(6));
    b := b.Then(Tick(6));
    var s := b.Last();
    assert Stale(s.ws[1], 6);
    ThenRun(b, Act(2, Fight(1, 0)));
    j, t := |b.actions|, 6;
    b := b.Then(Act(2, Fight(1, 0)));
    assert b.states[j] == s;
  }
}
