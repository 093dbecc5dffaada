/**
 A client that keeps to the rules, from the bytes it sends to the answers it gets: frames
 numbered by its counter, requests of the right size, not too close together, never more than
 thirty seconds after its last heartbeat once it has sent one, and never more than five seconds
 after the request before. All of these are needed: a client quiet for longer is cut off.
 */
module HonestClient {
  import opened Record
  import opened Machine
  import opened Replay
  import opened Validator
  import opened Packets
  import opened RateLimiters
  import opened Paths

  /** The dice in an attack's body: a signed 32-bit number. */
  function DiceIn(body: seq<byte>): int {
    if |body| < 4 then 0
    else
      var n := Read32(body, 0);
      if n < HALF then n else n - WORD
  }

  /** The word is read little-endian and in two's complement. */
  lemma {:induction false} DiceInMeans(b: seq<byte>)
    requires |b| == 4
    ensures DiceIn(b) == Number(b) - if b[3] >= 128 then 4294967296 else 0
  {
    ReadsNumber(b, 0);
    assert b[0..4] == b == [b[0], b[1], b[2], b[3]];
    FourBytes(b[0], b[1], b[2], b[3]);
  }

  /**
   From the wire to the dice: an attack frame with a number from 1 to 6 is played with it, any
   other word (the client sends zero) with the server's roll.
   */
  lemma AttackFramePlayed(p: Packet, d: Draws, at: nat, ms: seq<Move>)
    requires p.opcode == 0x11 && |p.body| == 4 && RequestPath(ms, true, TurnOf(p, d, at))
    ensures forall n: byte :: 1 <= n <= 6 && p.body == [n, 0, 0, 0] ==> ms[0] == AttackSnap(n, n)
    ensures (p.body[0] == 0 || p.body[0] > 6 || p.body[1..] != [0, 0, 0]) ==>
              ms[0] == AttackSnap(d.serverRoll, d.serverRoll)
  {
    var b := p.body;
    DiceInMeans(b);
    assert b == [b[0], b[1], b[2], b[3]] && b[1..] == [b[1], b[2], b[3]];
    FourBytes(b[0], b[1], b[2], b[3]);
    RequestMeans(ms, true, TurnOf(p, d, at));
    assert ms[..|ms| - 1][0] == ms[0];
  }

  function Characters(body: seq<byte>): seq<char> {
    seq(|body|, i requires 0 <= i < |body| => body[i] as char)
  }

  /** What the session makes of the first packet, the reply to which could be sent. */
  function FirstOf(p: Packet): First {
    First(true, p.opcode, Characters(p.body), true)
  }

  /** What the session loop makes of a later packet that arrives at `at` and can be answered. */
  function TurnOf(p: Packet, d: Draws, at: nat): Turn {
    Turn(at, true, p.opcode, HEADER_SIZE + |p.body|, DiceIn(p.body), d, true)
  }

  function TurnsOf(ps: seq<Packet>, ds: seq<Draws>, at: seq<nat>): (ts: seq<Turn>)
    requires |ps| == |ds| == |at|
    ensures |ts| == |ps| && forall k :: 0 <= k < |ts| ==> ts[k] == TurnOf(ps[k], ds[k], at[k])
  {
    if ps == [] then [] else [TurnOf(ps[0], ds[0], at[0])] + TurnsOf(ps[1..], ds[1..], at[1..])
  }

  /** A join with a valid name. */
  predicate Joins(p: Packet) {
    p.opcode == OP_JOIN && |p.body| == NAME_FIELD && ValidName(CString(Characters(p.body)))
  }

  /** An attack or a heartbeat as the client sends them. */
  predicate Plays(p: Packet) {
    (p.opcode == OP_ATTACK && |p.body| == 4) || (p.opcode == OP_HEARTBEAT && |p.body| == 0)
  }

  /** Everything a client sends on one connection, numbered from `first`. */
  predicate Honest(ps: seq<Packet>, first: uint32) {
    && ps != [] && Joins(ps[0]) && (forall k :: 1 <= k < |ps| ==> Plays(ps[k]))
    && SeqNums(ps) == CounterRun(first, |ps|)
  }

  /** The server reads back what an honest client sends, over every wrap-around of its counter. */
  lemma {:induction false} HonestRead(ps: seq<Packet>, first: uint32, rest: seq<byte>)
    requires Honest(ps, first)
    ensures AllSendable(ps) && ServerReads(FrameAll(ps) + rest, NEW_GUARD, |ps|) == (ps, rest)
  {
    forall k | 0 <= k < |ps|
      ensures |ps[k].body| <= MAX_BODY
    {
      assert k > 0 ==> Plays(ps[k]);
    }
    HonestSender(first, |ps|);
    StreamRead(ps, rest, NEW_GUARD);
  }

  /** When request `x` could be expected: when the one before arrived, or when the loop began. */
  function Before(ts: seq<Turn>, began: nat, x: nat): nat
    requires x <= |ts|
  {
    if x == 0 then began else ts[x - 1].arrives
  }

  /** Acceptable requests, 200 ms apart and the server's `lag` on top. */
  ghost predicate Steady(ts: seq<Turn>, began: nat, lag: nat) {
    && (forall t :: t in ts ==> t.received && Welcome(t))
    && forall x {:trigger Before(ts, began, x)} :: 0 <= x < |ts| ==>
         Before(ts, began, x) + (if x == 0 then 0 else 200 + lag) <= ts[x].arrives
  }

  /** Of the requests before `x`, `h` is the last heartbeat. */
  ghost predicate LatestBeat(ts: seq<Turn>, h: nat, x: nat) {
    && h < x <= |ts| && ts[h].opcode == OP_HEARTBEAT
    && forall y :: h < y < x ==> ts[y].opcode != OP_HEARTBEAT
  }

  /** When request `x` is waited for, the last heartbeat before it, if any, is at most thirty seconds old. */
  ghost predicate Heard(ts: seq<Turn>, x: nat, lag: nat)
    requires x <= |ts|
  {
    forall h: nat :: LatestBeat(ts, h, x) ==> (ts[x - 1].arrives + lag) / 1000 - ts[h].arrives / 1000 <= 30
  }

  ghost predicate Timely(ts: seq<Turn>, lag: nat) {
    forall x {:trigger Heard(ts, x, lag)} :: 0 <= x < |ts| ==> Heard(ts, x, lag)
  }

  /** No request comes more than `most` milliseconds after it could be expected. */
  ghost predicate Gaps(ts: seq<Turn>, began: nat, most: nat) {
    forall x {:trigger Before(ts, began, x)} :: 0 <= x < |ts| ==> ts[x].arrives <= Before(ts, began, x) + most
  }

  /** The server is never more than `lag` behind: it waits again, and handles what came, in that time. */
  ghost predicate Prompt(ts: seq<Turn>, c: Course, lag: nat) {
    && |c.rs| <= |ts|
    && c.stop.waits <= Before(ts, c.began, |c.rs|) + lag
    && c.stop.tested <= c.stop.waits
    && forall x {:trigger c.rs[x]} :: 0 <= x < |c.rs| ==>
         c.rs[x].waits <= Before(ts, c.began, x) + lag && c.rs[x].at <= ts[x].arrives + lag
  }

  lemma {:induction false} LastBeatIs(ts: seq<Turn>, rs: seq<Request>) returns (h: nat)
    requires |rs| <= |ts| && LastBeat(ts, rs) != 0
    ensures h < |rs| && ts[h].opcode == OP_HEARTBEAT && LastBeat(ts, rs) == rs[h].at / 1000
    ensures forall y :: h < y < |rs| ==> ts[y].opcode != OP_HEARTBEAT
  {
    var n := |rs| - 1;
    if ts[n].opcode == OP_HEARTBEAT {
      h := n;
    } else {
      h := LastBeatIs(ts, rs[..n]);
    }
  }

  /** Each request was handled after it arrived, and before the next was waited for. */
  ghost predicate InStep(ts: seq<Turn>, rs: seq<Request>, lag: nat) {
    |rs| <= |ts| && forall x :: 0 <= x < |rs| ==> ts[x].arrives <= rs[x].now <= rs[x].at <= ts[x].arrives + lag
  }

  /** At no test of the silence is a timely client found silent. */
  lemma {:induction false} NeverSilent(ts: seq<Turn>, rs: seq<Request>, began: nat, lag: nat, tested: nat)
    requires |rs| < |ts| && Heard(ts, |rs|, lag) && InStep(ts, rs, lag) && tested <= Before(ts, began, |rs|) + lag
    ensures !Silent(LastBeat(ts, rs), tested / 1000)
  {
    if LastBeat(ts, rs) > 0 {
      var h := LastBeatIs(ts, rs);
      assert LatestBeat(ts, h, |rs|);
    }
  }

  function LookTimes(rs: seq<Request>): (ms: seq<nat>)
    ensures |ms| == |rs| && forall x :: 0 <= x < |ms| ==> ms[x] == rs[x].now
  {
    if rs == [] then [] else LookTimes(rs[..|rs| - 1]) + [rs[|rs| - 1].now]
  }

  lemma {:induction false} TimesAre(rs: seq<Request>)
    ensures Times(rs) == Seconds(LookTimes(rs))
  {
    if rs != [] {
      var n := |rs| - 1;
      TimesAre(rs[..n]);
      SecondsAppend(LookTimes(rs[..n]), [rs[n].now]);
      assert Seconds([rs[n].now]) == [rs[n].now / 1000];
    }
  }

  lemma {:induction false} PassesAt(r: Limiter, ts: seq<int>, t: int)
    requires AllPass(r, ts + [t])
    ensures Checked(LimiterAfter(r, ts), t).1
    decreases |ts|
  {
    if ts == [] {
      assert ts + [t] == [t];
    } else {
      assert (ts + [t])[1..] == ts[1..] + [t];
      PassesAt(Checked(r, ts[0]).0, ts[1..], t);
    }
  }

  /** The limiter lets every request of a steady client through. */
  lemma SteadyPasses(ts: seq<Turn>, rs: seq<Request>, began: nat, t0: nat, lag: nat, now: nat)
    requires Steady(ts, began, lag) && |rs| < |ts| && InStep(ts, rs, lag) && t0 <= began / 1000
    requires ts[|rs|].arrives <= now
    ensures Asked(Limiter(0, t0, 5, 1), rs, now / 1000).1
  {
    var ms := LookTimes(rs) + [now];
    forall i | 0 < i < |ms|
      ensures ms[i - 1] + 200 <= ms[i]
    {
      assert Before(ts, began, i) == ts[i - 1].arrives;
    }
    assert ms[0] == if rs == [] then now else rs[0].now;
    assert Before(ts, began, 0) == began <= ts[0].arrives;
    PacingNeverRefused(ms, t0, 200);
    SecondsAppend(LookTimes(rs), [now]);
    assert Seconds([now]) == [now / 1000];
    TimesAre(rs);
    PassesAt(Limiter(0, t0, 5, 1), Times(rs), now / 1000);
  }

  lemma {:induction false} ServedAt(r: Limiter, ts: seq<Turn>, rs: seq<Request>, x: nat)
    requires Served(r, ts, rs) && x < |rs|
    ensures |rs| <= |ts| && Looks(r, ts, rs[..x], rs[x])
  {
    var n := |rs| - 1;
    if x < n {
      ServedAt(r, ts, rs[..n], x);
      assert rs[..n][..x] == rs[..x];
    }
  }

  lemma {:induction false} OrderAt(rs: seq<Request>, from: nat, to: nat, x: nat)
    requires InOrder(rs, from, to) && x < |rs|
    ensures rs[x].tested <= rs[x].waits <= rs[x].now <= rs[x].at
  {
    var n := |rs| - 1;
    if x < n {
      OrderAt(rs[..n], from, rs[n].tested, x);
    }
  }

  lemma {:induction false} ServedInStep(r: Limiter, ts: seq<Turn>, c: Course, n: nat, lag: nat)
    requires n <= |c.rs| && Served(r, ts, c.rs[..n]) && Prompt(ts, c, lag)
    requires InOrder(c.rs, c.began, c.stop.tested)
    ensures InStep(ts, c.rs[..n], lag)
  {
    forall x | 0 <= x < n
      ensures ts[x].arrives <= c.rs[x].now <= c.rs[x].at <= ts[x].arrives + lag
    {
      ServedAt(r, ts, c.rs[..n], x);
      OrderAt(c.rs, c.began, c.stop.tested, x);
    }
  }

  lemma {:induction false} LastGoesOn(ts: seq<Turn>, t0: nat, c: Course, lag: nat)
    requires c.rs != [] && Prompt(ts, c, lag) && Steady(ts, c.began, lag) && t0 <= c.began / 1000
    requires InOrder(c.rs, c.began, c.stop.tested)
    requires var r, n := Limiter(0, t0, 5, 1), |c.rs| - 1;
             Served(r, ts, c.rs[..n]) && Looks(r, ts, c.rs[..n], c.rs[n])
    ensures GoesOn(Limiter(0, t0, 5, 1), ts, c.rs[..|c.rs| - 1], c.rs[|c.rs| - 1])
  {
    var n := |c.rs| - 1;
    ServedInStep(Limiter(0, t0, 5, 1), ts, c, n, lag);
    SteadyPasses(ts, c.rs[..n], c.began, t0, lag, c.rs[n].now);
    assert ts[n] in ts;
  }

  /** No request of a steady client is refused. */
  lemma {:induction false} NoneRefused(ts: seq<Turn>, t0: nat, c: Course, moves: seq<Move>, lag: nat)
    requires LoopPath(Limiter(0, t0, 5, 1), ts, c, moves) && Prompt(ts, c, lag)
    requires Steady(ts, c.began, lag) && t0 <= c.began / 1000
    ensures Served(Limiter(0, t0, 5, 1), ts, c.rs) && NothingMore(ts, c.rs, c.stop)
    ensures moves == Flat(c.rs) + [Quit]
  {
    var r, n := Limiter(0, t0, 5, 1), |c.rs| - 1;
    if n >= 0 && Served(r, ts, c.rs[..n]) && Looks(r, ts, c.rs[..n], c.rs[n]) {
      LastGoesOn(ts, t0, c, lag);
    }
  }

  lemma {:induction false} AllInStep(r: Limiter, ts: seq<Turn>, c: Course, lag: nat)
    requires Served(r, ts, c.rs) && Prompt(ts, c, lag) && InOrder(c.rs, c.began, c.stop.tested)
    ensures InStep(ts, c.rs, lag)
  {
    assert c.rs[..|c.rs|] == c.rs;
    ServedInStep(r, ts, c, |c.rs|, lag);
  }

  lemma WaitsAfter(ts: seq<Turn>, c: Course, lag: nat)
    requires InOrder(c.rs, c.began, c.stop.tested) && InStep(ts, c.rs, lag) && c.stop.tested <= c.stop.waits
    ensures Before(ts, c.began, |c.rs|) <= c.stop.waits
  {
  }

  /**
   How far the session of such a client goes, whatever the server does with its requests. All is
   served if no request comes later than five seconds after the one before. If one does, by more
   than the server's lag, the session ends there: everything before it is served and it is not.
   */
  lemma {:induction false} LoopServes(ts: seq<Turn>, t0: nat, c: Course, moves: seq<Move>, lag: nat)
    requires LoopPath(Limiter(0, t0, 5, 1), ts, c, moves) && Prompt(ts, c, lag)
    requires Steady(ts, c.began, lag) && Timely(ts, lag) && t0 <= c.began / 1000
    ensures Served(Limiter(0, t0, 5, 1), ts, c.rs) && moves == Flat(c.rs) + [Quit]
    ensures |c.rs| < |ts| ==> ts[|c.rs|].arrives > Before(ts, c.began, |c.rs|) + 5000
                              && c.stop.left >= c.stop.waits + 5000
    ensures forall x :: 0 <= x < |c.rs| ==> ts[x].arrives <= Before(ts, c.began, x) + 5000 + lag
  {
    var r, n := Limiter(0, t0, 5, 1), |c.rs|;
    NoneRefused(ts, t0, c, moves, lag);
    AllInStep(r, ts, c, lag);
    forall x | 0 <= x < n
      ensures ts[x].arrives <= Before(ts, c.began, x) + 5000 + lag
    {
      ServedAt(r, ts, c.rs, x);
    }
    if n < |ts| {
      assert Heard(ts, n, lag);
      NeverSilent(ts, c.rs, c.began, lag, c.stop.tested);
      WaitsAfter(ts, c, lag);
      assert ts[n] in ts;
    }
  }

  lemma GapsOf(ts: seq<Turn>, t0: nat, c: Course, moves: seq<Move>, lag: nat)
    requires LoopPath(Limiter(0, t0, 5, 1), ts, c, moves) && Prompt(ts, c, lag)
    requires Steady(ts, c.began, lag) && Timely(ts, lag) && t0 <= c.began / 1000
    ensures Gaps(ts, c.began, 5000) ==> |c.rs| == |ts|
    ensures |c.rs| == |ts| ==> Gaps(ts, c.began, 5000 + lag)
  {
    LoopServes(ts, t0, c, moves, lag);
  }

  // The other half: a server without any lag cuts a client off at its first long gap.

  /** Moves a welcome request can be made of. */
  function ShortPath(t: Turn): seq<Move> {
    if t.opcode == OP_ATTACK then
      var dice := PlayerDice(t.raw, t.draws.serverRoll);
      [AttackSnap(dice, dice), Sent(t.sent)]
    else if t.opcode == OP_HEARTBEAT then [BeatSnap, BeatClock, Sent(t.sent)]
    else [Ignore]
  }

  lemma ShortPathOk(t: Turn)
    requires Welcome(t)
    ensures RequestPath(ShortPath(t), true, t)
  {
  }

  /** The first `n` requests, each handled the moment it arrives. */
  function Instantly(ts: seq<Turn>, began: nat, n: nat): (rs: seq<Request>)
    requires n <= |ts|
    ensures |rs| == n
    ensures forall x :: 0 <= x < n ==>
              var w := Before(ts, began, x);
              rs[x] == Request(w, w, ts[x].arrives, ts[x].arrives, ShortPath(ts[x]))
  {
    if n == 0 then []
    else
      var w := Before(ts, began, n - 1);
      Instantly(ts, began, n - 1) + [Request(w, w, ts[n - 1].arrives, ts[n - 1].arrives, ShortPath(ts[n - 1]))]
  }

  lemma {:induction false} OneMoreServed(ts: seq<Turn>, began: nat, t0: nat, rs: seq<Request>, q: Request)
    requires Steady(ts, began, 0) && t0 <= began / 1000 && |rs| < |ts| && InStep(ts, rs, 0) && Heard(ts, |rs|, 0)
    requires Served(Limiter(0, t0, 5, 1), ts, rs) && InOrder(rs, began, q.tested)
    requires q.tested == q.waits == Before(ts, began, |rs|) && q.now == q.at == ts[|rs|].arrives
    requires q.now <= q.waits + 5000 && q.ms == ShortPath(ts[|rs|])
    ensures Served(Limiter(0, t0, 5, 1), ts, rs + [q]) && InOrder(rs + [q], began, q.at)
  {
    var m := |rs|;
    assert (rs + [q])[..m] == rs;
    NeverSilent(ts, rs, began, 0, q.tested);
    SteadyPasses(ts, rs, began, t0, 0, q.now);
    assert ts[m] in ts;
    ShortPathOk(ts[m]);
  }

  /** Request `x` comes in time, after the one before and after the last heartbeat. */
  ghost predicate InTime(ts: seq<Turn>, began: nat, x: nat)
    requires x < |ts|
  {
    ts[x].arrives <= Before(ts, began, x) + 5000 && Heard(ts, x, 0)
  }

  lemma {:induction false} InstantlyInStep(ts: seq<Turn>, began: nat, n: nat)
    requires n <= |ts|
    ensures InStep(ts, Instantly(ts, began, n), 0)
  {
  }

  lemma {:induction false} InstantlyNext(ts: seq<Turn>, began: nat, n: nat, q: Request)
    requires 0 < n <= |ts| && q.tested == q.waits == Before(ts, began, n - 1)
    requires q.now == q.at == ts[n - 1].arrives && q.ms == ShortPath(ts[n - 1])
    ensures Instantly(ts, began, n) == Instantly(ts, began, n - 1) + [q]
  {
  }

  /** A server without lag has served the first `n` requests. */
  ghost predicate ServedInstantly(ts: seq<Turn>, began: nat, t0: nat, n: nat)
    requires n <= |ts|
  {
    && Served(Limiter(0, t0, 5, 1), ts, Instantly(ts, began, n))
    && InOrder(Instantly(ts, began, n), began, Before(ts, began, n))
  }

  lemma {:induction false} OneMoreInstantly(ts: seq<Turn>, began: nat, t0: nat, n: nat)
    requires 0 < n <= |ts| && Steady(ts, began, 0) && t0 <= began / 1000 && InTime(ts, began, n - 1)
    requires ServedInstantly(ts, began, t0, n - 1)
    ensures ServedInstantly(ts, began, t0, n)
  {
    var w := Before(ts, began, n - 1);
    var q := Request(w, w, ts[n - 1].arrives, ts[n - 1].arrives, ShortPath(ts[n - 1]));
    InstantlyInStep(ts, began, n - 1);
    InstantlyNext(ts, began, n, q);
    OneMoreServed(ts, began, t0, Instantly(ts, began, n - 1), q);
  }

  lemma {:induction false} InstantlyServed(ts: seq<Turn>, began: nat, t0: nat, n: nat)
    requires n <= |ts| && Steady(ts, began, 0) && t0 <= began / 1000
    requires forall x {:trigger InTime(ts, began, x)} :: 0 <= x < n ==> InTime(ts, began, x)
    ensures ServedInstantly(ts, began, t0, n)
  {
    if n == 0 {
      assert Instantly(ts, began, 0) == [];
    } else {
      InstantlyServed(ts, began, t0, n - 1);
      assert InTime(ts, began, n - 1);
      OneMoreInstantly(ts, began, t0, n);
    }
  }

  lemma FirstLate(ts: seq<Turn>, began: nat) returns (n: nat)
    requires !(Gaps(ts, began, 5000) && Timely(ts, 0))
    ensures n < |ts| && !InTime(ts, began, n)
    ensures forall x {:trigger InTime(ts, began, x)} :: 0 <= x < n ==> InTime(ts, began, x)
  {
    n := 0;
    while n < |ts| && InTime(ts, began, n)
      invariant n <= |ts| && forall x {:trigger InTime(ts, began, x)} :: 0 <= x < n ==> InTime(ts, began, x)
      decreases |ts| - n
    {
      n := n + 1;
    }
    if n == |ts| {
      forall x | 0 <= x < |ts|
        ensures ts[x].arrives <= Before(ts, began, x) + 5000 && Heard(ts, x, 0)
      {
        assert InTime(ts, began, x);
      }
    }
  }

  function InstantCourse(ts: seq<Turn>, began: nat, n: nat): Course
    requires n <= |ts|
  {
    var w := Before(ts, began, n);
    Course(began, Instantly(ts, began, n), Stop(w, w, w + 5000))
  }

  lemma InstantlyPrompt(ts: seq<Turn>, began: nat, n: nat)
    requires n <= |ts|
    ensures Prompt(ts, InstantCourse(ts, began, n), 0)
  {
  }

  lemma {:induction false} LastBeatOf(ts: seq<Turn>, rs: seq<Request>, h: nat)
    requires |rs| <= |ts| && LatestBeat(ts, h, |rs|)
    ensures LastBeat(ts, rs) == rs[h].at / 1000
  {
    if h < |rs| - 1 {
      LastBeatOf(ts, rs[..|rs| - 1], h);
    }
  }

  lemma {:induction false} InstantlySilent(ts: seq<Turn>, began: nat, n: nat)
    requires n < |ts| && !Heard(ts, n, 0) && forall t :: t in ts ==> t.arrives >= 1000
    ensures Silent(LastBeat(ts, Instantly(ts, began, n)), Before(ts, began, n) / 1000)
  {
    var h: nat :| LatestBeat(ts, h, n) && (ts[n - 1].arrives + 0) / 1000 - ts[h].arrives / 1000 > 30;
    LastBeatOf(ts, Instantly(ts, began, n), h);
    assert ts[h] in ts;
  }

  lemma {:induction false} InstantlyEnds(ts: seq<Turn>, began: nat, t0: nat, n: nat)
    requires n < |ts| && !InTime(ts, began, n)
    requires Heard(ts, n, 0) || forall t :: t in ts ==> t.arrives >= 1000
    requires ServedInstantly(ts, began, t0, n)
    ensures LoopPath(Limiter(0, t0, 5, 1), ts, InstantCourse(ts, began, n), Flat(Instantly(ts, began, n)) + [Quit])
  {
    if !Heard(ts, n, 0) {
      InstantlySilent(ts, began, n);
    }
    assert NothingMore(ts, Instantly(ts, began, n), InstantCourse(ts, began, n).stop);
  }

  /** Steady arrivals never go back, so all of them come after the beginning. */
  lemma {:induction false} ArrivesLate(ts: seq<Turn>, began: nat, lag: nat, x: nat)
    requires Steady(ts, began, lag) && x < |ts|
    ensures began <= ts[x].arrives
  {
    assert Before(ts, began, x) <= ts[x].arrives;
    if x > 0 {
      ArrivesLate(ts, began, lag, x - 1);
    }
  }

  /** What a server without lag does with a client at its first long gap or long silence. */
  lemma CutOff(ts: seq<Turn>, began: nat, t0: nat) returns (c: Course, moves: seq<Move>)
    requires Steady(ts, began, 0) && t0 <= began / 1000 && (began >= 1000 || Timely(ts, 0))
    requires !(Gaps(ts, began, 5000) && Timely(ts, 0))
    ensures LoopPath(Limiter(0, t0, 5, 1), ts, c, moves) && Prompt(ts, c, 0) && c.began == began && |c.rs| < |ts|
  {
    var n := FirstLate(ts, began);
    c, moves := InstantCourse(ts, began, n), Flat(Instantly(ts, began, n)) + [Quit];
    InstantlyServed(ts, began, t0, n);
    InstantlyPrompt(ts, began, n);
    forall t | t in ts
      ensures t.arrives >= began
    {
      var x :| 0 <= x < |ts| && ts[x] == t;
      ArrivesLate(ts, began, 0, x);
    }
    InstantlyEnds(ts, began, t0, n);
  }

  /** Every course a server can take that is never more than `lag` behind serves all of the requests. */
  ghost predicate SureOfService(ts: seq<Turn>, began: nat, t0: nat, lag: nat) {
    forall c: Course, moves ::
      c.began == began && LoopPath(Limiter(0, t0, 5, 1), ts, c, moves) && Prompt(ts, c, lag) ==> |c.rs| == |ts|
  }

  lemma SureIf(ts: seq<Turn>, began: nat, t0: nat, lag: nat)
    requires Steady(ts, began, lag) && Timely(ts, lag) && t0 <= began / 1000 && Gaps(ts, began, 5000)
    ensures SureOfService(ts, began, t0, lag)
  {
    forall c: Course, moves |
      c.began == began && LoopPath(Limiter(0, t0, 5, 1), ts, c, moves) && Prompt(ts, c, lag)
      ensures |c.rs| == |ts|
    {
      GapsOf(ts, t0, c, moves, lag);
    }
  }

  /**
   A client that is steady is sure of being served in full by a server without lag exactly when
   none of its requests comes more than five seconds after the one before, nor is waited for more
   than thirty seconds after its last heartbeat. (The clock has left its first second.)
   */
  lemma ServedAtOnceExactly(ts: seq<Turn>, began: nat, t0: nat)
    requires Steady(ts, began, 0) && t0 <= began / 1000 && began >= 1000
    ensures SureOfService(ts, began, t0, 0) <==> Gaps(ts, began, 5000) && Timely(ts, 0)
  {
    if Gaps(ts, began, 5000) && Timely(ts, 0) {
      SureIf(ts, began, t0, 0);
    } else {
      var c, moves := CutOff(ts, began, t0);
    }
  }

  /**
   A client that is steady and timely is sure of being served in full, by a server of any lag,
   exactly when none of its requests comes more than five seconds after the one before.
   */
  lemma ServedInFullExactly(ts: seq<Turn>, began: nat, t0: nat, lag: nat)
    requires Steady(ts, began, lag) && Timely(ts, lag) && t0 <= began / 1000
    ensures SureOfService(ts, began, t0, lag) <==> Gaps(ts, began, 5000)
  {
    if Gaps(ts, began, 5000) {
      SureIf(ts, began, t0, lag);
    } else {
      LessLag(ts, began, lag);
      var c, moves := CutOff(ts, began, t0);
      assert Prompt(ts, c, lag);
    }
  }

  lemma LessLag(ts: seq<Turn>, began: nat, lag: nat)
    requires Steady(ts, began, lag) && Timely(ts, lag)
    ensures Steady(ts, began, 0) && Timely(ts, 0)
  {
    forall x | 0 <= x < |ts|
      ensures Heard(ts, x, 0)
    {
      assert Heard(ts, x, lag);
      forall h: nat | LatestBeat(ts, h, x)
        ensures (ts[x - 1].arrives + 0) / 1000 - ts[h].arrives / 1000 <= 30
      {
        assert (ts[x - 1].arrives + lag) / 1000 - ts[h].arrives / 1000 <= 30;
      }
    }
  }

  // The silence test over any course, whatever the client and the server do.

  lemma {:induction false} LooksAt(r: Limiter, ts: seq<Turn>, c: Course, moves: seq<Move>, x: nat)
    requires LoopPath(r, ts, c, moves) && x < |c.rs|
    ensures |c.rs| <= |ts| && Looks(r, ts, c.rs[..x], c.rs[x])
  {
    if Served(r, ts, c.rs) {
      ServedAt(r, ts, c.rs, x);
    } else if x < |c.rs| - 1 {
      ServedAt(r, ts, c.rs[..|c.rs| - 1], x);
      assert c.rs[..|c.rs| - 1][..x] == c.rs[..x];
    }
  }

  /**
   No request is looked at more than thirty seconds after the last heartbeat before it was
   handled, in any course of the loop. (A heartbeat in the clock's first second counts as none.)
   */
  lemma SilenceIsCutOff(r: Limiter, ts: seq<Turn>, c: Course, moves: seq<Move>, h: nat, x: nat)
    requires LoopPath(r, ts, c, moves) && h < x < |c.rs| && LatestBeat(ts, h, x) && c.rs[h].at >= 1000
    ensures c.rs[x].tested / 1000 - c.rs[h].at / 1000 <= 30
  {
    LooksAt(r, ts, c, moves, x);
    LastBeatOf(ts, c.rs[..x], h);
  }

  /** And the loop leaves a packet that arrives in time only after more than thirty seconds of silence. */
  lemma OnlySilenceIsCutOff(r: Limiter, ts: seq<Turn>, c: Course, moves: seq<Move>) returns (h: nat)
    requires LoopPath(r, ts, c, moves) && Served(r, ts, c.rs) && moves == Flat(c.rs) + [Quit]
    requires NothingMore(ts, c.rs, c.stop)
    requires |c.rs| < |ts| && ts[|c.rs|].received && ts[|c.rs|].arrives <= c.stop.waits + 5000
    ensures LatestBeat(ts, h, |c.rs|) && c.stop.tested / 1000 - c.rs[h].at / 1000 > 30
  {
    h := LastBeatIs(ts, c.rs);
  }

  lemma {:induction false} HandledBefore(rs: seq<Request>, from: nat, to: nat, x: nat)
    requires InOrder(rs, from, to) && 0 < x < |rs|
    ensures rs[x - 1].at <= rs[x].tested
  {
    var n := |rs| - 1;
    if x < n {
      HandledBefore(rs[..n], from, rs[n].tested, x);
    }
  }

  /**
   A client that goes on asking for more than thirty seconds, and the server's lag, after its last
   heartbeat is cut off: the next request is not looked at.
   */
  lemma SilentClientCutOff(ts: seq<Turn>, r: Limiter, c: Course, moves: seq<Move>, lag: nat, h: nat, x: nat)
    requires LoopPath(r, ts, c, moves) && Prompt(ts, c, lag) && x < |ts|
    requires LatestBeat(ts, h, x) && ts[h].arrives >= 1000
    requires ts[x - 1].arrives / 1000 - (ts[h].arrives + lag) / 1000 > 30
    ensures |c.rs| <= x
  {
    if |c.rs| > x {
      LooksAt(r, ts, c, moves, h);
      LooksAt(r, ts, c, moves, x - 1);
      OrderAt(c.rs, c.began, c.stop.tested, h);
      OrderAt(c.rs, c.began, c.stop.tested, x - 1);
      HandledBefore(c.rs, c.began, c.stop.tested, x);
      SilenceIsCutOff(r, ts, c, moves, h, x);
    }
  }

  /** A heartbeat at second 1, then an attack every four seconds. */
  function OneBeatThenAttacks(d: Draws, n: nat): (ts: seq<Turn>)
    ensures |ts| == n + 1 && ts[0] == Turn(1000, true, OP_HEARTBEAT, 12, 0, d, true)
    ensures forall k :: 1 <= k <= n ==> ts[k] == Turn(1000 + 4000 * k, true, OP_ATTACK, 16, 0, d, true)
  {
    if n == 0 then [Turn(1000, true, OP_HEARTBEAT, 12, 0, d, true)]
    else OneBeatThenAttacks(d, n - 1) + [Turn(1000 + 4000 * n, true, OP_ATTACK, 16, 0, d, true)]
  }

  /** However long it goes on, no more than eight of its attacks are served by a server within a second. */
  lemma {:induction false} EightAttacksAtMost(d: Draws, n: nat, r: Limiter, c: Course, moves: seq<Move>)
    requires LoopPath(r, OneBeatThenAttacks(d, n), c, moves) && Prompt(OneBeatThenAttacks(d, n), c, 1000)
    ensures |c.rs| <= 9
  {
    var ts := OneBeatThenAttacks(d, n);
    if n >= 9 {
      assert LatestBeat(ts, 0, 9);
      SilentClientCutOff(ts, r, c, moves, 1000, 0, 9);
    }
  }

  /** Two attacks an hour apart: the second is never looked at, by any server less than an hour behind. */
  lemma HourOfSilence(d: Draws, began: nat, t0: nat, c: Course, moves: seq<Move>)
    requires t0 <= began / 1000 && c.began == began
    requires var ts := [Turn(began, true, OP_ATTACK, 16, 0, d, true),
                        Turn(began + 3_600_000, true, OP_ATTACK, 16, 0, d, true)];
             LoopPath(Limiter(0, t0, 5, 1), ts, c, moves) && Prompt(ts, c, 3_500_000)
    ensures |c.rs| == 1 && moves == Flat(c.rs) + [Quit]
  {
    var ts := [Turn(began, true, OP_ATTACK, 16, 0, d, true),
               Turn(began + 3_600_000, true, OP_ATTACK, 16, 0, d, true)];
    LoopServes(ts, t0, c, moves, 3_500_000);
  }

  // From the wire to the worker's moves.

  lemma {:induction false} HonestTurns(ps: seq<Packet>, first: uint32, ds: seq<Draws>, at: seq<nat>)
    requires Honest(ps, first) && |ds| == |at| == |ps| - 1
    ensures forall t :: t in TurnsOf(ps[1..], ds, at) ==> t.received && Welcome(t)
  {
    var ts := TurnsOf(ps[1..], ds, at);
    forall k | 0 <= k < |ts|
      ensures ts[k].received && Welcome(ts[k])
    {
      assert ts[k] == TurnOf(ps[1..][k], ds[k], at[k]) && Plays(ps[k + 1]);
    }
  }

  lemma SessionMoves(p: Packet, ts: seq<Turn>, entered: nat, c: Course, moves: seq<Move>) returns (loop: seq<Move>)
    requires Joins(p) && ClientPath(FirstOf(p), ts, entered, c, moves)
    ensures entered <= c.began && LoopPath(Limiter(0, entered / 1000, 5, 1), ts, c, loop)
    ensures moves == [Join(CString(Characters(p.body))), JoinSent(true)] + loop + [Leave]
  {
    loop := moves[2..|moves| - 1];
    assert moves == moves[..2] + loop + [moves[|moves| - 1]];
  }

  lemma ThenLeaves(joins: seq<Move>, served: seq<Move>)
    ensures joins + (served + [Quit]) + [Leave] == joins + served + [Quit, Leave]
  {
  }

  lemma {:induction false} SessionServes(p: Packet, ts: seq<Turn>, entered: nat, c: Course, moves: seq<Move>, lag: nat)
    requires Joins(p) && ClientPath(FirstOf(p), ts, entered, c, moves)
    requires Prompt(ts, c, lag) && Steady(ts, c.began, lag) && Timely(ts, lag)
    ensures Served(Limiter(0, entered / 1000, 5, 1), ts, c.rs)
    ensures Gaps(ts, c.began, 5000) ==> |c.rs| == |ts|
    ensures |c.rs| == |ts| ==> Gaps(ts, c.began, 5000 + lag)
    ensures moves == [Join(CString(Characters(p.body))), JoinSent(true)] + Flat(c.rs) + [Quit, Leave]
  {
    var loop := SessionMoves(p, ts, entered, c, moves);
    LoopServes(ts, entered / 1000, c, loop, lag);
    GapsOf(ts, entered / 1000, c, loop, lag);
    ThenLeaves([Join(CString(Characters(p.body))), JoinSent(true)], Flat(c.rs));
  }

  /**
   The server reads exactly the packets an honest client sent. With a server never more than
   `lag` behind and requests 200 ms and that lag apart, timely with their heartbeats, the
   connection consists of the join and its reply, requests served in order, and the leave. It is
   all of the requests if none comes more than five seconds after the one before, and only if
   none comes later than that by more than the lag.
   */
  lemma {:induction false} HonestClientServed(
    ps: seq<Packet>, first: uint32, rest: seq<byte>, ds: seq<Draws>, at: seq<nat>,
    entered: nat, c: Course, moves: seq<Move>, lag: nat)
    requires Honest(ps, first) && |ds| == |at| == |ps| - 1
    requires var ts := TurnsOf(ps[1..], ds, at);
             && ClientPath(FirstOf(ps[0]), ts, entered, c, moves) && Prompt(ts, c, lag)
             && Steady(ts, c.began, lag) && Timely(ts, lag)
    ensures AllSendable(ps) && ServerReads(FrameAll(ps) + rest, NEW_GUARD, |ps|) == (ps, rest)
    ensures var ts := TurnsOf(ps[1..], ds, at);
            && Served(Limiter(0, entered / 1000, 5, 1), ts, c.rs)
            && (Gaps(ts, c.began, 5000) ==> |c.rs| == |ps| - 1)
            && (|c.rs| == |ps| - 1 ==> Gaps(ts, c.began, 5000 + lag))
    ensures moves == [Join(CString(Characters(ps[0].body))), JoinSent(true)] + Flat(c.rs) + [Quit, Leave]
  {
    HonestRead(ps, first, rest);
    SessionServes(ps[0], TurnsOf(ps[1..], ds, at), entered, c, moves, lag);
  }
}
