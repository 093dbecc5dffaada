/**
 The moves a session's code is made of, request by request, read off a run of the state
 machine: which requests are answered, which one ends the session, and why.
 */
module Paths {
  import opened Record
  import opened Machine
  import opened Validator
  import opened RateLimiters

  /** The moves worker `me` makes in a list of actions. */
  function MovesOf(acts: seq<Action>, me: nat): seq<Move> {
    if acts == [] then []
    else
      var a := acts[|acts| - 1];
      MovesOf(acts[..|acts| - 1], me) + if a.Act? && a.who == me then [a.move] else []
  }

  /** `c` goes on from `b`, and worker `me` makes exactly the moves `ms` on the way. */
  ghost predicate Grew(b: Behaviour, c: Behaviour, me: nat, ms: seq<Move>) {
    b.states <= c.states && b.actions <= c.actions && MovesOf(c.actions, me) == MovesOf(b.actions, me) + ms
  }

  lemma GrewThen(b: Behaviour, c: Behaviour, me: nat, ms: seq<Move>, a: Action)
    requires Grew(b, c, me, ms) && c.IsRun() && Enabled(c.Last(), a)
    ensures Grew(b, c.Then(a), me, ms + if a.Act? && a.who == me then [a.move] else [])
    ensures c.Then(a).IsRun() && c.Then(a).Last() == Next(c.Last(), a)
  {
    ThenRun(c, a);
    assert (c.actions + [a])[..|c.actions|] == c.actions;
  }

  lemma GrewTwice(b: Behaviour, c: Behaviour, d: Behaviour, me: nat, ms: seq<Move>, ns: seq<Move>)
    requires Grew(b, c, me, ms) && Grew(c, d, me, ns)
    ensures Grew(b, d, me, ms + ns)
  {
  }

  /** The moves one attack is made of, for the dice and draws it was given. */
  predicate AttackPath(ms: seq<Move>, dice: int, boss: int, draw: nat) {
    ms == [AttackSnap(dice, dice)]
    || ms == [AttackSnap(dice, dice), Fight(boss, draw), Finish]
    || ms == [AttackSnap(dice, dice), Fight(boss, draw), Strike, Finish]
    || ms == [AttackSnap(dice, dice), Fight(boss, draw), Strike, Spawn, Finish]
  }

  /** The moves one heartbeat is made of. */
  predicate BeatPath(ms: seq<Move>) {
    ms == [BeatSnap, BeatClock] || ms == [BeatSnap, BeatClock] + [Clear]
  }

  // Seconds without a heartbeat, and of waiting for a packet, that end a session.
  const HEARTBEAT_TIMEOUT := 30
  const RECEIVE_TIMEOUT := 5

  /** What the server's random generator yields for one attack. */
  datatype Draws = Draws(serverRoll: int, bossRoll: int, draw: nat) {
    predicate Ok() {
      Die(serverRoll) && Die(bossRoll) && draw < 1000000
    }
  }

  /** The first packet of a connection, if one was received, and whether the reply could be sent. */
  datatype First = First(received: bool, opcode: nat, field: seq<char>, sent: bool)

  /**
   Something that arrives inside the session at millisecond `arrives`: whether the receiver makes
   an acceptable packet of it, and which, and whether the reply can be sent.
   */
  datatype Turn = Turn(
    arrives: nat,
    received: bool,
    opcode: nat,
    length: nat,
    raw: int,
    draws: Draws,
    sent: bool)

  /** The requests that are answered. */
  predicate Asks(t: Turn) {
    t.opcode == OP_ATTACK || t.opcode == OP_HEARTBEAT
  }

  /** The requests after which the session goes on, the limiter permitting. */
  predicate Welcome(t: Turn) {
    Sized(t) && t.opcode != OP_LEAVE && (Asks(t) ==> t.sent)
  }

  /** A request the server looks at: an opcode it knows with a length that goes with it. */
  predicate Sized(t: Turn) {
    ValidateOpcode(t.opcode) && SizeOk(t.opcode, t.length)
  }

  /** The moves a request is made of: none but quitting for one that is refused. */
  predicate RequestPath(ms: seq<Move>, allowed: bool, t: Turn) {
    if !allowed || !Sized(t) || t.opcode == OP_LEAVE then ms == [Quit]
    else if t.opcode == OP_JOIN then ms == [Ignore]
    else
      && ms != [] && ms[|ms| - 1] == Sent(t.sent)
      && var path := ms[..|ms| - 1];
         if t.opcode == OP_ATTACK
         then AttackPath(path, PlayerDice(t.raw, t.draws.serverRoll), t.draws.bossRoll, t.draws.draw)
         else BeatPath(path)
  }

  lemma AnsweredPath(path: seq<Move>, t: Turn)
    requires Sized(t)
    requires t.opcode == OP_ATTACK ==>
               AttackPath(path, PlayerDice(t.raw, t.draws.serverRoll), t.draws.bossRoll, t.draws.draw)
    requires t.opcode == OP_HEARTBEAT ==> BeatPath(path)
    ensures Asks(t) ==> RequestPath(path + [Sent(t.sent)], true, t)
  {
    var ms := path + [Sent(t.sent)];
    assert ms[..|ms| - 1] == path;
  }

  /** What the moves of a request are, in the numbers of the protocol. */
  lemma RequestMeans(ms: seq<Move>, allowed: bool, t: Turn)
    ensures RequestPath(ms, allowed, t) <==>
      if allowed && t.opcode == 0x11 && t.length == 16 then
        var dice := if 1 <= t.raw <= 6 then t.raw else t.draws.serverRoll;
        && ms != [] && ms[|ms| - 1] == Sent(t.sent)
        && ms[..|ms| - 1] in [
             [AttackSnap(dice, dice)],
             [AttackSnap(dice, dice), Fight(t.draws.bossRoll, t.draws.draw), Finish],
             [AttackSnap(dice, dice), Fight(t.draws.bossRoll, t.draws.draw), Strike, Finish],
             [AttackSnap(dice, dice), Fight(t.draws.bossRoll, t.draws.draw), Strike, Spawn, Finish]]
      else if allowed && t.opcode == 0x13 && 12 <= t.length <= 1036 then
        && ms != [] && ms[|ms| - 1] == Sent(t.sent)
        && ms[..|ms| - 1] in [[BeatSnap, BeatClock], [BeatSnap, BeatClock, Clear]]
      else if allowed && t.opcode == 0x10 && t.length == 44 then ms == [Ignore]
      else ms == [Quit]
  {
    assert [BeatSnap, BeatClock] + [Clear] == [BeatSnap, BeatClock, Clear];
  }

  /** After which requests the session goes on, the limiter permitting. */
  lemma WelcomeMeans(t: Turn)
    ensures Welcome(t) <==>
      || (t.opcode == 0x10 && t.length == 44)
      || (t.opcode == 0x11 && t.length == 16 && t.sent)
      || (t.opcode == 0x13 && 12 <= t.length <= 1036 && t.sent)
  {
  }

  /**
   A request the loop looked at, with milliseconds: when the silence was tested, when the wait for
   the packet began, when the limiter was asked and when the request was handled; and the moves
   made for it. The program reads its clock in whole seconds.
   */
  datatype Request = Request(tested: nat, waits: nat, now: nat, at: nat, ms: seq<Move>)

  /** The end of the loop: the last test of the silence, the last wait if there was one, and its end. */
  datatype Stop = Stop(tested: nat, waits: nat, left: nat)

  /** All of a session's loop: when it began, the requests it looked at, and how it stopped. */
  datatype Course = Course(began: nat, rs: seq<Request>, stop: Stop)

  /** The clock readings the limiter saw. */
  function Times(rs: seq<Request>): seq<int> {
    if rs == [] then [] else Times(rs[..|rs| - 1]) + [rs[|rs| - 1].now / 1000]
  }

  function Flat(rs: seq<Request>): seq<Move> {
    if rs == [] then [] else Flat(rs[..|rs| - 1]) + rs[|rs| - 1].ms
  }

  /** When the last heartbeat was handled, 0 if there was none. */
  function LastBeat(turns: seq<Turn>, rs: seq<Request>): int
    requires |rs| <= |turns|
  {
    var n := |rs| - 1;
    if rs == [] then 0
    else if turns[n].opcode == OP_HEARTBEAT then rs[n].at / 1000
    else LastBeat(turns, rs[..n])
  }

  /** More than thirty seconds without a heartbeat, once there has been one. */
  predicate Silent(lastHeartbeat: int, now: int) {
    lastHeartbeat > 0 && now - lastHeartbeat > HEARTBEAT_TIMEOUT
  }

  /** What comes next arrives within five seconds of the wait that begins at `waits`. */
  predicate Arrives(turns: seq<Turn>, n: nat, waits: nat) {
    n < |turns| && turns[n].arrives <= waits + 1000 * RECEIVE_TIMEOUT
  }

  /** The limiter's answer to a request at reading `now` after the requests `rs`. */
  function Asked(r: Limiter, rs: seq<Request>, now: int): (Limiter, bool) {
    Checked(LimiterAfter(r, Times(rs)), now)
  }

  /** The loop looks at `q` after the requests `rs`. */
  predicate Looks(r: Limiter, turns: seq<Turn>, rs: seq<Request>, q: Request) {
    && Arrives(turns, |rs|, q.waits) && turns[|rs|].received && turns[|rs|].arrives <= q.now
    && !Silent(LastBeat(turns, rs), q.tested / 1000)
    && RequestPath(q.ms, Asked(r, rs, q.now / 1000).1, turns[|rs|])
  }

  /** The request is let through and the session goes on after it. */
  predicate GoesOn(r: Limiter, turns: seq<Turn>, rs: seq<Request>, q: Request) {
    |rs| < |turns| && Asked(r, rs, q.now / 1000).1 && Welcome(turns[|rs|])
  }

  /** Every request of `rs` was looked at, let through and welcome. */
  predicate Served(r: Limiter, turns: seq<Turn>, rs: seq<Request>) {
    var n := |rs| - 1;
    rs == [] ||
    (Served(r, turns, rs[..n]) && Looks(r, turns, rs[..n], rs[n]) && GoesOn(r, turns, rs[..n], rs[n]))
  }

  /**
   After the requests `rs` the loop ends without another: the client had been silent for too
   long, or nothing arrived within five seconds of waiting, or what arrived was no packet.
   */
  predicate NothingMore(turns: seq<Turn>, rs: seq<Request>, stop: Stop)
    requires |rs| <= |turns|
  {
    && stop.tested <= stop.waits <= stop.left
    && (Silent(LastBeat(turns, rs), stop.tested / 1000)
        || if Arrives(turns, |rs|, stop.waits)
           then !turns[|rs|].received && turns[|rs|].arrives <= stop.left
           else stop.waits + 1000 * RECEIVE_TIMEOUT <= stop.left)
  }

  /**
   The loop's moves. Either all of `c.rs` was served and then nothing more came in time; or the
   last of them was looked at but not let through or not welcome.
   */
  predicate LoopPath(r: Limiter, turns: seq<Turn>, c: Course, ms: seq<Move>) {
    && InOrder(c.rs, c.began, c.stop.tested)
    && (|| (&& Served(r, turns, c.rs) && |c.rs| <= |turns| && NothingMore(turns, c.rs, c.stop)
            && ms == Flat(c.rs) + [Quit])
        || (var n := |c.rs| - 1;
            && n >= 0 && Served(r, turns, c.rs[..n]) && Looks(r, turns, c.rs[..n], c.rs[n])
            && !GoesOn(r, turns, c.rs[..n], c.rs[n]) && ms == Flat(c.rs)))
  }

  /** The times of `rs` go forward, from `from` to `to`. */
  predicate InOrder(rs: seq<Request>, from: nat, to: nat) {
    if rs == [] then from <= to
    else
      var q := rs[|rs| - 1];
      InOrder(rs[..|rs| - 1], from, q.tested) && q.tested <= q.waits <= q.now <= q.at <= to
  }

  /** A first packet that lets a session begin. */
  predicate Admitted(first: First) {
    first.received && first.opcode == OP_JOIN && ValidName(CString(first.field))
  }

  /** All the moves of a connection that was entered at millisecond `entered`. */
  predicate ClientPath(first: First, turns: seq<Turn>, entered: nat, c: Course, ms: seq<Move>) {
    var name := CString(first.field);
    if !Admitted(first) then ms == [Refuse]
    else if !first.sent then ms == [Join(name), JoinSent(false), Leave]
    else
      && |ms| >= 3 && ms[..2] == [Join(name), JoinSent(true)] && ms[|ms| - 1] == Leave
      && entered <= c.began && LoopPath(Limiter(0, entered / 1000, 5, 1), turns, c, ms[2..|ms| - 1])
  }

  lemma PathOf(first: First, turns: seq<Turn>, entered: nat, c: Course, loop: seq<Move>)
    requires Admitted(first) && first.sent && entered <= c.began
    requires LoopPath(Limiter(0, entered / 1000, 5, 1), turns, c, loop)
    ensures ClientPath(first, turns, entered, c, [Join(CString(first.field)), JoinSent(true)] + loop + [Leave])
  {
    assert ([Join(CString(first.field)), JoinSent(true)] + loop + [Leave])[2..|loop| + 2] == loop;
  }

  /** The bookkeeping of one more request, handled after `rs` at times from `from` to `to`. */
  lemma {:induction false} OneMore(r: Limiter, turns: seq<Turn>, rs: seq<Request>, q: Request, from: nat, to: nat)
    requires Served(r, turns, rs) && Looks(r, turns, rs, q)
    requires InOrder(rs, from, q.tested) && q.tested <= q.waits <= q.now <= q.at <= to
    ensures var rs' := rs + [q];
            && Flat(rs') == Flat(rs) + q.ms && InOrder(rs', from, to)
            && LimiterAfter(r, Times(rs')) == Asked(r, rs, q.now / 1000).0
            && LastBeat(turns, rs') == (if turns[|rs|].opcode == OP_HEARTBEAT then q.at / 1000 else LastBeat(turns, rs))
            && if GoesOn(r, turns, rs, q) then Served(r, turns, rs')
               else forall left :: LoopPath(r, turns, Course(from, rs', Stop(to, to, left)), Flat(rs'))
  {
    assert (rs + [q])[..|rs|] == rs;
    CheckedSnoc(r, Times(rs), q.now / 1000, 0, 0);
  }

  lemma {:induction false} OrderLater(rs: seq<Request>, from: nat, to: nat, later: nat)
    requires InOrder(rs, from, to) && to <= later
    ensures InOrder(rs, from, later)
  {
  }

  lemma {:induction false} OrderEarlier(rs: seq<Request>, earlier: nat, from: nat, to: nat)
    requires InOrder(rs, from, to) && earlier <= from
    ensures InOrder(rs, earlier, to)
  {
    if rs != [] {
      OrderEarlier(rs[..|rs| - 1], earlier, from, rs[|rs| - 1].tested);
    }
  }

  lemma {:induction false} OrderClock(rs: seq<Request>, from: nat, to: nat)
    requires InOrder(rs, from, to)
    ensures Clock(Times(rs), from / 1000) && |Times(rs)| == |rs| && from <= to
    ensures rs != [] ==> Times(rs)[|rs| - 1] == rs[|rs| - 1].now / 1000 <= to / 1000
  {
    if rs != [] {
      OrderClock(rs[..|rs| - 1], from, rs[|rs| - 1].tested);
    }
  }

  lemma {:induction false} ServedAllowed(r: Limiter, turns: seq<Turn>, rs: seq<Request>, a: int, b: int)
    requires Served(r, turns, rs)
    ensures Within(Times(rs), a, b) == Allowed(r, Times(rs), a, b)
  {
    if rs != [] {
      var n := |rs| - 1;
      ServedAllowed(r, turns, rs[..n], a, b);
      CheckedSnoc(r, Times(rs[..n]), rs[n].now / 1000, a, b);
      WithinAppend(Times(rs[..n]), [rs[n].now / 1000], a, b);
    }
  }

  /** A session serves at most five requests in any second of the clock, ten in any two. */
  lemma ServedPerSecond(turns: seq<Turn>, entered: nat, rs: seq<Request>, to: nat, a: int)
    requires Served(Limiter(0, entered / 1000, 5, 1), turns, rs) && InOrder(rs, entered, to)
    ensures Within(Times(rs), a, a + 1) <= 5 && Within(Times(rs), a, a + 2) <= 10
  {
    var r := Limiter(0, entered / 1000, 5, 1);
    OrderClock(rs, entered, to);
    SessionBound(entered / 1000, Times(rs), a);
    ServedAllowed(r, turns, rs, a, a + 1);
    ServedAllowed(r, turns, rs, a, a + 2);
  }
}
