/**
 The server as a state machine: any number of worker processes, one per connection, each
 walking its own session code and touching the shared record one locked body at a time.
 A move is one locked body together with the purely local code around it; between two
 moves of a worker every other worker may move any number of times.
 */
module Machine {
  import opened Record
  import opened Streaks

  const INSTANT_KILL_DAMAGE := 999999
  const LUCKY_SECONDS := 5

  /** What one attack computed, as reported to the player. */
  datatype AttackResult = AttackResult(
    bossDice: int,
    dmgDealt: int,
    dmgTaken: int,
    isWin: bool,
    isCrit: bool,
    bossJustDied: bool,
    isLucky: bool,
    streak: int)

  const NO_RESULT := AttackResult(0, 0, 0, false, false, false, false, 0)

  /** The game-state packet sent back for an attack or a heartbeat. */
  datatype GameStateMsg = GameStateMsg(
    hp: int,
    maxHp: int,
    online: int,
    stage: Stage,
    respawning: bool,
    isCrit: bool,
    isLucky: bool,
    lastDamage: int,
    lastBossDice: int,
    lastStreak: int,
    dmgTaken: int,
    killer: string)

  /** A reply, and (as history) which boss the answered attack felled: 0 none, 1 first, 2 second. */
  datatype Answer = Answer(msg: GameStateMsg, felled: nat)

  /** Where a worker stands. `epoch` is history: the number of kills when the attack looked first. */
  datatype Pc =
    | Connect
    | JoinReply
    | Ready
    | Fighting(dice: int, epoch: nat)
    | Striking(res: AttackResult, epoch: nat)
    | Spawning(res: AttackResult, felled: nat)
    | Finishing(res: AttackResult, felled: nat)
    | Beating(snap: Shared)
    | Clearing(answer: Answer)
    | Replying(answer: Answer)
    | Leaving
    | Exited

  /** A worker and its history: blows of 999999 it dealt, answers it sent, joins and leaves it made. */
  datatype Worker = Worker(
    pc: Pc,
    name: string,
    instants: nat,
    answers: seq<Answer>,
    joins: nat,
    leaves: nat)

  const NEW_WORKER := Worker(Connect, "", 0, [], 0, 0)

  /** A hit that a boss accepted: which boss, the damage asked for, and what it took off. */
  datatype Hit = Hit(boss: nat, damage: int, effective: int)

  /** A roll that brought a name to three equal wins or more, with the attack's epoch. */
  datatype ComboRoll = ComboRoll(name: string, epoch: nat)

  /** What has happened so far, in lock order. */
  datatype Log = Log(
    kills: seq<string>,
    hits: seq<Hit>,
    rolls: seq<Roll>,
    combos: seq<ComboRoll>,
    marks: seq<int>)

  const EMPTY_LOG := Log([], [], [], [], [])

  datatype World = World(g: Shared, ws: seq<Worker>, clock: int, log: Log)

  datatype Move =
    | Refuse                           // no usable first packet: exit without joining
    | Join(name: string)               // locked: join
    | JoinSent(ok: bool)               // join reply written, or not
    | Ignore                           // a second OP_JOIN inside the session
    | Quit                             // leave, timeout, refused or broken input
    | AttackSnap(raw: int, roll: int)  // locked: first look of an attack
    | Fight(boss: int, draw: nat)      // locked: mark lucky, or update the streak
    | Strike                           // locked: apply damage
    | Spawn                            // locked: spawn next boss
    | Finish                           // locked: last look of an attack
    | BeatSnap                         // locked: heartbeat's look
    | BeatClock                        // heartbeat reads the clock
    | Clear                            // locked: clear the lucky event
    | Sent(ok: bool)                   // answer written, or not
    | Leave                            // locked: leave, then exit

  datatype Action = Tick(dt: int) | Act(who: nat, move: Move)

  predicate Die(d: int) {
    1 <= d <= 6
  }

  /** The dice an attack is played with: the client's if it is one, else the server's roll. */
  function PlayerDice(raw: int, roll: int): int {
    if raw <= 0 || raw > 6 then roll else raw
  }

  function LuckyResult(boss: int): AttackResult {
    AttackResult(boss, INSTANT_KILL_DAMAGE, 0, true, true, false, true, 0)
  }

  function WinResult(dice: int, boss: int, streak: int): AttackResult {
    var damage := if streak >= 3 then INSTANT_KILL_DAMAGE else if dice == 6 then 2 * dice else dice;
    AttackResult(boss, damage, 0, true, dice == 6 || streak >= 3, false, false, streak)
  }

  function LossResult(dice: int, boss: int): AttackResult {
    AttackResult(boss, 0, if dice < boss then boss + 10 else 0, false, false, false, false, 0)
  }

  function AttackMsg(g: Shared, r: AttackResult): GameStateMsg {
    GameStateMsg(g.hp, g.maxHp, g.online, g.stage, g.respawning, r.isCrit, r.isLucky,
                 r.dmgDealt, r.bossDice, r.streak, r.dmgTaken, g.killer)
  }

  function BeatMsg(g: Shared, lucky: bool): GameStateMsg {
    GameStateMsg(g.hp, g.maxHp, g.online, g.stage, g.respawning, false, lucky, 0, 0, 0, 0, g.killer)
  }

  predicate CanMove(w: Worker, m: Move) {
    match m
    case Refuse => w.pc.Connect?
    case Join(name) => w.pc.Connect? && ValidName(name)
    case JoinSent(_) => w.pc.JoinReply?
    case Ignore => w.pc.Ready?
    case Quit => w.pc.Ready?
    case AttackSnap(raw, roll) => w.pc.Ready? && Die(roll)
    case Fight(boss, draw) => w.pc.Fighting? && Die(boss) && draw < 1000000
    case Strike => w.pc.Striking?
    case Spawn => w.pc.Spawning?
    case Finish => w.pc.Finishing?
    case BeatSnap => w.pc.Ready?
    case BeatClock => w.pc.Beating?
    case Clear => w.pc.Clearing?
    case Sent(_) => w.pc.Replying?
    case Leave => w.pc.Leaving?
  }

  datatype Outcome = Outcome(g: Shared, log: Log, w: Worker)

  // The worker's own code between two locked bodies.

  function AfterLook(g: Shared, log: Log, w: Worker, raw: int, roll: int): Worker {
    w.(pc := if g.respawning || g.stage == Dead then Replying(Answer(AttackMsg(g, NO_RESULT), 0))
             else Fighting(PlayerDice(raw, roll), |log.kills|))
  }

  function AfterRoll(w: Worker, boss: int, streak: int): Worker
    requires w.pc.Fighting?
  {
    w.(pc := if w.pc.dice > boss then Striking(WinResult(w.pc.dice, boss, streak), w.pc.epoch)
             else Finishing(LossResult(w.pc.dice, boss), 0))
  }

  function AfterStrike(w: Worker, killed: bool, boss: nat): Worker
    requires w.pc.Striking?
  {
    var res := w.pc.res;
    w.(pc := if killed then Spawning(res.(bossJustDied := true), boss) else Finishing(res, 0),
       instants := w.instants + if res.dmgDealt == INSTANT_KILL_DAMAGE then 1 else 0)
  }

  function AfterClock(w: Worker, now: int): Worker
    requires w.pc.Beating?
  {
    var snap := w.pc.snap;
    w.(pc := if snap.luckyEvent && now - snap.luckyTime > LUCKY_SECONDS
             then Clearing(Answer(BeatMsg(snap, false), 0))
             else Replying(Answer(BeatMsg(snap, snap.luckyEvent), 0)))
  }

  function LogRoll(log: Log, w: Worker, win: bool, streak: int): Log
    requires w.pc.Fighting?
  {
    log.(rolls := log.rolls + [Roll(w.name, w.pc.dice, win)],
         combos := log.combos + if streak >= 3 then [ComboRoll(w.name, w.pc.epoch)] else [])
  }

  function LogStrike(log: Log, g: Shared, damage: int, killed: bool, name: string): Log {
    if !Alive(g) then log
    else log.(hits := log.hits + [Hit(g.stage.Index(), damage, if damage < g.hp then damage else g.hp)],
              kills := log.kills + if killed then [name] else [])
  }

  /** One move of one worker: the new record, the new history and the new worker. */
  function Effect(g: Shared, log: Log, clock: int, w: Worker, m: Move): Outcome
    requires CanMove(w, m)
  {
    match m
    case Refuse => Outcome(g, log, w.(pc := Exited))
    case Join(name) => Outcome(Joined(g), log, w.(pc := JoinReply, name := name, joins := w.joins + 1))
    case JoinSent(ok) => Outcome(g, log, w.(pc := if ok then Ready else Leaving))
    case Ignore => Outcome(g, log, w)
    case Quit => Outcome(g, log, w.(pc := Leaving))
    case AttackSnap(raw, roll) => Outcome(g, log, AfterLook(g, log, w, raw, roll))
    case Fight(boss, draw) =>
      if draw == 0 then
        Outcome(Marked(g, clock), log.(marks := log.marks + [clock]),
                w.(pc := Striking(LuckyResult(boss), w.pc.epoch)))
      else
        var win := w.pc.dice > boss;
        var (ps, streak) := Tracked(g.players, w.name, w.pc.dice, win);
        Outcome(g.(players := ps), LogRoll(log, w, win, streak), AfterRoll(w, boss, streak))
    case Strike =>
      var damage := w.pc.res.dmgDealt;
      var (g', killed) := Damaged(g, damage, w.name);
      Outcome(g', LogStrike(log, g, damage, killed, w.name), AfterStrike(w, killed, g.stage.Index() + 1))
    case Spawn => Outcome(Spawned(g), log, w.(pc := Finishing(w.pc.res, w.pc.felled)))
    case Finish => Outcome(g, log, w.(pc := Replying(Answer(AttackMsg(g, w.pc.res), w.pc.felled))))
    case BeatSnap => Outcome(g, log, w.(pc := Beating(g)))
    case BeatClock => Outcome(g, log, AfterClock(w, clock))
    case Clear => Outcome(Cleared(g), log, w.(pc := Replying(w.pc.answer)))
    case Sent(ok) =>
      Outcome(g, log, if ok then w.(pc := Ready, answers := w.answers + [w.pc.answer]) else w.(pc := Leaving))
    case Leave => Outcome(Left(g), log, w.(pc := Exited, leaves := w.leaves + 1))
  }

  predicate Enabled(s: World, a: Action) {
    match a
    case Tick(dt) => dt >= 0
    case Act(i, m) => i < |s.ws| && CanMove(s.ws[i], m)
  }

  function Next(s: World, a: Action): World
    requires Enabled(s, a)
  {
    match a
    case Tick(dt) => s.(clock := s.clock + dt)
    case Act(i, m) =>
      var o := Effect(s.g, s.log, s.clock, s.ws[i], m);
      World(o.g, s.ws[i := o.w], s.clock, o.log)
  }

  ghost predicate Start(s: World) {
    && s.g == Initial()
    && s.log == EMPTY_LOG
    && forall w :: w in s.ws ==> w == NEW_WORKER
  }

  /** A finite behaviour: states and the actions between them. */
  datatype Behaviour = Behaviour(states: seq<World>, actions: seq<Action>) {
    ghost predicate Linked() {
      && |states| == |actions| + 1
      && forall k {:trigger actions[k]} :: 0 <= k < |actions| ==>
           Enabled(states[k], actions[k]) && states[k + 1] == Next(states[k], actions[k])
    }

    ghost predicate IsRun() {
      Linked() && Start(states[0])
    }

    function Last(): World
      requires states != []
    {
      states[|states| - 1]
    }

    function Then(a: Action): Behaviour
      requires states != [] && Enabled(Last(), a)
    {
      Behaviour(states + [Next(Last(), a)], actions + [a])
    }
  }

  lemma {:induction false} ClockMonotone(b: Behaviour, j: nat, k: nat)
    requires b.Linked() && j <= k < |b.states|
    ensures b.states[j].clock <= b.states[k].clock
  {
    if j < k {
      ClockMonotone(b, j, k - 1);
      var s, a := b.states[k - 1], b.actions[k - 1];
      assert Enabled(s, a) && b.states[k] == Next(s, a);
    }
  }

  lemma ThenRun(b: Behaviour, a: Action)
    requires b.IsRun() && Enabled(b.Last(), a)
    ensures b.Then(a).IsRun() && b.Then(a).Last() == Next(b.Last(), a)
    ensures b.Then(a).actions == b.actions + [a]
  {
  }
}
