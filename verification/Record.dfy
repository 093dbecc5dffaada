/**
 The record shared by all worker processes, and the effect of every locked body on it.
 Each function below is one critical section: what it does to the record, as a value.
 */
module Record {

  const BOSS_1_MAX_HP := 1000
  const BOSS_2_MAX_HP := 2000
  const MAX_TRACKED_PLAYERS := 100
  const NAME_BYTES := 31

  datatype Stage = Stage1 | Stage2 | Dead {
    function Index(): nat {
      match this
      case Stage1 => 0
      case Stage2 => 1
      case Dead => 2
    }
  }

  /** One slot of the streak table. An empty name marks a free slot. */
  datatype PlayerHistory = PlayerHistory(name: string, lastDice: int, streak: int)

  datatype Shared = Shared(
    hp: int,
    maxHp: int,
    stage: Stage,
    online: int,
    respawning: bool,
    killer: string,
    luckyEvent: bool,
    luckyTime: int,
    players: seq<PlayerHistory>)

  const FREE_SLOT := PlayerHistory("", 0, 0)

  function Initial(): Shared {
    Shared(BOSS_1_MAX_HP, BOSS_1_MAX_HP, Stage1, 0, false, "", false, 0,
           seq(MAX_TRACKED_PLAYERS, _ => FREE_SLOT))
  }

  /** What a 32-byte name field reads as after a bounded copy of at most 31 bytes. */
  function Copied(name: string): string {
    if |name| <= NAME_BYTES then name else name[..NAME_BYTES]
  }

  predicate NameChar(c: char) {
    'a' <= c <= 'z' || 'A' <= c <= 'Z' || '0' <= c <= '9' || c == '_' || c == '-'
  }

  /** The names the server lets in. */
  predicate ValidName(name: string) {
    1 <= |name| <= NAME_BYTES && forall c :: c in name ==> NameChar(c)
  }

  /** A boss that can still be hit. */
  predicate Alive(g: Shared) {
    !g.respawning && g.stage != Dead
  }

  function Joined(g: Shared): Shared {
    g.(online := g.online + 1)
  }

  function Left(g: Shared): Shared {
    if g.online > 0 then g.(online := g.online - 1) else g
  }

  function Damaged(g: Shared, damage: int, attacker: string): (Shared, bool) {
    if g.respawning || g.stage == Dead then
      (g, false)
    else if g.hp - damage <= 0 then
      (g.(hp := 0, respawning := true, killer := Copied(attacker)), true)
    else
      (g.(hp := g.hp - damage), false)
  }

  function Spawned(g: Shared): Shared {
    if g.stage == Stage1 then
      g.(stage := Stage2, maxHp := BOSS_2_MAX_HP, hp := BOSS_2_MAX_HP, respawning := false, killer := "")
    else
      g.(stage := Dead, hp := 0, respawning := false)
  }

  function Marked(g: Shared, now: int): Shared {
    g.(luckyEvent := true, luckyTime := now)
  }

  function Cleared(g: Shared): Shared {
    g.(luckyEvent := false, luckyTime := 0)
  }

  /** First slot from `i` on that carries `name`; the table's length when there is none. */
  function FindName(ps: seq<PlayerHistory>, name: string, i: nat): (k: nat)
    requires i <= |ps|
    ensures i <= k <= |ps|
    ensures k < |ps| ==> ps[k].name == name && name != ""
    ensures forall j :: i <= j < k ==> ps[j].name == "" || ps[j].name != name
    decreases |ps| - i
  {
    if i == |ps| then i
    else if ps[i].name != "" && ps[i].name == name then i
    else FindName(ps, name, i + 1)
  }

  /** First free slot from `i` on; the table's length when there is none. */
  function FindFree(ps: seq<PlayerHistory>, i: nat): (k: nat)
    requires i <= |ps|
    ensures i <= k <= |ps|
    ensures k < |ps| ==> ps[k].name == ""
    ensures forall j :: i <= j < k ==> ps[j].name != ""
    decreases |ps| - i
  {
    if i == |ps| then i
    else if ps[i].name == "" then i
    else FindFree(ps, i + 1)
  }

  function Rolled(p: PlayerHistory, dice: int, win: bool): PlayerHistory {
    var streak := if !win then 0 else if p.lastDice == dice then p.streak + 1 else 1;
    PlayerHistory(p.name, dice, streak)
  }

  /** The streak table after one roll, and the streak reported to the caller. */
  function Tracked(ps: seq<PlayerHistory>, name: string, dice: int, win: bool): (seq<PlayerHistory>, int) {
    var known := FindName(ps, name, 0);
    var free := FindFree(ps, 0);
    if known < |ps| then
      var p := Rolled(ps[known], dice, win);
      (ps[known := p], p.streak)
    else if free < |ps| then
      var p := Rolled(PlayerHistory(Copied(name), 0, 0), dice, win);
      (ps[free := p], p.streak)
    else
      (ps, 0)
  }

  /** Life left in the whole raid: what must still be dealt before the last boss is down. */
  function Remaining(stage: Stage, hp: int): int {
    match stage
    case Stage1 => hp + BOSS_2_MAX_HP
    case Stage2 => hp
    case Dead => 0
  }
}
