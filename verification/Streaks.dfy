/**
 What the 100-slot streak table stands for: the rolls every name has made, in lock order.
 The table is proved to hold, for each of the first hundred names, the length of the
 longest run of equal winning rolls that name has just made.
 */
module Streaks {
  import opened Record

  datatype Roll = Roll(name: string, dice: int, win: bool)

  /** The rolls of one name, in order. */
  function Of(h: seq<Roll>, name: string): seq<Roll> {
    if h == [] then []
    else
      var last := h[|h| - 1];
      Of(h[..|h| - 1], name) + if last.name == name then [last] else []
  }

  /** The distinct names, in order of first appearance. */
  function Names(h: seq<Roll>): seq<string> {
    if h == [] then []
    else
      var before := Names(h[..|h| - 1]);
      if h[|h| - 1].name in before then before else before + [h[|h| - 1].name]
  }

  /** The last `n` rolls are all wins with one dice value. */
  ghost predicate Combo(r: seq<Roll>, n: nat) {
    n <= |r| && forall k :: |r| - n <= k < |r| ==> r[k].win && r[k].dice == r[|r| - 1].dice
  }

  /** `n` is the length of the longest winning suffix with one dice value. */
  ghost predicate IsStreak(r: seq<Roll>, n: int) {
    0 <= n && forall k: nat :: Combo(r, k) <==> k <= n
  }

  lemma StreakUnique(r: seq<Roll>, m: int, n: int)
    requires IsStreak(r, m) && IsStreak(r, n)
    ensures m == n
  {
    assert Combo(r, m) && Combo(r, n);
  }

  ghost predicate SlotOk(p: PlayerHistory, h: seq<Roll>) {
    var r := Of(h, p.name);
    r != [] && p.lastDice == r[|r| - 1].dice && IsStreak(r, p.streak)
  }

  function Used(h: seq<Roll>): nat {
    if |Names(h)| <= 100 then |Names(h)| else 100
  }

  /** A name is followed when it is among the first hundred distinct names. */
  predicate Followed(h: seq<Roll>, name: string) {
    name in Names(h)[..Used(h)]
  }

  /** The table is exactly the summary of the rolls: filled from the front, names in order. */
  ghost predicate TableOk(ps: seq<PlayerHistory>, h: seq<Roll>) {
    && |ps| == 100
    && (forall i :: 0 <= i < Used(h) ==> ps[i].name == Names(h)[i] && ps[i].name != "" && SlotOk(ps[i], h))
    && (forall i :: Used(h) <= i < |ps| ==> ps[i].name == "")
  }

  ghost predicate Distinct(s: seq<string>) {
    forall i, j :: 0 <= i < j < |s| ==> s[i] != s[j]
  }

  lemma {:induction false} NamesDistinct(h: seq<Roll>)
    ensures Distinct(Names(h))
  {
    if h != [] {
      NamesDistinct(h[..|h| - 1]);
    }
  }

  /** A name with no slot among the names seen has made no roll. */
  lemma {:induction false} OfUnseen(h: seq<Roll>, name: string)
    ensures name in Names(h) <==> Of(h, name) != []
  {
    if h != [] {
      OfUnseen(h[..|h| - 1], name);
    }
  }

  lemma {:induction false} OfStep(h: seq<Roll>, x: Roll, name: string)
    ensures Of(h + [x], name) == if x.name == name then Of(h, name) + [x] else Of(h, name)
    ensures Names(h + [x]) == if x.name in Names(h) then Names(h) else Names(h) + [x.name]
  {
    assert (h + [x])[..|h|] == h;
  }

  lemma EmptyTable()
    ensures TableOk(Initial().players, [])
  {
  }

  lemma ComboSnoc(r: seq<Roll>, x: Roll, k: nat)
    ensures Combo(r + [x], k + 1)
       <==> x.win && Combo(r, k) && (k == 0 || r[|r| - 1].dice == x.dice)
  {
    var r' := r + [x];
    if Combo(r', k + 1) {
      assert r'[|r|] == x;
      assert forall j :: |r| - k <= j < |r| ==> r'[j] == r[j];
    }
  }

  /** The longest winning suffix after one more roll, from the one before. */
  function Prolonged(r: seq<Roll>, n: int, x: Roll): int {
    if !x.win then 0
    else if r != [] && x.dice == r[|r| - 1].dice then n + 1
    else 1
  }

  lemma StreakStep(r: seq<Roll>, n: int, x: Roll)
    requires IsStreak(r, n)
    ensures IsStreak(r + [x], Prolonged(r, n, x))
  {
    forall k: nat
      ensures Combo(r + [x], k) <==> k <= Prolonged(r, n, x)
    {
      if k > 0 {
        ComboSnoc(r, x, k - 1);
        assert Combo(r, k - 1) <==> k - 1 <= n;
      }
    }
  }

  lemma NoRolls()
    ensures IsStreak([], 0)
  {
    assert forall k: nat :: Combo([], k) <==> k <= 0;
  }

  /** What one locked update of the table owes: from `ps` after `h` to `ps'` after `h + [x]`. */
  ghost predicate UpdateOk(ps: seq<PlayerHistory>, h: seq<Roll>, x: Roll, ps': seq<PlayerHistory>, streak: int) {
    && |ps'| == |ps|
    && TableOk(ps', h + [x])
    && (if Followed(h + [x], x.name) then IsStreak(Of(h + [x], x.name), streak) else streak == 0)
    && (forall i :: 0 <= i < |ps| && ps[i].name != "" ==> ps'[i].name == ps[i].name)
    && (forall i :: 0 <= i < |ps| && ps'[i] != ps[i] ==> ps'[i].name == x.name)
  }

  lemma OtherSlot(p: PlayerHistory, h: seq<Roll>, x: Roll)
    requires SlotOk(p, h) && p.name != x.name
    ensures SlotOk(p, h + [x])
  {
    OfStep(h, x, p.name);
  }

  /** Slots of other names still summarise their own rolls. */
  lemma {:induction false} OthersKept(ps: seq<PlayerHistory>, h: seq<Roll>, x: Roll)
    requires TableOk(ps, h)
    ensures forall i :: 0 <= i < Used(h) && Names(h)[i] != x.name ==> SlotOk(ps[i], h + [x])
  {
    forall i | 0 <= i < Used(h) && Names(h)[i] != x.name
      ensures SlotOk(ps[i], h + [x])
    {
      OtherSlot(ps[i], h, x);
    }
  }

  /** The slot of a followed name after that name's next roll. */
  lemma NextRoll(p: PlayerHistory, h: seq<Roll>, x: Roll)
    requires SlotOk(p, h) && p.name == x.name
    ensures SlotOk(Rolled(p, x.dice, x.win), h + [x])
  {
    var r, q := Of(h, x.name), Rolled(p, x.dice, x.win);
    OfStep(h, x, x.name);
    assert Of(h + [x], q.name) == r + [x] && q.streak == Prolonged(r, p.streak, x);
    StreakStep(r, p.streak, x);
  }

  lemma {:induction false} StillFollowed(h: seq<Roll>, x: Roll, k: nat)
    requires k < Used(h) && Names(h)[k] == x.name
    ensures Names(h + [x]) == Names(h) && Used(h + [x]) == Used(h) && Followed(h + [x], x.name)
    ensures forall i :: 0 <= i < Used(h) && i != k ==> Names(h)[i] != x.name
  {
    OfStep(h, x, x.name);
    NamesDistinct(h);
    assert Names(h)[..Used(h)][k] == x.name;
  }

  lemma KnownName(ps: seq<PlayerHistory>, h: seq<Roll>, x: Roll, k: nat)
    requires TableOk(ps, h) && k < |ps| && ps[k].name == x.name != ""
    ensures var p := Rolled(ps[k], x.dice, x.win);
            UpdateOk(ps, h, x, ps[k := p], p.streak)
  {
    assert k < Used(h) && Names(h)[k] == x.name;
    StillFollowed(h, x, k);
    OthersKept(ps, h, x);
    NextRoll(ps[k], h, x);
  }

  lemma {:induction false} FirstRoll(h: seq<Roll>, x: Roll)
    requires x.name !in Names(h)
    ensures SlotOk(Rolled(PlayerHistory(x.name, 0, 0), x.dice, x.win), h + [x])
    ensures IsStreak(Of(h + [x], x.name), Rolled(PlayerHistory(x.name, 0, 0), x.dice, x.win).streak)
  {
    OfStep(h, x, x.name);
    OfUnseen(h, x.name);
    NoRolls();
    StreakStep([], 0, x);
    assert [] + [x] == [x] == Of(h + [x], x.name);
  }

  lemma {:induction false} NewSlot(ps: seq<PlayerHistory>, h: seq<Roll>, x: Roll)
    requires TableOk(ps, h) && x.name != "" && x.name !in Names(h) && Used(h) < MAX_TRACKED_PLAYERS
    ensures TableOk(ps[Used(h) := Rolled(PlayerHistory(x.name, 0, 0), x.dice, x.win)], h + [x])
    ensures Names(h + [x]) == Names(h) + [x.name] && Used(h + [x]) == Used(h) + 1 == |Names(h + [x])|
  {
    var u, h' := Used(h), h + [x];
    var ps' := ps[u := Rolled(PlayerHistory(x.name, 0, 0), x.dice, x.win)];
    OfStep(h, x, x.name);
    forall i | 0 <= i < u + 1
      ensures ps'[i].name == Names(h')[i] && ps'[i].name != "" && SlotOk(ps'[i], h')
    {
      if i < u {
        assert Names(h')[i] == Names(h)[i] == ps[i].name != x.name;
        OtherSlot(ps[i], h, x);
      } else {
        FirstRoll(h, x);
      }
    }
  }

  lemma {:induction false} NewlyFollowed(h: seq<Roll>, x: Roll)
    requires Names(h + [x]) == Names(h) + [x.name] && Used(h + [x]) == Used(h) + 1 == |Names(h + [x])|
    ensures Followed(h + [x], x.name)
  {
    assert Names(h + [x])[..Used(h) + 1][Used(h)] == x.name;
  }

  lemma {:induction false} NewName(ps: seq<PlayerHistory>, h: seq<Roll>, x: Roll)
    requires TableOk(ps, h) && x.name != "" && x.name !in Names(h) && Used(h) < MAX_TRACKED_PLAYERS
    ensures var p := Rolled(PlayerHistory(x.name, 0, 0), x.dice, x.win);
            UpdateOk(ps, h, x, ps[Used(h) := p], p.streak)
  {
    NewSlot(ps, h, x);
    NewlyFollowed(h, x);
    FirstRoll(h, x);
  }

  lemma {:induction false} LateName(ps: seq<PlayerHistory>, h: seq<Roll>, x: Roll)
    requires TableOk(ps, h) && Used(h) == MAX_TRACKED_PLAYERS && x.name !in Names(h)[..Used(h)]
    ensures UpdateOk(ps, h, x, ps, 0)
  {
    OfStep(h, x, x.name);
    OthersKept(ps, h, x);
    forall i | 0 <= i < Used(h)
      ensures Names(h)[i] != x.name
    {
      assert Names(h)[..Used(h)][i] == Names(h)[i];
    }
    assert Names(h + [x])[..Used(h)] == Names(h)[..Used(h)];
  }

  /** Where the two searches of the locked update end. */
  lemma {:induction false} SearchEnds(ps: seq<PlayerHistory>, h: seq<Roll>, name: string)
    requires TableOk(ps, h) && name != ""
    ensures FindName(ps, name, 0) < |ps| <==> name in Names(h)[..Used(h)]
    ensures FindFree(ps, 0) == Used(h)
  {
    var free := FindFree(ps, 0);
    assert Used(h) < |ps| ==> ps[Used(h)].name == "";
    assert free < |ps| ==> ps[free].name == "";
    if name in Names(h)[..Used(h)] {
      var i :| 0 <= i < Used(h) && Names(h)[..Used(h)][i] == name;
      assert ps[i].name == name;
    }
    var known := FindName(ps, name, 0);
    if known < |ps| {
      assert Names(h)[..Used(h)][known] == name;
    }
  }

  /**
   One locked update keeps the table a summary of the rolls, reports the longest winning
   suffix of a followed name and 0 for any other, and moves no slot.
   */
  lemma TableStep(ps: seq<PlayerHistory>, h: seq<Roll>, x: Roll)
    requires TableOk(ps, h) && ValidName(x.name)
    ensures var (ps', streak) := Tracked(ps, x.name, x.dice, x.win);
            UpdateOk(ps, h, x, ps', streak)
  {
    SearchEnds(ps, h, x.name);
    var known := FindName(ps, x.name, 0);
    if known < |ps| {
      KnownName(ps, h, x, known);
    } else if Used(h) < |ps| {
      assert Names(h)[..Used(h)] == Names(h);
      NewName(ps, h, x);
    } else {
      LateName(ps, h, x);
    }
  }
}
