/**
 The client's two threads. The UI thread asks for an attack and waits, at most for a while;
 the network thread does the round trips. They share four flags under one lock.
 */
module Handshake {
  import opened Counting

  /** What a game state says of an attack. */
  datatype Numbers = Numbers(crit: bool, damage: int, bossDice: int, streak: int, taken: int)

  const BLANK := Numbers(false, 0, 0, 0, 0)

  /** A game state as sent and as shown: the raid, the lucky mark, and an attack's numbers. */
  datatype Screen<R> = Screen(raid: R, lucky: bool, numbers: Numbers)

  /** What a heartbeat's answer makes of the screen: a lucky one leaves the attack's numbers as they are. */
  function Merged<R>(latest: Screen<R>, m: Screen<R>): Screen<R> {
    m.(numbers := if m.lucky then latest.numbers else BLANK)
  }

  /** The flags both threads see; `latest` is the latest game state, which the player is shown. */
  datatype Flags<R> = Flags(
    latest: Screen<R>,
    stateUpdated: bool,
    attackRequested: bool,
    attackCompleted: bool,
    shouldExit: bool,
    networkError: int)

  // The locked bodies, as effects on the flags.

  function Requested<R>(f: Flags<R>): Flags<R> {
    f.(attackRequested := true, attackCompleted := false)
  }

  function Taken<R>(f: Flags<R>): (Flags<R>, bool) {
    if f.attackRequested then (f.(attackRequested := false), true) else (f, false)
  }

  function AttackDone<R>(f: Flags<R>, m: Screen<R>): Flags<R> {
    f.(latest := m, stateUpdated := true, attackCompleted := true)
  }

  function AttackFailed<R>(f: Flags<R>): Flags<R> {
    f.(networkError := -1, attackCompleted := true)
  }

  /** The network thread's first heartbeat blanks the numbers in any case. */
  function BootDone<R>(f: Flags<R>, m: Screen<R>): Flags<R> {
    f.(latest := m.(numbers := BLANK), stateUpdated := true)
  }

  function BeatDone<R>(f: Flags<R>, m: Screen<R>): Flags<R> {
    f.(latest := Merged(f.latest, m), stateUpdated := true)
  }

  function BeatFailed<R>(f: Flags<R>): Flags<R> {
    f.(networkError := -1, shouldExit := true)
  }

  /** The waiting callback's check: not yet, or an answer of 0 or -1. */
  datatype Verdict = Wait | Success | Failure

  function VerdictOf<R>(f: Flags<R>): Verdict {
    if !f.attackCompleted && !f.shouldExit then Wait
    else if f.networkError != 0 || f.shouldExit then Failure
    else Success
  }

  class SharedGameState<R> {
    var latest: Screen<R>
    var stateUpdated: bool
    var attackRequested: bool
    var attackCompleted: bool
    var shouldExit: bool
    var networkError: int

    ghost function View(): Flags<R>
      reads this
    {
      Flags(latest, stateUpdated, attackRequested, attackCompleted, shouldExit, networkError)
    }

    constructor (blank: Screen<R>)
      ensures View() == Flags(blank, false, false, false, false, 0)
    {
      latest := blank;
      stateUpdated, attackRequested, attackCompleted, shouldExit := false, false, false, false;
      networkError := 0;
    }

    method RequestAttack()
      modifies this
      ensures View() == Requested(old(View())) == old(View()).(attackRequested := true, attackCompleted := false)
    {
      attackRequested := true;
      attackCompleted := false;
    }

    method TakeRequest() returns (hasAttack: bool)
      modifies this
      ensures (View(), hasAttack) == Taken(old(View())) && hasAttack == old(attackRequested)
      ensures View() == old(View()).(attackRequested := false)
    {
      hasAttack := false;
      if attackRequested {
        hasAttack := true;
        attackRequested := false;
      }
    }

    method FinishAttack(ok: bool, m: Screen<R>)
      modifies this
      ensures View() == if ok then AttackDone(old(View()), m) else AttackFailed(old(View()))
      ensures View() == if ok then old(View()).(latest := m, stateUpdated := true, attackCompleted := true)
                        else old(View()).(networkError := -1, attackCompleted := true)
    {
      if ok {
        latest := m;
        stateUpdated := true;
        attackCompleted := true;
      } else {
        networkError := -1;
        attackCompleted := true;
      }
    }

    method FinishBoot(m: Screen<R>)
      modifies this
      ensures View() == BootDone(old(View()), m)
      ensures View() == old(View()).(latest := Screen(m.raid, m.lucky, BLANK), stateUpdated := true)
    {
      latest := latest.(raid := m.raid, lucky := m.lucky);
      latest := latest.(numbers := BLANK);
      stateUpdated := true;
    }

    method FinishBeat(ok: bool, m: Screen<R>)
      modifies this
      ensures View() == if ok then BeatDone(old(View()), m) else BeatFailed(old(View()))
      ensures !ok ==> View() == old(View()).(networkError := -1, shouldExit := true)
      ensures ok ==>
                var shown := Screen(m.raid, m.lucky, if m.lucky then old(latest).numbers else BLANK);
                View() == old(View()).(latest := shown, stateUpdated := true)
    {
      if ok {
        latest := latest.(raid := m.raid, lucky := m.lucky);
        if !m.lucky {
          latest := latest.(numbers := BLANK);
        }
        stateUpdated := true;
      } else {
        networkError := -1;
        shouldExit := true;
      }
    }

    /** One turn of the callback's wait loop. */
    method CheckAttack(blank: Screen<R>) returns (v: Verdict, shown: Screen<R>)
      modifies this
      ensures v == VerdictOf(old(View()))
      ensures v == Wait <==> !attackCompleted && !shouldExit
      ensures v == Success <==> attackCompleted && networkError == 0 && !shouldExit
      ensures View() == if v == Success then old(View()).(stateUpdated := false) else old(View())
      ensures v == Success ==> shown == View().latest
    {
      shown := blank;
      if !attackCompleted && !shouldExit {
        return Wait, shown;
      }
      if networkError != 0 || shouldExit {
        return Failure, shown;
      }
      shown := latest;
      stateUpdated := false;
      v := Success;
    }

    method Quit()
      modifies this
      ensures View() == old(View()).(shouldExit := true)
    {
      shouldExit := true;
    }
  }

  datatype UiPc = Idle | Waiting | Sleeping | Gone

  datatype NetPc = Boot | Top | InFlight | Beating | Pausing | Done

  /** A server's answer put on the screen: what it answered, and the how manieth answer it was. */
  datatype Update<R> = Update(kind: Kind, place: nat, msg: Screen<R>)

  datatype Kind = First | Attack | Beat

  /**
   Both threads, and the history of this handshake: callback calls, attack round trips begun
   and ended, timeouts; what was the case when the current call was made; how often it has looked
   at the flags, and found the attack done or the client closing; answers taken in, and those of
   them shown.
   */
  datatype State<R> = State(
    f: Flags<R>,
    ui: UiPc,
    net: NetPc,
    calls: nat,
    begun: nat,
    ended: nat,
    timeouts: nat,
    begunAtCall: nat,
    endedAtCall: nat,
    busyAtCall: bool,
    looks: nat,
    finds: nat,
    inbox: seq<Screen<R>>,
    taken: nat,
    published: seq<Update<R>>)

  datatype Step<R> =
    | Call                           // the UI asks for an attack
    | Look                           // the waiting UI checks the flags
    | Timeout                        // the timed wait runs out: the callback fails without looking
    | Leave                          // the UI is closed
    | Boots(ok: bool, lost: nat)     // the network thread's first heartbeat
    | Exits                          // the loop guard sees the exit flag
    | Takes                          // it does not; a request is taken, or a heartbeat begins
    | Attacked(ok: bool, lost: nat)  // an attack round trip ends
    | Beats(ok: bool, lost: nat)     // a heartbeat round trip ends
    | Rests                          // half a second later

  /** A successful round trip takes one answer in; a failed one may have lost any number of them. */
  predicate CanEnd<R>(s: State<R>, ok: bool, lost: nat) {
    if ok then lost == 0 && s.inbox != [] else lost <= |s.inbox|
  }

  predicate CanStep<R>(s: State<R>, p: Step<R>) {
    match p
    case Call => s.ui == Idle
    case Look => s.ui == Waiting || s.ui == Sleeping
    case Timeout => s.ui == Sleeping
    case Leave => s.ui == Idle
    case Boots(ok, lost) => s.net == Boot && CanEnd(s, ok, lost)
    case Exits => s.net == Top && s.f.shouldExit
    case Takes => s.net == Top && !s.f.shouldExit
    case Attacked(ok, lost) => s.net == InFlight && CanEnd(s, ok, lost)
    case Beats(ok, lost) => s.net == Beating && CanEnd(s, ok, lost)
    case Rests => s.net == Pausing
  }

  function Receive<R>(s: State<R>, kind: Kind): State<R>
    requires s.inbox != []
  {
    s.(published := s.published + [Update(kind, s.taken, s.inbox[0])], inbox := s.inbox[1..], taken := s.taken + 1)
  }

  function Lose<R>(s: State<R>, lost: nat): State<R>
    requires lost <= |s.inbox|
  {
    s.(inbox := s.inbox[lost..], taken := s.taken + lost)
  }

  function After<R>(s: State<R>, p: Step<R>): State<R>
    requires CanStep(s, p)
  {
    match p
    case Call =>
      s.(f := Requested(s.f), ui := Waiting, calls := s.calls + 1,
         begunAtCall := s.begun, endedAtCall := s.ended, busyAtCall := s.net == InFlight, looks := 0, finds := 0)
    case Look =>
      var looked := s.(looks := s.looks + 1, finds := s.finds + Bit(s.f.attackCompleted || s.f.shouldExit));
      (match VerdictOf(s.f)
       case Wait => looked.(ui := Sleeping)
       case Success => looked.(ui := Idle, f := s.f.(stateUpdated := false))
       case Failure => looked.(ui := Idle))
    case Timeout => s.(ui := Idle, timeouts := s.timeouts + 1)
    case Leave => s.(ui := Gone, f := s.f.(shouldExit := true))
    case Boots(ok, lost) =>
      if ok then Receive(s, First).(net := Top, f := BootDone(s.f, s.inbox[0]))
      else Lose(s, lost).(net := Top)
    case Exits => s.(net := Done)
    case Takes =>
      var (f, has) := Taken(s.f);
      if has then s.(f := f, net := InFlight, begun := s.begun + 1) else s.(net := Beating)
    case Attacked(ok, lost) =>
      if ok then Receive(s, Attack).(net := Top, f := AttackDone(s.f, s.inbox[0]), ended := s.ended + 1)
      else Lose(s, lost).(net := Top, f := AttackFailed(s.f), ended := s.ended + 1)
    case Beats(ok, lost) =>
      if ok then Receive(s, Beat).(net := Pausing, f := BeatDone(s.f, s.inbox[0]))
      else Lose(s, lost).(net := Done, f := BeatFailed(s.f))
    case Rests => s.(net := Top)
  }

  ghost predicate Begins<R>(s: State<R>) {
    && s.f == Flags(s.f.latest, false, false, false, false, 0)
    && s.ui == Idle && s.net == Boot
    && s.calls == s.begun == s.ended == s.timeouts == s.begunAtCall == s.endedAtCall == 0
    && !s.busyAtCall && s.looks == s.finds == s.taken == 0 && s.published == []
  }

  datatype Trace<R> = Trace(states: seq<State<R>>, steps: seq<Step<R>>) {
    ghost predicate Linked() {
      && |states| == |steps| + 1
      && forall k {:trigger steps[k]} :: 0 <= k < |steps| ==>
           CanStep(states[k], steps[k]) && states[k + 1] == After(states[k], steps[k])
    }

    ghost predicate IsTrace() {
      Linked() && Begins(states[0])
    }
  }

  predicate InCall(ui: UiPc) {
    ui == Waiting || ui == Sleeping
  }

  /** Where the attack asked for by the current call is: asked, under way, or done. */
  function Places<R>(s: State<R>): nat {
    Bit(s.f.attackRequested) + Bit(s.net == InFlight) + Bit(s.f.attackCompleted)
  }

  ghost predicate HandshakeOk<R>(s: State<R>) {
    && s.begun == s.ended + Bit(s.net == InFlight)
    && s.begun + Bit(s.f.attackRequested) <= s.calls
    && (s.net == Done ==> s.f.shouldExit)
    && (s.ui == Gone ==> s.f.shouldExit)
    && (InCall(s.ui) && !s.busyAtCall ==>
          && Places(s) == 1
          && s.begun == s.begunAtCall + Bit(!s.f.attackRequested)
          && s.ended == s.endedAtCall + Bit(s.f.attackCompleted))
    && (s.timeouts == 0 && !s.f.shouldExit ==>
          && (InCall(s.ui) ==> !s.busyAtCall)
          && (s.ui == Idle ==> !s.f.attackRequested && s.net != InFlight))
  }

  predicate UiStep<R>(p: Step<R>) {
    p.Call? || p.Look? || p.Timeout? || p.Leave?
  }

  lemma HandshakeUi<R>(s: State<R>, p: Step<R>)
    requires HandshakeOk(s) && CanStep(s, p) && UiStep(p)
    ensures HandshakeOk(After(s, p))
  {
  }

  lemma HandshakeAttack<R>(s: State<R>, p: Step<R>)
    requires HandshakeOk(s) && CanStep(s, p) && (p.Takes? || p.Attacked?)
    ensures HandshakeOk(After(s, p))
  {
  }

  lemma HandshakeRest<R>(s: State<R>, p: Step<R>)
    requires HandshakeOk(s) && CanStep(s, p) && !UiStep(p) && !p.Takes? && !p.Attacked?
    ensures HandshakeOk(After(s, p))
  {
  }

  lemma HandshakeStep<R>(s: State<R>, p: Step<R>)
    requires HandshakeOk(s) && CanStep(s, p)
    ensures HandshakeOk(After(s, p))
  {
    if UiStep(p) {
      HandshakeUi(s, p);
    } else if p.Takes? || p.Attacked? {
      HandshakeAttack(s, p);
    } else {
      HandshakeRest(s, p);
    }
  }

  lemma {:induction false} HandshakeRun<R>(t: Trace<R>, k: nat)
    requires t.IsTrace() && k < |t.states|
    ensures HandshakeOk(t.states[k])
  {
    if k > 0 {
      HandshakeRun(t, k - 1);
      HandshakeStep(t.states[k - 1], t.steps[k - 1]);
    }
  }

  /**
   As long as no callback has timed out, the waiting callback's attack is in exactly one place,
   asked for, under way or done, unless the client is closing.
   */
  lemma OnePlace<R>(t: Trace<R>, k: nat)
    requires t.IsTrace() && k < |t.states| && t.states[k].timeouts == 0
    ensures InCall(t.states[k].ui) ==> t.states[k].f.shouldExit || Places(t.states[k]) == 1
  {
    HandshakeRun(t, k);
  }

  /** The callback returns 0 at step `k`. */
  ghost predicate Returns<R>(t: Trace<R>, k: nat) {
    && k < |t.steps| && |t.states| == |t.steps| + 1
    && t.steps[k] == Look && VerdictOf(t.states[k].f) == Success
  }

  /**
   A callback that returns 0, and was not made while an older attack was still under way,
   has seen exactly one attack round trip begin and end since it was made. With no timeout
   before, no older attack can be under way.
   */
  lemma ZeroMeansOneRoundTrip<R>(t: Trace<R>, k: nat)
    requires t.IsTrace() && Returns(t, k)
    ensures var s := t.states[k];
            && (!s.busyAtCall ==> s.begun == s.begunAtCall + 1 && s.ended == s.endedAtCall + 1)
            && (s.timeouts == 0 ==> !s.busyAtCall)
  {
    HandshakeRun(t, k);
    assert CanStep(t.states[k], t.steps[k]);
  }

  /** Attack round trips begun never exceed callback calls, timeouts or not; one at most is under way. */
  lemma RoundTripsBounded<R>(t: Trace<R>, k: nat)
    requires t.IsTrace() && k < |t.states|
    ensures t.states[k].ended <= t.states[k].begun <= t.states[k].calls && t.states[k].begun <= t.states[k].ended + 1
  {
    HandshakeRun(t, k);
  }

  /** Steps `c` to `k` of `t` are one callback call, returning 0 at step `k`. */
  ghost predicate CallIn<R>(t: Trace<R>, c: nat, k: nat) {
    && t.Linked() && c < k && Returns(t, k) && t.steps[c] == Call
    && forall j :: c < j <= k ==> InCall(t.states[j].ui)
  }

  /** Such a call made in state `s`. */
  ghost predicate CallFrom<R>(t: Trace<R>, s: State<R>, k: nat) {
    CallIn(t, 0, k) && t.states[0] == s
  }

  /** Exactly one attack round trip begins and ends during that call. */
  ghost predicate OneRoundTrip<R>(t: Trace<R>, k: nat)
    requires t.Linked() && k < |t.states|
  {
    t.states[k].begun == t.states[0].begun + 1 && t.states[k].ended == t.states[0].ended + 1
  }

  lemma {:induction false} OkOnwards<R>(t: Trace<R>, c: nat, j: nat)
    requires t.Linked() && c <= j < |t.states| && HandshakeOk(t.states[c])
    ensures HandshakeOk(t.states[j])
  {
    if c < j {
      OkOnwards(t, c, j - 1);
      HandshakeStep(t.states[j - 1], t.steps[j - 1]);
    }
  }

  lemma {:induction false} CallRemembers<R>(t: Trace<R>, c: nat, k: nat, j: nat)
    requires CallIn(t, c, k) && c < j <= k
    ensures var s, r := t.states[c], t.states[j];
            r.begunAtCall == s.begun && r.endedAtCall == s.ended && r.busyAtCall == (s.net == InFlight)
  {
    assert CanStep(t.states[j - 1], t.steps[j - 1]) && t.states[j] == After(t.states[j - 1], t.steps[j - 1]);
    if j > c + 1 {
      CallRemembers(t, c, k, j - 1);
    }
  }

  /** The shortest way to a stale answer: the older attack's reply comes in and the callback takes it. */
  lemma StaleReply<R>(s: State<R>) returns (t: Trace<R>, k: nat)
    requires s.ui == Idle && s.net == InFlight && !s.f.shouldExit && s.f.networkError == 0 && s.inbox != []
    ensures CallFrom(t, s, k) && t.states[k].begun == s.begun
  {
    var s1 := After(s, Call);
    var s2 := After(s1, Attacked(true, 0));
    var s3 := After(s2, Look);
    t := Trace([s, s1, s2, s3], [Call, Attacked(true, 0), Look]);
    k := 2;
  }

  /**
   A return of 0 always means one whole round trip of its own exactly when no older attack is
   under way at the moment of the call.
   */
  lemma OwnRoundTripExactly<R(!new)>(s: State<R>)
    requires HandshakeOk(s) && s.ui == Idle && !s.f.shouldExit && s.f.networkError == 0 && s.inbox != []
    ensures s.net != InFlight <==> forall t, k: nat :: CallFrom(t, s, k) ==> OneRoundTrip(t, k)
  {
    if s.net == InFlight {
      var t, k := StaleReply(s);
      assert !OneRoundTrip(t, k);
    } else {
      forall t, k: nat | CallFrom(t, s, k)
        ensures OneRoundTrip(t, k)
      {
        OkOnwards(t, 0, k);
        CallRemembers(t, 0, k, k);
      }
    }
  }

  lemma Extended<R>(t: Trace<R>, p: Step<R>) returns (t': Trace<R>)
    requires t.Linked() && CanStep(t.states[|t.steps|], p)
    ensures t'.Linked() && (t.IsTrace() ==> t'.IsTrace())
    ensures t'.steps == t.steps + [p] && t'.states[..|t.states|] == t.states
    ensures forall m :: 0 <= m < |t.states| ==> t'.states[m] == t.states[m]
    ensures t'.states[|t'.steps|] == After(t.states[|t.steps|], p)
  {
    t' := Trace(t.states + [After(t.states[|t.steps|], p)], t.steps + [p]);
  }

  /** That moment is reachable: a call that timed out leaves its attack under way. */
  lemma LateReplyReachable<R>(m: Screen<R>) returns (t: Trace<R>)
    ensures t.IsTrace()
    ensures var s := t.states[|t.steps|];
            s.ui == Idle && s.net == InFlight && !s.f.shouldExit && s.f.networkError == 0 && s.inbox != []
  {
    var s0 := State(Flags(m, false, false, false, false, 0), Idle, Boot, 0, 0, 0, 0, 0, 0, false, 0, 0, [m, m], 0, []);
    t := Extended(Trace([s0], []), Boots(true, 0));
    t := Extended(t, Call);
    t := Extended(t, Look);
    t := Extended(t, Takes);
    t := Extended(t, Timeout);
  }

  /** From one heartbeat's answer to the end of the next the thread has rested. */
  lemma {:induction false} RestsBetween<R>(t: Trace<R>, j: nat, k: nat) returns (r: nat)
    requires t.Linked() && j < k < |t.steps| && t.steps[j].Beats? && t.steps[k].Beats?
    ensures j < r < k && t.steps[r] == Rests
  {
    r := RestedSince(t, j, k);
    assert CanStep(t.states[k], t.steps[k]);
  }

  lemma {:induction false} RestedSince<R>(t: Trace<R>, j: nat, k: nat) returns (r: nat)
    requires t.Linked() && j < k < |t.states| && t.steps[j].Beats?
    ensures t.states[k].net == Pausing || t.states[k].net == Done || (j < r < k && t.steps[r] == Rests)
  {
    assert CanStep(t.states[k - 1], t.steps[k - 1]) && t.states[k] == After(t.states[k - 1], t.steps[k - 1]);
    r := k - 1;
    if j < k - 1 && t.steps[k - 1] != Rests {
      r := RestedSince(t, j, k - 1);
    }
  }

  lemma FailureStep<R>(s: State<R>, p: Step<R>)
    requires CanStep(s, p) && s.f.networkError != 0
    ensures After(s, p).f.networkError != 0
  {
    match p
    case Takes =>
    case Attacked(_, _) =>
    case Beats(_, _) =>
    case _ =>
  }

  /** After one failed round trip no callback ever returns 0 again. */
  lemma {:induction false} FailureIsFinal<R>(t: Trace<R>, j: nat, k: nat)
    requires t.Linked() && j <= k < |t.states| && t.states[j].f.networkError != 0
    ensures t.states[k].f.networkError != 0
    ensures !Returns(t, k)
  {
    if j < k {
      FailureIsFinal(t, j, k - 1);
      assert CanStep(t.states[k - 1], t.steps[k - 1]) && t.states[k] == After(t.states[k - 1], t.steps[k - 1]);
      FailureStep(t.states[k - 1], t.steps[k - 1]);
    }
  }
}
