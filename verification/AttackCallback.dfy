/**
 The UI thread's attack callback, running on the shared flags while the network thread takes
 whatever steps a schedule gives it.
 */
module AttackCallback {
  import opened Handshake
  import opened Shown

  // Seconds the callback waits for its attack.
  const ATTACK_TIMEOUT := 5

  /** Nothing of the callback's own has changed from `r` to `s`: only the network thread moved. */
  ghost predicate SameCall<R>(r: State<R>, s: State<R>) {
    && s.ui == r.ui && s.calls == r.calls && s.timeouts == r.timeouts
    && s.looks == r.looks && s.finds == r.finds
    && s.begunAtCall == r.begunAtCall && s.endedAtCall == r.endedAtCall && s.busyAtCall == r.busyAtCall
  }

  /** `t` goes on from `b`. */
  ghost predicate Longer<R>(b: Trace<R>, t: Trace<R>) {
    b.states <= t.states && b.steps <= t.steps
  }

  /** Step `c` of `t` is a callback call that has not returned by the end of `t`. */
  ghost predicate CallOpen<R>(t: Trace<R>, c: nat) {
    && t.Linked() && c < |t.steps| && t.steps[c] == Call
    && forall j :: c < j < |t.states| ==> InCall(t.states[j].ui)
  }

  lemma StaysOpen<R>(t: Trace<R>, t': Trace<R>, c: nat, p: Step<R>)
    requires CallOpen(t, c) && t'.Linked() && InCall(t'.states[|t'.steps|].ui)
    requires t'.steps == t.steps + [p] && t'.states[..|t.states|] == t.states
    ensures CallOpen(t', c)
  {
    assert forall j :: 0 <= j < |t.states| ==> t'.states[..|t.states|][j] == t'.states[j];
  }

  /** A look that succeeds ends the open call with a result of 0. */
  lemma Closes<R>(t: Trace<R>, t': Trace<R>, c: nat)
    requires CallOpen(t, c) && t'.Linked() && VerdictOf(t.states[|t.steps|].f) == Success
    requires t'.steps == t.steps + [Look] && t'.states[..|t.states|] == t.states
    ensures CallIn(t', c, |t.steps|) && t'.states[|t.steps|] == t.states[|t.steps|]
  {
    assert forall j :: 0 <= j < |t.states| ==> t'.states[..|t.states|][j] == t'.states[j];
  }

  /**
   How a call made in state `r` ended in state `s`: it looked at the flags `n + 1` times, and `n`
   waits in between were woken by the deadline. Either it gave up, because the next wait was not,
   with nothing found; or the last look, and none before, found the attack done or the client
   closing, and the result goes with what it found.
   */
  ghost predicate Outcome<R>(r: State<R>, s: State<R>, n: nat, deadline: nat, wakes: seq<nat>, ret: int) {
    && s.looks == n + 1 && n <= |wakes| && (forall m :: 0 <= m < n ==> wakes[m] <= deadline)
    && if s.timeouts != r.timeouts then
         && s.timeouts == r.timeouts + 1 && s.finds == 0
         && ret == -1 && (n == |wakes| || wakes[n] > deadline)
       else
         && s.finds == 1 && (s.f.attackCompleted || s.f.shouldExit)
         && ret == if s.f.attackCompleted && s.f.networkError == 0 && !s.f.shouldExit then 0 else -1
  }

  lemma TripCounts<R>(t: Trace<R>, c: nat, k: nat)
    requires t.IsTrace() && CallIn(t, c, k) && t.states[c].net != InFlight
    ensures t.states[k].begun == t.states[c].begun + 1 && t.states[k].ended == t.states[c].ended + 1
  {
    HandshakeRun(t, k);
    CallRemembers(t, c, k, k);
  }

  class UiThread<R> {
    const shared: SharedGameState<R>
    const blank: Screen<R>
    var net: NetPc
    var inbox: seq<Screen<R>>
    var schedule: seq<seq<Step<R>>>
    ghost var trace: Trace<R>

    ghost predicate Valid()
      reads this, shared
    {
      && trace.IsTrace()
      && Now().f == shared.View() && Now().net == net && Now().inbox == inbox
    }

    ghost function Now(): State<R>
      requires trace.Linked()
      reads this
    {
      trace.states[|trace.steps|]
    }

    constructor (shared: SharedGameState<R>, blank: Screen<R>, inbox: seq<Screen<R>>, schedule: seq<seq<Step<R>>>)
      requires shared.View() == Flags(blank, false, false, false, false, 0)
      ensures Valid() && Now().ui == Idle && this.shared == shared
    {
      this.shared := shared;
      this.blank := blank;
      this.net := Boot;
      this.inbox := inbox;
      this.schedule := schedule;
      this.trace := Trace([State(Flags(blank, false, false, false, false, 0), Idle, Boot,
                                 0, 0, 0, 0, 0, 0, false, 0, 0, inbox, 0, [])], []);
    }

    /** Whether the network thread can take the step now. */
    predicate NetCan(p: Step<R>)
      reads this, shared
    {
      match p
      case Boots(ok, lost) => net == Boot && if ok then lost == 0 && inbox != [] else lost <= |inbox|
      case Exits => net == Top && shared.shouldExit
      case Takes => net == Top && !shared.shouldExit
      case Attacked(ok, lost) => net == InFlight && if ok then lost == 0 && inbox != [] else lost <= |inbox|
      case Beats(ok, lost) => net == Beating && if ok then lost == 0 && inbox != [] else lost <= |inbox|
      case Rests => net == Pausing
      case _ => false
    }

    /** One step of the network thread, on the shared flags. */
    method NetStep(p: Step<R>)
      requires Valid() && NetCan(p)
      modifies this`net, this`inbox, this`trace, shared
      ensures Valid() && CanStep(old(Now()), p) && Now() == After(old(Now()), p) && SameCall(old(Now()), Now())
      ensures trace.steps == old(trace).steps + [p] && trace.states == old(trace).states + [Now()]
    {
      if p.Exits? || p.Takes? || p.Rests? {
        LoopStep(p);
      } else {
        EndTrip(p);
      }
      trace := Extended(trace, p);
    }

    /** The network thread's state is the one after the step, the trace has yet to say so. */
    ghost predicate Stepped(p: Step<R>)
      reads this, shared
    {
      && trace.IsTrace() && CanStep(Now(), p)
      && var s := After(Now(), p);
         s.f == shared.View() && s.net == net && s.inbox == inbox
    }

    /** What the thread's loop does between two round trips. */
    method LoopStep(p: Step<R>)
      requires Valid() && NetCan(p) && (p.Exits? || p.Takes? || p.Rests?)
      modifies this`net, shared
      ensures Stepped(p)
    {
      if p.Takes? {
        var has := shared.TakeRequest();
        net := if has then InFlight else Beating;
      } else {
        net := if p.Exits? then Done else Top;
      }
    }

    /** A round trip ends: the answer is put on the screen, or answers were lost. */
    method EndTrip(p: Step<R>)
      requires Valid() && NetCan(p) && (p.Boots? || p.Attacked? || p.Beats?)
      modifies this`net, this`inbox, shared
      ensures Stepped(p)
    {
      var before := inbox;
      inbox := if p.ok then before[1..] else before[p.lost..];
      match p {
        case Boots(ok, _) =>
          if ok {
            shared.FinishBoot(before[0]);
          }
          net := Top;
        case Attacked(ok, _) =>
          shared.FinishAttack(ok, if ok then before[0] else blank);
          net := Top;
        case Beats(ok, _) =>
          shared.FinishBeat(ok, if ok then before[0] else blank);
          net := if ok then Pausing else Done;
      }
    }

    /** The last step of the trace ends the call of step `c` with a result of 0. */
    ghost predicate Ended(c: nat)
      requires trace.Linked()
      reads this
    {
      var k := |trace.steps| - 1;
      && k > c && CallIn(trace, c, k)
      && Now().f.latest == trace.states[k].f.latest
      && Now().begun == trace.states[k].begun && Now().ended == trace.states[k].ended
    }

    /** The lock is free for a while: the network thread takes some steps inside the call of step `c`. */
    method Unlocked(ghost c: nat)
      requires Valid() && CallOpen(trace, c)
      modifies this`net, this`inbox, this`schedule, this`trace, shared
      ensures Valid() && CallOpen(trace, c) && Longer(old(trace), trace) && SameCall(old(Now()), Now())
    {
      if schedule == [] {
        return;
      }
      var batch := schedule[0];
      schedule := schedule[1..];
      for k := 0 to |batch|
        invariant Valid() && CallOpen(trace, c) && Longer(old(trace), trace) && SameCall(old(Now()), Now())
      {
        if NetCan(batch[k]) {
          ghost var before := trace;
          NetStep(batch[k]);
          StaysOpen(before, trace, c, batch[k]);
        }
      }
    }

    /** One turn of the wait loop of the call made at step `c`; its last step is the look at the flags. */
    method WaitTurn(ghost c: nat) returns (v: Verdict, shown: Screen<R>)
      requires Valid() && CallOpen(trace, c) && Now().finds == 0
      modifies this`net, this`inbox, this`schedule, this`trace, shared
      ensures Valid() && Longer(old(trace), trace) && |old(trace).steps| < |trace.steps|
      ensures Now().calls == old(Now().calls) && Now().timeouts == old(Now().timeouts)
      ensures Now().looks == old(Now().looks) + 1
      ensures if v == Wait then CallOpen(trace, c) && Now().ui == Sleeping && Now().finds == 0
              else Now().ui == Idle && Now().finds == 1 && (Now().f.attackCompleted || Now().f.shouldExit)
      ensures v == Success <==> Now().f.attackCompleted && Now().f.networkError == 0 && !Now().f.shouldExit
      ensures v == Success ==> Ended(c) && shown == Now().f.latest
    {
      Unlocked(c);
      ghost var before := trace;
      v, shown := shared.CheckAttack(blank);
      trace := Extended(trace, Look);
      if v == Wait {
        StaysOpen(before, trace, c, Look);
      } else if v == Success {
        Closes(before, trace, c);
      }
    }

    /** The timed wait runs out. */
    method GiveUp(ghost c: nat)
      requires Valid() && CallOpen(trace, c) && Now().ui == Sleeping
      modifies this`net, this`inbox, this`schedule, this`trace, shared
      ensures Valid() && Longer(old(trace), trace) && |old(trace).steps| < |trace.steps|
      ensures Now().ui == Idle && Now().calls == old(Now().calls) && Now().timeouts == old(Now().timeouts) + 1
      ensures Now().looks == old(Now().looks) && Now().finds == old(Now().finds)
    {
      Unlocked(c);
      trace := Extended(trace, Timeout);
    }

    /** The wait for the answer, until the deadline; `n` waits were woken by then. */
    method Await(deadline: nat, wakes: seq<nat>, ghost c: nat) returns (ret: int, shown: Screen<R>, ghost n: nat)
      requires Valid() && CallOpen(trace, c) && Now().looks == Now().finds == 0
      modifies this`net, this`inbox, this`schedule, this`trace, shared
      ensures Valid() && Now().ui == Idle && Longer(old(trace), trace) && Now().calls == old(Now().calls)
      ensures Outcome(old(Now()), Now(), n, deadline, wakes, ret)
      ensures ret == 0 ==> Ended(c) && shown == Now().f.latest
    {
      ghost var start := trace;
      var v;
      v, shown := WaitTurn(c);
      var k := 0;
      while v == Wait
        invariant 0 <= k <= |wakes| && forall m :: 0 <= m < k ==> wakes[m] <= deadline
        invariant Valid() && Longer(start, trace) && Now().looks == k + 1
        invariant Now().calls == old(Now().calls) && Now().timeouts == old(Now().timeouts)
        invariant if v == Wait then CallOpen(trace, c) && Now().ui == Sleeping && Now().finds == 0
                  else Now().ui == Idle && Now().finds == 1 && (Now().f.attackCompleted || Now().f.shouldExit)
        invariant v == Success <==> Now().f.attackCompleted && Now().f.networkError == 0 && !Now().f.shouldExit
        invariant v == Success ==> Ended(c) && shown == Now().f.latest
        decreases |wakes| - k, v == Wait
      {
        if k == |wakes| || wakes[k] > deadline {
          GiveUp(c);
          return -1, blank, k;
        }
        k := k + 1;
        v, shown := WaitTurn(c);
      }
      n := k;
      ret := if v == Success then 0 else -1;
    }

    /**
     The attack callback, called at millisecond `called`; its waits are woken at the times `wakes`.
     It gives up exactly when a wait was not woken within five seconds of the call; any other end
     is its first look that finds the attack done or the client closing.
     A result of 0 ends a call that began at the state it was made in, and comes with the screen
     as it is. If no attack was under way at the call, then exactly one round trip began and ended
     since and its answer came in at step `reply`. Only heartbeats' answers were published after
     it; the raid shown is that of the last answer, and the numbers shown are the attack's own if
     those heartbeats were all lucky, else none.
     */
    method AttackCb(called: nat, wakes: seq<nat>) returns (ret: int, shown: Screen<R>, ghost n: nat, ghost reply: nat)
      requires Valid() && Now().ui == Idle
      modifies this`net, this`inbox, this`schedule, this`trace, shared
      ensures Valid() && Now().ui == Idle && Longer(old(trace), trace) && Now().calls == old(Now().calls) + 1
      ensures Outcome(old(Now()), Now(), n, called + 5000, wakes, ret)
      ensures ret == 0 ==> Ended(|old(trace).steps|) && shown == Now().f.latest
      ensures ret == 0 && old(net) != InFlight ==>
                && Now().begun == old(Now().begun) + 1 && Now().ended == old(Now().ended) + 1
                && OwnReply(trace, |old(trace).steps|, |trace.steps| - 1, reply)
                && ShowsFrom(trace, reply, |trace.steps| - 1)
    {
      ghost var c := |trace.steps|;
      Ask();
      var deadline := called + 1000 * ATTACK_TIMEOUT;
      ret, shown, n := Await(deadline, wakes, c);
      reply := 0;
      if ret == 0 && old(net) != InFlight {
        reply := OneTrip(c);
      }
    }

    /** The locked body at the start of the callback. */
    method Ask()
      requires Valid() && Now().ui == Idle
      modifies this`trace, shared
      ensures Valid() && Longer(old(trace), trace) && |trace.steps| == |old(trace).steps| + 1
      ensures CallOpen(trace, |old(trace).steps|) && Now() == After(old(Now()), Call)
    {
      shared.RequestAttack();
      trace := Extended(trace, Call);
    }

    lemma OneTrip(c: nat) returns (reply: nat)
      requires Valid() && Ended(c) && trace.states[c].net != InFlight
      ensures Now().begun == trace.states[c].begun + 1 && Now().ended == trace.states[c].ended + 1
      ensures OwnReply(trace, c, |trace.steps| - 1, reply) && ShowsFrom(trace, reply, |trace.steps| - 1)
    {
      TripCounts(trace, c, |trace.steps| - 1);
      reply := OwnAnswer(trace, c, |trace.steps| - 1);
    }
  }
}
