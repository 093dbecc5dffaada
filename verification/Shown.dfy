/**
 What the player is shown. The screen is put together from the server's answers: an attack's
 answer replaces it, a heartbeat's replaces the raid and keeps the attack's numbers only if lucky.
 */
module Shown {
  import opened Counting
  import opened Handshake

  function Newest<T>(s: seq<T>): T
    requires s != []
  {
    s[|s| - 1]
  }

  /** What an update makes of the screen. */
  function Put<R>(latest: Screen<R>, u: Update<R>): Screen<R> {
    match u.kind
    case First => u.msg.(numbers := BLANK)
    case Attack => u.msg
    case Beat => Merged(latest, u.msg)
  }

  /** The screen after the updates `us`, from `blank`. */
  function Stored<R>(blank: Screen<R>, us: seq<Update<R>>): Screen<R> {
    if us == [] then blank else Put(Stored(blank, us[..|us| - 1]), Newest(us))
  }

  /** Every update from place `from` on is a heartbeat's. */
  predicate BeatsFrom<R>(us: seq<Update<R>>, from: nat) {
    forall x :: from <= x < |us| ==> us[x].kind == Beat
  }

  /** Every update from place `from` on is lucky. */
  predicate LuckyFrom<R>(us: seq<Update<R>>, from: nat) {
    forall x :: from <= x < |us| ==> us[x].msg.lucky
  }

  /** What the fold means: the last answer's raid, and the last attack's numbers while only lucky heartbeats follow. */
  lemma {:induction false} StoredMeans<R>(blank: Screen<R>, us: seq<Update<R>>, own: nat)
    requires own < |us| && us[own].kind == Attack && BeatsFrom(us, own + 1)
    ensures var s := Stored(blank, us);
            && s.raid == Newest(us).msg.raid && s.lucky == Newest(us).msg.lucky
            && s.numbers == if LuckyFrom(us, own + 1) then us[own].msg.numbers else BLANK
  {
    var n := |us| - 1;
    if own < n {
      StoredMeans(blank, us[..n], own);
      assert us[n].kind == Beat;
      assert LuckyFrom(us, own + 1) <==> LuckyFrom(us[..n], own + 1) && us[n].msg.lucky;
    }
  }

  /** The updates a step makes. */
  function Made<R>(s: State<R>, p: Step<R>): seq<Update<R>>
    requires CanStep(s, p)
  {
    match p
    case Boots(ok, _) => if ok then [Update(First, s.taken, s.inbox[0])] else []
    case Attacked(ok, _) => if ok then [Update(Attack, s.taken, s.inbox[0])] else []
    case Beats(ok, _) => if ok then [Update(Beat, s.taken, s.inbox[0])] else []
    case _ => []
  }

  /** How many answers a step takes in, shown or lost. */
  function Intake<R>(p: Step<R>): nat {
    match p
    case Boots(ok, lost) => if ok then 1 else lost
    case Attacked(ok, lost) => if ok then 1 else lost
    case Beats(ok, lost) => if ok then 1 else lost
    case _ => 0
  }

  lemma ShownStep<R>(s: State<R>, p: Step<R>)
    requires CanStep(s, p)
    ensures var s', us := After(s, p), Made(s, p);
            && Intake(p) <= |s.inbox| && s'.inbox == s.inbox[Intake(p)..] && s'.taken == s.taken + Intake(p)
            && s'.published == s.published + us
            && (us != [] ==> Intake(p) == 1 && |us| == 1 && us[0].place == s.taken && us[0].msg == s.inbox[0])
  {
  }

  lemma PutStep<R>(s: State<R>, p: Step<R>)
    requires CanStep(s, p)
    ensures After(s, p).f.latest == if Made(s, p) == [] then s.f.latest else Put(s.f.latest, Made(s, p)[0])
  {
  }

  lemma {:induction false} StoredSnoc<R>(blank: Screen<R>, us: seq<Update<R>>, u: Update<R>)
    ensures Stored(blank, us + [u]) == Put(Stored(blank, us), u)
  {
    assert (us + [u])[..|us|] == us;
  }

  /** From `r` to `s` answers were taken from the inbox in order; those shown are recorded with their places. */
  ghost predicate Reads<R>(r: State<R>, s: State<R>) {
    var n := |r.published|;
    && r.taken <= s.taken <= r.taken + |r.inbox| && s.inbox == r.inbox[s.taken - r.taken..]
    && r.published <= s.published
    && (forall x :: n <= x < |s.published| ==>
          r.taken <= s.published[x].place < s.taken
          && s.published[x].msg == r.inbox[s.published[x].place - r.taken])
    && forall x, y :: n <= x < y < |s.published| ==> s.published[x].place < s.published[y].place
  }

  lemma ReadsLost<R>(r: State<R>, s: State<R>, s': State<R>, n: nat)
    requires Reads(r, s) && n <= |s.inbox| && s'.inbox == s.inbox[n..] && s'.taken == s.taken + n
    requires s'.published == s.published
    ensures Reads(r, s')
  {
  }

  lemma ReadsShown<R>(r: State<R>, s: State<R>, s': State<R>, u: Update<R>)
    requires Reads(r, s) && s.inbox != [] && s'.inbox == s.inbox[1..] && s'.taken == s.taken + 1
    requires s'.published == s.published + [u] && u.place == s.taken && u.msg == s.inbox[0]
    ensures Reads(r, s')
  {
    assert s.inbox[0] == r.inbox[s.taken - r.taken];
  }

  lemma ReadsStep<R>(r: State<R>, s: State<R>, p: Step<R>)
    requires Reads(r, s) && CanStep(s, p)
    ensures Reads(r, After(s, p))
  {
    ShownStep(s, p);
    if Made(s, p) == [] {
      ReadsLost(r, s, After(s, p), Intake(p));
    } else {
      ReadsShown(r, s, After(s, p), Made(s, p)[0]);
    }
  }

  lemma {:induction false} InboxRead<R>(t: Trace<R>, j: nat, k: nat)
    requires t.Linked() && j <= k < |t.states|
    ensures Reads(t.states[j], t.states[k])
  {
    if j < k {
      InboxRead(t, j, k - 1);
      assert CanStep(t.states[k - 1], t.steps[k - 1]) && t.states[k] == After(t.states[k - 1], t.steps[k - 1]);
      ReadsStep(t.states[j], t.states[k - 1], t.steps[k - 1]);
    }
  }

  /**
   What the player is shown is put together from what the server answered, in order: every
   answer was taken in once, and shown or lost; the screen is what those shown make of the first.
   */
  lemma ShownInOrder<R>(t: Trace<R>, k: nat)
    requires t.IsTrace() && k < |t.states|
    ensures Reads(t.states[0], t.states[k])
    ensures t.states[k].f.latest == Stored(t.states[0].f.latest, t.states[k].published)
  {
    InboxRead(t, 0, k);
    StoredRun(t, k);
  }

  lemma {:induction false} StoredRun<R>(t: Trace<R>, k: nat)
    requires t.IsTrace() && k < |t.states|
    ensures t.states[k].f.latest == Stored(t.states[0].f.latest, t.states[k].published)
  {
    if k > 0 {
      StoredRun(t, k - 1);
      assert CanStep(t.states[k - 1], t.steps[k - 1]) && t.states[k] == After(t.states[k - 1], t.steps[k - 1]);
      var us := Made(t.states[k - 1], t.steps[k - 1]);
      ShownStep(t.states[k - 1], t.steps[k - 1]);
      PutStep(t.states[k - 1], t.steps[k - 1]);
      if us != [] {
        StoredSnoc(t.states[0].f.latest, t.states[k - 1].published, us[0]);
      }
    }
  }

  /** The raid and the lucky mark shown are those of the server's last answer. */
  lemma RaidIsLatest<R>(t: Trace<R>, k: nat)
    requires t.IsTrace() && k < |t.states| && t.states[k].published != []
    ensures var s := t.states[k];
            && s.f.latest.raid == Newest(s.published).msg.raid && s.f.latest.lucky == Newest(s.published).msg.lucky
            && Newest(s.published).place < |t.states[0].inbox|
            && Newest(s.published).msg == t.states[0].inbox[Newest(s.published).place]
  {
    ShownInOrder(t, k);
  }

  /** At any time, in a callback or not: the numbers shown are the last attack's while only lucky heartbeats follow. */
  lemma NumbersShown<R>(t: Trace<R>, k: nat, own: nat)
    requires t.IsTrace() && k < |t.states| && own < |t.states[k].published|
    requires t.states[k].published[own].kind == Attack && BeatsFrom(t.states[k].published, own + 1)
    ensures var s := t.states[k];
            s.f.latest.numbers
            == if LuckyFrom(s.published, own + 1) then s.published[own].msg.numbers else BLANK
  {
    ShownInOrder(t, k);
    StoredMeans(t.states[0].f.latest, t.states[k].published, own);
  }

  // Which answer a result of 0 shows.

  /** Step `j` brings in the one attack answer that comes in between the steps `c` and `k`. */
  ghost predicate OwnReply<R>(t: Trace<R>, c: nat, k: nat, j: nat) {
    && c < j < k < |t.steps| && t.steps[j] == Attacked(true, 0)
    && forall x :: c < x < k && x != j ==> !t.steps[x].Attacked?
  }

  /**
   What the player sees at `k`, after the attack answer of step `j`: every answer published since
   is a heartbeat's; the raid is that of the last of them, or the attack's own if there is none;
   the numbers are the attack's own if all of them are lucky, else none.
   */
  ghost predicate ShowsFrom<R>(t: Trace<R>, j: nat, k: nat)
    requires j < k < |t.states| == |t.steps| + 1
  {
    var r, s := t.states[j], t.states[k];
    var own := |r.published|;
    && r.inbox != [] && r.published + [Update(Attack, r.taken, r.inbox[0])] <= s.published
    && BeatsFrom(s.published, own + 1)
    && s.f.latest.raid == Newest(s.published).msg.raid && s.f.latest.lucky == Newest(s.published).msg.lucky
    && s.f.latest.numbers == (if LuckyFrom(s.published, own + 1) then r.inbox[0].numbers else BLANK)
  }

  lemma EndedStep<R>(s: State<R>, p: Step<R>)
    requires CanStep(s, p)
    ensures After(s, p).ended == s.ended + Bit(p.Attacked?)
  {
  }

  lemma {:induction false} EndedRun<R>(t: Trace<R>, j: nat, k: nat)
    requires t.Linked() && j <= k < |t.states|
    ensures t.states[j].ended <= t.states[k].ended
    ensures t.states[j].ended == t.states[k].ended ==> forall x :: j <= x < k ==> !t.steps[x].Attacked?
  {
    if j < k {
      EndedRun(t, j, k - 1);
      assert CanStep(t.states[k - 1], t.steps[k - 1]) && t.states[k] == After(t.states[k - 1], t.steps[k - 1]);
      EndedStep(t.states[k - 1], t.steps[k - 1]);
    }
  }

  /** Where the one round trip that ends between `j` and `k` ends. */
  lemma {:induction false} OneEnds<R>(t: Trace<R>, j: nat, k: nat) returns (r: nat)
    requires t.Linked() && j <= k < |t.states| && t.states[k].ended == t.states[j].ended + 1
    ensures j <= r < k && t.steps[r].Attacked?
    ensures forall x :: j <= x < k && x != r ==> !t.steps[x].Attacked?
  {
    assert CanStep(t.states[k - 1], t.steps[k - 1]) && t.states[k] == After(t.states[k - 1], t.steps[k - 1]);
    EndedStep(t.states[k - 1], t.steps[k - 1]);
    if t.steps[k - 1].Attacked? {
      r := k - 1;
      EndedRun(t, j, k - 1);
    } else {
      r := OneEnds(t, j, k - 1);
    }
  }

  lemma PublishStep<R>(s: State<R>, p: Step<R>)
    requires CanStep(s, p) && s.net != Boot
    ensures var s' := After(s, p);
            && s'.net != Boot
            && (p == Attacked(true, 0) ==>
                  s'.published == s.published + [Update(Attack, s.taken, s.inbox[0])] && s'.f.latest == s.inbox[0])
            && (p == Beats(true, 0) ==>
                  s'.published == s.published + [Update(Beat, s.taken, s.inbox[0])]
                  && s'.f.latest == Merged(s.f.latest, s.inbox[0]))
            && (p != Beats(true, 0) && p != Attacked(true, 0) ==>
                  s'.published == s.published && s'.f.latest == s.f.latest)
  {
  }

  lemma LuckySnoc<R>(us: seq<Update<R>>, u: Update<R>, from: nat)
    ensures from <= |us| ==> (LuckyFrom(us + [u], from) <==> LuckyFrom(us, from) && u.msg.lucky)
  {
    if LuckyFrom(us + [u], from) && from <= |us| {
      assert (us + [u])[|us|] == u;
      assert forall x :: from <= x < |us| ==> us[x] == (us + [u])[x];
    }
  }

  /** From step `j` on, which brings in an attack's answer, up to `k`, with no other in between. */
  lemma {:induction false} ShownSince<R>(t: Trace<R>, c: nat, j: nat, k: nat, m: nat)
    requires t.Linked() && OwnReply(t, c, k, j) && j < m <= k
    ensures ShowsFrom(t, j, m) && t.states[m].net != Boot
  {
    assert CanStep(t.states[m - 1], t.steps[m - 1]) && t.states[m] == After(t.states[m - 1], t.steps[m - 1]);
    if j + 1 < m {
      ShownSince(t, c, j, k, m - 1);
      LuckySnoc(t.states[m - 1].published, Newest(t.states[m].published), |t.states[j].published| + 1);
    }
    PublishStep(t.states[m - 1], t.steps[m - 1]);
  }

  /**
   A result of 0 from a call made with no older attack under way: exactly one attack answer came
   in since the call. The raid shown is that of the last answer published. The numbers shown are
   those of the call's own attack exactly when these are blank or every heartbeat published
   after its answer was lucky; otherwise none are shown.
   */
  lemma OwnAnswer<R>(t: Trace<R>, c: nat, k: nat) returns (j: nat)
    requires t.IsTrace() && CallIn(t, c, k) && t.states[c].net != InFlight
    ensures OwnReply(t, c, k, j) && ShowsFrom(t, j, k)
    ensures var own, s := t.states[j].inbox[0].numbers, t.states[k];
            s.f.latest.numbers == own <==> own == BLANK || LuckyFrom(s.published, |t.states[j].published| + 1)
  {
    HandshakeRun(t, c);
    HandshakeRun(t, k);
    CallRemembers(t, c, k, k);
    j := OneEnds(t, c, k);
    assert CanStep(t.states[j], t.steps[j]) && t.states[j + 1] == After(t.states[j], t.steps[j]);
    if !t.steps[j].ok {
      FailureIsFinal(t, j + 1, k);
    }
    ShownSince(t, c, j, k, k);
  }

  // When a call can be sure of its own numbers.

  /** An idle client that can still be answered. */
  predicate CanAsk<R>(s: State<R>) {
    s.ui == Idle && !s.f.shouldExit && s.f.networkError == 0 && s.net != InFlight && s.net != Done
  }

  /** How many answers can be taken in between a call and its own answer, and the call still succeed. */
  predicate MayPrecede(net: NetPc, o: nat) {
    if net == Beating then o == 1 else net == Boot || o == 0
  }

  /** Where the network thread is before the call's own answer, `used` answers after the call. */
  predicate Coming<R>(from: NetPc, s: State<R>, used: nat) {
    || s.net == Done
    || (s.f.attackRequested && s.net == from && used == 0)
    || (s.f.attackRequested && s.net == Top && MayPrecede(from, used))
    || (s.f.attackRequested && s.net == Pausing && from == Beating && used == 1)
    || (!s.f.attackRequested && s.net == InFlight && MayPrecede(from, used))
  }

  lemma ComingStep<R>(from: NetPc, s: State<R>, p: Step<R>, used: nat)
    requires CanStep(s, p) && Coming(from, s, used) && !p.Attacked? && from != InFlight
    requires InCall(s.ui) && InCall(After(s, p).ui)
    ensures Coming(from, After(s, p), used + Intake(p))
  {
  }

  /** How far a call made in state `s` can have come before its own answer at step `j`. */
  lemma {:induction false} AnswersBefore<R>(t: Trace<R>, s: State<R>, k: nat, j: nat, m: nat)
    requires CallFrom(t, s, k) && CanAsk(s) && OwnReply(t, 0, k, j) && 0 < m <= j
    ensures s.taken <= t.states[m].taken && Coming(s.net, t.states[m], t.states[m].taken - s.taken)
  {
    var r, p := t.states[m - 1], t.steps[m - 1];
    assert CanStep(r, p) && t.states[m] == After(r, p);
    if m > 1 {
      AnswersBefore(t, s, k, j, m - 1);
      ComingStep(s.net, r, p, r.taken - s.taken);
    }
    ShownStep(r, p);
  }

  /**
   `t` begins with a call in state `s`, whose own attack was answered at step `j` by the answer
   after the first `o`; the callback has not looked since, and `n` answers came in in all.
   */
  ghost predicate Unseen<R>(t: Trace<R>, s: State<R>, j: nat, o: nat, n: nat) {
    && t.Linked() && t.states[0] == s && 0 < j < |t.steps| && t.steps[0] == Call && t.steps[j] == Attacked(true, 0)
    && (forall m :: 0 < m < |t.states| ==> InCall(t.states[m].ui))
    && (forall x :: 0 < x < |t.steps| && x != j ==> !t.steps[x].Attacked?)
    && t.states[j].taken == s.taken + o
    && var e := t.states[|t.steps|];
       && e.f.attackCompleted && !e.f.attackRequested && !e.f.shouldExit && e.f.networkError == 0
       && (e.net == Top || e.net == Beating || e.net == Pausing)
       && e.taken == s.taken + n && e.timeouts == s.timeouts
       && e.published != [] && Newest(e.published).place + 1 == e.taken
  }

  /** The call is made, and the network thread comes round to the top of its loop with it. */
  ghost predicate Pending<R>(t: Trace<R>, s: State<R>, o: nat) {
    && t.Linked() && t.states[0] == s && t.steps != [] && t.steps[0] == Call
    && (forall m :: 0 < m < |t.states| ==> InCall(t.states[m].ui))
    && (forall x :: 0 < x < |t.steps| ==> !t.steps[x].Attacked?)
    && var e := t.states[|t.steps|];
       && e.f.attackRequested && !e.f.attackCompleted && !e.f.shouldExit && e.f.networkError == 0
       && e.net != InFlight && e.taken == s.taken + o && e.timeouts == s.timeouts
  }

  lemma PendingStep<R>(t: Trace<R>, s: State<R>, o: nat, p: Step<R>) returns (t': Trace<R>)
    requires Pending(t, s, o) && CanStep(t.states[|t.steps|], p)
    requires p.Boots? || p in {Beats(true, 0), Rests}
    ensures Pending(t', s, o + Intake(p))
    ensures t'.states[|t'.steps|] == After(t.states[|t.steps|], p)
  {
    t' := Extended(t, p);
  }

  lemma ReachesTop<R>(s: State<R>, o: nat) returns (t: Trace<R>)
    requires CanAsk(s) && MayPrecede(s.net, o) && o <= |s.inbox|
    ensures Pending(t, s, o) && t.states[|t.steps|].net == Top
  {
    t := Extended(Trace([s], []), Call);
    match s.net
    case Boot => t := PendingStep(t, s, 0, Boots(false, o));
    case Beating =>
      t := PendingStep(t, s, 0, Beats(true, 0));
      t := PendingStep(t, s, 1, Rests);
    case Pausing => t := PendingStep(t, s, 0, Rests);
    case Top =>
  }

  lemma GetsAnswer<R>(t: Trace<R>, s: State<R>, o: nat) returns (t': Trace<R>, j: nat)
    requires Pending(t, s, o) && t.states[|t.steps|].net == Top && t.states[|t.steps|].inbox != []
    ensures Unseen(t', s, j, o, o + 1)
  {
    var taken := Extended(t, Takes);
    t' := Extended(taken, Attacked(true, 0));
    j := |taken.steps|;
  }

  lemma UnseenStep<R>(t: Trace<R>, s: State<R>, j: nat, o: nat, n: nat, p: Step<R>) returns (t': Trace<R>)
    requires Unseen(t, s, j, o, n) && CanStep(t.states[|t.steps|], p) && p in {Rests, Takes, Beats(true, 0)}
    ensures Unseen(t', s, j, o, n + Intake(p))
    ensures t'.states[|t'.steps|] == After(t.states[|t.steps|], p)
  {
    t' := Extended(t, p);
  }

  /** One more heartbeat comes in. */
  lemma OneBeat<R>(t: Trace<R>, s: State<R>, j: nat, o: nat, n: nat) returns (t': Trace<R>)
    requires Unseen(t, s, j, o, n) && t.states[|t.steps|].inbox != []
    ensures Unseen(t', s, j, o, n + 1)
  {
    t' := t;
    if t'.states[|t'.steps|].net == Pausing {
      t' := UnseenStep(t', s, j, o, n, Rests);
    }
    if t'.states[|t'.steps|].net == Top {
      t' := UnseenStep(t', s, j, o, n, Takes);
    }
    t' := UnseenStep(t', s, j, o, n, Beats(true, 0));
  }

  /** Heartbeats come in until `n` answers have. */
  lemma {:induction false} BeatsTo<R>(t: Trace<R>, s: State<R>, j: nat, o: nat, m: nat, n: nat) returns (t': Trace<R>)
    requires Unseen(t, s, j, o, m) && m <= n <= |s.inbox|
    ensures Unseen(t', s, j, o, n)
    decreases n - m
  {
    t' := t;
    if m < n {
      InboxRead(t, 0, |t.steps|);
      t' := OneBeat(t, s, j, o, m);
      t' := BeatsTo(t', s, j, o, m + 1, n);
    }
  }

  /** Then the callback looks. */
  lemma LooksNow<R>(t: Trace<R>, s: State<R>, j: nat, o: nat, n: nat) returns (t': Trace<R>)
    requires Unseen(t, s, j, o, n)
    ensures CallFrom(t', s, |t.steps|) && OwnReply(t', 0, |t.steps|, j)
    ensures t'.states[j] == t.states[j] && t'.states[|t.steps|] == t.states[|t.steps|]
  {
    t' := Extended(t, Look);
  }

  lemma AnsweredAndMore<R>(s: State<R>, o: nat, x: nat) returns (t: Trace<R>, j: nat)
    requires CanAsk(s) && MayPrecede(s.net, o) && o < x < |s.inbox|
    ensures Unseen(t, s, j, o, x + 1)
  {
    t := ReachesTop(s, o);
    InboxRead(t, 0, |t.steps|);
    t, j := GetsAnswer(t, s, o);
    t := BeatsTo(t, s, j, o, o + 1, x + 1);
  }

  lemma BlankedBy<R>(t: Trace<R>, s: State<R>, j: nat, k: nat, x: nat)
    requires t.Linked() && t.states[0] == s && OwnReply(t, 0, k, j) && x < |s.inbox| && !s.inbox[x].lucky
    requires var us := t.states[k].published;
             us != [] && Newest(us).place == s.taken + x && t.states[j].taken < s.taken + x
    ensures t.states[k].f.latest.numbers == BLANK && t.states[k].f.latest.raid == s.inbox[x].raid
  {
    var us, n := t.states[k].published, |s.published|;
    InboxRead(t, 0, k);
    InboxRead(t, 0, j);
    ShownSince(t, 0, j, k, k);
    assert us[|t.states[j].published|].place == t.states[j].taken;
    assert Newest(us).msg == s.inbox[x];
  }

  /**
   A callback whose own answer is overwritten, from every state in which a call can be made: its
   own attack gets answer `o`, and heartbeats follow up to answer `x`, which is not lucky.
   */
  lemma Overwritten<R>(s: State<R>, o: nat, x: nat) returns (t: Trace<R>, j: nat, k: nat)
    requires CanAsk(s) && MayPrecede(s.net, o) && o < x < |s.inbox| && !s.inbox[x].lucky
    ensures CallFrom(t, s, k) && OwnReply(t, 0, k, j) && t.states[j].inbox == s.inbox[o..]
    ensures t.states[k].f.latest.numbers == BLANK && t.states[k].f.latest.raid == s.inbox[x].raid
    ensures t.states[k].timeouts == s.timeouts
  {
    var u;
    u, j := AnsweredAndMore(s, o, x);
    t := LooksNow(u, s, j, o, x + 1);
    k := |u.steps|;
    InboxRead(t, 0, j);
    BlankedBy(t, s, j, k, x);
  }

  /** What is shown at `k` has the numbers of the attack answered at `j`. */
  ghost predicate OwnShown<R>(t: Trace<R>, j: nat, k: nat)
    requires j < |t.states| && k < |t.states|
  {
    t.states[j].inbox != [] && t.states[k].f.latest.numbers == t.states[j].inbox[0].numbers
  }

  /** Every answer that can follow the own one on the screen is lucky, or there is nothing to lose. */
  ghost predicate NothingToLose<R>(s: State<R>) {
    forall o: nat, x: nat ::
      MayPrecede(s.net, o) && o < x < |s.inbox| && s.inbox[o].numbers != BLANK ==> s.inbox[x].lucky
  }

  lemma LuckyAfter<R>(s: State<R>, r: State<R>, own: nat)
    requires Reads(s, r) && |s.published| <= own < |r.published|
    requires forall x :: r.published[own].place - s.taken < x < |s.inbox| ==> s.inbox[x].lucky
    ensures LuckyFrom(r.published, own + 1)
  {
    forall y | own + 1 <= y < |r.published|
      ensures r.published[y].msg.lucky
    {
      assert r.published[own].place < r.published[y].place;
    }
  }

  /** Where the call's own answer is among those the state `s` has to come. */
  lemma OwnPlace<R>(s: State<R>, t: Trace<R>, k: nat, j: nat)
    requires CanAsk(s) && CallFrom(t, s, k) && OwnReply(t, 0, k, j)
    ensures var o := t.states[j].taken - s.taken;
            0 <= o < |s.inbox| && MayPrecede(s.net, o) && t.states[j].inbox == s.inbox[o..]
  {
    assert CanStep(t.states[j], t.steps[j]);
    AnswersBefore(t, s, k, j, j);
    InboxRead(t, 0, j);
  }

  lemma OwnKept<R>(s: State<R>, t: Trace<R>, k: nat, j: nat)
    requires CanAsk(s) && NothingToLose(s) && CallFrom(t, s, k) && OwnReply(t, 0, k, j)
    ensures OwnShown(t, j, k)
  {
    var own, o := |t.states[j].published|, t.states[j].taken - s.taken;
    OwnPlace(s, t, k, j);
    ShownSince(t, 0, j, k, k);
    if s.inbox[o].numbers != BLANK {
      InboxRead(t, 0, j);
      InboxRead(t, 0, k);
      assert t.states[k].published[own].place == t.states[j].taken;
      LuckyAfter(s, t.states[k], own);
    }
  }

  /** A result of 0 from a call made in `s` is sure to show the numbers of its own attack. */
  ghost predicate Sure<R(!new)>(s: State<R>) {
    forall t, k: nat, j: nat :: CallFrom(t, s, k) && OwnReply(t, 0, k, j) ==> OwnShown(t, j, k)
  }

  /**
   That is so exactly when every answer still to come after the own one is lucky, or the own one
   carries no numbers.
   */
  lemma OwnNumbersExactly<R(!new)>(s: State<R>)
    requires CanAsk(s)
    ensures Sure(s) <==> NothingToLose(s)
  {
    if NothingToLose(s) {
      forall t, k: nat, j: nat | CallFrom(t, s, k) && OwnReply(t, 0, k, j)
        ensures OwnShown(t, j, k)
      {
        OwnKept(s, t, k, j);
      }
    } else {
      var o: nat, x: nat :|
        MayPrecede(s.net, o) && o < x < |s.inbox| && s.inbox[o].numbers != BLANK && !s.inbox[x].lucky;
      var t, j, k := Overwritten(s, o, x);
      assert !OwnShown(t, j, k);
    }
  }

  /** Nothing in the client's own state at the call can make it sure; it takes the server's answers to come. */
  lemma NeverSureAlone<R(!new)>(s: State<R>, own: Screen<R>, beat: Screen<R>)
    requires CanAsk(s) && own.numbers != BLANK && !beat.lucky
    ensures exists inbox :: !Sure(s.(inbox := inbox))
  {
    var inbox := [own, own, beat];
    var o := if s.net == Beating then 1 else 0;
    assert MayPrecede(s.net, o) && !NothingToLose(s.(inbox := inbox)) by {
      assert inbox[o].numbers != BLANK && !inbox[2].lucky;
    }
    OwnNumbersExactly(s.(inbox := inbox));
  }

  /** A moment between two round trips at which it is not sure is reachable without a timeout. */
  lemma OverwriteReachable<R>(first: Screen<R>, own: Screen<R>, beat: Screen<R>) returns (t: Trace<R>)
    ensures t.IsTrace()
    ensures var s := t.states[|t.steps|];
            CanAsk(s) && s.net == Top && s.timeouts == 0 && s.inbox == [own, beat]
  {
    var s0 := State(Flags(first, false, false, false, false, 0), Idle, Boot,
                    0, 0, 0, 0, 0, 0, false, 0, 0, [first, own, beat], 0, []);
    t := Extended(Trace([s0], []), Boots(true, 0));
  }
}
