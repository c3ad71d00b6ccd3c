/**
  When a scenario does what (pkg/warmup/scenario_executor.go): which Sends each request makes, at
  which readings of the clock and of the limiter, how each request, step and run ends.  Together
  with what module Scenario says about sessions and deadlines this determines the whole run.
 */
module Timeline {
  import opened Common
  import opened Environment
  import opened Config
  import opened JsonPath
  import opened Session
  import opened Scenario
  import Executor

  // ---------------------------------------------------------------- one request

  /** Send r of a request that begins at tick `from`: before it the context was found alive and the
      limiter admitted it; it goes to the request's target, and its response is the one given then. */
  ghost predicate MadeAt(job: Job, at: Place, ctx: Context, visit: nat, from: nat, r: nat, e: Sent)
    requires InSpec(job, at)
  {
    var req := RequestAt(job, at);
    && job.env.now(from + 3 * r) < ctx.doneAt && job.env.admits(from + 3 * r + 1)
    && e.visit == visit && e.place == at && e.deadline == ctx.doneAt
    && e.target == job.aim(req, at.session)
    && e.response == job.env.send(from + 3 * r + 2, job.protocol(req), job.aim(req, at.session))
  }

  /** A request that is to be sent n times and made `sends` Sends: all of them, or as many as it
      could before the context was found done, or before the limiter failed, which charges the rest. */
  ghost predicate EndsAfter(job: Job, ctx: Context, n: int, from: nat, sends: int, charged: int, end: nat) {
    && 0 <= sends <= n
    && if sends == n then charged == 0 && end == from + 3 * sends
       else if job.env.now(from + 3 * sends) >= ctx.doneAt then charged == 0 && end == from + 3 * sends + 1
       else !job.env.admits(from + 3 * sends + 1) && charged == n - sends && end == from + 3 * sends + 2
  }

  ghost predicate AllMadeAt(job: Job, at: Place, ctx: Context, visit: nat, from: nat, made: seq<Sent>)
    requires InSpec(job, at)
  {
    forall r: nat :: r < |made| ==> MadeAt(job, at, ctx, visit, from, r, made[r])
  }

  lemma OneMore(job: Job, at: Place, ctx: Context, visit: nat, from: nat, e: Sent, rest: seq<Sent>)
    requires InSpec(job, at) && MadeAt(job, at, ctx, visit, from, 0, e)
    requires AllMadeAt(job, at, ctx, visit, from + 3, rest)
    ensures AllMadeAt(job, at, ctx, visit, from, [e] + rest)
  {
    forall r: nat | r < |[e] + rest| ensures MadeAt(job, at, ctx, visit, from, r, ([e] + rest)[r]) {
      if r > 0 {
        assert MadeAt(job, at, ctx, visit, from + 3, r - 1, rest[r - 1]);
        assert from + 3 + 3 * (r - 1) == from + 3 * r;
      }
    }
  }

  /** `rep` repeats a request as the job does. */
  ghost predicate RepeatsAs(job: Job, at: Place, ctx: Context, rep: (nat, State) -> State, n: nat, s: State)
    requires InSpec(job, at)
  {
    rep(n, s) == Repeat(job, at, ctx, n, s)
  }

  ghost predicate RepeatsAll(job: Job, at: Place, ctx: Context, rep: (nat, State) -> State)
    requires InSpec(job, at)
  {
    forall n, s :: RepeatsAs(job, at, ctx, rep, n, s)
  }

  lemma SendIs(job: Job, at: Place, ctx: Context, n: nat, s: State, rep: (nat, State) -> State)
    returns (e: Sent, t: State)
    requires InSpec(job, at) && at.session == s.p.data && RepeatsAll(job, at, ctx, rep)
    requires n > 0 && !Expired(ctx, job.env.now(s.tick)) && job.env.admits(s.tick + 1)
    ensures MadeAt(job, at, ctx, |s.p.visits|, s.tick, 0, e) && rep(n, s) == rep(n - 1, t)
    ensures t.tick == s.tick + 3 && t.p.log == s.p.log + [e] && t.p.skipped == s.p.skipped && SamePlace(s.p, t.p)
  {
    t := State(s.tick + 3, AfterSend(job, at, ctx, s.p, ResponseAt(job, at, s)));
    e := t.p.log[|s.p.log|];
    assert RepeatsAs(job, at, ctx, rep, n, s) && RepeatsAs(job, at, ctx, rep, n - 1, t);
  }

  lemma StopIs(job: Job, at: Place, ctx: Context, n: nat, s: State, rep: (nat, State) -> State)
    requires InSpec(job, at) && RepeatsAll(job, at, ctx, rep)
    requires n == 0 || Expired(ctx, job.env.now(s.tick)) || !job.env.admits(s.tick + 1)
    ensures var q := rep(n, s);
            && q.p.log == s.p.log && SamePlace(s.p, q.p)
            && EndsAfter(job, ctx, n, s.tick, 0, q.p.skipped - s.p.skipped, q.tick)
  {
    assert RepeatsAs(job, at, ctx, rep, n, s);
  }

  /** The repetitions of a request: `made` are its Sends. */
  lemma {:induction false} RepeatIs(job: Job, at: Place, ctx: Context, n: nat, s: State, rep: (nat, State) -> State)
    returns (made: seq<Sent>)
    requires InSpec(job, at) && at.session == s.p.data && RepeatsAll(job, at, ctx, rep)
    ensures var q := rep(n, s);
            && q.p.log == s.p.log + made && SamePlace(s.p, q.p)
            && EndsAfter(job, ctx, n, s.tick, |made|, q.p.skipped - s.p.skipped, q.tick)
    ensures AllMadeAt(job, at, ctx, |s.p.visits|, s.tick, made)
    decreases n
  {
    if n == 0 || Expired(ctx, job.env.now(s.tick)) || !job.env.admits(s.tick + 1) {
      made := [];
      StopIs(job, at, ctx, n, s, rep);
    } else {
      var e, t := SendIs(job, at, ctx, n, s, rep);
      var rest := RepeatIs(job, at, ctx, n - 1, t, rep);
      OneMore(job, at, ctx, |s.p.visits|, s.tick, e, rest);
      EndsLater(job, ctx, n, s.tick, |rest|, rep(n, s).p.skipped - s.p.skipped, rep(n, s).tick);
      made := [e] + rest;
      assert s.p.log + made == t.p.log + rest;
    }
  }

  lemma EndsLater(job: Job, ctx: Context, n: int, from: nat, sends: int, charged: int, end: nat)
    requires EndsAfter(job, ctx, n - 1, from + 3, sends, charged, end)
    ensures EndsAfter(job, ctx, n, from, sends + 1, charged, end)
  {
    assert from + 3 * (sends + 1) == from + 3 + 3 * sends;
  }

  lemma Repeating(job: Job, at: Place, ctx: Context) returns (rep: (nat, State) -> State)
    requires InSpec(job, at)
    ensures RepeatsAll(job, at, ctx, rep)
  {
    rep := (n: nat, s: State) => RepeatTotal(job, at, ctx, n, s);
  }

  ghost function RepeatTotal(job: Job, at: Place, ctx: Context, n: nat, s: State): State {
    if InSpec(job, at) then Repeat(job, at, ctx, n, s) else s
  }

  /** What a request adds to the run: a visit v whose Sends are `made`.  It is to be sent as often as
      its count says, and once if that is below one. */
  ghost predicate Adds(job: Job, at: Place, ctx: Context, s: State, q: State, v: Visit, made: seq<Sent>)
    requires InSpec(job, at)
  {
    var count := RequestAt(job, at).count;
    && q.p.visits == s.p.visits + [v] && q.p.starts == s.p.starts
    && q.p.log == s.p.log + made && q.p.skipped == s.p.skipped + v.charged && q.tick == v.end
    && v.place == at && v.from == s.tick && v.sends == |made|
    && EndsAfter(job, ctx, if count < 1 then 1 else count, v.from, v.sends, v.charged, v.end)
    && AllMadeAt(job, at, ctx, |s.p.visits|, v.from, made)
  }

  lemma RequestIs(job: Job, at: Place, ctx: Context, s: State) returns (v: Visit, made: seq<Sent>)
    requires InSpec(job, at) && at.session == s.p.data
    ensures Adds(job, at, ctx, s, AfterRequest(job, at, ctx, s), v, made)
  {
    var n := Repetitions(RequestAt(job, at));
    var rep := Repeating(job, at, ctx);
    made := RepeatIs(job, at, ctx, n, s, rep);
    assert RepeatsAs(job, at, ctx, rep, n, s);
    v := VisitOf(at, s, Repeat(job, at, ctx, n, s));
  }

  // ---------------------------------------------------------------- a whole run

  /** The Sends of the first i requests. */
  ghost function SendsBefore(visits: seq<Visit>, i: nat): int
    requires i <= |visits|
  {
    if i == 0 then 0 else SendsBefore(visits, i - 1) + visits[i - 1].sends
  }

  /** The repetitions that limiter failures charged in the first i requests. */
  ghost function ChargedBefore(visits: seq<Visit>, i: nat): int
    requires i <= |visits|
  {
    if i == 0 then 0 else ChargedBefore(visits, i - 1) + visits[i - 1].charged
  }

  /** Visit i: its place in time and the Sends it made, which stand together in the log. */
  ghost predicate VisitRight(job: Job, visits: seq<Visit>, starts: seq<nat>, log: seq<Sent>, i: nat)
    requires i < |visits|
  {
    var v, base := visits[i], SendsBefore(visits, i);
    && InSpec(job, v.place) && v.place.step < |starts|
    && var ctx, count := EnteredAt(job, v.place.step, starts[v.place.step]), RequestAt(job, v.place).count;
    && 0 <= base <= base + v.sends <= |log|
    && Begun(job, visits, starts, ctx, i)
    && EndsAfter(job, ctx, if count < 1 then 1 else count, v.from, v.sends, v.charged, v.end)
    && AllMadeAt(job, v.place, ctx, i, v.from, log[base..base + v.sends])
  }

  /** Visit i begins right after its step was entered or the request before it ended, with the
      step's context found alive. */
  ghost predicate Begun(job: Job, visits: seq<Visit>, starts: seq<nat>, ctx: Context, i: nat)
    requires i < |visits| && visits[i].place.step < |starts|
  {
    var v := visits[i];
    && v.from > 0 && job.env.now(v.from - 1) < ctx.doneAt
    && if v.place.index == 0
       then v.from == starts[v.place.step] + 2 && (i > 0 ==> visits[i - 1].place.step < v.place.step)
       else
         && i > 0 && v.from == visits[i - 1].end + 1
         && visits[i - 1].place.step == v.place.step && visits[i - 1].place.index == v.place.index - 1
  }

  ghost predicate Timed(job: Job, p: Progress) {
    && |p.log| == SendsBefore(p.visits, |p.visits|) && p.skipped == ChargedBefore(p.visits, |p.visits|)
    && forall i: nat :: i < |p.visits| ==> VisitRight(job, p.visits, p.starts, p.log, i)
  }

  /** The last visit of step k is visit i. */
  ghost predicate LastOf(visits: seq<Visit>, k: nat, i: nat) {
    i < |visits| && visits[i].place.step == k && (i + 1 < |visits| ==> visits[i + 1].place.step != k)
  }

  ghost predicate NoneOf(visits: seq<Visit>, k: nat) {
    forall i :: 0 <= i < |visits| ==> visits[i].place.step != k
  }

  /** Step k would go on at tick t with request j. */
  ghost predicate GoesOn(visits: seq<Visit>, starts: seq<nat>, k: nat, j: nat, t: nat) {
    && k < |starts|
    && if j == 0 then NoneOf(visits, k) && t == starts[k] + 1
       else exists i: nat :: LastOf(visits, k, i) && visits[i].place.index == j - 1 && visits[i].end == t
  }

  /** Step k ended at tick `end`: all its requests were run, or its context was found done. */
  ghost predicate Ended(job: Job, visits: seq<Visit>, starts: seq<nat>, k: nat, end: nat) {
    && k < |starts| && k < |job.steps|
    && (|| GoesOn(visits, starts, k, |job.steps[k].requests|, end)
        || (end > 0 && CutAt(job, visits, starts, k, end - 1)))
  }

  /** Step k still had a request to run at tick t, when its context was found done. */
  ghost predicate CutAt(job: Job, visits: seq<Visit>, starts: seq<nat>, k: nat, t: nat)
    requires k < |starts| && k < |job.steps|
  {
    && job.env.now(t) >= EnteredAt(job, k, starts[k]).doneAt
    && exists j: nat :: j < |job.steps[k].requests| && GoesOn(visits, starts, k, j, t)
  }

  /** Step k was entered right after the step before it ended (the first one at once), with the
      scenario's context found alive. */
  ghost predicate StartRight(job: Job, visits: seq<Visit>, starts: seq<nat>, k: nat)
    requires k < |starts|
  {
    && starts[k] >= 2 && job.env.now(starts[k] - 1) < job.ctx.doneAt
    && if k == 0 then starts[0] == 2 else Ended(job, visits, starts, k - 1, starts[k] - 1)
  }

  ghost predicate StartsRight(job: Job, p: Progress) {
    forall k: nat :: k < |p.starts| ==> StartRight(job, p.visits, p.starts, k)
  }

  /** Between steps: k have been run, and the next would be entered now. */
  ghost predicate Boundary(job: Job, k: nat, s: State) {
    && s.tick > 0 && k == |s.p.starts| <= |job.steps| && Timed(job, s.p) && StartsRight(job, s.p)
    && (forall i :: 0 <= i < |s.p.visits| ==> s.p.visits[i].place.step < k)
    && if k == 0 then s.tick == 1 else Ended(job, s.p.visits, s.p.starts, k - 1, s.tick)
  }

  /** Within step k: request j comes next. */
  ghost predicate Item(job: Job, k: nat, j: nat, s: State) {
    && s.tick > 0 && k + 1 == |s.p.starts| <= |job.steps| && Timed(job, s.p) && StartsRight(job, s.p)
    && (forall i :: 0 <= i < |s.p.visits| ==> s.p.visits[i].place.step <= k)
    && j <= |job.steps[k].requests| && GoesOn(s.p.visits, s.p.starts, k, j, s.tick)
    && (j > 0 ==> s.p.visits != [] && s.p.visits[|s.p.visits| - 1].place.step == k
                  && s.p.visits[|s.p.visits| - 1].place.index == j - 1 && s.p.visits[|s.p.visits| - 1].end == s.tick)
  }

  // ---------------------------------------------------------------- what stays right

  lemma {:induction false} SendsBeforeSame(visits: seq<Visit>, more: seq<Visit>, i: nat)
    requires visits <= more && i <= |visits|
    ensures SendsBefore(more, i) == SendsBefore(visits, i) && ChargedBefore(more, i) == ChargedBefore(visits, i)
  {
    if i > 0 { SendsBeforeSame(visits, more, i - 1); }
  }

  lemma VisitStays(
    job: Job, visits: seq<Visit>, starts: seq<nat>, log: seq<Sent>, i: nat,
    visits': seq<Visit>, starts': seq<nat>, log': seq<Sent>)
    requires i < |visits| && visits <= visits' && starts <= starts' && log <= log'
    requires VisitRight(job, visits, starts, log, i)
    ensures VisitRight(job, visits', starts', log', i)
  {
    SendsBeforeSame(visits, visits', i);
    var base, sends := SendsBefore(visits, i), visits[i].sends;
    assert log'[base..base + sends] == log[base..base + sends];
  }

  lemma GoesOnStays(visits: seq<Visit>, starts: seq<nat>, k: nat, j: nat, t: nat, v: Visit)
    requires GoesOn(visits, starts, k, j, t) && v.place.step > k
    ensures GoesOn(visits + [v], starts, k, j, t)
  {
    if j > 0 {
      var i: nat :| LastOf(visits, k, i) && visits[i].place.index == j - 1 && visits[i].end == t;
      assert LastOf(visits + [v], k, i) && (visits + [v])[i] == visits[i];
    }
  }

  lemma EndedStays(job: Job, visits: seq<Visit>, starts: seq<nat>, k: nat, end: nat, v: Visit)
    requires Ended(job, visits, starts, k, end) && v.place.step > k
    ensures Ended(job, visits + [v], starts, k, end)
  {
    var n := |job.steps[k].requests|;
    if GoesOn(visits, starts, k, n, end) {
      GoesOnStays(visits, starts, k, n, end, v);
    } else {
      var j: nat :| j < n && GoesOn(visits, starts, k, j, end - 1);
      GoesOnStays(visits, starts, k, j, end - 1, v);
    }
  }

  lemma EndedEarlier(job: Job, visits: seq<Visit>, starts: seq<nat>, k: nat, end: nat, start: nat)
    requires Ended(job, visits, starts, k, end)
    ensures Ended(job, visits, starts + [start], k, end)
  {
    var n, more := |job.steps[k].requests|, starts + [start];
    assert more[k] == starts[k];
    if GoesOn(visits, starts, k, n, end) {
      assert GoesOn(visits, more, k, n, end);
    } else {
      var j: nat :| j < n && GoesOn(visits, starts, k, j, end - 1);
      assert GoesOn(visits, more, k, j, end - 1);
    }
  }

  lemma StartsStay(job: Job, p: Progress, v: Visit)
    requires StartsRight(job, p) && v.place.step + 1 == |p.starts|
    ensures forall k: nat :: k < |p.starts| ==> StartRight(job, p.visits + [v], p.starts, k)
  {
    forall k: nat | k < |p.starts| ensures StartRight(job, p.visits + [v], p.starts, k) {
      assert StartRight(job, p.visits, p.starts, k);
      if k > 0 { EndedStays(job, p.visits, p.starts, k - 1, p.starts[k] - 1, v); }
    }
  }

  lemma TimedGrows(job: Job, at: Place, ctx: Context, s: State, q: State, v: Visit, made: seq<Sent>)
    requires Timed(job, s.p) && InSpec(job, at) && Adds(job, at, ctx, s, q, v, made)
    requires at.step < |s.p.starts| && ctx == EnteredAt(job, at.step, s.p.starts[at.step])
    requires Begun(job, q.p.visits, q.p.starts, ctx, |s.p.visits|)
    ensures Timed(job, q.p)
  {
    var n := |s.p.visits|;
    SendsBeforeSame(s.p.visits, q.p.visits, n);
    forall i: nat | i < |q.p.visits| ensures VisitRight(job, q.p.visits, q.p.starts, q.p.log, i) {
      if i < n {
        VisitStays(job, s.p.visits, s.p.starts, s.p.log, i, q.p.visits, q.p.starts, q.p.log);
      } else {
        assert q.p.log[|s.p.log|..|s.p.log| + |made|] == made;
      }
    }
  }

  // ---------------------------------------------------------------- through the loops

  lemma ItemNext(job: Job, k: nat, j: nat, s: State, run: (nat, State) -> State) returns (q: State)
    requires k < |job.steps| && k < |s.p.starts| && Item(job, k, j, s) && j < |job.steps[k].requests|
    requires var ctx := EnteredAt(job, k, s.p.starts[k]); Runs(job, k, ctx, run) && !Expired(ctx, job.env.now(s.tick))
    ensures Item(job, k, j + 1, q) && q.p.starts == s.p.starts && run(j, s) == run(j + 1, q)
  {
    var ctx, t, at := EnteredAt(job, k, s.p.starts[k]), State(s.tick + 1, s.p), Place(k, j, s.p.data);
    q := AfterRequest(job, at, ctx, t);
    var v, made := RequestIs(job, at, ctx, t);
    assert RunsFrom(job, k, ctx, run, j, s) && RunsFrom(job, k, ctx, run, j + 1, q);
    ItemGrows(job, k, j, s, ctx, q, v, made);
  }

  lemma ItemGrows(job: Job, k: nat, j: nat, s: State, ctx: Context, q: State, v: Visit, made: seq<Sent>)
    requires k < |job.steps| && k < |s.p.starts| && Item(job, k, j, s) && j < |job.steps[k].requests|
    requires ctx == EnteredAt(job, k, s.p.starts[k]) && !Expired(ctx, job.env.now(s.tick))
    requires Adds(job, Place(k, j, s.p.data), ctx, State(s.tick + 1, s.p), q, v, made)
    ensures Item(job, k, j + 1, q)
  {
    var n := |s.p.visits|;
    assert q.p.visits[n] == v && (n > 0 ==> q.p.visits[n - 1] == s.p.visits[n - 1]);
    assert Begun(job, q.p.visits, q.p.starts, ctx, n);
    TimedGrows(job, Place(k, j, s.p.data), ctx, State(s.tick + 1, s.p), q, v, made);
    StartsStay(job, s.p, v);
    assert LastOf(q.p.visits, k, n);
  }

  lemma {:induction false} WalkRequests(job: Job, k: nat, j: nat, s: State, run: (nat, State) -> State)
    requires k < |job.steps| && k < |s.p.starts| && Item(job, k, j, s)
    requires Runs(job, k, EnteredAt(job, k, s.p.starts[k]), run)
    ensures Boundary(job, k + 1, run(j, s))
    decreases |job.steps[k].requests| - j
  {
    var ctx := EnteredAt(job, k, s.p.starts[k]);
    if j == |job.steps[k].requests| || Expired(ctx, job.env.now(s.tick)) {
      RunEnds(job, k, ctx, j, s, run);
    } else {
      var q := ItemNext(job, k, j, s, run);
      WalkRequests(job, k, j + 1, q, run);
    }
  }

  lemma EnterIs(job: Job, k: nat, s: State)
    requires k < |job.steps| && Boundary(job, k, s) && !Expired(job.ctx, job.env.now(s.tick))
    ensures Item(job, k, 0, State(s.tick + 2, Entered(s.p, s.tick + 1)))
  {
    var p, q := s.p, Entered(s.p, s.tick + 1);
    forall i: nat | i < |q.visits| ensures VisitRight(job, q.visits, q.starts, q.log, i) {
      VisitStays(job, p.visits, p.starts, p.log, i, q.visits, q.starts, q.log);
    }
    forall i: nat | i < |q.starts| ensures StartRight(job, q.visits, q.starts, i) {
      if i < k { assert StartRight(job, p.visits, p.starts, i); }
      if i > 0 { EndedEarlier(job, p.visits, p.starts, i - 1, q.starts[i] - 1, s.tick + 1); }
    }
  }

  lemma WalkStep(job: Job, k: nat, s: State)
    requires k < |job.steps| && Boundary(job, k, s) && !Expired(job.ctx, job.env.now(s.tick))
    ensures Boundary(job, k + 1, OneStep(job)(k, s))
  {
    var ctx, t := EnteredAt(job, k, s.tick + 1), State(s.tick + 2, Entered(s.p, s.tick + 1));
    EnterIs(job, k, s);
    OneStepIs(job, k, s);
    RestRuns(job, k, ctx);
    assert t.p.starts[k] == s.tick + 1;
    WalkRequests(job, k, 0, t, RestOf(job, k, ctx));
    assert RunsFrom(job, k, ctx, RestOf(job, k, ctx), 0, t);
  }

  /** The run is over: all steps were run, or the scenario's context was found done before one. */
  ghost predicate Over(job: Job, s: State) {
    if |s.p.starts| == |job.steps| then Boundary(job, |job.steps|, s)
    else s.tick > 0 && job.env.now(s.tick - 1) >= job.ctx.doneAt && Boundary(job, |s.p.starts|, State(s.tick - 1, s.p))
  }

  ghost predicate StepWalks(job: Job, step: (nat, State) -> State, k: nat, s: State) {
    k < |job.steps| && Boundary(job, k, s) && !Expired(job.ctx, job.env.now(s.tick)) ==>
      Boundary(job, k + 1, step(k, s))
  }

  lemma {:induction false} WalkSteps(job: Job, k: nat, s: State, step: (nat, State) -> State)
    requires k <= |job.steps| && Boundary(job, k, s) && forall i, t :: StepWalks(job, step, i, t)
    ensures Over(job, RunAll(job, k, s, step))
    decreases |job.steps| - k
  {
    if k < |job.steps| && !Expired(job.ctx, job.env.now(s.tick)) {
      assert StepWalks(job, step, k, s);
      WalkSteps(job, k + 1, step(k, s), step);
    }
  }

  /** The timeline of a whole run.  Every step is entered right after the one before it ended, with
      the scenario's context found alive; within a step every request begins right after the one
      before it, with the step's context found alive, and makes as many Sends as its count says,
      one if that is below one, unless the step's context was found done or the limiter failed, at
      the very reading that would have come next; a step ends with its last request or at a reading
      that finds its context done, and the run with its last step or at a reading that finds the
      scenario's context done.  Nothing else is sent, and limiter failures charge exactly the
      repetitions left. */
  lemma TimelineOfRun(job: Job)
    ensures Over(job, Whole(job))
    ensures Timed(job, Whole(job).p) && StartsRight(job, Whole(job).p)
  {
    forall k: nat, s: State ensures StepWalks(job, OneStep(job), k, s) {
      if k < |job.steps| && Boundary(job, k, s) && !Expired(job.ctx, job.env.now(s.tick)) { WalkStep(job, k, s); }
    }
    WalkSteps(job, 0, State(1, NOTHING_YET), OneStep(job));
  }

  // ---------------------------------------------------------------- the Sends of each request

  lemma {:induction false} SendsBeforeGrow(job: Job, p: Progress, i: nat, j: nat)
    requires Timed(job, p) && i <= j <= |p.visits|
    ensures 0 <= SendsBefore(p.visits, i) <= SendsBefore(p.visits, j)
  {
    if i < j {
      SendsBeforeGrow(job, p, i, j - 1);
      assert VisitRight(job, p.visits, p.starts, p.log, j - 1);
    } else if i > 0 {
      SendsBeforeGrow(job, p, i - 1, i - 1);
      assert VisitRight(job, p.visits, p.starts, p.log, i - 1);
    }
  }

  /** Place x of the log belongs to the visit whose Sends stand there. */
  lemma {:induction false} BelongsTo(job: Job, p: Progress, x: nat, n: nat) returns (j: nat)
    requires Timed(job, p) && n <= |p.visits| && x < SendsBefore(p.visits, n)
    ensures j < n && SendsBefore(p.visits, j) <= x < SendsBefore(p.visits, j + 1)
    ensures x < |p.log| && p.log[x].visit == j
    decreases n
  {
    SendsBeforeGrow(job, p, n, |p.visits|);
    if x < SendsBefore(p.visits, n - 1) {
      j := BelongsTo(job, p, x, n - 1);
    } else {
      j := n - 1;
      assert VisitRight(job, p.visits, p.starts, p.log, j);
      var v, base := p.visits[j], SendsBefore(p.visits, j);
      var made := p.log[base..base + v.sends];
      assert made[x - base] == p.log[x];
    }
  }

  /** The Sends recorded for request i of a run. */
  ghost function SendsFor(log: seq<Sent>, i: nat): set<nat> {
    set x: nat | x < |log| && log[x].visit == i
  }

  lemma {:induction false} RangeSize(all: set<nat>, lo: nat, hi: nat)
    requires lo <= hi && forall x :: x in all <==> lo <= x < hi
    ensures |all| == hi - lo
    decreases hi - lo
  {
    if lo == hi {
      assert all == {};
    } else {
      RangeSize(all - {hi - 1}, lo, hi - 1);
    }
  }

  lemma SendsStandTogether(job: Job, p: Progress, i: nat)
    requires Timed(job, p) && i < |p.visits|
    ensures |SendsFor(p.log, i)| == p.visits[i].sends
  {
    assert VisitRight(job, p.visits, p.starts, p.log, i);
    var lo, hi := SendsBefore(p.visits, i), SendsBefore(p.visits, i + 1);
    SendsBeforeGrow(job, p, i, i + 1);
    SendsBeforeGrow(job, p, i + 1, |p.visits|);
    forall x: nat ensures x in SendsFor(p.log, i) <==> lo <= x < hi {
      if x < |p.log| {
        var j := BelongsTo(job, p, x, |p.visits|);
        if j < i { SendsBeforeGrow(job, p, j + 1, i); }
        if i < j { SendsBeforeGrow(job, p, i + 1, j); }
      }
    }
    RangeSize(SendsFor(p.log, i), lo, hi);
  }

  /** A request makes at most as many Sends as its count says, one if that is below one, and exactly
      that many unless, between its first and its last reading, the step's context was found done
      or the limiter refused. */
  lemma SendsPerRequest(job: Job, i: nat)
    requires i < |Whole(job).p.visits|
    ensures var p := Whole(job).p;
            var v := p.visits[i];
            && InSpec(job, v.place) && v.place.step < |p.starts|
            && var n := if RequestAt(job, v.place).count < 1 then 1 else RequestAt(job, v.place).count;
            && |SendsFor(p.log, i)| <= n
            && (|SendsFor(p.log, i)| == n || exists t: nat ::
                  v.from <= t < v.end
                  && (job.env.now(t) >= EnteredAt(job, v.place.step, p.starts[v.place.step]).doneAt
                      || !job.env.admits(t)))
  {
    TimelineOfRun(job);
    var p := Whole(job).p;
    SendsStandTogether(job, p, i);
    assert VisitRight(job, p.visits, p.starts, p.log, i);
    var v := p.visits[i];
    var t := v.from + 3 * v.sends;
    var n := if RequestAt(job, v.place).count < 1 then 1 else RequestAt(job, v.place).count;
    if v.sends < n {
      if job.env.now(t) >= EnteredAt(job, v.place.step, p.starts[v.place.step]).doneAt {
        assert v.from <= t < v.end;
      } else {
        assert v.from <= t + 1 < v.end && !job.env.admits(t + 1);
      }
    }
  }

  // ---------------------------------------------------------------- a healthy run

  /** The context is alive and the limiter admits at every reading. */
  ghost predicate Healthy(job: Job, ctx: Context) {
    forall t: nat :: job.env.now(t) < ctx.doneAt && job.env.admits(t)
  }

  /** s' has n Sends more than s and nothing was charged for want of the limiter. */
  ghost predicate Gains(s: State, s': State, n: int) {
    |s'.p.log| == |s.p.log| + n && s'.p.skipped == s.p.skipped
  }

  lemma RunGains(job: Job, k: nat, ctx: Context, j: nat, s: State, run: (nat, State) -> State) returns (q: State)
    requires k < |job.steps| && j < |job.steps[k].requests| && Healthy(job, ctx) && Runs(job, k, ctx, run)
    ensures var count := job.steps[k].requests[j].count; Gains(s, q, if count < 1 then 1 else count)
    ensures run(j, s) == run(j + 1, q)
  {
    var t, at := State(s.tick + 1, s.p), Place(k, j, s.p.data);
    q := AfterRequest(job, at, ctx, t);
    var v, made := RequestIs(job, at, ctx, t);
    assert RunsFrom(job, k, ctx, run, j, s) && RunsFrom(job, k, ctx, run, j + 1, q);
    assert !Expired(ctx, job.env.now(s.tick));
  }

  lemma {:induction false} HealthyRequests(
    job: Job, k: nat, ctx: Context, j: nat, s: State, run: (nat, State) -> State)
    requires k < |job.steps| && j <= |job.steps[k].requests| && Healthy(job, ctx) && Runs(job, k, ctx, run)
    ensures Gains(s, run(j, s), Weight(job.steps[k].requests[j..]))
    decreases |job.steps[k].requests| - j
  {
    var reqs := job.steps[k].requests;
    if j == |reqs| {
      RunEnds(job, k, ctx, j, s, run);
    } else {
      var q := RunGains(job, k, ctx, j, s, run);
      HealthyRequests(job, k, ctx, j + 1, q, run);
      assert reqs[j..][0] == reqs[j] && reqs[j..][1..] == reqs[j + 1..];
    }
  }

  lemma HealthyStep(job: Job, k: nat, s: State)
    requires k < |job.steps| && Healthy(job, EnteredAt(job, k, s.tick + 1))
    ensures Gains(s, OneStep(job)(k, s), Weight(job.steps[k].requests))
  {
    var ctx, t := EnteredAt(job, k, s.tick + 1), State(s.tick + 2, Entered(s.p, s.tick + 1));
    OneStepIs(job, k, s);
    RestRuns(job, k, ctx);
    HealthyRequests(job, k, ctx, 0, t, RestOf(job, k, ctx));
    assert RunsFrom(job, k, ctx, RestOf(job, k, ctx), 0, t);
    assert job.steps[k].requests[0..] == job.steps[k].requests;
  }

  ghost predicate StepGains(job: Job, step: (nat, State) -> State, k: nat, s: State) {
    k < |job.steps| ==> Gains(s, step(k, s), Weight(job.steps[k].requests))
  }

  lemma {:induction false} HealthySteps(job: Job, k: nat, s: State, step: (nat, State) -> State)
    requires k <= |job.steps| && Healthy(job, job.ctx) && forall i, t :: StepGains(job, step, i, t)
    ensures Gains(s, RunAll(job, k, s, step), WeightAll(job.steps[k..]))
    decreases |job.steps| - k
  {
    if k < |job.steps| {
      assert StepGains(job, step, k, s) && !Expired(job.ctx, job.env.now(s.tick));
      HealthySteps(job, k + 1, step(k, s), step);
      assert job.steps[k..][0] == job.steps[k] && job.steps[k..][1..] == job.steps[k + 1..];
    }
  }

  /** When no context ends and the limiter never fails, every repetition the spec asks for is sent,
      and completed and failed add up to exactly that. */
  lemma HealthyRun(job: Job)
    requires Healthy(job, job.ctx)
    requires forall k: nat, t: nat :: k < |job.steps| ==> Healthy(job, EnteredAt(job, k, t))
    ensures var p := Whole(job).p;
            |p.log| == WeightAll(job.steps) && p.skipped == 0 && p.completed + p.failed == WeightAll(job.steps)
  {
    forall k: nat, s: State ensures StepGains(job, OneStep(job), k, s) {
      if k < |job.steps| { HealthyStep(job, k, s); }
    }
    HealthySteps(job, 0, State(1, NOTHING_YET), OneStep(job));
    assert job.steps[0..] == job.steps;
    Conservation(job);
  }
}
