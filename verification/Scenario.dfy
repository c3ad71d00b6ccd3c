/**
  The scenario executor (pkg/warmup/scenario_executor.go): steps, requests and repetitions in
  three nested loops, with nested deadlines, limiter failures and values extracted from one
  response into later requests.

  `RunSteps` describes a whole run as a value that also records what was sent, to which target,
  under which deadline and with which session.  Module ScenarioExecutor has the loops of the
  source, which compute the same counts and the same session.
 */
module Scenario {
  import opened Common
  import opened Config
  import opened Environment
  import opened JsonPath
  import opened Session
  import Executor

  const DEFAULT_SCENARIO_TIMEOUT := 120 * SECOND
  const DEFAULT_STEP_TIMEOUT := 30 * SECOND
  const MAX_SCENARIO_TIMEOUT := 300 * SECOND
  const GRACE_PERIOD := 5 * SECOND

  datatype Request = Request(
    protocol: string, endpoint: string, verb: string, headers: map<string, string>, body: string,
    grpcMethod: string, grpcPayload: string, count: int, extract: map<string, string>, expectedStatus: int)

  datatype Step = Step(requests: seq<Request>, timeout: string)

  datatype Spec = Spec(steps: seq<Step>, timeout: string)

  /** The environment, time.ParseDuration, json.Unmarshal into an object, and "%v". */
  datatype Oracle = Oracle(
    env: Env, duration: string -> Option<int>, decode: string -> Option<Doc>, render: Render)

  // ---------------------------------------------------------------- one request

  function ProtocolFor(config: Config, req: Request): string {
    OrDefault(OrDefault(req.protocol, config.protocol), PROTOCOL_HTTP)
  }

  function Repetitions(req: Request): nat {
    Max(1, req.count)
  }

  predicate IsSuccess(status: int, expected: int, protocol: string) {
    if protocol == PROTOCOL_GRPC then status == 200
    else if expected != 0 then status == expected
    else 200 <= status < 400
  }

  ghost function GrpcTarget(render: Render, config: Config, req: Request, data: Doc): Target {
    Target(Executor.HostPort(config), req.grpcMethod, map[], Interpolated(render, data, req.grpcPayload))
  }

  ghost function HttpTarget(render: Render, config: Config, req: Request, data: Doc): Target {
    Target(Executor.EndpointURL(config, OrDefault(Interpolated(render, data, req.endpoint), DEFAULT_ENDPOINT_PATH)),
           OrDefault(req.verb, "GET"),
           Executor.WARMUP_HEADERS + Filled(Filler(render, data), req.headers, req.headers.Keys),
           Interpolated(render, data, req.body))
  }

  ghost function Filler(render: Render, data: Doc): string -> string {
    (s: string) => Interpolated(render, data, s)
  }

  /** The templates under the given names, filled in. */
  ghost function Filled(
    fill: string -> string, templates: map<string, string>, names: set<string>): map<string, string>
  {
    map h | h in names && h in templates :: fill(templates[h])
  }

  /** The target of a request under a session. */
  ghost function TargetFor(render: Render, config: Config, req: Request, data: Doc): Target {
    if ProtocolFor(config, req) == PROTOCOL_GRPC then GrpcTarget(render, config, req, data)
    else HttpTarget(render, config, req, data)
  }

  /** The variables a response body yields: those whose path is found in it. */
  function Extraction(o: Oracle, extract: map<string, string>, body: string): Doc {
    var doc := if extract == map[] || body == "" then None else o.decode(body);
    if doc.None? then map[]
    else map v | v in extract && Lookup(doc.value, extract[v]).Some? :: Lookup(doc.value, extract[v]).value
  }

  function ParsedTimeout(o: Oracle, text: string, default: int): int {
    var d := if text == "" then None else o.duration(text);
    if d.Some? && d.value > 0 then d.value else default
  }

  /** What one run of ExecuteScenario works on: the steps, the scenario context, and what the
      configuration and the oracles make of a request (its protocol, its target under a session,
      which statuses it accepts, what a body yields) and of a step (its timeout). */
  datatype Job = Job(
    env: Env, steps: seq<Step>, ctx: Context, timeout: Step -> int, protocol: Request -> string,
    aim: (Request, Doc) -> Target, accepts: (Request, int) -> bool, extracts: (Request, string) -> Doc)

  // ---------------------------------------------------------------- what a run records

  /** Where in the spec a request stands, and the session it was run with. */
  datatype Place = Place(step: nat, index: nat, session: Doc)

  /** One Send: the request it belongs to (the number of requests finished before it), the
      deadline of its context, its target and its response. */
  datatype Sent = Sent(visit: nat, place: Place, deadline: int, target: Target, response: Response)

  /** A finished request: its last response body without a transport error ("" if none), the ticks
      at which its repetitions began and ended, how many Sends it made and how many repetitions a
      limiter error charged as failed. */
  datatype Visit = Visit(place: Place, last: string, from: nat, end: nat, sends: int, charged: int)

  /** `skipped` counts the repetitions charged as failed by limiter errors; `starts` the ticks at
      which the clock was read to enter steps. */
  datatype Progress = Progress(
    data: Doc, completed: int, failed: int, log: seq<Sent>, skipped: nat, visits: seq<Visit>, starts: seq<nat>)

  const NOTHING_YET := Progress(map[], 0, 0, [], 0, [], [])

  /** The progress made, and where the oracle stands. */
  datatype State = State(tick: nat, p: Progress)

  ghost predicate InSpec(job: Job, at: Place) {
    at.step < |job.steps| && at.index < |job.steps[at.step].requests|
  }

  function RequestAt(job: Job, at: Place): Request
    requires InSpec(job, at)
  {
    job.steps[at.step].requests[at.index]
  }

  predicate Succeeded(job: Job, e: Sent)
    requires InSpec(job, e.place)
  {
    e.response.Reply? && job.accepts(RequestAt(job, e.place), e.response.status)
  }

  // ---------------------------------------------------------------- the run

  /** A Send with the given response. */
  ghost function AfterSend(job: Job, at: Place, ctx: Context, p: Progress, response: Response): Progress
    requires InSpec(job, at)
  {
    var e := Sent(|p.visits|, at, ctx.doneAt, job.aim(RequestAt(job, at), p.data), response);
    var ok := if Succeeded(job, e) then 1 else 0;
    p.(log := p.log + [e], completed := p.completed + ok, failed := p.failed + 1 - ok)
  }

  ghost function ResponseAt(job: Job, at: Place, s: State): Response
    requires InSpec(job, at)
  {
    var req := RequestAt(job, at);
    job.env.send(s.tick + 2, job.protocol(req), job.aim(req, s.p.data))
  }

  function AfterSkip(p: Progress, n: nat): Progress {
    p.(failed := p.failed + n, skipped := p.skipped + n)
  }

  /** The remaining n repetitions of a request. */
  ghost function Repeat(job: Job, at: Place, ctx: Context, n: nat, s: State): State
    requires InSpec(job, at)
    decreases n
  {
    if n == 0 then s
    else if Expired(ctx, job.env.now(s.tick)) then State(s.tick + 1, s.p)
    else if !job.env.admits(s.tick + 1) then State(s.tick + 2, AfterSkip(s.p, n))
    else Repeat(job, at, ctx, n - 1, State(s.tick + 3, AfterSend(job, at, ctx, s.p, ResponseAt(job, at, s))))
  }

  /** The body of the last response without a transport error among a request's Sends. */
  function LastReply(log: seq<Sent>, visit: nat): string {
    if log == [] then ""
    else
      var e := log[|log| - 1];
      if e.visit == visit && e.response.Reply? then e.response.body else LastReply(log[..|log| - 1], visit)
  }

  /** The record of a request that began in state s and ended in state r. */
  ghost function VisitOf(at: Place, s: State, r: State): Visit {
    Visit(at, LastReply(r.p.log, |r.p.visits|), s.tick, r.tick, |r.p.log| - |s.p.log|, r.p.skipped - s.p.skipped)
  }

  /** The end of a request: what its last response yields joins the session. */
  ghost function Finished(job: Job, at: Place, s: State, r: State): Progress
    requires InSpec(job, at)
  {
    var v := VisitOf(at, s, r);
    r.p.(visits := r.p.visits + [v], data := r.p.data + job.extracts(RequestAt(job, at), v.last))
  }

  ghost function AfterRequest(job: Job, at: Place, ctx: Context, s: State): State
    requires InSpec(job, at)
  {
    var r := Repeat(job, at, ctx, Repetitions(RequestAt(job, at)), s);
    State(r.tick, Finished(job, at, s, r))
  }

  /** The requests of step k from index j on. */
  ghost function RunRequests(job: Job, k: nat, ctx: Context, j: nat, s: State): State
    requires k < |job.steps| && j <= |job.steps[k].requests|
    decreases |job.steps[k].requests| - j
  {
    if j == |job.steps[k].requests| then s
    else if Expired(ctx, job.env.now(s.tick)) then State(s.tick + 1, s.p)
    else RunRequests(job, k, ctx, j + 1, AfterRequest(job, Place(k, j, s.p.data), ctx, State(s.tick + 1, s.p)))
  }

  function StepContext(job: Job, k: nat, start: int): Context
    requires k < |job.steps|
  {
    WithTimeout(job.ctx, start, job.timeout(job.steps[k]))
  }

  function Entered(p: Progress, start: nat): Progress {
    p.(starts := p.starts + [start])
  }

  /** Step k, entered with the clock read at tick `start`. */
  ghost function AfterStep(job: Job, k: nat, s: State, start: nat): State
    requires k < |job.steps|
  {
    RunRequests(job, k, EnteredAt(job, k, start), 0, State(s.tick, Entered(s.p, start)))
  }

  /** The context of step k when the clock is read at tick `start` to enter it. */
  function EnteredAt(job: Job, k: nat, start: nat): Context
    requires k < |job.steps|
  {
    StepContext(job, k, job.env.now(start))
  }

  /** Entering and running step k, with the clock read when it is entered. */
  ghost function OneStep(job: Job): (nat, State) -> State {
    (k: nat, s: State) =>
      if k < |job.steps| then AfterStep(job, k, State(s.tick + 2, s.p), s.tick + 1) else s
  }

  /** Steps from k on, each as `step` runs it, until the scenario context is done. */
  ghost function RunAll(job: Job, k: nat, s: State, step: (nat, State) -> State): State
    requires k <= |job.steps|
    decreases |job.steps| - k
  {
    if k == |job.steps| then s
    else if Expired(job.ctx, job.env.now(s.tick)) then State(s.tick + 1, s.p)
    else RunAll(job, k + 1, step(k, s), step)
  }

  ghost function RunSteps(job: Job, k: nat, s: State): State
    requires k <= |job.steps|
  {
    RunAll(job, k, s, OneStep(job))
  }

  // ---------------------------------------------------------------- what every part of a run keeps

  function Successes(job: Job, log: seq<Sent>): nat
    requires forall e :: e in log ==> InSpec(job, e.place)
  {
    if log == [] then 0
    else Successes(job, log[..|log| - 1]) + (if Succeeded(job, log[|log| - 1]) then 1 else 0)
  }

  ghost predicate InSpecAll(job: Job, p: Progress) {
    && (forall e :: e in p.log ==> InSpec(job, e.place))
    && (forall v :: v in p.visits ==> InSpec(job, v.place))
  }

  /** Every Send is counted once, as completed exactly when it succeeded. */
  ghost predicate Counted(job: Job, p: Progress)
    requires InSpecAll(job, p)
  {
    && p.completed == Successes(job, p.log)
    && p.completed + p.failed == |p.log| + p.skipped
  }

  /** The session after some requests: their extractions applied in order to an empty session. */
  ghost function Chained(job: Job, visits: seq<Visit>): Doc
    requires forall v :: v in visits ==> InSpec(job, v.place)
  {
    if visits == [] then map[]
    else
      var v := visits[|visits| - 1];
      Chained(job, visits[..|visits| - 1]) + job.extracts(RequestAt(job, v.place), v.last)
  }

  /** Requests run in the order of the spec: index by index within a step, step after step. */
  ghost predicate Follows(visits: seq<Visit>, at: Place) {
    if at.index == 0 then visits == [] || visits[|visits| - 1].place.step < at.step
    else
      && visits != []
      && visits[|visits| - 1].place.step == at.step && visits[|visits| - 1].place.index == at.index - 1
  }

  /** Every request ran with exactly what the requests before it extracted, each from its last
      response without a transport error. */
  ghost predicate VisitsChain(job: Job, visits: seq<Visit>, log: seq<Sent>)
    requires forall v :: v in visits ==> InSpec(job, v.place)
  {
    forall i :: 0 <= i < |visits| ==>
      && Follows(visits[..i], visits[i].place)
      && visits[i].place.session == Chained(job, visits[..i])
      && visits[i].last == LastReply(log, i)
  }

  /** Each Send uses its request's target under the session its request was entered with, and
      the deadline of its step. */
  ghost predicate SentRight(job: Job, visits: seq<Visit>, starts: seq<nat>, e: Sent)
    requires (forall v :: v in visits ==> InSpec(job, v.place)) && InSpec(job, e.place)
  {
    && e.visit <= |visits|
    && e.place.session == Chained(job, visits[..e.visit])
    && (e.visit < |visits| ==> e.place == visits[e.visit].place)
    && e.target == job.aim(RequestAt(job, e.place), e.place.session)
    && e.place.step < |starts|
    && e.deadline == EnteredAt(job, e.place.step, starts[e.place.step]).doneAt
  }

  ghost predicate Inv(job: Job, p: Progress) {
    && InSpecAll(job, p) && Counted(job, p) && |p.starts| <= |job.steps|
    && p.data == Chained(job, p.visits) && VisitsChain(job, p.visits, p.log)
    && forall e :: e in p.log ==> SentRight(job, p.visits, p.starts, e)
  }

  /** Between requests: every Send belongs to a finished one. */
  ghost predicate Settled(p: Progress) {
    forall e :: e in p.log ==> e.visit < |p.visits|
  }

  /** Within a request: the Sends that belong to no finished one are its own. */
  ghost predicate Within(p: Progress, at: Place) {
    forall e :: e in p.log && e.visit == |p.visits| ==> e.place == at
  }

  /** The request at `at` is being run, in the current step and with the current session. */
  ghost predicate Running(job: Job, at: Place, ctx: Context, p: Progress) {
    && InSpec(job, at) && at.session == p.data && at.step + 1 == |p.starts|
    && ctx == EnteredAt(job, at.step, p.starts[at.step])
    && Follows(p.visits, at) && Within(p, at)
  }

  function Total(p: Progress): int {
    p.completed + p.failed
  }

  lemma LastReplyAppend(log: seq<Sent>, e: Sent, visit: nat)
    requires e.visit != visit
    ensures LastReply(log + [e], visit) == LastReply(log, visit)
  {
    assert (log + [e])[..|log|] == log;
  }

  lemma SuccessesAppend(job: Job, log: seq<Sent>, e: Sent)
    requires (forall x :: x in log ==> InSpec(job, x.place)) && InSpec(job, e.place)
    ensures Successes(job, log + [e]) == Successes(job, log) + (if Succeeded(job, e) then 1 else 0)
  {
    assert (log + [e])[..|log|] == log;
  }

  /** A Send of an unfinished request leaves the finished ones as they were. */
  lemma VisitsChainLog(job: Job, visits: seq<Visit>, log: seq<Sent>, e: Sent)
    requires (forall v :: v in visits ==> InSpec(job, v.place)) && VisitsChain(job, visits, log)
    requires e.visit == |visits|
    ensures VisitsChain(job, visits, log + [e])
  {
    forall i | 0 <= i < |visits| ensures LastReply(log + [e], i) == LastReply(log, i) {
      LastReplyAppend(log, e, i);
    }
  }

  lemma SendKeeps(job: Job, at: Place, ctx: Context, p: Progress, response: Response)
    requires Inv(job, p) && Running(job, at, ctx, p)
    ensures var q := AfterSend(job, at, ctx, p, response);
            Inv(job, q) && Running(job, at, ctx, q) && SamePlace(p, q)
  {
    var e := Sent(|p.visits|, at, ctx.doneAt, job.aim(RequestAt(job, at), p.data), response);
    SuccessesAppend(job, p.log, e);
    VisitsChainLog(job, p.visits, p.log, e);
    assert SentRight(job, p.visits, p.starts, e) by { assert p.visits[..e.visit] == p.visits; }
    var q := AfterSend(job, at, ctx, p, response);
    assert q.log == p.log + [e];
    assert forall x :: x in q.log <==> x in p.log || x == e;
  }

  lemma SkipKeeps(job: Job, at: Place, ctx: Context, p: Progress, n: nat)
    requires Inv(job, p) && Running(job, at, ctx, p)
    ensures var q := AfterSkip(p, n);
            Inv(job, q) && Running(job, at, ctx, q) && SamePlace(p, q)
  {
  }

  /** Nothing but the log and the counts has moved. */
  ghost predicate SamePlace(p: Progress, q: Progress) {
    q.data == p.data && q.visits == p.visits && q.starts == p.starts
  }

  /** What every Send and every limiter failure keeps, all repetitions keep. */
  lemma {:induction false} RepeatInduction(job: Job, at: Place, ctx: Context, n: nat, s: State, keeps: Progress -> bool)
    requires InSpec(job, at) && keeps(s.p)
    requires forall p, r :: keeps(p) ==> keeps(AfterSend(job, at, ctx, p, r))
    requires forall p, m :: keeps(p) ==> keeps(AfterSkip(p, m))
    ensures keeps(Repeat(job, at, ctx, n, s).p)
    decreases n
  {
    if n > 0 && !Expired(ctx, job.env.now(s.tick)) && job.env.admits(s.tick + 1) {
      RepeatInduction(job, at, ctx, n - 1,
                      State(s.tick + 3, AfterSend(job, at, ctx, s.p, ResponseAt(job, at, s))), keeps);
    }
  }

  /** The repetitions of a request keep the invariant, the session and the place in the spec. */
  lemma RepeatKeeps(job: Job, at: Place, ctx: Context, n: nat, s: State)
    requires Inv(job, s.p) && Running(job, at, ctx, s.p)
    ensures var q := Repeat(job, at, ctx, n, s).p;
            Inv(job, q) && Running(job, at, ctx, q) && SamePlace(s.p, q)
  {
    var keeps := (p: Progress) => Inv(job, p) && Running(job, at, ctx, p) && SamePlace(s.p, p);
    forall p, r | keeps(p) ensures keeps(AfterSend(job, at, ctx, p, r)) {
      SendKeeps(job, at, ctx, p, r);
    }
    forall p, m | keeps(p) ensures keeps(AfterSkip(p, m)) {
      SkipKeeps(job, at, ctx, p, m);
    }
    RepeatInduction(job, at, ctx, n, s, keeps);
  }

  lemma ChainedAppend(job: Job, visits: seq<Visit>, v: Visit)
    requires (forall x :: x in visits ==> InSpec(job, x.place)) && InSpec(job, v.place)
    ensures Chained(job, visits + [v])
            == Chained(job, visits) + job.extracts(RequestAt(job, v.place), v.last)
  {
    assert (visits + [v])[..|visits|] == visits;
  }

  lemma VisitsChainAppend(job: Job, visits: seq<Visit>, log: seq<Sent>, v: Visit)
    requires (forall x :: x in visits ==> InSpec(job, x.place)) && InSpec(job, v.place)
    requires VisitsChain(job, visits, log) && Follows(visits, v.place)
    requires v.place.session == Chained(job, visits) && v.last == LastReply(log, |visits|)
    ensures VisitsChain(job, visits + [v], log)
  {
    assert visits[..|visits|] == visits;
    assert forall i :: 0 <= i <= |visits| ==> (visits + [v])[..i] == visits[..i];
  }

  lemma SentRightAppend(job: Job, visits: seq<Visit>, starts: seq<nat>, v: Visit, e: Sent)
    requires (forall x :: x in visits ==> InSpec(job, x.place)) && InSpec(job, v.place) && InSpec(job, e.place)
    requires SentRight(job, visits, starts, e) && (e.visit == |visits| ==> e.place == v.place)
    ensures SentRight(job, visits + [v], starts, e)
  {
    assert (visits + [v])[..e.visit] == visits[..e.visit];
  }

  /** Finishing a request: its extraction joins the session, its Sends now belong to it. */
  lemma FinishKeeps(job: Job, at: Place, ctx: Context, s: State, r: State)
    requires Inv(job, r.p) && Running(job, at, ctx, r.p)
    ensures Inv(job, Finished(job, at, s, r)) && Settled(Finished(job, at, s, r))
  {
    var p, v := r.p, VisitOf(at, s, r);
    ChainedAppend(job, p.visits, v);
    VisitsChainAppend(job, p.visits, p.log, v);
    forall e | e in p.log ensures SentRight(job, p.visits + [v], p.starts, e) && e.visit < |p.visits + [v]| {
      SentRightAppend(job, p.visits, p.starts, v, e);
    }
  }

  /** The current step has been entered, and the request at index j comes next in it. */
  ghost predicate AtRequest(job: Job, k: nat, ctx: Context, j: nat, p: Progress) {
    && k < |job.steps| && j <= |job.steps[k].requests|
    && k + 1 == |p.starts| && ctx == EnteredAt(job, k, p.starts[k])
    && Follows(p.visits, Place(k, j, p.data))
  }

  lemma RequestKeeps(job: Job, k: nat, ctx: Context, j: nat, s: State)
    requires Inv(job, s.p) && Settled(s.p) && AtRequest(job, k, ctx, j, s.p) && j < |job.steps[k].requests|
    ensures var q := AfterRequest(job, Place(k, j, s.p.data), ctx, s).p;
            Inv(job, q) && Settled(q) && AtRequest(job, k, ctx, j + 1, q) && q.starts == s.p.starts
  {
    var at := Place(k, j, s.p.data);
    var n := Repetitions(job.steps[k].requests[j]);
    RepeatKeeps(job, at, ctx, n, s);
    FinishKeeps(job, at, ctx, s, Repeat(job, at, ctx, n, s));
  }

  /** What every request keeps, a step keeps. */
  lemma {:induction false} RequestsInduction(
    job: Job, k: nat, ctx: Context, j: nat, s: State, keeps: (nat, Progress) -> bool) returns (i: nat)
    requires k < |job.steps| && j <= |job.steps[k].requests| && keeps(j, s.p)
    requires forall i: nat, t: State :: keeps(i, t.p) && i < |job.steps[k].requests| ==>
               keeps(i + 1, AfterRequest(job, Place(k, i, t.p.data), ctx, t).p)
    ensures keeps(i, RunRequests(job, k, ctx, j, s).p)
    decreases |job.steps[k].requests| - j
  {
    i := j;
    if j < |job.steps[k].requests| && !Expired(ctx, job.env.now(s.tick)) {
      var t := State(s.tick + 1, s.p);
      i := RequestsInduction(job, k, ctx, j + 1, AfterRequest(job, Place(k, j, t.p.data), ctx, t), keeps);
    }
  }

  lemma EnterKeeps(job: Job, p: Progress, start: nat)
    requires Inv(job, p) && |p.starts| < |job.steps|
    ensures Inv(job, Entered(p, start))
  {
    forall e | e in p.log ensures SentRight(job, p.visits, p.starts + [start], e) {
      assert SentRight(job, p.visits, p.starts, e);
    }
  }

  /** Between steps: k steps have been entered and all their requests are finished. */
  ghost predicate AtStep(job: Job, k: nat, p: Progress) {
    && Inv(job, p) && Settled(p) && k == |p.starts| <= |job.steps|
    && (p.visits != [] ==> p.visits[|p.visits| - 1].place.step < k)
  }

  lemma StepKeeps(job: Job, k: nat, s: State, start: nat)
    requires AtStep(job, k, s.p) && k < |job.steps|
    ensures AtStep(job, k + 1, AfterStep(job, k, s, start).p)
  {
    EnterKeeps(job, s.p, start);
    var ctx, p0 := EnteredAt(job, k, start), Entered(s.p, start);
    var keeps := (j: nat, p: Progress) =>
      Inv(job, p) && Settled(p) && AtRequest(job, k, ctx, j, p) && p.starts == p0.starts;
    forall i: nat, t: State | keeps(i, t.p) && i < |job.steps[k].requests|
      ensures keeps(i + 1, AfterRequest(job, Place(k, i, t.p.data), ctx, t).p)
    {
      RequestKeeps(job, k, ctx, i, t);
    }
    assert p0.starts[k] == start && AtRequest(job, k, ctx, 0, p0);
    var i := RequestsInduction(job, k, ctx, 0, State(s.tick, p0), keeps);
  }

  lemma {:induction false} StepsInduction(
    job: Job, k: nat, s: State, step: (nat, State) -> State, keeps: (nat, Progress) -> bool) returns (i: nat)
    requires k <= |job.steps| && keeps(k, s.p)
    requires forall i: nat, t: State :: keeps(i, t.p) && i < |job.steps| ==> keeps(i + 1, step(i, t).p)
    ensures i <= |job.steps| && keeps(i, RunAll(job, k, s, step).p)
    ensures i < |job.steps| ==> SeenExpired(job.env, job.ctx, RunAll(job, k, s, step).tick)
    decreases |job.steps| - k
  {
    i := k;
    if k < |job.steps| {
      if Expired(job.ctx, job.env.now(s.tick)) {
        assert s.tick < s.tick + 1;
      } else {
        i := StepsInduction(job, k + 1, step(k, s), step, keeps);
      }
    }
  }

  /** A whole run satisfies the invariant; the steps it entered are a prefix of the spec, cut
      short only by the scenario context: a step that runs into its own deadline never stops
      the steps after it. */
  lemma RunKeeps(job: Job, tick: nat)
    ensures var q := RunSteps(job, 0, State(tick, NOTHING_YET));
            && Inv(job, q.p) && Settled(q.p)
            && (|q.p.starts| < |job.steps| ==> SeenExpired(job.env, job.ctx, q.tick))
  {
    var keeps := (k: nat, p: Progress) => AtStep(job, k, p);
    forall i: nat, t: State | keeps(i, t.p) && i < |job.steps| ensures keeps(i + 1, OneStep(job)(i, t).p) {
      OneStepKeeps(job, i, t);
    }
    NothingYetKeeps(job);
    var i := StepsInduction(job, 0, State(tick, NOTHING_YET), OneStep(job), keeps);
    AtStepMeans(job, i, RunSteps(job, 0, State(tick, NOTHING_YET)).p);
  }

  lemma OneStepIs(job: Job, k: nat, s: State)
    requires k < |job.steps|
    ensures OneStep(job)(k, s) == AfterStep(job, k, State(s.tick + 2, s.p), s.tick + 1)
  {
  }

  lemma OneStepKeeps(job: Job, k: nat, s: State)
    requires AtStep(job, k, s.p) && k < |job.steps|
    ensures AtStep(job, k + 1, OneStep(job)(k, s).p)
  {
    OneStepIs(job, k, s);
    StepKeeps(job, k, State(s.tick + 2, s.p), s.tick + 1);
  }

  lemma NothingYetKeeps(job: Job)
    ensures AtStep(job, 0, NOTHING_YET)
  {
  }

  lemma AtStepMeans(job: Job, k: nat, p: Progress)
    requires AtStep(job, k, p)
    ensures Inv(job, p) && Settled(p) && |p.starts| == k
  {
  }

  // ---------------------------------------------------------------- running the rest of a step

  /** `run` runs the rest of step k as the job does. */
  ghost predicate RunsFrom(job: Job, k: nat, ctx: Context, run: (nat, State) -> State, j: nat, s: State)
    requires k < |job.steps|
  {
    j <= |job.steps[k].requests| ==> run(j, s) == RunRequests(job, k, ctx, j, s)
  }

  ghost predicate Runs(job: Job, k: nat, ctx: Context, run: (nat, State) -> State)
    requires k < |job.steps|
  {
    forall j, s :: RunsFrom(job, k, ctx, run, j, s)
  }

  lemma RunEnds(job: Job, k: nat, ctx: Context, j: nat, s: State, run: (nat, State) -> State)
    requires k < |job.steps| && j <= |job.steps[k].requests| && Runs(job, k, ctx, run)
    requires j == |job.steps[k].requests| || Expired(ctx, job.env.now(s.tick))
    ensures run(j, s) == if j == |job.steps[k].requests| then s else State(s.tick + 1, s.p)
  {
    assert RunsFrom(job, k, ctx, run, j, s);
  }

  /** The run of step k from a request on. */
  ghost function RestOf(job: Job, k: nat, ctx: Context): (nat, State) -> State
    requires k < |job.steps|
  {
    (j: nat, s: State) => RestFrom(job, k, ctx, j, s)
  }

  ghost function RestFrom(job: Job, k: nat, ctx: Context, j: nat, s: State): State {
    if k < |job.steps| && j <= |job.steps[k].requests| then RunRequests(job, k, ctx, j, s) else s
  }

  lemma RestRuns(job: Job, k: nat, ctx: Context)
    requires k < |job.steps|
    ensures Runs(job, k, ctx, RestOf(job, k, ctx))
  {
  }

  // ---------------------------------------------------------------- how much a run can charge

  /** The Sends a step asks for: each request's count, and one where the count is below one. */
  function Weight(reqs: seq<Request>): nat {
    if reqs == [] then 0 else (if reqs[0].count < 1 then 1 else reqs[0].count) + Weight(reqs[1..])
  }

  function WeightAll(steps: seq<Step>): nat {
    if steps == [] then 0 else Weight(steps[0].requests) + WeightAll(steps[1..])
  }

  lemma {:induction false} RepeatCharges(job: Job, at: Place, ctx: Context, n: nat, s: State)
    requires InSpec(job, at)
    ensures Total(s.p) <= Total(Repeat(job, at, ctx, n, s).p) <= Total(s.p) + n
    decreases n
  {
    if n > 0 && !Expired(ctx, job.env.now(s.tick)) && job.env.admits(s.tick + 1) {
      RepeatCharges(job, at, ctx, n - 1, State(s.tick + 3, AfterSend(job, at, ctx, s.p, ResponseAt(job, at, s))));
    }
  }

  lemma {:induction false} RequestsCharge(job: Job, k: nat, ctx: Context, j: nat, s: State)
    requires k < |job.steps| && j <= |job.steps[k].requests|
    ensures Total(RunRequests(job, k, ctx, j, s).p) <= Total(s.p) + Weight(job.steps[k].requests[j..])
    decreases |job.steps[k].requests| - j
  {
    var reqs := job.steps[k].requests;
    if j < |reqs| && !Expired(ctx, job.env.now(s.tick)) {
      var at, t := Place(k, j, s.p.data), State(s.tick + 1, s.p);
      RepeatCharges(job, at, ctx, Repetitions(reqs[j]), t);
      assert reqs[j..][0] == reqs[j] && reqs[j..][1..] == reqs[j + 1..];
      RequestsCharge(job, k, ctx, j + 1, AfterRequest(job, at, ctx, t));
    }
  }

  lemma StepCharges(job: Job, k: nat, s: State)
    requires k < |job.steps|
    ensures Total(OneStep(job)(k, s).p) <= Total(s.p) + Weight(job.steps[k].requests)
  {
    var start := s.tick + 1;
    OneStepIs(job, k, s);
    RequestsCharge(job, k, EnteredAt(job, k, start), 0, State(s.tick + 2, Entered(s.p, start)));
    assert job.steps[k].requests[0..] == job.steps[k].requests;
  }

  lemma {:induction false} StepsCharge(job: Job, k: nat, s: State, step: (nat, State) -> State)
    requires k <= |job.steps|
    requires forall i: nat, t: State :: i < |job.steps| ==>
               Total(step(i, t).p) <= Total(t.p) + Weight(job.steps[i].requests)
    ensures Total(RunAll(job, k, s, step).p) <= Total(s.p) + WeightAll(job.steps[k..])
    decreases |job.steps| - k
  {
    if k < |job.steps| && !Expired(job.ctx, job.env.now(s.tick)) {
      assert job.steps[k..][0] == job.steps[k] && job.steps[k..][1..] == job.steps[k + 1..];
      StepsCharge(job, k + 1, step(k, s), step);
    }
  }

  // ---------------------------------------------------------------- theorems about a run

  function Clamped(o: Oracle, timeout: string): int {
    Min(ParsedTimeout(o, timeout, DEFAULT_SCENARIO_TIMEOUT), MAX_SCENARIO_TIMEOUT)
  }

  /** The job of an ExecuteScenario call that reads the clock at tick 0. */
  ghost function JobOf(o: Oracle, config: Config, spec: Spec, parent: Context): (job: Job)
    ensures job.env == o.env && job.steps == spec.steps
    ensures job.ctx == WithTimeout(parent, o.env.now(0), Clamped(o, spec.timeout))
    ensures Serves(job, o, config)
  {
    Job(o.env, spec.steps, WithTimeout(parent, o.env.now(0), Clamped(o, spec.timeout)),
        (step: Step) => ParsedTimeout(o, step.timeout, DEFAULT_STEP_TIMEOUT),
        (req: Request) => ProtocolFor(config, req),
        (req: Request, data: Doc) => TargetFor(o.render, config, req, data),
        (req: Request, status: int) => IsSuccess(status, req.expectedStatus, ProtocolFor(config, req)),
        (req: Request, body: string) => Extraction(o, req.extract, body))
  }

  /** The job does with a request what the configuration and the oracles say. */
  ghost predicate ServesRequest(job: Job, o: Oracle, config: Config, req: Request) {
    && job.protocol(req) == ProtocolFor(config, req)
    && (forall data :: job.aim(req, data) == TargetFor(o.render, config, req, data))
    && (forall status :: job.accepts(req, status) == IsSuccess(status, req.expectedStatus, ProtocolFor(config, req)))
    && (forall body :: job.extracts(req, body) == Extraction(o, req.extract, body))
  }

  ghost predicate Serves(job: Job, o: Oracle, config: Config) {
    && (forall step :: job.timeout(step) == ParsedTimeout(o, step.timeout, DEFAULT_STEP_TIMEOUT))
    && (forall req :: ServesRequest(job, o, config, req))
  }

  ghost function Whole(job: Job): State {
    RunSteps(job, 0, State(1, NOTHING_YET))
  }

  /** Conservation: completed and failed together are the Sends made plus the repetitions
      charged by limiter failures, completed are exactly the successful Sends, and the total
      never exceeds the repetitions the spec asks for. */
  lemma Conservation(job: Job)
    ensures var p := Whole(job).p;
            && InSpecAll(job, p)
            && p.completed == Successes(job, p.log)
            && p.completed + p.failed == |p.log| + p.skipped
            && p.completed + p.failed <= WeightAll(job.steps)
  {
    RunKeeps(job, 1);
    ChargesAtMostWeight(job);
  }

  lemma ChargesAtMostWeight(job: Job)
    ensures Total(Whole(job).p) <= WeightAll(job.steps)
  {
    forall i: nat, t: State | i < |job.steps|
      ensures Total(OneStep(job)(i, t).p) <= Total(t.p) + Weight(job.steps[i].requests)
    {
      StepCharges(job, i, t);
    }
    StepsCharge(job, 0, State(1, NOTHING_YET), OneStep(job));
    assert job.steps[0..] == job.steps;
  }

  /** Chaining: the session behind each Send is what the requests finished before its own
      extracted, in the order of the spec and each from its last response without a transport
      error; all repetitions of a request therefore send the same target. */
  lemma Chaining(job: Job, i: nat, j: nat)
    requires i < |Whole(job).p.log| && j < |Whole(job).p.log|
    ensures var p := Whole(job).p;
            && InSpecAll(job, p) && VisitsChain(job, p.visits, p.log) && p.data == Chained(job, p.visits)
            && p.log[i].visit < |p.visits|
            && p.log[i].place.session == Chained(job, p.visits[..p.log[i].visit])
            && p.log[i].target == job.aim(RequestAt(job, p.log[i].place), p.log[i].place.session)
            && (p.log[i].visit == p.log[j].visit ==> p.log[i].target == p.log[j].target)
  {
    RunKeeps(job, 1);
    var p := Whole(job).p;
    assert p.log[i] in p.log && p.log[j] in p.log;
    assert SentRight(job, p.visits, p.starts, p.log[i]) && SentRight(job, p.visits, p.starts, p.log[j]);
  }

  /** A variable changes only in requests whose extract map names it: whatever the others reply,
      it stays as the first n requests left it, and unset if no request names it. */
  lemma {:induction false} UnnamedNeverChanges(
    job: Job, o: Oracle, config: Config, visits: seq<Visit>, n: nat, name: string)
    requires Serves(job, o, config) && n <= |visits|
    requires forall v :: v in visits ==> InSpec(job, v.place)
    requires forall i :: n <= i < |visits| ==> name !in RequestAt(job, visits[i].place).extract
    ensures var before, after := Chained(job, visits[..n]), Chained(job, visits);
            (name in after <==> name in before) && (name in after ==> after[name] == before[name])
    decreases |visits|
  {
    if n == |visits| {
      assert visits[..n] == visits;
    } else {
      var init := visits[..|visits| - 1];
      assert init[..n] == visits[..n];
      assert visits[|visits| - 1] in visits;
      assert ServesRequest(job, o, config, RequestAt(job, visits[|visits| - 1].place));
      UnnamedNeverChanges(job, o, config, init, n, name);
    }
  }

  /** Deadlines: the deadline of every Send is the least of the caller's, the scenario's clamped
      timeout from its start and the step's timeout from the step's start; the steps entered are
      a prefix of the spec, and a proper one only if the scenario context ran out. */
  lemma Deadlines(o: Oracle, config: Config, spec: Spec, parent: Context, i: nat)
    requires i < |Whole(JobOf(o, config, spec, parent)).p.log|
    ensures var w := Whole(JobOf(o, config, spec, parent));
            var e := w.p.log[i];
            && e.place.step < |w.p.starts| <= |spec.steps|
            && (|w.p.starts| < |spec.steps| ==>
                  SeenExpired(o.env, JobOf(o, config, spec, parent).ctx, w.tick))
            && e.deadline == Min(Min(parent.doneAt, o.env.now(0) + Clamped(o, spec.timeout)),
                                 o.env.now(w.p.starts[e.place.step])
                                 + ParsedTimeout(o, spec.steps[e.place.step].timeout, DEFAULT_STEP_TIMEOUT))
  {
    var job := JobOf(o, config, spec, parent);
    RunKeeps(job, 1);
    var p := Whole(job).p;
    assert p.log[i] in p.log;
    assert SentRight(job, p.visits, p.starts, p.log[i]);
  }

  /** Reconcile gives the scenario a context that ends config.Timeout + 5s after it was made; for
      an accepted configuration no Send outlives 305 seconds. */
  lemma ReconcileBoundsSends(o: Oracle, config: Config, spec: Spec, outer: Context, made: int, i: nat)
    requires Sound(config)
    requires i < |Whole(JobOf(o, config, spec, WithTimeout(outer, made, config.timeout + GRACE_PERIOD))).p.log|
    ensures Whole(JobOf(o, config, spec, WithTimeout(outer, made, config.timeout + GRACE_PERIOD))).p.log[i].deadline
            <= made + 305 * SECOND
  {
    Deadlines(o, config, spec, WithTimeout(outer, made, config.timeout + GRACE_PERIOD), i);
  }

  /** A spec timeout that reaches beyond the caller's deadline has no effect on the run. */
  lemma LongTimeoutIdle(o: Oracle, config: Config, spec: Spec, other: Spec, parent: Context)
    requires spec.steps == other.steps
    requires o.env.now(0) + Clamped(o, spec.timeout) >= parent.doneAt
    requires o.env.now(0) + Clamped(o, other.timeout) >= parent.doneAt
    ensures Whole(JobOf(o, config, spec, parent)) == Whole(JobOf(o, config, other, parent))
  {
    assert WithTimeout(parent, o.env.now(0), Clamped(o, spec.timeout))
        == WithTimeout(parent, o.env.now(0), Clamped(o, other.timeout));
  }
}
