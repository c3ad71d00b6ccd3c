/** The loops of ExecuteScenario, executeStep and extractVariables
    (pkg/warmup/scenario_executor.go), proved to compute the run that module Scenario describes. */
module ScenarioExecutor {
  import opened Common
  import opened Config
  import opened Environment
  import opened JsonPath
  import opened Session
  import opened Scenario
  import Executor

  /** The variables among `names` whose path is found. */
  ghost function Found(doc: Doc, extract: map<string, string>, names: set<string>): Doc {
    map v | v in names && v in extract && Lookup(doc, extract[v]).Some? :: Lookup(doc, extract[v]).value
  }

  lemma FoundOneMore(before: Doc, doc: Doc, extract: map<string, string>, names: set<string>, v: string)
    requires v in extract
    ensures before + Found(doc, extract, names + {v})
            == var val, m := Lookup(doc, extract[v]), before + Found(doc, extract, names);
               if val.Some? then m[v := val.value] else m
  {
    var val := Lookup(doc, extract[v]);
    if val.Some? {
      assert Found(doc, extract, names + {v}) == Found(doc, extract, names)[v := val.value];
    } else {
      assert Found(doc, extract, names + {v}) == Found(doc, extract, names);
    }
  }

  /** extractVariables: whatever order the extract map is iterated in, the session ends up with
      the same variables. */
  method ExtractVariables(o: Oracle, body: string, extract: map<string, string>, session: SessionContext)
    modifies session
    ensures o.decode(body).None? ==> session.data == old(session.data)
    ensures o.decode(body).Some? ==>
              session.data == old(session.data) + Found(o.decode(body).value, extract, extract.Keys)
  {
    var doc := o.decode(body);
    if doc.None? {
      return;
    }
    ghost var before := session.data;
    var rest := extract.Keys;
    ghost var done: set<string> := {};
    assert before + Found(doc.value, extract, {}) == before;
    while rest != {}
      invariant done + rest == extract.Keys
      invariant session.data == before + Found(doc.value, extract, done)
    {
      var v :| v in rest;
      var val := JsonPathLookup(doc.value, extract[v]);
      FoundOneMore(before, doc.value, extract, done, v);
      if val.Some? {
        session.Set(v, val.value);
      }
      rest, done := rest - {v}, done + {v};
    }
  }

  /** The target of the next Send, interpolated from the session. */
  method BuildTarget(config: Config, req: Request, session: SessionContext) returns (target: Target)
    ensures target == TargetFor(session.render, config, req, session.data)
  {
    if ProtocolFor(config, req) == PROTOCOL_GRPC {
      var payload := session.Interpolate(req.grpcPayload);
      target := Target(Executor.HostPort(config), req.grpcMethod, map[], payload);
    } else {
      target := BuildHttpTarget(config, req, session);
    }
  }

  method BuildHttpTarget(config: Config, req: Request, session: SessionContext) returns (target: Target)
    ensures target == HttpTarget(session.render, config, req, session.data)
  {
    var endpoint := session.Interpolate(req.endpoint);
    if endpoint == "" {
      endpoint := DEFAULT_ENDPOINT_PATH;
    }
    var body := session.Interpolate(req.body);
    var headers := BuildHeaders(Executor.WARMUP_HEADERS, req.headers, session);
    target := Target(Executor.EndpointURL(config, endpoint), OrDefault(req.verb, "GET"), headers, body);
  }

  lemma FilledOneMore(
    base: map<string, string>, fill: string -> string, templates: map<string, string>, names: set<string>, h: string)
    requires h in templates
    ensures base + Filled(fill, templates, names + {h})
            == (base + Filled(fill, templates, names))[h := fill(templates[h])]
  {
    assert Filled(fill, templates, names + {h}) == Filled(fill, templates, names)[h := fill(templates[h])];
  }

  method BuildHeaders(base: map<string, string>, templates: map<string, string>, session: SessionContext)
    returns (headers: map<string, string>)
    ensures headers == base + Filled(Filler(session.render, session.data), templates, templates.Keys)
  {
    headers := base;
    var rest := templates.Keys;
    ghost var done: set<string> := {};
    ghost var fill := Filler(session.render, session.data);
    assert base + Filled(fill, templates, {}) == base;
    while rest != {}
      invariant done + rest == templates.Keys
      invariant headers == base + Filled(fill, templates, done)
    {
      var h :| h in rest;
      var value := session.Interpolate(templates[h]);
      FilledOneMore(base, fill, templates, done, h);
      headers := headers[h := value];
      rest, done := rest - {h}, done + {h};
    }
    assert done == templates.Keys;
  }

  // ---------------------------------------------------------------- the counts alone

  /** The loop variables of a request's repetitions. */
  datatype Counts = Counts(tick: nat, completed: int, failed: int, last: string)

  function AfterResponse(c: Counts, resp: Response, ok: bool): Counts {
    Counts(c.tick + 3, c.completed + (if ok then 1 else 0), c.failed + (if ok then 0 else 1),
           if resp.Reply? then resp.body else c.last)
  }

  predicate Accepted(job: Job, req: Request, resp: Response) {
    resp.Reply? && job.accepts(req, resp.status)
  }

  function Repeated(job: Job, req: Request, target: Target, ctx: Context, n: nat, c: Counts): Counts
    decreases n
  {
    if n == 0 then c
    else if Expired(ctx, job.env.now(c.tick)) then c.(tick := c.tick + 1)
    else if !job.env.admits(c.tick + 1) then c.(tick := c.tick + 2, failed := c.failed + n)
    else
      var resp := job.env.send(c.tick + 2, job.protocol(req), target);
      Repeated(job, req, target, ctx, n - 1, AfterResponse(c, resp, Accepted(job, req, resp)))
  }

  /** The loop variables of a step or a scenario, and the session. */
  datatype Summary = Summary(tick: nat, completed: int, failed: int, data: Doc)

  /** A part's own counts, added to those of the parts before it. */
  function Added(m: Summary, d: Summary): Summary {
    Summary(d.tick, m.completed + d.completed, m.failed + d.failed, d.data)
  }

  /** The counts of one request that starts at a tick with a session. */
  function Requested(job: Job, req: Request, ctx: Context, tick: nat, data: Doc): Summary {
    var c := Repeated(job, req, job.aim(req, data), ctx, Repetitions(req), Counts(tick, 0, 0, ""));
    Summary(c.tick, c.completed, c.failed, data + job.extracts(req, c.last))
  }

  /** The requests of a step from index j on, each counted as `ask` says. */
  ghost function Stepped(
    env: Env, reqs: seq<Request>, j: nat, ctx: Context, m: Summary, ask: (Request, nat, Doc) -> Summary): Summary
    requires j <= |reqs|
    decreases |reqs| - j
  {
    if j == |reqs| then m
    else if Expired(ctx, env.now(m.tick)) then m.(tick := m.tick + 1)
    else Stepped(env, reqs, j + 1, ctx, Added(m, ask(reqs[j], m.tick + 1, m.data)), ask)
  }

  ghost function Asked(job: Job, ctx: Context): (Request, nat, Doc) -> Summary {
    (req: Request, tick: nat, data: Doc) => Requested(job, req, ctx, tick, data)
  }

  /** `ask` counts a request as the job does. */
  ghost predicate Asks(
    job: Job, ctx: Context, ask: (Request, nat, Doc) -> Summary, req: Request, tick: nat, data: Doc)
  {
    ask(req, tick, data) == Requested(job, req, ctx, tick, data)
  }

  ghost predicate AsksAll(job: Job, ctx: Context, ask: (Request, nat, Doc) -> Summary) {
    forall req, tick, data :: Asks(job, ctx, ask, req, tick, data)
  }

  lemma AskedAsks(job: Job, ctx: Context)
    ensures AsksAll(job, ctx, Asked(job, ctx))
  {
  }

  /** One step's counts, under the context it is given when it is entered. */
  ghost function CountedStep(job: Job, k: nat, m: Summary): Summary
    requires k < |job.steps|
  {
    var ctx := StepContext(job, k, job.env.now(m.tick + 1));
    Added(m, Stepped(job.env, job.steps[k].requests, 0, ctx, Summary(m.tick + 2, 0, 0, m.data), Asked(job, ctx)))
  }

  ghost function OneCounted(job: Job): (nat, Summary) -> Summary {
    (k: nat, m: Summary) => if k < |job.steps| then CountedStep(job, k, m) else m
  }

  ghost function AllCounted(job: Job, k: nat, m: Summary, step: (nat, Summary) -> Summary): Summary
    requires k <= |job.steps|
    decreases |job.steps| - k
  {
    if k == |job.steps| then m
    else if Expired(job.ctx, job.env.now(m.tick)) then m.(tick := m.tick + 1)
    else AllCounted(job, k + 1, step(k, m), step)
  }

  // ---------------------------------------------------------------- they are those of the run

  function SummaryOf(s: State): Summary {
    Summary(s.tick, s.p.completed, s.p.failed, s.p.data)
  }

  /** One Send, seen from the counters and the last body. */
  lemma SendEffect(job: Job, at: Place, ctx: Context, p: Progress, resp: Response)
    requires InSpec(job, at)
    ensures var q, ok := AfterSend(job, at, ctx, p, resp), Accepted(job, RequestAt(job, at), resp);
            && q.completed == p.completed + (if ok then 1 else 0) && q.failed == p.failed + (if ok then 0 else 1)
            && LastReply(q.log, |p.visits|) == (if resp.Reply? then resp.body else LastReply(p.log, |p.visits|))
            && q.data == p.data && q.visits == p.visits
  {
    var q := AfterSend(job, at, ctx, p, resp);
    assert q.log[..|q.log| - 1] == p.log;
  }

  /** The record's counts run ahead of the loop's by x and y, what was there before the loop. */
  ghost predicate Matches(s: State, c: Counts, x: int, y: int) {
    && c.tick == s.tick && s.p.completed == x + c.completed && s.p.failed == y + c.failed
    && c.last == LastReply(s.p.log, |s.p.visits|)
  }

  lemma {:induction false} RepeatIsRepeated(
    job: Job, at: Place, ctx: Context, n: nat, s: State, c: Counts, x: int, y: int)
    requires InSpec(job, at) && Matches(s, c, x, y)
    ensures var r := Repeat(job, at, ctx, n, s);
            && Matches(r, Repeated(job, RequestAt(job, at), job.aim(RequestAt(job, at), s.p.data), ctx, n, c), x, y)
            && r.p.data == s.p.data && r.p.visits == s.p.visits
    decreases n
  {
    if n > 0 && !Expired(ctx, job.env.now(s.tick)) && job.env.admits(s.tick + 1) {
      var resp := ResponseAt(job, at, s);
      SendEffect(job, at, ctx, s.p, resp);
      RepeatIsRepeated(job, at, ctx, n - 1, State(s.tick + 3, AfterSend(job, at, ctx, s.p, resp)),
                       AfterResponse(c, resp, Accepted(job, RequestAt(job, at), resp)), x, y);
    }
  }

  lemma {:induction false} NoReplyYet(log: seq<Sent>, visit: nat)
    requires forall e :: e in log ==> e.visit < visit
    ensures LastReply(log, visit) == ""
    decreases |log|
  {
    if log != [] {
      assert log[|log| - 1] in log;
      NoReplyYet(log[..|log| - 1], visit);
    }
  }

  lemma RequestIsRequested(job: Job, at: Place, ctx: Context, s: State)
    requires InSpec(job, at) && Settled(s.p)
    ensures SummaryOf(AfterRequest(job, at, ctx, s))
            == Added(SummaryOf(s), Requested(job, RequestAt(job, at), ctx, s.tick, s.p.data))
  {
    NoReplyYet(s.p.log, |s.p.visits|);
    RepeatIsRepeated(job, at, ctx, Repetitions(RequestAt(job, at)), s, Counts(s.tick, 0, 0, ""),
                     s.p.completed, s.p.failed);
  }

  lemma RequestSettles(job: Job, at: Place, ctx: Context, s: State)
    requires InSpec(job, at) && Settled(s.p)
    ensures Settled(AfterRequest(job, at, ctx, s).p)
  {
    var keeps := (p: Progress) => p.visits == s.p.visits && forall e :: e in p.log ==> e.visit <= |p.visits|;
    RepeatInduction(job, at, ctx, Repetitions(RequestAt(job, at)), s, keeps);
  }

  /** m's counts are ahead of d's by x and y. */
  ghost predicate Ahead(m: Summary, d: Summary, x: int, y: int) {
    m == d.(completed := d.completed + x, failed := d.failed + y)
  }

  lemma RunNext(
    job: Job, k: nat, ctx: Context, j: nat, s: State, run: (nat, State) -> State, ask: (Request, nat, Doc) -> Summary)
    returns (q: State)
    requires k < |job.steps| && j < |job.steps[k].requests| && Runs(job, k, ctx, run) && AsksAll(job, ctx, ask)
    requires !Expired(ctx, job.env.now(s.tick)) && Settled(s.p)
    ensures Settled(q.p) && run(j, s) == run(j + 1, q)
    ensures SummaryOf(q) == Added(SummaryOf(s), ask(job.steps[k].requests[j], s.tick + 1, s.p.data))
  {
    var t, at := State(s.tick + 1, s.p), Place(k, j, s.p.data);
    assert Asks(job, ctx, ask, RequestAt(job, at), t.tick, t.p.data);
    RequestSettles(job, at, ctx, t);
    RequestIsRequested(job, at, ctx, t);
    q := AfterRequest(job, at, ctx, t);
    assert RunsFrom(job, k, ctx, run, j, s) && RunsFrom(job, k, ctx, run, j + 1, q);
  }

  lemma {:induction false} RequestsAreStepped(
    job: Job, k: nat, ctx: Context, j: nat, s: State, m: Summary, x: int, y: int,
    run: (nat, State) -> State, ask: (Request, nat, Doc) -> Summary)
    requires k < |job.steps| && j <= |job.steps[k].requests| && Runs(job, k, ctx, run) && AsksAll(job, ctx, ask)
    requires Settled(s.p) && Ahead(SummaryOf(s), m, x, y)
    ensures Settled(run(j, s).p)
    ensures Ahead(SummaryOf(run(j, s)), Stepped(job.env, job.steps[k].requests, j, ctx, m, ask), x, y)
    decreases |job.steps[k].requests| - j
  {
    var reqs := job.steps[k].requests;
    if j == |reqs| || Expired(ctx, job.env.now(s.tick)) {
      RunEnds(job, k, ctx, j, s, run);
    } else {
      var q := RunNext(job, k, ctx, j, s, run, ask);
      RequestsAreStepped(job, k, ctx, j + 1, q, Added(m, ask(reqs[j], m.tick + 1, m.data)), x, y, run, ask);
    }
  }

  lemma StepIsStepped(job: Job, k: nat, s: State, start: nat)
    requires k < |job.steps| && Settled(s.p)
    ensures var ctx := EnteredAt(job, k, start);
            SummaryOf(AfterStep(job, k, s, start))
            == Added(SummaryOf(s), Stepped(job.env, job.steps[k].requests, 0, ctx,
                                           Summary(s.tick, 0, 0, s.p.data), Asked(job, ctx)))
    ensures Settled(AfterStep(job, k, s, start).p)
  {
    var ctx, t := EnteredAt(job, k, start), State(s.tick, Entered(s.p, start));
    AskedAsks(job, ctx);
    RestRuns(job, k, ctx);
    RequestsAreStepped(job, k, ctx, 0, t, Summary(s.tick, 0, 0, s.p.data),
                       s.p.completed, s.p.failed, RestOf(job, k, ctx), Asked(job, ctx));
    assert RunsFrom(job, k, ctx, RestOf(job, k, ctx), 0, t);
  }

  lemma {:induction false} AllMatch(
    job: Job, k: nat, s: State, step: (nat, State) -> State, count: (nat, Summary) -> Summary)
    requires k <= |job.steps| && Settled(s.p)
    requires forall i: nat, t: State :: i < |job.steps| && Settled(t.p) ==>
               SummaryOf(step(i, t)) == count(i, SummaryOf(t)) && Settled(step(i, t).p)
    ensures SummaryOf(RunAll(job, k, s, step)) == AllCounted(job, k, SummaryOf(s), count)
    decreases |job.steps| - k
  {
    if k < |job.steps| && !Expired(job.ctx, job.env.now(s.tick)) {
      AllMatch(job, k + 1, step(k, s), step, count);
    }
  }

  lemma OneCountedIs(job: Job, k: nat, m: Summary)
    requires k < |job.steps|
    ensures OneCounted(job)(k, m) == CountedStep(job, k, m)
  {
  }

  lemma OneStepCounts(job: Job, k: nat, s: State)
    requires k < |job.steps| && Settled(s.p)
    ensures SummaryOf(OneStep(job)(k, s)) == OneCounted(job)(k, SummaryOf(s)) && Settled(OneStep(job)(k, s).p)
  {
    OneStepIs(job, k, s);
    OneCountedIs(job, k, SummaryOf(s));
    StepIsStepped(job, k, State(s.tick + 2, s.p), s.tick + 1);
  }

  /** The loops of the source compute the counts and the session of the recorded run. */
  lemma CountsAreTheRuns(job: Job)
    ensures SummaryOf(Whole(job)) == AllCounted(job, 0, Summary(1, 0, 0, map[]), OneCounted(job))
  {
    forall i: nat, t: State | i < |job.steps| && Settled(t.p)
      ensures SummaryOf(OneStep(job)(i, t)) == OneCounted(job)(i, SummaryOf(t)) && Settled(OneStep(job)(i, t).p)
    {
      OneStepCounts(job, i, t);
    }
    AllMatch(job, 0, State(1, NOTHING_YET), OneStep(job), OneCounted(job));
  }

  // ---------------------------------------------------------------- the loops

  /** One Send, to the target built from the current session. */
  method SendOnce(
    o: Oracle, config: Config, req: Request, session: SessionContext, tick: nat, ghost job: Job)
    returns (resp: Response)
    requires Serves(job, o, config) && job.env == o.env && session.render == o.render
    ensures resp == job.env.send(tick, job.protocol(req), job.aim(req, session.data))
  {
    assert ServesRequest(job, o, config, req);
    var target := BuildTarget(config, req, session);
    resp := o.env.send(tick, ProtocolFor(config, req), target);
  }

  /** Whether a response counts as completed. */
  method Judge(config: Config, req: Request, resp: Response, ghost o: Oracle, ghost job: Job) returns (ok: bool)
    requires Serves(job, o, config)
    ensures ok == Accepted(job, req, resp)
  {
    assert ServesRequest(job, o, config, req);
    ok := resp.Reply? && IsSuccess(resp.status, req.expectedStatus, ProtocolFor(config, req));
  }

  ghost predicate RepeatsAs(
    job: Job, req: Request, target: Target, ctx: Context, rep: (nat, Counts) -> Counts, n: nat, c: Counts)
  {
    rep(n, c) == Repeated(job, req, target, ctx, n, c)
  }

  ghost predicate RepeatsAll(job: Job, req: Request, target: Target, ctx: Context, rep: (nat, Counts) -> Counts) {
    forall n, c :: RepeatsAs(job, req, target, ctx, rep, n, c)
  }

  ghost function RepeatedTotal(job: Job, req: Request, target: Target, ctx: Context, n: nat, c: Counts): Counts {
    Repeated(job, req, target, ctx, n, c)
  }

  lemma Repetition(job: Job, req: Request, target: Target, ctx: Context) returns (rep: (nat, Counts) -> Counts)
    ensures RepeatsAll(job, req, target, ctx, rep)
  {
    rep := (n: nat, c: Counts) => RepeatedTotal(job, req, target, ctx, n, c);
  }

  lemma RepeatStops(
    job: Job, req: Request, target: Target, ctx: Context, rep: (nat, Counts) -> Counts, n: nat, c: Counts)
    requires RepeatsAll(job, req, target, ctx, rep)
    ensures n == 0 ==> rep(n, c) == c
    ensures n > 0 && Expired(ctx, job.env.now(c.tick)) ==> rep(n, c) == c.(tick := c.tick + 1)
    ensures n > 0 && !Expired(ctx, job.env.now(c.tick)) && !job.env.admits(c.tick + 1) ==>
              rep(n, c) == c.(tick := c.tick + 2, failed := c.failed + n)
  {
    assert RepeatsAs(job, req, target, ctx, rep, n, c);
  }

  lemma RepeatGoesOn(
    job: Job, req: Request, target: Target, ctx: Context, rep: (nat, Counts) -> Counts, n: nat, c: Counts)
    requires RepeatsAll(job, req, target, ctx, rep)
    requires n > 0 && !Expired(ctx, job.env.now(c.tick)) && job.env.admits(c.tick + 1)
    ensures var resp := job.env.send(c.tick + 2, job.protocol(req), target);
            rep(n, c) == rep(n - 1, AfterResponse(c, resp, Accepted(job, req, resp)))
  {
    var resp := job.env.send(c.tick + 2, job.protocol(req), target);
    assert RepeatsAs(job, req, target, ctx, rep, n, c);
    assert RepeatsAs(job, req, target, ctx, rep, n - 1, AfterResponse(c, resp, Accepted(job, req, resp)));
  }

  /** The repetitions of one request. */
  method RunRepetitions(
    o: Oracle, config: Config, req: Request, ctx: Context, session: SessionContext, from: nat, ghost job: Job)
    returns (completed: int, failed: int, lastBody: string, tick: nat)
    requires Serves(job, o, config) && job.env == o.env && session.render == o.render
    ensures Counts(tick, completed, failed, lastBody)
            == Repeated(job, req, job.aim(req, session.data), ctx, Repetitions(req), Counts(from, 0, 0, ""))
  {
    var count := Repetitions(req);
    completed, failed, lastBody, tick := 0, 0, "", from;
    ghost var goal := job.aim(req, session.data);
    ghost var rep := Repetition(job, req, goal, ctx);
    ghost var whole := rep(count, Counts(from, 0, 0, ""));
    assert RepeatsAs(job, req, goal, ctx, rep, count, Counts(from, 0, 0, ""));
    for i := 0 to count
      invariant whole == rep(count - i, Counts(tick, completed, failed, lastBody))
    {
      ghost var c := Counts(tick, completed, failed, lastBody);
      RepeatStops(job, req, goal, ctx, rep, count - i, c);
      if Expired(ctx, o.env.now(tick)) {
        tick := tick + 1;
        return;
      }
      if !o.env.admits(tick + 1) {
        failed := failed + (count - i);
        tick := tick + 2;
        return;
      }
      RepeatGoesOn(job, req, goal, ctx, rep, count - i, c);
      var resp := SendOnce(o, config, req, session, tick + 2, job);
      var ok := Judge(config, req, resp, o, job);
      tick := tick + 3;
      if resp.TransportError? {
        failed := failed + 1;
        continue;
      }
      lastBody := resp.body;
      if ok {
        completed := completed + 1;
      } else {
        failed := failed + 1;
      }
    }
    RepeatStops(job, req, goal, ctx, rep, 0, Counts(tick, completed, failed, lastBody));
  }

  lemma ExtractionIsFound(o: Oracle, extract: map<string, string>, body: string)
    ensures Extraction(o, extract, body)
            == if extract != map[] && body != "" && o.decode(body).Some?
               then Found(o.decode(body).value, extract, extract.Keys) else map[]
  {
  }

  /** One request of a step: its repetitions, then the extraction from its last body. */
  method ExecuteRequest(
    o: Oracle, config: Config, req: Request, ctx: Context, session: SessionContext, from: nat,
    ghost job: Job, ghost ask: (Request, nat, Doc) -> Summary)
    returns (completed: int, failed: int, tick: nat)
    requires Serves(job, o, config) && job.env == o.env && session.render == o.render && AsksAll(job, ctx, ask)
    modifies session
    ensures Summary(tick, completed, failed, session.data) == ask(req, from, old(session.data))
  {
    assert Asks(job, ctx, ask, req, from, session.data);
    assert ServesRequest(job, o, config, req);
    var lastBody;
    completed, failed, lastBody, tick := RunRepetitions(o, config, req, ctx, session, from, job);
    ExtractionIsFound(o, req.extract, lastBody);
    if req.extract != map[] && lastBody != "" {
      ExtractVariables(o, lastBody, req.extract, session);
    }
    assert session.data == old(session.data) + job.extracts(req, lastBody);
  }

  /** executeStep: the requests of a step in order, until its context is done. */
  method ExecuteStep(
    o: Oracle, config: Config, reqs: seq<Request>, ctx: Context, session: SessionContext, from: nat,
    ghost job: Job, ghost ask: (Request, nat, Doc) -> Summary)
    returns (completed: int, failed: int, tick: nat)
    requires Serves(job, o, config) && job.env == o.env && session.render == o.render && AsksAll(job, ctx, ask)
    modifies session
    ensures Summary(tick, completed, failed, session.data)
            == Stepped(job.env, reqs, 0, ctx, Summary(from, 0, 0, old(session.data)), ask)
  {
    completed, failed, tick := 0, 0, from;
    ghost var whole := Stepped(job.env, reqs, 0, ctx, Summary(from, 0, 0, session.data), ask);
    for j := 0 to |reqs|
      invariant whole == Stepped(job.env, reqs, j, ctx, Summary(tick, completed, failed, session.data), ask)
    {
      if Expired(ctx, o.env.now(tick)) {
        tick := tick + 1;
        return;
      }
      var c, f, t := ExecuteRequest(o, config, reqs[j], ctx, session, tick + 1, job, ask);
      completed, failed, tick := completed + c, failed + f, t;
    }
  }

  /** One step of the scenario, under a context with its own timeout. */
  method EnterStep(
    o: Oracle, config: Config, k: nat, steps: seq<Step>, ctx: Context, session: SessionContext, tick: nat,
    ghost job: Job, ghost m: Summary)
    returns (completed: int, failed: int, next: nat)
    requires Serves(job, o, config) && job.env == o.env && job.ctx == ctx && job.steps == steps
    requires k < |steps| && session.render == o.render && m.tick == tick && m.data == session.data
    modifies session
    ensures OneCounted(job)(k, m) == Added(m, Summary(next, completed, failed, session.data))
  {
    var timeout := ParsedTimeout(o, steps[k].timeout, DEFAULT_STEP_TIMEOUT);
    var stepCtx := WithTimeout(ctx, o.env.now(tick + 1), timeout);
    AskedAsks(job, stepCtx);
    completed, failed, next :=
      ExecuteStep(o, config, steps[k].requests, stepCtx, session, tick + 2, job, Asked(job, stepCtx));
    OneCountedIs(job, k, m);
  }

  /** The loop over the steps. */
  method ExecuteSteps(
    o: Oracle, config: Config, steps: seq<Step>, ctx: Context, ghost job: Job, ghost step: (nat, Summary) -> Summary)
    returns (completed: int, failed: int, tick: nat)
    requires Serves(job, o, config) && job.env == o.env && job.steps == steps && job.ctx == ctx
    requires step == OneCounted(job)
    ensures var m := AllCounted(job, 0, Summary(1, 0, 0, map[]), step);
            completed == m.completed && failed == m.failed && tick == m.tick
  {
    var session := new SessionContext(o.render);
    completed, failed, tick := 0, 0, 1;
    ghost var goal := AllCounted(job, 0, Summary(1, 0, 0, map[]), step);
    for k := 0 to |steps|
      invariant session.render == o.render
      invariant goal == AllCounted(job, k, Summary(tick, completed, failed, session.data), step)
    {
      if Expired(ctx, o.env.now(tick)) {
        tick := tick + 1;
        return;
      }
      ghost var m := Summary(tick, completed, failed, session.data);
      var c, f, t := EnterStep(o, config, k, steps, ctx, session, tick, job, m);
      completed, failed, tick := completed + c, failed + f, t;
      assert step(k, m) == Summary(tick, completed, failed, session.data);
    }
  }

  datatype Result = Result(success: bool, completed: int, failed: int, error: Option<Executor.ExecError>)

  /** ExecuteScenario: with a pod IP and at least one step, the counts are those of the whole
      run, it succeeds iff some request completed, and the context's error is reported iff the
      scenario context is done at the end. */
  method ExecuteScenario(o: Oracle, config: Config, spec: Spec, parent: Context) returns (r: Result)
    ensures config.podIP == "" ==> r == Result(false, 0, 0, Some(Executor.NoPodIP))
    ensures config.podIP != "" && spec.steps == [] ==> r == Result(true, 0, 0, None)
    ensures config.podIP != "" && spec.steps != [] ==>
              var job := JobOf(o, config, spec, parent);
              var w := Whole(job);
              && r.completed == w.p.completed && r.failed == w.p.failed
              && (r.success <==> r.completed > 0)
              && r.error == if Expired(job.ctx, o.env.now(w.tick)) then Some(Executor.ContextDone) else None
  {
    if config.podIP == "" {
      return Result(false, 0, 0, Some(Executor.NoPodIP));
    }
    var overall := ParsedTimeout(o, spec.timeout, DEFAULT_SCENARIO_TIMEOUT);
    if overall > MAX_SCENARIO_TIMEOUT {
      overall := MAX_SCENARIO_TIMEOUT;
    }
    var ctx := WithTimeout(parent, o.env.now(0), overall);
    if |spec.steps| == 0 {
      return Result(true, 0, 0, None);
    }
    ghost var job := JobOf(o, config, spec, parent);
    CountsAreTheRuns(job);
    var completed, failed, tick := ExecuteSteps(o, config, spec.steps, ctx, job, OneCounted(job));
    var error := if Expired(ctx, o.env.now(tick)) then Some(Executor.ContextDone) else None;
    r := Result(completed > 0, completed, failed, error);
  }
}
