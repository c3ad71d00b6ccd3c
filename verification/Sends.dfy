/**
  What each Send of a scenario is (pkg/warmup/scenario_executor.go), written out in terms of the
  pod's configuration, the spec and the session: protocol, target, deadline, whether it counts as
  completed, and which values the session holds.
 */
module Sends {
  import opened Common
  import opened Config
  import opened Environment
  import opened JsonPath
  import opened Session
  import opened Scenario
  import opened Timeline
  import Executor

  // ---------------------------------------------------------------- protocol, target and success

  /** The request's own protocol, else the pod's, else HTTP. */
  ghost predicate SpeaksBy(config: Config, req: Request, protocol: string) {
    if req.protocol != "" then protocol == req.protocol
    else if config.protocol != "" then protocol == config.protocol
    else protocol == "http"
  }

  /** A gRPC target: the pod's address, the request's method, and its payload filled in. */
  ghost predicate GrpcTargetIs(render: Render, config: Config, req: Request, session: Doc, t: Target) {
    && t.address == config.podIP + ":" + Executor.Itoa(config.port)
    && t.verb == req.grpcMethod && t.headers == map[] && t.payload == Interpolated(render, session, req.grpcPayload)
  }

  /** An HTTP target: the request's endpoint filled in ("/" if that leaves nothing), its verb or GET,
      its body filled in, and its headers filled in, over the two the warmup always sends. */
  ghost predicate HttpTargetIs(render: Render, config: Config, req: Request, session: Doc, t: Target) {
    && t.address == Executor.UrlOf(config.podIP + ":" + Executor.Itoa(config.port),
                                   Interpolated(render, session, req.endpoint))
    && (if req.verb == "" then t.verb == "GET" else t.verb == req.verb)
    && t.payload == Interpolated(render, session, req.body)
    && (forall h :: h in t.headers <==> h in req.headers || h == "User-Agent" || h == "X-Warmup-Request")
    && (forall h :: h in req.headers ==> t.headers[h] == Interpolated(render, session, req.headers[h]))
    && ("User-Agent" !in req.headers ==> t.headers["User-Agent"] == "kube-booster/1.0")
    && ("X-Warmup-Request" !in req.headers ==> t.headers["X-Warmup-Request"] == "true")
  }

  /** gRPC completes on 200; HTTP on the expected status if one is given, else from 200 below 400. */
  ghost predicate Completes(req: Request, protocol: string, resp: Response) {
    && resp.Reply?
    && if protocol == "grpc" then resp.status == 200
       else if req.expectedStatus != 0 then resp.status == req.expectedStatus
       else 200 <= resp.status < 400
  }

  lemma HttpTargetMeans(render: Render, config: Config, req: Request, session: Doc)
    ensures HttpTargetIs(render, config, req, session, HttpTarget(render, config, req, session))
  {
    var t, fill := HttpTarget(render, config, req, session), Filler(render, session);
    var filled := Filled(fill, req.headers, req.headers.Keys);
    assert t.headers == Executor.WARMUP_HEADERS + filled;
    assert forall h :: h in filled <==> h in req.headers;
  }

  /** What a job that serves a configuration makes of a request. */
  ghost predicate Treats(job: Job, o: Oracle, config: Config, req: Request, session: Doc, resp: Response) {
    && SpeaksBy(config, req, job.protocol(req))
    && (job.protocol(req) == "grpc" ==> GrpcTargetIs(o.render, config, req, session, job.aim(req, session)))
    && (job.protocol(req) != "grpc" ==> HttpTargetIs(o.render, config, req, session, job.aim(req, session)))
    && ((resp.Reply? && job.accepts(req, resp.status)) <==> Completes(req, job.protocol(req), resp))
  }

  lemma JobTreats(job: Job, o: Oracle, config: Config, req: Request, session: Doc, resp: Response)
    requires Serves(job, o, config)
    ensures Treats(job, o, config, req, session, resp)
  {
    assert ServesRequest(job, o, config, req);
    HttpTargetMeans(o.render, config, req, session);
  }

  /** The Send was made right after reading t of the clock and the limiter's answer. */
  ghost predicate AnsweredAt(env: Env, protocol: string, e: Sent, t: nat) {
    && env.now(t) < e.deadline && env.admits(t + 1)
    && e.response == env.send(t + 2, protocol, e.target)
  }

  /** Place x of the log is a Send of its request, made at some reading. */
  lemma LogEntry(job: Job, p: Progress, x: nat) returns (t: nat)
    requires Timed(job, p) && x < |p.log|
    ensures var e := p.log[x];
            && InSpec(job, e.place) && e.target == job.aim(RequestAt(job, e.place), e.place.session)
            && AnsweredAt(job.env, job.protocol(RequestAt(job, e.place)), e, t)
  {
    var j := BelongsTo(job, p, x, |p.visits|);
    assert VisitRight(job, p.visits, p.starts, p.log, j);
    var v, base := p.visits[j], SendsBefore(p.visits, j);
    var made, r := p.log[base..base + v.sends], x - base;
    assert made[r] == p.log[x];
    assert MadeAt(job, v.place, EnteredAt(job, v.place.step, p.starts[v.place.step]), j, v.from, r, made[r]);
    t := v.from + 3 * r;
  }

  /** A Send of a request of the spec: its protocol, its target, the response given to it at some
      reading, and whether it counts as completed. */
  ghost predicate SendIs(o: Oracle, config: Config, req: Request, e: Sent, completed: bool) {
    exists protocol: string, t: nat ::
      && SpeaksBy(config, req, protocol) && AnsweredAt(o.env, protocol, e, t)
      && (protocol == "grpc" ==> GrpcTargetIs(o.render, config, req, e.place.session, e.target))
      && (protocol != "grpc" ==> HttpTargetIs(o.render, config, req, e.place.session, e.target))
      && (completed <==> Completes(req, protocol, e.response))
  }

  lemma JobSendIs(job: Job, o: Oracle, config: Config, x: nat)
    requires Serves(job, o, config) && job.env == o.env && x < |Whole(job).p.log|
    ensures var e := Whole(job).p.log[x];
            InSpec(job, e.place) && SendIs(o, config, RequestAt(job, e.place), e, Succeeded(job, e))
  {
    TimelineOfRun(job);
    var t := LogEntry(job, Whole(job).p, x);
    var e := Whole(job).p.log[x];
    JobTreats(job, o, config, RequestAt(job, e.place), e.place.session, e.response);
  }

  /** Every Send of a scenario is a Send of the request at its place in the spec. */
  lemma EverySend(o: Oracle, config: Config, spec: Spec, parent: Context, x: nat)
    requires x < |Whole(JobOf(o, config, spec, parent)).p.log|
    ensures var job := JobOf(o, config, spec, parent);
            var e := Whole(job).p.log[x];
            && e.place.step < |spec.steps| && e.place.index < |spec.steps[e.place.step].requests|
            && SendIs(o, config, spec.steps[e.place.step].requests[e.place.index], e, Succeeded(job, e))
  {
    JobSendIs(JobOf(o, config, spec, parent), o, config, x);
  }

  /** Completed counts the Sends that complete. */
  lemma CompletedMeans(job: Job)
    ensures var p := Whole(job).p;
            && InSpecAll(job, p)
            && p.completed == |CompletedAt(job, p.log)|
  {
    Conservation(job);
    SuccessesCounted(job, Whole(job).p.log);
  }

  ghost function CompletedAt(job: Job, log: seq<Sent>): set<nat>
    requires forall e :: e in log ==> InSpec(job, e.place)
  {
    set x: nat | x < |log| && Succeeded(job, log[x])
  }

  /** The places of the log that satisfy f. */
  ghost function Where(log: seq<Sent>, f: Sent -> bool): set<nat> {
    set x: nat | x < |log| && f(log[x])
  }

  lemma WhereAppend(log: seq<Sent>, e: Sent, f: Sent -> bool)
    ensures |Where(log + [e], f)| == |Where(log, f)| + (if f(e) then 1 else 0)
  {
    var before, after := Where(log, f), Where(log + [e], f);
    assert forall x: nat :: x < |log| ==> (log + [e])[x] == log[x];
    assert |log| !in before;
    assert after == if f(e) then before + {|log|} else before;
  }

  lemma {:induction false} SuccessesWhere(job: Job, log: seq<Sent>, f: Sent -> bool)
    requires forall e :: e in log ==> InSpec(job, e.place)
    requires forall e: Sent :: InSpec(job, e.place) ==> (f(e) <==> Succeeded(job, e))
    ensures Successes(job, log) == |Where(log, f)|
    decreases |log|
  {
    if log != [] {
      var init, last := log[..|log| - 1], log[|log| - 1];
      assert log == init + [last] && last in log;
      SuccessesWhere(job, init, f);
      WhereAppend(init, last, f);
    }
  }

  lemma SuccessesCounted(job: Job, log: seq<Sent>)
    requires forall e :: e in log ==> InSpec(job, e.place)
    ensures Successes(job, log) == |CompletedAt(job, log)|
  {
    var f := (e: Sent) => InSpec(job, e.place) && Succeeded(job, e);
    SuccessesWhere(job, log, f);
    assert forall x: nat :: x < |log| ==> log[x] in log;
    assert CompletedAt(job, log) == Where(log, f);
  }

  // ---------------------------------------------------------------- deadlines

  /** A timeout given as text lasts d: what it parses to, if that is positive, else the default. */
  ghost predicate Lasts(o: Oracle, text: string, default: int, d: int) {
    if text != "" && o.duration(text).Some? && o.duration(text).value > 0 then d == o.duration(text).value
    else d == default
  }

  ghost predicate IsLeast(d: int, of: set<int>) {
    d in of && forall x :: x in of ==> d <= x
  }

  /** The deadline of a Send is the earliest of four: the caller's; the scenario's start plus its
      timeout (two minutes if none is given); its start plus five minutes; and the reading with
      which its step was entered plus the step's timeout (thirty seconds if none is given). */
  lemma DeadlineMeans(o: Oracle, config: Config, spec: Spec, parent: Context, x: nat)
    requires x < |Whole(JobOf(o, config, spec, parent)).p.log|
    ensures var p := Whole(JobOf(o, config, spec, parent)).p;
            var e := p.log[x];
            && e.place.step < |p.starts| <= |spec.steps|
            && exists s, t ::
                 && Lasts(o, spec.timeout, 120_000_000_000, s)
                 && Lasts(o, spec.steps[e.place.step].timeout, 30_000_000_000, t)
                 && IsLeast(e.deadline, {parent.doneAt, o.env.now(0) + s, o.env.now(0) + 300_000_000_000,
                                         o.env.now(p.starts[e.place.step]) + t})
  {
    Deadlines(o, config, spec, parent, x);
    var p := Whole(JobOf(o, config, spec, parent)).p;
    var k := p.log[x].place.step;
    var s, t := ParsedTimeout(o, spec.timeout, DEFAULT_SCENARIO_TIMEOUT),
                ParsedTimeout(o, spec.steps[k].timeout, DEFAULT_STEP_TIMEOUT);
    TimeoutLasts(o, spec.timeout, DEFAULT_SCENARIO_TIMEOUT);
    TimeoutLasts(o, spec.steps[k].timeout, DEFAULT_STEP_TIMEOUT);
    LeastOfFour(parent.doneAt, o.env.now(0), s, o.env.now(p.starts[k]) + t, p.log[x].deadline);
  }

  lemma TimeoutLasts(o: Oracle, text: string, default: int)
    ensures Lasts(o, text, default, ParsedTimeout(o, text, default))
  {
  }

  lemma LeastOfFour(parent: int, now: int, s: int, step: int, d: int)
    requires d == Min(Min(parent, now + Min(s, MAX_SCENARIO_TIMEOUT)), step)
    ensures IsLeast(d, {parent, now + s, now + 300_000_000_000, step})
  {
  }

  // ---------------------------------------------------------------- the session

  /** The last reply of request i is the body of the last of its Sends without a transport error,
      and empty if there is none. */
  lemma {:induction false} LastReplyMeans(log: seq<Sent>, i: nat)
    ensures || (&& LastReply(log, i) == ""
                && forall x :: 0 <= x < |log| && log[x].visit == i ==> log[x].response.TransportError?)
            || (exists x :: IsLastReply(log, i, x) && LastReply(log, i) == log[x].response.body)
    decreases |log|
  {
    if log != [] {
      var init, n := log[..|log| - 1], |log| - 1;
      LastReplyMeans(init, i);
      if log[n].visit == i && log[n].response.Reply? {
        assert IsLastReply(log, i, n);
      } else if x :| IsLastReply(init, i, x) && LastReply(init, i) == init[x].response.body {
        assert IsLastReply(log, i, x);
      }
    }
  }

  ghost predicate IsLastReply(log: seq<Sent>, i: nat, x: int) {
    && 0 <= x < |log| && log[x].visit == i && log[x].response.Reply?
    && forall y :: x < y < |log| && log[y].visit == i ==> log[y].response.TransportError?
  }

  /** A body yields a variable: the request names it, the body is a JSON object, and the value is
      found under the path the request gives for it. */
  ghost predicate BodyYields(o: Oracle, req: Request, body: string, name: string, val: Json) {
    && name in req.extract && body != "" && o.decode(body).Some?
    && Lookup(o.decode(body).value, req.extract[name]) == Some(val)
  }

  lemma ExtractsMean(job: Job, o: Oracle, config: Config, req: Request, body: string, name: string, val: Json)
    requires Serves(job, o, config)
    ensures (name in job.extracts(req, body) && job.extracts(req, body)[name] == val)
            <==> BodyYields(o, req, body, name, val)
  {
    assert ServesRequest(job, o, config, req);
  }

  /** Visit j was the last of the first n that yielded the variable, and it yielded val. */
  ghost predicate YieldedLast(
    job: Job, o: Oracle, visits: seq<Visit>, n: nat, j: nat, name: string, val: Json)
    requires n <= |visits| && forall v :: v in visits ==> InSpec(job, v.place)
  {
    && j < n && BodyYields(o, RequestAt(job, visits[j].place), visits[j].last, name, val)
    && forall i, w :: j < i < n ==> !BodyYields(o, RequestAt(job, visits[i].place), visits[i].last, name, w)
  }

  /** The first n requests set the variable, last of all to val. */
  ghost predicate SetTo(job: Job, o: Oracle, visits: seq<Visit>, n: nat, name: string, val: Json)
    requires n <= |visits| && forall v :: v in visits ==> InSpec(job, v.place)
  {
    exists j: nat :: YieldedLast(job, o, visits, n, j, name, val)
  }

  /** A document holds a value under a name. */
  ghost predicate Has(data: Doc, name: string, val: Json) {
    name in data && data[name] == val
  }

  lemma UnionHas(a: Doc, b: Doc, name: string, val: Json)
    ensures Has(a + b, name, val) <==> Has(b, name, val) || ((forall w :: !Has(b, name, w)) && Has(a, name, val))
  {
    if name in b { assert Has(b, name, b[name]); }
  }

  /** The session after n requests holds exactly what each variable was last set to. */
  lemma {:induction false} SessionMeans(
    job: Job, o: Oracle, config: Config, visits: seq<Visit>, n: nat, name: string, val: Json)
    requires Serves(job, o, config) && n <= |visits| && forall v :: v in visits ==> InSpec(job, v.place)
    ensures Has(Chained(job, visits[..n]), name, val) <==> SetTo(job, o, visits, n, name, val)
    decreases n
  {
    if n > 0 {
      var v := visits[n - 1];
      assert v in visits && visits[..n][..n - 1] == visits[..n - 1];
      var req, before := RequestAt(job, v.place), Chained(job, visits[..n - 1]);
      SessionMeans(job, o, config, visits, n - 1, name, val);
      UnionHas(before, job.extracts(req, v.last), name, val);
      forall w ensures Has(job.extracts(req, v.last), name, w) <==> BodyYields(o, req, v.last, name, w) {
        ExtractsMean(job, o, config, req, v.last, name, w);
      }
      SetToStep(job, o, visits, n - 1, name, val);
    }
  }

  lemma SetToStep(job: Job, o: Oracle, visits: seq<Visit>, n: nat, name: string, val: Json)
    requires n < |visits| && forall v :: v in visits ==> InSpec(job, v.place)
    ensures SetTo(job, o, visits, n + 1, name, val)
            <==> var req, last := RequestAt(job, visits[n].place), visits[n].last;
                 || BodyYields(o, req, last, name, val)
                 || ((forall w :: !BodyYields(o, req, last, name, w)) && SetTo(job, o, visits, n, name, val))
  {
    var req, last := RequestAt(job, visits[n].place), visits[n].last;
    if BodyYields(o, req, last, name, val) {
      assert YieldedLast(job, o, visits, n + 1, n, name, val);
    } else {
      SetBefore(job, o, visits, n, name, val);
    }
  }

  lemma SetBefore(job: Job, o: Oracle, visits: seq<Visit>, n: nat, name: string, val: Json)
    requires n < |visits| && forall v :: v in visits ==> InSpec(job, v.place)
    requires !BodyYields(o, RequestAt(job, visits[n].place), visits[n].last, name, val)
    ensures SetTo(job, o, visits, n + 1, name, val)
            <==> && (forall w :: !BodyYields(o, RequestAt(job, visits[n].place), visits[n].last, name, w))
                 && SetTo(job, o, visits, n, name, val)
  {
    if SetTo(job, o, visits, n + 1, name, val) {
      var j: nat :| YieldedLast(job, o, visits, n + 1, j, name, val);
      assert YieldedLast(job, o, visits, n, j, name, val);
    }
    if forall w :: !BodyYields(o, RequestAt(job, visits[n].place), visits[n].last, name, w) {
      if j: nat :| YieldedLast(job, o, visits, n, j, name, val) {
        assert YieldedLast(job, o, visits, n + 1, j, name, val);
      }
    }
  }
}
