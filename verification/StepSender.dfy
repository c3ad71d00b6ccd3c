/**
  The scenario executor and the caching gRPC sender together.  executeStep
  (pkg/warmup/scenario_executor.go) makes one sender per step, and the sender caches the first
  method it looks up.  A scenario run with these senders is compared with one whose sender
  resolves the method of every request: counts and session are the same in every environment
  exactly when, in each step, all gRPC requests name the same method.
 */
module StepSender {
  import opened Common
  import opened Config
  import opened Environment
  import opened GrpcMethod
  import opened JsonPath
  import opened Scenario
  import opened ScenarioExecutor
  import Executor
  import Grpc = GrpcSender

  // ---------------------------------------------------------------- two ways to send

  /** The environment with gRPC taken apart: what reflection finds, what an Invoke of a path with
      a payload returns at a tick, and what HTTP returns. */
  datatype Wire = Wire(
    now: nat -> int, admits: nat -> bool, net: Grpc.Net, invoke: (nat, string, string) -> Grpc.Reply,
    http: (nat, Target) -> Response, took: nat -> int)

  function CallAt(wire: Wire, tick: nat, target: Target): Grpc.Call {
    Grpc.Call(target.verb, target.payload, (path: string) => wire.invoke(tick, path, target.payload))
  }

  function Heard(r: Grpc.Response, took: int): Response {
    match r
    case Error => TransportError
    case Status(code, body) => Reply(code, took, body)
  }

  function Fresh(wire: Wire, tick: nat, protocol: string, target: Target): Response {
    if protocol == PROTOCOL_GRPC
    then Heard(Grpc.FreshSend(wire.net, target.address, CallAt(wire, tick, target)), wire.took(tick))
    else wire.http(tick, target)
  }

  /** The environment in which every gRPC Send resolves its own method. */
  function Resolving(wire: Wire): Env {
    Env(wire.now, wire.admits, (tick: nat, protocol: string, target: Target) => Fresh(wire, tick, protocol, target))
  }

  /** A response and the sender afterwards. */
  datatype Link = Link(resp: Response, sender: Grpc.State)

  /** How a step's sender answers. */
  type Sender = (Grpc.State, nat, string, Target) -> Link

  function CachedLink(wire: Wire, g: Grpc.State, tick: nat, protocol: string, target: Target): Link {
    if protocol == PROTOCOL_GRPC then
      var sent := Grpc.CachedSend(wire.net, target.address, g, CallAt(wire, tick, target));
      Link(Heard(sent.response, wire.took(tick)), sent.state)
    else Link(wire.http(tick, target), g)
  }

  function Cached(wire: Wire): Sender {
    (g: Grpc.State, tick: nat, protocol: string, target: Target) => CachedLink(wire, g, tick, protocol, target)
  }

  function Uncached(wire: Wire): Sender {
    (g: Grpc.State, tick: nat, protocol: string, target: Target) => Link(Fresh(wire, tick, protocol, target), g)
  }

  /** What a gRPC Send hears once its method is known: 200 with the body of an answer, 500 on a
      refusal, and a transport error when it is cut off or its payload does not fit. */
  ghost predicate Hears(wire: Wire, d: Grpc.Descriptor, tick: nat, target: Target, resp: Response) {
    if target.payload != "" && !wire.net.payloadFits(d, target.payload) then resp == TransportError
    else
      match wire.invoke(tick, "/" + d.service + "/" + d.name, target.payload)
      case Answered(body) => resp == Reply(200, wire.took(tick), body)
      case Refused => resp == Reply(500, wire.took(tick), "")
      case Interrupted => resp == TransportError
  }

  /** A Send that resolves its own method, written out; a sender that was never used answers alike. */
  lemma FreshMeans(wire: Wire, tick: nat, target: Target)
    ensures var resp := Fresh(wire, tick, "grpc", target);
            && (!wire.net.dial(target.address) ==> resp == TransportError)
            && (wire.net.dial(target.address) ==>
                  && (forall d :: Grpc.Finds(wire.net, target.verb, d) ==> Hears(wire, d, tick, target, resp))
                  && ((forall d :: !Grpc.Finds(wire.net, target.verb, d)) ==> resp == TransportError))
            && CachedLink(wire, Grpc.UNUSED, tick, "grpc", target).resp == resp
  {
    Grpc.FreshMeans(wire.net, target.address, CallAt(wire, tick, target));
    Grpc.SendFaithful(wire.net, target.address, Grpc.UNUSED, CallAt(wire, tick, target));
  }

  /** Other protocols do not touch the gRPC sender. */
  lemma OtherwiseHttp(wire: Wire, g: Grpc.State, tick: nat, protocol: string, target: Target)
    requires protocol != "grpc"
    ensures Fresh(wire, tick, protocol, target) == wire.http(tick, target)
    ensures CachedLink(wire, g, tick, protocol, target) == Link(wire.http(tick, target), g)
  {
  }

  // ---------------------------------------------------------------- the loops with a sender

  datatype Repeats = Repeats(counts: Counts, sender: Grpc.State)

  datatype Part = Part(sum: Summary, sender: Grpc.State)

  function RepeatedBy(
    job: Job, by_: Sender, req: Request, target: Target, ctx: Context, n: nat, c: Counts, g: Grpc.State): Repeats
    decreases n
  {
    if n == 0 then Repeats(c, g)
    else if Expired(ctx, job.env.now(c.tick)) then Repeats(c.(tick := c.tick + 1), g)
    else if !job.env.admits(c.tick + 1) then Repeats(c.(tick := c.tick + 2, failed := c.failed + n), g)
    else
      var l := by_(g, c.tick + 2, job.protocol(req), target);
      RepeatedBy(job, by_, req, target, ctx, n - 1, AfterResponse(c, l.resp, Accepted(job, req, l.resp)), l.sender)
  }

  function RequestedBy(
    job: Job, by_: Sender, req: Request, ctx: Context, tick: nat, data: Doc, g: Grpc.State): Part
  {
    var r := RepeatedBy(job, by_, req, job.aim(req, data), ctx, Repetitions(req), Counts(tick, 0, 0, ""), g);
    Part(Summary(r.counts.tick, r.counts.completed, r.counts.failed, data + job.extracts(req, r.counts.last)),
         r.sender)
  }

  type Asker = (Request, nat, Doc, Grpc.State) -> Part

  /** The requests of a step from index j on, each counted as `ask` says. */
  ghost function SteppedBy(
    env: Env, reqs: seq<Request>, j: nat, ctx: Context, m: Summary, g: Grpc.State, ask: Asker): Summary
    requires j <= |reqs|
    decreases |reqs| - j
  {
    if j == |reqs| then m
    else if Expired(ctx, env.now(m.tick)) then m.(tick := m.tick + 1)
    else
      var p := ask(reqs[j], m.tick + 1, m.data, g);
      SteppedBy(env, reqs, j + 1, ctx, Added(m, p.sum), p.sender, ask)
  }

  ghost function AskedBy(job: Job, by_: Sender, ctx: Context): Asker {
    (req: Request, tick: nat, data: Doc, g: Grpc.State) => RequestedBy(job, by_, req, ctx, tick, data, g)
  }

  /** One step, with a sender of its own. */
  ghost function CountedStepBy(job: Job, by_: Sender, k: nat, m: Summary): Summary
    requires k < |job.steps|
  {
    var ctx := StepContext(job, k, job.env.now(m.tick + 1));
    Added(m, SteppedBy(job.env, job.steps[k].requests, 0, ctx, Summary(m.tick + 2, 0, 0, m.data), Grpc.UNUSED,
                       AskedBy(job, by_, ctx)))
  }

  ghost function OneCountedBy(job: Job, by_: Sender): (nat, Summary) -> Summary {
    (k: nat, m: Summary) => if k < |job.steps| then CountedStepBy(job, by_, k, m) else m
  }

  const START := Summary(1, 0, 0, map[])

  /** The counts and the session of a whole scenario. */
  ghost function WholeBy(job: Job, by_: Sender): Summary {
    AllCounted(job, 0, START, OneCountedBy(job, by_))
  }

  // ---------------------------------------------------------------- senders that answer like the environment

  /** As long as the sender's state is good, it answers as the environment and stays good. */
  ghost predicate Answers(job: Job, by_: Sender, good: Grpc.State -> bool, req: Request, target: Target) {
    forall g, tick :: good(g) ==>
      var l := by_(g, tick, job.protocol(req), target);
      l.resp == job.env.send(tick, job.protocol(req), target) && good(l.sender)
  }

  lemma {:induction false} RepeatsMatch(
    job: Job, by_: Sender, good: Grpc.State -> bool, req: Request, target: Target, ctx: Context, n: nat,
    c: Counts, g: Grpc.State)
    requires good(g) && Answers(job, by_, good, req, target)
    ensures var r := RepeatedBy(job, by_, req, target, ctx, n, c, g);
            r.counts == Repeated(job, req, target, ctx, n, c) && good(r.sender)
    decreases n
  {
    if n > 0 && !Expired(ctx, job.env.now(c.tick)) && job.env.admits(c.tick + 1) {
      var l := by_(g, c.tick + 2, job.protocol(req), target);
      RepeatsMatch(job, by_, good, req, target, ctx, n - 1,
                   AfterResponse(c, l.resp, Accepted(job, req, l.resp)), l.sender);
    }
  }

  /** The sender answers every request of a step like the environment. */
  ghost predicate AnswersAll(job: Job, by_: Sender, good: Grpc.State -> bool, reqs: seq<Request>) {
    forall req, data :: req in reqs ==> Answers(job, by_, good, req, job.aim(req, data))
  }

  /** `ask` counts a request as the job does with the sender. */
  ghost predicate AsksBy(
    job: Job, by_: Sender, ctx: Context, ask: Asker, req: Request, tick: nat, data: Doc, g: Grpc.State)
  {
    ask(req, tick, data, g) == RequestedBy(job, by_, req, ctx, tick, data, g)
  }

  ghost predicate AsksAllBy(job: Job, by_: Sender, ctx: Context, ask: Asker) {
    forall req, tick, data, g :: AsksBy(job, by_, ctx, ask, req, tick, data, g)
  }

  lemma AskedAsksBy(job: Job, by_: Sender, ctx: Context)
    ensures AsksAllBy(job, by_, ctx, AskedBy(job, by_, ctx))
  {
  }

  lemma AskerOf(job: Job, by_: Sender, k: nat, m: Summary) returns (ask: Asker)
    requires k < |job.steps|
    ensures var ctx := StepContext(job, k, job.env.now(m.tick + 1));
            && AsksAllBy(job, by_, ctx, ask)
            && CountedStepBy(job, by_, k, m)
               == Added(m, SteppedBy(job.env, job.steps[k].requests, 0, ctx, Summary(m.tick + 2, 0, 0, m.data),
                                     Grpc.UNUSED, ask))
  {
    var ctx := StepContext(job, k, job.env.now(m.tick + 1));
    AskedAsksBy(job, by_, ctx);
    ask := AskedBy(job, by_, ctx);
  }

  lemma CounterOf(job: Job, k: nat, m: Summary) returns (ask: (Request, nat, Doc) -> Summary)
    requires k < |job.steps|
    ensures var ctx := StepContext(job, k, job.env.now(m.tick + 1));
            && AsksAll(job, ctx, ask)
            && CountedStep(job, k, m)
               == Added(m, Stepped(job.env, job.steps[k].requests, 0, ctx, Summary(m.tick + 2, 0, 0, m.data), ask))
  {
    var ctx := StepContext(job, k, job.env.now(m.tick + 1));
    AskedAsks(job, ctx);
    ask := Asked(job, ctx);
  }

  lemma RequestMatchesBy(
    job: Job, by_: Sender, good: Grpc.State -> bool, req: Request, ctx: Context, tick: nat, data: Doc, g: Grpc.State)
    requires good(g) && Answers(job, by_, good, req, job.aim(req, data))
    ensures var p := RequestedBy(job, by_, req, ctx, tick, data, g);
            p.sum == Requested(job, req, ctx, tick, data) && good(p.sender)
  {
    RepeatsMatch(job, by_, good, req, job.aim(req, data), ctx, Repetitions(req), Counts(tick, 0, 0, ""), g);
  }

  /** The two ways of asking agree on a request as long as the sender's state is good. */
  ghost predicate AsksAlike(
    good: Grpc.State -> bool, ask: (Request, nat, Doc) -> Summary, by_: Asker, req: Request, tick: nat, data: Doc,
    g: Grpc.State)
  {
    good(g) ==> by_(req, tick, data, g).sum == ask(req, tick, data) && good(by_(req, tick, data, g).sender)
  }

  lemma {:induction false} StepMatchesBy(
    env: Env, reqs: seq<Request>, j: nat, ctx: Context, m: Summary, g: Grpc.State, good: Grpc.State -> bool,
    ask: (Request, nat, Doc) -> Summary, by_: Asker)
    requires j <= |reqs| && good(g)
    requires forall req, tick, data, h :: req in reqs ==> AsksAlike(good, ask, by_, req, tick, data, h)
    ensures SteppedBy(env, reqs, j, ctx, m, g, by_) == Stepped(env, reqs, j, ctx, m, ask)
    decreases |reqs| - j
  {
    if j < |reqs| && !Expired(ctx, env.now(m.tick)) {
      assert AsksAlike(good, ask, by_, reqs[j], m.tick + 1, m.data, g);
      var p := by_(reqs[j], m.tick + 1, m.data, g);
      StepMatchesBy(env, reqs, j + 1, ctx, Added(m, p.sum), p.sender, good, ask, by_);
    }
  }

  lemma CountedStepMatches(job: Job, by_: Sender, good: Grpc.State -> bool, k: nat, m: Summary)
    requires k < |job.steps| && good(Grpc.UNUSED) && AnswersAll(job, by_, good, job.steps[k].requests)
    ensures CountedStepBy(job, by_, k, m) == CountedStep(job, k, m)
  {
    var ctx, reqs := StepContext(job, k, job.env.now(m.tick + 1)), job.steps[k].requests;
    var ask := CounterOf(job, k, m);
    var asker := AskerOf(job, by_, k, m);
    forall req, tick, data, g | req in reqs ensures AsksAlike(good, ask, asker, req, tick, data, g) {
      if good(g) {
        assert Asks(job, ctx, ask, req, tick, data) && AsksBy(job, by_, ctx, asker, req, tick, data, g);
        RequestMatchesBy(job, by_, good, req, ctx, tick, data, g);
      }
    }
    StepMatchesBy(job.env, reqs, 0, ctx, Summary(m.tick + 2, 0, 0, m.data), Grpc.UNUSED, good, ask, asker);
  }

  lemma {:induction false} SameSteps(
    job: Job, k: nat, m: Summary, one: (nat, Summary) -> Summary, two: (nat, Summary) -> Summary)
    requires k <= |job.steps|
    requires forall i: nat, t: Summary :: i < |job.steps| ==> one(i, t) == two(i, t)
    ensures AllCounted(job, k, m, one) == AllCounted(job, k, m, two)
    decreases |job.steps| - k
  {
    if k < |job.steps| && !Expired(job.ctx, job.env.now(m.tick)) {
      SameSteps(job, k + 1, one(k, m), one, two);
    }
  }

  lemma OneCountedByIs(job: Job, by_: Sender, k: nat, m: Summary)
    requires k < |job.steps|
    ensures OneCountedBy(job, by_)(k, m) == CountedStepBy(job, by_, k, m)
  {
  }

  /** A scenario whose senders answer like the environment has the counts and the session of the
      recorded run; what counts as a good state may differ from step to step. */
  lemma WholeMatches(job: Job, by_: Sender, good: nat -> Grpc.State -> bool)
    requires forall k: nat :: k < |job.steps| ==>
               good(k)(Grpc.UNUSED) && AnswersAll(job, by_, good(k), job.steps[k].requests)
    ensures WholeBy(job, by_) == SummaryOf(Whole(job))
  {
    var one, two := OneCountedBy(job, by_), OneCounted(job);
    forall k: nat, m: Summary | k < |job.steps| ensures one(k, m) == two(k, m) {
      OneCountedByIs(job, by_, k, m);
      OneCountedIs(job, k, m);
      CountedStepMatches(job, by_, good(k), k, m);
    }
    SameSteps(job, 0, START, one, two);
    CountsAreTheRuns(job);
  }

  // ---------------------------------------------------------------- one method per step

  predicate IsGrpc(config: Config, req: Request) {
    ProtocolFor(config, req) == PROTOCOL_GRPC
  }

  /** All gRPC requests name methods that parse alike. */
  ghost predicate OneMethod(config: Config, reqs: seq<Request>) {
    forall a, b :: a in reqs && b in reqs && IsGrpc(config, a) && IsGrpc(config, b) ==>
      ParseMethod(a.grpcMethod) == ParseMethod(b.grpcMethod)
  }

  /** The scenario, in the environment in which every Send resolves its own method. */
  ghost function JobFor(o: Oracle, wire: Wire, config: Config, spec: Spec, parent: Context): (job: Job)
    ensures job.env == Resolving(wire) && job.steps == spec.steps
    ensures Serves(job, o.(env := Resolving(wire)), config)
  {
    JobOf(o.(env := Resolving(wire)), config, spec, parent)
  }

  lemma GrpcAim(job: Job, o: Oracle, config: Config, req: Request, data: Doc)
    requires Serves(job, o, config)
    ensures job.protocol(req) == ProtocolFor(config, req)
    ensures IsGrpc(config, req) ==>
              job.aim(req, data).address == Executor.HostPort(config) && job.aim(req, data).verb == req.grpcMethod
  {
    assert ServesRequest(job, o, config, req);
  }

  /** The cache is what a lookup of the given method finds. */
  ghost function Holding(wire: Wire, config: Config, full: string): Grpc.State -> bool {
    g => Grpc.Faithful(wire.net, Executor.HostPort(config), g, Grpc.Resolve(wire.net, full))
  }

  lemma CachedAnswers(job: Job, o: Oracle, wire: Wire, config: Config, req: Request, data: Doc, full: string)
    requires Serves(job, o, config) && job.env == Resolving(wire)
    requires IsGrpc(config, req) ==> ParseMethod(req.grpcMethod) == ParseMethod(full)
    ensures Answers(job, Cached(wire), Holding(wire, config, full), req, job.aim(req, data))
  {
    GrpcAim(job, o, config, req, data);
    var good, target := Holding(wire, config, full), job.aim(req, data);
    forall g, tick | good(g)
      ensures var l := Cached(wire)(g, tick, job.protocol(req), target);
              l.resp == job.env.send(tick, job.protocol(req), target) && good(l.sender)
    {
      if IsGrpc(config, req) {
        assert Grpc.Resolve(wire.net, req.grpcMethod) == Grpc.Resolve(wire.net, full);
        Grpc.SendFaithful(wire.net, target.address, g, CallAt(wire, tick, target));
      }
    }
  }

  /** A method named by the step, if it has a gRPC request at all. */
  ghost function MethodOf(config: Config, reqs: seq<Request>): string {
    if exists a :: a in reqs && IsGrpc(config, a) then (var a :| a in reqs && IsGrpc(config, a); a.grpcMethod) else ""
  }

  /** If every step names one method, the cached senders give the counts and the session of a
      scenario that resolves every method, in this environment. */
  lemma OneMethodAgrees(o: Oracle, wire: Wire, config: Config, spec: Spec, parent: Context)
    requires forall k :: 0 <= k < |spec.steps| ==> OneMethod(config, spec.steps[k].requests)
    ensures var job := JobFor(o, wire, config, spec, parent);
            WholeBy(job, Cached(wire)) == SummaryOf(Whole(job))
  {
    var job, o' := JobFor(o, wire, config, spec, parent), o.(env := Resolving(wire));
    var good := (k: nat) =>
      Holding(wire, config, if k < |spec.steps| then MethodOf(config, spec.steps[k].requests) else "");
    forall k: nat | k < |job.steps|
      ensures good(k)(Grpc.UNUSED) && AnswersAll(job, Cached(wire), good(k), job.steps[k].requests)
    {
      var reqs := spec.steps[k].requests;
      forall req, data | req in reqs ensures Answers(job, Cached(wire), good(k), req, job.aim(req, data)) {
        CachedAnswers(job, o', wire, config, req, data, MethodOf(config, reqs));
      }
    }
    WholeMatches(job, Cached(wire), good);
  }

  // ---------------------------------------------------------------- the condition is exact

  /** A calm environment: time stands still before every deadline, the limiter admits everything,
      HTTP fails, and gRPC calls are answered exactly at the ticks from lo up to hi. */
  function Calm(net: Grpc.Net, parent: Context, lo: nat, hi: nat): Wire {
    Wire(_ => parent.doneAt - 1, _ => true, net,
         (tick: nat, path: string, payload: string) => if lo <= tick < hi then Grpc.Answered("") else Grpc.Refused,
         (_, _) => TransportError, _ => 0)
  }

  ghost predicate Obliging(net: Grpc.Net) {
    (forall address :: net.dial(address)) && (forall d, payload :: net.payloadFits(d, payload))
  }

  /** A Send from state h leaves the sender in g, with a response that counts as completed exactly
      if `win` and whose body is empty. */
  ghost predicate Replies(
    job: Job, by_: Sender, req: Request, target: Target, tick: nat, h: Grpc.State, g: Grpc.State, win: bool)
  {
    var l := by_(h, tick, job.protocol(req), target);
    l.sender == g && Accepted(job, req, l.resp) == win && (l.resp.Reply? ==> l.resp.body == "")
  }

  lemma {:induction false} CalmRepeats(
    job: Job, by_: Sender, req: Request, target: Target, ctx: Context, n: nat, c: Counts, h: Grpc.State,
    g: Grpc.State, win: bool)
    requires forall t: nat :: !Expired(ctx, job.env.now(t)) && job.env.admits(t)
    requires forall t: nat :: c.tick <= t < c.tick + 3 * n ==>
               Replies(job, by_, req, target, t, h, g, win) && Replies(job, by_, req, target, t, g, g, win)
    requires c.last == ""
    ensures var r := RepeatedBy(job, by_, req, target, ctx, n, c, h);
            && r.counts.tick == c.tick + 3 * n && r.counts.last == ""
            && r.counts.completed == c.completed + (if win then n else 0)
            && (n > 0 ==> r.sender == g)
    decreases n
  {
    if n > 0 {
      assert Replies(job, by_, req, target, c.tick + 2, h, g, win);
      var l := by_(h, c.tick + 2, job.protocol(req), target);
      var next := AfterResponse(c, l.resp, Accepted(job, req, l.resp));
      CalmRepeats(job, by_, req, target, ctx, n - 1, next, g, g, win);
    }
  }

  /** The ticks that the first i requests take when nothing stops them. */
  function Ticks(reqs: seq<Request>, i: nat): nat
    requires i <= |reqs|
  {
    if i == 0 then 0 else Ticks(reqs, i - 1) + 1 + 3 * Repetitions(reqs[i - 1])
  }

  /** Request i of a step that starts at `base` leaves the session empty, and completes x times if
      it is the hot one and never otherwise. */
  ghost predicate Yields(
    ask: Asker, reqs: seq<Request>, base: nat, i: nat, h: Grpc.State, g: Grpc.State, hot: int, x: int)
    requires i < |reqs|
  {
    var p := ask(reqs[i], base + Ticks(reqs, i) + 1, map[], h);
    && p.sum.tick == base + Ticks(reqs, i + 1) && p.sum.data == map[] && p.sender == g
    && p.sum.completed == if i == hot then x else 0
  }

  /** A step in which only the request at `hot` completes, x times. */
  lemma {:induction false} CalmStep(
    env: Env, reqs: seq<Request>, j: nat, ctx: Context, m: Summary, ask: Asker, base: nat, g: nat -> Grpc.State,
    hot: int, x: int)
    requires j <= |reqs| && m.tick == base + Ticks(reqs, j) && m.data == map[]
    requires forall t: nat :: !Expired(ctx, env.now(t))
    requires forall i: nat :: i < |reqs| ==> Yields(ask, reqs, base, i, g(i), g(i + 1), hot, x)
    ensures var r := SteppedBy(env, reqs, j, ctx, m, g(j), ask);
            && r.tick == base + Ticks(reqs, |reqs|) && r.data == map[]
            && r.completed == m.completed + (if j <= hot < |reqs| then x else 0)
    decreases |reqs| - j
  {
    if j < |reqs| {
      assert Yields(ask, reqs, base, j, g(j), g(j + 1), hot, x);
      var p := ask(reqs[j], m.tick + 1, m.data, g(j));
      CalmStep(env, reqs, j + 1, ctx, Added(m, p.sum), ask, base, g, hot, x);
    }
  }

  /** The tick at which step k begins when nothing stops the scenario. */
  function Begins(steps: seq<Step>, k: nat): nat
    requires k <= |steps|
  {
    if k == 0 then 1 else Begins(steps, k - 1) + 2 + Ticks(steps[k - 1].requests, |steps[k - 1].requests|)
  }

  /** Step i, begun in time with an empty session, completes x requests if it is the hot one. */
  ghost predicate Contributes(job: Job, one: (nat, Summary) -> Summary, i: nat, m: Summary, hot: nat, x: int)
    requires i < |job.steps|
  {
    m.tick == Begins(job.steps, i) && m.data == map[] ==>
      && one(i, m).tick == Begins(job.steps, i + 1) && one(i, m).data == map[]
      && one(i, m).completed == m.completed + (if i == hot then x else 0)
  }

  /** A scenario in which only the step at `hot` completes requests, x of them. */
  lemma {:induction false} CalmScenario(
    job: Job, k: nat, m: Summary, one: (nat, Summary) -> Summary, hot: nat, x: int)
    requires k <= |job.steps| && m.tick == Begins(job.steps, k) && m.data == map[]
    requires forall t: nat :: !Expired(job.ctx, job.env.now(t))
    requires forall i: nat, t: Summary :: i < |job.steps| ==> Contributes(job, one, i, t, hot, x)
    ensures AllCounted(job, k, m, one).completed == m.completed + (if k <= hot < |job.steps| then x else 0)
    decreases |job.steps| - k
  {
    if k < |job.steps| {
      assert Contributes(job, one, k, m, hot, x);
      CalmScenario(job, k + 1, one(k, m), one, hot, x);
    }
  }

  // ---------------------------------------------------------------- what the two senders reply

  /** How a sender behaves when the server answers: the state a Send of a method settles it in, and
      whether it then has a descriptor to invoke. */
  datatype Habit = Habit(settle: (Grpc.State, string) -> Grpc.State, knows: (Grpc.State, string) -> bool)

  /** The caching sender looks up once and holds on to what it found. */
  function CachedHabit(net: Grpc.Net): Habit {
    Habit((g: Grpc.State, full: string) => Settle(net, g, full), (g: Grpc.State, full: string) => g.descriptor.Some?)
  }

  function Settle(net: Grpc.Net, g: Grpc.State, full: string): Grpc.State {
    if g.descriptor.Some? || g.reflectionFailed then g.(connected := true)
    else var d := Grpc.Resolve(net, full); Grpc.State(true, d, d.None?)
  }

  /** The resolving sender keeps nothing. */
  function UncachedHabit(net: Grpc.Net): Habit {
    Habit((g: Grpc.State, full: string) => g,
          (g: Grpc.State, full: string) => Grpc.Resolve(net, full).Some?)
  }

  /** A Send of the request at a tick goes by the habit, also when it is repeated. */
  ghost predicate GoesBy(
    job: Job, config: Config, by_: Sender, habit: Habit, lo: nat, hi: nat, req: Request, tick: nat, h: Grpc.State)
  {
    var g := After(config, habit, req, h);
    var win := IsGrpc(config, req) && lo <= tick < hi && habit.knows(g, req.grpcMethod);
    && Replies(job, by_, req, job.aim(req, map[]), tick, h, g, win)
    && Replies(job, by_, req, job.aim(req, map[]), tick, g, g, win)
  }

  /** The sender after a request. */
  function After(config: Config, habit: Habit, req: Request, h: Grpc.State): Grpc.State {
    if IsGrpc(config, req) then habit.settle(h, req.grpcMethod) else h
  }

  ghost predicate AllGoBy(job: Job, config: Config, by_: Sender, habit: Habit, lo: nat, hi: nat) {
    forall req, tick, h :: GoesBy(job, config, by_, habit, lo, hi, req, tick, h)
  }

  lemma CachedReplies(
    job: Job, o: Oracle, config: Config, net: Grpc.Net, parent: Context, lo: nat, hi: nat, req: Request, tick: nat,
    h: Grpc.State)
    requires Serves(job, o, config) && Obliging(net) && IsGrpc(config, req)
    ensures var g := Settle(net, h, req.grpcMethod);
            Replies(job, Cached(Calm(net, parent, lo, hi)), req, job.aim(req, map[]), tick, h, g,
                    lo <= tick < hi && g.descriptor.Some?)
  {
    assert ServesRequest(job, o, config, req);
    GrpcAim(job, o, config, req, map[]);
  }

  lemma UncachedReplies(
    job: Job, o: Oracle, config: Config, net: Grpc.Net, parent: Context, lo: nat, hi: nat, req: Request, tick: nat,
    h: Grpc.State)
    requires Serves(job, o, config) && Obliging(net) && IsGrpc(config, req)
    ensures Replies(job, Uncached(Calm(net, parent, lo, hi)), req, job.aim(req, map[]), tick, h, h,
                    lo <= tick < hi && Grpc.Resolve(net, req.grpcMethod).Some?)
  {
    assert ServesRequest(job, o, config, req);
    GrpcAim(job, o, config, req, map[]);
  }

  lemma HttpReplies(
    job: Job, o: Oracle, config: Config, wire: Wire, by_: Sender, req: Request, tick: nat, h: Grpc.State)
    requires Serves(job, o, config) && !IsGrpc(config, req) && wire.http(tick, job.aim(req, map[])).TransportError?
    requires by_ == Cached(wire) || by_ == Uncached(wire)
    ensures Replies(job, by_, req, job.aim(req, map[]), tick, h, h, false)
  {
    GrpcAim(job, o, config, req, map[]);
  }

  lemma CachedGoesBy(job: Job, o: Oracle, config: Config, net: Grpc.Net, parent: Context, lo: nat, hi: nat)
    requires Serves(job, o, config) && Obliging(net)
    ensures AllGoBy(job, config, Cached(Calm(net, parent, lo, hi)), CachedHabit(net), lo, hi)
  {
    var wire := Calm(net, parent, lo, hi);
    forall req, tick, h ensures GoesBy(job, config, Cached(wire), CachedHabit(net), lo, hi, req, tick, h) {
      if IsGrpc(config, req) {
        CachedReplies(job, o, config, net, parent, lo, hi, req, tick, h);
        CachedReplies(job, o, config, net, parent, lo, hi, req, tick, Settle(net, h, req.grpcMethod));
      } else {
        HttpReplies(job, o, config, wire, Cached(wire), req, tick, h);
      }
    }
  }

  lemma UncachedGoesBy(job: Job, o: Oracle, config: Config, net: Grpc.Net, parent: Context, lo: nat, hi: nat)
    requires Serves(job, o, config) && Obliging(net)
    ensures AllGoBy(job, config, Uncached(Calm(net, parent, lo, hi)), UncachedHabit(net), lo, hi)
  {
    var wire := Calm(net, parent, lo, hi);
    forall req, tick, h ensures GoesBy(job, config, Uncached(wire), UncachedHabit(net), lo, hi, req, tick, h) {
      if IsGrpc(config, req) {
        UncachedReplies(job, o, config, net, parent, lo, hi, req, tick, h);
      } else {
        HttpReplies(job, o, config, wire, Uncached(wire), req, tick, h);
      }
    }
  }

  /** The sender before request i of a step. */
  function SenderAt(config: Config, habit: Habit, reqs: seq<Request>, i: nat): Grpc.State
    requires i <= |reqs|
  {
    if i == 0 then Grpc.UNUSED else After(config, habit, reqs[i - 1], SenderAt(config, habit, reqs, i - 1))
  }

  /** Once a gRPC request was sent, the caching sender holds on to its method. */
  lemma {:induction false} FirstMethodStays(net: Grpc.Net, config: Config, reqs: seq<Request>, first: nat, i: nat)
    requires first < i <= |reqs| && IsGrpc(config, reqs[first])
    requires forall j :: 0 <= j < first ==> !IsGrpc(config, reqs[j])
    ensures SenderAt(config, CachedHabit(net), reqs, i) == Settle(net, Grpc.UNUSED, reqs[first].grpcMethod)
  {
    if i == first + 1 {
      NothingSent(config, CachedHabit(net), reqs, first);
    } else {
      FirstMethodStays(net, config, reqs, first, i - 1);
    }
  }

  lemma {:induction false} NothingSent(config: Config, habit: Habit, reqs: seq<Request>, i: nat)
    requires i <= |reqs| && forall j :: 0 <= j < i ==> !IsGrpc(config, reqs[j])
    ensures SenderAt(config, habit, reqs, i) == Grpc.UNUSED
  {
    if i > 0 { NothingSent(config, habit, reqs, i - 1); }
  }

  // ---------------------------------------------------------------- one hot request

  /** Where the hot request stands. */
  datatype Spot = Spot(step: nat, index: nat)

  ghost predicate Stands(steps: seq<Step>, spot: Spot) {
    spot.step < |steps| && spot.index < |steps[spot.step].requests|
  }

  /** The first tick of request i of step k, and the tick after its last. */
  function From(steps: seq<Step>, k: nat, i: nat): nat
    requires k < |steps| && i <= |steps[k].requests|
  {
    Begins(steps, k) + 2 + Ticks(steps[k].requests, i)
  }

  lemma {:induction false} TicksGrow(reqs: seq<Request>, i: nat, j: nat)
    requires i <= j <= |reqs|
    ensures Ticks(reqs, i) <= Ticks(reqs, j)
  {
    if i < j { TicksGrow(reqs, i, j - 1); }
  }

  lemma {:induction false} BeginsGrow(steps: seq<Step>, k: nat, l: nat)
    requires k <= l <= |steps|
    ensures Begins(steps, k) <= Begins(steps, l)
  {
    if k < l { BeginsGrow(steps, k, l - 1); }
  }

  /** The ticks of different requests do not overlap. */
  lemma SpotsApart(steps: seq<Step>, a: Spot, b: Spot, t: nat)
    requires Stands(steps, a) && Stands(steps, b)
    requires From(steps, a.step, a.index) <= t < From(steps, a.step, a.index + 1)
    requires From(steps, b.step, b.index) <= t < From(steps, b.step, b.index + 1)
    ensures a == b
  {
    if a.step < b.step {
      Before(steps, a, b);
    } else if b.step < a.step {
      Before(steps, b, a);
    } else if a.index < b.index {
      TicksGrow(steps[a.step].requests, a.index + 1, b.index);
    } else if b.index < a.index {
      TicksGrow(steps[a.step].requests, b.index + 1, a.index);
    }
  }

  lemma Before(steps: seq<Step>, a: Spot, b: Spot)
    requires Stands(steps, a) && Stands(steps, b) && a.step < b.step
    ensures From(steps, a.step, a.index + 1) <= From(steps, b.step, b.index)
  {
    var reqs := steps[a.step].requests;
    TicksGrow(reqs, a.index + 1, |reqs|);
    BeginsGrow(steps, a.step + 1, b.step);
  }

  lemma OnlyHotIsAnswered(steps: seq<Step>, hot: Spot, at: Spot, t: nat)
    requires Stands(steps, hot) && Stands(steps, at)
    requires From(steps, at.step, at.index) < t < From(steps, at.step, at.index + 1)
    ensures From(steps, hot.step, hot.index) + 1 <= t < From(steps, hot.step, hot.index + 1) <==> at == hot
  {
    if From(steps, hot.step, hot.index) + 1 <= t < From(steps, hot.step, hot.index + 1) {
      SpotsApart(steps, at, hot, t);
    }
  }

  ghost predicate NeverStops(job: Job, ctx: Context) {
    forall t: nat :: !Expired(ctx, job.env.now(t)) && job.env.admits(t)
  }

  /** The sender's replies during the ticks of a request. */
  ghost predicate RepliesAt(job: Job, by_: Sender, at: Spot, h: Grpc.State, g: Grpc.State, win: bool)
    requires Stands(job.steps, at)
  {
    var req := job.steps[at.step].requests[at.index];
    forall t :: From(job.steps, at.step, at.index) < t < From(job.steps, at.step, at.index + 1) ==>
      && Replies(job, by_, req, job.aim(req, map[]), t, h, g, win)
      && Replies(job, by_, req, job.aim(req, map[]), t, g, g, win)
  }

  lemma CalmRequest(
    job: Job, o: Oracle, config: Config, by_: Sender, ctx: Context, at: Spot, h: Grpc.State, g: Grpc.State, win: bool)
    requires Serves(job, o, config) && NeverStops(job, ctx) && Stands(job.steps, at)
    requires RepliesAt(job, by_, at, h, g, win)
    ensures var req := job.steps[at.step].requests[at.index];
            var p := RequestedBy(job, by_, req, ctx, From(job.steps, at.step, at.index) + 1, map[], h);
            && p.sum.tick == From(job.steps, at.step, at.index + 1) && p.sum.data == map[] && p.sender == g
            && p.sum.completed == if win then Repetitions(req) else 0
  {
    var req, tick := job.steps[at.step].requests[at.index], From(job.steps, at.step, at.index) + 1;
    CalmRepeats(job, by_, req, job.aim(req, map[]), ctx, Repetitions(req), Counts(tick, 0, 0, ""), h, g, win);
    NothingExtracted(job, o, config, req);
  }

  lemma NothingExtracted(job: Job, o: Oracle, config: Config, req: Request)
    requires Serves(job, o, config)
    ensures map[] + job.extracts(req, "") == map[]
  {
    assert ServesRequest(job, o, config, req);
  }

  function HotIn(k: nat, hot: Spot): int {
    if k == hot.step then hot.index else -1
  }

  // ---------------------------------------------------------------- a scenario with one hot request

  /** The sender by_ goes by the habit and is answered during the hot request only. */
  ghost predicate Heats(job: Job, config: Config, by_: Sender, habit: Habit, hot: Spot) {
    && Stands(job.steps, hot)
    && AllGoBy(job, config, by_, habit,
               From(job.steps, hot.step, hot.index) + 1, From(job.steps, hot.step, hot.index + 1))
  }

  /** x counts the completions of the hot request when it is answered. */
  ghost predicate HotYields(config: Config, habit: Habit, steps: seq<Step>, hot: Spot, x: int)
    requires Stands(steps, hot)
  {
    var reqs := steps[hot.step].requests;
    x == Answered(config, habit, reqs[hot.index], SenderAt(config, habit, reqs, hot.index))
  }

  lemma HeatedReplies(
    job: Job, config: Config, by_: Sender, habit: Habit, hot: Spot, at: Spot, h: Grpc.State)
    requires Heats(job, config, by_, habit, hot) && Stands(job.steps, at)
    ensures var req := job.steps[at.step].requests[at.index];
            var g := After(config, habit, req, h);
            RepliesAt(job, by_, at, h, g, at == hot && IsGrpc(config, req) && habit.knows(g, req.grpcMethod))
  {
    var req := job.steps[at.step].requests[at.index];
    var g := After(config, habit, req, h);
    var lo, hi := From(job.steps, hot.step, hot.index) + 1, From(job.steps, hot.step, hot.index + 1);
    var win := at == hot && IsGrpc(config, req) && habit.knows(g, req.grpcMethod);
    forall t | From(job.steps, at.step, at.index) < t < From(job.steps, at.step, at.index + 1)
      ensures Replies(job, by_, req, job.aim(req, map[]), t, h, g, win)
      ensures Replies(job, by_, req, job.aim(req, map[]), t, g, g, win)
    {
      OnlyHotIsAnswered(job.steps, hot, at, t);
      assert GoesBy(job, config, by_, habit, lo, hi, req, t, h);
    }
  }

  /** How often a request completes from a state of the sender, if it is answered. */
  ghost function Answered(config: Config, habit: Habit, req: Request, h: Grpc.State): int {
    if IsGrpc(config, req) && habit.knows(After(config, habit, req, h), req.grpcMethod) then Repetitions(req) else 0
  }

  lemma HeatedYields(
    job: Job, o: Oracle, config: Config, by_: Sender, habit: Habit, ctx: Context, hot: Spot, at: Spot,
    h: Grpc.State, x: int, ask: Asker)
    requires Serves(job, o, config) && NeverStops(job, ctx) && AsksAllBy(job, by_, ctx, ask)
    requires Heats(job, config, by_, habit, hot) && Stands(job.steps, at)
    requires at == hot ==> x == Answered(config, habit, job.steps[at.step].requests[at.index], h)
    ensures var reqs := job.steps[at.step].requests;
            Yields(ask, reqs, Begins(job.steps, at.step) + 2, at.index, h, After(config, habit, reqs[at.index], h),
                   HotIn(at.step, hot), x)
  {
    var req := job.steps[at.step].requests[at.index];
    var g := After(config, habit, req, h);
    HeatedReplies(job, config, by_, habit, hot, at, h);
    CalmRequest(job, o, config, by_, ctx, at, h, g,
                at == hot && IsGrpc(config, req) && habit.knows(g, req.grpcMethod));
    assert AsksBy(job, by_, ctx, ask, req, From(job.steps, at.step, at.index) + 1, map[], h);
  }

  ghost predicate NeverStopsAt(job: Job, k: nat, tick: nat)
    requires k < |job.steps|
  {
    NeverStops(job, StepContext(job, k, job.env.now(tick)))
  }

  /** The senders before and after each request of a step. */
  ghost predicate Chain(config: Config, habit: Habit, reqs: seq<Request>, g: nat -> Grpc.State) {
    g(0) == Grpc.UNUSED && forall i: nat :: i < |reqs| ==> Linked(config, habit, reqs[i], g(i), g(i + 1))
  }

  ghost predicate Linked(config: Config, habit: Habit, req: Request, h: Grpc.State, g: Grpc.State) {
    g == After(config, habit, req, h)
  }

  lemma SendersOf(config: Config, habit: Habit, reqs: seq<Request>, j: nat) returns (g: nat -> Grpc.State)
    requires j <= |reqs|
    ensures Chain(config, habit, reqs, g) && g(j) == SenderAt(config, habit, reqs, j)
  {
    g := (i: nat) => if i <= |reqs| then SenderAt(config, habit, reqs, i) else Grpc.UNUSED;
  }

  lemma HeatedRequests(
    job: Job, o: Oracle, config: Config, by_: Sender, habit: Habit, ctx: Context, hot: Spot, x: int, k: nat,
    m: Summary, ask: Asker, g: nat -> Grpc.State)
    requires Serves(job, o, config) && NeverStops(job, ctx) && AsksAllBy(job, by_, ctx, ask)
    requires k < |job.steps| && m.tick == Begins(job.steps, k) + 2 && m.data == map[]
    requires Heats(job, config, by_, habit, hot) && Chain(config, habit, job.steps[k].requests, g)
    requires k == hot.step ==> x == Answered(config, habit, job.steps[k].requests[hot.index], g(hot.index))
    ensures var r := SteppedBy(job.env, job.steps[k].requests, 0, ctx, m, Grpc.UNUSED, ask);
            && r.tick == Begins(job.steps, k + 1) && r.data == map[]
            && r.completed == m.completed + (if k == hot.step then x else 0)
  {
    var reqs, base := job.steps[k].requests, Begins(job.steps, k) + 2;
    forall i: nat | i < |reqs| ensures Yields(ask, reqs, base, i, g(i), g(i + 1), HotIn(k, hot), x) {
      HeatedYields(job, o, config, by_, habit, ctx, hot, Spot(k, i), g(i), x, ask);
      assert Linked(config, habit, reqs[i], g(i), g(i + 1));
    }
    CalmStep(job.env, reqs, 0, ctx, m, ask, base, g, HotIn(k, hot), x);
  }

  /** `one` counts a step as the job does with the sender. */
  ghost predicate CountsBy(job: Job, by_: Sender, one: (nat, Summary) -> Summary, k: nat, m: Summary) {
    k < |job.steps| ==> one(k, m) == CountedStepBy(job, by_, k, m)
  }

  ghost predicate CountsAllBy(job: Job, by_: Sender, one: (nat, Summary) -> Summary) {
    forall k, m :: CountsBy(job, by_, one, k, m)
  }

  lemma HeatedStep(
    job: Job, o: Oracle, config: Config, by_: Sender, habit: Habit, hot: Spot, x: int, k: nat, m: Summary,
    one: (nat, Summary) -> Summary)
    requires Serves(job, o, config) && k < |job.steps| && NeverStopsAt(job, k, m.tick + 1)
    requires Heats(job, config, by_, habit, hot) && HotYields(config, habit, job.steps, hot, x)
    requires CountsAllBy(job, by_, one)
    ensures Contributes(job, one, k, m, hot.step, x)
  {
    if m.tick == Begins(job.steps, k) && m.data == map[] {
      var ask := AskerOf(job, by_, k, m);
      var g := SendersOf(config, habit, job.steps[k].requests, if k == hot.step then hot.index else 0);
      HeatedRequests(job, o, config, by_, habit, StepContext(job, k, job.env.now(m.tick + 1)), hot, x, k,
                     Summary(m.tick + 2, 0, 0, m.data), ask, g);
      assert CountsBy(job, by_, one, k, m);
    }
  }

  /** Nothing stops the scenario or any of its steps. */
  ghost predicate Unstopped(job: Job) {
    NeverStops(job, job.ctx) && forall k: nat, tick: nat :: k < |job.steps| ==> NeverStopsAt(job, k, tick)
  }

  /** A scenario that nothing stops completes what the hot request completes. */
  lemma HeatedScenario(
    job: Job, o: Oracle, config: Config, by_: Sender, habit: Habit, hot: Spot, x: int,
    one: (nat, Summary) -> Summary)
    requires Serves(job, o, config) && Unstopped(job) && CountsAllBy(job, by_, one)
    requires Heats(job, config, by_, habit, hot) && HotYields(config, habit, job.steps, hot, x)
    ensures AllCounted(job, 0, START, one).completed == x
  {
    forall k: nat, m: Summary | k < |job.steps| ensures Contributes(job, one, k, m, hot.step, x) {
      assert NeverStopsAt(job, k, m.tick + 1);
      HeatedStep(job, o, config, by_, habit, hot, x, k, m, one);
    }
    CalmScenario(job, 0, START, one, hot.step, x);
  }

  /** No context of a calm scenario ever ends. */
  lemma CalmNeverStops(o: Oracle, config: Config, spec: Spec, parent: Context, net: Grpc.Net, lo: nat, hi: nat)
    ensures Unstopped(JobFor(o, Calm(net, parent, lo, hi), config, spec, parent))
  {
    var job := JobFor(o, Calm(net, parent, lo, hi), config, spec, parent);
    assert forall step :: job.timeout(step) > 0;
  }

  // ---------------------------------------------------------------- the theorem

  /** In every environment the scenario has the counts and the session of one that resolves the
      method of every request. */
  ghost predicate AgreesEverywhere(o: Oracle, config: Config, spec: Spec, parent: Context) {
    forall wire :: Agrees(o, wire, config, spec, parent)
  }

  ghost predicate Agrees(o: Oracle, wire: Wire, config: Config, spec: Spec, parent: Context) {
    var job := JobFor(o, wire, config, spec, parent);
    WholeBy(job, Cached(wire)) == SummaryOf(Whole(job))
  }

  lemma UncachedIsTheRun(o: Oracle, wire: Wire, config: Config, spec: Spec, parent: Context)
    ensures var job := JobFor(o, wire, config, spec, parent);
            WholeBy(job, Uncached(wire)) == SummaryOf(Whole(job))
  {
    var job := JobFor(o, wire, config, spec, parent);
    var always := (g: Grpc.State) => true;
    WholeMatches(job, Uncached(wire), (k: nat) => always);
  }

  /** The first gRPC request of a step, and a later one whose method parses differently. */
  lemma Differing(config: Config, reqs: seq<Request>) returns (first: nat, k: nat)
    requires !OneMethod(config, reqs)
    ensures first < k < |reqs| && IsGrpc(config, reqs[first]) && IsGrpc(config, reqs[k])
    ensures forall j :: 0 <= j < first ==> !IsGrpc(config, reqs[j])
    ensures ParseMethod(reqs[k].grpcMethod) != ParseMethod(reqs[first].grpcMethod)
  {
    var a, b :| a in reqs && b in reqs && IsGrpc(config, a) && IsGrpc(config, b)
                && ParseMethod(a.grpcMethod) != ParseMethod(b.grpcMethod);
    var i := IndexOf(reqs, a);
    var j := IndexOf(reqs, b);
    first := FirstGrpc(config, reqs, i);
    if ParseMethod(a.grpcMethod) != ParseMethod(reqs[first].grpcMethod) {
      k := i;
    } else {
      k := j;
    }
  }

  lemma IndexOf(reqs: seq<Request>, a: Request) returns (i: nat)
    requires a in reqs
    ensures i < |reqs| && reqs[i] == a
  {
    i :| 0 <= i < |reqs| && reqs[i] == a;
  }

  lemma {:induction false} FirstGrpc(config: Config, reqs: seq<Request>, i: nat) returns (first: nat)
    requires i < |reqs| && IsGrpc(config, reqs[i])
    ensures first <= i && IsGrpc(config, reqs[first])
    ensures forall j :: 0 <= j < first ==> !IsGrpc(config, reqs[j])
  {
    first := i;
    if j :| 0 <= j < i && IsGrpc(config, reqs[j]) {
      first := FirstGrpc(config, reqs, j);
    }
  }

  /** A server that tells two methods apart: it knows the other but not the first, unless the other
      does not parse; then it knows everything. */
  lemma Telling(first: string, other: string) returns (net: Grpc.Net)
    requires ParseMethod(first) != ParseMethod(other)
    ensures Obliging(net) && Grpc.Resolve(net, first).Some? != Grpc.Resolve(net, other).Some?
  {
    var m := ParseMethod(first);
    net := if m.Some? && ParseMethod(other).Some? then Grpc.AllBut(m.value) else Grpc.WILLING;
  }

  /** Whenever a step names two methods, some environment makes the counts differ. */
  lemma MixedStepDiffers(o: Oracle, config: Config, spec: Spec, parent: Context, k: nat) returns (wire: Wire)
    requires k < |spec.steps| && !OneMethod(config, spec.steps[k].requests)
    ensures var job := JobFor(o, wire, config, spec, parent);
            WholeBy(job, Cached(wire)).completed != SummaryOf(Whole(job)).completed
  {
    var reqs := spec.steps[k].requests;
    var first, i := Differing(config, reqs);
    var net := Telling(reqs[first].grpcMethod, reqs[i].grpcMethod);
    var hot := Spot(k, i);
    wire := Heated(net, parent, spec.steps, hot);
    var x, y := MixedYields(config, spec.steps, net, hot, first);
    var job, o' := JobFor(o, wire, config, spec, parent), o.(env := Resolving(wire));
    CalmNeverStops(o, config, spec, parent, net, From(spec.steps, k, i) + 1, From(spec.steps, k, i + 1));
    OneCountedCounts(job, Cached(wire));
    CachedCount(job, o', config, parent, net, hot, x, OneCountedBy(job, Cached(wire)));
    OneCountedCounts(job, Uncached(wire));
    UncachedCount(job, o', config, parent, net, hot, y, OneCountedBy(job, Uncached(wire)));
    UncachedIsTheRun(o, wire, config, spec, parent);
  }

  /** The calm environment in which only the hot request is answered. */
  function Heated(net: Grpc.Net, parent: Context, steps: seq<Step>, hot: Spot): Wire
    requires Stands(steps, hot)
  {
    Calm(net, parent, From(steps, hot.step, hot.index) + 1, From(steps, hot.step, hot.index + 1))
  }

  lemma CachedCount(
    job: Job, o: Oracle, config: Config, parent: Context, net: Grpc.Net, hot: Spot, x: int,
    one: (nat, Summary) -> Summary)
    requires Serves(job, o, config) && Unstopped(job) && Obliging(net) && Stands(job.steps, hot)
    requires CountsAllBy(job, Cached(Heated(net, parent, job.steps, hot)), one)
    requires HotYields(config, CachedHabit(net), job.steps, hot, x)
    ensures AllCounted(job, 0, START, one).completed == x
  {
    CachedGoesBy(job, o, config, net, parent,
                 From(job.steps, hot.step, hot.index) + 1, From(job.steps, hot.step, hot.index + 1));
    HeatedScenario(job, o, config, Cached(Heated(net, parent, job.steps, hot)), CachedHabit(net), hot, x, one);
  }

  lemma UncachedCount(
    job: Job, o: Oracle, config: Config, parent: Context, net: Grpc.Net, hot: Spot, x: int,
    one: (nat, Summary) -> Summary)
    requires Serves(job, o, config) && Unstopped(job) && Obliging(net) && Stands(job.steps, hot)
    requires CountsAllBy(job, Uncached(Heated(net, parent, job.steps, hot)), one)
    requires HotYields(config, UncachedHabit(net), job.steps, hot, x)
    ensures AllCounted(job, 0, START, one).completed == x
  {
    UncachedGoesBy(job, o, config, net, parent,
                   From(job.steps, hot.step, hot.index) + 1, From(job.steps, hot.step, hot.index + 1));
    HeatedScenario(job, o, config, Uncached(Heated(net, parent, job.steps, hot)), UncachedHabit(net), hot, x, one);
  }

  lemma OneCountedCounts(job: Job, by_: Sender)
    ensures CountsAllBy(job, by_, OneCountedBy(job, by_))
  {
  }

  lemma MixedYields(config: Config, steps: seq<Step>, net: Grpc.Net, hot: Spot, first: nat) returns (x: int, y: int)
    requires Stands(steps, hot) && first < hot.index
    requires var reqs, i := steps[hot.step].requests, hot.index;
             && IsGrpc(config, reqs[first]) && IsGrpc(config, reqs[i])
             && (forall j :: 0 <= j < first ==> !IsGrpc(config, reqs[j]))
             && Grpc.Resolve(net, reqs[first].grpcMethod).Some? != Grpc.Resolve(net, reqs[i].grpcMethod).Some?
    ensures x != y
    ensures HotYields(config, CachedHabit(net), steps, hot, x) && HotYields(config, UncachedHabit(net), steps, hot, y)
  {
    var reqs, i := steps[hot.step].requests, hot.index;
    FirstMethodStays(net, config, reqs, first, i);
    var n, known := Repetitions(reqs[i]), Grpc.Resolve(net, reqs[first].grpcMethod).Some?;
    x, y := if known then n else 0, if known then 0 else n;
  }

  /** The cached senders give the counts and the session of a scenario that resolves the method of
      every request, in every environment, if and only if each step names one gRPC method. */
  lemma AgreesEverywhereIff(o: Oracle, config: Config, spec: Spec, parent: Context)
    ensures AgreesEverywhere(o, config, spec, parent)
            <==> forall k :: 0 <= k < |spec.steps| ==> OneMethod(config, spec.steps[k].requests)
  {
    if forall k :: 0 <= k < |spec.steps| ==> OneMethod(config, spec.steps[k].requests) {
      forall wire ensures Agrees(o, wire, config, spec, parent) {
        OneMethodAgrees(o, wire, config, spec, parent);
      }
    } else {
      var k :| 0 <= k < |spec.steps| && !OneMethod(config, spec.steps[k].requests);
      var wire := MixedStepDiffers(o, config, spec, parent, k);
      assert !Agrees(o, wire, config, spec, parent);
    }
  }
}
