/** WarmupExecutor.Execute (pkg/warmup/warmup_executor.go): the single-endpoint warmup loop. */
module Executor {
  import opened Common
  import opened Config
  import opened Environment
  import opened Percentiles

  datatype ExecError = NoPodIP | UnsupportedProtocol | ContextDone

  datatype Result = Result(
    success: bool, completed: int, failed: int, p50: int, p99: int, error: Option<ExecError>)

  // ---------------------------------------------------------------- targets

  function Digits(n: nat): string {
    if n < 10 then ["0123456789"[n]] else Digits(n / 10) + ["0123456789"[n % 10]]
  }

  function Itoa(n: int): string {
    if n < 0 then "-" + Digits(-n) else Digits(n)
  }

  function HostPort(config: Config): string {
    config.podIP + ":" + Itoa(config.port)
  }

  function EndpointURL(config: Config, endpoint: string): string {
    "http://" + HostPort(config) + (if endpoint == "" || endpoint[0] != '/' then "/" + endpoint else endpoint)
  }

  const WARMUP_HEADERS := map["User-Agent" := "kube-booster/1.0", "X-Warmup-Request" := "true"]

  function TargetOf(config: Config): Target {
    if config.protocol == PROTOCOL_GRPC
    then Target(HostPort(config), config.grpcMethod, map[], config.grpcPayload)
    else Target(EndpointURL(config, config.endpoint), "GET", WARMUP_HEADERS, "")
  }

  /** The number a string of decimal digits stands for. */
  function Value(digits: string): int {
    if digits == "" then 0 else 10 * Value(digits[..|digits| - 1]) + (digits[|digits| - 1] as int - '0' as int)
  }

  lemma {:induction false} DigitsRoundTrip(n: nat)
    ensures Digits(n) != "" && Value(Digits(n)) == n
    ensures forall c :: c in Digits(n) ==> '0' <= c <= '9'
    ensures n > 0 ==> Digits(n)[0] != '0'
  {
    if n >= 10 { DigitsRoundTrip(n / 10); }
    DigitIs(n % 10);
    if n < 10 { assert Digits(n)[..0] == ""; }
    else { assert Digits(n)[..|Digits(n)| - 1] == Digits(n / 10); }
  }

  /** The decimal text of a port reads back as the port. */
  lemma ItoaRoundTrip(n: int)
    ensures n >= 0 ==> Value(Itoa(n)) == n && Itoa(n) != "" && Itoa(n)[0] != '-'
    ensures n < 0 ==> Itoa(n) != "" && Itoa(n)[0] == '-' && Value(Itoa(n)[1..]) == -n
  {
    DigitsRoundTrip(if n < 0 then -n else n);
    if n < 0 { assert Itoa(n)[1..] == Digits(-n); } else { assert Itoa(n)[0] in Digits(n); }
  }

  lemma DigitIs(d: nat)
    requires d < 10
    ensures var c := "0123456789"[d]; '0' <= c <= '9' && c as int - '0' as int == d
  {
  }

  /** The target of the single-endpoint warmup, written out. */
  lemma TargetMeans(config: Config)
    ensures var t, host := TargetOf(config), config.podIP + ":" + Itoa(config.port);
            && (config.protocol == "grpc" ==>
                  && t.address == host && t.verb == config.grpcMethod
                  && t.headers == map[] && t.payload == config.grpcPayload)
            && (config.protocol != "grpc" ==>
                  && t.verb == "GET" && t.payload == "" && t.address == UrlOf(host, config.endpoint)
                  && t.headers == map["User-Agent" := "kube-booster/1.0", "X-Warmup-Request" := "true"])
  {
  }

  /** A host and a path, with exactly one slash between them if the path brings none. */
  ghost function UrlOf(host: string, path: string): string {
    if path != "" && path[0] == '/' then "http://" + host + path else "http://" + host + "/" + path
  }

  // ---------------------------------------------------------------- what a run does

  /** Why the loop ended: all requests made, the limiter failed, or the context was done. */
  datatype Exit = Exhausted | Limited | Cut

  /** The responses received, in order, and where the oracle stands afterwards. */
  datatype Run = Run(log: seq<Response>, exit: Exit, tick: nat)

  /** The rest of a run that has received `log` and may still make n requests. */
  function Continue(
    env: Env, ctx: Context, protocol: string, target: Target, n: nat, tick: nat, log: seq<Response>): Run
    decreases n
  {
    if n == 0 then Run(log, Exhausted, tick)
    else if Expired(ctx, env.now(tick)) then Run(log, Cut, tick + 1)
    else if !env.admits(tick + 1) then Run(log, Limited, tick + 2)
    else
      var resp := env.send(tick + 2, protocol, target);
      if resp.TransportError? && Expired(ctx, env.now(tick + 3)) then Run(log + [resp], Cut, tick + 4)
      else Continue(env, ctx, protocol, target, n - 1, tick + 4, log + [resp])
  }

  function Attempts(env: Env, ctx: Context, protocol: string, target: Target, n: nat, tick: nat): Run {
    Continue(env, ctx, protocol, target, n, tick, [])
  }

  predicate Ok(resp: Response) {
    resp.Reply? && 200 <= resp.status < 400
  }

  function Oks(log: seq<Response>): nat {
    if log == [] then 0 else Oks(log[..|log| - 1]) + (if Ok(log[|log| - 1]) then 1 else 0)
  }

  /** The durations of the responses without a transport error, in order. */
  function Latencies(log: seq<Response>): seq<int> {
    if log == [] then []
    else
      var last := log[|log| - 1];
      Latencies(log[..|log| - 1]) + (if last.Reply? then [last.duration] else [])
  }

  /** The requests a run counts as failed: the responses that were not a success and, after a
      limiter failure, everything that was not attempted. */
  function Failures(run: Run, n: nat): int {
    |run.log| - Oks(run.log) + (if run.exit.Limited? then n - |run.log| else 0)
  }

  // ---------------------------------------------------------------- which requests a run makes

  /** Request k of a run that starts at a tick: the context was found alive, the limiter admitted
      it, and its response is that of a Send made then. */
  ghost predicate Made(env: Env, ctx: Context, protocol: string, target: Target, tick: nat, k: nat, resp: Response) {
    && env.now(tick + 4 * k) < ctx.doneAt && env.admits(tick + 4 * k + 1)
    && resp == env.send(tick + 4 * k + 2, protocol, target)
  }

  /** Request k failed in transport and the context was found done right after it. */
  ghost predicate CutAfter(env: Env, ctx: Context, tick: nat, k: nat, resp: Response) {
    resp.TransportError? && env.now(tick + 4 * k + 3) >= ctx.doneAt
  }

  /** Why a run of n requests ended after m of them. */
  ghost predicate EndsAfter(env: Env, ctx: Context, n: nat, tick: nat, m: nat, exit: Exit, end: nat) {
    match exit
    case Exhausted => m == n && end == tick + 4 * m
    case Limited =>
      && m < n && env.now(tick + 4 * m) < ctx.doneAt && !env.admits(tick + 4 * m + 1)
      && end == tick + 4 * m + 2
    case Cut => m < n && env.now(tick + 4 * m) >= ctx.doneAt && end == tick + 4 * m + 1
  }

  /** A run, exactly: its responses are those of consecutive Sends, each made with the context alive
      and the limiter's consent, and it ends with the last one asked for, at the limiter's first
      refusal, or when the context is first found done, before a request or after one that failed
      in transport. */
  ghost predicate IsRunOf(env: Env, ctx: Context, protocol: string, target: Target, n: nat, tick: nat, run: Run) {
    var m := |run.log|;
    && m <= n
    && (forall k :: 0 <= k < m ==> Made(env, ctx, protocol, target, tick, k, run.log[k]))
    && (forall k :: 0 <= k < m - 1 ==> !CutAfter(env, ctx, tick, k, run.log[k]))
    && if m > 0 && CutAfter(env, ctx, tick, m - 1, run.log[m - 1]) then run.exit == Cut && run.tick == tick + 4 * m
       else EndsAfter(env, ctx, n, tick, m, run.exit, run.tick)
  }

  lemma {:induction false} ContinueIs(
    env: Env, ctx: Context, protocol: string, target: Target, n: nat, tick: nat, log: seq<Response>, left: nat)
    requires |log| + left == n
    requires forall k :: 0 <= k < |log| ==>
               Made(env, ctx, protocol, target, tick, k, log[k]) && !CutAfter(env, ctx, tick, k, log[k])
    ensures IsRunOf(env, ctx, protocol, target, n, tick,
                    Continue(env, ctx, protocol, target, left, tick + 4 * |log|, log))
    decreases left
  {
    var t := tick + 4 * |log|;
    if left > 0 && !Expired(ctx, env.now(t)) && env.admits(t + 1) {
      var resp := env.send(t + 2, protocol, target);
      var more := log + [resp];
      assert Made(env, ctx, protocol, target, tick, |log|, resp);
      if !(resp.TransportError? && Expired(ctx, env.now(t + 3))) {
        assert t + 4 == tick + 4 * |more|;
        ContinueIs(env, ctx, protocol, target, n, tick, more, left - 1);
      }
    }
  }

  lemma AttemptsAre(env: Env, ctx: Context, protocol: string, target: Target, n: nat, tick: nat)
    ensures IsRunOf(env, ctx, protocol, target, n, tick, Attempts(env, ctx, protocol, target, n, tick))
  {
    ContinueIs(env, ctx, protocol, target, n, tick, [], n);
  }

  /** With a context that stays alive and a limiter that never refuses, all n requests are made. */
  lemma HealthyRun(env: Env, ctx: Context, protocol: string, target: Target, n: nat, tick: nat)
    requires forall t: nat :: env.now(t) < ctx.doneAt && env.admits(t)
    ensures var run := Attempts(env, ctx, protocol, target, n, tick);
            && |run.log| == n && run.exit == Exhausted
            && forall k :: 0 <= k < n ==> run.log[k] == env.send(tick + 4 * k + 2, protocol, target)
  {
    AttemptsAre(env, ctx, protocol, target, n, tick);
    var run := Attempts(env, ctx, protocol, target, n, tick);
    assert forall k :: 0 <= k < |run.log| ==> Made(env, ctx, protocol, target, tick, k, run.log[k]);
  }

  // ---------------------------------------------------------------- what is counted

  /** The places in the log whose responses satisfy f. */
  ghost function Where(log: seq<Response>, f: Response -> bool): set<nat> {
    set k: nat | k < |log| && f(log[k])
  }

  lemma WhereAppend(log: seq<Response>, resp: Response, f: Response -> bool)
    ensures |Where(log + [resp], f)| == |Where(log, f)| + (if f(resp) then 1 else 0)
  {
    var before, after := Where(log, f), Where(log + [resp], f);
    assert forall k: nat :: k < |log| ==> (log + [resp])[k] == log[k];
    assert |log| !in before;
    assert after == if f(resp) then before + {|log|} else before;
  }

  ghost function Fine(): Response -> bool {
    (resp: Response) => resp.Reply? && 200 <= resp.status < 400
  }

  ghost function Took(d: int): Response -> bool {
    (resp: Response) => resp.Reply? && resp.duration == d
  }

  /** Completed are the replies with a status from 200 up to, not including, 400. */
  lemma {:induction false} OksCounted(log: seq<Response>)
    ensures Oks(log) == |Where(log, Fine())|
  {
    if log != [] {
      var init, last := log[..|log| - 1], log[|log| - 1];
      assert log == init + [last];
      OksCounted(init);
      WhereAppend(init, last, Fine());
    }
  }

  /** There is one latency per Send without a transport error: its duration. */
  lemma {:induction false} LatenciesCounted(log: seq<Response>, d: int)
    ensures multiset(Latencies(log))[d] == |Where(log, Took(d))|
  {
    if log != [] {
      var init, last := log[..|log| - 1], log[|log| - 1];
      assert log == init + [last];
      LatenciesCounted(init, d);
      WhereAppend(init, last, Took(d));
    }
  }

  // ---------------------------------------------------------------- accounting

  lemma {:induction false} OksBounded(log: seq<Response>)
    ensures Oks(log) <= |log|
  {
    if log != [] { OksBounded(log[..|log| - 1]); }
  }

  lemma LogAppend(log: seq<Response>, resp: Response)
    ensures Oks(log + [resp]) == Oks(log) + (if Ok(resp) then 1 else 0)
    ensures Latencies(log + [resp]) == Latencies(log) + (if resp.Reply? then [resp.duration] else [])
  {
    assert (log + [resp])[..|log|] == log;
  }

  lemma {:induction false} ContinueBounded(
    env: Env, ctx: Context, protocol: string, target: Target, n: nat, tick: nat, log: seq<Response>)
    ensures var run := Continue(env, ctx, protocol, target, n, tick, log);
            && log <= run.log && |run.log| <= |log| + n
            && (run.exit.Exhausted? ==> |run.log| == |log| + n)
            && (run.exit.Cut? ==> SeenExpired(env, ctx, run.tick))
    decreases n
  {
    if n == 0 || Expired(ctx, env.now(tick)) || !env.admits(tick + 1) {
      assert tick < tick + 1;
    } else {
      var resp := env.send(tick + 2, protocol, target);
      if !(resp.TransportError? && Expired(ctx, env.now(tick + 3))) {
        ContinueBounded(env, ctx, protocol, target, n - 1, tick + 4, log + [resp]);
      } else {
        assert tick + 3 < tick + 4;
      }
    }
  }

  /** Completed and failed never exceed the request count; they add up to it on exhaustion and
      on a limiter failure, and fall short only when the context was seen done. */
  lemma Accounting(env: Env, ctx: Context, protocol: string, target: Target, n: nat, tick: nat)
    ensures var run := Attempts(env, ctx, protocol, target, n, tick);
            var total := Oks(run.log) + Failures(run, n);
            && 0 <= Failures(run, n) && |run.log| <= total <= n
            && (!run.exit.Cut? ==> total == n)
            && (total < n ==> SeenExpired(env, ctx, run.tick))
  {
    ContinueBounded(env, ctx, protocol, target, n, tick, []);
    OksBounded(Attempts(env, ctx, protocol, target, n, tick).log);
  }

  // ---------------------------------------------------------------- the code

  /** Execute returns the tally of its run.  A sound configuration never reaches the
      unsupported-protocol branch, and as long as the clock does not run backwards a total short of
      the request count is always reported together with the context's error.  (A negative count
      makes the source panic when it allocates the latency list.) */
  method Execute(env: Env, parent: Context, config: Config) returns (r: Result)
    requires config.requestCount >= 0
    ensures config.podIP == "" ==> r == Result(false, 0, 0, 0, 0, Some(NoPodIP))
    ensures config.podIP != "" && config.protocol != "http" && config.protocol != "grpc" ==>
              r == Result(false, 0, 0, 0, 0, Some(UnsupportedProtocol))
    ensures Sound(config) ==> r.error != Some(UnsupportedProtocol)
    ensures r.success <==> r.completed > 0
    ensures config.podIP != "" && (config.protocol == "http" || config.protocol == "grpc") ==>
              var ctx := WithTimeout(parent, env.now(0), config.timeout);
              var n := config.requestCount;
              var run := Attempts(env, ctx, config.protocol, TargetOf(config), n, 1);
              var lats := Latencies(run.log);
              && r.completed == Oks(run.log) && r.failed == Failures(run, n) && r.completed + r.failed <= n
              && r.error == (if env.now(run.tick) >= ctx.doneAt then Some(ContextDone) else None)
              && (Monotone(env) && r.completed + r.failed < n ==> r.error == Some(ContextDone))
              && (lats == [] ==> r.p50 == 0 && r.p99 == 0)
              && (lats != [] ==> HasRank(lats, Rank(|lats|, 50), r.p50) && HasRank(lats, Rank(|lats|, 99), r.p99))
  {
    if config.podIP == "" {
      return Result(false, 0, 0, 0, 0, Some(NoPodIP));
    }
    if config.protocol != PROTOCOL_GRPC && config.protocol != PROTOCOL_HTTP {
      return Result(false, 0, 0, 0, 0, Some(UnsupportedProtocol));
    }
    var target := TargetOf(config);
    var ctx := WithTimeout(parent, env.now(0), config.timeout);
    var n := config.requestCount;
    var completed, failed, latencies, tick := Loop(env, ctx, config.protocol, target, n);
    var error := if Expired(ctx, env.now(tick)) then Some(ContextDone) else None;
    Accounting(env, ctx, config.protocol, target, n, 1);
    if Monotone(env) && completed + failed < n {
      var t: nat :| t < tick && Expired(ctx, env.now(t));
      StaysExpired(env, ctx, t, tick);
    }
    var a := new int[|latencies|](i requires 0 <= i < |latencies| => latencies[i]);
    assert a[..] == latencies;
    var p50, p99 := CalculatePercentiles(a);
    r := Result(completed > 0, completed, failed, p50, p99, error);
  }

  /** The request loop: after every iteration, success and failure add up to the iterations
      charged and there is one latency per response without a transport error. */
  method Loop(env: Env, ctx: Context, protocol: string, target: Target, count: nat)
    returns (success: int, fail: int, latencies: seq<int>, tick: nat)
    ensures var run := Attempts(env, ctx, protocol, target, count, 1);
            && success == Oks(run.log) && fail == Failures(run, count)
            && latencies == Latencies(run.log) && tick == run.tick
  {
    success, fail, latencies, tick := 0, 0, [], 1;
    ghost var log: seq<Response> := [];
    ghost var whole := Attempts(env, ctx, protocol, target, count, 1);
    for i := 0 to count
      invariant |log| == i && success + fail == i
      invariant success == Oks(log) && latencies == Latencies(log)
      invariant whole == Continue(env, ctx, protocol, target, count - i, tick, log)
    {
      if Expired(ctx, env.now(tick)) {
        tick := tick + 1;
        return;
      }
      if !env.admits(tick + 1) {
        fail := fail + (count - success - fail);
        tick := tick + 2;
        return;
      }
      var resp := env.send(tick + 2, protocol, target);
      LogAppend(log, resp);
      log := log + [resp];
      if resp.TransportError? {
        fail := fail + 1;
        if Expired(ctx, env.now(tick + 3)) {
          tick := tick + 4;
          return;
        }
      } else {
        latencies := latencies + [resp.duration];
        if 200 <= resp.status < 400 {
          success := success + 1;
        } else {
          fail := fail + 1;
        }
      }
      tick := tick + 4;
    }
  }
}
