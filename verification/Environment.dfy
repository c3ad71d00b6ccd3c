/** Time, contexts, the rate limiter and the senders, as the executors of pkg/warmup see them.
    The oracle is indexed by a tick that advances with every question asked of it. */
module Environment {
  import opened Common

  /** A context is done from some instant on: its deadline or its cancellation. */
  datatype Context = Context(doneAt: int)

  predicate Expired(ctx: Context, now: int) {
    now >= ctx.doneAt
  }

  /** context.WithTimeout. */
  function WithTimeout(parent: Context, now: int, d: int): Context {
    Context(Min(parent.doneAt, now + d))
  }

  /** A derived context is done with its parent or when its time is up, whichever comes first. */
  lemma WithTimeoutMeans(parent: Context, now: int, d: int, t: int)
    ensures t >= WithTimeout(parent, now, d).doneAt <==> t >= parent.doneAt || t >= now + d
  {
  }

  datatype Target = Target(address: string, verb: string, headers: map<string, string>, payload: string)

  datatype Response = TransportError | Reply(status: int, duration: int, body: string)

  /** `now` reads the clock, `admits` is the rate limiter's Wait returning nil, and `send` is a
      Send over the given protocol. */
  datatype Env = Env(now: nat -> int, admits: nat -> bool, send: (nat, string, Target) -> Response)

  ghost predicate Monotone(env: Env) {
    forall i: nat, j: nat :: i <= j ==> env.now(i) <= env.now(j)
  }

  /** The context was found done at one of the first readings of the clock. */
  ghost predicate SeenExpired(env: Env, ctx: Context, tick: nat) {
    exists t: nat :: t < tick && Expired(ctx, env.now(t))
  }

  lemma StaysExpired(env: Env, ctx: Context, i: nat, j: nat)
    requires Monotone(env) && i <= j && Expired(ctx, env.now(i))
    ensures Expired(ctx, env.now(j))
  {
    assert env.now(i) <= env.now(j);
  }
}
