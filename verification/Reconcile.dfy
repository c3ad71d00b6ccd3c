/**
  Reconcile (pkg/controller/pod_controller.go) as a concurrent protocol.

  Any number of reconciles run interleaved over a shared semaphore, a shared active-pods gauge
  and a versioned pod store that other actors (kubelet, users, the garbage collector) also
  write.  A reconcile is a program counter, the pod snapshot it fetched and its stack of
  deferred calls; one step is one action another actor could observe.

  The environment is as hostile as the API allows: reads are served from a cache and may
  return any past revision, an accepted write may be reported as failed, requests fail at any
  time, and other actors may write anything.  The one thing assumed of the API server is that
  a status update carrying a resourceVersion other than the stored one is rejected.
 */
module Reconcile {
  import opened Common
  import opened Pods
  import opened Config

  // ---------------------------------------------------------------- state

  /** `slots` is the semaphore's capacity, None when concurrency is not limited;
      `scenarios` and `executor` say which executors the reconciler was given. */
  datatype Setup = Setup(slots: Option<nat>, scenarios: bool, executor: bool, libs: Libs)

  datatype WarmupResult = WarmupResult(success: bool, message: string, completed: nat, failed: nat)

  datatype Action = FailWarmup | LookupWarmupConfig

  datatype Event = Queued | Started | Completed | Failed(action: Action) | ConditionUpdated(failOpen: bool)

  /** The calls pushed by `defer`, run last-in first-out when Reconcile returns. */
  datatype Deferred = Release | DecrementActive | CancelContext

  /** How Reconcile returns: nothing to do, RequeueAfter, an error, or condition updated. */
  datatype Exit = Ignored | Requeued | Errored | Finished

  datatype Pc =
    | Start
    | Eligible
    | Waiting
    | Admitted
    | Active
    | Configured(config: Config)
    | Writing(result: WarmupResult)
    | Returning(exit: Exit)
    | Done(exit: Exit)

  datatype Proc = Proc(
    name: string, pc: Pc, snapshot: Option<Pod>, deferred: seq<Deferred>, events: seq<Event>,
    lookupFailed: bool, result: Option<WarmupResult>)

  type Label = (string, string)

  function LabelOf(pod: Pod): Label {
    (pod.namespace, pod.node)
  }

  /** The API server: the stored pods by name, and every object a revision ever stored. */
  datatype Api = Api(pods: map<string, Pod>, history: map<nat, (string, Pod)>, revision: nat, nextUid: nat)

  /** The semaphore's count, the active-pods gauge and the warmup request counter. */
  datatype Tally = Tally(cur: int, gauge: map<Label, int>, requests: int)

  /** `written` and `cleared` count, per pod uid, the accepted controller writes and the updates by
      other actors that took the warmup condition away. */
  datatype World = World(
    api: Api, tally: Tally, procs: map<nat, Proc>, written: multiset<nat>, cleared: multiset<nat>)

  const INITIAL := World(Api(map[], map[], 0, 0), Tally(0, map[], 0), map[], multiset{}, multiset{})

  datatype Got = Found(version: nat) | NotFound | GetFailed

  datatype Run = LookupFailed(message: string) | Ran(result: WarmupResult) | NoExecutor

  datatype Reply = Acknowledged | AckLost | Refused

  datatype Step =
    | Spawn(p: nat, name: string)
    | Fetch(p: nat, got: Got)
    | Enqueue(p: nat)
    | Acquire(p: nat, granted: bool)
    | Begin(p: nat)
    | Parse(p: nat, message: string)
    | Execute(p: nat, run: Run)
    | Update(p: nat, now: int, reply: Reply)
    | Unwind(p: nat)
    | Create(name: string, pod: Pod)
    | Modify(name: string, pod: Pod)
    | Delete(name: string)

  // ---------------------------------------------------------------- steps

  function Defers(setup: Setup): seq<Deferred> {
    if setup.slots.Some? then [Release] else []
  }

  function AddTo(g: map<Label, int>, l: Label, d: int): map<Label, int> {
    g[l := GetOr(g, l, 0) + d]
  }

  predicate At(w: World, p: nat, pc: Pc) {
    p in w.procs && w.procs[p].pc == pc
  }

  /** The API server stores an object under the next revision. */
  function Stamp(api: Api, name: string, pod: Pod): Api {
    var v := api.revision + 1;
    var stored := pod.(version := v);
    api.(pods := api.pods[name := stored], history := api.history[v := (name, stored)], revision := v)
  }

  function ReasonOf(result: WarmupResult): Reason {
    if result.success then WarmupComplete else WarmupFailedOpen
  }

  function MessageOf(result: WarmupResult): Message {
    if result.success then Plain(result.message) else FailOpen(result.message)
  }

  /** setConditionTrue's copy of the fetched pod, sent to Status().Update. */
  function Marked(pod: Pod, now: int, result: WarmupResult): Pod {
    pod.(status := pod.status.(conditions :=
      WithReady(pod.status.conditions, Ready(now, ReasonOf(result), MessageOf(result)))))
  }

  /** Optimistic concurrency: the update is accepted only on the stored version. */
  ghost predicate Fresh(api: Api, name: string, version: nat) {
    name in api.pods && api.pods[name].version == version
  }

  ghost predicate UsesScenario(setup: Setup, config: Config) {
    config.warmupConfigName != "" && setup.scenarios
  }

  ghost predicate Enabled(setup: Setup, w: World, s: Step) {
    match s
    case Spawn(p, name) => p !in w.procs
    case Fetch(p, got) =>
      && At(w, p, Start)
      && (got.Found? ==> got.version in w.api.history && w.api.history[got.version].0 == w.procs[p].name)
    case Enqueue(p) => At(w, p, Eligible)
    case Acquire(p, granted) =>
      At(w, p, Waiting) && setup.slots.Some? && (granted ==> w.tally.cur < setup.slots.value)
    case Begin(p) => At(w, p, Admitted) && w.procs[p].snapshot.Some?
    case Parse(p, _) => At(w, p, Active) && w.procs[p].snapshot.Some?
    case Execute(p, run) =>
      && p in w.procs && w.procs[p].pc.Configured?
      && var config := w.procs[p].pc.config;
         if UsesScenario(setup, config) then run.LookupFailed? || run.Ran?
         else if setup.executor then run.Ran? else run.NoExecutor?
    case Update(p, _, reply) =>
      && p in w.procs && w.procs[p].pc.Writing? && w.procs[p].snapshot.Some?
      && (!reply.Refused? ==> Fresh(w.api, w.procs[p].name, w.procs[p].snapshot.value.version))
    case Unwind(p) =>
      p in w.procs && w.procs[p].pc.Returning?
      && (w.procs[p].deferred != [] ==> w.procs[p].snapshot.Some?)
    case Create(name, pod) => name !in w.api.pods && pod.uid == w.api.nextUid
    case Modify(name, pod) => name in w.api.pods && pod.uid == w.api.pods[name].uid
    case Delete(name) => name in w.api.pods
  }

  /** The reconcile a step belongs to, if any. */
  function ActorOf(s: Step): Option<nat> {
    match s
    case Create(_, _) | Modify(_, _) | Delete(_) => None
    case _ => Some(s.p)
  }

  /** What the acting reconcile does to itself. */
  ghost function Moved(setup: Setup, w: World, s: Step): Proc
    requires Enabled(setup, w, s) && ActorOf(s).Some?
  {
    match s
    case Spawn(p, name) => Proc(name, Start, None, [], [], false, None)
    case Fetch(p, got) => AfterFetch(w.api, w.procs[p], got)
    case Enqueue(p) => AfterEnqueue(setup, w.procs[p])
    case Acquire(p, granted) => AfterAcquire(w.procs[p], granted)
    case Begin(p) => AfterBegin(w.procs[p])
    case Parse(p, message) => AfterParse(w.procs[p], Parsed(setup, w.procs[p].snapshot.value), message)
    case Execute(p, run) => AfterExecute(w.procs[p], run)
    case Update(p, _, reply) => AfterUpdate(w.procs[p], reply)
    case Unwind(p) => AfterUnwind(w.procs[p])
  }

  /** What a step of pr does to the semaphore and the metrics. */
  ghost function Recorded(t: Tally, pr: Proc, s: Step): Tally
    requires s.Begin? || (s.Unwind? && pr.deferred != []) ==> pr.snapshot.Some?
  {
    match s
    case Acquire(_, true) => t.(cur := t.cur + 1)
    case Begin(_) => t.(gauge := AddTo(t.gauge, LabelOf(pr.snapshot.value), 1))
    case Execute(_, Ran(result)) => t.(requests := t.requests + result.completed + result.failed)
    case Unwind(_) => if pr.deferred == [] then t else RunDeferred(t, pr)
    case _ => t
  }

  ghost function RunDeferred(t: Tally, pr: Proc): Tally
    requires pr.deferred != [] && pr.snapshot.Some?
  {
    match pr.deferred[|pr.deferred| - 1]
    case Release => t.(cur := t.cur - 1)
    case DecrementActive => t.(gauge := AddTo(t.gauge, LabelOf(pr.snapshot.value), -1))
    case CancelContext => t
  }

  /** What a step does to the store. */
  ghost function Stored(setup: Setup, w: World, s: Step): World
    requires Enabled(setup, w, s)
  {
    match s
    case Update(p, now, reply) => if reply.Refused? then w else Accept(w, w.procs[p], now)
    case Create(name, pod) => w.(api := Stamp(w.api.(nextUid := w.api.nextUid + 1), name, pod))
    case Modify(name, pod) =>
      w.(api := Stamp(w.api, name, pod),
         cleared := if Clears(w.api, name, pod) then w.cleared + multiset{pod.uid} else w.cleared)
    case Delete(name) => w.(api := Removed(w.api, name))
    case _ => w
  }

  function Removed(api: Api, name: string): Api {
    api.(pods := api.pods - {name}, revision := api.revision + 1)
  }

  ghost predicate Clears(api: Api, name: string, pod: Pod) {
    && name in api.pods && HasCondition(api.pods[name].status.conditions, WarmupReady)
    && !HasCondition(pod.status.conditions, WarmupReady)
  }

  /** The API server accepts a status update: the stored pod takes the submitted status. */
  function TakeStatus(api: Api, name: string, status: Status): Api
    requires name in api.pods
  {
    Stamp(api, name, api.pods[name].(status := status))
  }

  ghost function Accept(w: World, pr: Proc, now: int): World
    requires pr.pc.Writing? && pr.snapshot.Some? && pr.name in w.api.pods
  {
    w.(api := TakeStatus(w.api, pr.name, Marked(pr.snapshot.value, now, pr.pc.result).status),
       written := w.written + multiset{w.api.pods[pr.name].uid})
  }

  ghost function Take(setup: Setup, w: World, s: Step): World
    requires Enabled(setup, w, s)
  {
    var w' := Stored(setup, w, s);
    if ActorOf(s).None? then w'
    else w'.(tally := Recorded(w.tally, ProcAt(w.procs, s.p), s), procs := w.procs[s.p := Moved(setup, w, s)])
  }

  const UNBORN := Proc("", Start, None, [], [], false, None)

  /** A reconcile by its number; one not yet spawned holds nothing. */
  ghost function ProcAt(procs: map<nat, Proc>, p: nat): Proc {
    if p in procs then procs[p] else UNBORN
  }

  ghost function AfterFetch(api: Api, pr: Proc, got: Got): Proc
    requires got.Found? ==> got.version in api.history
  {
    match got
    case NotFound => pr.(pc := Returning(Ignored))
    case GetFailed => pr.(pc := Returning(Errored))
    case Found(v) =>
      var pod := api.history[v].1;
      pr.(snapshot := Some(pod), pc :=
        if WarmupReady !in pod.gates || HasCondition(pod.status.conditions, WarmupReady) then Returning(Ignored)
        else if ReadyForWarmup(pod) then Eligible
        else Returning(Requeued))
  }

  ghost function AfterEnqueue(setup: Setup, pr: Proc): Proc {
    if setup.slots.Some? then pr.(pc := Waiting, events := pr.events + [Queued]) else pr.(pc := Admitted)
  }

  ghost function AfterAcquire(pr: Proc, granted: bool): Proc {
    if granted then pr.(pc := Admitted, deferred := pr.deferred + [Release]) else pr.(pc := Returning(Requeued))
  }

  ghost function AfterBegin(pr: Proc): Proc {
    pr.(pc := Active, events := pr.events + [Started], deferred := pr.deferred + [DecrementActive])
  }

  /** What ParseConfig makes of the pod, with the pod's address filled in. */
  ghost function Parsed(setup: Setup, pod: Pod): Option<Config> {
    if PodAcceptable(setup.libs, pod) then Some(ConfigOf(setup.libs, pod).(podIP := pod.status.podIP)) else None
  }

  ghost function AfterParse(pr: Proc, parsed: Option<Config>, message: string): Proc {
    match parsed
    case Some(config) => pr.(pc := Configured(config), deferred := pr.deferred + [CancelContext])
    case None =>
      var result := WarmupResult(false, message, 0, 0);
      pr.(pc := Writing(result), result := Some(result), events := pr.events + [Failed(FailWarmup)])
  }

  const NO_EXECUTOR_MESSAGE := "warmup skipped: no executor configured"

  ghost function AfterExecute(pr: Proc, run: Run): Proc
    requires pr.pc.Configured?
  {
    match run
    case LookupFailed(message) =>
      var result := WarmupResult(false, message, 0, 0);
      pr.(pc := Writing(result), result := Some(result), lookupFailed := true,
          events := pr.events + [Failed(LookupWarmupConfig), Failed(FailWarmup)])
    case Ran(result) =>
      pr.(pc := Writing(result), result := Some(result),
          events := pr.events + [if result.success then Completed else Failed(FailWarmup)])
    case NoExecutor =>
      var result := WarmupResult(true, NO_EXECUTOR_MESSAGE, 0, 0);
      pr.(pc := Writing(result), result := Some(result), events := pr.events + [Completed])
  }

  ghost function AfterUpdate(pr: Proc, reply: Reply): Proc
    requires pr.pc.Writing?
  {
    if reply.Acknowledged? then
      pr.(pc := Returning(Finished), events := pr.events + [ConditionUpdated(!pr.pc.result.success)])
    else pr.(pc := Returning(Errored))
  }

  /** Returning: the deferred calls run last-in first-out, then Reconcile is done. */
  ghost function AfterUnwind(pr: Proc): Proc
    requires pr.pc.Returning?
  {
    if pr.deferred == [] then pr.(pc := Done(pr.pc.exit)) else pr.(deferred := pr.deferred[..|pr.deferred| - 1])
  }

  // ---------------------------------------------------------------- runs

  ghost predicate IsRun(setup: Setup, ws: seq<World>, steps: seq<Step>) {
    && |ws| == |steps| + 1 && ws[0] == INITIAL
    && forall i :: 0 <= i < |steps| ==> Enabled(setup, ws[i], steps[i]) && ws[i + 1] == Take(setup, ws[i], steps[i])
  }

  // ---------------------------------------------------------------- invariant: the store

  ghost predicate ApiInv(api: Api) {
    && (forall v :: v in api.history ==> v <= api.revision && api.history[v].1.version == v)
    && (forall n :: n in api.pods ==>
          api.pods[n].version in api.history && api.history[api.pods[n].version] == (n, api.pods[n]))
    && (forall n :: n in api.pods ==> api.pods[n].uid < api.nextUid)
    && (forall n, m :: n in api.pods && m in api.pods && api.pods[n].uid == api.pods[m].uid ==> n == m)
  }

  /** Revisions are written once: what a revision stored never changes. */
  ghost predicate HistoryGrows(api: Api, api': Api) {
    forall v :: v in api.history ==> v in api'.history && api'.history[v] == api.history[v]
  }

  lemma StampKeepsApi(api: Api, name: string, pod: Pod)
    requires ApiInv(api) && pod.uid < api.nextUid
    requires forall n :: n in api.pods && api.pods[n].uid == pod.uid ==> n == name
    ensures ApiInv(Stamp(api, name, pod)) && HistoryGrows(api, Stamp(api, name, pod))
  {
  }

  lemma TakeStatusKeepsApi(api: Api, name: string, status: Status)
    requires ApiInv(api) && name in api.pods
    ensures ApiInv(TakeStatus(api, name, status)) && HistoryGrows(api, TakeStatus(api, name, status))
  {
    StampKeepsApi(api, name, api.pods[name].(status := status));
  }

  /** Steps that neither write the store nor are one of the other actors'. */
  predicate Quiet(s: Step) {
    ActorOf(s).Some? && !(s.Update? && !s.reply.Refused?)
  }

  lemma QuietKeepsStore(setup: Setup, w: World, s: Step)
    requires Enabled(setup, w, s) && Quiet(s)
    ensures var w' := Take(setup, w, s); w'.api == w.api && w'.written == w.written && w'.cleared == w.cleared
  {
  }

  lemma UpdateKeepsApi(setup: Setup, w: World, s: Step)
    requires Enabled(setup, w, s) && ApiInv(w.api) && s.Update? && !s.reply.Refused?
    ensures ApiInv(Stored(setup, w, s).api) && HistoryGrows(w.api, Stored(setup, w, s).api)
  {
    var pr := w.procs[s.p];
    TakeStatusKeepsApi(w.api, pr.name, Marked(pr.snapshot.value, s.now, pr.pc.result).status);
  }

  lemma OthersKeepApi(setup: Setup, w: World, s: Step)
    requires Enabled(setup, w, s) && ApiInv(w.api) && ActorOf(s).None?
    ensures ApiInv(Stored(setup, w, s).api) && HistoryGrows(w.api, Stored(setup, w, s).api)
  {
    match s
    case Create(name, pod) => StampKeepsApi(w.api.(nextUid := w.api.nextUid + 1), name, pod);
    case Modify(name, pod) => StampKeepsApi(w.api, name, pod);
    case Delete(name) => RemovedKeepsApi(w.api, name);
  }

  lemma StepKeepsApi(setup: Setup, w: World, s: Step)
    requires Enabled(setup, w, s) && ApiInv(w.api)
    ensures ApiInv(Take(setup, w, s).api) && HistoryGrows(w.api, Take(setup, w, s).api)
  {
    if Quiet(s) {
      QuietKeepsStore(setup, w, s);
    } else if s.Update? {
      UpdateKeepsApi(setup, w, s);
    } else {
      OthersKeepApi(setup, w, s);
    }
  }

  lemma RemovedKeepsApi(api: Api, name: string)
    requires ApiInv(api)
    ensures ApiInv(Removed(api, name)) && HistoryGrows(api, Removed(api, name))
  {
  }

  // ---------------------------------------------------------------- invariant: one reconcile

  ghost function Stack(setup: Setup): seq<Deferred> {
    Defers(setup) + [DecrementActive, CancelContext]
  }

  ghost predicate DeferredInv(setup: Setup, pr: Proc) {
    && pr.deferred <= Stack(setup)
    && match pr.pc
       case Start | Eligible | Waiting | Done(_) => pr.deferred == []
       case Admitted => pr.deferred == Defers(setup)
       case Active => pr.deferred == Defers(setup) + [DecrementActive]
       case Configured(_) => pr.deferred == Stack(setup)
       case Writing(_) => Defers(setup) + [DecrementActive] <= pr.deferred
       case Returning(_) => pr.deferred != [] ==> pr.snapshot.Some?
  }

  ghost predicate Eligibly(pc: Pc) {
    !pc.Start? && !pc.Returning? && !pc.Done?
  }

  ghost predicate SnapshotInv(api: Api, pr: Proc) {
    && (pr.pc.Start? ==> pr.snapshot.None?)
    && (Eligibly(pr.pc) ==> pr.snapshot.Some? && ReadyForWarmup(pr.snapshot.value))
    && (pr.snapshot.Some? ==>
          var pod := pr.snapshot.value;
          pod.version in api.history && api.history[pod.version] == (pr.name, pod))
  }

  /** The events between WarmupStarted and ConditionUpdated. */
  ghost function Verdict(lookupFailed: bool, result: WarmupResult): seq<Event> {
    if lookupFailed then [Failed(LookupWarmupConfig), Failed(FailWarmup)]
    else if result.success then [Completed]
    else [Failed(FailWarmup)]
  }

  ghost function Opening(setup: Setup): seq<Event> {
    (if setup.slots.Some? then [Queued] else []) + [Started]
  }

  ghost predicate EventsInv(setup: Setup, pr: Proc) {
    && (pr.lookupFailed ==> pr.result.Some? && !pr.result.value.success && setup.scenarios)
    && match pr.pc
       case Start | Eligible => pr.events == [] && pr.result.None?
       case Waiting => pr.events == [Queued] && pr.result.None? && setup.slots.Some?
       case Admitted => pr.events + [Started] == Opening(setup) && pr.result.None?
       case Active | Configured(_) => pr.events == Opening(setup) && pr.result.None?
       case Writing(result) =>
         pr.result == Some(result) && pr.events == Opening(setup) + Verdict(pr.lookupFailed, result)
       case Returning(exit) => ExitMeans(setup, pr, exit)
       case Done(exit) => ExitMeans(setup, pr, exit)
  }

  /** What each way of returning says about the fetched pod and about how far Reconcile got. */
  ghost predicate ExitMeans(setup: Setup, pr: Proc, exit: Exit) {
    match exit
    case Ignored =>
      && pr.events == [] && pr.result.None?
      && (pr.snapshot.None? || WarmupReady !in pr.snapshot.value.gates
          || HasCondition(pr.snapshot.value.status.conditions, WarmupReady))
    case Requeued =>
      && pr.result.None? && pr.snapshot.Some? && WarmupReady in pr.snapshot.value.gates
      && !HasCondition(pr.snapshot.value.status.conditions, WarmupReady)
      && pr.events == if ReadyForWarmup(pr.snapshot.value) then [Queued] else []
    case Errored =>
      if pr.snapshot.None? then pr.events == [] && pr.result.None?
      else
        && ReadyForWarmup(pr.snapshot.value) && pr.result.Some?
        && pr.events == Opening(setup) + Verdict(pr.lookupFailed, pr.result.value)
    case Finished => pr.snapshot.Some? && ReadyForWarmup(pr.snapshot.value) && FullTrace(setup, pr)
  }

  ghost predicate FullTrace(setup: Setup, pr: Proc) {
    && pr.result.Some?
    && pr.events == Opening(setup) + Verdict(pr.lookupFailed, pr.result.value)
                    + [ConditionUpdated(!pr.result.value.success)]
  }

  ghost predicate ProcInv(setup: Setup, api: Api, pr: Proc) {
    DeferredInv(setup, pr) && SnapshotInv(api, pr) && EventsInv(setup, pr)
  }

  ghost predicate ProcsInv(setup: Setup, w: World) {
    forall p :: p in w.procs ==> ProcInv(setup, w.api, w.procs[p])
  }

  lemma ProcInvGrows(setup: Setup, api: Api, api': Api, pr: Proc)
    requires ProcInv(setup, api, pr) && HistoryGrows(api, api')
    ensures ProcInv(setup, api', pr)
  {
  }

  // ---------------------------------------------------------------- one step of one reconcile

  ghost predicate Holds(pr: Proc) {
    Release in pr.deferred
  }

  ghost predicate Counts(pr: Proc) {
    DecrementActive in pr.deferred && pr.snapshot.Some?
  }

  function Bit(b: bool): int {
    if b then 1 else 0
  }

  /** What a reconcile has added to the request counter. */
  ghost function Charged(pr: Proc): int {
    if pr.result.Some? then pr.result.value.completed + pr.result.value.failed else 0
  }

  /** How many steps of its own a reconcile can still take. */
  ghost function Rank(pr: Proc): nat {
    match pr.pc
    case Start => 11
    case Eligible => 10
    case Waiting => 9
    case Admitted => 8
    case Active => 7
    case Configured(_) => 6
    case Writing(_) => 5
    case Returning(_) => 1 + |pr.deferred|
    case Done(_) => 0
  }

  /** The three things a step can do to the gauge and to its reconcile's deferred decrement. */
  ghost predicate GaugeMove(g: map<Label, int>, g': map<Label, int>, before: Proc, after: Proc) {
    if Counts(after) == Counts(before) then g' == g && (Counts(before) ==> after.snapshot == before.snapshot)
    else if Counts(before) then g' == AddTo(g, LabelOf(before.snapshot.value), -1)
    else g' == AddTo(g, LabelOf(after.snapshot.value), 1)
  }

  /** The semaphore, the gauge and the request counter move by exactly what a reconcile's deferred
      calls and its result change. */
  ghost predicate Follows(t: Tally, t': Tally, before: Proc, after: Proc) {
    && t'.cur - t.cur == Bit(Holds(after)) - Bit(Holds(before))
    && GaugeMove(t.gauge, t'.gauge, before, after)
    && t'.requests - t.requests == Charged(after) - Charged(before)
  }

  /** A step keeps its reconcile's invariant, brings it closer to its return and accounts for what
      it does to the shared counts. */
  ghost predicate Advances(setup: Setup, api: Api, t: Tally, t': Tally, before: Proc, after: Proc) {
    ProcInv(setup, api, after) && Rank(after) < Rank(before) && Follows(t, t', before, after)
  }

  lemma FetchAdvances(setup: Setup, api: Api, t: Tally, pr: Proc, got: Got)
    requires ApiInv(api) && ProcInv(setup, api, pr) && pr.pc.Start?
    requires got.Found? ==> got.version in api.history && api.history[got.version].0 == pr.name
    ensures Advances(setup, api, t, t, pr, AfterFetch(api, pr, got))
  {
  }

  lemma EnqueueAdvances(setup: Setup, api: Api, t: Tally, pr: Proc)
    requires ProcInv(setup, api, pr) && pr.pc.Eligible?
    ensures Advances(setup, api, t, t, pr, AfterEnqueue(setup, pr))
  {
  }

  lemma AcquireAdvances(setup: Setup, api: Api, t: Tally, pr: Proc, p: nat, granted: bool)
    requires ProcInv(setup, api, pr) && pr.pc.Waiting? && setup.slots.Some?
    ensures Advances(setup, api, t, Recorded(t, pr, Step.Acquire(p, granted)), pr, AfterAcquire(pr, granted))
  {
  }

  lemma BeginAdvances(setup: Setup, api: Api, t: Tally, pr: Proc, p: nat)
    requires ProcInv(setup, api, pr) && pr.pc.Admitted?
    ensures Advances(setup, api, t, Recorded(t, pr, Step.Begin(p)), pr, AfterBegin(pr))
  {
  }

  lemma ParseAdvances(setup: Setup, api: Api, t: Tally, pr: Proc, parsed: Option<Config>, message: string)
    requires ProcInv(setup, api, pr) && pr.pc.Active?
    ensures Advances(setup, api, t, t, pr, AfterParse(pr, parsed, message))
  {
  }

  lemma ExecuteAdvances(setup: Setup, api: Api, t: Tally, pr: Proc, p: nat, run: Run)
    requires ProcInv(setup, api, pr) && pr.pc.Configured? && (run.LookupFailed? ==> setup.scenarios)
    ensures Advances(setup, api, t, Recorded(t, pr, Step.Execute(p, run)), pr, AfterExecute(pr, run))
  {
  }

  lemma UpdateAdvances(setup: Setup, api: Api, t: Tally, pr: Proc, reply: Reply)
    requires ProcInv(setup, api, pr) && pr.pc.Writing?
    ensures Advances(setup, api, t, t, pr, AfterUpdate(pr, reply))
  {
  }

  /** The deferred calls differ from each other, so the last one runs once. */
  lemma LastIsOnce(setup: Setup, d: seq<Deferred>)
    requires d <= Stack(setup) && d != []
    ensures d[|d| - 1] !in d[..|d| - 1]
    ensures forall x :: x in d <==> x in d[..|d| - 1] || x == d[|d| - 1]
  {
    assert d == d[..|d| - 1] + [d[|d| - 1]];
    assert forall i :: 0 <= i < |d| ==> d[i] == Stack(setup)[i];
  }

  lemma UnwindFollows(setup: Setup, t: Tally, pr: Proc, p: nat)
    requires DeferredInv(setup, pr) && pr.pc.Returning?
    ensures Follows(t, Recorded(t, pr, Step.Unwind(p)), pr, AfterUnwind(pr))
  {
    if pr.deferred != [] { LastIsOnce(setup, pr.deferred); }
  }

  lemma UnwindAdvances(setup: Setup, api: Api, t: Tally, pr: Proc, p: nat)
    requires ProcInv(setup, api, pr) && pr.pc.Returning?
    ensures Advances(setup, api, t, Recorded(t, pr, Step.Unwind(p)), pr, AfterUnwind(pr))
  {
    UnwindFollows(setup, t, pr, p);
    UnwindKeeps(setup, api, pr);
  }

  lemma UnwindKeeps(setup: Setup, api: Api, pr: Proc)
    requires ProcInv(setup, api, pr) && pr.pc.Returning?
    ensures ProcInv(setup, api, AfterUnwind(pr)) && Rank(AfterUnwind(pr)) < Rank(pr)
  {
  }

  lemma StepAdvances(setup: Setup, w: World, s: Step)
    requires Enabled(setup, w, s) && ActorOf(s).Some? && ApiInv(w.api)
    requires s.Spawn? || ProcInv(setup, w.api, w.procs[s.p])
    ensures ProcInv(setup, w.api, Moved(setup, w, s))
    ensures s.Spawn? || Rank(Moved(setup, w, s)) < Rank(w.procs[s.p])
    ensures Follows(w.tally, Recorded(w.tally, ProcAt(w.procs, s.p), s), ProcAt(w.procs, s.p), Moved(setup, w, s))
  {
    var pr := ProcAt(w.procs, s.p);
    match s
    case Spawn(_, _) =>
    case Fetch(_, got) => FetchAdvances(setup, w.api, w.tally, pr, got);
    case Enqueue(_) => EnqueueAdvances(setup, w.api, w.tally, pr);
    case Acquire(p, granted) => AcquireAdvances(setup, w.api, w.tally, pr, p, granted);
    case Begin(p) => BeginAdvances(setup, w.api, w.tally, pr, p);
    case Parse(_, message) => ParseAdvances(setup, w.api, w.tally, pr, Parsed(setup, pr.snapshot.value), message);
    case Execute(p, run) => ExecuteAdvances(setup, w.api, w.tally, pr, p, run);
    case Update(_, _, reply) => UpdateAdvances(setup, w.api, w.tally, pr, reply);
    case Unwind(p) => UnwindAdvances(setup, w.api, w.tally, pr, p);
  }

  lemma StepKeepsProcs(setup: Setup, w: World, s: Step)
    requires Enabled(setup, w, s) && ApiInv(w.api) && ProcsInv(setup, w)
    ensures ProcsInv(setup, Take(setup, w, s))
  {
    StepKeepsApi(setup, w, s);
    var w' := Take(setup, w, s);
    forall p | p in w'.procs ensures ProcInv(setup, w'.api, w'.procs[p]) {
      if ActorOf(s) == Some(p) {
        StepAdvances(setup, w, s);
      }
      ProcInvGrows(setup, w.api, w'.api, w'.procs[p]);
    }
  }

  // ---------------------------------------------------------------- invariant: slots and gauge

  /** The reconciles satisfying f. */
  ghost function Those(procs: map<nat, Proc>, f: Proc -> bool): set<nat> {
    set p | p in procs && f(procs[p])
  }

  ghost function CountsAt(l: Label): Proc -> bool {
    pr => Counts(pr) && LabelOf(pr.snapshot.value) == l
  }

  lemma ThoseUpdate(procs: map<nat, Proc>, p: nat, pr: Proc, f: Proc -> bool)
    ensures |Those(procs[p := pr], f)| == |Those(procs, f)| - Bit(p in procs && f(procs[p])) + Bit(f(pr))
  {
    var a, b := Those(procs, f), Those(procs[p := pr], f);
    assert p in b <==> f(pr);
    assert b - {p} == a - {p};
    WithoutOne(a, p);
    WithoutOne(b, p);
  }

  lemma WithoutOne(a: set<nat>, p: nat)
    ensures |a - {p}| == |a| - Bit(p in a)
  {
    if p !in a { assert a - {p} == a; }
  }

  /** The sum of a map's values. */
  ghost function Total<K(!new)>(m: map<K, int>): int {
    if m == map[] then 0 else var k :| k in m; m[k] + Total(m - {k})
  }

  lemma {:induction false} TotalSplit<K(!new)>(m: map<K, int>, k: K)
    requires k in m
    ensures Total(m) == m[k] + Total(m - {k})
    decreases |m|
  {
    var j :| j in m && Total(m) == m[j] + Total(m - {j});
    if j != k {
      TotalSplit(m - {j}, k);
      TotalSplit(m - {k}, j);
      assert m - {j} - {k} == m - {k} - {j};
    }
  }

  lemma TotalSet<K(!new)>(m: map<K, int>, k: K, v: int)
    ensures Total(m[k := v]) == Total(m) - GetOr(m, k, 0) + v
  {
    TotalSplit(m[k := v], k);
    assert m[k := v] - {k} == m - {k};
    if k in m { TotalSplit(m, k); } else { assert m - {k} == m; }
  }

  ghost predicate SlotsInv(setup: Setup, cur: int, procs: map<nat, Proc>) {
    && cur == |Those(procs, Holds)|
    && (setup.slots.Some? ==> cur <= setup.slots.value)
  }

  ghost predicate GaugeInv(g: map<Label, int>, procs: map<nat, Proc>) {
    && (forall l :: GetOr(g, l, 0) == |Those(procs, CountsAt(l))|)
    && Total(g) == |Those(procs, Counts)|
  }

  // ---------------------------------------------------------------- invariant: the request counter

  ghost function Charges(procs: map<nat, Proc>): map<nat, int> {
    map p | p in procs :: Charged(procs[p])
  }

  // ---------------------------------------------------------------- what a step does to the tallies

  /** The semaphore and the metrics count what the reconciles hold and did. */
  ghost predicate Tallied(setup: Setup, t: Tally, procs: map<nat, Proc>) {
    SlotsInv(setup, t.cur, procs) && GaugeInv(t.gauge, procs) && t.requests == Total(Charges(procs))
  }

  lemma LabelFollows(g: map<Label, int>, g': map<Label, int>, before: Proc, after: Proc, l: Label)
    requires GaugeMove(g, g', before, after)
    ensures GetOr(g', l, 0) - GetOr(g, l, 0) == Bit(CountsAt(l)(after)) - Bit(CountsAt(l)(before))
  {
  }

  lemma TotalFollows(g: map<Label, int>, g': map<Label, int>, before: Proc, after: Proc)
    requires GaugeMove(g, g', before, after)
    ensures Total(g') - Total(g) == Bit(Counts(after)) - Bit(Counts(before))
  {
    if Counts(before) && !Counts(after) {
      var l := LabelOf(before.snapshot.value);
      TotalSet(g, l, GetOr(g, l, 0) - 1);
    } else if Counts(after) && !Counts(before) {
      var l := LabelOf(after.snapshot.value);
      TotalSet(g, l, GetOr(g, l, 0) + 1);
    }
  }

  lemma MoveKeepsGauge(g: map<Label, int>, g': map<Label, int>, procs: map<nat, Proc>, p: nat, after: Proc)
    requires GaugeInv(g, procs) && GaugeMove(g, g', ProcAt(procs, p), after)
    ensures GaugeInv(g', procs[p := after])
  {
    var before := ProcAt(procs, p);
    TotalFollows(g, g', before, after);
    ThoseUpdate(procs, p, after, Counts);
    forall l ensures GetOr(g', l, 0) == |Those(procs[p := after], CountsAt(l))| {
      LabelFollows(g, g', before, after, l);
      ThoseUpdate(procs, p, after, CountsAt(l));
    }
  }

  lemma MoveKeepsRequests(procs: map<nat, Proc>, p: nat, after: Proc)
    ensures Total(Charges(procs[p := after])) == Total(Charges(procs)) + Charged(after) - Charged(ProcAt(procs, p))
  {
    assert Charges(procs[p := after]) == Charges(procs)[p := Charged(after)];
    TotalSet(Charges(procs), p, Charged(after));
  }

  lemma MoveKeepsTallies(setup: Setup, t: Tally, t': Tally, procs: map<nat, Proc>, p: nat, after: Proc)
    requires Tallied(setup, t, procs) && Follows(t, t', ProcAt(procs, p), after)
    requires setup.slots.Some? ==> t'.cur <= setup.slots.value
    ensures Tallied(setup, t', procs[p := after])
  {
    ThoseUpdate(procs, p, after, Holds);
    MoveKeepsGauge(t.gauge, t'.gauge, procs, p, after);
    MoveKeepsRequests(procs, p, after);
  }

  /** Every step moves the semaphore, each gauge label, their total and the request counter exactly
      as it moves the reconciles they count, and never beyond the semaphore's capacity. */
  lemma StepKeepsTallies(setup: Setup, w: World, s: Step)
    requires Enabled(setup, w, s) && ApiInv(w.api) && ProcsInv(setup, w) && Tallied(setup, w.tally, w.procs)
    ensures Tallied(setup, Take(setup, w, s).tally, Take(setup, w, s).procs)
  {
    if ActorOf(s).Some? {
      StepAdvances(setup, w, s);
      var t, after := Recorded(w.tally, ProcAt(w.procs, s.p), s), Moved(setup, w, s);
      MoveKeepsTallies(setup, w.tally, t, w.procs, s.p, after);
    }
  }

  // ---------------------------------------------------------------- invariant: one write per clear

  /** A pod is written at most once more often than others cleared it, and no more often than
      that while the stored condition is not true. */
  ghost predicate OnceInv(api: Api, written: multiset<nat>, cleared: multiset<nat>) {
    && (forall u :: written[u] <= cleared[u] + 1)
    && (forall u :: u >= api.nextUid ==> written[u] == 0)
    && (forall n :: n in api.pods && !HasCondition(api.pods[n].status.conditions, WarmupReady) ==>
          written[api.pods[n].uid] <= cleared[api.pods[n].uid])
  }

  lemma AcceptKeepsOnce(api: Api, written: multiset<nat>, cleared: multiset<nat>, name: string, status: Status)
    requires ApiInv(api) && OnceInv(api, written, cleared) && name in api.pods
    requires !HasCondition(api.pods[name].status.conditions, WarmupReady)
    requires HasCondition(status.conditions, WarmupReady)
    ensures OnceInv(TakeStatus(api, name, status), written + multiset{api.pods[name].uid}, cleared)
  {
  }

  lemma ModifyKeepsOnce(api: Api, written: multiset<nat>, cleared: multiset<nat>, name: string, pod: Pod)
    requires ApiInv(api) && OnceInv(api, written, cleared) && name in api.pods && pod.uid == api.pods[name].uid
    ensures OnceInv(Stamp(api, name, pod), written,
                    if Clears(api, name, pod) then cleared + multiset{pod.uid} else cleared)
  {
  }

  lemma CreateKeepsOnce(api: Api, written: multiset<nat>, cleared: multiset<nat>, name: string, pod: Pod)
    requires ApiInv(api) && OnceInv(api, written, cleared) && name !in api.pods && pod.uid == api.nextUid
    ensures OnceInv(Stamp(api.(nextUid := api.nextUid + 1), name, pod), written, cleared)
  {
  }

  /** With the stored version equal to the snapshot's, the stored pod is the snapshot. */
  lemma FreshIsSnapshot(setup: Setup, w: World, p: nat)
    requires ApiInv(w.api) && ProcsInv(setup, w) && p in w.procs && w.procs[p].pc.Writing?
    requires Fresh(w.api, w.procs[p].name, w.procs[p].snapshot.value.version)
    ensures w.api.pods[w.procs[p].name] == w.procs[p].snapshot.value
    ensures ReadyForWarmup(w.api.pods[w.procs[p].name])
  {
    assert ProcInv(setup, w.api, w.procs[p]);
  }

  lemma MarkedHasCondition(pod: Pod, now: int, result: WarmupResult)
    ensures HasCondition(Marked(pod, now, result).status.conditions, WarmupReady)
  {
    var k := WithReadyChangesOnlyIt(pod.status.conditions, Ready(now, ReasonOf(result), MessageOf(result)));
  }

  lemma UpdateKeepsOnce(setup: Setup, w: World, s: Step)
    requires Enabled(setup, w, s) && s.Update? && !s.reply.Refused?
    requires ApiInv(w.api) && ProcsInv(setup, w) && OnceInv(w.api, w.written, w.cleared)
    ensures var w' := Take(setup, w, s); OnceInv(w'.api, w'.written, w'.cleared)
  {
    var pr := w.procs[s.p];
    FreshIsSnapshot(setup, w, s.p);
    MarkedHasCondition(pr.snapshot.value, s.now, pr.pc.result);
    AcceptKeepsOnce(w.api, w.written, w.cleared, pr.name, Marked(pr.snapshot.value, s.now, pr.pc.result).status);
  }

  lemma StepKeepsOnce(setup: Setup, w: World, s: Step)
    requires Enabled(setup, w, s) && ApiInv(w.api) && ProcsInv(setup, w) && OnceInv(w.api, w.written, w.cleared)
    ensures var w' := Take(setup, w, s); OnceInv(w'.api, w'.written, w'.cleared)
  {
    if Quiet(s) {
      QuietKeepsStore(setup, w, s);
    } else {
      match s
      case Update(p, now, reply) => UpdateKeepsOnce(setup, w, s);
      case Create(name, pod) => CreateKeepsOnce(w.api, w.written, w.cleared, name, pod);
      case Modify(name, pod) => ModifyKeepsOnce(w.api, w.written, w.cleared, name, pod);
      case Delete(name) => assert OnceInv(Removed(w.api, name), w.written, w.cleared);
    }
  }

  // ---------------------------------------------------------------- every reachable state

  ghost predicate Inv(setup: Setup, w: World) {
    ApiInv(w.api) && ProcsInv(setup, w) && Tallied(setup, w.tally, w.procs) && OnceInv(w.api, w.written, w.cleared)
  }

  lemma InitialInv(setup: Setup)
    ensures Inv(setup, INITIAL)
  {
    assert Those(map[], Holds) == {} && Those(map[], Counts) == {};
    assert forall l :: Those(map[], CountsAt(l)) == {};
    assert Charges(map[]) == map[];
  }

  lemma StepKeepsInv(setup: Setup, w: World, s: Step)
    requires Inv(setup, w) && Enabled(setup, w, s)
    ensures Inv(setup, Take(setup, w, s))
  {
    StepKeepsApi(setup, w, s);
    StepKeepsProcs(setup, w, s);
    StepKeepsTallies(setup, w, s);
    StepKeepsOnce(setup, w, s);
  }

  lemma {:induction false} RunInv(setup: Setup, ws: seq<World>, steps: seq<Step>, i: nat)
    requires IsRun(setup, ws, steps) && i < |ws|
    ensures Inv(setup, ws[i])
  {
    if i == 0 {
      InitialInv(setup);
    } else {
      RunInv(setup, ws, steps, i - 1);
      assert ws[i - 1 + 1] == Take(setup, ws[i - 1], steps[i - 1]);
      StepKeepsInv(setup, ws[i - 1], steps[i - 1]);
    }
  }

  // ---------------------------------------------------------------- theorems about whole runs

  /** Nothing of the pod but its warmup condition and its version differs. */
  ghost predicate OnlyWarmupChanged(before: Pod, after: Pod) {
    && after == before.(version := after.version, status := before.status.(conditions := after.status.conditions))
    && (exists k, c :: OnlyChanged(before.status.conditions, after.status.conditions, k, c) && c.kind == WarmupReady
          && (k < |before.status.conditions| ==> before.status.conditions[k].kind == WarmupReady))
  }

  /** What readers of the condition learn: when it was set, and how the warmup went. */
  ghost predicate Reports(c: Condition, now: int, result: WarmupResult) {
    && c.transition == now && c.message.text == result.message
    && (c.reason == WarmupComplete <==> result.success)
    && (c.reason == WarmupFailedOpen <==> c.message.FailOpen?)
  }

  /** At the instant a controller write is accepted, in any interleaving: the stored pod itself
      (not just the earlier snapshot) passes every check; the write turns its warmup condition
      from not true to true, with the result's message and reason WarmupComplete iff the warmup
      succeeded; it changes nothing else of the pod, hence loses nobody's update, and no other pod. */
  lemma AcceptedWriteIsSafe(setup: Setup, ws: seq<World>, steps: seq<Step>, i: nat)
    requires IsRun(setup, ws, steps) && i < |steps| && steps[i].Update? && !steps[i].reply.Refused?
    ensures var name, result := ws[i].procs[steps[i].p].name, ws[i].procs[steps[i].p].pc.result;
            var before, after := ws[i].api.pods[name], ws[i + 1].api.pods[name];
            && WarmupReady in before.gates && before.status.phase == Running
            && before.status.containersReady != []
            && (forall k :: 0 <= k < |before.status.containersReady| ==> before.status.containersReady[k])
            && HasCondition(before.status.conditions, ContainersReady)
            && !HasCondition(before.status.conditions, WarmupReady)
            && HasCondition(after.status.conditions, WarmupReady)
            && OnlyWarmupChanged(before, after)
            && (exists k :: FirstOfKind(after.status.conditions, WarmupReady, k)
                  && Reports(after.status.conditions[k], steps[i].now, result))
            && ws[i + 1].api.pods == ws[i].api.pods[name := after]
  {
    RunInv(setup, ws, steps, i);
    var w, s := ws[i], steps[i];
    var pr := w.procs[s.p];
    FreshIsSnapshot(setup, w, s.p);
    assert ws[i + 1].api == TakeStatus(w.api, pr.name, Marked(pr.snapshot.value, s.now, pr.pc.result).status);
    MarkedIsSafe(pr.snapshot.value, s.now, pr.pc.result, ws[i + 1].api.pods[pr.name].version);
  }

  lemma MarkedIsSafe(pod: Pod, now: int, result: WarmupResult, version: nat)
    ensures var after := Marked(pod, now, result).(version := version);
            && HasCondition(after.status.conditions, WarmupReady)
            && OnlyWarmupChanged(pod, after)
            && (exists k :: FirstOfKind(after.status.conditions, WarmupReady, k)
                  && Reports(after.status.conditions[k], now, result))
  {
    var ready := Ready(now, ReasonOf(result), MessageOf(result));
    var k := WithReadyChangesOnlyIt(pod.status.conditions, ready);
    var after := Marked(pod, now, result).(version := version);
    assert FirstOfKind(after.status.conditions, WarmupReady, k);
    assert OnlyChanged(pod.status.conditions, after.status.conditions, k, ready);
  }

  /** No pod gets more accepted controller writes than one plus the number of times another
      actor took its warmup condition away. */
  lemma OneWritePerClear(setup: Setup, ws: seq<World>, steps: seq<Step>, i: nat, uid: nat)
    requires IsRun(setup, ws, steps) && i < |ws|
    ensures ws[i].written[uid] <= ws[i].cleared[uid] + 1
  {
    RunInv(setup, ws, steps, i);
  }

  /** In every reachable state the gauge counts, per namespace and node and in total, the
      reconciles between their increment and their deferred decrement; with a semaphore its
      total never exceeds the slots held, nor those the capacity. */
  lemma GaugeWithinSlots(setup: Setup, ws: seq<World>, steps: seq<Step>, i: nat)
    requires IsRun(setup, ws, steps) && i < |ws|
    ensures forall l :: GetOr(ws[i].tally.gauge, l, 0) == |Those(ws[i].procs, CountsAt(l))|
    ensures setup.slots.Some? ==> 0 <= Total(ws[i].tally.gauge) <= ws[i].tally.cur <= setup.slots.value
  {
    RunInv(setup, ws, steps, i);
    var procs := ws[i].procs;
    if setup.slots.Some? {
      forall p | p in Those(procs, Counts) ensures p in Those(procs, Holds) {
        assert ProcInv(setup, ws[i].api, procs[p]);
        CountedHolds(setup, procs[p]);
      }
      SubsetCard(Those(procs, Counts), Those(procs, Holds));
    }
  }

  /** Acquire comes before the increment and the defers run in reverse, so whoever is counted
      holds a slot. */
  lemma CountedHolds(setup: Setup, pr: Proc)
    requires DeferredInv(setup, pr) && Counts(pr) && setup.slots.Some?
    ensures Holds(pr)
  {
    var j :| 0 <= j < |pr.deferred| && pr.deferred[j] == DecrementActive;
    assert pr.deferred[0] == Stack(setup)[0] == Release;
  }

  lemma SubsetCard(a: set<nat>, b: set<nat>)
    requires a <= b
    ensures |a| <= |b|
  {
    assert b == a + (b - a);
  }

  /** Whatever its exit, a reconcile that returned holds no slot and is not counted; once all
      have returned, the semaphore and every gauge label are back at zero. */
  lemma ExitsRestore(setup: Setup, ws: seq<World>, steps: seq<Step>, i: nat)
    requires IsRun(setup, ws, steps) && i < |ws|
    ensures forall p :: p in ws[i].procs && ws[i].procs[p].pc.Done? ==>
              !Holds(ws[i].procs[p]) && !Counts(ws[i].procs[p])
    ensures (forall p :: p in ws[i].procs ==> ws[i].procs[p].pc.Done?) ==>
              ws[i].tally.cur == 0 && forall l :: GetOr(ws[i].tally.gauge, l, 0) == 0
  {
    RunInv(setup, ws, steps, i);
    var procs := ws[i].procs;
    forall p | p in procs && procs[p].pc.Done? ensures !Holds(procs[p]) && !Counts(procs[p]) {
      assert ProcInv(setup, ws[i].api, procs[p]);
    }
    if forall p :: p in procs ==> procs[p].pc.Done? {
      assert Those(procs, Holds) == {};
      assert forall l :: Those(procs, CountsAt(l)) == {};
    }
  }

  /** Running a deferred call never drives the semaphore or the gauge below zero. */
  lemma DeferredNeverUnderflows(setup: Setup, ws: seq<World>, steps: seq<Step>, i: nat, l: Label)
    requires IsRun(setup, ws, steps) && i < |steps| && steps[i].Unwind?
    ensures 0 <= ws[i + 1].tally.cur && 0 <= GetOr(ws[i + 1].tally.gauge, l, 0)
  {
    RunInv(setup, ws, steps, i + 1);
  }

  /** The exits, exactly.  A pod that still lacks the condition but carries the gate is never
      dropped: it is requeued, retried after an error, or marked.  When it is marked, the event
      trace is Queued (exactly when concurrency is limited), Started, then Completed or one
      Failed, with a second Failed exactly after a failed WarmupConfig lookup, and last
      ConditionUpdated, which says fail-open exactly when the warmup failed. */
  lemma ExitsExplained(setup: Setup, ws: seq<World>, steps: seq<Step>, i: nat, p: nat)
    requires IsRun(setup, ws, steps) && i < |ws| && p in ws[i].procs && ws[i].procs[p].pc.Done?
    ensures ExitMeans(setup, ws[i].procs[p], ws[i].procs[p].pc.exit)
    ensures ws[i].procs[p].lookupFailed ==>
              setup.scenarios && ws[i].procs[p].result.Some? && !ws[i].procs[p].result.value.success
  {
    RunInv(setup, ws, steps, i);
    assert ProcInv(setup, ws[i].api, ws[i].procs[p]);
  }

  /** The request counter is, in every reachable state, the sum over all reconciles of the
      requests completed and failed in their results, each counted once. */
  lemma RequestCounter(setup: Setup, ws: seq<World>, steps: seq<Step>, i: nat)
    requires IsRun(setup, ws, steps) && i < |ws|
    ensures ws[i].tally.requests == Total(Charges(ws[i].procs))
  {
    RunInv(setup, ws, steps, i);
  }

  // ---------------------------------------------------------------- progress

  /** How many of the first n steps are a given reconcile's, its spawning included. */
  ghost function StepsOf(steps: seq<Step>, n: nat, p: nat): nat
    requires n <= |steps|
  {
    if n == 0 then 0 else StepsOf(steps, n - 1, p) + Bit(ActorOf(steps[n - 1]) == Some(p))
  }

  /** Whatever the environment answers and however they interleave, a reconcile takes at most
      eleven steps after it was spawned, and fewer the closer it is to its return. */
  lemma {:induction false} StepsRunOut(setup: Setup, ws: seq<World>, steps: seq<Step>, i: nat, p: nat)
    requires IsRun(setup, ws, steps) && i < |ws|
    ensures StepsOf(steps, i, p) <= Taken(ws[i], p) <= 12
  {
    if i > 0 {
      StepsRunOut(setup, ws, steps, i - 1, p);
      RunInv(setup, ws, steps, i - 1);
      assert ws[i - 1 + 1] == Take(setup, ws[i - 1], steps[i - 1]);
      StepLowersRank(setup, ws[i - 1], steps[i - 1], p);
    }
  }

  /** An upper bound on the steps a reconcile has taken. */
  ghost function Taken(w: World, p: nat): int {
    if p in w.procs then 12 - Rank(w.procs[p]) else 0
  }

  lemma StepLowersRank(setup: Setup, w: World, s: Step, p: nat)
    requires Enabled(setup, w, s) && ApiInv(w.api) && ProcsInv(setup, w)
    ensures Taken(Take(setup, w, s), p) >= Taken(w, p) + Bit(ActorOf(s) == Some(p))
  {
    if ActorOf(s) == Some(p) { StepAdvances(setup, w, s); }
  }

  /** A step of the code that waits for no other reconcile: an answer of the API server or of an
      executor, or a deferred call. */
  ghost predicate OwnStep(setup: Setup, w: World, q: nat, s: Step) {
    Enabled(setup, w, s) && ActorOf(s) == Some(q) && !s.Spawn? && !s.Acquire?
  }

  /** Only a reconcile at the semaphore can be made to wait by others. */
  lemma HasOwnStep(setup: Setup, w: World, q: nat) returns (s: Step)
    requires q in w.procs && ProcInv(setup, w.api, w.procs[q]) && !w.procs[q].pc.Done? && !w.procs[q].pc.Waiting?
    ensures OwnStep(setup, w, q, s)
  {
    match w.procs[q].pc
    case Start => s := Fetch(q, NotFound);
    case Eligible => s := Enqueue(q);
    case Admitted => s := Begin(q);
    case Active => s := Parse(q, "");
    case Configured(config) =>
      s := Execute(q, if UsesScenario(setup, config) then LookupFailed("")
                      else if setup.executor then Ran(WarmupResult(false, "", 0, 0)) else NoExecutor);
    case Writing(_) => s := Update(q, 0, Refused);
    case Returning(_) => s := Unwind(q);
  }

  /** A reconcile has a step that waits for nobody, and whatever step it takes brings it closer to
      its return. */
  ghost predicate KeepsMoving(setup: Setup, w: World, q: nat)
    requires q in w.procs
  {
    && (exists s :: OwnStep(setup, w, q, s))
    && (forall s :: OwnStep(setup, w, q, s) ==> Rank(Moved(setup, w, s)) < Rank(w.procs[q]))
  }

  lemma HolderKeepsMoving(setup: Setup, w: World, q: nat)
    requires ApiInv(w.api) && q in w.procs && ProcInv(setup, w.api, w.procs[q]) && Holds(w.procs[q])
    ensures KeepsMoving(setup, w, q)
  {
    var s := HasOwnStep(setup, w, q);
    forall s | OwnStep(setup, w, q, s) ensures Rank(Moved(setup, w, s)) < Rank(w.procs[q]) {
      StepAdvances(setup, w, s);
    }
  }

  /** No deadlock at the semaphore.  While a reconcile waits, either a slot is free, or slots are
      held and every holder keeps moving towards its return, where it gives its slot back. */
  lemma NoDeadlock(setup: Setup, ws: seq<World>, steps: seq<Step>, i: nat, p: nat)
    requires IsRun(setup, ws, steps) && i < |ws| && At(ws[i], p, Waiting)
    requires setup.slots.Some? && setup.slots.value > 0
    ensures var w := ws[i];
            && (Enabled(setup, w, Acquire(p, true)) || exists q :: q in w.procs && Holds(w.procs[q]))
            && forall q :: q in w.procs && Holds(w.procs[q]) ==> KeepsMoving(setup, w, q)
  {
    RunInv(setup, ws, steps, i);
    var w := ws[i];
    if w.tally.cur >= setup.slots.value {
      var q :| q in Those(w.procs, Holds);
      assert Holds(w.procs[q]);
    }
    forall q | q in w.procs && Holds(w.procs[q]) ensures KeepsMoving(setup, w, q) {
      HolderKeepsMoving(setup, w, q);
    }
  }

  /** Taking the steps one after the other leads from w to w'. */
  ghost predicate Leads(setup: Setup, w: World, steps: seq<Step>, w': World)
    decreases |steps|
  {
    if steps == [] then w' == w
    else Enabled(setup, w, steps[0]) && Leads(setup, Take(setup, w, steps[0]), steps[1..], w')
  }

  /** Steps of one reconcile that wait for no other. */
  ghost predicate AllBy(steps: seq<Step>, q: nat) {
    forall k :: 0 <= k < |steps| ==> ActorOf(steps[k]) == Some(q) && !steps[k].Acquire?
  }

  /** Every waiting reconcile can be admitted: from any reachable state at most eight more steps,
      all of one holder and none of them an Acquire, lead to a state in which a slot is free. */
  lemma SlotComesFree(setup: Setup, ws: seq<World>, steps: seq<Step>, i: nat, p: nat)
    returns (q: nat, more: seq<Step>, w': World)
    requires IsRun(setup, ws, steps) && i < |ws| && At(ws[i], p, Waiting)
    requires setup.slots.Some? && setup.slots.value > 0
    ensures Leads(setup, ws[i], more, w') && q != p && AllBy(more, q) && |more| <= 8
    ensures Enabled(setup, w', Acquire(p, true))
  {
    RunInv(setup, ws, steps, i);
    var w := ws[i];
    if w.tally.cur < setup.slots.value {
      q, more, w' := p + 1, [], w;
    } else {
      q := SomeHolder(setup, w);
      more, w' := HolderReturns(setup, w, p, q);
    }
  }

  lemma HolderRank(setup: Setup, pr: Proc)
    requires DeferredInv(setup, pr) && Holds(pr)
    ensures Rank(pr) <= 8
  {
    assert |Stack(setup)| <= 3;
  }

  lemma HolderReturns(setup: Setup, w: World, p: nat, q: nat) returns (more: seq<Step>, w': World)
    requires Inv(setup, w) && setup.slots.Some? && At(w, p, Waiting) && p != q
    requires q in w.procs && Holds(w.procs[q])
    ensures Leads(setup, w, more, w') && AllBy(more, q) && |more| <= 8
    ensures Enabled(setup, w', Acquire(p, true))
  {
    StartsPending(setup, w, p, q);
    PendingLowers(setup, p, q);
    more, w' := Descend(setup, w, q, PendingFor(setup, p, q), FreeFor(setup, p));
    FreeMeansEnabled(setup, p, w');
  }

  ghost function SomeHolder(setup: Setup, w: World): (q: nat)
    requires Inv(setup, w) && w.tally.cur > 0
    ensures q in w.procs && Holds(w.procs[q]) && !w.procs[q].pc.Waiting?
  {
    var q :| q in Those(w.procs, Holds);
    assert ProcInv(setup, w.api, w.procs[q]);
    q
  }

  lemma LeadsFurther(setup: Setup, w: World, s: Step, more: seq<Step>, w': World)
    requires Enabled(setup, w, s) && Leads(setup, Take(setup, w, s), more, w')
    ensures Leads(setup, w, [s] + more, w')
  {
    assert ([s] + more)[0] == s && ([s] + more)[1..] == more;
  }

  /** The goal of a waiting reconcile. */
  ghost predicate SlotFree(setup: Setup, p: nat, w: World) {
    At(w, p, Waiting) && setup.slots.Some? && w.tally.cur < setup.slots.value
  }

  /** A slot is free for p, or q holds one that it will release. */
  ghost predicate Pending(setup: Setup, p: nat, q: nat, w: World) {
    && p != q && setup.slots.Some? && At(w, p, Waiting) && Inv(setup, w)
    && (SlotFree(setup, p, w) || (q in w.procs && Holds(w.procs[q])))
  }

  ghost function PendingFor(setup: Setup, p: nat, q: nat): World -> bool {
    w => Pending(setup, p, q, w)
  }

  ghost function FreeFor(setup: Setup, p: nat): World -> bool {
    w => SlotFree(setup, p, w)
  }

  lemma FreeMeansEnabled(setup: Setup, p: nat, w: World)
    requires FreeFor(setup, p)(w)
    ensures Enabled(setup, w, Acquire(p, true))
  {
  }

  lemma StartsPending(setup: Setup, w: World, p: nat, q: nat)
    requires Inv(setup, w) && setup.slots.Some? && At(w, p, Waiting) && p != q
    requires q in w.procs && Holds(w.procs[q])
    ensures PendingFor(setup, p, q)(w) && RankAt(w, q) <= 8
  {
    assert ProcInv(setup, w.api, w.procs[q]);
    HolderRank(setup, w.procs[q]);
  }

  lemma PendingLowers(setup: Setup, p: nat, q: nat)
    ensures forall v {:trigger CanLower(setup, v, q, PendingFor(setup, p, q))} ::
              PendingFor(setup, p, q)(v) && !FreeFor(setup, p)(v) ==> CanLower(setup, v, q, PendingFor(setup, p, q))
  {
    forall v | PendingFor(setup, p, q)(v) && !FreeFor(setup, p)(v)
      ensures CanLower(setup, v, q, PendingFor(setup, p, q))
    {
      var s := HolderSteps(setup, v, p, q);
      assert PendingFor(setup, p, q)(Take(setup, v, s));
    }
  }

  ghost function RankAt(w: World, q: nat): nat {
    Rank(ProcAt(w.procs, q))
  }

  ghost predicate Lowers(setup: Setup, w: World, q: nat, s: Step) {
    OwnStep(setup, w, q, s) && RankAt(Take(setup, w, s), q) < RankAt(w, q)
  }

  ghost predicate CanLower(setup: Setup, w: World, q: nat, pending: World -> bool) {
    exists s :: Lowers(setup, w, q, s) && pending(Take(setup, w, s))
  }

  /** One step of a holder: it moves on, the waiting one is left alone, and the semaphore is as
      before unless the holder's slot was released. */
  lemma HolderSteps(setup: Setup, w: World, p: nat, q: nat) returns (s: Step)
    requires Pending(setup, p, q, w) && !SlotFree(setup, p, w)
    ensures Lowers(setup, w, q, s) && Pending(setup, p, q, Take(setup, w, s))
  {
    s := HasOwnStep(setup, w, q);
    StepAdvances(setup, w, s);
    StepKeepsInv(setup, w, s);
  }

  /** Steps of one reconcile, each lowering its rank, lead to the goal. */
  lemma {:induction false} Descend(setup: Setup, w: World, q: nat, pending: World -> bool, goal: World -> bool)
    returns (more: seq<Step>, w': World)
    requires pending(w)
    requires forall v {:trigger CanLower(setup, v, q, pending)} ::
               pending(v) && !goal(v) ==> CanLower(setup, v, q, pending)
    ensures Leads(setup, w, more, w') && AllBy(more, q) && |more| <= RankAt(w, q) && goal(w')
    decreases RankAt(w, q)
  {
    more, w' := [], w;
    if !goal(w) {
      assert CanLower(setup, w, q, pending);
      var s :| Lowers(setup, w, q, s) && pending(Take(setup, w, s));
      more, w' := Descend(setup, Take(setup, w, s), q, pending, goal);
      LeadsFurther(setup, w, s, more, w');
      more := [s] + more;
    }
  }
}
