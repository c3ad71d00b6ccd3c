/**
  What the steps of a reconcile decide (pkg/controller/pod_controller.go), stated over the steps of
  a run alone: which answer of the API server, of the semaphore or of an executor leads to which
  exit, to which warmup result and to which events.
 */
module Outcomes {
  import opened Common
  import opened Pods
  import opened Config
  import opened Reconcile

  // ---------------------------------------------------------------- exits

  ghost predicate Exited(pr: Proc, exit: Exit) {
    pr.pc == Returning(exit) || pr.pc == Done(exit)
  }

  /** The pod that a Get of reconcile p returned. */
  ghost predicate Fetched(w: World, s: Step, p: nat, pod: Pod) {
    && s.Fetch? && s.p == p && s.got.Found?
    && s.got.version in w.api.history && w.api.history[s.got.version].1 == pod
  }

  /** The pod is not one to warm up: it has no readiness gate, or is marked already. */
  ghost predicate NotConcerned(pod: Pod) {
    WarmupReady !in pod.gates || HasCondition(pod.status.conditions, WarmupReady)
  }

  /** The pod is not ready to be warmed up yet: it is not Running, it has no container status or one
      that is not ready, or its ContainersReady condition is not true. */
  ghost predicate NotYet(pod: Pod) {
    || pod.status.phase != Running
    || pod.status.containersReady == [] || (exists i :: 0 <= i < |pod.status.containersReady|
                                                        && !pod.status.containersReady[i])
    || !HasCondition(pod.status.conditions, ContainersReady)
  }

  /** The step of p that decides an exit.  Finished: the status update was acknowledged.  Errored:
      the Get failed, or the update did or was not acknowledged.  Ignored: the pod is gone or not
      concerned.  Requeued: it is not ready yet, or no slot was granted. */
  ghost predicate Decides(w: World, s: Step, p: nat, exit: Exit) {
    match exit
    case Finished => s.Update? && s.p == p && s.reply == Acknowledged
    case Errored => (s.Fetch? && s.p == p && s.got == GetFailed) || (s.Update? && s.p == p && s.reply != Acknowledged)
    case Ignored =>
      || (s.Fetch? && s.p == p && s.got == NotFound)
      || (exists pod :: Fetched(w, s, p, pod) && NotConcerned(pod))
    case Requeued =>
      || s == Acquire(p, false)
      || (exists pod :: Fetched(w, s, p, pod) && !NotConcerned(pod) && NotYet(pod))
  }

  lemma FetchDecides(setup: Setup, w: World, s: Step, exit: Exit)
    requires Enabled(setup, w, s) && s.Fetch?
    ensures Exited(Moved(setup, w, s), exit) <==> Decides(w, s, s.p, exit)
  {
    if s.got.Found? {
      var pod := w.api.history[s.got.version].1;
      assert Fetched(w, s, s.p, pod);
      assert forall other :: Fetched(w, s, s.p, other) ==> other == pod;
      assert NotConcerned(pod) || (ReadyForWarmup(pod) <==> !NotYet(pod));
    }
  }

  /** A step of p's own puts it on an exit exactly if it decides that exit, or p was on it before. */
  lemma StepDecides(setup: Setup, w: World, s: Step, exit: Exit)
    requires Enabled(setup, w, s) && ActorOf(s).Some? && !s.Spawn?
    ensures Exited(Moved(setup, w, s), exit) <==> Exited(w.procs[s.p], exit) || Decides(w, s, s.p, exit)
  {
    match s
    case Fetch(_, _) => FetchDecides(setup, w, s, exit);
    case Acquire(p, granted) => assert Moved(setup, w, s) == AfterAcquire(w.procs[p], granted);
    case Update(p, _, reply) => assert Moved(setup, w, s) == AfterUpdate(w.procs[p], reply);
    case Unwind(p) => assert Moved(setup, w, s) == AfterUnwind(w.procs[p]);
    case _ => StepDecidesNothing(setup, w, s, exit);
  }

  lemma StepDecidesNothing(setup: Setup, w: World, s: Step, exit: Exit)
    requires Enabled(setup, w, s) && (s.Enqueue? || s.Begin? || s.Parse? || s.Execute?)
    ensures !Exited(Moved(setup, w, s), exit) && !Exited(w.procs[s.p], exit) && !Decides(w, s, s.p, exit)
  {
  }

  // ---------------------------------------------------------------- from steps to runs

  /** Steps of p, and no others, make f true of p, exactly those for which d holds; it stays true. */
  ghost predicate Tracks(setup: Setup, w: World, s: Step, p: nat, f: Proc -> bool, d: (World, Step) -> bool) {
    Enabled(setup, w, s) && Inv(setup, w) ==>
      && (ActorOf(s) != Some(p) ==> !d(w, s))
      && (ActorOf(s) == Some(p) ==> (f(Moved(setup, w, s)) <==> (p in w.procs && f(w.procs[p])) || d(w, s)))
  }

  /** Step j of a run is one for which d holds. */
  ghost predicate Happened(ws: seq<World>, steps: seq<Step>, d: (World, Step) -> bool, j: nat) {
    j < |ws| && j < |steps| && d(ws[j], steps[j])
  }

  /** What steps make true of a reconcile is true of it exactly if such a step was taken before. */
  lemma {:induction false} TrueSince(
    setup: Setup, ws: seq<World>, steps: seq<Step>, i: nat, p: nat, f: Proc -> bool, d: (World, Step) -> bool)
    requires IsRun(setup, ws, steps) && i < |ws| && forall w, s :: Tracks(setup, w, s, p, f, d)
    ensures (p in ws[i].procs && f(ws[i].procs[p])) <==> Since(ws, steps, d, i)
  {
    if i > 0 {
      TrueSince(setup, ws, steps, i - 1, p, f, d);
      RunInv(setup, ws, steps, i - 1);
      TrueNext(setup, ws[i - 1], steps[i - 1], p, f, d);
      assert ws[i - 1 + 1] == Take(setup, ws[i - 1], steps[i - 1]);
      SinceNext(ws, steps, d, i - 1);
    }
  }

  /** One of the first i steps is one for which d holds. */
  ghost predicate Since(ws: seq<World>, steps: seq<Step>, d: (World, Step) -> bool, i: nat) {
    exists j: nat :: j < i && Happened(ws, steps, d, j)
  }

  lemma SinceNext(ws: seq<World>, steps: seq<Step>, d: (World, Step) -> bool, i: nat)
    requires i < |ws| && i < |steps|
    ensures Since(ws, steps, d, i + 1) <==> Since(ws, steps, d, i) || d(ws[i], steps[i])
  {
    if d(ws[i], steps[i]) { assert Happened(ws, steps, d, i); }
    if j: nat :| j < i && Happened(ws, steps, d, j) { assert j < i + 1; }
  }

  lemma TrueNext(setup: Setup, w: World, s: Step, p: nat, f: Proc -> bool, d: (World, Step) -> bool)
    requires Enabled(setup, w, s) && Inv(setup, w) && Tracks(setup, w, s, p, f, d)
    ensures var w' := Take(setup, w, s);
            (p in w'.procs && f(w'.procs[p])) <==> (p in w.procs && f(w.procs[p])) || d(w, s)
  {
  }

  ghost function ExitedBy(exit: Exit): Proc -> bool {
    pr => Exited(pr, exit)
  }

  ghost function Deciding(p: nat, exit: Exit): (World, Step) -> bool {
    (w, s) => Decides(w, s, p, exit)
  }

  lemma OnlyOwnDecides(w: World, s: Step, p: nat, exit: Exit)
    requires Decides(w, s, p, exit)
    ensures ActorOf(s) == Some(p) && !s.Spawn?
  {
  }

  lemma ExitTracks(setup: Setup, w: World, s: Step, p: nat, f: Proc -> bool, d: (World, Step) -> bool, exit: Exit)
    requires forall pr :: f(pr) <==> Exited(pr, exit)
    requires d(w, s) <==> Decides(w, s, p, exit)
    ensures Tracks(setup, w, s, p, f, d)
  {
    if d(w, s) { OnlyOwnDecides(w, s, p, exit); }
    if Enabled(setup, w, s) && ActorOf(s) == Some(p) {
      if s.Spawn? {
        assert !f(Moved(setup, w, s));
      } else {
        StepDecides(setup, w, s, exit);
      }
    }
  }

  /** The exit of a reconcile, over the steps of the run: it returns, or has returned, by an exit
      exactly if a step of its own decided that exit.  So it finishes exactly if its status update
      was acknowledged, and any other answer to the update ends in an error, to be retried. */
  lemma ExitsDecided(setup: Setup, ws: seq<World>, steps: seq<Step>, i: nat, p: nat, exit: Exit)
    requires IsRun(setup, ws, steps) && i < |ws|
    ensures (p in ws[i].procs && Exited(ws[i].procs[p], exit))
            <==> exists j: nat :: j < i && j < |steps| && Decides(ws[j], steps[j], p, exit)
  {
    var f, d := ExitedBy(exit), Deciding(p, exit);
    forall w, s ensures Tracks(setup, w, s, p, f, d) { ExitTracks(setup, w, s, p, f, d, exit); }
    TrueSince(setup, ws, steps, i, p, f, d);
    if j: nat :| j < i && Happened(ws, steps, d, j) {
      assert Decides(ws[j], steps[j], p, exit);
    }
    if j: nat :| j < i && j < |steps| && Decides(ws[j], steps[j], p, exit) {
      assert Happened(ws, steps, d, j);
    }
  }

  /** ConditionUpdated is emitted exactly by the reconciles that finish. */
  lemma ConditionUpdatedMeans(setup: Setup, ws: seq<World>, steps: seq<Step>, i: nat, p: nat)
    requires IsRun(setup, ws, steps) && i < |ws| && p in ws[i].procs
    ensures Updated(ws[i].procs[p].events) <==> Exited(ws[i].procs[p], Finished)
  {
    RunInv(setup, ws, steps, i);
    assert ProcInv(setup, ws[i].api, ws[i].procs[p]);
    UpdatedIffFinished(setup, ws[i].procs[p]);
  }

  ghost predicate Updated(events: seq<Event>) {
    exists e :: e in events && e.ConditionUpdated?
  }

  lemma UpdatedIffFinished(setup: Setup, pr: Proc)
    requires EventsInv(setup, pr)
    ensures Updated(pr.events) <==> Exited(pr, Finished)
  {
    NothingUpdated(setup, pr);
    if Exited(pr, Finished) {
      assert FullTrace(setup, pr);
      assert ConditionUpdated(!pr.result.value.success) in pr.events;
    }
  }

  lemma NothingUpdated(setup: Setup, pr: Proc)
    ensures !Updated(Opening(setup)) && !Updated([]) && !Updated([Queued])
    ensures pr.result.Some? ==> !Updated(Opening(setup) + Verdict(pr.lookupFailed, pr.result.value))
  {
  }

  // ---------------------------------------------------------------- results

  /** The step of p that produces its result: an unacceptable configuration or a failed lookup fails
      with their message and no requests, an executor's result is taken as it is, and without an
      executor the warmup is skipped successfully. */
  ghost predicate Produces(setup: Setup, w: World, s: Step, p: nat, r: WarmupResult) {
    match s
    case Parse(q, message) =>
      && q == p && p in w.procs && w.procs[p].snapshot.Some?
      && !PodAcceptable(setup.libs, w.procs[p].snapshot.value) && r == WarmupResult(false, message, 0, 0)
    case Execute(q, LookupFailed(message)) => q == p && r == WarmupResult(false, message, 0, 0)
    case Execute(q, Ran(result)) => q == p && r == result
    case Execute(q, NoExecutor) => q == p && r == WarmupResult(true, "warmup skipped: no executor configured", 0, 0)
    case _ => false
  }

  ghost function ResultIs(r: WarmupResult): Proc -> bool {
    (pr: Proc) => pr.result == Some(r)
  }

  ghost function Producing(setup: Setup, p: nat, r: WarmupResult): (World, Step) -> bool {
    (w, s) => Produces(setup, w, s, p, r)
  }

  lemma OnlyOwnProduces(setup: Setup, w: World, s: Step, p: nat, r: WarmupResult)
    requires Produces(setup, w, s, p, r)
    ensures ActorOf(s) == Some(p) && (s.Parse? || s.Execute?)
  {
  }

  lemma SameResult(setup: Setup, w: World, s: Step)
    requires Enabled(setup, w, s) && ActorOf(s).Some? && !s.Spawn? && !s.Parse? && !s.Execute?
    ensures Moved(setup, w, s).result == w.procs[s.p].result
  {
  }

  lemma StepProduces(setup: Setup, w: World, s: Step, r: WarmupResult)
    requires Enabled(setup, w, s) && (s.Parse? || s.Execute?) && w.procs[s.p].result.None?
    ensures Moved(setup, w, s).result == Some(r) <==> Produces(setup, w, s, s.p, r)
  {
  }

  lemma ResultTracks(
    setup: Setup, w: World, s: Step, p: nat, f: Proc -> bool, d: (World, Step) -> bool, r: WarmupResult)
    requires forall pr :: f(pr) <==> pr.result == Some(r)
    requires d(w, s) <==> Produces(setup, w, s, p, r)
    ensures Tracks(setup, w, s, p, f, d)
  {
    if d(w, s) { OnlyOwnProduces(setup, w, s, p, r); }
    if Enabled(setup, w, s) && Inv(setup, w) && ActorOf(s) == Some(p) {
      if s.Spawn? {
        assert !f(Moved(setup, w, s));
      } else if s.Parse? || s.Execute? {
        assert ProcInv(setup, w.api, w.procs[p]);
        StepProduces(setup, w, s, r);
      } else {
        SameResult(setup, w, s);
      }
    }
  }

  /** The result a reconcile reports, writes and counts is the one its steps produced. */
  lemma ResultsProduced(setup: Setup, ws: seq<World>, steps: seq<Step>, i: nat, p: nat, r: WarmupResult)
    requires IsRun(setup, ws, steps) && i < |ws|
    ensures (p in ws[i].procs && ws[i].procs[p].result == Some(r))
            <==> exists j: nat :: j < i && j < |steps| && Produces(setup, ws[j], steps[j], p, r)
    ensures p in ws[i].procs && ws[i].procs[p].pc == Writing(r) ==> ws[i].procs[p].result == Some(r)
  {
    var f, d := ResultIs(r), Producing(setup, p, r);
    forall w, s ensures Tracks(setup, w, s, p, f, d) { ResultTracks(setup, w, s, p, f, d, r); }
    TrueSince(setup, ws, steps, i, p, f, d);
    if j: nat :| j < i && Happened(ws, steps, d, j) {
      assert Produces(setup, ws[j], steps[j], p, r);
    }
    if j: nat :| j < i && j < |steps| && Produces(setup, ws[j], steps[j], p, r) {
      assert Happened(ws, steps, d, j);
    }
    RunInv(setup, ws, steps, i);
    assert p in ws[i].procs ==> ProcInv(setup, ws[i].api, ws[i].procs[p]);
  }

  // ---------------------------------------------------------------- lookups and executors

  ghost predicate LookupFails(s: Step, p: nat) {
    s.Execute? && s.p == p && s.run.LookupFailed?
  }

  lemma StepLooksUp(setup: Setup, w: World, s: Step)
    requires Enabled(setup, w, s) && ActorOf(s).Some? && !s.Spawn?
    ensures Moved(setup, w, s).lookupFailed <==> w.procs[s.p].lookupFailed || LookupFails(s, s.p)
  {
  }

  lemma LookupTracks(setup: Setup, w: World, s: Step, p: nat, f: Proc -> bool, d: (World, Step) -> bool)
    requires (forall pr :: f(pr) <==> pr.lookupFailed) && (d(w, s) <==> LookupFails(s, p))
    ensures Tracks(setup, w, s, p, f, d)
  {
    if Enabled(setup, w, s) && ActorOf(s) == Some(p) {
      if s.Spawn? {
        assert !f(Moved(setup, w, s));
      } else {
        StepLooksUp(setup, w, s);
      }
    }
  }

  lemma LookupsRecorded(setup: Setup, ws: seq<World>, steps: seq<Step>, i: nat, p: nat)
    requires IsRun(setup, ws, steps) && i < |ws|
    ensures (p in ws[i].procs && ws[i].procs[p].lookupFailed)
            <==> exists j: nat :: j < i && j < |steps| && LookupFails(steps[j], p)
  {
    var f, d := (pr: Proc) => pr.lookupFailed, (w: World, s: Step) => LookupFails(s, p);
    forall w, s ensures Tracks(setup, w, s, p, f, d) { LookupTracks(setup, w, s, p, f, d); }
    TrueSince(setup, ws, steps, i, p, f, d);
    if j: nat :| j < i && Happened(ws, steps, d, j) {
      assert LookupFails(steps[j], p);
    }
    if j: nat :| j < i && j < |steps| && LookupFails(steps[j], p) {
      assert Happened(ws, steps, d, j);
    }
  }

  /** A reconcile that holds a configuration holds the one its pod's annotations describe, with the
      pod's address. */
  ghost predicate Described(setup: Setup, pr: Proc) {
    pr.pc.Configured? ==>
      && pr.snapshot.Some? && PodAcceptable(setup.libs, pr.snapshot.value)
      && pr.pc.config == ConfigOf(setup.libs, pr.snapshot.value).(podIP := pr.snapshot.value.status.podIP)
  }

  lemma StepDescribes(setup: Setup, w: World, s: Step)
    requires Enabled(setup, w, s) && ActorOf(s).Some?
    ensures Described(setup, Moved(setup, w, s))
  {
    if s.Parse? {
      assert Moved(setup, w, s) == AfterParse(w.procs[s.p], Parsed(setup, w.procs[s.p].snapshot.value), s.message);
    } else {
      NotConfigured(setup, w, s);
    }
  }

  lemma NotConfigured(setup: Setup, w: World, s: Step)
    requires Enabled(setup, w, s) && ActorOf(s).Some? && !s.Parse?
    ensures !Moved(setup, w, s).pc.Configured?
  {
  }

  lemma {:induction false} ConfigsDescribed(setup: Setup, ws: seq<World>, steps: seq<Step>, i: nat, p: nat)
    requires IsRun(setup, ws, steps) && i < |ws|
    ensures p in ws[i].procs ==> Described(setup, ws[i].procs[p])
  {
    if i > 0 {
      ConfigsDescribed(setup, ws, steps, i - 1, p);
      assert ws[i - 1 + 1] == Take(setup, ws[i - 1], steps[i - 1]);
      if ActorOf(steps[i - 1]) == Some(p) { StepDescribes(setup, ws[i - 1], steps[i - 1]); }
    }
  }

  /** Which executor runs: the scenario executor, after a lookup that may fail, when the pod names a
      WarmupConfig and there is a scenario executor; else the single-endpoint executor if there is
      one; else none. */
  ghost predicate MayRun(setup: Setup, pod: Pod, run: Run) {
    if Given(AnnotationsOf(pod), "kube-booster.io/warmup-config") && setup.scenarios then !run.NoExecutor?
    else if setup.executor then run.Ran?
    else run.NoExecutor?
  }

  lemma ExecutorChosen(setup: Setup, ws: seq<World>, steps: seq<Step>, i: nat, p: nat, run: Run)
    requires IsRun(setup, ws, steps) && i < |ws| && p in ws[i].procs && ws[i].procs[p].pc.Configured?
    ensures var pr := ws[i].procs[p];
            && pr.snapshot.Some? && pr.pc.config.podIP == pr.snapshot.value.status.podIP
            && (Enabled(setup, ws[i], Execute(p, run)) <==> MayRun(setup, pr.snapshot.value, run))
  {
    ConfigsDescribed(setup, ws, steps, i, p);
    FieldsComeFromAnnotations(setup.libs, ws[i].procs[p].snapshot.value);
    ExecuteEnabled(setup, ws[i], p, run);
  }

  lemma ExecuteEnabled(setup: Setup, w: World, p: nat, run: Run)
    requires p in w.procs && w.procs[p].pc.Configured?
    ensures Enabled(setup, w, Execute(p, run))
            <==> if w.procs[p].pc.config.warmupConfigName != "" && setup.scenarios then !run.NoExecutor?
                 else if setup.executor then run.Ran? else run.NoExecutor?
  {
  }

  // ---------------------------------------------------------------- events

  /** The events of a reconcile that wrote or tried to: Queued when there is a semaphore, Started,
      and how the warmup went: Completed, or Failed, preceded by the failed lookup if that was why. */
  ghost function Report(setup: Setup, lookupFailed: bool, success: bool): seq<Event> {
    var opening := if setup.slots.Some? then [Queued, Started] else [Started];
    if lookupFailed then opening + [Failed(LookupWarmupConfig), Failed(FailWarmup)]
    else if success then opening + [Completed]
    else opening + [Failed(FailWarmup)]
  }

  /** The whole event trace of a reconcile that returned. */
  lemma TracesWritten(setup: Setup, ws: seq<World>, steps: seq<Step>, i: nat, p: nat)
    requires IsRun(setup, ws, steps) && i < |ws| && p in ws[i].procs && ws[i].procs[p].pc.Done?
    ensures var pr := ws[i].procs[p];
            match pr.pc.exit
            case Ignored => pr.events == []
            case Requeued => pr.events == [] || pr.events == [Queued]
            case Errored =>
              if pr.result.None? then pr.events == []
              else pr.events == Report(setup, pr.lookupFailed, pr.result.value.success)
            case Finished =>
              && pr.result.Some?
              && pr.events == Report(setup, pr.lookupFailed, pr.result.value.success)
                              + [ConditionUpdated(!pr.result.value.success)]
  {
    RunInv(setup, ws, steps, i);
    var pr := ws[i].procs[p];
    assert ProcInv(setup, ws[i].api, pr);
    if pr.result.Some? { ReportIs(setup, pr.lookupFailed, pr.result.value); }
  }

  lemma ReportIs(setup: Setup, lookupFailed: bool, result: WarmupResult)
    requires lookupFailed ==> !result.success
    ensures Opening(setup) + Verdict(lookupFailed, result) == Report(setup, lookupFailed, result.success)
  {
  }

  // ---------------------------------------------------------------- slots and gauge

  /** A reconcile that has been admitted and has not begun to return. */
  ghost predicate Working(pc: Pc) {
    pc.Active? || pc.Configured? || pc.Writing?
  }

  /** A working reconcile is counted and, if there is a semaphore, holds a slot; an admitted one
      holds its slot already; one that is still being checked, waits or has returned does neither. */
  lemma WorkingIsCounted(setup: Setup, ws: seq<World>, steps: seq<Step>, i: nat, p: nat)
    requires IsRun(setup, ws, steps) && i < |ws| && p in ws[i].procs
    ensures var pr := ws[i].procs[p];
            && (Working(pr.pc) ==> Counts(pr))
            && (Working(pr.pc) || pr.pc.Admitted? ==> (Holds(pr) <==> setup.slots.Some?))
            && (pr.pc.Start? || pr.pc.Eligible? || pr.pc.Waiting? || pr.pc.Done? ==> !Holds(pr) && !Counts(pr))
            && (pr.pc.Admitted? ==> !Counts(pr))
  {
    RunInv(setup, ws, steps, i);
    assert ProcInv(setup, ws[i].api, ws[i].procs[p]);
    DeferredMeans(setup, ws[i].api, ws[i].procs[p]);
  }

  lemma DeferredMeans(setup: Setup, api: Api, pr: Proc)
    requires ProcInv(setup, api, pr)
    ensures Working(pr.pc) ==> Counts(pr)
    ensures Working(pr.pc) || pr.pc.Admitted? ==> (Holds(pr) <==> setup.slots.Some?)
    ensures pr.pc.Admitted? ==> !Counts(pr)
  {
    var opening := Defers(setup) + [DecrementActive];
    assert Release in opening <==> setup.slots.Some?;
    assert opening[|opening| - 1] == DecrementActive;
    if Working(pr.pc) {
      assert opening <= pr.deferred;
      assert pr.deferred[|opening| - 1] == DecrementActive;
      assert setup.slots.Some? ==> pr.deferred[0] == Release;
    }
  }

  /** The reconciles counted for a namespace and a node. */
  ghost function CountedFor(procs: map<nat, Proc>, namespace: string, node: string): set<nat> {
    set p | p in procs && Counts(procs[p])
            && procs[p].snapshot.value.namespace == namespace && procs[p].snapshot.value.node == node
  }

  ghost function Holders(procs: map<nat, Proc>): set<nat> {
    set p | p in procs && Holds(procs[p])
  }

  /** The gauge of a namespace and a node counts the reconciles of their pods, and the semaphore the
      reconciles that hold a slot. */
  lemma GaugeMeans(setup: Setup, ws: seq<World>, steps: seq<Step>, i: nat, namespace: string, node: string)
    requires IsRun(setup, ws, steps) && i < |ws|
    ensures GetOr(ws[i].tally.gauge, (namespace, node), 0) == |CountedFor(ws[i].procs, namespace, node)|
    ensures ws[i].tally.cur == |Holders(ws[i].procs)|
  {
    RunInv(setup, ws, steps, i);
    var procs := ws[i].procs;
    assert CountedFor(procs, namespace, node) == Those(procs, CountsAt((namespace, node)));
    assert Holders(procs) == Those(procs, Holds);
  }

  /** The request counter grows when an executor returns, by the requests it completed and failed,
      and at no other step. */
  lemma RequestsMean(setup: Setup, ws: seq<World>, steps: seq<Step>, i: nat)
    requires IsRun(setup, ws, steps) && i < |steps|
    ensures ws[i + 1].tally.requests - ws[i].tally.requests
            == match steps[i]
               case Execute(_, Ran(result)) => result.completed + result.failed
               case _ => 0
  {
    assert ws[i + 1] == Take(setup, ws[i], steps[i]);
    RecordedRequests(setup, ws[i], steps[i]);
  }

  lemma RecordedRequests(setup: Setup, w: World, s: Step)
    requires Enabled(setup, w, s)
    ensures Take(setup, w, s).tally.requests - w.tally.requests
            == if s.Execute? && s.run.Ran? then s.run.result.completed + s.run.result.failed else 0
  {
  }
}
