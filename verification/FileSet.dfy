/**
  buildFileSet (pkg/warmup/grpc_sender.go): depth-first registration of the file
  descriptors returned by server reflection, with a memo of registered names, a local
  registry filled in dependency order, and the global registry of well-known files.

  The recursive closure carries no in-progress mark, so it need not terminate.  `Visit`
  is therefore indexed by the recursion depth it may use; `TooDeep` says that the depth was
  not enough.  The theorems at the end say exactly which inputs some depth suffices for.
 */
module FileSet {
  import opened Common

  datatype FileProto = FileProto(name: string, deps: seq<string>)

  /** `local` is byName; `wellKnown` the global registry; `buildable` the local files that
      protodesc.NewFile and RegisterFile accept once their dependencies resolve. */
  datatype Universe = Universe(local: map<string, FileProto>, wellKnown: set<string>, buildable: set<string>)

  datatype Registry = Registry(registered: set<string>, files: seq<string>)

  const EMPTY_REGISTRY := Registry({}, [])

  datatype Refusal = Missing(name: string) | Unbuildable(name: string)

  datatype Outcome = Done(reg: Registry) | Failed(reg: Registry, error: Refusal) | TooDeep

  function Visit(u: Universe, depth: nat, reg: Registry, name: string): Outcome
    decreases depth, 0
  {
    if name in reg.registered then Done(reg)
    else if name !in u.local then
      if name in u.wellKnown then Done(reg.(registered := reg.registered + {name}))
      else Failed(reg, Missing(name))
    else if depth == 0 then TooDeep
    else
      var o := VisitAll(u, depth - 1, reg, u.local[name].deps);
      if !o.Done? then o
      else if name in o.reg.files then Done(o.reg.(registered := o.reg.registered + {name}))
      else if name !in u.buildable then Failed(o.reg, Unbuildable(name))
      else Done(Registry(o.reg.registered + {name}, o.reg.files + [name]))
  }

  function VisitAll(u: Universe, depth: nat, reg: Registry, names: seq<string>): Outcome
    decreases depth, 1 + |names|
  {
    if names == [] then Done(reg)
    else
      var o := Visit(u, depth, reg, names[0]);
      if o.Done? then VisitAll(u, depth, o.reg, names[1..]) else o
  }

  // ---------------------------------------------------------------- the import graph

  ghost predicate Edge(u: Universe, a: string, b: string) {
    a in u.local && b in u.local[a].deps
  }

  ghost predicate IsPath(u: Universe, p: seq<string>) {
    |p| > 0 && forall i :: 0 <= i < |p| - 1 ==> Edge(u, p[i], p[i + 1])
  }

  ghost predicate Connects(u: Universe, p: seq<string>, a: string, b: string) {
    IsPath(u, p) && p[0] == a && p[|p| - 1] == b
  }

  /** b is a, or a transitive dependency of a. */
  ghost predicate Reaches(u: Universe, a: string, b: string) {
    exists p :: Connects(u, p, a, b)
  }

  ghost predicate OnCycle(u: Universe, n: string) {
    exists m :: Edge(u, n, m) && Reaches(u, m, n)
  }

  ghost predicate Resolvable(u: Universe, n: string) {
    if n in u.local then n in u.buildable else n in u.wellKnown
  }

  ghost predicate ReachedFrom(u: Universe, roots: seq<string>, n: string) {
    exists r :: r in roots && Reaches(u, r, n)
  }

  ghost predicate AllResolvable(u: Universe, roots: seq<string>) {
    forall n :: ReachedFrom(u, roots, n) ==> Resolvable(u, n)
  }

  ghost predicate Acyclic(u: Universe, roots: seq<string>) {
    forall n :: ReachedFrom(u, roots, n) ==> !OnCycle(u, n)
  }

  lemma ReachesSelf(u: Universe, a: string)
    ensures Reaches(u, a, a)
  {
    assert Connects(u, [a], a, a);
  }

  lemma EdgeReaches(u: Universe, a: string, b: string, c: string)
    requires Edge(u, a, b) && Reaches(u, b, c)
    ensures Reaches(u, a, c)
  {
    var p :| Connects(u, p, b, c);
    var q := [a] + p;
    assert forall i :: 0 < i < |q| - 1 ==> q[i] == p[i - 1] && q[i + 1] == p[i];
    assert Connects(u, q, a, c);
  }

  lemma TailIsPath(u: Universe, p: seq<string>)
    requires IsPath(u, p) && |p| > 1
    ensures IsPath(u, p[1..])
  {
    var q := p[1..];
    forall i | 0 <= i < |q| - 1 ensures Edge(u, q[i], q[i + 1]) {
      assert Edge(u, p[i + 1], p[i + 2]);
    }
  }

  // ---------------------------------------------------------------- what every call keeps

  /** The dependency d of a registered file is available to NewFile's resolver. */
  ghost predicate Available(u: Universe, files: seq<string>, d: string) {
    if d in u.local then d in files else d in u.wellKnown
  }

  ghost predicate Topological(u: Universe, files: seq<string>) {
    forall i, d :: 0 <= i < |files| && Edge(u, files[i], d) ==> Available(u, files[..i], d)
  }

  ghost predicate Distinct(s: seq<string>) {
    forall i, j :: 0 <= i < j < |s| ==> s[i] != s[j]
  }

  /** The invariant at every call boundary: the marked names that are local are exactly the
      registered files, each registered once, after everything it imports. */
  ghost predicate Valid(u: Universe, reg: Registry) {
    && Distinct(reg.files)
    && Topological(u, reg.files)
    && (forall n :: n in reg.files <==> n in reg.registered && n in u.local)
    && (forall n :: n in reg.registered ==> Resolvable(u, n))
  }

  ghost predicate Grows(a: Registry, b: Registry) {
    a.registered <= b.registered && a.files <= b.files
  }

  lemma TopologicalAppend(u: Universe, files: seq<string>, name: string)
    requires Topological(u, files)
    requires forall d :: Edge(u, name, d) ==> Available(u, files, d)
    ensures Topological(u, files + [name])
  {
    var g := files + [name];
    forall i, d | 0 <= i < |g| && Edge(u, g[i], d)
      ensures Available(u, g[..i], d)
    {
      assert g[..i] == files[..i];
      if i == |files| { assert files[..i] == files; }
    }
  }

  /** Along a path of registered files the registration index strictly decreases. */
  lemma {:induction false} PathDescends(u: Universe, reg: Registry, p: seq<string>, i: nat) returns (j: nat)
    requires Valid(u, reg) && IsPath(u, p) && i < |reg.files| && reg.files[i] == p[0]
    requires p[|p| - 1] in u.local
    ensures j < |reg.files| && reg.files[j] == p[|p| - 1]
    ensures j <= i && (|p| > 1 ==> j < i)
    decreases |p|
  {
    j := i;
    if |p| > 1 {
      assert Edge(u, p[0], p[1]);
      assert Available(u, reg.files[..i], p[1]);
      assert p[1] in u.local by { if |p| > 2 { assert Edge(u, p[1], p[2]); } }
      var k :| 0 <= k < i && reg.files[k] == p[1];
      TailIsPath(u, p);
      j := PathDescends(u, reg, p[1..], k);
    }
  }

  lemma RegisteredNotOnCycle(u: Universe, reg: Registry, n: string)
    requires Valid(u, reg) && n in reg.registered
    ensures !OnCycle(u, n)
  {
    if OnCycle(u, n) {
      var m :| Edge(u, n, m) && Reaches(u, m, n);
      var p :| Connects(u, p, m, n);
      var q := [n] + p;
      assert IsPath(u, q) by {
        forall x | 0 <= x < |q| - 1 ensures Edge(u, q[x], q[x + 1]) {
          if x > 0 { assert Edge(u, p[x - 1], p[x]); }
        }
      }
      var i :| 0 <= i < |reg.files| && reg.files[i] == n;
      var j := PathDescends(u, reg, q, i);
    }
  }

  /** Everything a marked name imports, at any depth, resolves. */
  lemma {:induction false} RegisteredImportsResolve(u: Universe, reg: Registry, p: seq<string>)
    requires Valid(u, reg) && IsPath(u, p) && p[0] in reg.registered
    ensures Resolvable(u, p[|p| - 1])
    decreases |p|
  {
    if |p| > 1 {
      assert Edge(u, p[0], p[1]);
      var i :| 0 <= i < |reg.files| && reg.files[i] == p[0];
      assert Available(u, reg.files[..i], p[1]);
      if p[1] in u.local {
        TailIsPath(u, p);
        RegisteredImportsResolve(u, reg, p[1..]);
      } else {
        assert |p| > 2 ==> Edge(u, p[1], p[2]);
      }
    }
  }

  // ---------------------------------------------------------------- one call

  /** A missing file was neither received nor is it well known; one that cannot be built was received. */
  ghost predicate Refused(u: Universe, e: Refusal) {
    match e
    case Missing(n) => n !in u.local && n !in u.wellKnown
    case Unbuildable(n) => n in u.local && n !in u.buildable
  }

  /** Visit keeps the invariant, only adds names reachable from its argument, marks it on
      success, and on failure points to a reachable name that does not resolve. */
  lemma {:induction false} VisitKeeps(u: Universe, depth: nat, reg: Registry, name: string)
    requires Valid(u, reg)
    ensures var o := Visit(u, depth, reg, name);
            && (!o.TooDeep? ==> Valid(u, o.reg) && Grows(reg, o.reg))
            && (!o.TooDeep? ==> forall n :: n in o.reg.registered && n !in reg.registered ==> Reaches(u, name, n))
            && (o.Done? ==> name in o.reg.registered)
            && (o.Failed? ==> Reaches(u, name, o.error.name) && Refused(u, o.error))
    decreases depth, 0
  {
    ReachesSelf(u, name);
    if name !in reg.registered && name in u.local && depth > 0 {
      var deps := u.local[name].deps;
      VisitAllKeeps(u, depth - 1, reg, deps);
      var o := VisitAll(u, depth - 1, reg, deps);
      forall d, n | d in deps && Reaches(u, d, n) ensures Reaches(u, name, n) {
        EdgeReaches(u, name, d, n);
      }
      if o.Done? {
        if name in o.reg.files {
          assert o.reg.registered + {name} == o.reg.registered;
        } else if name in u.buildable {
          AddFile(u, o.reg, name);
        }
      }
    }
  }

  lemma AddFile(u: Universe, reg: Registry, name: string)
    requires Valid(u, reg) && name in u.local && name in u.buildable && name !in reg.files
    requires forall d :: d in u.local[name].deps ==> d in reg.registered
    ensures Valid(u, Registry(reg.registered + {name}, reg.files + [name]))
  {
    forall d | Edge(u, name, d) ensures Available(u, reg.files, d) {
      assert Resolvable(u, d);
    }
    TopologicalAppend(u, reg.files, name);
  }

  lemma {:induction false} VisitAllKeeps(u: Universe, depth: nat, reg: Registry, names: seq<string>)
    requires Valid(u, reg)
    ensures var o := VisitAll(u, depth, reg, names);
            && (!o.TooDeep? ==> Valid(u, o.reg) && Grows(reg, o.reg))
            && (!o.TooDeep? ==> forall n :: n in o.reg.registered && n !in reg.registered ==> ReachedFrom(u, names, n))
            && (o.Done? ==> forall n :: n in names ==> n in o.reg.registered)
            && (o.Failed? ==> ReachedFrom(u, names, o.error.name) && Refused(u, o.error))
    decreases depth, 1 + |names|
  {
    if names != [] {
      VisitKeeps(u, depth, reg, names[0]);
      var o := Visit(u, depth, reg, names[0]);
      if o.Done? {
        VisitAllKeeps(u, depth, o.reg, names[1..]);
        assert forall n :: n in names[1..] ==> n in names;
      }
    }
  }

  /** On every run that gets past a file's imports the file is not yet in the local set, so
      the "already registered in the local set" branch is never taken. */
  lemma SkipBranchNeverTaken(u: Universe, depth: nat, reg: Registry, name: string)
    requires Valid(u, reg) && name in u.local && name !in reg.registered
    requires VisitAll(u, depth, reg, u.local[name].deps).Done?
    ensures name !in VisitAll(u, depth, reg, u.local[name].deps).reg.files
  {
    var deps := u.local[name].deps;
    VisitAllKeeps(u, depth, reg, deps);
    var after := VisitAll(u, depth, reg, deps).reg;
    if name in after.files {
      var d :| d in deps && Reaches(u, d, name);
      assert Edge(u, name, d);
      RegisteredNotOnCycle(u, after, name);
    }
  }

  // ---------------------------------------------------------------- how deep a run goes

  /** Running out of depth exhibits an import chain of that many local files. */
  lemma {:induction false} TooDeepHasPath(u: Universe, depth: nat, reg: Registry, name: string) returns (p: seq<string>)
    requires Visit(u, depth, reg, name).TooDeep?
    ensures |p| == depth + 1 && IsPath(u, p) && p[0] == name
    ensures forall i :: 0 <= i < |p| ==> p[i] in u.local
    decreases depth, 0
  {
    if depth == 0 {
      p := [name];
    } else {
      var d, q := TooDeepHasPathAll(u, depth - 1, reg, u.local[name].deps);
      p := [name] + q;
      forall i | 0 <= i < |p| - 1 ensures Edge(u, p[i], p[i + 1]) {
        if i > 0 { assert Edge(u, q[i - 1], q[i]); }
      }
    }
  }

  lemma {:induction false} TooDeepHasPathAll(u: Universe, depth: nat, reg: Registry, names: seq<string>)
    returns (d: string, p: seq<string>)
    requires VisitAll(u, depth, reg, names).TooDeep?
    ensures d in names
    ensures |p| == depth + 1 && IsPath(u, p) && p[0] == d
    ensures forall i :: 0 <= i < |p| ==> p[i] in u.local
    decreases depth, 1 + |names|
  {
    var o := Visit(u, depth, reg, names[0]);
    if o.TooDeep? {
      d := names[0];
      p := TooDeepHasPath(u, depth, reg, d);
    } else {
      d, p := TooDeepHasPathAll(u, depth, o.reg, names[1..]);
    }
  }

  /** Pigeonhole: more entries than names means one name occurs twice. */
  lemma {:induction false} Repeats(p: seq<string>, names: set<string>) returns (i: nat, j: nat)
    requires |p| > |names| && forall k :: 0 <= k < |p| ==> p[k] in names
    ensures i < j < |p| && p[i] == p[j]
    decreases |p|
  {
    var last := |p| - 1;
    if k :| 0 <= k < last && p[k] == p[last] {
      i, j := k, last;
    } else {
      assert |names - {p[last]}| == |names| - 1;
      i, j := Repeats(p[..last], names - {p[last]});
    }
  }

  lemma SubpathReaches(u: Universe, p: seq<string>, i: nat, j: nat)
    requires IsPath(u, p) && i <= j < |p|
    ensures Reaches(u, p[i], p[j])
  {
    var q := p[i..j + 1];
    forall x | 0 <= x < |q| - 1 ensures Edge(u, q[x], q[x + 1]) {
      assert Edge(u, p[i + x], p[i + x + 1]);
    }
    assert Connects(u, q, p[i], p[j]);
  }

  /** A run deeper than there are local files is going around a cycle. */
  lemma TooDeepFindsCycle(u: Universe, roots: seq<string>, reg: Registry) returns (n: string)
    requires VisitAll(u, |u.local|, reg, roots).TooDeep?
    ensures ReachedFrom(u, roots, n) && OnCycle(u, n)
  {
    var r, p := TooDeepHasPathAll(u, |u.local|, reg, roots);
    var i, j := Repeats(p, u.local.Keys);
    n := p[i];
    SubpathReaches(u, p, 0, i);
    SubpathReaches(u, p, i + 1, j);
    assert Edge(u, n, p[i + 1]);
  }

  /** On an acyclic import graph, a recursion as deep as there are local files suffices. */
  lemma AcyclicTerminates(u: Universe, roots: seq<string>, reg: Registry)
    requires Acyclic(u, roots)
    ensures !VisitAll(u, |u.local|, reg, roots).TooDeep?
  {
    if VisitAll(u, |u.local|, reg, roots).TooDeep? {
      var n := TooDeepFindsCycle(u, roots, reg);
    }
  }

  /** Depth is only a bound on the recursion: once it suffices, more of it changes nothing. */
  lemma {:induction false} DeeperIsSame(u: Universe, d: nat, e: nat, reg: Registry, name: string)
    requires d <= e && !Visit(u, d, reg, name).TooDeep?
    ensures Visit(u, e, reg, name) == Visit(u, d, reg, name)
    decreases d, 0
  {
    if name !in reg.registered && name in u.local {
      DeeperIsSameAll(u, d - 1, e - 1, reg, u.local[name].deps);
    }
  }

  lemma {:induction false} DeeperIsSameAll(u: Universe, d: nat, e: nat, reg: Registry, names: seq<string>)
    requires d <= e && !VisitAll(u, d, reg, names).TooDeep?
    ensures VisitAll(u, e, reg, names) == VisitAll(u, d, reg, names)
    decreases d, 1 + |names|
  {
    if names != [] {
      DeeperIsSame(u, d, e, reg, names[0]);
      var o := Visit(u, d, reg, names[0]);
      if o.Done? { DeeperIsSameAll(u, d, e, o.reg, names[1..]); }
    }
  }

  // ---------------------------------------------------------------- whole runs

  ghost predicate SucceedsAt(u: Universe, roots: seq<string>, depth: nat) {
    VisitAll(u, depth, EMPTY_REGISTRY, roots).Done?
  }

  /** A successful run proves its import graph sound: everything reachable resolves and
      nothing reachable lies on a cycle, whatever depth it used. */
  lemma SuccessIsSound(u: Universe, roots: seq<string>, depth: nat)
    requires SucceedsAt(u, roots, depth)
    ensures AllResolvable(u, roots) && Acyclic(u, roots)
  {
    VisitAllKeeps(u, depth, EMPTY_REGISTRY, roots);
    var reg := VisitAll(u, depth, EMPTY_REGISTRY, roots).reg;
    forall n | ReachedFrom(u, roots, n) ensures Resolvable(u, n) && !OnCycle(u, n) {
      var r :| r in roots && Reaches(u, r, n);
      var p :| Connects(u, p, r, n);
      RegisteredImportsResolve(u, reg, p);
      if OnCycle(u, n) {
        RegisteredReaches(u, reg, p);
        RegisteredNotOnCycle(u, reg, n);
      }
    }
  }

  lemma {:induction false} RegisteredReaches(u: Universe, reg: Registry, p: seq<string>)
    requires Valid(u, reg) && IsPath(u, p) && p[0] in reg.registered && p[|p| - 1] in u.local
    ensures p[|p| - 1] in reg.registered
    decreases |p|
  {
    if |p| > 1 {
      assert Edge(u, p[0], p[1]);
      var i :| 0 <= i < |reg.files| && reg.files[i] == p[0];
      var j := PathDescends(u, reg, p, i);
    }
  }

  /** Some recursion depth makes the build succeed if and only if every file reachable from
      the roots resolves and none of them imports itself, directly or not. */
  lemma SucceedsIff(u: Universe, roots: seq<string>)
    ensures (exists depth: nat :: SucceedsAt(u, roots, depth))
            <==> AllResolvable(u, roots) && Acyclic(u, roots)
  {
    if depth: nat :| SucceedsAt(u, roots, depth) {
      SuccessIsSound(u, roots, depth);
    }
    if AllResolvable(u, roots) && Acyclic(u, roots) {
      AcyclicTerminates(u, roots, EMPTY_REGISTRY);
      VisitAllKeeps(u, |u.local|, EMPTY_REGISTRY, roots);
      assert SucceedsAt(u, roots, |u.local|);
    }
  }

  /** When everything resolves, the recursion exhausts every depth if and only if some
      reachable file lies on an import cycle. */
  lemma ResolvedDivergesIff(u: Universe, roots: seq<string>)
    requires AllResolvable(u, roots)
    ensures (forall depth: nat :: VisitAll(u, depth, EMPTY_REGISTRY, roots).TooDeep?)
            <==> !Acyclic(u, roots)
  {
    if !Acyclic(u, roots) {
      forall depth: nat ensures VisitAll(u, depth, EMPTY_REGISTRY, roots).TooDeep? {
        VisitAllKeeps(u, depth, EMPTY_REGISTRY, roots);
        if SucceedsAt(u, roots, depth) { SuccessIsSound(u, roots, depth); }
      }
    } else {
      AcyclicTerminates(u, roots, EMPTY_REGISTRY);
    }
  }

  // ---------------------------------------------------------------- exactly when it terminates

  /** Everything n imports resolves and is on no cycle. */
  ghost predicate Clean(u: Universe, n: string) {
    AllResolvable(u, [n]) && Acyclic(u, [n])
  }

  /** n is the first of the names that is not clean. */
  ghost predicate FirstUnclean(u: Universe, names: seq<string>, n: string) {
    exists i :: 0 <= i < |names| && names[i] == n && !Clean(u, n) && AllClean(u, names[..i])
  }

  ghost predicate AllClean(u: Universe, names: seq<string>) {
    forall n :: n in names ==> Clean(u, n)
  }

  /** The recursion goes no further below n: it is not received, or all its imports are clean. */
  ghost predicate Stops(u: Universe, n: string) {
    n in u.local ==> AllClean(u, u.local[n].deps)
  }

  /** A chain that always steps to the first unclean import, down to a file where it stops. */
  ghost predicate Descent(u: Universe, p: seq<string>, n: string) {
    && |p| > 0 && p[0] == n && Stops(u, p[|p| - 1])
    && forall i :: 0 <= i < |p| - 1 ==> StepsTo(u, p[i], p[i + 1])
  }

  ghost predicate StepsTo(u: Universe, a: string, b: string) {
    a in u.local && FirstUnclean(u, u.local[a].deps, b)
  }

  /** The recursion from n runs into a file that cannot be registered before it runs into a cycle. */
  ghost predicate FailsFrom(u: Universe, n: string) {
    exists p :: Descent(u, p, n)
  }

  lemma RegisteredIsClean(u: Universe, reg: Registry, n: string)
    requires Valid(u, reg) && n in reg.registered
    ensures Clean(u, n)
  {
    forall m | ReachedFrom(u, [n], m) ensures Resolvable(u, m) && !OnCycle(u, m) {
      var p :| Connects(u, p, n, m);
      RegisteredImportsResolve(u, reg, p);
      if OnCycle(u, m) {
        RegisteredReaches(u, reg, p);
        RegisteredNotOnCycle(u, reg, m);
      }
    }
  }

  lemma CleanIsRegistered(u: Universe, depth: nat, reg: Registry, n: string)
    requires Valid(u, reg) && Clean(u, n)
    ensures !Visit(u, depth, reg, n).Failed?
    ensures depth >= |u.local| ==> Visit(u, depth, reg, n).Done?
  {
    VisitKeeps(u, depth, reg, n);
    var o := Visit(u, depth, reg, n);
    assert o.Failed? ==> ReachedFrom(u, [n], o.error.name) by { assert n in [n]; }
    if depth >= |u.local| {
      AcyclicTerminates(u, [n], reg);
      assert VisitAll(u, |u.local|, reg, [n])
          == var v := Visit(u, |u.local|, reg, n); if v.Done? then VisitAll(u, |u.local|, v.reg, []) else v;
      DeeperIsSame(u, |u.local|, depth, reg, n);
    }
  }

  /** A visit of an unclean name never succeeds. */
  lemma UncleanNeverDone(u: Universe, depth: nat, reg: Registry, n: string)
    requires Valid(u, reg) && !Clean(u, n)
    ensures !Visit(u, depth, reg, n).Done? && n !in reg.registered
  {
    VisitKeeps(u, depth, reg, n);
    var o := Visit(u, depth, reg, n);
    if o.Done? { RegisteredIsClean(u, o.reg, n); }
  }

  /** Visiting clean names succeeds, given the depth. */
  lemma {:induction false} AllCleanDone(u: Universe, depth: nat, reg: Registry, names: seq<string>)
    requires Valid(u, reg) && AllClean(u, names) && depth >= |u.local|
    ensures VisitAll(u, depth, reg, names).Done?
    decreases |names|
  {
    if names != [] {
      CleanIsRegistered(u, depth, reg, names[0]);
      VisitKeeps(u, depth, reg, names[0]);
      AllCleanDone(u, depth, Visit(u, depth, reg, names[0]).reg, names[1..]);
    }
  }

  lemma FirstUncleanTail(u: Universe, names: seq<string>, n: string)
    requires FirstUnclean(u, names, n)
    ensures names != [] && (names[0] == n || (Clean(u, names[0]) && FirstUnclean(u, names[1..], n)))
  {
    var i :| 0 <= i < |names| && names[i] == n && !Clean(u, n) && AllClean(u, names[..i]);
    if i > 0 {
      assert names[0] in names[..i];
      assert names[1..][i - 1] == n;
      forall m | m in names[1..][..i - 1] ensures m in names[..i] {
        var j :| 0 <= j < i - 1 && names[1..][j] == m;
        assert names[..i][j + 1] == m;
      }
    }
  }

  /** If the loop terminates, so does the visit of its first unclean name. */
  lemma {:induction false} FirstUncleanVisited(u: Universe, depth: nat, reg: Registry, names: seq<string>, n: string)
    returns (reg': Registry)
    requires Valid(u, reg) && FirstUnclean(u, names, n) && !VisitAll(u, depth, reg, names).TooDeep?
    ensures Valid(u, reg') && !Visit(u, depth, reg', n).TooDeep?
    decreases |names|
  {
    FirstUncleanTail(u, names, n);
    if names[0] == n {
      reg' := reg;
    } else {
      CleanIsRegistered(u, depth, reg, names[0]);
      VisitKeeps(u, depth, reg, names[0]);
      reg' := FirstUncleanVisited(u, depth, Visit(u, depth, reg, names[0]).reg, names[1..], n);
    }
  }

  ghost predicate FailsWith(o: Outcome, name: string) {
    o.Failed? && o.error.name == name
  }

  /** If the visit of its first unclean name fails the same way from every valid registry, so does
      the loop. */
  lemma {:induction false} FirstUncleanDecides(
    u: Universe, depth: nat, reg: Registry, names: seq<string>, n: string, culprit: string)
    requires Valid(u, reg) && FirstUnclean(u, names, n) && depth >= |u.local|
    requires forall r :: Valid(u, r) ==> FailsWith(Visit(u, depth, r, n), culprit)
    ensures FailsWith(VisitAll(u, depth, reg, names), culprit)
    decreases |names|
  {
    FirstUncleanTail(u, names, n);
    if names[0] != n {
      CleanIsRegistered(u, depth, reg, names[0]);
      VisitKeeps(u, depth, reg, names[0]);
      FirstUncleanDecides(u, depth, Visit(u, depth, reg, names[0]).reg, names[1..], n, culprit);
    }
  }

  /** Not all clean means that some name is the first unclean one. */
  lemma {:induction false} FindUnclean(u: Universe, names: seq<string>) returns (n: string)
    requires !AllClean(u, names)
    ensures FirstUnclean(u, names, n)
    decreases |names|
  {
    var init := names[..|names| - 1];
    if AllClean(u, init) {
      n := names[|names| - 1];
      assert !Clean(u, n) by { assert forall m :: m in names ==> m in init || m == n; }
      assert names[|names| - 1] == n && names[..|names| - 1] == init;
    } else {
      n := FindUnclean(u, init);
      var i :| 0 <= i < |init| && init[i] == n && !Clean(u, n) && AllClean(u, init[..i]);
      assert names[i] == n && names[..i] == init[..i];
    }
  }

  /** A visit that terminates descends to a file where it stops. */
  lemma {:induction false} TerminatingDescends(u: Universe, depth: nat, reg: Registry, n: string)
    returns (p: seq<string>)
    requires Valid(u, reg) && !Clean(u, n) && !Visit(u, depth, reg, n).TooDeep?
    ensures Descent(u, p, n)
    decreases depth
  {
    p := [n];
    if !Stops(u, n) {
      UncleanNeverDone(u, depth, reg, n);
      var deps := u.local[n].deps;
      var m := FindUnclean(u, deps);
      var reg' := FirstUncleanVisited(u, depth - 1, reg, deps, m);
      var q := TerminatingDescends(u, depth - 1, reg', m);
      p := [n] + q;
      forall i | 0 <= i < |p| - 1 ensures StepsTo(u, p[i], p[i + 1]) {
        if i > 0 { assert StepsTo(u, q[i - 1], q[i]); }
      }
    }
  }

  /** A descent of some length gives a depth that suffices, from every valid registry, and the
      error reported is about the file where the descent stops. */
  lemma {:induction false} DescentTerminates(u: Universe, p: seq<string>, n: string, reg: Registry)
    requires Descent(u, p, n) && !Clean(u, n) && Valid(u, reg)
    ensures FailsWith(Visit(u, |u.local| + |p|, reg, n), p[|p| - 1])
    decreases |p|
  {
    UncleanNeverDone(u, |u.local| + |p|, reg, n);
    var depth := |u.local| + |p| - 1;
    assert |p| > 1 ==> StepsTo(u, p[0], p[1]);
    if n in u.local {
      var deps := u.local[n].deps;
      if |p| == 1 {
        AllCleanDone(u, depth, reg, deps);
        SkipBranchNeverTaken(u, depth, reg, n);
      } else {
        var m, q := p[1], p[1..];
        assert Descent(u, q, m) by {
          forall i | 0 <= i < |q| - 1 ensures StepsTo(u, q[i], q[i + 1]) {
            assert StepsTo(u, p[i + 1], p[i + 2]);
          }
        }
        forall r | Valid(u, r) ensures FailsWith(Visit(u, depth, r, m), p[|p| - 1]) {
          DescentTerminates(u, q, m, r);
        }
        FirstUncleanDecides(u, depth, reg, deps, m, p[|p| - 1]);
      }
    }
  }

  /** A call for a name that is not clean terminates if and only if its descent stops. */
  lemma VisitTerminatesIff(u: Universe, reg: Registry, n: string)
    requires Valid(u, reg) && !Clean(u, n)
    ensures (exists depth: nat :: !Visit(u, depth, reg, n).TooDeep?) <==> FailsFrom(u, n)
  {
    if depth: nat :| !Visit(u, depth, reg, n).TooDeep? {
      var p := TerminatingDescends(u, depth, reg, n);
    }
    if p :| Descent(u, p, n) {
      DescentTerminates(u, p, n, reg);
    }
  }

  /** The import graph decides: all roots are clean, or the first that is not clean fails. */
  ghost predicate Terminating(u: Universe, roots: seq<string>) {
    AllClean(u, roots) || exists r :: FirstUnclean(u, roots, r) && FailsFrom(u, r)
  }

  /** The build recurses beyond every depth if and only if the descent from the first root that
      is not clean never stops, for every response. */
  lemma DivergesIff(u: Universe, roots: seq<string>)
    ensures (forall depth: nat :: VisitAll(u, depth, EMPTY_REGISTRY, roots).TooDeep?) <==> !Terminating(u, roots)
  {
    if depth: nat :| !VisitAll(u, depth, EMPTY_REGISTRY, roots).TooDeep? {
      if !AllClean(u, roots) {
        var r := FindUnclean(u, roots);
        UncleanAt(u, roots, r);
        var reg := FirstUncleanVisited(u, depth, EMPTY_REGISTRY, roots, r);
        VisitTerminatesIff(u, reg, r);
      }
    }
    if AllClean(u, roots) {
      AllCleanDone(u, |u.local|, EMPTY_REGISTRY, roots);
    } else if r :| FirstUnclean(u, roots, r) && FailsFrom(u, r) {
      var p :| Descent(u, p, r);
      DescentNamesCulprit(u, roots, r, p);
    }
  }

  /** The build fails, naming the file at which the descent from its first unclean root stops. */
  lemma DescentNamesCulprit(u: Universe, roots: seq<string>, r: string, p: seq<string>)
    requires FirstUnclean(u, roots, r) && Descent(u, p, r)
    ensures FailsWith(VisitAll(u, |u.local| + |p|, EMPTY_REGISTRY, roots), p[|p| - 1])
  {
    UncleanAt(u, roots, r);
    var depth, culprit := |u.local| + |p|, p[|p| - 1];
    forall reg | Valid(u, reg) ensures FailsWith(Visit(u, depth, reg, r), culprit) {
      DescentTerminates(u, p, r, reg);
    }
    FirstUncleanDecides(u, depth, EMPTY_REGISTRY, roots, r, culprit);
  }

  lemma UncleanAt(u: Universe, names: seq<string>, n: string)
    requires FirstUnclean(u, names, n)
    ensures !Clean(u, n) && n in names
  {
  }

  /** A file that imports itself is never registered; its registration diverges exactly when no
      import before the cycle makes it fail, so in particular when all the files it imports
      resolve, or when the imports listed before itself are clean. */
  lemma SelfImportDiverges(u: Universe, name: string)
    requires Edge(u, name, name)
    ensures forall depth: nat :: !Visit(u, depth, EMPTY_REGISTRY, name).Done?
    ensures (forall depth: nat :: Visit(u, depth, EMPTY_REGISTRY, name).TooDeep?) <==> !FailsFrom(u, name)
    ensures FirstUnclean(u, u.local[name].deps, name) || AllResolvable(u, [name]) ==> !FailsFrom(u, name)
  {
    ReachesSelf(u, name);
    assert ReachedFrom(u, [name], name) && OnCycle(u, name) && !Clean(u, name);
    VisitTerminatesIff(u, EMPTY_REGISTRY, name);
    forall depth: nat ensures !Visit(u, depth, EMPTY_REGISTRY, name).Done? {
      UncleanNeverDone(u, depth, EMPTY_REGISTRY, name);
    }
    if p :| Descent(u, p, name) {
      if FirstUnclean(u, u.local[name].deps, name) { DescentStays(u, p, name, |p| - 1); }
      if AllResolvable(u, [name]) {
        ResolvedDivergesIff(u, [name]);
        VisitOne(u, |u.local| + |p|, EMPTY_REGISTRY, name);
        DescentTerminates(u, p, name, EMPTY_REGISTRY);
      }
    }
  }

  lemma VisitOne(u: Universe, depth: nat, reg: Registry, name: string)
    ensures VisitAll(u, depth, reg, [name]) == Visit(u, depth, reg, name)
  {
    var o := Visit(u, depth, reg, name);
    assert VisitAll(u, depth, reg, [name]) == if o.Done? then VisitAll(u, depth, o.reg, []) else o;
  }

  lemma OneFirstUnclean(u: Universe, names: seq<string>, a: string, b: string)
    requires FirstUnclean(u, names, a) && FirstUnclean(u, names, b)
    ensures a == b
  {
    var i :| 0 <= i < |names| && names[i] == a && !Clean(u, a) && AllClean(u, names[..i]);
    var j :| 0 <= j < |names| && names[j] == b && !Clean(u, b) && AllClean(u, names[..j]);
    var beforeA, beforeB := names[..i], names[..j];
    assert i < j ==> a in beforeB;
    assert j < i ==> b in beforeA;
  }

  lemma {:induction false} DescentStays(u: Universe, p: seq<string>, name: string, i: nat)
    requires Descent(u, p, name) && StepsTo(u, name, name) && i < |p|
    ensures p[i] == name
  {
    if i > 0 {
      DescentStays(u, p, name, i - 1);
      assert StepsTo(u, p[i - 1], p[i - 1 + 1]);
      OneFirstUnclean(u, u.local[name].deps, name, p[i]);
    }
  }

  // ---------------------------------------------------------------- the code

  /** The mutable state of the closure: the memo map and the registry being filled. */
  class Builder {
    const u: Universe
    var registered: set<string>
    var files: seq<string>

    constructor (u: Universe)
      ensures this.u == u && State() == EMPTY_REGISTRY
    {
      this.u := u;
      registered, files := {}, [];
    }

    function State(): Registry
      reads this
    {
      Registry(registered, files)
    }

    /** The recursive closure, on any call that terminates (at recursion depth `depth`).
        Between calls the invariant holds, also after an error. */
    method Register(name: string, ghost depth: nat) returns (err: Option<Refusal>)
      requires Valid(u, State())
      requires !Visit(u, depth, State(), name).TooDeep?
      modifies this
      ensures Visit(u, depth, old(State()), name)
              == if err.None? then Done(State()) else Failed(State(), err.value)
      ensures Valid(u, State()) && Grows(old(State()), State())
      ensures err.None? ==> name in registered
      decreases depth
    {
      VisitKeeps(u, depth, State(), name);
      if name in registered {
        return None;
      }
      if name !in u.local {
        if name in u.wellKnown {
          registered := registered + {name};
          return None;
        }
        return Some(Missing(name));
      }
      var deps := u.local[name].deps;
      ghost var start := State();
      VisitAllKeeps(u, depth - 1, start, deps);
      for i := 0 to |deps|
        invariant Valid(u, State())
        invariant VisitAll(u, depth - 1, start, deps) == VisitAll(u, depth - 1, State(), deps[i..])
      {
        assert deps[i..][1..] == deps[i + 1..];
        err := Register(deps[i], depth - 1);
        if err.Some? {
          return;
        }
      }
      if name in files {
        registered := registered + {name};
        return None;
      }
      if name !in u.buildable {
        return Some(Unbuildable(name));
      }
      files := files + [name];
      registered := registered + {name};
      return None;
    }
  }

  const MAX_REFLECTION_RESPONSE_BYTES := 4 * 1024 * 1024

  /** One serialized descriptor: its length, and what proto.Unmarshal makes of it. */
  datatype Blob = Blob(size: nat, proto: Option<FileProto>)

  datatype BuildError = TooLarge | Malformed | Rejected(refusal: Refusal)

  function TotalSize(blobs: seq<Blob>): nat {
    if blobs == [] then 0 else TotalSize(blobs[..|blobs| - 1]) + blobs[|blobs| - 1].size
  }

  /** The size of a response is the sum over its descriptors. */
  lemma {:induction false} SizesAdd(a: seq<Blob>, b: seq<Blob>)
    ensures TotalSize(a + b) == TotalSize(a) + TotalSize(b)
    ensures TotalSize([]) == 0 && forall x :: TotalSize([x]) == x.size
    decreases |b|
  {
    forall x ensures TotalSize([x]) == x.size { assert [x][..0] == []; }
    if b == [] {
      assert a + b == a;
    } else {
      assert (a + b)[..|a + b| - 1] == a + b[..|b| - 1];
      SizesAdd(a, b[..|b| - 1]);
    }
  }

  ghost predicate WellFormed(blobs: seq<Blob>) {
    forall i :: 0 <= i < |blobs| ==> blobs[i].proto.Some?
  }

  ghost function Names(blobs: seq<Blob>): seq<string>
    requires WellFormed(blobs)
  {
    seq(|blobs|, i requires 0 <= i < |blobs| => blobs[i].proto.value.name)
  }

  /** byName: for each name, the last descriptor that carries it. */
  function Index(blobs: seq<Blob>): map<string, FileProto>
    requires WellFormed(blobs)
  {
    if blobs == [] then map[]
    else
      var p := blobs[|blobs| - 1].proto.value;
      Index(blobs[..|blobs| - 1])[p.name := p]
  }

  lemma {:induction false} IndexDomain(blobs: seq<Blob>)
    requires WellFormed(blobs)
    ensures forall n :: n in Index(blobs) <==> n in Names(blobs)
    decreases |blobs|
  {
    if blobs != [] {
      var init := blobs[..|blobs| - 1];
      IndexDomain(init);
      assert Names(blobs) == Names(init) + [blobs[|blobs| - 1].proto.value.name];
    }
  }

  lemma {:induction false} IndexKeepsLast(blobs: seq<Blob>, i: nat)
    requires WellFormed(blobs) && i < |blobs|
    requires forall j :: i < j < |blobs| ==> blobs[j].proto.value.name != blobs[i].proto.value.name
    ensures GetOr(Index(blobs), blobs[i].proto.value.name, blobs[0].proto.value) == blobs[i].proto.value
    ensures blobs[i].proto.value.name in Index(blobs)
    decreases |blobs|
  {
    if i < |blobs| - 1 {
      var init := blobs[..|blobs| - 1];
      assert init[i] == blobs[i];
      IndexKeepsLast(init, i);
    }
  }

  /** What the decoded response and the two global oracles amount to. */
  ghost function UniverseOf(blobs: seq<Blob>, wellKnown: set<string>, buildable: set<string>): Universe
    requires WellFormed(blobs)
  {
    Universe(Index(blobs), wellKnown, buildable)
  }

  method TotalBytes(blobs: seq<Blob>) returns (total: nat)
    ensures total == TotalSize(blobs)
  {
    total := 0;
    for i := 0 to |blobs|
      invariant total == TotalSize(blobs[..i])
    {
      assert blobs[..i + 1][..i] == blobs[..i];
      total := total + blobs[i].size;
    }
    assert blobs[..|blobs|] == blobs;
  }

  /** Unmarshals every descriptor and indexes them by name. */
  method Decode(blobs: seq<Blob>) returns (ok: bool, index: map<string, FileProto>, names: seq<string>)
    ensures ok <==> WellFormed(blobs)
    ensures ok ==> index == Index(blobs) && names == Names(blobs)
  {
    index, names := map[], [];
    for i := 0 to |blobs|
      invariant WellFormed(blobs[..i]) && index == Index(blobs[..i]) && names == Names(blobs[..i])
    {
      if blobs[i].proto.None? {
        return false, map[], [];
      }
      assert blobs[..i + 1][..i] == blobs[..i];
      var p := blobs[i].proto.value;
      index := index[p.name := p];
      names := names + [p.name];
    }
    assert blobs[..|blobs|] == blobs;
    ok := true;
  }

  /** The loop over the roots. */
  method RegisterRoots(b: Builder, names: seq<string>, ghost depth: nat) returns (err: Option<Refusal>)
    requires b.State() == EMPTY_REGISTRY && !VisitAll(b.u, depth, EMPTY_REGISTRY, names).TooDeep?
    modifies b
    ensures VisitAll(b.u, depth, EMPTY_REGISTRY, names)
            == if err.None? then Done(b.State()) else Failed(b.State(), err.value)
  {
    for i := 0 to |names|
      invariant Valid(b.u, b.State())
      invariant VisitAll(b.u, depth, EMPTY_REGISTRY, names) == VisitAll(b.u, depth, b.State(), names[i..])
    {
      assert names[i..][1..] == names[i + 1..];
      err := b.Register(names[i], depth);
      if err.Some? {
        return;
      }
    }
    err := None;
  }

  /** buildFileSet, on every response for which the recursion terminates (`AcyclicTerminates`
      gives such a depth for every acyclic one).  It succeeds exactly when the response is
      within the size cap, every descriptor decodes and every transitive import resolves; the
      registry then holds every received name once, each after its imports. */
  method BuildFileSet(blobs: seq<Blob>, wellKnown: set<string>, buildable: set<string>, ghost depth: nat)
    returns (r: Result<seq<string>, BuildError>)
    requires TotalSize(blobs) <= MAX_REFLECTION_RESPONSE_BYTES && WellFormed(blobs) ==>
               !VisitAll(UniverseOf(blobs, wellKnown, buildable), depth, EMPTY_REGISTRY, Names(blobs)).TooDeep?
    ensures r == Failure(TooLarge) <==> TotalSize(blobs) > 4_194_304
    ensures r == Failure(Malformed) <==> TotalSize(blobs) <= 4_194_304 && !WellFormed(blobs)
    ensures r.Success? <==> TotalSize(blobs) <= 4_194_304 && WellFormed(blobs)
                            && AllResolvable(UniverseOf(blobs, wellKnown, buildable), Names(blobs))
    ensures r.Failure? && r.error.Rejected? ==>
              var u, culprit := UniverseOf(blobs, wellKnown, buildable), r.error.refusal;
              && ReachedFrom(u, Names(blobs), culprit.name)
              && (culprit.Missing? ==> culprit.name !in Names(blobs) && culprit.name !in wellKnown)
              && (culprit.Unbuildable? ==> culprit.name in Names(blobs) && culprit.name !in buildable)
    ensures r.Success? ==>
              && Distinct(r.value)
              && Topological(UniverseOf(blobs, wellKnown, buildable), r.value)
              && (forall n :: n in r.value <==> n in Names(blobs))
  {
    var total := TotalBytes(blobs);
    if total > MAX_REFLECTION_RESPONSE_BYTES {
      return Failure(TooLarge);
    }
    var ok, index, names := Decode(blobs);
    if !ok {
      return Failure(Malformed);
    }
    var b := new Builder(Universe(index, wellKnown, buildable));
    VisitAllKeeps(b.u, depth, EMPTY_REGISTRY, names);
    var err := RegisterRoots(b, names, depth);
    IndexDomain(blobs);
    if err.Some? {
      return Failure(Rejected(err.value));
    }
    SuccessIsSound(b.u, names, depth);
    return Success(b.files);
  }
}
