/**
  The hand-written deep copy of pkg/api/v1alpha1/deepcopy.go on the heap.  Slices and maps are
  objects shared by reference, either of which may be nil; structs are values that refer to
  them.  Each slice carries, as a ghost field, the set of objects reachable through it.
  Object metadata is treated as a value; its own copy is library code.
 */
module DeepCopy {

  /** A Go map[string]string. */
  class StrMap {
    var entries: map<string, string>

    constructor ()
      ensures entries == map[]
    {
      entries := map[];
    }
  }

  /** The fields of a WarmupRequest that are plain values. */
  datatype Scalars = Scalars(
    name: string, protocol: string, endpoint: string, verb: string, body: string, grpcMethod: string,
    grpcPayload: string, count: int, expectedStatus: int)

  datatype Request = Request(scalars: Scalars, headers: StrMap?, extract: StrMap?)

  ghost function One(o: object?): set<object> {
    if o == null then {} else {o}
  }

  ghost function RequestRefs(r: Request): set<object> {
    One(r.headers) + One(r.extract)
  }

  ghost predicate EqualMap(a: StrMap?, b: StrMap?)
    reads One(a), One(b)
  {
    (a == null <==> b == null) && (a != null ==> a.entries == b.entries)
  }

  ghost predicate EqualRequest(a: Request, b: Request)
    reads RequestRefs(a), RequestRefs(b)
  {
    a.scalars == b.scalars && EqualMap(a.headers, b.headers) && EqualMap(a.extract, b.extract)
  }

  /** A []WarmupRequest. */
  class Requests {
    var items: seq<Request>
    ghost var Repr: set<object>

    ghost predicate Valid()
      reads this, Repr
    {
      this in Repr && forall i :: 0 <= i < |items| ==> RequestRefs(items[i]) <= Repr - {this}
    }

    constructor ()
      ensures Valid() && items == [] && Repr == {this}
    {
      items, Repr := [], {this};
    }

    /** Fills the next slot. */
    method Append(r: Request)
      requires Valid() && this !in RequestRefs(r)
      modifies this
      ensures Valid() && items == old(items) + [r] && Repr == old(Repr) + RequestRefs(r)
    {
      items := items + [r];
      Repr := Repr + RequestRefs(r);
    }
  }

  ghost predicate EqualRequests(a: Requests, b: Requests)
    requires a.Valid() && b.Valid()
    reads a, a.Repr, b, b.Repr
  {
    |a.items| == |b.items| && forall i :: 0 <= i < |a.items| ==> EqualRequest(a.items[i], b.items[i])
  }

  datatype Step = Step(name: string, requests: Requests?, timeout: string)

  /** Everything reachable from a step. */
  ghost function StepRefs(s: Step): set<object>
    reads One(s.requests)
  {
    if s.requests == null then {} else {s.requests} + s.requests.Repr
  }

  ghost predicate ValidStep(s: Step)
    reads StepRefs(s)
  {
    s.requests != null ==> s.requests.Valid()
  }

  ghost predicate EqualStep(a: Step, b: Step)
    requires ValidStep(a) && ValidStep(b)
    reads StepRefs(a), StepRefs(b)
  {
    && a.name == b.name && a.timeout == b.timeout
    && (a.requests == null <==> b.requests == null)
    && (a.requests != null ==> EqualRequests(a.requests, b.requests))
  }

  /** A []WarmupStep. */
  class Steps {
    var items: seq<Step>
    ghost var Repr: set<object>

    ghost predicate Valid()
      reads this, Repr
    {
      && this in Repr
      && forall i :: 0 <= i < |items| ==>
           && One(items[i].requests) <= Repr
           && StepRefs(items[i]) <= Repr - {this} && ValidStep(items[i])
    }

    constructor ()
      ensures Valid() && items == [] && Repr == {this}
    {
      items, Repr := [], {this};
    }

    /** Fills the next slot. */
    method Append(s: Step)
      requires Valid() && ValidStep(s) && this !in StepRefs(s)
      modifies this
      ensures Valid() && items == old(items) + [s] && Repr == old(Repr) + StepRefs(s)
    {
      items := items + [s];
      Repr := Repr + StepRefs(s);
    }
  }

  ghost predicate EqualSteps(a: Steps, b: Steps)
    requires a.Valid() && b.Valid()
    reads a, a.Repr, b, b.Repr
  {
    |a.items| == |b.items| && forall i :: 0 <= i < |a.items| ==> EqualStep(a.items[i], b.items[i])
  }

  datatype WarmupConfig = WarmupConfig(meta: string, steps: Steps?, timeout: string)

  ghost function ConfigRefs(w: WarmupConfig): set<object>
    reads One(w.steps)
  {
    if w.steps == null then {} else {w.steps} + w.steps.Repr
  }

  ghost predicate ValidConfig(w: WarmupConfig)
    reads ConfigRefs(w)
  {
    w.steps != null ==> w.steps.Valid()
  }

  ghost predicate EqualConfig(a: WarmupConfig, b: WarmupConfig)
    requires ValidConfig(a) && ValidConfig(b)
    reads ConfigRefs(a), ConfigRefs(b)
  {
    && a.meta == b.meta && a.timeout == b.timeout
    && (a.steps == null <==> b.steps == null)
    && (a.steps != null ==> EqualSteps(a.steps, b.steps))
  }

  /** A []WarmupConfig. */
  class Configs {
    var items: seq<WarmupConfig>
    ghost var Repr: set<object>

    ghost predicate Valid()
      reads this, Repr
    {
      && this in Repr
      && forall i :: 0 <= i < |items| ==>
           && One(items[i].steps) <= Repr
           && ConfigRefs(items[i]) <= Repr - {this} && ValidConfig(items[i])
    }

    constructor ()
      ensures Valid() && items == [] && Repr == {this}
    {
      items, Repr := [], {this};
    }

    /** Fills the next slot. */
    method Append(w: WarmupConfig)
      requires Valid() && ValidConfig(w) && this !in ConfigRefs(w)
      modifies this
      ensures Valid() && items == old(items) + [w] && Repr == old(Repr) + ConfigRefs(w)
    {
      items := items + [w];
      Repr := Repr + ConfigRefs(w);
    }
  }

  ghost predicate EqualConfigs(a: Configs, b: Configs)
    requires a.Valid() && b.Valid()
    reads a, a.Repr, b, b.Repr
  {
    |a.items| == |b.items| && forall i :: 0 <= i < |a.items| ==> EqualConfig(a.items[i], b.items[i])
  }

  // ---------------------------------------------------------------- the copies

  method CopyMap(m: StrMap?) returns (c: StrMap?)
    ensures EqualMap(m, c) && fresh(One(c))
  {
    if m == null {
      return null;
    }
    c := new StrMap();
    var rest := m.entries.Keys;
    while rest != {}
      invariant fresh(c) && rest <= m.entries.Keys
      invariant c.entries == map k | k in m.entries && k !in rest :: m.entries[k]
    {
      var k :| k in rest;
      c.entries := c.entries[k := m.entries[k]];
      rest := rest - {k};
    }
    assert c.entries == m.entries;
  }

  method CopyRequest(r: Request) returns (c: Request)
    ensures EqualRequest(r, c) && fresh(RequestRefs(c))
  {
    var headers := CopyMap(r.headers);
    var extract := CopyMap(r.extract);
    c := Request(r.scalars, headers, extract);
  }

  method CopyRequests(a: Requests) returns (c: Requests)
    requires a.Valid()
    ensures c.Valid() && fresh(c.Repr) && EqualRequests(a, c)
  {
    c := new Requests();
    for i := 0 to |a.items|
      invariant c.Valid() && fresh(c.Repr) && |c.items| == i
      invariant forall j :: 0 <= j < i ==> EqualRequest(a.items[j], c.items[j])
    {
      var r := CopyRequest(a.items[i]);
      c.Append(r);
    }
  }

  method CopyStep(s: Step) returns (c: Step)
    requires ValidStep(s)
    ensures ValidStep(c) && fresh(StepRefs(c)) && EqualStep(s, c)
  {
    if s.requests == null {
      return s;
    }
    var requests := CopyRequests(s.requests);
    c := Step(s.name, requests, s.timeout);
  }

  method CopySteps(a: Steps) returns (c: Steps)
    requires a.Valid()
    ensures c.Valid() && fresh(c.Repr) && EqualSteps(a, c)
  {
    c := new Steps();
    for i := 0 to |a.items|
      invariant c.Valid() && fresh(c.Repr) && |c.items| == i
      invariant forall j :: 0 <= j < i ==> EqualStep(a.items[j], c.items[j])
    {
      var s := CopyStep(a.items[i]);
      c.Append(s);
    }
  }

  /** WarmupConfig.DeepCopyInto, with the spec's copy: equal in value, nil kept apart from
      empty, and nothing mutable shared with the original or with anything older. */
  method CopyConfig(w: WarmupConfig) returns (c: WarmupConfig)
    requires ValidConfig(w)
    ensures ValidConfig(c) && fresh(ConfigRefs(c)) && EqualConfig(w, c)
  {
    if w.steps == null {
      return w;
    }
    var steps := CopySteps(w.steps);
    c := WarmupConfig(w.meta, steps, w.timeout);
  }

  method CopyConfigs(a: Configs) returns (c: Configs)
    requires a.Valid()
    ensures c.Valid() && fresh(c.Repr) && EqualConfigs(a, c)
  {
    c := new Configs();
    for i := 0 to |a.items|
      invariant c.Valid() && fresh(c.Repr) && |c.items| == i
      invariant forall j :: 0 <= j < i ==> EqualConfig(a.items[j], c.items[j])
    {
      var w := CopyConfig(a.items[i]);
      c.Append(w);
    }
  }

  class WarmupConfigList {
    var meta: string
    var items: Configs?

    ghost predicate Valid()
      reads this, One(items), if items == null then {} else items.Repr
    {
      items != null ==> items.Valid() && this !in items.Repr
    }

    /** Writes a deep copy of the list into out, which may be any list object. */
    method DeepCopyInto(out: WarmupConfigList)
      requires Valid() && (items != null ==> out !in items.Repr)
      modifies out
      ensures out.meta == old(meta) && (out.items == null <==> old(items) == null)
      ensures out.items != null ==>
                && old(items).Valid() && out.items.Valid() && fresh(out.items.Repr)
                && EqualConfigs(old(items), out.items)
    {
      out.meta := meta;
      if items == null {
        out.items := null;
      } else {
        var copy := CopyConfigs(items);
        out.items := copy;
      }
    }
  }
}
