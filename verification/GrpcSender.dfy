/**
  GRPCSender.Send (pkg/warmup/grpc_sender.go): lazy dial, lazy reflection lookup cached on
  first success, and a sticky failure flag.  The reference is a sender that looks the method up
  on every call.  The cache is not keyed by method, so the two agree in every environment
  exactly when all calls name the same method.
 */
module GrpcSender {
  import opened Common
  import opened GrpcMethod
  import opened Config

  /** What a method descriptor contributes: its full service name, its name and an identity
      for its input type. */
  datatype Descriptor = Descriptor(service: string, name: string, input: nat)

  function PathOf(d: Descriptor): string {
    "/" + d.service + "/" + d.name
  }

  /** The network as seen through one sender: whether the address can be dialled, what the
      reflection lookup finds, and which payloads unmarshal into a method's input. */
  datatype Net = Net(
    dial: string -> bool, lookup: (string, string) -> Option<Descriptor>, payloadFits: (Descriptor, string) -> bool)

  datatype Reply = Answered(body: string) | Refused | Interrupted

  /** One Send: the method and payload it names, and what an Invoke of a given path with its
      payload would return at that moment. */
  datatype Call = Call(full: string, payload: string, invoke: string -> Reply)

  /** Error stands for every transport-level failure, whatever its text. */
  datatype Response = Error | Status(code: int, body: string)

  /** Building the request, invoking, and classifying the reply. */
  function Exchange(net: Net, d: Descriptor, call: Call): Response {
    if call.payload != "" && !net.payloadFits(d, call.payload) then Error
    else
      match call.invoke(PathOf(d))
      case Answered(body) => Status(200, body)
      case Refused => Status(500, "")
      case Interrupted => Error
  }

  predicate Invokes(net: Net, d: Descriptor, call: Call) {
    call.payload == "" || net.payloadFits(d, call.payload)
  }

  function Resolve(net: Net, full: string): Option<Descriptor> {
    var m := ParseMethod(full);
    if m.None? then None else net.lookup(m.value.service, m.value.name)
  }

  /** The reference: dial, look up and exchange on every call. */
  function FreshSend(net: Net, address: string, call: Call): Response {
    if !net.dial(address) then Error
    else
      var d := Resolve(net, call.full);
      if d.None? then Error else Exchange(net, d.value, call)
  }

  // ---------------------------------------------------------------- the cached sender

  datatype State = State(connected: bool, descriptor: Option<Descriptor>, reflectionFailed: bool)

  const UNUSED := State(false, None, false)

  /** A Send's response, the state it leaves, and how often it looked up and invoked. */
  datatype Sent = Sent(response: Response, state: State, lookups: nat, invokes: nat)

  function CachedSend(net: Net, address: string, st: State, call: Call): Sent {
    if !st.connected && !net.dial(address) then Sent(Error, st, 0, 0)
    else
      var st1 := st.(connected := true);
      if st1.descriptor.Some? then Finish(net, st1, call, 0)
      else if st1.reflectionFailed then Sent(Error, st1, 0, 0)
      else
        var m := ParseMethod(call.full);
        if m.None? then Sent(Error, st1.(reflectionFailed := true), 0, 0)
        else
          var d := net.lookup(m.value.service, m.value.name);
          if d.None? then Sent(Error, st1.(reflectionFailed := true), 1, 0)
          else Finish(net, st1.(descriptor := d), call, 1)
  }

  function Finish(net: Net, st: State, call: Call, lookups: nat): Sent
    requires st.descriptor.Some?
  {
    Sent(Exchange(net, st.descriptor.value, call), st, lookups,
         if Invokes(net, st.descriptor.value, call) then 1 else 0)
  }

  /** The sender object.  `methodPath` and the message buffers are derived from the cached
      descriptor; the buffers are reset before each use and carry nothing between calls. */
  class GRPCSender {
    const net: Net
    var connected: bool
    var descriptor: Option<Descriptor>
    var methodPath: string
    var reflectionFailed: bool

    constructor (net: Net)
      ensures this.net == net && Current() == UNUSED && Valid()
    {
      this.net := net;
      connected, descriptor, methodPath, reflectionFailed := false, None, "", false;
    }

    function Current(): State
      reads this
    {
      State(connected, descriptor, reflectionFailed)
    }

    ghost predicate Valid()
      reads this
    {
      descriptor.Some? ==> methodPath == PathOf(descriptor.value)
    }

    method Send(address: string, call: Call) returns (r: Response)
      requires Valid()
      modifies this
      ensures Valid()
      ensures r == CachedSend(net, address, old(Current()), call).response
      ensures Current() == CachedSend(net, address, old(Current()), call).state
    {
      if !connected {
        if !net.dial(address) {
          return Error;
        }
        connected := true;
      }
      if descriptor.None? {
        if reflectionFailed {
          return Error;
        }
        var m := ParseMethod(call.full);
        if m.None? {
          reflectionFailed := true;
          return Error;
        }
        var d := net.lookup(m.value.service, m.value.name);
        if d.None? {
          reflectionFailed := true;
          return Error;
        }
        descriptor := d;
        methodPath := "/" + d.value.service + "/" + d.value.name;
      }
      if call.payload != "" && !net.payloadFits(descriptor.value, call.payload) {
        return Error;
      }
      match call.invoke(methodPath)
      case Answered(body) => return Status(200, body);
      case Refused => return Status(500, "");
      case Interrupted => return Error;
    }
  }

  // ---------------------------------------------------------------- what a Send answers

  /** The method of a Send names a known one: it is a service and a method joined by a slash, and
      the lookup of the two finds d. */
  ghost predicate Finds(net: Net, full: string, d: Descriptor) {
    exists service: string, name: string ::
      && service != "" && name != "" && '/' !in name && full == service + "/" + name
      && net.lookup(service, name) == Some(d)
  }

  lemma FindsIffResolves(net: Net, full: string, d: Descriptor)
    ensures Finds(net, full, d) <==> Resolve(net, full) == Some(d)
  {
    if service: string, name: string :|
      && service != "" && name != "" && '/' !in name && full == service + "/" + name
      && net.lookup(service, name) == Some(d)
    {
      ParsesExactlyJoins(full, MethodName(service, name));
    }
    if Resolve(net, full) == Some(d) {
      var m := ParseMethod(full).value;
      ParsesExactlyJoins(full, m);
    }
  }

  /** The answer of a Send that has its descriptor: the payload must fit the method's input, and an
      Invoke of the method's path answers 200 with its body, 500 when the server refuses, and with
      a transport error when it is cut off. */
  ghost predicate AnswersWith(net: Net, d: Descriptor, call: Call, r: Response) {
    if call.payload != "" && !net.payloadFits(d, call.payload) then r == Error
    else
      var reply := call.invoke("/" + d.service + "/" + d.name);
      && (forall b :: reply == Answered(b) ==> r == Status(200, b))
      && (reply.Refused? ==> r == Status(500, ""))
      && (reply.Interrupted? ==> r == Error)
  }

  /** The caching sender, case by case: without a connection nothing happens; a cached descriptor
      answers; a sticky failure fails; otherwise the method is looked up, and what is found is
      cached and answers, or else the failure sticks. */
  lemma SendMeans(net: Net, address: string, st: State, call: Call)
    ensures var s := CachedSend(net, address, st, call);
            if !st.connected && !net.dial(address) then s.response == Error && s.state == st
            else
              && s.state.connected
              && (st.descriptor.Some? ==>
                    && AnswersWith(net, st.descriptor.value, call, s.response)
                    && s.state.descriptor == st.descriptor && s.state.reflectionFailed == st.reflectionFailed)
              && (st.descriptor.None? && st.reflectionFailed ==>
                    s.response == Error && s.state.descriptor.None? && s.state.reflectionFailed)
              && (st.descriptor.None? && !st.reflectionFailed ==>
                    && (forall d :: Finds(net, call.full, d) ==>
                          AnswersWith(net, d, call, s.response) && s.state == State(true, Some(d), false))
                    && ((forall d :: !Finds(net, call.full, d)) ==>
                          s.response == Error && s.state == State(true, None, true)))
  {
    forall d ensures Finds(net, call.full, d) <==> Resolve(net, call.full) == Some(d) {
      FindsIffResolves(net, call.full, d);
    }
    if Resolve(net, call.full).Some? { assert Finds(net, call.full, Resolve(net, call.full).value); }
  }

  /** The reference sender, case by case. */
  lemma FreshMeans(net: Net, address: string, call: Call)
    ensures var r := FreshSend(net, address, call);
            && (!net.dial(address) ==> r == Error)
            && (net.dial(address) ==>
                  && (forall d :: Finds(net, call.full, d) ==> AnswersWith(net, d, call, r))
                  && ((forall d :: !Finds(net, call.full, d)) ==> r == Error))
  {
    forall d ensures Finds(net, call.full, d) <==> Resolve(net, call.full) == Some(d) {
      FindsIffResolves(net, call.full, d);
    }
    if Resolve(net, call.full).Some? { assert Finds(net, call.full, Resolve(net, call.full).value); }
  }

  /** Once the method was looked up, whatever a later lookup would find makes no difference. */
  lemma {:induction false} LookedUpOnce(
    net: Net, other: (string, string) -> Option<Descriptor>, address: string, st: State, calls: seq<Call>)
    requires st.descriptor.Some? || st.reflectionFailed
    ensures CachedRun(net, address, st, calls) == CachedRun(net.(lookup := other), address, st, calls)
    decreases |calls|
  {
    if calls != [] {
      LookedUpOnce(net, other, address, CachedSend(net, address, st, calls[0]).state, calls[1..]);
    }
  }

  // ---------------------------------------------------------------- sequences of sends

  function CachedRun(net: Net, address: string, st: State, calls: seq<Call>): seq<Sent>
    decreases |calls|
  {
    if calls == [] then []
    else
      var s := CachedSend(net, address, st, calls[0]);
      [s] + CachedRun(net, address, s.state, calls[1..])
  }

  function Lookups(run: seq<Sent>): nat {
    if run == [] then 0 else run[0].lookups + Lookups(run[1..])
  }

  ghost predicate Agrees(net: Net, address: string, calls: seq<Call>) {
    var run := CachedRun(net, address, UNUSED, calls);
    |run| == |calls| && forall i :: 0 <= i < |calls| ==> run[i].response == FreshSend(net, address, calls[i])
  }

  /** Every method parses to the same names, or none parses at all. */
  ghost predicate SameMethod(fulls: seq<string>) {
    forall i :: 0 <= i < |fulls| ==> ParseMethod(fulls[i]) == ParseMethod(fulls[0])
  }

  ghost function FullsOf(calls: seq<Call>): seq<string> {
    seq(|calls|, i requires 0 <= i < |calls| => calls[i].full)
  }

  /** The cache is what a fresh lookup of the first method would find. */
  ghost predicate Faithful(net: Net, address: string, st: State, found: Option<Descriptor>) {
    && (st.connected ==> net.dial(address))
    && (st.descriptor.Some? ==> st.connected && st.descriptor == found)
    && (st.reflectionFailed ==> st.connected && found.None? && st.descriptor.None?)
  }

  lemma SendFaithful(net: Net, address: string, st: State, call: Call)
    requires Faithful(net, address, st, Resolve(net, call.full))
    ensures Faithful(net, address, CachedSend(net, address, st, call).state, Resolve(net, call.full))
    ensures CachedSend(net, address, st, call).response == FreshSend(net, address, call)
  {
  }

  lemma {:induction false} RunFaithful(net: Net, address: string, st: State, calls: seq<Call>, m: Option<MethodName>)
    requires forall i :: 0 <= i < |calls| ==> ParseMethod(calls[i].full) == m
    requires calls != [] ==> Faithful(net, address, st, Resolve(net, calls[0].full))
    ensures var run := CachedRun(net, address, st, calls);
            |run| == |calls| && forall i :: 0 <= i < |calls| ==> run[i].response == FreshSend(net, address, calls[i])
    decreases |calls|
  {
    if calls != [] {
      SendFaithful(net, address, st, calls[0]);
      var s := CachedSend(net, address, st, calls[0]);
      if |calls| > 1 {
        assert ParseMethod(calls[1].full) == ParseMethod(calls[0].full);
        assert Resolve(net, calls[1].full) == Resolve(net, calls[0].full);
      }
      RunFaithful(net, address, s.state, calls[1..], m);
      var run := CachedRun(net, address, st, calls);
      forall i | 0 <= i < |calls| ensures run[i].response == FreshSend(net, address, calls[i]) {
        if i > 0 { assert run[i] == run[1..][i - 1] && calls[i] == calls[1..][i - 1]; }
      }
    }
  }

  /** With one method throughout, the cached sender answers every call, with any payloads and
      any replies, as one that resolves every time. */
  lemma SameMethodAgrees(net: Net, address: string, calls: seq<Call>)
    requires SameMethod(FullsOf(calls))
    ensures Agrees(net, address, calls)
  {
    if calls != [] {
      var m := ParseMethod(calls[0].full);
      forall i | 0 <= i < |calls| ensures ParseMethod(calls[i].full) == m {
        assert FullsOf(calls)[i] == calls[i].full && FullsOf(calls)[0] == calls[0].full;
      }
      RunFaithful(net, address, UNUSED, calls, m);
    }
  }

  // ---------------------------------------------------------------- what the cache saves

  /** Whatever the calls name, at most one lookup is ever made: none once the descriptor is
      cached or the lookup has failed. */
  lemma {:induction false} AtMostOneLookup(net: Net, address: string, st: State, calls: seq<Call>)
    ensures Lookups(CachedRun(net, address, st, calls))
            <= if st.descriptor.Some? || st.reflectionFailed then 0 else 1
    decreases |calls|
  {
    if calls != [] {
      var s := CachedSend(net, address, st, calls[0]);
      AtMostOneLookup(net, address, s.state, calls[1..]);
      assert CachedRun(net, address, st, calls)[1..] == CachedRun(net, address, s.state, calls[1..]);
    }
  }

  /** After a failed lookup or an unparsable method every Send fails without looking up or
      invoking, and the failure stays. */
  lemma {:induction false} FailureIsSticky(net: Net, address: string, st: State, calls: seq<Call>)
    requires st.reflectionFailed && st.descriptor.None?
    ensures forall s :: s in CachedRun(net, address, st, calls) ==>
              s.response == Error && s.lookups == 0 && s.invokes == 0 && s.state.reflectionFailed
    decreases |calls|
  {
    if calls != [] {
      var s := CachedSend(net, address, st, calls[0]);
      FailureIsSticky(net, address, s.state, calls[1..]);
    }
  }

  // ---------------------------------------------------------------- the condition is exact

  ghost predicate AgreesEverywhere(address: string, fulls: seq<string>) {
    forall net, calls :: FullsOf(calls) == fulls ==> Agrees(net, address, calls)
  }

  function Answering(full: string): Call {
    Call(full, "", (path: string) => Answered(path))
  }

  /** The server knows every method but one. */
  function AllBut(m: MethodName): Net {
    Net(_ => true,
        (service: string, name: string) =>
          if MethodName(service, name) == m then None else Some(Descriptor(service, name, 0)),
        (_, _) => true)
  }

  const WILLING := Net(_ => true, (service: string, name: string) => Some(Descriptor(service, name, 0)), (_, _) => true)

  /** An environment that tells a differing method from the first: a server that does not know
      the first one, or (when the other does not parse) one that knows everything. */
  lemma MixedMethodsDisagree(address: string, fulls: seq<string>, k: nat) returns (net: Net, calls: seq<Call>)
    requires k < |fulls| && ParseMethod(fulls[k]) != ParseMethod(fulls[0])
    ensures FullsOf(calls) == fulls && !Agrees(net, address, calls)
  {
    calls := seq(|fulls|, i requires 0 <= i < |fulls| => Answering(fulls[i]));
    assert FullsOf(calls) == fulls;
    var m := ParseMethod(fulls[0]);
    net := if m.Some? && ParseMethod(fulls[k]).Some? then AllBut(m.value) else WILLING;
    var s := CachedSend(net, address, UNUSED, calls[0]);
    var run := CachedRun(net, address, UNUSED, calls);
    assert run == [s] + CachedRun(net, address, s.state, calls[1..]);
    RunLength(net, address, s.state, calls[1..]);
    assert run[k] == CachedRun(net, address, s.state, calls[1..])[k - 1];
    if s.state.descriptor.Some? {
      CachedDescriptorStays(net, address, s.state, calls[1..], k - 1);
    } else {
      FailureIsSticky(net, address, s.state, calls[1..]);
    }
    assert calls[k] == Answering(fulls[k]);
  }

  lemma {:induction false} RunLength(net: Net, address: string, st: State, calls: seq<Call>)
    ensures |CachedRun(net, address, st, calls)| == |calls|
    decreases |calls|
  {
    if calls != [] {
      RunLength(net, address, CachedSend(net, address, st, calls[0]).state, calls[1..]);
    }
  }

  lemma {:induction false} CachedDescriptorStays(net: Net, address: string, st: State, calls: seq<Call>, i: nat)
    requires st.connected && st.descriptor.Some? && i < |calls|
    ensures i < |CachedRun(net, address, st, calls)|
    ensures CachedRun(net, address, st, calls)[i].response == Exchange(net, st.descriptor.value, calls[i])
    decreases |calls|
  {
    RunLength(net, address, st, calls);
    if i > 0 {
      CachedDescriptorStays(net, address, st, calls[1..], i - 1);
    }
  }

  /** The cached sender agrees with the resolving one in every environment if and only if all
      the methods named parse alike: the same service and method, or all unparsable. */
  lemma AgreesEverywhereIff(address: string, fulls: seq<string>)
    ensures AgreesEverywhere(address, fulls) <==> SameMethod(fulls)
  {
    if SameMethod(fulls) {
      forall net, calls | FullsOf(calls) == fulls ensures Agrees(net, address, calls) {
        SameMethodAgrees(net, address, calls);
      }
    } else {
      var k :| 0 <= k < |fulls| && ParseMethod(fulls[k]) != ParseMethod(fulls[0]);
      var net, calls := MixedMethodsDisagree(address, fulls, k);
    }
  }

  // ---------------------------------------------------------------- the request path

  /** When reflection returns the descriptor it was asked for, the path invoked is "/" followed
      by the configured method (the Path rule in the "Requests" section of gRPC over HTTP2). */
  lemma PathIsSlashMethod(full: string, d: Descriptor)
    requires ParseMethod(full) == Some(MethodName(d.service, d.name))
    ensures PathOf(d) == "/" + full
  {
    ParsesExactlyJoins(full, MethodName(d.service, d.name));
    assert PathOf(d) == "/" + (d.service + "/" + d.name);
  }

  /** A pod that ParseConfig accepts as gRPC never makes a Send fail on its method name: the first
      Send that can dial looks the method up, and whenever the sender gives up, over any sequence
      of Sends, it is because that lookup found nothing. */
  lemma {:induction false} AcceptedMethodIsLookedUp(
    config: Config, net: Net, address: string, st: State, calls: seq<Call>)
    requires Sound(config) && config.protocol == PROTOCOL_GRPC
    requires forall i :: 0 <= i < |calls| ==> calls[i].full == config.grpcMethod
    requires Faithful(net, address, st, Resolve(net, config.grpcMethod))
    ensures var m, run := ParseMethod(config.grpcMethod).value, CachedRun(net, address, st, calls);
            && (forall s :: s in run && s.state.reflectionFailed ==> net.lookup(m.service, m.name).None?)
            && (st == UNUSED && net.dial(address) && calls != [] ==> run[0].lookups == 1)
    decreases |calls|
  {
    if calls != [] {
      SendFaithful(net, address, st, calls[0]);
      AcceptedMethodIsLookedUp(config, net, address, CachedSend(net, address, st, calls[0]).state, calls[1..]);
    }
  }
}
