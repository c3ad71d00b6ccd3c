/** ParseConfig (pkg/warmup/config.go) and the guarantees its callers rely on. */
module Config {
  import opened Common
  import opened Pods
  import opened GrpcMethod

  const SECOND := 1_000_000_000
  const DEFAULT_REQUEST_COUNT := 3
  const MAX_REQUEST_COUNT := 12000
  const DEFAULT_TIMEOUT := 30 * SECOND
  const MAX_TIMEOUT := 300 * SECOND
  const DEFAULT_ENDPOINT_PATH := "/"
  const PROTOCOL_HTTP := "http"
  const PROTOCOL_GRPC := "grpc"
  const DEFAULT_GRPC_PAYLOAD := "{}"

  const ANNOTATION_ENDPOINT := "kube-booster.io/warmup-endpoint"
  const ANNOTATION_REQUESTS := "kube-booster.io/warmup-requests"
  const ANNOTATION_TIMEOUT := "kube-booster.io/warmup-timeout"
  const ANNOTATION_PORT := "kube-booster.io/warmup-port"
  const ANNOTATION_PROTOCOL := "kube-booster.io/warmup-protocol"
  const ANNOTATION_GRPC_METHOD := "kube-booster.io/warmup-grpc-method"
  const ANNOTATION_GRPC_PAYLOAD := "kube-booster.io/warmup-grpc-payload"
  const ANNOTATION_CONFIG := "kube-booster.io/warmup-config"

  /** strconv.Atoi, time.ParseDuration (in nanoseconds) and json.Valid. */
  datatype Libs = Libs(atoi: string -> Option<int>, duration: string -> Option<int>, validJson: string -> bool)

  datatype Config = Config(
    endpoint: string, requestCount: int, timeout: int, podIP: string, port: int,
    protocol: string, grpcMethod: string, grpcPayload: string, warmupConfigName: string)

  datatype ConfigError =
    NoPod | BadRequests | BadTimeout | BadProtocol | BadMethod | BadPayload | MethodRequired | BadPort | NoPort

  // ---------------------------------------------------------------- what is accepted

  /** The annotations as read: an absent annotation and an empty one count the same. */
  datatype Raw = Raw(
    endpoint: string, requests: string, timeout: string, protocol: string, grpcMethod: string,
    payload: string, configName: string, port: string)

  function Annotation(pod: Pod, key: string): string {
    if pod.annotations.Some? && key in pod.annotations.value then pod.annotations.value[key] else ""
  }

  function RawOf(pod: Pod): Raw {
    Raw(Annotation(pod, ANNOTATION_ENDPOINT), Annotation(pod, ANNOTATION_REQUESTS),
        Annotation(pod, ANNOTATION_TIMEOUT), Annotation(pod, ANNOTATION_PROTOCOL),
        Annotation(pod, ANNOTATION_GRPC_METHOD), Annotation(pod, ANNOTATION_GRPC_PAYLOAD),
        Annotation(pod, ANNOTATION_CONFIG), Annotation(pod, ANNOTATION_PORT))
  }

  predicate InRange(v: Option<int>, lo: int, hi: int) {
    v.Some? && lo <= v.value <= hi
  }

  predicate RequestsValid(libs: Libs, raw: Raw) {
    raw.requests == "" || InRange(libs.atoi(raw.requests), 1, MAX_REQUEST_COUNT)
  }

  predicate TimeoutValid(libs: Libs, raw: Raw) {
    raw.timeout == "" || InRange(libs.duration(raw.timeout), SECOND, MAX_TIMEOUT)
  }

  predicate ProtocolValid(raw: Raw) {
    raw.protocol == "" || raw.protocol == PROTOCOL_HTTP || raw.protocol == PROTOCOL_GRPC
  }

  predicate MethodValid(raw: Raw) {
    raw.grpcMethod == "" || ParseMethod(raw.grpcMethod).Some?
  }

  predicate PayloadValid(libs: Libs, raw: Raw) {
    raw.payload == "" || libs.validJson(raw.payload)
  }

  predicate LimitsValid(libs: Libs, raw: Raw) {
    RequestsValid(libs, raw) && TimeoutValid(libs, raw)
  }

  predicate AnnotationsValid(libs: Libs, raw: Raw) {
    && LimitsValid(libs, raw) && ProtocolValid(raw) && MethodValid(raw) && PayloadValid(libs, raw)
    && (raw.protocol == PROTOCOL_GRPC ==> raw.grpcMethod != "")
  }

  predicate PortKnown(libs: Libs, raw: Raw, containers: seq<Container>) {
    if raw.port != "" then InRange(libs.atoi(raw.port), 1, 65535)
    else |containers| == 1 && |containers[0].ports| == 1
  }

  predicate Acceptable(libs: Libs, raw: Raw, containers: seq<Container>) {
    AnnotationsValid(libs, raw) && PortKnown(libs, raw, containers)
  }

  /** e names what is wrong, and nothing that is checked before it is wrong. */
  ghost predicate FirstWrong(libs: Libs, raw: Raw, containers: seq<Container>, e: ConfigError) {
    match e
    case NoPod => false
    case BadRequests => !RequestsValid(libs, raw)
    case BadTimeout => RequestsValid(libs, raw) && !TimeoutValid(libs, raw)
    case BadProtocol => LimitsValid(libs, raw) && !ProtocolValid(raw)
    case BadMethod => LimitsValid(libs, raw) && ProtocolValid(raw) && !MethodValid(raw)
    case BadPayload =>
      LimitsValid(libs, raw) && ProtocolValid(raw) && MethodValid(raw) && !PayloadValid(libs, raw)
    case MethodRequired =>
      && LimitsValid(libs, raw) && PayloadValid(libs, raw)
      && raw.protocol == PROTOCOL_GRPC && raw.grpcMethod == ""
    case BadPort => AnnotationsValid(libs, raw) && raw.port != "" && !PortKnown(libs, raw, containers)
    case NoPort => AnnotationsValid(libs, raw) && raw.port == "" && !PortKnown(libs, raw, containers)
  }

  function OrDefault(s: string, default: string): string {
    if s == "" then default else s
  }

  function LimitsOf(libs: Libs, raw: Raw): (int, int)
    requires LimitsValid(libs, raw)
  {
    (if raw.requests == "" then DEFAULT_REQUEST_COUNT else libs.atoi(raw.requests).value,
     if raw.timeout == "" then DEFAULT_TIMEOUT else libs.duration(raw.timeout).value)
  }

  datatype Rpc = Rpc(protocol: string, grpcMethod: string, grpcPayload: string)

  function RpcOf(raw: Raw): Rpc {
    Rpc(OrDefault(raw.protocol, PROTOCOL_HTTP), raw.grpcMethod, OrDefault(raw.payload, DEFAULT_GRPC_PAYLOAD))
  }

  function PortOf(libs: Libs, raw: Raw, containers: seq<Container>): int
    requires PortKnown(libs, raw, containers)
  {
    if raw.port == "" then containers[0].ports[0] else libs.atoi(raw.port).value
  }

  /** The configuration that acceptable annotations and containers describe. */
  function Described(libs: Libs, raw: Raw, containers: seq<Container>): Config
    requires Acceptable(libs, raw, containers)
  {
    var (requestCount, timeout) := LimitsOf(libs, raw);
    var rpc := RpcOf(raw);
    Config(OrDefault(raw.endpoint, DEFAULT_ENDPOINT_PATH), requestCount, timeout, "", PortOf(libs, raw, containers),
           rpc.protocol, rpc.grpcMethod, rpc.grpcPayload, raw.configName)
  }

  predicate PodAcceptable(libs: Libs, pod: Pod) {
    Acceptable(libs, RawOf(pod), pod.containers)
  }

  function ConfigOf(libs: Libs, pod: Pod): Config
    requires PodAcceptable(libs, pod)
  {
    Described(libs, RawOf(pod), pod.containers)
  }

  // ---------------------------------------------------------------- in terms of the annotations

  /** The annotations of a pod, none if it has no map. */
  function AnnotationsOf(pod: Pod): map<string, string> {
    match pod.annotations
    case None => map[]
    case Some(m) => m
  }

  /** The annotation is there and is not empty. */
  predicate Given(m: map<string, string>, key: string) {
    key in m && m[key] != ""
  }

  /** Where each field of an accepted configuration comes from. */
  lemma FieldsComeFromAnnotations(libs: Libs, pod: Pod)
    requires PodAcceptable(libs, pod)
    ensures var m, c := AnnotationsOf(pod), ConfigOf(libs, pod);
            && c.endpoint == (if Given(m, "kube-booster.io/warmup-endpoint")
                              then m["kube-booster.io/warmup-endpoint"] else "/")
            && (if Given(m, "kube-booster.io/warmup-requests")
                then libs.atoi(m["kube-booster.io/warmup-requests"]) == Some(c.requestCount) else c.requestCount == 3)
            && (if Given(m, "kube-booster.io/warmup-timeout")
                then libs.duration(m["kube-booster.io/warmup-timeout"]) == Some(c.timeout)
                else c.timeout == 30_000_000_000)
    ensures var m, c := AnnotationsOf(pod), ConfigOf(libs, pod);
            && c.protocol == (if Given(m, "kube-booster.io/warmup-protocol")
                              then m["kube-booster.io/warmup-protocol"] else "http")
            && c.grpcMethod == (if Given(m, "kube-booster.io/warmup-grpc-method")
                                then m["kube-booster.io/warmup-grpc-method"] else "")
            && c.grpcPayload == (if Given(m, "kube-booster.io/warmup-grpc-payload")
                                 then m["kube-booster.io/warmup-grpc-payload"] else "{}")
    ensures var m, c := AnnotationsOf(pod), ConfigOf(libs, pod);
            && c.warmupConfigName == (if Given(m, "kube-booster.io/warmup-config")
                                      then m["kube-booster.io/warmup-config"] else "")
            && (if Given(m, "kube-booster.io/warmup-port")
                then libs.atoi(m["kube-booster.io/warmup-port"]) == Some(c.port)
                else |pod.containers| == 1 && pod.containers[0].ports == [c.port])
            && c.podIP == ""
    ensures var m, c := AnnotationsOf(pod), ConfigOf(libs, pod);
            && 1 <= c.requestCount <= 12000 && 1_000_000_000 <= c.timeout <= 300_000_000_000
            && (c.protocol == "http" || c.protocol == "grpc") && (c.protocol == "grpc" ==> c.grpcMethod != "")
            && (c.grpcMethod != "" ==> ParseMethod(c.grpcMethod).Some?)
            && (Given(m, "kube-booster.io/warmup-grpc-payload") ==> libs.validJson(c.grpcPayload))
            && (Given(m, "kube-booster.io/warmup-port") ==> 1 <= c.port <= 65535)
  {
  }

  /** Which annotation each error is about, and what is wrong with it. */
  lemma ErrorsNameAnnotations(libs: Libs, pod: Pod, e: ConfigError)
    requires FirstWrong(libs, RawOf(pod), pod.containers, e)
    ensures var m := AnnotationsOf(pod);
            && (e.BadRequests? ==>
                  && Given(m, "kube-booster.io/warmup-requests")
                  && var n := libs.atoi(m["kube-booster.io/warmup-requests"]);
                     n.None? || n.value < 1 || n.value > 12000)
            && (e.BadTimeout? ==>
                  && Given(m, "kube-booster.io/warmup-timeout")
                  && var d := libs.duration(m["kube-booster.io/warmup-timeout"]);
                     d.None? || d.value < 1_000_000_000 || d.value > 300_000_000_000)
            && (e.BadProtocol? ==>
                  && Given(m, "kube-booster.io/warmup-protocol")
                  && m["kube-booster.io/warmup-protocol"] != "http"
                  && m["kube-booster.io/warmup-protocol"] != "grpc")
    ensures var m := AnnotationsOf(pod);
            && (e.BadMethod? ==>
                  && Given(m, "kube-booster.io/warmup-grpc-method")
                  && ParseMethod(m["kube-booster.io/warmup-grpc-method"]).None?)
            && (e.BadPayload? ==>
                  && Given(m, "kube-booster.io/warmup-grpc-payload")
                  && !libs.validJson(m["kube-booster.io/warmup-grpc-payload"]))
            && (e.MethodRequired? ==>
                  && Given(m, "kube-booster.io/warmup-protocol") && m["kube-booster.io/warmup-protocol"] == "grpc"
                  && !Given(m, "kube-booster.io/warmup-grpc-method"))
    ensures var m := AnnotationsOf(pod);
            && (e.BadPort? ==>
                  && Given(m, "kube-booster.io/warmup-port")
                  && var n := libs.atoi(m["kube-booster.io/warmup-port"]);
                     n.None? || n.value < 1 || n.value > 65535)
            && (e.NoPort? ==>
                  && !Given(m, "kube-booster.io/warmup-port")
                  && (|pod.containers| != 1 || |pod.containers[0].ports| != 1))
            && !e.NoPod?
  {
  }

  // ---------------------------------------------------------------- the code

  /** ParseConfig succeeds exactly on the acceptable pods, with the described configuration, and
      otherwise reports the first thing that is wrong. */
  method ParseConfig(libs: Libs, pod: Option<Pod>) returns (r: Result<Config, ConfigError>)
    ensures r.Success? <==> pod.Some? && PodAcceptable(libs, pod.value)
    ensures r.Success? ==> r.value == ConfigOf(libs, pod.value)
    ensures r == Failure(NoPod) <==> pod.None?
    ensures r.Failure? && pod.Some? ==> FirstWrong(libs, RawOf(pod.value), pod.value.containers, r.error)
  {
    if pod.None? {
      return Failure(NoPod);
    }
    r := ParseRaw(libs, RawOf(pod.value), pod.value.containers);
  }

  method ParseRaw(libs: Libs, raw: Raw, containers: seq<Container>) returns (r: Result<Config, ConfigError>)
    ensures r.Success? <==> Acceptable(libs, raw, containers)
    ensures r.Success? ==> r.value == Described(libs, raw, containers)
    ensures r.Failure? ==> FirstWrong(libs, raw, containers, r.error)
  {
    var endpoint, warmupConfigName := DEFAULT_ENDPOINT_PATH, "";
    if raw.endpoint != "" {
      endpoint := raw.endpoint;
    }
    var limits := ParseLimits(libs, raw);
    if limits.Failure? {
      return Failure(limits.error);
    }
    var rpc := ParseProtocol(libs, raw);
    if rpc.Failure? {
      return Failure(rpc.error);
    }
    if raw.configName != "" {
      warmupConfigName := raw.configName;
    }
    var port := ParsePort(libs, raw, containers);
    if port.Failure? {
      return Failure(port.error);
    }
    r := Success(Config(endpoint, limits.value.0, limits.value.1, "", port.value,
                        rpc.value.protocol, rpc.value.grpcMethod, rpc.value.grpcPayload, warmupConfigName));
  }

  /** The request count and the timeout. */
  method ParseLimits(libs: Libs, raw: Raw) returns (r: Result<(int, int), ConfigError>)
    ensures r.Success? <==> LimitsValid(libs, raw)
    ensures r.Success? ==> r.value == LimitsOf(libs, raw)
    ensures r.Failure? ==> forall containers :: FirstWrong(libs, raw, containers, r.error)
  {
    var requestCount, timeout := DEFAULT_REQUEST_COUNT, DEFAULT_TIMEOUT;
    if raw.requests != "" {
      var n := libs.atoi(raw.requests);
      if n.None? || n.value < 1 || n.value > MAX_REQUEST_COUNT {
        return Failure(BadRequests);
      }
      requestCount := n.value;
    }
    if raw.timeout != "" {
      var d := libs.duration(raw.timeout);
      if d.None? || d.value < SECOND || d.value > MAX_TIMEOUT {
        return Failure(BadTimeout);
      }
      timeout := d.value;
    }
    r := Success((requestCount, timeout));
  }

  /** The protocol and, for gRPC, the method and the payload. */
  method ParseProtocol(libs: Libs, raw: Raw) returns (r: Result<Rpc, ConfigError>)
    requires LimitsValid(libs, raw)
    ensures r.Success? <==> AnnotationsValid(libs, raw)
    ensures r.Success? ==> r.value == RpcOf(raw)
    ensures r.Failure? ==> forall containers :: FirstWrong(libs, raw, containers, r.error)
  {
    var protocol, grpcMethod, grpcPayload := PROTOCOL_HTTP, "", DEFAULT_GRPC_PAYLOAD;
    if raw.protocol != "" {
      if raw.protocol != PROTOCOL_HTTP && raw.protocol != PROTOCOL_GRPC {
        return Failure(BadProtocol);
      }
      protocol := raw.protocol;
    }
    if raw.grpcMethod != "" {
      if ParseMethod(raw.grpcMethod).None? {
        return Failure(BadMethod);
      }
      grpcMethod := raw.grpcMethod;
    }
    if raw.payload != "" {
      if !libs.validJson(raw.payload) {
        return Failure(BadPayload);
      }
      grpcPayload := raw.payload;
    }
    if protocol == PROTOCOL_GRPC && grpcMethod == "" {
      return Failure(MethodRequired);
    }
    r := Success(Rpc(protocol, grpcMethod, grpcPayload));
  }

  /** The port: annotated, or the only port of the only container. */
  method ParsePort(libs: Libs, raw: Raw, containers: seq<Container>) returns (r: Result<int, ConfigError>)
    requires AnnotationsValid(libs, raw)
    ensures r.Success? <==> PortKnown(libs, raw, containers)
    ensures r.Success? ==> r.value == PortOf(libs, raw, containers)
    ensures r.Failure? ==> FirstWrong(libs, raw, containers, r.error)
  {
    if raw.port != "" {
      var p := libs.atoi(raw.port);
      if p.None? || p.value < 1 || p.value > 65535 {
        return Failure(BadPort);
      }
      return Success(p.value);
    }
    if |containers| == 1 && |containers[0].ports| == 1 {
      return Success(containers[0].ports[0]);
    }
    return Failure(NoPort);
  }

  /** What every later stage may assume of an accepted configuration. */
  predicate Sound(config: Config) {
    && 1 <= config.requestCount <= MAX_REQUEST_COUNT
    && SECOND <= config.timeout <= MAX_TIMEOUT
    && (config.protocol == PROTOCOL_HTTP || config.protocol == PROTOCOL_GRPC)
    && (config.protocol == PROTOCOL_GRPC ==> ParseMethod(config.grpcMethod).Some?)
    && config.endpoint != "" && config.grpcPayload != ""
  }

  lemma AcceptedIsSound(libs: Libs, pod: Pod)
    requires PodAcceptable(libs, pod)
    ensures Sound(ConfigOf(libs, pod))
  {
    var raw := RawOf(pod);
    assert AnnotationsValid(libs, raw);
    assert ConfigOf(libs, pod) == Described(libs, raw, pod.containers);
  }
}
