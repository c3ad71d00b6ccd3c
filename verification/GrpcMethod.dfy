/** parseGRPCMethod (pkg/warmup/grpc_sender.go): splitting "package.Service/Method". */
module GrpcMethod {
  import opened Common

  /** strings.LastIndex(s, "/"): -1 when there is no slash. */
  function LastSlash(s: string): (i: int)
    ensures -1 <= i < |s|
    ensures i >= 0 ==> s[i] == '/'
    ensures forall j :: i < j < |s| ==> s[j] != '/'
  {
    if s == [] then -1
    else if s[|s| - 1] == '/' then |s| - 1
    else LastSlash(s[..|s| - 1])
  }

  datatype MethodName = MethodName(service: string, name: string)

  function ParseMethod(full: string): Option<MethodName> {
    var i := LastSlash(full);
    if i < 0 || i == 0 || i == |full| - 1 then None
    else Some(MethodName(full[..i], full[i + 1..]))
  }

  function JoinMethod(m: MethodName): string {
    m.service + "/" + m.name
  }

  /** The names a full method can be split into without ambiguity. */
  predicate Proper(m: MethodName) {
    m.service != "" && m.name != "" && '/' !in m.name
  }

  /** Parsing accepts exactly the joins of a non-empty service and a non-empty slash-free
      method, and returns precisely those two. */
  lemma ParsesExactlyJoins(full: string, m: MethodName)
    ensures ParseMethod(full) == Some(m) <==> Proper(m) && full == JoinMethod(m)
  {
    var i := LastSlash(full);
    if ParseMethod(full) == Some(m) {
      assert full == full[..i] + [full[i]] + full[i + 1..];
    }
    if Proper(m) && full == JoinMethod(m) {
      var k := |m.service|;
      assert full[k] == '/' && full[k + 1..] == m.name && full[..k] == m.service;
      assert forall j :: k < j < |full| ==> full[j] == m.name[j - k - 1];
      assert i == k;
    }
  }

  /** A full method is rejected exactly when its last slash lacks text on one side. */
  lemma RejectsIff(full: string)
    ensures ParseMethod(full).None? <==>
              !exists i :: 0 < i < |full| - 1 && full[i] == '/' && '/' !in full[i + 1..]
  {
    var k := LastSlash(full);
    if i :| 0 < i < |full| - 1 && full[i] == '/' && '/' !in full[i + 1..] {
      assert forall j :: i < j < |full| ==> full[i + 1..][j - i - 1] == full[j];
    }
    if ParseMethod(full).Some? {
      assert 0 < k < |full| - 1 && full[k] == '/' && '/' !in full[k + 1..];
    }
  }
}
