/** jsonPathLookup (pkg/warmup/scenario_executor.go): dotted paths into a decoded JSON object,
    a subset of the child segments of section 2.5.1 of RFC 9535. */
module JsonPath {
  import opened Common

  datatype Json =
    | Null | Bool(b: bool) | Number(n: real) | Str(s: string)
    | Array(items: seq<Json>) | Object(fields: map<string, Json>)

  type Doc = map<string, Json>

  /** strings.Split(s, "."). */
  function Split(s: string): (parts: seq<string>)
    ensures |parts| >= 1
  {
    if s == "" then [""]
    else
      var rest := Split(s[1..]);
      if s[0] == '.' then [""] + rest else [[s[0]] + rest[0]] + rest[1..]
  }

  function Join(keys: seq<string>): string {
    if keys == [] then ""
    else if |keys| == 1 then keys[0]
    else keys[0] + "." + Join(keys[1..])
  }

  function Walk(cur: Json, keys: seq<string>): Option<Json> {
    if keys == [] then Some(cur)
    else if cur.Object? && keys[0] in cur.fields then Walk(cur.fields[keys[0]], keys[1..])
    else None
  }

  function Lookup(doc: Doc, path: string): Option<Json> {
    if "$." <= path then Walk(Object(doc), Split(path[2..])) else None
  }

  /** jsonPathLookup's cursor loop. */
  method JsonPathLookup(doc: Doc, path: string) returns (r: Option<Json>)
    ensures r == Lookup(doc, path)
    ensures |path| < 2 || path[0] != '$' || path[1] != '.' ==> r.None?
  {
    if !("$." <= path) {
      return None;
    }
    var parts := Split(path[2..]);
    var cur := Object(doc);
    for i := 0 to |parts|
      invariant Lookup(doc, path) == Walk(cur, parts[i..])
    {
      if !cur.Object? || parts[i] !in cur.fields {
        return None;
      }
      cur := cur.fields[parts[i]];
      assert parts[i..][1..] == parts[i + 1..];
    }
    return Some(cur);
  }

  // ---------------------------------------------------------------- splitting

  lemma {:induction false} SplitDotFree(s: string)
    requires '.' !in s
    ensures Split(s) == [s]
  {
    if s != "" {
      SplitDotFree(s[1..]);
      assert [s[0]] + s[1..] == s;
    }
  }

  /** The segments of a text with one more character in front. */
  function Prepend(c: char, parts: seq<string>): seq<string>
    requires |parts| >= 1
  {
    if c == '.' then [""] + parts else [[c] + parts[0]] + parts[1..]
  }

  lemma SplitStep(c: char, s: string)
    ensures Split([c] + s) == Prepend(c, Split(s))
  {
    assert ([c] + s)[1..] == s;
  }

  lemma PrependFirst(c: char, a: seq<string>, b: seq<string>)
    requires |a| >= 1
    ensures Prepend(c, a + b) == Prepend(c, a) + b
  {
    assert (a + b)[1..] == a[1..] + b;
  }

  /** A dot anywhere cuts the list of segments in two. */
  lemma {:induction false} SplitAtDot(a: string, b: string)
    ensures Split(a + "." + b) == Split(a) + Split(b)
  {
    var s := a + "." + b;
    if a == "" {
      assert s == "." + b && s[1..] == b;
    } else {
      SplitAtDot(a[1..], b);
      SplitStep(a[0], a[1..]);
      SplitStep(a[0], a[1..] + "." + b);
      assert [a[0]] + a[1..] == a && [a[0]] + (a[1..] + "." + b) == s;
      PrependFirst(a[0], Split(a[1..]), Split(b));
    }
  }

  lemma {:induction false} SplitUndoesJoin(keys: seq<string>)
    requires keys != [] && forall k :: k in keys ==> '.' !in k
    ensures Split(Join(keys)) == keys
  {
    SplitDotFree(keys[0]);
    if |keys| > 1 {
      SplitUndoesJoin(keys[1..]);
      SplitAtDot(keys[0], Join(keys[1..]));
    }
  }

  // ---------------------------------------------------------------- lookups

  /** v is reached from doc by one member access per key. */
  ghost predicate Chain(doc: Doc, keys: seq<string>, vs: seq<Json>, v: Json) {
    && |vs| == |keys| + 1 && vs[0] == Object(doc) && vs[|keys|] == v
    && forall i :: 0 <= i < |keys| ==>
         vs[i].Object? && keys[i] in vs[i].fields && vs[i + 1] == vs[i].fields[keys[i]]
  }

  lemma {:induction false} WalkHasChain(cur: Json, keys: seq<string>) returns (vs: seq<Json>)
    requires Walk(cur, keys).Some?
    ensures |vs| == |keys| + 1 && vs[0] == cur && vs[|keys|] == Walk(cur, keys).value
    ensures forall i :: 0 <= i < |keys| ==>
              vs[i].Object? && keys[i] in vs[i].fields && vs[i + 1] == vs[i].fields[keys[i]]
    decreases |keys|
  {
    if keys == [] {
      vs := [cur];
    } else {
      var t := WalkHasChain(cur.fields[keys[0]], keys[1..]);
      vs := [cur] + t;
      forall i | 0 < i < |keys|
        ensures vs[i].Object? && keys[i] in vs[i].fields && vs[i + 1] == vs[i].fields[keys[i]]
      {
        assert keys[i] == keys[1..][i - 1] && vs[i] == t[i - 1] && vs[i + 1] == t[i];
      }
    }
  }

  lemma {:induction false} ChainIsWalk(keys: seq<string>, vs: seq<Json>)
    requires |vs| == |keys| + 1
    requires forall i :: 0 <= i < |keys| ==>
               vs[i].Object? && keys[i] in vs[i].fields && vs[i + 1] == vs[i].fields[keys[i]]
    ensures Walk(vs[0], keys) == Some(vs[|keys|])
    decreases |keys|
  {
    if keys != [] {
      var t := vs[1..];
      forall i | 0 <= i < |keys| - 1
        ensures t[i].Object? && keys[1..][i] in t[i].fields && t[i + 1] == t[i].fields[keys[1..][i]]
      {
        assert keys[1..][i] == keys[i + 1];
      }
      ChainIsWalk(keys[1..], t);
    }
  }

  /** "$." followed by dot-joined keys finds exactly the value of the nested member access. */
  lemma LookupIsNested(doc: Doc, keys: seq<string>, v: Json)
    requires keys != [] && forall k :: k in keys ==> '.' !in k
    ensures Lookup(doc, "$." + Join(keys)) == Some(v) <==> exists vs :: Chain(doc, keys, vs, v)
  {
    SplitUndoesJoin(keys);
    assert ("$." + Join(keys))[2..] == Join(keys);
    if Lookup(doc, "$." + Join(keys)) == Some(v) {
      var vs := WalkHasChain(Object(doc), keys);
      assert Chain(doc, keys, vs, v);
    }
    if vs :| Chain(doc, keys, vs, v) {
      ChainIsWalk(keys, vs);
    }
  }

  lemma {:induction false} WalkComposes(cur: Json, a: seq<string>, b: seq<string>)
    ensures Walk(cur, a + b) == var m := Walk(cur, a); if m.Some? then Walk(m.value, b) else None
    decreases |a|
  {
    if a == [] {
      assert a + b == b;
    } else if cur.Object? && a[0] in cur.fields {
      assert (a + b)[1..] == a[1..] + b;
      WalkComposes(cur.fields[a[0]], a[1..], b);
    }
  }

  /** Looking up p.q is looking up q in the object found at p, and fails iff either stage does. */
  lemma LookupComposes(doc: Doc, p: string, q: string)
    requires "$." <= p
    ensures Lookup(doc, p + "." + q)
            == var m := Lookup(doc, p);
               if m.Some? && m.value.Object? then Lookup(m.value.fields, "$." + q) else None
  {
    var path := p + "." + q;
    assert path[..2] == p[..2] && path[2..] == p[2..] + "." + q;
    SplitAtDot(p[2..], q);
    WalkComposes(Object(doc), Split(p[2..]), Split(q));
    assert ("$." + q)[2..] == q;
  }
}
