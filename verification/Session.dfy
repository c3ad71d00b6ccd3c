/**
  SessionContext (pkg/warmup/session.go): the session variables of a scenario and their
  interpolation into templates.

  Interpolate runs one ReplaceAll per key, in sorted key order.  The intended meaning is one
  simultaneous substitution.  The two agree as long as no value already inserted can take part
  in the token of a key that is still to come; sorting does not ensure that.  For a session
  together with all its parts this condition is also necessary.
 */
module Session {
  import opened Common
  import opened JsonPath

  // ---------------------------------------------------------------- strings.ReplaceAll

  /** Leftmost, non-overlapping replacement. */
  function ReplaceAll(s: string, tok: string, by_: string): string
    requires tok != ""
    decreases |s|
  {
    if |s| < |tok| then s
    else if tok <= s then by_ + ReplaceAll(s[|tok|..], tok, by_)
    else [s[0]] + ReplaceAll(s[1..], tok, by_)
  }

  /** tok occurs in s at position i. */
  predicate OccursAt(s: string, tok: string, i: nat) {
    i <= |s| && tok <= s[i..]
  }

  /** A stretch in which no occurrence begins is copied. */
  lemma {:induction false} ReplaceSkips(pre: string, rest: string, tok: string, by_: string)
    requires tok != "" && forall i :: 0 <= i < |pre| ==> !OccursAt(pre + rest, tok, i)
    ensures ReplaceAll(pre + rest, tok, by_) == pre + ReplaceAll(rest, tok, by_)
    decreases |pre|
  {
    if pre == "" {
      assert pre + rest == rest;
    } else {
      NoHitHere(pre + rest, tok, by_);
      var tail := pre[1..];
      assert (pre + rest)[1..] == tail + rest;
      forall i | 0 <= i < |tail| ensures !OccursAt(tail + rest, tok, i) {
        assert !OccursAt(pre + rest, tok, i + 1) && (pre + rest)[i + 1..] == (tail + rest)[i..];
      }
      ReplaceSkips(tail, rest, tok, by_);
      assert pre == [pre[0]] + tail;
    }
  }

  lemma NoHitHere(s: string, tok: string, by_: string)
    requires tok != "" && s != "" && !OccursAt(s, tok, 0)
    ensures ReplaceAll(s, tok, by_) == [s[0]] + ReplaceAll(s[1..], tok, by_)
  {
    assert s[0..] == s && s == [s[0]] + s[1..];
  }

  lemma ReplaceHits(rest: string, tok: string, by_: string)
    requires tok != ""
    ensures ReplaceAll(tok + rest, tok, by_) == by_ + ReplaceAll(rest, tok, by_)
  {
    assert (tok + rest)[|tok|..] == rest;
  }

  lemma {:induction false} ReplaceBySelf(s: string, tok: string)
    requires tok != ""
    ensures ReplaceAll(s, tok, tok) == s
    decreases |s|
  {
    if |s| >= |tok| {
      if tok <= s {
        ReplaceBySelf(s[|tok|..], tok);
        assert s == tok + s[|tok|..];
      } else {
        ReplaceBySelf(s[1..], tok);
      }
    }
  }

  lemma {:induction false} ReplaceLength(s: string, tok: string, by_: string)
    requires tok != ""
    ensures |by_| >= |tok| ==> |ReplaceAll(s, tok, by_)| >= |s|
    ensures |by_| <= |tok| ==> |ReplaceAll(s, tok, by_)| <= |s|
    decreases |s|
  {
    if |s| >= |tok| {
      ReplaceLength(if tok <= s then s[|tok|..] else s[1..], tok, by_);
    }
  }

  /** Replacing an occurring token by anything else changes the text. */
  lemma {:induction false} ReplaceChanges(s: string, tok: string, by_: string, i: nat)
    requires tok != "" && OccursAt(s, tok, i) && by_ != tok
    ensures ReplaceAll(s, tok, by_) != s
    ensures |by_| > |tok| ==> |ReplaceAll(s, tok, by_)| > |s|
    ensures |by_| < |tok| ==> |ReplaceAll(s, tok, by_)| < |s|
    decreases |s|
  {
    if tok <= s {
      var r := ReplaceAll(s[|tok|..], tok, by_);
      ReplaceLength(s[|tok|..], tok, by_);
      assert (by_ + r)[..|by_|] == by_ && s[..|tok|] == tok;
    } else {
      assert s[1..][i - 1..] == s[i..];
      ReplaceChanges(s[1..], tok, by_, i - 1);
      assert s == [s[0]] + s[1..];
    }
  }

  // ---------------------------------------------------------------- templates

  function Token(name: string): string {
    "{{" + name + "}}"
  }

  predicate BraceFree(s: string) {
    '{' !in s && '}' !in s
  }

  /** Text with single braces but no "{{", such as the braces of a JSON body. */
  predicate Plain(s: string) {
    forall i :: 0 <= i < |s| - 1 ==> !(s[i] == '{' && s[i + 1] == '{')
  }

  /** Literal text with {{name}} holes. */
  datatype Template = End(lit: string) | Hole(lit: string, name: string, rest: Template)

  ghost predicate WellFormed(t: Template) {
    match t
    case End(lit) => Plain(lit)
    case Hole(lit, name, rest) =>
      Plain(lit) && (lit != "" ==> lit[|lit| - 1] != '{') && BraceFree(name) && WellFormed(rest)
  }

  function Text(t: Template): string {
    match t
    case End(lit) => lit
    case Hole(lit, name, rest) => lit + (Token(name) + Text(rest))
  }

  type Vars = map<string, string>

  /** The intended meaning: every hole filled at once, unknown names left as they are. */
  function Subst(t: Template, env: Vars): string {
    match t
    case End(lit) => lit
    case Hole(lit, name, rest) => lit + (GetOr(env, name, Token(name)) + Subst(rest, env))
  }

  /** One ReplaceAll per key, in the given order. */
  function Iterate(s: string, keys: seq<string>, env: Vars): string
    requires forall k :: k in keys ==> k in env
    decreases |keys|
  {
    if keys == [] then s
    else Iterate(ReplaceAll(s, Token(keys[0]), env[keys[0]]), keys[1..], env)
  }

  // ---------------------------------------------------------------- one pass

  /** Some end of v could begin, or already contains from there, the token. */
  ghost predicate Touches(v: string, tok: string) {
    exists i :: 0 <= i < |v| && (v[i..] <= tok || tok <= v[i..])
  }

  /** A value without an opening brace touches no token. */
  lemma BracelessTouchesNothing(v: string, name: string)
    requires '{' !in v
    ensures !Touches(v, Token(name))
  {
    forall i | 0 <= i < |v| ensures !(v[i..] <= Token(name) || Token(name) <= v[i..]) {
      assert v[i..][0] == v[i] && Token(name)[0] == '{';
    }
  }

  /** An occurrence of a token shows its two opening braces, its name and its closing brace. */
  lemma OccurrenceShape(s: string, k: string, i: nat)
    requires OccursAt(s, Token(k), i)
    ensures i + 4 + |k| <= |s| && s[i] == '{' && s[i + 1] == '{' && s[i + 2 + |k|] == '}'
    ensures forall j :: 0 <= j < |k| ==> s[i + 2 + j] == k[j]
  {
    var tok := Token(k);
    assert forall j :: 0 <= j < |tok| ==> s[i + j] == s[i..][j] == tok[j];
    assert s[i + 0] == tok[0] && s[i + 1] == tok[1] && s[i + (2 + |k|)] == tok[2 + |k|];
    forall j | 0 <= j < |k| ensures s[i + 2 + j] == k[j] {
      assert s[i + (2 + j)] == tok[2 + j];
    }
  }

  /** No token begins in the literal text of a template. */
  lemma LiteralIsQuiet(lit: string, rest: string, k: string)
    requires Plain(lit) && (rest != "" && lit != "" ==> lit[|lit| - 1] != '{')
    ensures forall i :: 0 <= i < |lit| ==> !OccursAt(lit + rest, Token(k), i)
  {
    forall i | 0 <= i < |lit| && OccursAt(lit + rest, Token(k), i) ensures false {
      OccurrenceShape(lit + rest, k, i);
    }
  }

  /** Inside another name's token no token of k begins. */
  lemma TokenIsQuiet(name: string, rest: string, k: string)
    requires BraceFree(name) && BraceFree(k) && name != k
    ensures forall i :: 0 <= i < |Token(name)| ==> !OccursAt(Token(name) + rest, Token(k), i)
  {
    var s := Token(name) + rest;
    TokenShape(name, rest);
    forall i | 0 <= i < |Token(name)| && OccursAt(s, Token(k), i) ensures false {
      OccurrenceShape(s, k, i);
      if i == 0 { SameToken(name, k, s); }
    }
  }

  lemma TokenShape(name: string, rest: string)
    ensures var s := Token(name) + rest;
            && s[0] == '{' && s[1] == '{' && s[2 + |name|] == '}' && s[3 + |name|] == '}'
            && forall j :: 0 <= j < |name| ==> s[2 + j] == name[j]
  {
  }

  lemma FirstClosing(s: string, n: nat, m: nat)
    requires n < |s| && m < |s| && s[n] == '}' && s[m] == '}' && '}' !in s[..n] && '}' !in s[..m]
    ensures n == m
  {
    assert forall j :: 0 <= j < n ==> s[j] in s[..n];
    assert forall j :: 0 <= j < m ==> s[j] in s[..m];
  }

  lemma SameToken(name: string, k: string, s: string)
    requires BraceFree(name) && BraceFree(k) && |s| >= 4 + |name| && |s| >= 4 + |k|
    requires (forall j :: 0 <= j < |name| ==> s[2 + j] == name[j]) && s[2 + |name|] == '}'
    requires (forall j :: 0 <= j < |k| ==> s[2 + j] == k[j]) && s[2 + |k|] == '}'
    ensures name == k
  {
    var body := s[2..];
    assert body[..|name|] == name && body[..|k|] == k;
    FirstClosing(body, |name|, |k|);
  }

  lemma ValueIsQuiet(v: string, rest: string, k: string)
    requires !Touches(v, Token(k))
    ensures forall i :: 0 <= i < |v| ==> !OccursAt(v + rest, Token(k), i)
  {
    forall i | 0 <= i < |v| && OccursAt(v + rest, Token(k), i) ensures false {
      OccurrenceTouches(v, rest, Token(k), i);
    }
  }

  lemma OccurrenceTouches(v: string, rest: string, tok: string, i: nat)
    requires i < |v| && OccursAt(v + rest, tok, i)
    ensures Touches(v, tok)
  {
    assert (v + rest)[i..] == v[i..] + rest;
    PrefixesCompare(v[i..], rest, tok);
  }

  lemma PrefixesCompare(a: string, b: string, p: string)
    requires p <= a + b
    ensures a <= p || p <= a
  {
    if |p| <= |a| {
      assert (a + b)[..|p|] == a[..|p|];
    } else {
      assert p[..|a|] == (a + b)[..|p|][..|a|] == a;
    }
  }

  /** Replacing k's token in a partly filled template fills exactly k's holes. */
  lemma {:induction false} PassFillsHoles(t: Template, env: Vars, k: string, v: string)
    requires WellFormed(t) && BraceFree(k) && k !in env
    requires forall a :: a in env ==> !Touches(env[a], Token(k))
    ensures ReplaceAll(Subst(t, env), Token(k), v) == Subst(t, env[k := v])
    decreases t
  {
    match t
    case End(lit) =>
      LiteralIsQuiet(lit, "", k);
      ReplaceSkips(lit, "", Token(k), v);
      assert lit + "" == lit;
    case Hole(lit, name, rest) =>
      PassFillsHoles(rest, env, k, v);
      PassFillsHole(name, Subst(rest, env), env, k, v);
      var filled := GetOr(env, name, Token(name)) + Subst(rest, env);
      LiteralIsQuiet(lit, filled, k);
      ReplaceSkips(lit, filled, Token(k), v);
      assert Subst(t, env) == lit + filled;
  }

  lemma PassFillsHole(name: string, tail: string, env: Vars, k: string, v: string)
    requires BraceFree(name) && BraceFree(k) && k !in env
    requires forall a :: a in env ==> !Touches(env[a], Token(k))
    ensures ReplaceAll(GetOr(env, name, Token(name)) + tail, Token(k), v)
            == GetOr(env[k := v], name, Token(name)) + ReplaceAll(tail, Token(k), v)
  {
    if name == k {
      ReplaceHits(tail, Token(k), v);
    } else {
      var fill := GetOr(env, name, Token(name));
      if name in env { ValueIsQuiet(fill, tail, k); } else { TokenIsQuiet(name, tail, k); }
      ReplaceSkips(fill, tail, Token(k), v);
    }
  }

  // ---------------------------------------------------------------- all passes

  /** keys lists the variables of env, each once, in the order of the passes. */
  ghost predicate Enumerates(keys: seq<string>, env: Vars) {
    && (forall k :: k in keys <==> k in env)
    && (forall i, j :: 0 <= i < j < |keys| ==> keys[i] != keys[j])
  }

  /** Inserting v before the pass that replaces k's token by w is harmless: v does not touch the
      token, or that pass changes nothing. */
  ghost predicate Harmless(v: string, k: string, w: string) {
    !Touches(v, Token(k)) || w == Token(k)
  }

  /** No value inserted by an earlier pass is taken apart by a later one. */
  ghost predicate Untouched(keys: seq<string>, env: Vars)
    requires Enumerates(keys, env)
  {
    forall i, j :: 0 <= i < j < |keys| ==> Harmless(env[keys[i]], keys[j], env[keys[j]])
  }

  lemma HarmlessPass(t: Template, env: Vars, k: string, v: string)
    requires WellFormed(t) && BraceFree(k) && k !in env
    requires forall a :: a in env ==> Harmless(env[a], k, v)
    ensures ReplaceAll(Subst(t, env), Token(k), v) == Subst(t, env[k := v])
  {
    if v == Token(k) {
      ReplaceBySelf(Subst(t, env), Token(k));
      SubstToken(t, env, k);
    } else {
      PassFillsHoles(t, env, k, v);
    }
  }

  ghost function Restrict(env: Vars, keys: seq<string>): Vars {
    map k | k in keys && k in env :: env[k]
  }

  lemma {:induction false} RestFillsRest(t: Template, keys: seq<string>, env: Vars, n: nat)
    requires WellFormed(t) && Enumerates(keys, env) && Untouched(keys, env) && n <= |keys|
    requires forall k :: k in keys ==> BraceFree(k)
    ensures Iterate(Subst(t, Restrict(env, keys[..n])), keys[n..], env) == Subst(t, env)
    decreases |keys| - n
  {
    var done := Restrict(env, keys[..n]);
    if n == |keys| {
      assert keys[..n] == keys && done == env;
    } else {
      var k := keys[n];
      assert k in keys && k !in keys[..n];
      forall a | a in done ensures Harmless(done[a], k, env[k]) {
        var i :| 0 <= i < n && keys[i] == a;
        assert Harmless(env[keys[i]], keys[n], env[keys[n]]);
      }
      HarmlessPass(t, done, k, env[k]);
      assert done[k := env[k]] == Restrict(env, keys[..n + 1]);
      assert keys[n..][0] == k && keys[n..][1..] == keys[n + 1..];
      RestFillsRest(t, keys, env, n + 1);
    }
  }

  lemma {:induction false} SubstNothing(t: Template)
    ensures Subst(t, map[]) == Text(t)
  {
    if t.Hole? { SubstNothing(t.rest); }
  }

  /** The iterated replacement is one simultaneous substitution, in every pass order in which
      no inserted value touches the token of a later pass that changes it. */
  lemma IterateIsSubst(t: Template, keys: seq<string>, env: Vars)
    requires WellFormed(t) && Enumerates(keys, env) && Untouched(keys, env)
    requires forall k :: k in keys ==> BraceFree(k)
    ensures Iterate(Text(t), keys, env) == Subst(t, env)
  {
    SubstNothing(t);
    assert Restrict(env, keys[..0]) == map[] && keys[0..] == keys;
    RestFillsRest(t, keys, env, 0);
  }

  /** With values free of opening braces the order of the passes does not matter at all. */
  lemma BracelessValuesAnyOrder(t: Template, keys: seq<string>, env: Vars)
    requires WellFormed(t) && Enumerates(keys, env)
    requires forall k :: k in env ==> BraceFree(k) && '{' !in env[k]
    ensures Iterate(Text(t), keys, env) == Subst(t, env)
  {
    forall i, j | 0 <= i < j < |keys| ensures Harmless(env[keys[i]], keys[j], env[keys[j]]) {
      assert keys[i] in keys;
      BracelessTouchesNothing(env[keys[i]], keys[j]);
    }
    IterateIsSubst(t, keys, env);
  }

  // ---------------------------------------------------------------- the condition is exact

  ghost predicate AlwaysSimultaneous(a: string, v: string, k: string, w: string) {
    forall t :: WellFormed(t) ==>
      Iterate(Text(t), [a, k], map[a := v, k := w]) == Subst(t, map[a := v, k := w])
  }

  /** A well-formed template on which a touching value is substituted a second time. */
  lemma TouchingMisfires(a: string, v: string, k: string, w: string) returns (t: Template)
    requires BraceFree(a) && BraceFree(k) && a != k && Touches(v, Token(k)) && w != Token(k)
    ensures WellFormed(t)
    ensures Iterate(Text(t), [a, k], map[a := v, k := w]) != Subst(t, map[a := v, k := w])
  {
    var i, r := Completion(v, k);
    t := Hole("", a, End(r));
    var env := map[a := v, k := w];
    SubstNothing(t);
    PassFillsHoles(t, map[], a, v);
    assert Subst(t, map[][a := v]) == v + r == Subst(t, env);
    ReplaceChanges(v + r, Token(k), w, i);
    IterateTwo(Text(t), a, k, env);
  }

  /** Plain text that completes an end of v to the token it touches. */
  lemma Completion(v: string, k: string) returns (i: nat, r: string)
    requires BraceFree(k) && Touches(v, Token(k))
    ensures Plain(r) && OccursAt(v + r, Token(k), i)
  {
    var tok := Token(k);
    i :| 0 <= i < |v| && (v[i..] <= tok || tok <= v[i..]);
    r := if tok <= v[i..] then "" else tok[|v| - i..];
    CompletionIsPlain(k, |v| - i);
    assert (v + r)[i..] == v[i..] + r;
    if !(tok <= v[i..]) { assert v[i..] + r == tok; }
  }

  lemma IterateTwo(s: string, a: string, k: string, env: Vars)
    requires a in env && k in env
    ensures Iterate(s, [a, k], env) == ReplaceAll(ReplaceAll(s, Token(a), env[a]), Token(k), env[k])
  {
    var first := ReplaceAll(s, Token(a), env[a]);
    assert [a, k][1..] == [k] && [k][1..] == [];
    assert Iterate(first, [k], env) == Iterate(ReplaceAll(first, Token(k), env[k]), [], env);
  }

  lemma CompletionIsPlain(k: string, n: int)
    requires BraceFree(k)
    ensures 0 < n <= |Token(k)| ==> Plain(Token(k)[n..])
    ensures Plain("")
  {
    if 0 < n <= |Token(k)| {
      var r := Token(k)[n..];
      assert forall i :: 0 <= i < |r| && n + i >= 2 ==> r[i] == Token(k)[n + i] != '{';
    }
  }

  lemma {:induction false} SubstToken(t: Template, env: Vars, k: string)
    requires k !in env
    ensures Subst(t, env[k := Token(k)]) == Subst(t, env)
  {
    if t.Hole? { SubstToken(t.rest, env, k); }
  }

  /** For a session of two variables the passes agree with the simultaneous substitution on
      every well-formed template if and only if the first value does not touch the second
      token (or the second value is that very token, so that replacing it does nothing). */
  lemma AlwaysSimultaneousIff(a: string, v: string, k: string, w: string)
    requires BraceFree(a) && BraceFree(k) && a != k
    ensures AlwaysSimultaneous(a, v, k, w) <==> Harmless(v, k, w)
  {
    var env := map[a := v, k := w];
    if Harmless(v, k, w) {
      forall t | WellFormed(t) ensures Iterate(Text(t), [a, k], env) == Subst(t, env) {
        IterateIsSubst(t, [a, k], env);
      }
    } else {
      var t := TouchingMisfires(a, v, k, w);
    }
  }

  // ---------------------------------------------------------------- each side condition is needed

  /** Sorting does not prevent injection: a's value is b's token, and b comes later. */
  lemma InjectionExample()
    ensures Iterate("{{a}}", ["a", "b"], map["a" := "{{b}}", "b" := "x"]) == "x"
    ensures Subst(Hole("", "a", End("")), map["a" := "{{b}}", "b" := "x"]) == "{{b}}"
  {
    assert ReplaceAll("{{a}}", "{{a}}", "{{b}}") == "{{b}}" + ReplaceAll("", "{{a}}", "{{b}}");
    assert ReplaceAll("{{b}}", "{{b}}", "x") == "x" + ReplaceAll("", "{{b}}", "x");
    IterateTwo("{{a}}", "a", "b", map["a" := "{{b}}", "b" := "x"]);
  }

  /** A literal that is not Plain: a hole nested in braces.  Filling it with the name of a later
      variable makes a token of that variable, whatever the two names are. */
  lemma NestedHoleMisfires(a: string, b: string, w: string)
    requires BraceFree(a) && BraceFree(b) && a != b
    ensures var t, env := Hole("{{", a, End("}}")), map[a := b, b := w];
            Iterate(Text(t), [a, b], env) == w && Subst(t, env) == Token(b)
  {
    FirstPass("{{", a, "}}", b);
    assert "{{" + (b + "}}") == Token(b);
    TokenReplaced(b, w);
    IterateTwo("{{" + (Token(a) + "}}"), a, b, map[a := b, b := w]);
  }

  /** One pass over a token with opening braces right before it and plain text behind it. */
  lemma FirstPass(pre: string, a: string, post: string, v: string)
    requires BraceFree(a) && Plain(post) && forall i :: 0 <= i < |pre| ==> pre[i] == '{'
    ensures ReplaceAll(pre + (Token(a) + post), Token(a), v) == pre + (v + post)
  {
    var inner := Token(a) + post;
    forall i | 0 <= i < |pre| ensures !OccursAt(pre + inner, Token(a), i) {
      if OccursAt(pre + inner, Token(a), i) { OccurrenceShape(pre + inner, a, i); }
    }
    ReplaceSkips(pre, inner, Token(a), v);
    ReplaceHits(post, Token(a), v);
    LiteralIsQuiet(post, "", a);
    ReplaceSkips(post, "", Token(a), v);
    assert post + "" == post;
  }

  /** A literal that ends in a brace right before a hole: an empty value lets it meet the brace
      that follows the hole. */
  lemma BraceBeforeHoleMisfires(a: string, b: string, w: string)
    requires BraceFree(a) && BraceFree(b) && a != b
    ensures var t, env := Hole("{", a, End("{" + b + "}}")), map[a := "", b := w];
            Iterate(Text(t), [a, b], env) == w && Subst(t, env) == Token(b)
  {
    var tail := "{" + b + "}}";
    FirstPass("{", a, tail, "");
    assert "{" + ("" + tail) == Token(b);
    TokenReplaced(b, w);
    IterateTwo("{" + (Token(a) + tail), a, b, map[a := "", b := w]);
  }

  lemma TokenReplaced(b: string, w: string)
    ensures ReplaceAll(Token(b), Token(b), w) == w
  {
    ReplaceHits("", Token(b), w);
    assert Token(b) + "" == Token(b) && w + "" == w;
  }

  /** A variable whose name contains braces swallows two holes at once, whatever their names. */
  lemma BraceInKeyMisfires(x: string, a: string, v: string, w: string)
    requires BraceFree(x) && BraceFree(a) && x != a && Plain(v)
    ensures var k := x + "}}{{" + a;
            var t, env := Hole("", x, Hole("", a, End(""))), map[k := v, a := w];
            Iterate(Text(t), [k, a], env) == v && Subst(t, env) == Token(x) + w
  {
    var k := x + "}}{{" + a;
    assert |k| > |x| && |k| > |a|;
    var t, env := Hole("", x, Hole("", a, End(""))), map[k := v, a := w];
    TwoHoles(x, a, env);
    assert Token(x) + Token(a) == Token(k);
    TokenReplaced(k, v);
    LiteralIsQuiet(v, "", a);
    ReplaceSkips(v, "", Token(a), w);
    assert v + "" == v;
    IterateTwo(Text(t), k, a, env);
  }

  lemma TwoHoles(x: string, a: string, env: Vars)
    ensures var t := Hole("", x, Hole("", a, End("")));
            && Text(t) == Token(x) + Token(a)
            && Subst(t, env) == GetOr(env, x, Token(x)) + GetOr(env, a, Token(a))
  {
    var inner := Hole("", a, End(""));
    var x', a' := GetOr(env, x, Token(x)), GetOr(env, a, Token(a));
    assert Text(inner) == Token(a) by { assert "" + (Token(a) + "") == Token(a); }
    assert Subst(inner, env) == a' by { assert "" + (a' + "") == a'; }
    assert "" + (x' + a') == x' + a';
    assert Text(Hole("", x, inner)) == Token(x) + Text(inner);
  }

  // ---------------------------------------------------------------- sorted keys

  /** The byte order of sort.Strings (on code points, with which UTF-8 agrees). */
  predicate Less(a: string, b: string) {
    if b == "" then false
    else if a == "" then true
    else if a[0] != b[0] then a[0] < b[0]
    else Less(a[1..], b[1..])
  }

  lemma {:induction false} LessTotal(a: string, b: string)
    ensures Less(a, b) || a == b || Less(b, a)
  {
    if a != "" && b != "" && a[0] == b[0] {
      LessTotal(a[1..], b[1..]);
      assert a == [a[0]] + a[1..] && b == [b[0]] + b[1..];
    }
  }

  lemma {:induction false} LessTransitive(a: string, b: string, c: string)
    requires Less(a, b) && Less(b, c)
    ensures Less(a, c) && a != c
  {
    if a != "" && a[0] == b[0] && b[0] == c[0] {
      LessTransitive(a[1..], b[1..], c[1..]);
    }
  }

  lemma {:induction false} LessIrreflexive(a: string)
    ensures !Less(a, a)
  {
    if a != "" { LessIrreflexive(a[1..]); }
  }

  /** Less is the dictionary order: at the first difference the smaller character comes first, and
      a proper beginning comes before the whole. */
  lemma {:induction false} LessMeans(a: string, b: string)
    ensures Less(a, b) <==> exists i :: FirstDifference(a, b, i) && i < |b| && (i < |a| ==> a[i] < b[i])
  {
    if a != "" && b != "" && a[0] == b[0] {
      LessMeans(a[1..], b[1..]);
      if i :| FirstDifference(a[1..], b[1..], i) && i < |b[1..]| && (i < |a[1..]| ==> a[1..][i] < b[1..][i]) {
        assert FirstDifference(a, b, i + 1);
      }
      if i :| FirstDifference(a, b, i) && i < |b| && (i < |a| ==> a[i] < b[i]) {
        assert FirstDifference(a[1..], b[1..], i - 1);
      }
    } else {
      assert FirstDifference(a, b, 0);
    }
  }

  /** a and b agree before i, and i is the end of one of them or a place where they differ. */
  ghost predicate FirstDifference(a: string, b: string, i: int) {
    && 0 <= i <= |a| && i <= |b| && (i < |a| && i < |b| ==> a[i] != b[i])
    && forall j :: 0 <= j < i ==> a[j] == b[j]
  }

  ghost predicate Sorted(keys: seq<string>) {
    forall i, j :: 0 <= i < j < |keys| ==> Less(keys[i], keys[j])
  }

  function Insert(keys: seq<string>, k: string): seq<string> {
    if keys == [] || Less(k, keys[0]) then [k] + keys else [keys[0]] + Insert(keys[1..], k)
  }

  lemma {:induction false} InsertSorts(keys: seq<string>, k: string)
    requires Sorted(keys) && k !in keys
    ensures Sorted(Insert(keys, k))
    ensures forall x :: x in Insert(keys, k) <==> x == k || x in keys
  {
    if keys == [] {
    } else if Less(k, keys[0]) {
      forall j | 0 < j < |keys| ensures Less(k, keys[j]) { LessTransitive(k, keys[0], keys[j]); }
    } else {
      InsertSorts(keys[1..], k);
      LessTotal(k, keys[0]);
      var rest := Insert(keys[1..], k);
      forall x | x in rest ensures Less(keys[0], x) {
        if x != k { var i :| 0 <= i < |keys[1..]| && keys[1..][i] == x; }
      }
      assert forall x :: x in keys <==> x == keys[0] || x in keys[1..];
    }
  }

  /** Two sorted listings of the same keys are the same listing. */
  lemma {:induction false} SortedUnique(a: seq<string>, b: seq<string>)
    requires Sorted(a) && Sorted(b) && forall x :: x in a <==> x in b
    ensures a == b
    decreases |a|
  {
    HeadIn(a);
    HeadIn(b);
    if a != [] {
      SortedHead(a, b);
      forall x ensures x in a[1..] <==> x in b[1..] {
        SortedTail(a, x);
        SortedTail(b, x);
      }
      SortedUnique(a[1..], b[1..]);
    }
  }

  lemma HeadIn(a: seq<string>)
    ensures a != [] ==> a[0] in a
  {
  }

  lemma SortedTail(a: seq<string>, x: string)
    requires Sorted(a) && a != []
    ensures x in a[1..] <==> x in a && x != a[0]
  {
    LessIrreflexive(a[0]);
  }

  lemma SortedHead(a: seq<string>, b: seq<string>)
    requires Sorted(a) && Sorted(b) && a != [] && b != [] && a[0] in b && b[0] in a
    ensures a[0] == b[0]
  {
    if a[0] != b[0] {
      LessTransitive(a[0], b[0], a[0]);
    }
  }

  /** The keys of a session in sorted order. */
  ghost function SortedKeys(keys: set<string>): (r: seq<string>)
    ensures Sorted(r) && forall x :: x in r <==> x in keys
  {
    if keys == {} then []
    else
      var k :| k in keys;
      var rest := SortedKeys(keys - {k});
      InsertSorts(rest, k);
      Insert(rest, k)
  }

  // ---------------------------------------------------------------- the code

  /** fmt.Sprintf("%v", ...) on a decoded JSON value. */
  type Render = Json -> string

  ghost function Rendered(render: Render, data: Doc): Vars {
    map k | k in data :: render(data[k])
  }

  ghost predicate HasOpener(s: string) {
    !Plain(s)
  }

  /** What Interpolate computes, as a function of the session. */
  ghost function Interpolated(render: Render, data: Doc, s: string): string {
    if HasOpener(s) then Iterate(s, SortedKeys(data.Keys), Rendered(render, data)) else s
  }

  /** The fast path is sound: without "{{" no pass finds anything. */
  lemma {:induction false} PlainUnchanged(s: string, keys: seq<string>, env: Vars)
    requires Plain(s) && forall k :: k in keys ==> k in env
    ensures Iterate(s, keys, env) == s
    decreases |keys|
  {
    if keys != [] {
      LiteralIsQuiet(s, "", keys[0]);
      ReplaceSkips(s, "", Token(keys[0]), env[keys[0]]);
      assert s + "" == s;
      PlainUnchanged(s, keys[1..], env);
    }
  }

  lemma InterpolatedIsIterate(render: Render, data: Doc, s: string)
    ensures Interpolated(render, data, s) == Iterate(s, SortedKeys(data.Keys), Rendered(render, data))
  {
    if Plain(s) { PlainUnchanged(s, SortedKeys(data.Keys), Rendered(render, data)); }
  }

  ghost predicate HarmlessPair(render: Render, data: Doc, a: string, b: string)
    requires a in data && b in data
  {
    Harmless(render(data[a]), b, render(data[b]))
  }

  /** Every value is harmless to the keys sorted after its own. */
  ghost predicate HarmlessSession(render: Render, data: Doc) {
    forall a, b :: a in data && b in data && Less(a, b) ==> HarmlessPair(render, data, a, b)
  }

  ghost predicate Simultaneous(render: Render, data: Doc, t: Template) {
    Interpolated(render, data, Text(t)) == Subst(t, Rendered(render, data))
  }

  /** Interpolate is the simultaneous substitution whenever no value touches a later token. */
  lemma InterpolatedIsSubst(render: Render, data: Doc, t: Template)
    requires WellFormed(t) && (forall k :: k in data ==> BraceFree(k)) && HarmlessSession(render, data)
    ensures Simultaneous(render, data, t)
  {
    var keys, env := SortedKeys(data.Keys), Rendered(render, data);
    forall i, j | 0 <= i < j < |keys| ensures keys[i] != keys[j] {
      LessIrreflexive(keys[i]);
    }
    forall i, j | 0 <= i < j < |keys| ensures Harmless(env[keys[i]], keys[j], env[keys[j]]) {
      assert keys[i] in keys && keys[j] in keys && Less(keys[i], keys[j]);
      assert HarmlessPair(render, data, keys[i], keys[j]);
    }
    IterateIsSubst(t, keys, env);
    InterpolatedIsIterate(render, data, Text(t));
  }

  /** What a user of templates sees: under a harmless session a hole becomes the value of its
      variable, and stays as it is when there is no such variable. */
  lemma HoleBecomesValue(render: Render, data: Doc, pre: string, name: string, post: string)
    requires (forall k :: k in data ==> BraceFree(k)) && HarmlessSession(render, data) && BraceFree(name)
    requires Plain(pre) && (pre != "" ==> pre[|pre| - 1] != '{') && Plain(post)
    ensures Interpolated(render, data, pre + ("{{" + name + "}}" + post))
            == pre + ((if name in data then render(data[name]) else "{{" + name + "}}") + post)
  {
    var t, env := Hole(pre, name, End(post)), Rendered(render, data);
    InterpolatedIsSubst(render, data, t);
    var value := if name in data then render(data[name]) else "{{" + name + "}}";
    assert Text(End(post)) == post && Subst(End(post), env) == post;
    assert GetOr(env, name, Token(name)) == value;
    assert Text(t) == pre + ("{{" + name + "}}" + post);
    assert Subst(t, env) == pre + (value + post);
  }

  /** Part of a session, as it stands before all its variables have been extracted. */
  ghost function Part(data: Doc, names: set<string>): Doc {
    map k | k in data && k in names :: data[k]
  }

  /** Well-formed templates are substituted simultaneously under every part of the session. */
  ghost predicate AlwaysSimultaneousWithin(render: Render, data: Doc) {
    forall names: set<string>, t: Template :: WellFormed(t) ==> Simultaneous(render, Part(data, names), t)
  }

  /** The condition is exact for sessions of any size: every well-formed template is substituted
      simultaneously, under the session and under every part of it, if and only if every value is
      harmless to the keys sorted after its own. */
  lemma HarmlessSessionIff(render: Render, data: Doc)
    requires forall k :: k in data ==> BraceFree(k)
    ensures AlwaysSimultaneousWithin(render, data) <==> HarmlessSession(render, data)
  {
    if HarmlessSession(render, data) {
      forall names: set<string>, t: Template | WellFormed(t) ensures Simultaneous(render, Part(data, names), t) {
        forall a, b | a in Part(data, names) && b in Part(data, names) && Less(a, b)
          ensures HarmlessPair(render, Part(data, names), a, b)
        {
          assert HarmlessPair(render, data, a, b);
        }
        InterpolatedIsSubst(render, Part(data, names), t);
      }
    } else {
      var a, b :| a in data && b in data && Less(a, b) && !HarmlessPair(render, data, a, b);
      var t := HarmfulPairMisfires(render, data, a, b);
      var names := {a, b};
      assert WellFormed(t) && !Simultaneous(render, Part(data, names), t);
    }
  }

  lemma HarmfulPairMisfires(render: Render, data: Doc, a: string, b: string) returns (t: Template)
    requires a in data && b in data && Less(a, b) && BraceFree(a) && BraceFree(b)
    requires !HarmlessPair(render, data, a, b)
    ensures WellFormed(t) && !Simultaneous(render, Part(data, {a, b}), t)
  {
    var v, w := render(data[a]), render(data[b]);
    var two := Part(data, {a, b});
    LessIrreflexive(a);
    t := TouchingMisfires(a, v, b, w);
    assert Rendered(render, two) == map[a := v, b := w];
    assert two.Keys == {a, b};
    SortedUnique(SortedKeys(two.Keys), [a, b]);
    InterpolatedIsIterate(render, two, Text(t));
  }

  // ---------------------------------------------------------------- why the parts are needed

  /** The template with every hole a made the holes b and c. */
  function Splice(t: Template, a: string, b: string, c: string): Template {
    match t
    case End(lit) => t
    case Hole(lit, name, rest) =>
      if name == a then Hole(lit, b, Hole("", c, Splice(rest, a, b, c))) else Hole(lit, name, Splice(rest, a, b, c))
  }

  lemma {:induction false} SpliceText(t: Template, a: string, b: string, c: string)
    requires WellFormed(t) && BraceFree(b) && BraceFree(c)
    ensures WellFormed(Splice(t, a, b, c))
    ensures Text(Splice(t, a, b, c)) == Subst(t, map[a := Token(b) + Token(c)])
  {
    if t.Hole? {
      SpliceText(t.rest, a, b, c);
      if t.name == a {
        var inner := Hole("", c, Splice(t.rest, a, b, c));
        assert Text(inner) == Token(c) + Text(Splice(t.rest, a, b, c));
        assert Token(b) + Text(inner) == Token(b) + Token(c) + Text(Splice(t.rest, a, b, c));
      }
    }
  }

  lemma {:induction false} SpliceSubst(t: Template, a: string, b: string, c: string, v: string)
    requires a != b && a != c && b != c
    ensures Subst(Splice(t, a, b, c), map[b := "", c := v]) == Subst(t, map[a := v, b := "", c := v])
  {
    if t.Hole? {
      SpliceSubst(t.rest, a, b, c, v);
      if t.name == a {
        var inner := Hole("", c, Splice(t.rest, a, b, c));
        assert Subst(inner, map[b := "", c := v]) == v + Subst(Splice(t.rest, a, b, c), map[b := "", c := v]);
      }
    }
  }

  /** The value of a is taken apart by the pass of b and put together again by the pass of c. */
  lemma CancellingPasses(a: string, b: string, c: string, t: Template)
    requires BraceFree(a) && BraceFree(b) && BraceFree(c) && a != b && a != c && b != c && WellFormed(t)
    ensures var v := Token(b) + Token(c);
            var env := map[a := v, b := "", c := v];
            !Harmless(v, b, "") && Iterate(Text(t), [a, b, c], env) == Subst(t, env)
  {
    var v := Token(b) + Token(c);
    var env, two, u := map[a := v, b := "", c := v], map[b := "", c := v], Splice(t, a, b, c);
    assert Token(b) <= v[0..] && "" != Token(b);
    SubstNothing(t);
    PassFillsHoles(t, map[], a, v);
    SpliceText(t, a, b, c);
    assert map[][a := v] == map[a := v];
    assert [a, b, c][1..] == [b, c];
    assert Iterate(Text(t), [a, b, c], env) == Iterate(Text(u), [b, c], env);
    IterateTwo(Text(u), b, c, env);
    IterateTwo(Text(u), b, c, two);
    IterateIsSubst(u, [b, c], two);
    SpliceSubst(t, a, b, c, v);
  }

  /** A session that is not harmless, and yet every well-formed template is substituted
      simultaneously under it: the condition is exact only together with the session's parts. */
  lemma PartsAreNeeded(render: Render, data: Doc, a: string, b: string, c: string)
    requires BraceFree(a) && BraceFree(b) && BraceFree(c) && Less(a, b) && Less(b, c)
    requires data.Keys == {a, b, c} && render(data[b]) == ""
    requires render(data[a]) == Token(b) + Token(c) && render(data[c]) == Token(b) + Token(c)
    ensures !HarmlessSession(render, data)
    ensures forall t :: WellFormed(t) ==> Simultaneous(render, data, t)
  {
    ThreeSorted(a, b, c, data.Keys);
    CancellingPasses(a, b, c, End(""));
    assert !HarmlessPair(render, data, a, b);
    forall t | WellFormed(t) ensures Simultaneous(render, data, t) {
      CancellingSession(render, data, a, b, c, t);
    }
  }

  lemma CancellingSession(render: Render, data: Doc, a: string, b: string, c: string, t: Template)
    requires BraceFree(a) && BraceFree(b) && BraceFree(c) && a != b && a != c && b != c && WellFormed(t)
    requires data.Keys == {a, b, c} && SortedKeys(data.Keys) == [a, b, c] && render(data[b]) == ""
    requires render(data[a]) == Token(b) + Token(c) && render(data[c]) == Token(b) + Token(c)
    ensures Simultaneous(render, data, t)
  {
    ThreeRendered(render, data, a, b, c, Token(b) + Token(c));
    CancellingPasses(a, b, c, t);
    SimultaneousIf(render, data, t, [a, b, c], Rendered(render, data));
  }

  lemma ThreeRendered(render: Render, data: Doc, a: string, b: string, c: string, v: string)
    requires data.Keys == {a, b, c} && a != b && a != c && b != c
    requires render(data[a]) == v && render(data[b]) == "" && render(data[c]) == v
    ensures Rendered(render, data) == map[a := v, b := "", c := v]
  {
  }

  lemma SimultaneousIf(render: Render, data: Doc, t: Template, keys: seq<string>, env: Vars)
    requires keys == SortedKeys(data.Keys) && env == Rendered(render, data)
    requires Iterate(Text(t), keys, env) == Subst(t, env)
    ensures Simultaneous(render, data, t)
  {
    InterpolatedIsIterate(render, data, Text(t));
  }

  lemma ThreeSorted(a: string, b: string, c: string, keys: set<string>)
    requires Less(a, b) && Less(b, c) && keys == {a, b, c}
    ensures SortedKeys(keys) == [a, b, c] && a != b && a != c && b != c
  {
    LessTransitive(a, b, c);
    LessIrreflexive(a);
    LessIrreflexive(b);
    SortedUnique(SortedKeys(keys), [a, b, c]);
  }

  // ---------------------------------------------------------------- the session object

  class SessionContext {
    const render: Render
    var data: Doc

    constructor (render: Render)
      ensures this.render == render && data == map[]
    {
      this.render := render;
      data := map[];
    }

    method Set(key: string, value: Json)
      modifies this
      ensures data == old(data)[key := value]
    {
      data := data[key := value];
    }

    method Get(key: string) returns (r: Option<Json>)
      ensures r == if key in data then Some(data[key]) else None
    {
      r := if key in data then Some(data[key]) else None;
    }

    method Interpolate(s: string) returns (r: string)
      ensures r == Interpolated(render, data, s)
    {
      var opener := Contains(s);
      if !opener {
        return s;
      }
      var keys := CollectKeys(data.Keys);
      ghost var env := Rendered(render, data);
      r := s;
      for i := 0 to |keys|
        invariant Iterate(s, keys, env) == Iterate(r, keys[i..], env)
      {
        assert keys[i] in keys && keys[i..][1..] == keys[i + 1..];
        r := ReplaceAll(r, Token(keys[i]), render(data[keys[i]]));
      }
    }
  }

  /** The keys of the map, collected in whatever order it is iterated, then sorted. */
  method CollectKeys(names: set<string>) returns (keys: seq<string>)
    ensures keys == SortedKeys(names)
  {
    keys := [];
    var rest := names;
    while rest != {}
      invariant rest <= names && Sorted(keys)
      invariant forall k :: k in keys <==> k in names && k !in rest
    {
      var k :| k in rest;
      InsertSorts(keys, k);
      keys := Insert(keys, k);
      rest := rest - {k};
    }
    SortedUnique(keys, SortedKeys(names));
  }

  /** strings.Contains(s, "{{"). */
  method Contains(s: string) returns (r: bool)
    ensures r <==> HasOpener(s)
  {
    for i := 0 to |s|
      invariant forall j :: 0 <= j < i && j + 1 < |s| ==> !(s[j] == '{' && s[j + 1] == '{')
    {
      if i + 1 < |s| && s[i] == '{' && s[i + 1] == '{' {
        return true;
      }
    }
    return false;
  }
}
