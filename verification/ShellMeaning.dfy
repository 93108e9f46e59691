/** What words say, over their text: variables, conditionals, plain text, white space and errors, for every name,
    every value and every environment. */
module ShellMeaning {
  import opened Option
  import opened ShellTemplate
  import opened Text
  import opened ShellParser
  import opened ShellQuoting
  import opened ShellLaws

  // ---- The environment ----

  /** The entry is for the name: it is the name alone, or the name and an equals sign and a value. */
  predicate For(entry: string, name: string) {
    entry == name || (|entry| > |name| && entry[..|name|] == name && entry[|name|] == '=')
  }

  /** The value of the name: that of the first entry for it, and empty if there is none or it has no equals sign. */
  ghost predicate Holds(env: seq<string>, name: string, v: string) {
    || (v == "" && forall i :: 0 <= i < |env| ==> !For(env[i], name))
    || exists i :: FirstFor(env, name, i) && (env[i] == name + "=" + v || (env[i] == name && v == ""))
  }

  ghost predicate FirstFor(env: seq<string>, name: string, i: int) {
    0 <= i < |env| && forall j :: 0 <= j < i ==> !For(env[j], name)
  }

  lemma KeyIs(entry: string, name: string)
    requires '=' !in name
    ensures Key(entry) == name <==> For(entry, name)
    ensures forall v :: entry == name + "=" + v ==> Value(entry) == v
    ensures entry == name ==> Value(entry) == ""
  {
    if For(entry, name) {
      assert forall k :: 0 <= k < |name| ==> entry[k] == name[k] && name[k] in name;
      assert Find(entry, '=', 0) == |name|;
    }
    forall v | entry == name + "=" + v ensures Value(entry) == v {
      assert entry[..|name|] == name && entry[|name|] == '=';
      assert entry[|name| + 1..] == v;
    }
  }

  lemma {:induction false} LookupIs(env: seq<string>, name: string, v: string)
    requires '=' !in name && Holds(env, name, v)
    ensures Lookup(env, name) == v
  {
    if env != [] {
      KeyIs(env[0], name);
      if !For(env[0], name) {
        LaterEntry(env, name, v);
        LookupIs(env[1..], name, v);
      } else {
        var i :| FirstFor(env, name, i) && (env[i] == name + "=" + v || (env[i] == name && v == ""));
        assert i == 0;
      }
    }
  }

  lemma LaterEntry(env: seq<string>, name: string, v: string)
    requires Holds(env, name, v) && env != [] && !For(env[0], name)
    ensures Holds(env[1..], name, v)
  {
    if i :| FirstFor(env, name, i) && (env[i] == name + "=" + v || (env[i] == name && v == "")) {
      assert For(env[i], name);
      assert FirstFor(env[1..], name, i - 1) && env[1..][i - 1] == env[i];
    }
  }

  // ---- Variables and conditionals ----

  predicate DigitChar(u: Unicode, c: char) { '0' <= c <= '9' || (c >= '\U{80}' && u.digit(c)) }

  predicate NameChar(u: Unicode, c: char) {
    'a' <= c <= 'z' || 'A' <= c <= 'Z' || c == '_' || DigitChar(u, c) || (c >= '\U{80}' && u.letter(c))
  }

  /** A name as the shell has it: one digit, or letters, digits and underscores that do not start with a digit. */
  predicate Name(u: Unicode, name: string) {
    && name != "" && (forall c :: c in name ==> NameChar(u, c))
    && (DigitChar(u, name[0]) ==> |name| == 1)
  }

  lemma NamesRead(u: Unicode, name: string)
    requires Name(u, name)
    ensures WfName(u, name) && '=' !in name
  {
    assert name[0] in name;
  }

  lemma OnePiece(u: Unicode, word: string, p: Piece, env: seq<string>)
    requires Template(u, word).Parsed? && Template(u, word).value == [p]
    ensures Expand(u, word, env) == Ok(RenderPiece(p, env))
    ensures ExpandWords(u, word, env) == Ok(Split(MarkPiece(p, env)))
  {
    RenderOne(p, env);
  }

  lemma RenderOne(p: Piece, env: seq<string>)
    ensures RenderPieces([p], env) == RenderPiece(p, env) && MarkPieces([p], env) == MarkPiece(p, env)
  {
    assert [p][..|[p]| - 1] == [];
    assert RenderPieces([], env) + RenderPiece(p, env) == RenderPiece(p, env);
    assert MarkPieces([], env) + MarkPiece(p, env) == MarkPiece(p, env);
  }

  lemma ShowOne(p: Piece)
    ensures ShowPieces([p]) == ShowPiece(p)
  {
    assert [p][1..] == [];
    assert ShowPiece(p) + ShowPieces([]) == ShowPiece(p);
  }

  /** ${name} stands for the variable's value; inside double quotes it is one word, whatever is in it. */
  lemma VariableMeans(u: Unicode, name: string, v: string, env: seq<string>)
    requires Name(u, name) && Holds(env, name, v)
    ensures Expand(u, "${" + name + "}", env) == Ok(v)
    ensures Expand(u, "\"${" + name + "}\"", env) == Ok(v)
    ensures ExpandWords(u, "\"${" + name + "}\"", env) == Ok(if v == "" then [] else [v])
  {
    NamesRead(u, name);
    LookupIs(env, name, v);
    VariableReads(u, name);
    QuotedVariableReads(u, name);
    OnePiece(u, "${" + name + "}", Dollar(Ref(name)), env);
    OnePiece(u, "\"${" + name + "}\"", Double([Ref(name)]), env);
    RenderOneFrag(Ref(name), env);
    OneWord(v);
  }

  lemma VariableReads(u: Unicode, name: string)
    requires WfName(u, name)
    ensures var w := "${" + name + "}"; Template(u, w) == Parsed([Dollar(Ref(name))], |w|)
  {
    ShowOne(Dollar(Ref(name)));
    ParseShow(u, [Dollar(Ref(name))]);
  }

  lemma QuotedVariableReads(u: Unicode, name: string)
    requires WfName(u, name)
    ensures var w := "\"${" + name + "}\""; Template(u, w) == Parsed([Double([Ref(name)])], |w|)
  {
    var p := Double([Ref(name)]);
    ShowOne(p);
    assert ShowFrags([Ref(name)]) == ShowFrag(Ref(name)) + "";
    assert ShowPieces([p]) == "\"${" + name + "}\"";
    assert WfFrags(u, [Ref(name)]) && WfPiece(u, p, None);
    ParseShow(u, [p]);
  }

  lemma RenderOneFrag(f: Frag, env: seq<string>)
    ensures RenderFrags([f], env) == RenderFrag(f, env)
  {
    assert [f][..|[f]| - 1] == [];
    assert RenderFrags([], env) + RenderFrag(f, env) == RenderFrag(f, env);
  }

  /** ${name:-'s'} stands for s if the variable is empty or not set, and else for its value; ${name:+'s'} for s if the
      variable is set and not empty, and else for nothing. */
  lemma ConditionalMeans(u: Unicode, name: string, s: string, v: string, env: seq<string>)
    requires Name(u, name) && '\'' !in s && Holds(env, name, v)
    ensures Expand(u, "${" + name + ":-'" + s + "'}", env) == Ok(if v == "" then s else v)
    ensures Expand(u, "${" + name + ":+'" + s + "'}", env) == Ok(if v == "" then "" else s)
  {
    NamesRead(u, name);
    LookupIs(env, name, v);
    var body := [Single(s)];
    ConditionalReads(u, name, false, s);
    ConditionalReads(u, name, true, s);
    OnePiece(u, "${" + name + ":-'" + s + "'}", Dollar(Alt(name, false, body)), env);
    OnePiece(u, "${" + name + ":+'" + s + "'}", Dollar(Alt(name, true, body)), env);
    RenderOne(Single(s), env);
  }

  lemma ConditionalReads(u: Unicode, name: string, plus: bool, s: string)
    requires WfName(u, name) && '\'' !in s
    ensures var w := "${" + name + (if plus then ":+'" else ":-'") + s + "'}";
            Template(u, w) == Parsed([Dollar(Alt(name, plus, [Single(s)]))], |w|)
  {
    var p := Dollar(Alt(name, plus, [Single(s)]));
    var w := "${" + name + (if plus then ":+'" else ":-'") + s + "'}";
    ShowOne(p);
    ShowOne(Single(s));
    assert ShowPiece(p) == w;
    assert WfPiece(u, Single(s), Some('}'));
    assert WfPieces(u, [p], None);
    ParseShow(u, [p]);
  }

  // ---- Plain text ----

  predicate IsPlain(c: char) { c != '\'' && c != '"' && c != '$' && c != '\\' }

  predicate AllPlain(s: string) { forall c :: c in s ==> IsPlain(c) }

  function Plains(s: string): seq<Piece> {
    seq(|s|, i requires 0 <= i < |s| => Plain(s[i]))
  }

  lemma {:induction false} PlainTail(u: Unicode, w: string, i: nat)
    requires i <= |w| && AllPlain(w[i..])
    ensures ParseStop(u, w, i, None) == Parsed(Plains(w[i..]), |w|)
    decreases |w| - i
  {
    if i < |w| {
      assert w[i] == w[i..][0] && w[i] in w[i..];
      assert w[i..] == [w[i]] + w[i + 1..];
      assert forall c :: c in w[i + 1..] ==> c in w[i..];
      PlainTail(u, w, i + 1);
      assert Plains(w[i..]) == [Plain(w[i])] + Plains(w[i + 1..]);
      assert ParsePiece(u, w, i) == Parsed(Plain(w[i]), i + 1);
    }
  }

  lemma {:induction false} RenderPlains(s: string, env: seq<string>)
    ensures RenderPieces(Plains(s), env) == s && MarkPieces(Plains(s), env) == Marked(s, false)
  {
    if s != "" {
      var t := s[..|s| - 1];
      RenderPlains(t, env);
      assert Plains(s)[..|s| - 1] == Plains(t) && s == t + [s[|s| - 1]];
      assert Marked(s, false) == Marked(t, false) + [Mark(s[|s| - 1], false)];
    }
  }

  /** The rendering of a template up to k is that up to n, and that of the part from there on. */
  lemma {:induction false} RenderFrom(ps: seq<Piece>, n: nat, k: nat, env: seq<string>, a: string)
    requires n <= k <= |ps| && a == RenderPieces(ps[0..n], env)
    ensures RenderPieces(ps[0..k], env) == a + RenderPieces(ps[n..k], env)
    decreases k
  {
    if n == k {
      assert ps[n..k] == [] && RenderPieces([], env) == "";
    } else {
      RenderFrom(ps, n, k - 1, env, a);
      RenderTo(ps, n, k, env, a, RenderPieces(ps[n..k - 1], env));
    }
  }

  lemma RenderTo(ps: seq<Piece>, n: nat, k: nat, env: seq<string>, a: string, b: string)
    requires n < k <= |ps| && b == RenderPieces(ps[n..k - 1], env) && RenderPieces(ps[0..k - 1], env) == a + b
    ensures RenderPieces(ps[0..k], env) == a + RenderPieces(ps[n..k], env)
  {
    RenderNext(ps, 0, k, env);
    RenderNext(ps, n, k, env);
    Chained(a, b, RenderPiece(ps[k - 1], env), a + b, RenderPieces(ps[n..k], env));
  }

  lemma {:induction false} MarkFrom(ps: seq<Piece>, n: nat, k: nat, env: seq<string>, a: seq<Mark>)
    requires n <= k <= |ps| && a == MarkPieces(ps[0..n], env)
    ensures MarkPieces(ps[0..k], env) == a + MarkPieces(ps[n..k], env)
    decreases k
  {
    if n == k {
      assert ps[n..k] == [] && MarkPieces([], env) == [];
    } else {
      MarkFrom(ps, n, k - 1, env, a);
      MarkTo(ps, n, k, env, a, MarkPieces(ps[n..k - 1], env));
    }
  }

  lemma MarkTo(ps: seq<Piece>, n: nat, k: nat, env: seq<string>, a: seq<Mark>, b: seq<Mark>)
    requires n < k <= |ps| && b == MarkPieces(ps[n..k - 1], env) && MarkPieces(ps[0..k - 1], env) == a + b
    ensures MarkPieces(ps[0..k], env) == a + MarkPieces(ps[n..k], env)
  {
    RenderNext(ps, 0, k, env);
    RenderNext(ps, n, k, env);
    Chained(a, b, MarkPiece(ps[k - 1], env), a + b, MarkPieces(ps[n..k], env));
  }

  lemma Chained<T>(a: seq<T>, b: seq<T>, c: seq<T>, ab: seq<T>, bc: seq<T>)
    requires ab == a + b && bc == b + c
    ensures ab + c == a + bc
  {
  }

  lemma RenderNext(ps: seq<Piece>, n: nat, k: nat, env: seq<string>)
    requires n < k <= |ps|
    ensures RenderPieces(ps[n..k], env) == RenderPieces(ps[n..k - 1], env) + RenderPiece(ps[k - 1], env)
    ensures MarkPieces(ps[n..k], env) == MarkPieces(ps[n..k - 1], env) + MarkPiece(ps[k - 1], env)
  {
    assert ps[n..k][..|ps[n..k]| - 1] == ps[n..k - 1];
  }

  lemma RenderAppend(ps: seq<Piece>, qs: seq<Piece>, env: seq<string>)
    ensures RenderPieces(ps + qs, env) == RenderPieces(ps, env) + RenderPieces(qs, env)
    ensures MarkPieces(ps + qs, env) == MarkPieces(ps, env) + MarkPieces(qs, env)
  {
    var all := ps + qs;
    assert all[0..|ps|] == ps && all[|ps|..|all|] == qs && all[0..|all|] == all;
    RenderFrom(all, |ps|, |all|, env, RenderPieces(ps, env));
    MarkFrom(all, |ps|, |all|, env, MarkPieces(ps, env));
  }

  /** One after the other, two texts that can be written stand for one after the other what each stands for. */
  lemma ExpandConcat(u: Unicode, ps: seq<Piece>, qs: seq<Piece>, env: seq<string>)
    requires WfPieces(u, ps, None) && WfPieces(u, qs, None)
    requires !StartsWithBom(ShowPieces(ps)) && !StartsWithBom(ShowPieces(qs)) && !StartsWithBom(ShowPieces(ps) + ShowPieces(qs))
    ensures Expand(u, ShowPieces(ps), env).Ok? && Expand(u, ShowPieces(qs), env).Ok?
    ensures Expand(u, ShowPieces(ps) + ShowPieces(qs), env) ==
            Ok(Expand(u, ShowPieces(ps), env).value + Expand(u, ShowPieces(qs), env).value)
  {
    ShowAppend(ps, qs);
    ParseShow(u, ps);
    ParseShow(u, qs);
    ParseShow(u, ps + qs);
    RenderAppend(ps, qs, env);
  }

  lemma {:induction false} ShowAppend(ps: seq<Piece>, qs: seq<Piece>)
    ensures ShowPieces(ps + qs) == ShowPieces(ps) + ShowPieces(qs)
  {
    if ps == [] {
      assert ps + qs == qs;
    } else {
      ShowAppend(ps[1..], qs);
      assert ps + qs == [ps[0]] + (ps[1..] + qs);
      ShowCons(ps[0], ps[1..] + qs, ps + qs);
      ShowCons(ps[0], ps[1..], ps);
      Chained(ShowPiece(ps[0]), ShowPieces(ps[1..]), ShowPieces(qs), ShowPieces(ps), ShowPieces(ps[1..] + qs));
    }
  }

  lemma ShowCons(p: Piece, ps: seq<Piece>, all: seq<Piece>)
    requires all == [p] + ps
    ensures ShowPieces(all) == ShowPiece(p) + ShowPieces(ps)
  {
    assert all[1..] == ps;
  }

  /** Plain text stands for itself. */
  lemma PlainMeans(u: Unicode, s: string, env: seq<string>)
    requires AllPlain(s) && !StartsWithBom(s)
    ensures Expand(u, s, env) == Ok(s) && ExpandWords(u, s, env) == Ok(Split(Marked(s, false)))
  {
    assert s[0..] == s;
    PlainTail(u, s, 0);
    RenderPlains(s, env);
  }

  /** White space, as Unicode has it. */
  const SPACES: set<char> := {
    '\t', '\n', '\U{0B}', '\U{0C}', '\r', ' ', '\U{85}', '\U{A0}', '\U{1680}', '\U{2000}', '\U{2001}', '\U{2002}', '\U{2003}',
    '\U{2004}', '\U{2005}', '\U{2006}', '\U{2007}', '\U{2008}', '\U{2009}', '\U{200A}', '\U{2028}', '\U{2029}', '\U{202F}',
    '\U{205F}', '\U{3000}'}

  lemma SpacesAre(c: char)
    ensures IsSpace(c) <==> c in SPACES
  {
  }

  /** A character between two words separates them exactly if it is white space. */
  lemma SpaceSeparates(u: Unicode, a: string, c: char, b: string, env: seq<string>)
    requires a != "" && b != "" && AllPlain(a) && AllPlain(b) && IsPlain(c) && !StartsWithBom(a)
    requires (forall x :: x in a ==> x !in SPACES) && forall x :: x in b ==> x !in SPACES
    ensures ExpandWords(u, a + [c] + b, env) == Ok(if c in SPACES then [a, b] else [a + [c] + b])
  {
    var s := a + [c] + b;
    assert AllPlain(s) && s[0] == a[0];
    PlainMeans(u, s, env);
    NoSpaces(a);
    NoSpaces(b);
    SpacesAre(c);
    TwoRuns(a, c, b);
  }

  lemma NoSpaces(s: string)
    requires forall x :: x in s ==> x !in SPACES
    ensures forall k :: 0 <= k < |s| ==> !IsSpace(s[k])
  {
    forall k | 0 <= k < |s| ensures !IsSpace(s[k]) {
      assert s[k] in s;
      SpacesAre(s[k]);
    }
  }

  lemma TwoRuns(a: string, c: char, b: string)
    requires a != "" && b != ""
    requires (forall k :: 0 <= k < |a| ==> !IsSpace(a[k])) && forall k :: 0 <= k < |b| ==> !IsSpace(b[k])
    ensures Split(Marked(a + [c] + b, false)) == if IsSpace(c) then [a, b] else [a + [c] + b]
  {
    var s := a + [c] + b;
    var ma, m, mb := Marked(a, false), Mark(c, false), Marked(b, false);
    assert Marked(s, false) == (ma + [m]) + mb;
    assert Chars(ma) == a && Chars(mb) == b && Chars(Marked(s, false)) == s;
    if IsSpace(c) {
      SplitAppend(ma + [m], mb);
      SplitRunSeparator(ma, m);
      SplitRun(ma);
      SplitRun(mb);
    } else {
      SplitRun(Marked(s, false));
    }
  }

  // ---- A name without braces ----

  /** $name ends where the name does: the plain text after it stands for itself. */
  lemma BareVariableMeans(u: Unicode, name: string, rest: string, v: string, env: seq<string>)
    requires Name(u, name) && Holds(env, name, v) && AllPlain(rest)
    requires !DigitChar(u, name[0]) && rest != "" ==> !NameChar(u, rest[0])
    ensures Expand(u, "$" + name + rest, env) == Ok(v + rest)
  {
    var w, n := "$" + name + rest, 1 + |name|;
    NamesRead(u, name);
    LookupIs(env, name, v);
    NameEnds(u, w, name, rest);
    assert w[1..n] == name && w[n..] == rest;
    PlainTail(u, w, n);
    assert ParsePiece(u, w, 0) == Parsed(Dollar(Ref(name)), n);
    var ps := [Dollar(Ref(name))] + Plains(rest);
    assert Template(u, w) == Parsed(ps, |w|);
    RenderAppend([Dollar(Ref(name))], Plains(rest), env);
    RenderPlains(rest, env);
    RenderOne(Dollar(Ref(name)), env);
  }

  lemma NameEnds(u: Unicode, w: string, name: string, rest: string)
    requires Name(u, name) && w == "$" + name + rest
    requires !DigitChar(u, name[0]) && rest != "" ==> !NameChar(u, rest[0])
    ensures w[0] == '$' && w[1] != '{' && NameEnd(u, w, 1) == 1 + |name|
  {
    assert w[1] == name[0] && name[0] in name;
    assert forall k :: 1 <= k < 1 + |name| ==> w[k] == name[k - 1] && w[k] in name;
    if rest != "" { assert w[1 + |name|] == rest[0]; }
  }

  /** A dollar sign that no name or brace follows is one. */
  lemma BareDollarMeans(u: Unicode, rest: string, env: seq<string>)
    requires AllPlain(rest) && (rest != "" ==> !NameChar(u, rest[0]) && rest[0] != '{')
    ensures Expand(u, "$" + rest, env) == Ok("$" + rest)
  {
    var w := "$" + rest;
    if rest != "" { assert w[1] == rest[0]; }
    assert NameEnd(u, w, 1) == 1;
    assert w[1..] == rest;
    PlainTail(u, w, 1);
    assert ParsePiece(u, w, 0) == Parsed(Dollar(Lit('$')), 1);
    var ps := [Dollar(Lit('$'))] + Plains(rest);
    assert Template(u, w) == Parsed(ps, |w|);
    RenderAppend([Dollar(Lit('$'))], Plains(rest), env);
    RenderPlains(rest, env);
    RenderOne(Dollar(Lit('$')), env);
  }

  // ---- Open ends ----

  /** A single quote that is never closed runs to the end of the word. */
  lemma OpenSingleQuoteMeans(u: Unicode, s: string, env: seq<string>)
    requires '\'' !in s
    ensures Expand(u, "'" + s, env) == Ok(s)
  {
    var w := "'" + s;
    assert forall k :: 1 <= k < |w| ==> w[k] == s[k - 1];
    assert Find(w, '\'', 1) == |w|;
    assert w[1..|w|] == s;
    assert ParsePiece(u, w, 0) == Parsed(Single(s), |w|);
    assert ParseStop(u, w, |w|, None) == Parsed([], |w|);
    assert [Single(s)] + [] == [Single(s)];
    OnePiece(u, w, Single(s), env);
  }

  /** A backslash at the very end is dropped. */
  lemma FinalBackslashMeans(u: Unicode, s: string, env: seq<string>)
    requires AllPlain(s) && !StartsWithBom(s)
    ensures Expand(u, s + "\\", env) == Ok(s)
  {
    PlainThenBackslash(u, s + "\\", 0, s);
    assert (s + "\\")[0..|s|] == s;
    RenderPlains(s, env);
  }

  lemma {:induction false} PlainThenBackslash(u: Unicode, w: string, i: nat, s: string)
    requires i < |w| && w[|w| - 1] == '\\' && w[i..|w| - 1] == s && AllPlain(s)
    ensures ParseStop(u, w, i, None) == Parsed(Plains(s), |w|)
    decreases |w| - i
  {
    if i < |w| - 1 {
      assert w[i] == s[0] && w[i] in s;
      assert s == [w[i]] + s[1..] && forall c :: c in s[1..] ==> c in s;
      PlainThenBackslash(u, w, i + 1, s[1..]);
      assert Plains(s) == [Plain(w[i])] + Plains(s[1..]);
      assert ParsePiece(u, w, i) == Parsed(Plain(w[i]), i + 1);
    }
  }

  // ---- Errors ----

  /** A braced name must be followed by a closing brace or a colon. */
  lemma MissingColonMeans(u: Unicode, name: string, rest: string, env: seq<string>)
    requires Name(u, name)
    requires rest != "" ==> rest[0] != '}' && rest[0] != ':'
    requires !DigitChar(u, name[0]) && rest != "" ==> !NameChar(u, rest[0])
    ensures Expand(u, "${" + name + rest, env) == Err(MissingColon)
    ensures ExpandWords(u, "${" + name + rest, env) == Err(MissingColon)
  {
    var w := "${" + name + rest;
    BracedNameEnds(u, w, name, rest);
    assert ParseBraced(u, w, 2) == Bad(MissingColon);
    assert ParsePiece(u, w, 0) == Bad(MissingColon);
  }

  lemma BracedNameEnds(u: Unicode, w: string, name: string, rest: string)
    requires Name(u, name) && w == "${" + name + rest
    requires !DigitChar(u, name[0]) && rest != "" ==> !NameChar(u, rest[0])
    ensures w[0] == '$' && w[1] == '{' && NameEnd(u, w, 2) == 2 + |name| && w[2 + |name|..] == rest
    ensures rest != "" ==> w[2 + |name|] == rest[0]
  {
    assert w[2] == name[0] && name[0] in name;
    assert forall k :: 2 <= k < 2 + |name| ==> w[k] == name[k - 2] && w[k] in name;
    if rest != "" { assert w[2 + |name|] == rest[0]; }
  }

  /** After the colon only + and - are known. */
  lemma UnsupportedModifierMeans(u: Unicode, name: string, c: char, s: string, env: seq<string>)
    requires Name(u, name) && '\'' !in s && c != '+' && c != '-'
    ensures Expand(u, "${" + name + ([':', c] + ("'" + s + "'}")), env) == Err(UnsupportedModifier(Some(c)))
  {
    var rest := [':', c] + ("'" + s + "'}");
    var w := "${" + name + rest;
    BracedNameEnds(u, w, name, rest);
    ModifierReads(u, w, 2 + |name|, c, s);
    assert ParseBraced(u, w, 2) == Bad(UnsupportedModifier(Some(c)));
    assert ParsePiece(u, w, 0) == Bad(UnsupportedModifier(Some(c)));
  }

  lemma ModifierReads(u: Unicode, w: string, n: nat, c: char, s: string)
    requires n <= |w| && w[n..] == [':', c] + ("'" + s + "'}") && '\'' !in s
    ensures n + 2 <= |w| && w[n] == ':' && w[n + 1] == c
    ensures ParseStop(u, w, n + 2, Some('}')) == Parsed([Single(s)], |w|)
  {
    assert w[n] == w[n..][0] && w[n + 1] == w[n..][1];
    assert w[n + 2..] == w[n..][2..] == "'" + s + "'}";
    QuotedBodyReads(u, w, n + 2, s);
  }

  lemma QuotedBodyReads(u: Unicode, w: string, i: nat, s: string)
    requires i <= |w| && w[i..] == "'" + s + "'}" && '\'' !in s
    ensures ParseStop(u, w, i, Some('}')) == Parsed([Single(s)], |w|)
  {
    var shown := ShowPieces([Single(s)]);
    ShowOne(Single(s));
    assert "'" + s + "'}" == shown + "}";
    assert w[i..i + |shown + "}"|] == shown + "}";
    AtBoth(w, i, shown, "}");
    assert WfPieces(u, [Single(s)], Some('}'));
    ParseShowPieces(u, w, i, [Single(s)], Some('}'));
  }

  /** Nor may the word end there. */
  lemma MissingModifierMeans(u: Unicode, name: string, env: seq<string>)
    requires Name(u, name)
    ensures Expand(u, "${" + name + ":", env) == Err(UnsupportedModifier(None))
  {
    var w := "${" + name + ":";
    BracedNameEnds(u, w, name, ":");
    assert ParseStop(u, w, |w|, Some('}')) == Parsed([], |w|);
    assert ParseBraced(u, w, 2) == Bad(UnsupportedModifier(None));
    assert ParsePiece(u, w, 0) == Bad(UnsupportedModifier(None));
  }

  // ---- A value outside quotes ----

  /** Outside quotes a value is split at white space. */
  lemma UnquotedValueSplits(u: Unicode, name: string, a: string, c: char, b: string, env: seq<string>)
    requires Name(u, name) && Holds(env, name, a + [c] + b)
    requires a != "" && b != "" && !StartsWithBom(a)
    requires (forall x :: x in a ==> x !in SPACES) && forall x :: x in b ==> x !in SPACES
    ensures ExpandWords(u, "${" + name + "}", env) == Ok(if c in SPACES then [a, b] else [a + [c] + b])
  {
    var v, p := a + [c] + b, Dollar(Ref(name));
    NamesRead(u, name);
    LookupIs(env, name, v);
    ShowOne(p);
    ParseShow(u, [p]);
    OnePiece(u, "${" + name + "}", p, env);
    assert v[0] == a[0] && Decoded(v) == v;
    NoSpaces(a);
    NoSpaces(b);
    SpacesAre(c);
    TwoRuns(a, c, b);
  }
}
