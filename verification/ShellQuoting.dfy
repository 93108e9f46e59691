/** The grammar inverted: every well-formed template can be written down, and the parser reads it back. */
module ShellQuoting {
  import opened Option
  import opened ShellTemplate
  import opened Text
  import opened ShellParser

  // ---- Writing templates ----

  function ShowFrag(f: Frag): string
    decreases f, 0
  {
    match f
    case Lit(c) => if c == '"' || c == '$' then ['\\', c] else [c]
    case Ref(name) => "${" + name + "}"
    case Alt(name, plus, body) =>
      "${" + name + (if plus then ":+" else ":-") + ShowPieces(body) + "}"
  }

  function ShowFrags(fs: seq<Frag>): string
    decreases fs, 1
  {
    if fs == [] then "" else ShowFrag(fs[0]) + ShowFrags(fs[1..])
  }

  function ShowPiece(p: Piece): string
    decreases p, 0
  {
    match p
    case Plain(c) => [c]
    case Escaped(c) => ['\\', c]
    case Single(s) => "'" + s + "'"
    case Double(fs) => "\"" + ShowFrags(fs) + "\""
    case Dollar(f) => ShowFrag(f)
  }

  function ShowPieces(ps: seq<Piece>): string
    decreases ps, 1
  {
    if ps == [] then "" else ShowPiece(ps[0]) + ShowPieces(ps[1..])
  }

  // ---- Which templates can be written ----

  /** Nothing, one digit, or a run of name characters that does not start with a digit. */
  predicate WfName(u: Unicode, name: string) {
    if name != "" && IsDigit(u, name[0]) then |name| == 1 else forall c :: c in name ==> IsNameChar(u, c)
  }

  predicate WfFrag(u: Unicode, f: Frag)
    decreases f
  {
    match f
    case Lit(c) => true
    case Ref(name) => WfName(u, name)
    case Alt(name, plus, body) => WfName(u, name) && forall p :: p in body ==> WfPiece(u, p, Some('}'))
  }

  /** Inside double quotes a backslash must be followed by a literal character. */
  predicate WfFrags(u: Unicode, fs: seq<Frag>)
    decreases fs
  {
    && (forall f :: f in fs ==> WfFrag(u, f))
    && forall i :: 0 <= i < |fs| && fs[i] == Lit('\\') ==> i + 1 < |fs| && fs[i + 1].Lit?
  }

  /** An unquoted character is none of the special ones, nor the one that ends the surroundings. */
  predicate WfPiece(u: Unicode, p: Piece, stop: Option<char>)
    decreases p
  {
    match p
    case Plain(c) => c !in {'\'', '"', '$', '\\'} && stop != Some(c)
    case Escaped(c) => true
    case Single(s) => '\'' !in s
    case Double(fs) => WfFrags(u, fs)
    case Dollar(f) => !f.Lit? && WfFrag(u, f)
  }

  predicate WfPieces(u: Unicode, ps: seq<Piece>, stop: Option<char>) {
    forall p :: p in ps ==> WfPiece(u, p, stop)
  }

  // ---- Reading them back ----

  predicate At(w: string, i: nat, x: string) {
    i + |x| <= |w| && w[i..i + |x|] == x
  }

  lemma AtBoth(w: string, i: nat, a: string, b: string)
    requires At(w, i, a + b)
    ensures At(w, i, a) && At(w, i + |a|, b)
  {
    assert w[i..i + |a|] == (a + b)[..|a|] == a;
    assert w[i + |a|..i + |a| + |b|] == (a + b)[|a|..] == b;
  }

  lemma AtBracketed(w: string, i: nat, a: string, b: string, c: string)
    requires At(w, i, a + b + c)
    ensures At(w, i, a) && At(w, i + |a|, b) && At(w, i + |a| + |b|, c)
  {
    AtBoth(w, i, a + b, c);
    AtBoth(w, i, a, b);
  }

  /** A stop character is one that no written piece starts with. */
  ghost predicate Stops(stop: Option<char>) {
    stop == None || stop == Some('}')
  }

  lemma {:induction false} ParseShowPieces(u: Unicode, w: string, i: nat, ps: seq<Piece>, stop: Option<char>)
    requires WfPieces(u, ps, stop) && Stops(stop) && At(w, i, ShowPieces(ps))
    requires stop.None? ==> i + |ShowPieces(ps)| == |w|
    requires stop.Some? ==> At(w, i + |ShowPieces(ps)|, [stop.value])
    ensures ParseStop(u, w, i, stop) ==
            Parsed(ps, i + |ShowPieces(ps)| + if stop.Some? then 1 else 0)
    decreases ps, 1
  {
    if ps != [] {
      AtBoth(w, i, ShowPiece(ps[0]), ShowPieces(ps[1..]));
      ParseShowPiece(u, w, i, ps[0], stop);
      ParseShowPieces(u, w, i + |ShowPiece(ps[0])|, ps[1..], stop);
      assert ps == [ps[0]] + ps[1..];
    } else if stop.Some? {
      assert w[i] == w[i..i + 1][0] == stop.value;
    }
  }

  lemma {:induction false} ParseShowPiece(u: Unicode, w: string, i: nat, p: Piece, stop: Option<char>)
    requires WfPiece(u, p, stop) && Stops(stop) && At(w, i, ShowPiece(p))
    ensures i < |w| && stop != Some(w[i]) && (w[i] == '\\' ==> i + 1 < |w|)
    ensures ParsePiece(u, w, i) == Parsed(p, i + |ShowPiece(p)|)
    decreases p, 0
  {
    ShownPieceStarts(p);
    assert w[i] == w[i..i + |ShowPiece(p)|][0];
    match p {
      case Plain(c) =>
      case Escaped(c) => assert w[i + 1] == w[i..i + 2][1];
      case Single(s) => ParseShowSingle(u, w, i, s);
      case Double(fs) =>
        AtBracketed(w, i, "\"", ShowFrags(fs), "\"");
        ParseShowFrags(u, w, i + 1, fs, true);
      case Dollar(f) => ParseShowDollar(u, w, i, f);
    }
  }

  lemma ShownPieceStarts(p: Piece)
    ensures p.Plain? || p.Escaped? || p.Single? || p.Double? || !p.frag.Lit? ==> ShowPiece(p) != ""
    ensures p.Escaped? ==> |ShowPiece(p)| == 2 && ShowPiece(p)[0] == '\\'
    ensures p.Single? ==> ShowPiece(p)[0] == '\''
    ensures p.Double? ==> ShowPiece(p)[0] == '"'
    ensures p.Dollar? && !p.frag.Lit? ==> ShowPiece(p)[0] == '$'
  {
  }

  lemma ParseShowSingle(u: Unicode, w: string, i: nat, s: string)
    requires At(w, i, "'" + s + "'") && '\'' !in s
    ensures w[i] == '\'' && ParsePiece(u, w, i) == Parsed(Single(s), i + |s| + 2)
  {
    AtBracketed(w, i, "'", s, "'");
    assert w[i] == w[i..i + 1][0];
    FindEnd(w, i + 1, s);
  }

  lemma FindEnd(w: string, i: nat, s: string)
    requires At(w, i, s) && At(w, i + |s|, "'") && '\'' !in s
    ensures Find(w, '\'', i) == i + |s|
  {
    assert w[i + |s|] == w[i + |s|..i + |s| + 1][0];
    assert forall k :: i <= k < i + |s| ==> w[k] == s[k - i];
  }

  /** Written fragments are read back up to the closing quote, or to the end of an unclosed word. */
  lemma {:induction false} ParseShowFrags(u: Unicode, w: string, i: nat, fs: seq<Frag>, closed: bool)
    requires WfFrags(u, fs) && At(w, i, ShowFrags(fs))
    requires if closed then At(w, i + |ShowFrags(fs)|, "\"") else i + |ShowFrags(fs)| == |w|
    ensures ParseDouble(u, w, i) == Parsed(fs, i + |ShowFrags(fs)| + if closed then 1 else 0)
    decreases fs, 1
  {
    if fs == [] {
      assert closed ==> w[i] == w[i..i + 1][0];
    } else {
      var head, tail := ShowFrag(fs[0]), ShowFrags(fs[1..]);
      assert ShowFrags(fs) == head + tail;
      AtBoth(w, i, head, tail);
      WfTail(u, fs);
      ParseShowFrag(u, w, i, fs);
      var n := i + |head|;
      assert i + |ShowFrags(fs)| == n + |tail|;
      ParseShowFrags(u, w, n, fs[1..], closed);
      ParseDoubleNext(u, w, i, fs[0], n);
      assert fs == [fs[0]] + fs[1..];
    }
  }

  lemma WfTail(u: Unicode, fs: seq<Frag>)
    requires fs != [] && WfFrags(u, fs)
    ensures WfFrags(u, fs[1..])
  {
    assert forall k :: 0 <= k < |fs[1..]| ==> fs[1..][k] == fs[k + 1];
  }

  /** One fragment, and then the others. */
  lemma ParseDoubleNext(u: Unicode, w: string, i: nat, f: Frag, n: nat)
    requires i < |w| && w[i] != '"' && (w[i] == '\\' ==> i + 1 < |w|) && i < n <= |w|
    requires ParseFrag(u, w, i) == Parsed(f, n) && ParseDouble(u, w, n).Parsed?
    ensures ParseDouble(u, w, i) == Parsed([f] + ParseDouble(u, w, n).value, ParseDouble(u, w, n).next)
  {
  }

  lemma ShownFragStarts(f: Frag)
    ensures ShowFrag(f) != ""
    ensures !f.Lit? ==> ShowFrag(f)[0] == '$'
    ensures f.Lit? ==> ShowFrag(f)[0] != '"' && ShowFrag(f)[0] != '$'
  {
  }

  /** The first of the written fragments is read back. */
  lemma ParseShowFrag(u: Unicode, w: string, i: nat, fs: seq<Frag>)
    requires fs != [] && WfFrags(u, fs) && At(w, i, ShowFrag(fs[0])) && At(w, i + |ShowFrag(fs[0])|, ShowFrags(fs[1..]))
    ensures i < |w| && w[i] != '"' && (w[i] == '\\' ==> i + 1 < |w|)
    ensures ParseFrag(u, w, i) == Parsed(fs[0], i + |ShowFrag(fs[0])|)
    decreases fs, 0
  {
    var f := fs[0];
    ShownFragStarts(f);
    assert w[i] == w[i..i + |ShowFrag(f)|][0];
    if f.Lit? {
      if f.c == '"' || f.c == '$' {
        assert w[i + 1] == w[i..i + 2][1];
      } else if f.c == '\\' {
        var g := fs[1..][0];
        assert fs[1] == g;
        ShownFragStarts(g);
        AtBoth(w, i + 1, ShowFrag(g), ShowFrags(fs[1..][1..]));
        assert w[i + 1] == w[i + 1..i + 1 + |ShowFrag(g)|][0];
      }
    } else {
      ParseShowDollar(u, w, i, f);
    }
  }

  /** What follows the name of a written variable. */
  function Tail(f: Frag): string
    requires !f.Lit?
  {
    if f.Ref? then "}" else (if f.plus then ":+" else ":-") + (ShowPieces(f.body) + "}")
  }

  lemma {:induction false} ParseShowDollar(u: Unicode, w: string, i: nat, f: Frag)
    requires !f.Lit? && WfFrag(u, f) && At(w, i, ShowFrag(f))
    ensures i < |w| && w[i] == '$'
    ensures ParseDollar(u, w, i) == Parsed(f, i + |ShowFrag(f)|)
    decreases f, 0
  {
    DollarStarts(w, i, f);
    ParseShowBraced(u, w, i + 2, f);
  }

  lemma DollarStarts(w: string, i: nat, f: Frag)
    requires !f.Lit? && At(w, i, ShowFrag(f))
    ensures |ShowFrag(f)| == 2 + |f.name| + |Tail(f)|
    ensures i + 2 <= |w| && w[i] == '$' && w[i + 1] == '{'
    ensures At(w, i + 2, f.name) && At(w, i + 2 + |f.name|, Tail(f))
  {
    ShowFragIs(f);
    AtBoth(w, i, "${", f.name + Tail(f));
    assert w[i] == w[i..i + 2][0] && w[i + 1] == w[i..i + 2][1];
    AtBoth(w, i + 2, f.name, Tail(f));
  }

  lemma ShowFragIs(f: Frag)
    requires !f.Lit?
    ensures ShowFrag(f) == "${" + (f.name + Tail(f))
  {
    if f.Alt? {
      var sep := if f.plus then ":+" else ":-";
      calc {
        ShowFrag(f);
        "${" + f.name + sep + ShowPieces(f.body) + "}";
        "${" + (f.name + (sep + (ShowPieces(f.body) + "}")));
      }
    }
  }

  lemma {:induction false} ParseShowBraced(u: Unicode, w: string, i: nat, f: Frag)
    requires !f.Lit? && WfFrag(u, f) && At(w, i, f.name) && At(w, i + |f.name|, Tail(f))
    ensures ParseBraced(u, w, i) == Parsed(f, i + |f.name| + |Tail(f)|)
    decreases f, 0, 1
  {
    TailStarts(w, i + |f.name|, f);
    NameRead(u, w, i, f.name);
    if f.Alt? { ParseShowBody(u, w, i + |f.name|, f); }
  }

  lemma TailStarts(w: string, n: nat, f: Frag)
    requires !f.Lit? && At(w, n, Tail(f))
    ensures n < |w| && w[n] == (if f.Ref? then '}' else ':')
    ensures f.Alt? ==> n + 1 < |w| && w[n + 1] == (if f.plus then '+' else '-')
  {
    assert w[n] == w[n..n + |Tail(f)|][0];
    if f.Alt? { assert w[n + 1] == w[n..n + |Tail(f)|][1]; }
  }

  lemma {:induction false} ParseShowBody(u: Unicode, w: string, n: nat, f: Frag)
    requires f.Alt? && WfFrag(u, f) && At(w, n, Tail(f))
    ensures n + 2 <= |w|
    ensures ParseStop(u, w, n + 2, Some('}')) == Parsed(f.body, n + |Tail(f)|)
    decreases f, 0, 0
  {
    AtBoth(w, n, if f.plus then ":+" else ":-", ShowPieces(f.body) + "}");
    AtBoth(w, n + 2, ShowPieces(f.body), "}");
    ParseShowPieces(u, w, n + 2, f.body, Some('}'));
  }

  lemma NameRead(u: Unicode, w: string, i: nat, name: string)
    requires WfName(u, name) && At(w, i, name) && i + |name| < |w|
    requires w[i + |name|] == '}' || w[i + |name|] == ':'
    ensures NameEnd(u, w, i) == i + |name|
  {
    assert name != "" ==> w[i] == w[i..i + |name|][0];
    if name == "" || !IsDigit(u, w[i]) {
      assert forall k :: i <= k < i + |name| ==> w[k] == name[k - i];
    }
  }

  /** Parsing inverts writing, for every template that can be written. */
  lemma ParseShow(u: Unicode, ps: seq<Piece>)
    requires WfPieces(u, ps, None) && Decoded(ShowPieces(ps)) == ShowPieces(ps)
    ensures Template(u, ShowPieces(ps)) == Parsed(ps, |ShowPieces(ps)|)
  {
    ParseShowPieces(u, ShowPieces(ps), 0, ps, None);
  }
}
