/** What the expander promises its callers: quoting is faithful, values are inserted as they are, and
    the two results agree. */
module ShellLaws {
  import opened Option
  import opened ShellTemplate
  import opened Text
  import opened ShellParser
  import opened ShellQuoting

  // ---- Quoting round trips ----

  function Backslashed(s: string): string {
    if s == "" then "" else ['\\', s[0]] + Backslashed(s[1..])
  }

  /** The string with a backslash before every double quote and dollar sign. */
  function DoubleEscaped(s: string): string {
    if s == "" then "" else (if s[0] == '"' || s[0] == '$' then ['\\', s[0]] else [s[0]]) + DoubleEscaped(s[1..])
  }

  function DoubleQuoted(s: string): string { "\"" + DoubleEscaped(s) + "\"" }

  /** The word expands to the string in every environment, and to it as one word if it is not empty. */
  ghost predicate ExpandsTo(u: Unicode, word: string, s: string) {
    forall env :: && Expand(u, word, env) == Ok(s)
                  && ExpandWords(u, word, env) == Ok(if s == "" then [] else [s])
  }

  lemma SingleQuoteRoundTrip(u: Unicode, s: string)
    requires '\'' !in s
    ensures ExpandsTo(u, "'" + s + "'", s)
  {
    var ps := [Single(s)];
    assert ShowPieces(ps) == "'" + s + "'";
    ParseShow(u, ps);
    QuotedPiece(u, "'" + s + "'", Single(s), s);
  }

  lemma QuotedPiece(u: Unicode, word: string, p: Piece, s: string)
    requires Template(u, word).Parsed? && Template(u, word).value == [p]
    requires p.Single? || p.Double?
    requires forall env :: RenderPiece(p, env) == s
    ensures ExpandsTo(u, word, s)
  {
    forall env: seq<string>
      ensures Expand(u, word, env) == Ok(s)
      ensures ExpandWords(u, word, env) == Ok(if s == "" then [] else [s])
    {
      assert [p][..0] == [] && RenderPiece(p, env) == s;
      assert RenderPieces([p], env) == s;
      assert MarkPieces([p], env) == MarkPieces([], env) + MarkPiece(p, env) == Marked(s, true);
      OneWord(s);
    }
  }

  lemma OneWord(s: string)
    ensures Split(Marked(s, true)) == if s == "" then [] else [s]
  {
    SplitRun(Marked(s, true));
    assert Chars(Marked(s, true)) == s;
  }

  lemma BackslashRoundTrip(u: Unicode, s: string)
    ensures ExpandsTo(u, Backslashed(s), s)
  {
    var ps := EscapedAll(s);
    ShowEscapedAll(s);
    ParseShow(u, ps);
    forall env: seq<string>
      ensures Expand(u, Backslashed(s), env) == Ok(s)
      ensures ExpandWords(u, Backslashed(s), env) == Ok(if s == "" then [] else [s])
    {
      RenderEscapedAll(s, env);
      OneWord(s);
    }
  }

  function EscapedAll(s: string): seq<Piece> {
    seq(|s|, i requires 0 <= i < |s| => Escaped(s[i]))
  }

  lemma {:induction false} ShowEscapedAll(s: string)
    ensures ShowPieces(EscapedAll(s)) == Backslashed(s)
  {
    if s != "" {
      assert EscapedAll(s)[1..] == EscapedAll(s[1..]);
      ShowEscapedAll(s[1..]);
    }
  }

  lemma {:induction false} RenderEscapedAll(s: string, env: seq<string>)
    ensures RenderPieces(EscapedAll(s), env) == s
    ensures MarkPieces(EscapedAll(s), env) == Marked(s, true)
  {
    if s != "" {
      var t := s[..|s| - 1];
      assert EscapedAll(s)[..|s| - 1] == EscapedAll(t);
      RenderEscapedAll(t, env);
      assert s == t + [s[|s| - 1]];
      assert Marked(s, true) == Marked(t, true) + Marked([s[|s| - 1]], true);
    }
  }

  function Lits(s: string): seq<Frag> {
    seq(|s|, i requires 0 <= i < |s| => Lit(s[i]))
  }

  lemma {:induction false} ShowLits(s: string)
    ensures ShowFrags(Lits(s)) == DoubleEscaped(s)
  {
    if s != "" {
      assert Lits(s)[1..] == Lits(s[1..]);
      ShowLits(s[1..]);
    }
  }

  lemma {:induction false} RenderLits(s: string, env: seq<string>)
    ensures RenderFrags(Lits(s), env) == s
  {
    if s != "" {
      assert Lits(s)[..|s| - 1] == Lits(s[..|s| - 1]);
      RenderLits(s[..|s| - 1], env);
      assert s == s[..|s| - 1] + [s[|s| - 1]];
    }
  }

  predicate EndsInBackslash(s: string) { s != "" && s[|s| - 1] == '\\' }

  /** Double quoting with " and $ escaped is faithful exactly for the strings that do not end in a
      backslash, which would escape the closing quote. */
  lemma DoubleQuoteRoundTrip(u: Unicode, s: string)
    ensures ExpandsTo(u, DoubleQuoted(s), s) <==> !EndsInBackslash(s)
  {
    ShowLits(s);
    if EndsInBackslash(s) {
      DoubleQuoteFails(u, s);
      var t := s[..|s| - 1] + "\"";
      assert t[|s| - 1] != s[|s| - 1];
      assert Expand(u, DoubleQuoted(s), []) == Ok(t);
    } else {
      var ps := [Double(Lits(s))];
      assert ShowPieces(ps) == DoubleQuoted(s);
      assert WfFrags(u, Lits(s));
      assert WfPiece(u, ps[0], None);
      ParseShow(u, ps);
      forall env ensures RenderPiece(Double(Lits(s)), env) == s { RenderLits(s, env); }
      QuotedPiece(u, DoubleQuoted(s), Double(Lits(s)), s);
    }
  }

  /** The closing quote takes the backslash's place. */
  lemma DoubleQuoteFails(u: Unicode, s: string)
    requires EndsInBackslash(s)
    ensures ExpandsTo(u, DoubleQuoted(s), s[..|s| - 1] + "\"")
  {
    var t := s[..|s| - 1] + "\"";
    ClosedByEscape(s, t);
    OpenQuoteReads(u, t);
    forall env ensures RenderPiece(Double(Lits(t)), env) == t { RenderLits(t, env); }
    QuotedPiece(u, DoubleQuoted(s), Double(Lits(t)), t);
  }

  lemma ClosedByEscape(s: string, t: string)
    requires EndsInBackslash(s) && t == s[..|s| - 1] + "\""
    ensures DoubleQuoted(s) == "\"" + DoubleEscaped(t)
  {
    EscapedTail(s[..|s| - 1], '"');
    EscapedTail(s[..|s| - 1], '\\');
    assert s == s[..|s| - 1] + "\\";
  }

  /** A double quote that is never closed runs to the end of the word. */
  lemma OpenQuoteReads(u: Unicode, t: string)
    requires !EndsInBackslash(t)
    ensures var w := "\"" + DoubleEscaped(t); Template(u, w) == Parsed([Double(Lits(t))], |w|)
  {
    var w := "\"" + DoubleEscaped(t);
    ShowLits(t);
    ParseShowFrags(u, w, 1, Lits(t), false);
    assert [Double(Lits(t))] + [] == [Double(Lits(t))];
    assert ParsePiece(u, w, 0) == Parsed(Double(Lits(t)), |w|);
    assert ParseStop(u, w, |w|, None) == Parsed([], |w|);
    assert Decoded(w) == w;
  }

  lemma {:induction false} EscapedTail(t: string, c: char)
    ensures DoubleEscaped(t + [c]) == DoubleEscaped(t) + if c == '"' || c == '$' then ['\\', c] else [c]
  {
    if t != "" {
      assert (t + [c])[1..] == t[1..] + [c];
      EscapedTail(t[1..], c);
    }
  }

  // ---- Values are inserted as they are ----

  function NamesFrag(f: Frag): set<string>
    decreases f, 0
  {
    match f
    case Lit(_) => {}
    case Ref(name) => {name}
    case Alt(name, _, body) => {name} + NamesPieces(body)
  }

  function NamesFrags(fs: seq<Frag>): set<string>
    decreases fs, 1
  {
    if fs == [] then {} else NamesFrags(fs[..|fs| - 1]) + NamesFrag(fs[|fs| - 1])
  }

  function NamesPiece(p: Piece): set<string>
    decreases p, 0
  {
    match p
    case Double(fs) => NamesFrags(fs)
    case Dollar(f) => NamesFrag(f)
    case _ => {}
  }

  /** The variables a template mentions. */
  function NamesPieces(ps: seq<Piece>): set<string>
    decreases ps, 1
  {
    if ps == [] then {} else NamesPieces(ps[..|ps| - 1]) + NamesPiece(ps[|ps| - 1])
  }

  ghost predicate Agree(a: seq<string>, b: seq<string>, names: set<string>) {
    forall n :: n in names ==> Lookup(a, n) == Lookup(b, n)
  }

  /** The result depends on the environment only through the first bindings of the names in the word:
      no substituted text is ever read as a template. */
  lemma ExpandDependsOnNames(u: Unicode, word: string, a: seq<string>, b: seq<string>)
    requires Template(u, word).Parsed? ==> Agree(a, b, NamesPieces(Template(u, word).value))
    ensures Expand(u, word, a) == Expand(u, word, b)
    ensures ExpandWords(u, word, a) == ExpandWords(u, word, b)
  {
    if Template(u, word).Parsed? {
      SamePieces(Template(u, word).value, a, b);
    }
  }

  lemma {:induction false} SameFrag(f: Frag, a: seq<string>, b: seq<string>)
    requires Agree(a, b, NamesFrag(f))
    ensures RenderFrag(f, a) == RenderFrag(f, b)
    decreases f, 0
  {
    if f.Alt? { SamePieces(f.body, a, b); }
  }

  lemma {:induction false} SameFrags(fs: seq<Frag>, a: seq<string>, b: seq<string>)
    requires Agree(a, b, NamesFrags(fs))
    ensures RenderFrags(fs, a) == RenderFrags(fs, b)
    decreases fs, 1
  {
    if fs != [] {
      SameFrags(fs[..|fs| - 1], a, b);
      SameFrag(fs[|fs| - 1], a, b);
    }
  }

  lemma {:induction false} SamePiece(p: Piece, a: seq<string>, b: seq<string>)
    requires Agree(a, b, NamesPiece(p))
    ensures RenderPiece(p, a) == RenderPiece(p, b) && MarkPiece(p, a) == MarkPiece(p, b)
    decreases p, 0
  {
    match p {
      case Double(fs) => SameFrags(fs, a, b);
      case Dollar(f) => SameFrag(f, a, b);
      case _ =>
    }
  }

  lemma {:induction false} SamePieces(ps: seq<Piece>, a: seq<string>, b: seq<string>)
    requires Agree(a, b, NamesPieces(ps))
    ensures RenderPieces(ps, a) == RenderPieces(ps, b) && MarkPieces(ps, a) == MarkPieces(ps, b)
    decreases ps, 1
  {
    if ps != [] {
      SamePieces(ps[..|ps| - 1], a, b);
      SamePiece(ps[|ps| - 1], a, b);
    }
  }

  // ---- The two results agree ----

  predicate StartsWithBom(s: string) { s != "" && s[0] == BOM }

  /** No substitution outside quotes starts with a byte order mark. */
  ghost predicate NoBom(ps: seq<Piece>, env: seq<string>) {
    forall i :: 0 <= i < |ps| ==> PieceNoBom(ps[i], env)
  }

  /** The characters that ProcessWords splits are the characters that ProcessWord returns, exactly when
      no substitution outside quotes starts with a byte order mark; otherwise those marks are missing. This
      is about values that are sequences of code points: where a value is not valid UTF-8, the scanner behind
      ProcessWords also turns each stray byte into U+FFFD, which ProcessWord leaves as it is. */
  lemma {:induction false} WordsSplitTheResult(ps: seq<Piece>, env: seq<string>)
    ensures |MarkPieces(ps, env)| <= |RenderPieces(ps, env)|
    ensures Chars(MarkPieces(ps, env)) == RenderPieces(ps, env) <==> NoBom(ps, env)
  {
    if ps != [] {
      var init, p := ps[..|ps| - 1], ps[|ps| - 1];
      WordsSplitTheResult(init, env);
      PieceSplits(p, env);
      assert NoBom(ps, env) <==> NoBom(init, env) && PieceNoBom(p, env) by {
        assert forall i :: 0 <= i < |init| ==> ps[i] == init[i];
      }
      assert Chars(MarkPieces(ps, env)) == Chars(MarkPieces(init, env)) + Chars(MarkPiece(p, env));
      if PieceNoBom(p, env) && !NoBom(init, env) {
        LongerPrefix(Chars(MarkPieces(init, env)), RenderPieces(init, env), RenderPiece(p, env));
      }
    }
  }

  predicate PieceNoBom(p: Piece, env: seq<string>) {
    p.Dollar? ==> !StartsWithBom(RenderFrag(p.frag, env))
  }

  lemma PieceSplits(p: Piece, env: seq<string>)
    ensures |MarkPiece(p, env)| <= |RenderPiece(p, env)|
    ensures if PieceNoBom(p, env) then Chars(MarkPiece(p, env)) == RenderPiece(p, env)
            else |MarkPiece(p, env)| < |RenderPiece(p, env)|
  {
  }

  /** A word and an environment for which they differ. */
  lemma BomIsDropped(u: Unicode)
    ensures Expand(u, "$A", ["A=\U{FEFF}x"]) == Ok("\U{FEFF}x")
    ensures ExpandWords(u, "$A", ["A=\U{FEFF}x"]) == Ok(["x"])
  {
    var word, entry, value := "$A", "A=\U{FEFF}x", "\U{FEFF}x";
    assert RunEnd(u, word, 1) == 2;
    assert word[1..2] == "A";
    assert ParsePiece(u, word, 0) == Parsed(Dollar(Ref("A")), 2);
    assert ParseStop(u, word, 2, None) == Parsed([], 2);
    assert Decoded(word) == word && [Dollar(Ref("A"))] + [] == [Dollar(Ref("A"))];
    assert Template(u, word) == Parsed([Dollar(Ref("A"))], 2);
    assert Find(entry, '=', 1) == 1 && entry[..1] == "A" && entry[2..] == value;
    assert Lookup([entry], "A") == value;
    var ps := [Dollar(Ref("A"))];
    assert ps[..0] == [];
    assert RenderPieces(ps, [entry]) == value;
    assert Marked(Decoded(value), false) == [Mark('x', false)];
    assert MarkPieces(ps, [entry]) == [Mark('x', false)];
    LetterSeparatesNothing('x');
    SplitRun([Mark('x', false)]);
    assert Chars([Mark('x', false)]) == "x";
  }

  lemma LetterSeparatesNothing(c: char)
    requires 'a' <= c <= 'z'
    ensures !IsSpace(c)
  {
  }

  lemma LongerPrefix(a: string, b: string, c: string)
    requires a != b && |a| <= |b|
    ensures a + c != b + c
  {
    assert (a + c)[..|a|] == a && (b + c)[..|b|] == b;
  }

  /** Splitting drops separators and nothing else, and makes no empty word. */
  lemma {:induction false} SplitKeeps(ms: seq<Mark>)
    ensures Joined(Split(ms)) == Kept(ms)
    ensures forall w :: w in Split(ms) ==> w != ""
    decreases |ms|
  {
    if ms != [] {
      if Separates(ms[0]) {
        SplitKeeps(ms[1..]);
      } else {
        var n := NextSeparator(ms, 0);
        SplitKeeps(ms[n..]);
        KeptRun(ms, n);
        assert ([Chars(ms[..n])] + Split(ms[n..]))[1..] == Split(ms[n..]);
      }
    }
  }

  function Joined(ws: seq<string>): string {
    if ws == [] then "" else ws[0] + Joined(ws[1..])
  }

  function Kept(ms: seq<Mark>): string {
    if ms == [] then "" else (if Separates(ms[0]) then "" else [ms[0].c]) + Kept(ms[1..])
  }

  lemma {:induction false} KeptRun(ms: seq<Mark>, n: nat)
    requires n <= |ms| && forall k :: 0 <= k < n ==> !Separates(ms[k])
    ensures Kept(ms) == Chars(ms[..n]) + Kept(ms[n..])
  {
    if n == 0 {
      assert ms[0..] == ms && Chars(ms[..0]) == "";
    } else {
      KeptRun(ms[1..], n - 1);
      assert ms[1..][n - 1..] == ms[n..];
      assert Chars(ms[..n]) == [ms[0].c] + Chars(ms[1..][..n - 1]);
    }
  }
}
