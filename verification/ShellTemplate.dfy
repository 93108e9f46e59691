/** What a shell word means: a template read off the word alone, and its rendering in an environment. */
module ShellTemplate {
  import opened Text

  /** The letters and digits beyond ASCII, which come from Unicode's tables. */
  datatype Unicode = Unicode(letter: char -> bool, digit: char -> bool)

  predicate IsDigit(u: Unicode, c: char) {
    if c < '\U{80}' then '0' <= c <= '9' else u.digit(c)
  }

  predicate IsNameChar(u: Unicode, c: char) {
    IsDigit(u, c) || c == '_' ||
    if c < '\U{80}' then 'a' <= c <= 'z' || 'A' <= c <= 'Z' else u.letter(c)
  }

  predicate IsSpace(c: char) {
    || '\t' <= c <= '\r' || c == ' ' || c == '\U{85}' || c == '\U{A0}' || c == '\U{1680}'
    || '\U{2000}' <= c <= '\U{200A}' || c == '\U{2028}' || c == '\U{2029}'
    || c == '\U{202F}' || c == '\U{205F}' || c == '\U{3000}'
  }

  const BOM := '\U{FEFF}'

  /** What a scanner delivers of a string: everything but a leading byte order mark. */
  function Decoded(s: string): string {
    if s != "" && s[0] == BOM then s[1..] else s
  }

  // ---- Templates ----

  /** A character, a variable, or a conditional ${name:+body} (plus) or ${name:-body}. */
  datatype Frag = Lit(c: char) | Ref(name: string) | Alt(name: string, plus: bool, body: seq<Piece>)

  /** The top-level pieces of a word, by how they are quoted. */
  datatype Piece =
    | Plain(c: char)
    | Escaped(c: char)
    | Single(s: string)
    | Double(frags: seq<Frag>)
    | Dollar(frag: Frag)

  // ---- The environment ----

  function Key(entry: string): string { entry[..Find(entry, '=', 0)] }

  function Value(entry: string): string {
    var n := Find(entry, '=', 0);
    if n < |entry| then entry[n + 1..] else ""
  }

  /** The value of the first entry that binds the name, and the empty string when none does. */
  function Lookup(env: seq<string>, name: string): string {
    if env == [] then "" else if Key(env[0]) == name then Value(env[0]) else Lookup(env[1..], name)
  }

  // ---- Rendering ----

  function RenderFrag(f: Frag, env: seq<string>): string
    decreases f, 0
  {
    match f
    case Lit(c) => [c]
    case Ref(name) => Lookup(env, name)
    case Alt(name, plus, body) =>
      var value := Lookup(env, name);
      if plus == (value != "") then RenderPieces(body, env) else value
  }

  function RenderFrags(fs: seq<Frag>, env: seq<string>): string
    decreases fs, 1
  {
    if fs == [] then "" else RenderFrags(fs[..|fs| - 1], env) + RenderFrag(fs[|fs| - 1], env)
  }

  function RenderPiece(p: Piece, env: seq<string>): string
    decreases p, 0
  {
    match p
    case Plain(c) => [c]
    case Escaped(c) => [c]
    case Single(s) => s
    case Double(fs) => RenderFrags(fs, env)
    case Dollar(f) => RenderFrag(f, env)
  }

  function RenderPieces(ps: seq<Piece>, env: seq<string>): string
    decreases ps, 1
  {
    if ps == [] then "" else RenderPieces(ps[..|ps| - 1], env) + RenderPiece(ps[|ps| - 1], env)
  }

  // ---- Words ----

  /** A rendered character, and whether it was quoted. */
  datatype Mark = Mark(c: char, quoted: bool)

  predicate Separates(m: Mark) { !m.quoted && IsSpace(m.c) }

  function Marked(s: string, quoted: bool): seq<Mark> {
    seq(|s|, i requires 0 <= i < |s| => Mark(s[i], quoted))
  }

  function Chars(ms: seq<Mark>): string {
    seq(|ms|, i requires 0 <= i < |ms| => ms[i].c)
  }

  /** A substitution outside quotes is rescanned for separators, and its scanner drops a leading BOM. */
  function MarkPiece(p: Piece, env: seq<string>): seq<Mark> {
    match p
    case Plain(c) => [Mark(c, false)]
    case Dollar(f) => Marked(Decoded(RenderFrag(f, env)), false)
    case _ => Marked(RenderPiece(p, env), true)
  }

  function MarkPieces(ps: seq<Piece>, env: seq<string>): seq<Mark> {
    if ps == [] then [] else MarkPieces(ps[..|ps| - 1], env) + MarkPiece(ps[|ps| - 1], env)
  }

  /** The first separator at or after i, or |ms|. */
  function NextSeparator(ms: seq<Mark>, i: nat): (n: nat)
    requires i <= |ms|
    ensures i <= n <= |ms| && (forall k :: i <= k < n ==> !Separates(ms[k])) && (n < |ms| ==> Separates(ms[n]))
    decreases |ms| - i
  {
    if i == |ms| || Separates(ms[i]) then i else NextSeparator(ms, i + 1)
  }

  /** The runs of characters between separators; empty runs do not count. */
  function Split(ms: seq<Mark>): seq<string>
    decreases |ms|
  {
    if ms == [] then []
    else if Separates(ms[0]) then Split(ms[1..])
    else var n := NextSeparator(ms, 0); [Chars(ms[..n])] + Split(ms[n..])
  }

  // ---- Laws of rendering and splitting ----

  /** Splitting distributes over concatenation at a separator. */
  lemma {:induction false} SplitAppend(a: seq<Mark>, b: seq<Mark>)
    requires a == [] || Separates(a[|a| - 1])
    ensures Split(a + b) == Split(a) + Split(b)
    decreases |a|
  {
    if a == [] {
      assert a + b == b;
    } else if Separates(a[0]) {
      assert (a + b)[1..] == a[1..] + b;
      SplitAppend(a[1..], b);
    } else {
      var n := NextSeparator(a, 0);
      SameSeparator(a, b, 0);
      assert (a + b)[..n] == a[..n] && (a + b)[n..] == a[n..] + b;
      SplitAppend(a[n..], b);
    }
  }

  lemma {:induction false} SameSeparator(a: seq<Mark>, b: seq<Mark>, i: nat)
    requires i < |a| && Separates(a[|a| - 1])
    ensures NextSeparator(a + b, i) == NextSeparator(a, i) < |a|
    decreases |a| - i
  {
    if !Separates(a[i]) { SameSeparator(a, b, i + 1); }
  }

  /** A run without separators is one word, unless it is empty. */
  lemma SplitRun(a: seq<Mark>)
    requires forall k :: 0 <= k < |a| ==> !Separates(a[k])
    ensures Split(a) == if a == [] then [] else [Chars(a)]
  {
    if a != [] {
      assert a[..NextSeparator(a, 0)] == a;
    }
  }

  /** A run followed by a separator is the run's word. */
  lemma SplitRunSeparator(a: seq<Mark>, m: Mark)
    requires (forall k :: 0 <= k < |a| ==> !Separates(a[k])) && Separates(m)
    ensures Split(a + [m]) == Split(a)
  {
    SplitRun(a);
    if a != [] {
      SameSeparator(a + [m], [], 0);
      assert a + [m] + [] == a + [m];
      var n := NextSeparator(a + [m], 0);
      assert n == |a| && (a + [m])[..n] == a && (a + [m])[n..] == [m];
    }
  }
}
