/** From a word to its template: the cursor-driven grammar, with no environment in sight. */
module ShellParser {
  import opened Option
  import opened ShellTemplate
  import opened Text

  datatype Error = MissingColon | UnsupportedModifier(modifier: Option<char>)

  /** A parse from one cursor position: the value and the next position, or an error. */
  datatype Parse<+T> = Parsed(value: T, next: nat) | Bad(error: Error)

  /** Where the name at i ends: one digit, or a run of letters, digits and underscores. */
  function NameEnd(u: Unicode, w: string, i: nat): (n: nat)
    requires i <= |w|
    ensures i <= n <= |w|
  {
    if i < |w| && IsDigit(u, w[i]) then i + 1 else RunEnd(u, w, i)
  }

  function RunEnd(u: Unicode, w: string, i: nat): (n: nat)
    requires i <= |w|
    ensures i <= n <= |w| && (forall k :: i <= k < n ==> IsNameChar(u, w[k])) && (n < |w| ==> !IsNameChar(u, w[n]))
    decreases |w| - i
  {
    if i == |w| || !IsNameChar(u, w[i]) then i else RunEnd(u, w, i + 1)
  }

  function Min(a: nat, b: nat): nat { if a < b then a else b }

  /** Pieces up to the stop character or the end of the word. */
  function ParseStop(u: Unicode, w: string, i: nat, stop: Option<char>): (r: Parse<seq<Piece>>)
    requires i <= |w|
    ensures r.Parsed? ==> i <= r.next <= |w|
    decreases |w| - i, 2
  {
    if i == |w| then Parsed([], i)
    else if stop == Some(w[i]) then Parsed([], i + 1)
    else if w[i] == '\\' && i + 1 == |w| then Parsed([], |w|)
    else
      var head := ParsePiece(u, w, i);
      if head.Bad? then Bad(head.error)
      else
        var rest := ParseStop(u, w, head.next, stop);
        if rest.Bad? then Bad(rest.error) else Parsed([head.value] + rest.value, rest.next)
  }

  /** One piece. The word goes on past a backslash. */
  function ParsePiece(u: Unicode, w: string, i: nat): (r: Parse<Piece>)
    requires i < |w| && (w[i] == '\\' ==> i + 1 < |w|)
    ensures r.Parsed? ==> i < r.next <= |w|
    decreases |w| - i, 1
  {
    if w[i] == '\'' then
      var n := Find(w, '\'', i + 1);
      Parsed(Single(w[i + 1..n]), Min(n + 1, |w|))
    else if w[i] == '"' then
      var r := ParseDouble(u, w, i + 1);
      if r.Bad? then Bad(r.error) else Parsed(Double(r.value), r.next)
    else if w[i] == '$' then
      var r := ParseDollar(u, w, i);
      if r.Bad? then Bad(r.error) else Parsed(Dollar(r.value), r.next)
    else if w[i] == '\\' then Parsed(Escaped(w[i + 1]), i + 2)
    else Parsed(Plain(w[i]), i + 1)
  }

  /** The inside of double quotes, up to the closing quote or the end of the word. */
  function ParseDouble(u: Unicode, w: string, i: nat): (r: Parse<seq<Frag>>)
    requires i <= |w|
    ensures r.Parsed? ==> i <= r.next <= |w|
    decreases |w| - i, 2
  {
    if i == |w| then Parsed([], i)
    else if w[i] == '"' then Parsed([], i + 1)
    else if w[i] == '\\' && i + 1 == |w| then Parsed([], |w|)
    else
      var head := ParseFrag(u, w, i);
      if head.Bad? then Bad(head.error)
      else
        var rest := ParseDouble(u, w, head.next);
        if rest.Bad? then Bad(rest.error) else Parsed([head.value] + rest.value, rest.next)
  }

  /** One fragment inside double quotes: only \" and \$ are escapes. */
  function ParseFrag(u: Unicode, w: string, i: nat): (r: Parse<Frag>)
    requires i < |w| && (w[i] == '\\' ==> i + 1 < |w|)
    ensures r.Parsed? ==> i < r.next <= |w|
    decreases |w| - i, 1
  {
    if w[i] == '$' then ParseDollar(u, w, i)
    else if w[i] == '\\' && (w[i + 1] == '"' || w[i + 1] == '$') then Parsed(Lit(w[i + 1]), i + 2)
    else Parsed(Lit(w[i]), i + 1)
  }

  /** What a dollar sign starts. */
  function ParseDollar(u: Unicode, w: string, i: nat): (r: Parse<Frag>)
    requires i < |w| && w[i] == '$'
    ensures r.Parsed? ==> i < r.next <= |w|
    decreases |w| - i, 0
  {
    if i + 1 < |w| && w[i + 1] == '{' then ParseBraced(u, w, i + 2)
    else
      var n := NameEnd(u, w, i + 1);
      if n == i + 1 then Parsed(Lit('$'), n) else Parsed(Ref(w[i + 1..n]), n)
  }

  /** What follows an opening ${. */
  function ParseBraced(u: Unicode, w: string, i: nat): (r: Parse<Frag>)
    requires i <= |w|
    ensures r.Parsed? ==> i < r.next <= |w|
    decreases |w| - i, 0
  {
    var n := NameEnd(u, w, i);
    var name := w[i..n];
    if n < |w| && w[n] == '}' then Parsed(Ref(name), n + 1)
    else if n < |w| && w[n] == ':' then
      var modifier := if n + 1 < |w| then Some(w[n + 1]) else None;
      var body := ParseStop(u, w, Min(n + 2, |w|), Some('}'));
      if body.Bad? then Bad(body.error)
      else if modifier == Some('+') then Parsed(Alt(name, true, body.value), body.next)
      else if modifier == Some('-') then Parsed(Alt(name, false, body.value), body.next)
      else Bad(UnsupportedModifier(modifier))
    else Bad(MissingColon)
  }

  /** The template of a whole word. */
  function Template(u: Unicode, word: string): Parse<seq<Piece>> {
    ParseStop(u, Decoded(word), 0, None)
  }

  /** What ProcessWord returns: the template, rendered. */
  function Expand(u: Unicode, word: string, env: seq<string>): Result<string, Error> {
    match Template(u, word)
    case Bad(e) => Err(e)
    case Parsed(ps, _) => Ok(RenderPieces(ps, env))
  }

  /** What ProcessWords returns: the rendering split on runs of unquoted white space. */
  function ExpandWords(u: Unicode, word: string, env: seq<string>): Result<seq<string>, Error> {
    match Template(u, word)
    case Bad(e) => Err(e)
    case Parsed(ps, _) => Ok(Split(MarkPieces(ps, env)))
  }
}
