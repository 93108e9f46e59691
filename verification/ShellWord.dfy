/** The one-pass expander: a cursor advanced by mutually recursive methods, and a builder that splits
    words as characters arrive. Each method computes what the template says. */
module ShellWord {
  import opened Option
  import opened ShellTemplate
  import opened Text
  import opened ShellParser

  /** The word builder. `seen` is every character it was given, and `cut` where its open word starts. */
  class WordsBuilder {
    var word: string
    var words: seq<string>
    var inWord: bool
    ghost var seen: seq<Mark>
    ghost var cut: nat

    ghost predicate Valid()
      reads this
    {
      && cut <= |seen|
      && words == Split(seen[..cut]) && word == Chars(seen[cut..])
      && (forall k :: cut <= k < |seen| ==> !Separates(seen[k]))
      && (cut == 0 || Separates(seen[cut - 1]))
      && (word != "" ==> inWord)
    }

    constructor ()
      ensures Valid() && seen == []
    {
      word, words, inWord, seen, cut := "", [], false, [], 0;
    }

    method AddChar(ch: char)
      requires Valid()
      modifies this
      ensures Valid() && seen == old(seen) + [Mark(ch, false)]
    {
      if IsSpace(ch) {
        ghost var m := Mark(ch, false);
        SplitAppend(seen[..cut], seen[cut..] + [m]);
        SplitRunSeparator(seen[cut..], m);
        SplitRun(seen[cut..]);
        assert seen[..cut] + (seen[cut..] + [m]) == seen + [m];
        if inWord && |word| != 0 {
          words := words + [word];
          word := "";
          inWord := false;
        }
        seen := seen + [m];
        cut := |seen|;
        assert seen[..cut] == seen;
      } else {
        AddRawChar(ch, false);
      }
    }

    method AddRawChar(ch: char, ghost quoted: bool)
      requires Valid() && (quoted || !IsSpace(ch))
      modifies this
      ensures Valid() && seen == old(seen) + [Mark(ch, quoted)]
    {
      AddRawMarks([ch], [Mark(ch, quoted)]);
    }

    method AddRawString(str: string)
      requires Valid()
      modifies this
      ensures Valid() && seen == old(seen) + Marked(str, true)
    {
      AddRawMarks(str, Marked(str, true));
    }

    method AddRawMarks(str: string, ghost marks: seq<Mark>)
      requires Valid() && str == Chars(marks) && forall k :: 0 <= k < |marks| ==> !Separates(marks[k])
      modifies this
      ensures Valid() && seen == old(seen) + marks
    {
      word := word + str;
      inWord := true;
      ghost var was := seen;
      seen := seen + marks;
      assert seen[..cut] == was[..cut] && seen[cut..] == was[cut..] + marks;
    }

    /** A substitution outside quotes, character by character as its own scanner delivers it. */
    method AddString(str: string)
      requires Valid()
      modifies this
      ensures Valid() && seen == old(seen) + Marked(Decoded(str), false)
    {
      var text := Decoded(str);
      for i := 0 to |text|
        invariant Valid() && seen == old(seen) + Marked(text[..i], false)
      {
        AddChar(text[i]);
        MarkedNext(text, i);
      }
      assert text[..|text|] == text;
    }

    method GetWords() returns (r: seq<string>)
      requires Valid()
      modifies this
      ensures r == Split(old(seen))
    {
      SplitAppend(seen[..cut], seen[cut..]);
      SplitRun(seen[cut..]);
      assert seen[..cut] + seen[cut..] == seen;
      if |word| > 0 {
        words := words + [word];
        word := "";
        inWord := false;
      }
      r := words;
    }
  }

  lemma MarkedNext(s: string, i: nat)
    requires i < |s|
    ensures Marked(s[..i + 1], false) == Marked(s[..i], false) + [Mark(s[i], false)]
  {
  }

  class ShellWord {
    const u: Unicode
    const text: string       // what the scanner delivers
    const envs: seq<string>
    var pos: nat

    constructor (u: Unicode, word: string, envs: seq<string>)
      ensures this.u == u && this.text == Decoded(word) && this.envs == envs && pos == 0
    {
      this.u, this.text, this.envs, this.pos := u, Decoded(word), envs, 0;
    }

    /** processStopOn: the rendering of the template from the cursor on, and its split into words. */
    method ProcessStopOn(stop: Option<char>) returns (r: Result<(string, seq<string>), Error>)
      requires pos <= |text|
      modifies this
      ensures match ParseStop(u, text, old(pos), stop)
              case Bad(e) => r == Err(e)
              case Parsed(ps, n) =>
                pos == n && r == Ok((RenderPieces(ps, envs), Split(MarkPieces(ps, envs))))
      decreases |text| - pos, 3
    {
      var result := "";
      var words := new WordsBuilder();
      ghost var done: seq<Piece> := [];
      ghost var all := ParseStop(u, text, pos, stop);
      AfterNothing(all);
      while pos < |text|
        invariant old(pos) <= pos <= |text| && words.Valid() && fresh(words)
        invariant result == RenderPieces(done, envs) && words.seen == MarkPieces(done, envs)
        invariant all == After(done, ParseStop(u, text, pos, stop))
        decreases |text| - pos
      {
        if stop == Some(text[pos]) || (text[pos] == '\\' && pos + 1 == |text|) {
          AfterEnd(done, pos + 1);
          pos := pos + 1;
          var ws := words.GetWords();
          return Ok((result, ws));
        }
        ghost var head, rest := ParsePiece(u, text, pos), ParseStop(u, text, pos, stop);
        var piece := ProcessPiece(words);
        if piece.Err? { return Err(piece.error); }
        result := result + piece.value;
        assert rest == After([head.value], ParseStop(u, text, pos, stop));
        Extended(done, head.value, envs);
        AfterAfter(done, head.value, ParseStop(u, text, pos, stop));
        done := done + [head.value];
      }
      AfterEnd(done, pos);
      var ws := words.GetWords();
      return Ok((result, ws));
    }

    /** One round of that loop: expand the piece at the cursor and hand it to the builder. */
    method ProcessPiece(words: WordsBuilder) returns (r: Result<string, Error>)
      requires pos < |text| && (text[pos] == '\\' ==> pos + 1 < |text|) && words.Valid()
      modifies this, words
      ensures match ParsePiece(u, text, old(pos))
              case Bad(e) => r == Err(e)
              case Parsed(p, n) =>
                && pos == n && r == Ok(RenderPiece(p, envs))
                && words.Valid() && words.seen == old(words.seen) + MarkPiece(p, envs)
      decreases |text| - pos, 2
    {
      var ch := text[pos];
      if ch == '\'' || ch == '"' {
        r := ProcessQuoted(words);
        return;
      }
      if ch == '$' {
        r := ProcessDollar();
        if r.Ok? { words.AddString(r.value); }
        return;
      }
      ch := ProcessChar(words);
      return Ok([ch]);
    }

    method ProcessQuoted(words: WordsBuilder) returns (r: Result<string, Error>)
      requires pos < |text| && (text[pos] == '\'' || text[pos] == '"') && words.Valid()
      modifies this, words
      ensures match ParsePiece(u, text, old(pos))
              case Bad(e) => r == Err(e)
              case Parsed(p, n) =>
                && pos == n && r == Ok(RenderPiece(p, envs))
                && words.Valid() && words.seen == old(words.seen) + MarkPiece(p, envs)
      decreases |text| - pos, 1
    {
      if text[pos] == '"' {
        r := ProcessDoubleQuote();
      } else {
        var quoted := ProcessSingleQuote();
        r := Ok(quoted);
      }
      if r.Ok? { words.AddRawString(r.value); }
    }

    /** A character that stands for itself, or one behind a backslash. */
    method ProcessChar(words: WordsBuilder) returns (ch: char)
      requires pos < |text| && (text[pos] == '\\' ==> pos + 1 < |text|) && words.Valid()
      modifies this, words
      ensures ch == if text[old(pos)] == '\\' then text[old(pos) + 1] else text[old(pos)]
      ensures pos == old(pos) + if text[old(pos)] == '\\' then 2 else 1
      ensures words.Valid()
      ensures words.seen == old(words.seen) + MarkPiece(if text[old(pos)] == '\\' then Escaped(ch) else Plain(ch), envs)
    {
      ch := text[pos];
      pos := pos + 1;
      if ch == '\\' {
        ch := text[pos];
        pos := pos + 1;
        words.AddRawChar(ch, true);
        assert Marked([ch], true) == [Mark(ch, true)];
      } else {
        words.AddChar(ch);
      }
    }

    method ProcessSingleQuote() returns (r: string)
      requires pos < |text| && text[pos] == '\''
      modifies this
      ensures r == text[old(pos) + 1..Find(text, '\'', old(pos) + 1)]
      ensures pos == Min(Find(text, '\'', old(pos) + 1) + 1, |text|)
    {
      r := "";
      pos := pos + 1;
      ghost var start := pos;
      while pos < |text| && text[pos] != '\''
        invariant start <= pos <= |text| && r == text[start..pos]
        invariant Find(text, '\'', start) == Find(text, '\'', pos)
        decreases |text| - pos
      {
        r := r + [text[pos]];
        pos := pos + 1;
      }
      if pos < |text| { pos := pos + 1; }
    }

    method ProcessDoubleQuote() returns (r: Result<string, Error>)
      requires pos < |text| && text[pos] == '"'
      modifies this
      ensures match ParseDouble(u, text, old(pos) + 1)
              case Bad(e) => r == Err(e)
              case Parsed(fs, n) => pos == n && r == Ok(RenderFrags(fs, envs))
      decreases |text| - pos, 0
    {
      pos := pos + 1;
      ghost var start := pos;
      var result := "";
      ghost var done: seq<Frag> := [];
      AfterNothing(ParseDouble(u, text, pos));
      while pos < |text|
        invariant start <= pos <= |text| && result == RenderFrags(done, envs)
        invariant ParseDouble(u, text, start) == After(done, ParseDouble(u, text, pos))
        decreases |text| - pos
      {
        if text[pos] == '"' {
          pos := pos + 1;
          break;
        }
        if text[pos] == '\\' && pos + 1 == |text| {
          pos := pos + 1;
          break;
        }
        ghost var head := ParseFrag(u, text, pos);
        var frag := ProcessFrag();
        if frag.Err? { return Err(frag.error); }
        result := result + frag.value;
        assert (done + [head.value])[..|done|] == done;
        AfterAfter(done, head.value, ParseDouble(u, text, pos));
        done := done + [head.value];
      }
      assert done + [] == done;
      return Ok(result);
    }

    method ProcessFrag() returns (r: Result<string, Error>)
      requires pos < |text| && (text[pos] == '\\' ==> pos + 1 < |text|)
      modifies this
      ensures match ParseFrag(u, text, old(pos))
              case Bad(e) => r == Err(e)
              case Parsed(f, n) => pos == n && r == Ok(RenderFrag(f, envs))
      decreases |text| - pos, 1
    {
      if text[pos] == '$' {
        r := ProcessDollar();
        return;
      }
      var ch := text[pos];
      pos := pos + 1;
      if ch == '\\' && (text[pos] == '"' || text[pos] == '$') {
        ch := text[pos];
        pos := pos + 1;
      }
      return Ok([ch]);
    }

    method ProcessDollar() returns (r: Result<string, Error>)
      requires pos < |text| && text[pos] == '$'
      modifies this
      ensures match ParseDollar(u, text, old(pos))
              case Bad(e) => r == Err(e)
              case Parsed(f, n) => pos == n && r == Ok(RenderFrag(f, envs))
      decreases |text| - pos, 0
    {
      pos := pos + 1;
      if pos < |text| && text[pos] == '{' {
        pos := pos + 1;
        r := ProcessBraced();
        return;
      }
      var name := ProcessName();
      if name == "" { return Ok("$"); }
      var value := GetEnv(name);
      return Ok(value);
    }

    method ProcessBraced() returns (r: Result<string, Error>)
      requires pos <= |text|
      modifies this
      ensures match ParseBraced(u, text, old(pos))
              case Bad(e) => r == Err(e)
              case Parsed(f, n) => pos == n && r == Ok(RenderFrag(f, envs))
      decreases |text| - pos, 5
    {
      var name := ProcessName();
      if pos < |text| && text[pos] == '}' {
        pos := pos + 1;
        var value := GetEnv(name);
        return Ok(value);
      }
      if !(pos < |text| && text[pos] == ':') { return Err(MissingColon); }
      pos := pos + 1;
      var modifier := None;
      if pos < |text| {
        modifier := Some(text[pos]);
        pos := pos + 1;
      }
      var word := ProcessBody();
      if word.Err? { return Err(word.error); }
      var newValue := GetEnv(name);
      if modifier == Some('+') {
        if newValue != "" { newValue := word.value; }
        return Ok(newValue);
      }
      if modifier == Some('-') {
        if newValue == "" { newValue := word.value; }
        return Ok(newValue);
      }
      return Err(UnsupportedModifier(modifier));
    }

    /** The word after a modifier, up to the closing brace. */
    method ProcessBody() returns (r: Result<string, Error>)
      requires pos <= |text|
      modifies this
      ensures match ParseStop(u, text, old(pos), Some('}'))
              case Bad(e) => r == Err(e)
              case Parsed(ps, n) => pos == n && r == Ok(RenderPieces(ps, envs))
      decreases |text| - pos, 4
    {
      var word := ProcessStopOn(Some('}'));
      r := if word.Ok? then Ok(word.value.0) else Err(word.error);
    }

    method ProcessName() returns (name: string)
      requires pos <= |text|
      modifies this
      ensures pos == NameEnd(u, text, old(pos)) && name == text[old(pos)..pos]
    {
      name := "";
      while pos < |text|
        invariant old(pos) <= pos <= |text| && name == text[old(pos)..pos]
        invariant name != "" ==> !IsDigit(u, text[old(pos)]) && RunEnd(u, text, old(pos)) == RunEnd(u, text, pos)
        decreases |text| - pos
      {
        var ch := text[pos];
        if |name| == 0 && IsDigit(u, ch) {
          pos := pos + 1;
          return [ch];
        }
        if !IsNameChar(u, ch) { break; }
        pos := pos + 1;
        name := name + [ch];
      }
    }

    method GetEnv(name: string) returns (value: string)
      ensures value == Lookup(envs, name)
    {
      for k := 0 to |envs|
        invariant Lookup(envs, name) == Lookup(envs[k..], name)
      {
        var i := Find(envs[k], '=', 0);
        if i == |envs[k]| {
          if name == envs[k] { return ""; }
        } else if name == envs[k][..i] {
          return envs[k][i + 1..];
        }
      }
      return "";
    }
  }

  /** A parse that continues one whose earlier values are known. */
  ghost function After<T>(done: seq<T>, rest: Parse<seq<T>>): Parse<seq<T>> {
    if rest.Bad? then rest else Parsed(done + rest.value, rest.next)
  }

  lemma AfterNothing<T>(rest: Parse<seq<T>>)
    ensures After([], rest) == rest
  {
    if rest.Parsed? { assert [] + rest.value == rest.value; }
  }

  lemma AfterEnd<T>(done: seq<T>, n: nat)
    ensures After(done, Parsed([], n)) == Parsed(done, n)
  {
    assert done + [] == done;
  }

  lemma AfterAfter<T>(done: seq<T>, x: T, rest: Parse<seq<T>>)
    ensures After(done, After([x], rest)) == After(done + [x], rest)
  {
    if rest.Parsed? { assert done + ([x] + rest.value) == done + [x] + rest.value; }
  }

  lemma Extended(done: seq<Piece>, p: Piece, env: seq<string>)
    ensures RenderPieces(done + [p], env) == RenderPieces(done, env) + RenderPiece(p, env)
    ensures MarkPieces(done + [p], env) == MarkPieces(done, env) + MarkPiece(p, env)
  {
    assert (done + [p])[..|done|] == done;
  }

  /** ProcessWord: render the word's template. Success, failure and what is consumed depend on the
      word alone. */
  method ProcessWord(u: Unicode, word: string, env: seq<string>) returns (r: Result<string, Error>)
    ensures r == Expand(u, word, env)
  {
    var sw := new ShellWord(u, word, env);
    var both := sw.ProcessStopOn(None);
    r := if both.Ok? then Ok(both.value.0) else Err(both.error);
  }

  /** ProcessWords: the same rendering with every character marked quoted or not, split on runs of
      unquoted white space. */
  method ProcessWords(u: Unicode, word: string, env: seq<string>) returns (r: Result<seq<string>, Error>)
    ensures r == ExpandWords(u, word, env)
  {
    var sw := new ShellWord(u, word, env);
    var both := sw.ProcessStopOn(None);
    r := if both.Ok? then Ok(both.value.1) else Err(both.error);
  }
}
