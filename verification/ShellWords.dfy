/**
 The shell word lexer behind external assertions. It accepts one direct command: quoting follows
 section 2.2 of the POSIX.1-2017 Shell Command Language with differences, and pipes, lists,
 background jobs and command substitution are refused.
 */
module ShellWords {
  import opened Json
  import opened Text

  datatype Quote = Unquoted | Single | Double
  datatype Lexer = Lexer(words: seq<string>, current: string, quote: Quote, escaped: bool)

  predicate IsControl(c: char) { c == ';' || c == '\n' || c == '|' || c == '&' || c == '`' }

  function Flushed(l: Lexer): Lexer {
    l.(words := if l.current != "" then l.words + [l.current] else l.words, current := "")
  }

  /** One character; `follows` tells whether the next one is an opening parenthesis. */
  function Read(l: Lexer, c: char, follows: bool): Option<Lexer> {
    if l.escaped then Some(l.(current := l.current + [c], escaped := false))
    else if c == '\\' && l.quote != Single then Some(l.(escaped := true))
    else if l.quote != Unquoted then
      if c == (if l.quote == Single then '\'' else '"') then Some(l.(quote := Unquoted))
      else Some(l.(current := l.current + [c]))
    else if c == '\'' then Some(l.(quote := Single))
    else if c == '"' then Some(l.(quote := Double))
    else if IsControl(c) || (c == '$' && follows) then None
    else if IsSpace(c) then Some(Flushed(l))
    else Some(l.(current := l.current + [c]))
  }

  predicate ParenNext(s: string) { |s| > 1 && s[1] == '(' }

  function ReadAll(l: Lexer, s: string): Option<Lexer>
    decreases |s|
  {
    if s == "" then Some(l)
    else
      match Read(l, s[0], ParenNext(s))
      case None => None
      case Some(l') => ReadAll(l', s[1..])
  }

  lemma ReadCons(l: Lexer, c: char, tail: string)
    ensures ReadAll(l, [c] + tail)
         == match Read(l, c, tail != "" && tail[0] == '(') { case None => None case Some(l') => ReadAll(l', tail) }
  {
    assert ([c] + tail)[1..] == tail;
  }

  const START: Lexer := Lexer([], "", Unquoted, false)

  /** The lexer ends outside quotes and escapes. */
  predicate Ends(r: Option<Lexer>) { r.Some? && r.value.quote == Unquoted && !r.value.escaped }

  /** The words of a command line, before the command prefix is removed. */
  function Lex(s: string): Option<seq<string>> {
    match ReadAll(START, s)
    case None => None
    case Some(l) => if l.quote != Unquoted || l.escaped then None else Some(Flushed(l).words)
  }

  // ----- The command prefix ---------------------------------------------------------------------

  predicate IsNameStart(c: char) { 'A' <= c <= 'Z' || 'a' <= c <= 'z' || c == '_' }

  /** `NAME=value`, with any value. */
  predicate IsAssignment(w: string) {
    var end := IndexFrom(w, '=', 0);
    0 < end < |w| && IsNameStart(w[0]) && forall i :: 0 < i < end ==> IsNameStart(w[i]) || IsDigit(w[i])
  }

  function SkipAssignments(words: seq<string>, offset: nat): (o: nat)
    requires offset <= |words|
    ensures offset <= o <= |words|
    ensures o == offset <==> offset == |words| || !IsAssignment(words[offset])
    decreases |words| - offset
  {
    if offset < |words| && IsAssignment(words[offset]) then SkipAssignments(words, offset + 1) else offset
  }

  function CommandOffset(words: seq<string>): (o: nat)
    ensures o <= |words|
  {
    var a := SkipAssignments(words, 0);
    var b := if a < |words| && Lower(words[a]) == "env" then SkipAssignments(words, a + 1) else a;
    if b < |words| && Lower(words[b]) == "command" then b + 1 else b
  }

  function Words(command: string): Option<seq<string>> {
    match Lex(command)
    case None => None
    case Some(words) => Some(words[CommandOffset(words)..])
  }

  method SimpleShellWords(command: string) returns (r: Option<seq<string>>)
    ensures r == Words(command)
  {
    var words: seq<string> := [];
    var current := "";
    var quote := Unquoted;
    var escaped := false;
    var index := 0;
    while index < |command|
      invariant index <= |command|
      invariant ReadAll(START, command) == ReadAll(Lexer(words, current, quote, escaped), command[index..])
      decreases |command| - index
    {
      var c := command[index];
      ghost var before, rest := Lexer(words, current, quote, escaped), command[index..];
      assert rest[1..] == command[index + 1..];
      var follows := index + 1 < |command| && command[index + 1] == '(';
      assert follows == ParenNext(rest);
      if escaped {
        current, escaped := current + [c], false;
      } else if c == '\\' && quote != Single {
        escaped := true;
      } else if quote != Unquoted {
        if c == (if quote == Single then '\'' else '"') {
          quote := Unquoted;
        } else {
          current := current + [c];
        }
      } else if c == '\'' || c == '"' {
        quote := if c == '\'' then Single else Double;
      } else if IsControl(c) || (c == '$' && follows) {
        return None;
      } else if IsSpace(c) {
        if current != "" {
          words := words + [current];
        }
        current := "";
      } else {
        current := current + [c];
      }
      assert Read(before, c, follows) == Some(Lexer(words, current, quote, escaped));
      index := index + 1;
    }
    if quote != Unquoted || escaped {
      return None;
    }
    if current != "" {
      words := words + [current];
    }
    words := StripPrefix(words);
    r := Some(words);
  }

  /** Skips leading assignments, `env` with its assignments, and `command`. */
  method StripPrefix(words: seq<string>) returns (r: seq<string>)
    ensures r == words[CommandOffset(words)..]
  {
    var offset := 0;
    while offset < |words| && IsAssignment(words[offset])
      invariant offset <= |words| && SkipAssignments(words, 0) == SkipAssignments(words, offset)
    {
      offset := offset + 1;
    }
    if offset < |words| && Lower(words[offset]) == "env" {
      offset := offset + 1;
      ghost var a := offset;
      while offset < |words| && IsAssignment(words[offset])
        invariant offset <= |words| && SkipAssignments(words, a) == SkipAssignments(words, offset)
      {
        offset := offset + 1;
      }
    }
    if offset < |words| && Lower(words[offset]) == "command" {
      offset := offset + 1;
    }
    r := words[offset..];
  }

  // ----- The grammar ----------------------------------------------------------------------------

  datatype Inner = Bare(c: char) | Backslashed(c: char)

  /** What a command line is made of. */
  datatype Piece =
    | Plain(c: char)
    | Escaped(c: char)
    | SingleQuoted(body: string)
    | DoubleQuoted(inner: seq<Inner>)
    | Gap(c: char)

  predicate ValidInner(i: Inner) { i.Bare? ==> i.c != '"' && i.c != '\\' }

  predicate ValidPiece(p: Piece) {
    match p
    case Plain(c) => c != '\\' && c != '\'' && c != '"' && !IsControl(c) && !IsSpace(c)
    case Escaped(_) => true
    case SingleQuoted(body) => '\'' !in body
    case DoubleQuoted(inner) => forall i :: 0 <= i < |inner| ==> ValidInner(inner[i])
    case Gap(c) => IsSpace(c) && !IsControl(c)
  }

  /** Valid pieces, without a command substitution. */
  predicate Grammatical(ps: seq<Piece>) {
    && (forall i :: 0 <= i < |ps| ==> ValidPiece(ps[i]))
    && (forall i :: 0 <= i < |ps| - 1 ==> !(ps[i] == Plain('$') && ps[i + 1] == Plain('(')))
  }

  function RenderInner(inner: seq<Inner>): string {
    if inner == [] then ""
    else (if inner[0].Bare? then [inner[0].c] else ['\\', inner[0].c]) + RenderInner(inner[1..])
  }

  function RenderPiece(p: Piece): (s: string)
    ensures s != ""
  {
    match p
    case Plain(c) => [c]
    case Escaped(c) => ['\\', c]
    case SingleQuoted(body) => "'" + body + "'"
    case DoubleQuoted(inner) => "\"" + RenderInner(inner) + "\""
    case Gap(c) => [c]
  }

  /** The command line that the pieces spell. */
  function Render(ps: seq<Piece>): string {
    if ps == [] then "" else RenderPiece(ps[0]) + Render(ps[1..])
  }

  function InnerText(inner: seq<Inner>): string {
    if inner == [] then "" else [inner[0].c] + InnerText(inner[1..])
  }

  function PieceText(p: Piece): string {
    match p
    case Plain(c) => [c]
    case Escaped(c) => [c]
    case SingleQuoted(body) => body
    case DoubleQuoted(inner) => InnerText(inner)
    case Gap(_) => ""
  }

  /** The words of the pieces: the text between gaps, quotes removed, empty words dropped. */
  function WordsOf(ps: seq<Piece>, current: string): seq<string> {
    if ps == [] then if current != "" then [current] else []
    else if ps[0].Gap? then (if current != "" then [current] else []) + WordsOf(ps[1..], "")
    else WordsOf(ps[1..], current + PieceText(ps[0]))
  }

  lemma {:induction false} ReadSingle(l: Lexer, body: string, rest: string)
    requires l.quote == Single && !l.escaped && '\'' !in body
    ensures ReadAll(l, body + "'" + rest) == ReadAll(l.(current := l.current + body, quote := Unquoted), rest)
    decreases |body|
  {
    if body == "" {
      assert body + "'" + rest == "'" + rest;
      assert ("'" + rest)[1..] == rest;
      assert l.current + body == l.current;
    } else {
      assert (body + "'" + rest)[1..] == body[1..] + "'" + rest;
      ReadSingle(l.(current := l.current + [body[0]]), body[1..], rest);
      assert l.current + [body[0]] + body[1..] == l.current + body;
    }
  }

  /** One thing inside double quotes adds its character. */
  lemma ReadInner(l: Lexer, i: Inner, tail: string)
    requires l.quote == Double && !l.escaped && ValidInner(i)
    ensures ReadAll(l, RenderInner([i]) + tail) == ReadAll(l.(current := l.current + [i.c]), tail)
  {
    assert [i][1..] == [];
    if i.Bare? {
      assert RenderInner([i]) + tail == [i.c] + tail;
      ReadCons(l, i.c, tail);
    } else {
      assert RenderInner([i]) + tail == ['\\'] + ([i.c] + tail);
      ReadCons(l, '\\', [i.c] + tail);
      ReadCons(l.(escaped := true), i.c, tail);
    }
  }

  lemma {:induction false} ReadDouble(l: Lexer, inner: seq<Inner>, rest: string)
    requires l.quote == Double && !l.escaped && forall i :: 0 <= i < |inner| ==> ValidInner(inner[i])
    ensures ReadAll(l, RenderInner(inner) + "\"" + rest)
         == ReadAll(l.(current := l.current + InnerText(inner), quote := Unquoted), rest)
    decreases |inner|
  {
    if inner == [] {
      assert RenderInner(inner) + "\"" + rest == ['"'] + rest;
      ReadCons(l, '"', rest);
      assert l.current + "" == l.current;
    } else {
      var first, later := inner[0], inner[1..];
      var tail := RenderInner(later) + "\"" + rest;
      assert inner == [first] + later && ValidInner(inner[0]);
      InnerCons(first, later);
      assert RenderInner(inner) + "\"" + rest == RenderInner([first]) + tail;
      ReadInner(l, first, tail);
      ReadDouble(l.(current := l.current + [first.c]), later, rest);
      assert l.current + [first.c] + InnerText(later) == l.current + InnerText(inner);
    }
  }

  function AfterPiece(l: Lexer, p: Piece): Lexer {
    if p.Gap? then Flushed(l) else l.(current := l.current + PieceText(p))
  }

  lemma ReadSingleQuoted(l: Lexer, body: string, rest: string)
    requires l.quote == Unquoted && !l.escaped && '\'' !in body
    ensures ReadAll(l, "'" + body + "'" + rest) == ReadAll(l.(current := l.current + body), rest)
  {
    assert "'" + body + "'" + rest == ['\''] + (body + "'" + rest);
    ReadCons(l, '\'', body + "'" + rest);
    ReadSingle(l.(quote := Single), body, rest);
  }

  lemma ReadDoubleQuoted(l: Lexer, inner: seq<Inner>, rest: string)
    requires l.quote == Unquoted && !l.escaped && forall i :: 0 <= i < |inner| ==> ValidInner(inner[i])
    ensures ReadAll(l, "\"" + RenderInner(inner) + "\"" + rest)
         == ReadAll(l.(current := l.current + InnerText(inner)), rest)
  {
    var tail := RenderInner(inner) + "\"" + rest;
    assert "\"" + RenderInner(inner) + "\"" + rest == ['"'] + tail;
    ReadCons(l, '"', tail);
    ReadDouble(l.(quote := Double), inner, rest);
  }

  lemma ReadPiece(l: Lexer, p: Piece, rest: string)
    requires l.quote == Unquoted && !l.escaped && ValidPiece(p)
    requires p == Plain('$') ==> rest == "" || rest[0] != '('
    ensures ReadAll(l, RenderPiece(p) + rest) == ReadAll(AfterPiece(l, p), rest)
  {
    match p
    case Plain(c) =>
      ReadCons(l, c, rest);
    case Gap(c) =>
      ReadCons(l, c, rest);
    case Escaped(c) =>
      assert RenderPiece(p) + rest == ['\\'] + ([c] + rest);
      ReadCons(l, '\\', [c] + rest);
      ReadCons(l.(escaped := true), c, rest);
    case SingleQuoted(body) =>
      ReadSingleQuoted(l, body, rest);
    case DoubleQuoted(inner) =>
      ReadDoubleQuoted(l, inner, rest);
  }

  lemma TailIsGrammatical(ps: seq<Piece>)
    requires Grammatical(ps) && ps != []
    ensures Grammatical(ps[1..])
  {
    var rest := ps[1..];
    forall i | 0 <= i < |rest| ensures ValidPiece(rest[i]) { assert ValidPiece(ps[i + 1]); }
    forall i | 0 <= i < |rest| - 1 ensures !(rest[i] == Plain('$') && rest[i + 1] == Plain('(')) {
      assert !(ps[i + 1] == Plain('$') && ps[i + 2] == Plain('('));
    }
  }

  /** A piece spells an opening parenthesis first only when it is one. */
  lemma FirstCharacter(p: Piece)
    requires ValidPiece(p)
    ensures RenderPiece(p)[0] == '(' ==> p == Plain('(')
  {
  }

  lemma NoSubstitution(ps: seq<Piece>)
    requires Grammatical(ps) && ps != [] && ps[0] == Plain('$')
    ensures Render(ps[1..]) == "" || Render(ps[1..])[0] != '('
  {
    if |ps| > 1 {
      assert ps[1..][0] == ps[1] && ValidPiece(ps[1]);
      FirstCharacter(ps[1]);
      assert Render(ps[1..])[0] == RenderPiece(ps[1])[0];
      assert ps[0] == Plain('$') ==> ps[1] != Plain('(');
    }
  }

  lemma {:induction false} WordsAfterPiece(l: Lexer, ps: seq<Piece>)
    requires ps != []
    ensures l.words + WordsOf(ps, l.current)
         == AfterPiece(l, ps[0]).words + WordsOf(ps[1..], AfterPiece(l, ps[0]).current)
  {
  }

  /** Reading what grammatical pieces spell gives their words. */
  lemma {:induction false} ReadPieces(l: Lexer, ps: seq<Piece>)
    requires l.quote == Unquoted && !l.escaped && Grammatical(ps)
    ensures Ends(ReadAll(l, Render(ps)))
    ensures Flushed(ReadAll(l, Render(ps)).value).words == l.words + WordsOf(ps, l.current)
    decreases |ps|
  {
    if ps != [] {
      var rest, l' := ps[1..], AfterPiece(l, ps[0]);
      assert ValidPiece(ps[0]);
      TailIsGrammatical(ps);
      if ps[0] == Plain('$') {
        NoSubstitution(ps);
      }
      ReadPiece(l, ps[0], Render(rest));
      assert Render(ps) == RenderPiece(ps[0]) + Render(rest);
      ReadPieces(l', rest);
      WordsAfterPiece(l, ps);
    }
  }

  lemma AfterBackslash(l: Lexer, s: string)
    requires l.quote != Single && !l.escaped && s != "" && s[0] == '\\' && Ends(ReadAll(l, s))
    ensures |s| > 1 && Ends(ReadAll(l.(current := l.current + [s[1]]), s[2..]))
  {
    assert ReadAll(l, s) == ReadAll(l.(escaped := true), s[1..]);
    if |s| > 1 {
      assert s[1..][1..] == s[2..];
    }
  }

  lemma {:induction false} SplitSingle(l: Lexer, s: string) returns (body: string, rest: string)
    requires l.quote == Single && !l.escaped && Ends(ReadAll(l, s))
    ensures s == body + "'" + rest && '\'' !in body
    ensures Ends(ReadAll(l.(current := l.current + body, quote := Unquoted), rest))
    decreases |s|
  {
    if s[0] == '\'' {
      body, rest := "", s[1..];
      assert l.current + "" == l.current;
    } else {
      body, rest := SplitSingle(l.(current := l.current + [s[0]]), s[1..]);
      assert l.current + [s[0]] + body == l.current + ([s[0]] + body);
      body := [s[0]] + body;
    }
  }

  /** The first thing inside double quotes, when it does not close them. */
  lemma SplitInner(l: Lexer, s: string) returns (first: Inner, tail: string)
    requires l.quote == Double && !l.escaped && s != "" && s[0] != '"' && Ends(ReadAll(l, s))
    ensures ValidInner(first) && |tail| < |s|
    ensures s == RenderInner([first]) + tail
    ensures Ends(ReadAll(l.(current := l.current + [first.c]), tail))
  {
    if s[0] == '\\' {
      AfterBackslash(l, s);
      first, tail := Backslashed(s[1]), s[2..];
      assert s == ['\\', s[1]] + tail;
    } else {
      first, tail := Bare(s[0]), s[1..];
      assert s == [s[0]] + tail;
      ReadCons(l, s[0], tail);
    }
    assert [first][1..] == [];
  }

  lemma InnerCons(first: Inner, later: seq<Inner>)
    ensures RenderInner([first] + later) == RenderInner([first]) + RenderInner(later)
    ensures InnerText([first] + later) == [first.c] + InnerText(later)
  {
    assert ([first] + later)[1..] == later && [first][1..] == [];
  }

  lemma {:induction false} SplitDouble(l: Lexer, s: string) returns (inner: seq<Inner>, rest: string)
    requires l.quote == Double && !l.escaped && Ends(ReadAll(l, s))
    ensures s == RenderInner(inner) + "\"" + rest && forall i :: 0 <= i < |inner| ==> ValidInner(inner[i])
    ensures Ends(ReadAll(l.(current := l.current + InnerText(inner), quote := Unquoted), rest))
    decreases |s|
  {
    if s[0] == '"' {
      inner, rest := [], s[1..];
      assert l.current + "" == l.current;
    } else {
      var first, tail := SplitInner(l, s);
      var later;
      later, rest := SplitDouble(l.(current := l.current + [first.c]), tail);
      inner := [first] + later;
      InnerCons(first, later);
      assert l.current + [first.c] + InnerText(later) == l.current + InnerText(inner);
    }
  }

  /** Whatever the lexer accepts is spelled by grammatical pieces. */
  lemma {:induction false} Pieces(l: Lexer, s: string) returns (ps: seq<Piece>)
    requires l.quote == Unquoted && !l.escaped && Ends(ReadAll(l, s))
    ensures Grammatical(ps) && Render(ps) == s
    decreases |s|
  {
    if s == "" {
      ps := [];
    } else {
      var c := s[0];
      var first, rest;
      if c == '\\' {
        AfterBackslash(l, s);
        first, rest := Escaped(s[1]), s[2..];
      } else if c == '\'' {
        var body;
        body, rest := SplitSingle(l.(quote := Single), s[1..]);
        first := SingleQuoted(body);
      } else if c == '"' {
        var inner;
        inner, rest := SplitDouble(l.(quote := Double), s[1..]);
        first := DoubleQuoted(inner);
      } else {
        first, rest := if IsSpace(c) then Gap(c) else Plain(c), s[1..];
      }
      assert s == RenderPiece(first) + rest;
      var later := Pieces(AfterPiece(l, first), rest);
      ps := [first] + later;
      assert ps[1..] == later;
      if first == Plain('$') && later != [] {
        assert Render(later)[0] == RenderPiece(later[0])[0];
      }
    }
  }

  /**
   The lexer accepts exactly the command lines that the grammar spells, and returns their words. It
   refuses an unclosed quote, a dangling backslash, an unquoted control character and an unquoted
   command substitution, because no grammatical pieces spell those, and refuses nothing else.
   */
  lemma LexIsGrammar(s: string)
    ensures Lex(s).Some? <==> exists ps :: Grammatical(ps) && Render(ps) == s
    ensures forall ps :: Grammatical(ps) && Render(ps) == s ==> Lex(s) == Some(WordsOf(ps, ""))
  {
    if Lex(s).Some? {
      var ps := Pieces(START, s);
    }
    forall ps | Grammatical(ps) && Render(ps) == s ensures Lex(s) == Some(WordsOf(ps, "")) {
      ReadPieces(START, ps);
      assert [] + WordsOf(ps, "") == WordsOf(ps, "");
    }
  }

  // ----- Quoting --------------------------------------------------------------------------------

  /** The inside of a single-quoted word: a quote leaves the quotes, is escaped, and enters again. */
  function QuoteBody(w: string): string {
    if w == "" then "" else (if w[0] == '\'' then "'\\''" else [w[0]]) + QuoteBody(w[1..])
  }

  function QuoteWord(w: string): string { "'" + QuoteBody(w) + "'" }

  function QuoteAll(ws: seq<string>): string {
    if ws == [] then "" else QuoteWord(ws[0]) + (if |ws| > 1 then " " + QuoteAll(ws[1..]) else "")
  }

  /** Out of the quotes, a backslash, a quote, and in again. */
  lemma ReadQuote(l: Lexer, tail: string)
    requires l.quote == Single && !l.escaped
    ensures ReadAll(l, "'\\''" + tail) == ReadAll(l.(current := l.current + ['\'']), tail)
  {
    var l1 := l.(quote := Unquoted);
    assert "'\\''" + tail == ['\''] + ("\\''" + tail) && "\\''" + tail == ['\\'] + ("''" + tail);
    assert "''" + tail == ['\''] + ("'" + tail) && "'" + tail == ['\''] + tail;
    ReadCons(l, '\'', "\\''" + tail);
    ReadCons(l1, '\\', "''" + tail);
    ReadCons(l1.(escaped := true), '\'', "'" + tail);
    ReadCons(l1.(current := l.current + ['\'']), '\'', tail);
  }

  lemma {:induction false} ReadQuoteBody(l: Lexer, w: string, rest: string)
    requires l.quote == Single && !l.escaped
    ensures ReadAll(l, QuoteBody(w) + "'" + rest) == ReadAll(l.(current := l.current + w, quote := Unquoted), rest)
    decreases |w|
  {
    var s := QuoteBody(w) + "'" + rest;
    if w == "" {
      assert s == ['\''] + rest;
      ReadCons(l, '\'', rest);
      assert l.current + w == l.current;
    } else {
      var tail := QuoteBody(w[1..]) + "'" + rest;
      if w[0] == '\'' {
        assert s == "'\\''" + tail;
        ReadQuote(l, tail);
      } else {
        assert s == [w[0]] + tail;
        ReadCons(l, w[0], tail);
      }
      ReadQuoteBody(l.(current := l.current + [w[0]]), w[1..], rest);
      assert l.current + [w[0]] + w[1..] == l.current + w;
    }
  }

  function NonEmpty(ws: seq<string>): (r: seq<string>)
    ensures r == ws <==> "" !in ws
    ensures |r| <= |ws|
    ensures |r| == |ws| <==> r == ws
  {
    if ws == [] then []
    else if ws[0] == "" then NonEmpty(ws[1..])
    else
      assert ws == [ws[0]] + ws[1..];
      [ws[0]] + NonEmpty(ws[1..])
  }

  lemma ReadQuotedWord(l: Lexer, w: string, rest: string)
    requires l.quote == Unquoted && !l.escaped && l.current == ""
    ensures ReadAll(l, QuoteWord(w) + rest) == ReadAll(l.(current := w), rest)
  {
    assert QuoteWord(w) + rest == ['\''] + (QuoteBody(w) + "'" + rest);
    ReadCons(l, '\'', QuoteBody(w) + "'" + rest);
    ReadQuoteBody(l.(quote := Single), w, rest);
    assert "" + w == w;
  }

  lemma ReadQuotedStep(l: Lexer, w: string, later: string)
    requires l.quote == Unquoted && !l.escaped && l.current == ""
    ensures ReadAll(l, QuoteWord(w) + ([' '] + later)) == ReadAll(Flushed(l.(current := w)), later)
  {
    ReadQuotedWord(l, w, [' '] + later);
    ReadCons(l.(current := w), ' ', later);
  }

  lemma {:induction false} QuoteAllCons(ws: seq<string>)
    requires |ws| > 1
    ensures QuoteAll(ws) == QuoteWord(ws[0]) + ([' '] + QuoteAll(ws[1..]))
    ensures NonEmpty(ws) == (if ws[0] == "" then [] else [ws[0]]) + NonEmpty(ws[1..])
  {
  }

  lemma {:induction false} ReadLastQuoted(l: Lexer, w: string)
    requires l.quote == Unquoted && !l.escaped && l.current == ""
    ensures ReadAll(l, QuoteAll([w])) == Some(l.(current := w))
    ensures Flushed(l.(current := w)).words == l.words + NonEmpty([w])
  {
    assert QuoteAll([w]) == QuoteWord(w) + "" && [w][1..] == [];
    ReadQuotedWord(l, w, "");
    assert ReadAll(l.(current := w), "") == Some(l.(current := w));
    assert NonEmpty([w]) == if w == "" then [] else [w];
  }

  lemma {:induction false} ReadQuoted(l: Lexer, ws: seq<string>)
    requires l.quote == Unquoted && !l.escaped && l.current == ""
    ensures Ends(ReadAll(l, QuoteAll(ws)))
    ensures Flushed(ReadAll(l, QuoteAll(ws)).value).words == l.words + NonEmpty(ws)
    decreases |ws|
  {
    if |ws| == 1 {
      assert ws == [ws[0]];
      ReadLastQuoted(l, ws[0]);
    } else if |ws| > 1 {
      QuoteAllCons(ws);
      ReadQuotedStep(l, ws[0], QuoteAll(ws[1..]));
      ReadQuoted(Flushed(l.(current := ws[0])), ws[1..]);
    }
  }

  /** The word would be taken as part of a command prefix. */
  predicate IsPrefixWord(w: string) {
    IsAssignment(w) || Lower(w) == "env" || Lower(w) == "command"
  }

  /**
   Lexing undoes quoting, exactly when no word is empty and the first one is not read as a prefix:
   empty words are dropped, and leading assignments, `env` and `command` are skipped.
   */
  lemma {:induction false} LexUndoesQuoting(ws: seq<string>)
    ensures Lex(QuoteAll(ws)) == Some(NonEmpty(ws))
    ensures Words(QuoteAll(ws)) == Some(ws) <==> "" !in ws && (ws == [] || !IsPrefixWord(ws[0]))
  {
    ReadQuoted(START, ws);
    assert [] + NonEmpty(ws) == NonEmpty(ws);
    var kept := NonEmpty(ws);
    var o := CommandOffset(kept);
    assert |kept[o..]| == |kept| - o;
    if o == 0 {
      assert kept[0..] == kept;
    }
  }
}
