/**
 The terminal emulator that the TUI smoke test reads its screens from: a grid, a cursor, deferred
 wrapping, scrollback, and a subset of the ECMA-48 control sequences (section 5.4). The class updates
 its fields the way the script does; `Term` and the functions over it say what each update means.
 */
module Terminal {
  import opened Text

  type Line = seq<char>

  datatype Term = Term(
    rows: nat, cols: nat, row: nat, col: nat, autowrap: bool, pendingWrap: bool,
    scrollback: seq<Line>, screen: seq<Line>)

  const ESC: char := '\U{001B}'

  ghost predicate Valid(t: Term) {
    && |t.screen| == t.rows && t.row < t.rows && t.col < t.cols
    && forall r :: 0 <= r < t.rows ==> |t.screen[r]| == t.cols
  }

  /** What an operation may never do: change the size, or touch a line already scrolled out. */
  ghost predicate Keeps(t: Term, t': Term) {
    Valid(t') && t'.rows == t.rows && t'.cols == t.cols && t.scrollback <= t'.scrollback
  }

  function Blank(n: nat): (line: Line)
    ensures |line| == n && forall i :: 0 <= i < n ==> line[i] == ' '
  {
    if n == 0 then [] else Blank(n - 1) + [' ']
  }

  function BlankRows(n: nat, cols: nat): (lines: seq<Line>)
    ensures |lines| == n && forall i :: 0 <= i < n ==> lines[i] == Blank(cols)
  {
    if n == 0 then [] else BlankRows(n - 1, cols) + [Blank(cols)]
  }

  function Min(a: int, b: int): int { if a < b then a else b }

  function Max(a: int, b: int): int { if a < b then b else a }

  function AllLines(t: Term): seq<Line> { t.scrollback + t.screen }

  function Fresh(rows: nat, cols: nat): (t: Term)
    ensures rows > 0 && cols > 0 ==> Valid(t)
  {
    Term(rows, cols, 0, 0, true, false, [], BlankRows(rows, cols))
  }

  // ----- Printing -----------------------------------------------------------------------------

  ghost function LineFed(t: Term): (t': Term)
    requires Valid(t)
    ensures Keeps(t, t')
  {
    if t.row + 1 < t.rows then t.(row := t.row + 1, pendingWrap := false)
    else t.(pendingWrap := false, scrollback := t.scrollback + [t.screen[0]],
            screen := t.screen[1..] + [Blank(t.cols)])
  }

  /** A line feed on the last row keeps every line and adds one blank; elsewhere it adds nothing. */
  lemma {:induction false} LineFeedKeepsText(t: Term)
    requires Valid(t)
    ensures AllLines(LineFed(t)) == AllLines(t) + if t.row + 1 == t.rows then [Blank(t.cols)] else []
  {
    if t.row + 1 == t.rows {
      assert t.screen == [t.screen[0]] + t.screen[1..];
    }
  }

  /** The cells from `from` up to `to` are blank, the others are those of `line`. */
  function Erase(line: Line, from: int, to: int): (r: Line)
    ensures |r| == |line|
    ensures forall i :: 0 <= i < |r| ==> r[i] == if from <= i < to then ' ' else line[i]
  {
    seq(|line|, i requires 0 <= i < |line| => if from <= i < to then ' ' else line[i])
  }

  /** A pending wrap carried out, before a character is put. */
  ghost function Wrapped(t: Term): (t': Term)
    requires Valid(t)
    ensures Keeps(t, t')
  {
    (if t.pendingWrap && t.autowrap then LineFed(t.(col := 0)) else t).(pendingWrap := false)
  }

  ghost function Printed(w: int, t: Term, c: char): (t': Term)
    requires Valid(t)
    ensures Keeps(t, t')
  {
    if w <= 0 then t
    else
      var t1 := Wrapped(t);
      var line := Erase(t1.screen[t1.row][t1.col := c], t1.col + 1, t1.col + w);
      var t2 := t1.(screen := t1.screen[t1.row := line]);
      if t1.col + w >= t1.cols then t2.(pendingWrap := t1.autowrap, col := t1.cols - 1)
      else t2.(col := t1.col + w)
  }

  // ----- Tokens -------------------------------------------------------------------------------

  predicate IsFinal(c: char) { '@' <= c <= '~' }

  /** The first index from `i` on that holds a final byte, or the length. */
  function FinalAt(text: string, i: nat): (end: nat)
    requires i <= |text|
    ensures i <= end <= |text|
    ensures forall k :: i <= k < end ==> !IsFinal(text[k])
    ensures end < |text| ==> IsFinal(text[end])
    decreases |text| - i
  {
    if i == |text| || IsFinal(text[i]) then i else FinalAt(text, i + 1)
  }

  /** How many characters one step of the parser takes. */
  function TokenLength(text: string): (n: nat)
    requires text != ""
    ensures 1 <= n <= |text|
  {
    if text[0] != ESC || |text| == 1 then 1
    else if text[1] != '[' then 2
    else Min(FinalAt(text, 2) + 1, |text|)
  }

  /** The text does not start with an escape sequence that is cut off. */
  predicate CompleteToken(text: string)
    requires text != ""
  {
    text[0] == ESC ==> |text| > 1 && (text[1] == '[' ==> FinalAt(text, 2) < |text|)
  }

  /** No escape sequence of the text is cut off at its end. */
  predicate Whole(text: string)
    decreases |text|
  {
    text != "" ==> CompleteToken(text) && Whole(text[TokenLength(text)..])
  }

  /** The parser is between two steps after `n` characters of the text. */
  predicate BetweenTokens(text: string, n: nat)
    requires n <= |text|
    decreases |text|
  {
    n == 0 || (n >= TokenLength(text) && BetweenTokens(text[TokenLength(text)..], n - TokenLength(text)))
  }

  function StripQuestion(s: string): string {
    if s != "" && s[0] == '?' then StripQuestion(s[1..]) else s
  }

  /** The pieces between the separators. */
  function Split(s: string): (parts: seq<string>)
    ensures parts != []
  {
    if s == "" then [""]
    else
      var rest := Split(s[1..]);
      if s[0] == ';' then [""] + rest else [[s[0]] + rest[0]] + rest[1..]
  }

  /** One number for every non-empty piece; a piece that is not a number counts as 0. */
  function Numbers(parts: seq<string>): seq<nat> {
    if parts == [] then []
    else if parts[0] == "" then Numbers(parts[1..])
    else [if AllDigits(parts[0]) then Decimal(parts[0]) else 0] + Numbers(parts[1..])
  }

  function Parameters(body: string): seq<nat> { Numbers(Split(StripQuestion(body))) }

  // ----- Control sequences --------------------------------------------------------------------

  /** The screen after a display erase from the cursor on. */
  function ErasedBelow(screen: seq<Line>, row: nat, col: nat, cols: nat): (s: seq<Line>)
    requires row < |screen|
    ensures |s| == |screen|
    ensures forall r :: 0 <= r < |s| ==>
              s[r] == if r < row then screen[r] else if r == row then Erase(screen[r], col, cols) else Blank(cols)
  {
    seq(|screen|, r requires 0 <= r < |screen| =>
      if r < row then screen[r] else if r == row then Erase(screen[r], col, cols) else Blank(cols))
  }

  /** The effect of a complete control sequence with parameter text `body` and final byte `final`. */
  ghost function Controlled(t: Term, body: string, final: char): (t': Term)
    requires Valid(t)
    ensures Keeps(t, t') && t'.scrollback == t.scrollback
  {
    var parts := Parameters(body);
    var first := if parts == [] then 0 else parts[0];
    var count := if first == 0 then 1 else first;
    if final == 'A' then t.(row := Max(0, t.row - count), pendingWrap := false)
    else if final == 'B' then t.(row := Min(t.rows - 1, t.row + count), pendingWrap := false)
    else if final == 'C' then t.(col := Min(t.cols - 1, t.col + count), pendingWrap := false)
    else if final == 'D' then t.(col := Max(0, t.col - count))
    else if final == 'G' then t.(col := Min(t.cols - 1, Max(0, count - 1)))
    else if final == 'H' || final == 'f' then
      var row := (if |parts| >= 1 && parts[0] != 0 then parts[0] else 1) - 1;
      var col := (if |parts| >= 2 && parts[1] != 0 then parts[1] else 1) - 1;
      t.(row := Min(t.rows - 1, Max(0, row)), col := Min(t.cols - 1, Max(0, col)))
    else if final == 'K' then
      var line := Erase(t.screen[t.row], if first == 2 then 0 else t.col, if first == 1 then t.col + 1 else t.cols);
      t.(screen := t.screen[t.row := line], pendingWrap := false)
    else if (final == 'h' || final == 'l') && body == "?7" then
      t.(autowrap := final == 'h', pendingWrap := false)
    else if final == 'J' then
      if first == 2 || first == 3 then t.(screen := BlankRows(t.rows, t.cols), row := 0, col := 0)
      else if first == 0 then t.(screen := ErasedBelow(t.screen, t.row, t.col, t.cols))
      else t
    else t
  }

  /** One step of the parser on the text that is left. */
  ghost function Stepped(width: char -> int, t: Term, text: string): (t': Term)
    requires Valid(t) && text != ""
    ensures Keeps(t, t')
  {
    var c := text[0];
    if c == ESC then
      if |text| == 1 || text[1] != '[' || FinalAt(text, 2) == |text| then t
      else Controlled(t, text[2..FinalAt(text, 2)], text[FinalAt(text, 2)])
    else if c == '\r' then t.(col := 0, pendingWrap := false)
    else if c == '\n' then LineFed(t)
    else if c == '\U{0008}' then t.(col := Max(0, t.col - 1))
    else if c as int >= 32 then Printed(width(c), t, c)
    else t
  }

  /** Feeding a whole text: for every text the grid keeps its shape and scrollback only grows. */
  ghost function Fed(width: char -> int, t: Term, text: string): (t': Term)
    requires Valid(t)
    ensures Keeps(t, t')
    decreases |text|
  {
    if text == "" then t
    else Fed(width, Stepped(width, t, text), text[TokenLength(text)..])
  }

  // ----- Cursor addressing --------------------------------------------------------------------

  function Digits(n: nat): (s: string)
    ensures AllDigits(s)
    ensures Decimal(s) == n
  {
    if n < 10 then [n as char + '0'] else Digits(n / 10) + [(n % 10) as char + '0']
  }

  lemma {:induction false} SplitAtSeparator(a: string, b: string)
    requires ';' !in a
    ensures Split(a) == [a]
    ensures Split(a + ";" + b) == [a] + Split(b)
  {
    if a == "" {
      assert a + ";" + b == ";" + b;
    } else {
      SplitAtSeparator(a[1..], b);
      assert (a + ";" + b)[1..] == a[1..] + ";" + b;
      assert [a[0]] + a[1..] == a && [a[1..]][1..] == [];
      assert [[a[0]] + a[1..]] + Split(b) == [a] + Split(b);
    }
  }

  lemma ParametersOfAddress(r: nat, c: nat)
    ensures Parameters(Digits(r) + ";" + Digits(c)) == [r, c]
  {
    var a, b := Digits(r), Digits(c);
    assert StripQuestion(a + ";" + b) == a + ";" + b;
    SplitAtSeparator(a, b);
    SplitAtSeparator(b, "");
    assert [a, b][1..] == [b] && [b][1..] == [];
    calc {
      Numbers([a] + [b]);
      { assert [a] + [b] == [a, b]; }
      [r] + Numbers([b]);
      [r] + [c];
    }
  }

  lemma {:induction false} FinalAfter(text: string, i: nat, end: nat)
    requires i <= end < |text| && IsFinal(text[end])
    requires forall k :: i <= k < end ==> !IsFinal(text[k])
    ensures FinalAt(text, i) == end
    decreases end - i
  {
    if i < end {
      FinalAfter(text, i + 1, end);
    }
  }

  lemma ControlledAddress(t: Term, r: nat, c: nat)
    requires Valid(t) && 1 <= r <= t.rows && 1 <= c <= t.cols
    ensures Controlled(t, Digits(r) + ";" + Digits(c), 'H') == t.(row := r - 1, col := c - 1)
  {
    ParametersOfAddress(r, c);
  }

  lemma ParametersOfCount(n: nat)
    ensures Parameters(Digits(n)) == [n]
  {
    var d := Digits(n);
    assert StripQuestion(d) == d;
    SplitAtSeparator(d, "");
    assert [d][0] == d && [d][1..] == [];
    assert Numbers([d]) == [n] + Numbers([]);
  }

  /**
   Moving up or right and back again returns to where the cursor was exactly when the way out met no
   edge, or the way back ends at the edge where the cursor was.
   */
  lemma MovesCancel(t: Term, n: nat)
    requires Valid(t) && n > 0
    ensures Controlled(Controlled(t, Digits(n), 'A'), Digits(n), 'B') == t.(pendingWrap := false)
       <==> n <= t.row || t.row == t.rows - 1
    ensures Controlled(Controlled(t, Digits(n), 'C'), Digits(n), 'D') == t.(pendingWrap := false)
       <==> n < t.cols - t.col || t.col == 0
  {
    ParametersOfCount(n);
    var up := Controlled(t, Digits(n), 'A');
    assert up == t.(row := Max(0, t.row - n), pendingWrap := false);
    assert Controlled(up, Digits(n), 'B') == up.(row := Min(t.rows - 1, up.row + n));
    var right := Controlled(t, Digits(n), 'C');
    assert right == t.(col := Min(t.cols - 1, t.col + n), pendingWrap := false);
    assert Controlled(right, Digits(n), 'D') == right.(col := Max(0, right.col - n));
  }

  lemma EraseParameters()
    ensures Parameters("") == [] && Parameters("1") == [1] && Parameters("2") == [2]
  {
    ParametersOfCount(1);
    ParametersOfCount(2);
    assert Digits(1) == "1" && Digits(2) == "2";
    assert StripQuestion("") == "" && Split("") == [""] && [""][1..] == [];
  }

  ghost function LineErased(t: Term, from: int, to: int): Term
    requires Valid(t)
  {
    t.(screen := t.screen[t.row := Erase(t.screen[t.row], from, to)], pendingWrap := false)
  }

  /**
   Erasing in the line: to its end, or the whole of it. Erasing up to the cursor (function 1) blanks
   only the cursor's own cell, so it does what the standard asks exactly when the cells before the
   cursor are blank already.
   */
  lemma LineErases(t: Term)
    requires Valid(t)
    ensures Controlled(t, "", 'K') == LineErased(t, t.col, t.cols)
    ensures Controlled(t, "2", 'K') == LineErased(t, 0, t.cols)
    ensures Controlled(t, "2", 'K').screen == t.screen[t.row := Blank(t.cols)]
    ensures Controlled(t, "1", 'K') == LineErased(t, 0, t.col + 1)
       <==> forall i :: 0 <= i < t.col ==> t.screen[t.row][i] == ' '
  {
    EraseParameters();
    var line := t.screen[t.row];
    var cell, front := Erase(line, t.col, t.col + 1), Erase(line, 0, t.col + 1);
    assert Controlled(t, "1", 'K') == LineErased(t, t.col, t.col + 1);
    assert t.screen[t.row := cell][t.row] == cell && t.screen[t.row := front][t.row] == front;
    if forall i :: 0 <= i < t.col ==> line[i] == ' ' {
      assert cell == front;
    } else {
      var i :| 0 <= i < t.col && line[i] != ' ';
      assert cell[i] != front[i];
    }
    assert Erase(line, 0, t.cols) == Blank(t.cols);
  }

  function Address(r: nat, c: nat): string { [ESC, '['] + (Digits(r) + ";" + Digits(c)) + "H" }

  lemma AddressMovesCursor(width: char -> int, t: Term, r: nat, c: nat, rest: string)
    requires Valid(t) && 1 <= r <= t.rows && 1 <= c <= t.cols
    ensures var text := Address(r, c) + rest;
          && Stepped(width, t, text) == t.(row := r - 1, col := c - 1)
            && text[TokenLength(text)..] == rest
  {
    var text, body := Address(r, c) + rest, Digits(r) + ";" + Digits(c);
    var end := 2 + |body|;
    assert text[2..end] == body && text[end] == 'H';
    forall k | 2 <= k < end ensures !IsFinal(text[k]) {
      assert text[k] == body[k - 2];
    }
    FinalAfter(text, 2, end);
    ControlledAddress(t, r, c);
    assert text[end + 1..] == rest;
  }

  lemma FeedOne(width: char -> int, t: Term, ch: char)
    requires Valid(t) && ch as int >= 32
    ensures Fed(width, t, [ch]) == Printed(width(ch), t, ch)
  {
    assert [ch][1..] == "";
  }

  lemma PrintNarrow(t: Term, ch: char)
    requires Valid(t)
    ensures var t' := Printed(1, t, ch);
            var wraps := t.pendingWrap && t.autowrap;
            && (t'.row == t.row && t'.scrollback == t.scrollback <==> !wraps)
            && (!wraps ==> t'.screen == t.screen[t.row := t.screen[t.row][t.col := ch]])
  {
    if !(t.pendingWrap && t.autowrap) {
      var line := t.screen[t.row][t.col := ch];
      assert Erase(line, t.col + 1, t.col + 1) == line;
    }
  }

  /**
   Addressing a cell and printing writes that cell, and only that cell, exactly when no wrap is
   pending: the script does not clear a pending wrap on this sequence, so otherwise the character
   goes to the start of the following line.
   */
  lemma {:induction false} PrintAtAddress(width: char -> int, t: Term, r: nat, c: nat, ch: char)
    requires Valid(t) && 1 <= r <= t.rows && 1 <= c <= t.cols
    requires ch as int >= 32 && width(ch) == 1
    ensures var t' := Fed(width, t, Address(r, c) + [ch]);
            var wraps := t.pendingWrap && t.autowrap;
            && (t'.row == r - 1 && t'.scrollback == t.scrollback <==> !wraps)
            && (!wraps ==> t'.screen == t.screen[r - 1 := t.screen[r - 1][c - 1 := ch]])
  {
    var t1 := t.(row := r - 1, col := c - 1);
    AddressMovesCursor(width, t, r, c, [ch]);
    FeedOne(width, t1, ch);
    PrintNarrow(t1, ch);
  }

  // ----- Cutting the input --------------------------------------------------------------------

  lemma {:induction false} FinalAtExtends(a: string, b: string, i: nat)
    requires i <= |a|
    ensures FinalAt(a, i) < |a| ==> FinalAt(a + b, i) == FinalAt(a, i)
    ensures FinalAt(a, i) == |a| ==> FinalAt(a + b, i) >= |a|
    decreases |a| - i
  {
    if i < |a| && !IsFinal(a[i]) {
      FinalAtExtends(a, b, i + 1);
    }
  }

  lemma TokenEndsAlike(a: string, b: string)
    requires a != "" && CompleteToken(a)
    ensures TokenLength(a + b) == TokenLength(a)
    ensures (a + b)[TokenLength(a)..] == a[TokenLength(a)..] + b
  {
    if a[0] == ESC && a[1] == '[' {
      FinalAtExtends(a, b, 2);
    }
  }

  /** A complete token is read the same way whatever follows it. */
  lemma TokenExtends(width: char -> int, t: Term, a: string, b: string)
    requires Valid(t) && a != "" && CompleteToken(a)
    ensures TokenLength(a + b) == TokenLength(a)
    ensures (a + b)[TokenLength(a)..] == a[TokenLength(a)..] + b
    ensures Stepped(width, t, a + b) == Stepped(width, t, a)
  {
    TokenEndsAlike(a, b);
    if a[0] == ESC && a[1] == '[' {
      FinalAtExtends(a, b, 2);
      var end := FinalAt(a, 2);
      assert (a + b)[2..end] == a[2..end];
    }
  }

  lemma {:induction false} WholeTextsFeedInPieces(width: char -> int, t: Term, a: string, b: string)
    requires Valid(t) && Whole(a)
    ensures Fed(width, t, a + b) == Fed(width, Fed(width, t, a), b)
    decreases |a|
  {
    if a == "" {
      assert a + b == b;
    } else {
      TokenExtends(width, t, a, b);
      WholeTextsFeedInPieces(width, Stepped(width, t, a), a[TokenLength(a)..], b);
    }
  }

  /** A cut falls between two tokens of the joined text exactly when it splits no escape sequence. */
  lemma {:induction false} CutIsBetweenTokens(a: string, b: string)
    requires b != ""
    ensures BetweenTokens(a + b, |a|) <==> Whole(a)
    decreases |a|
  {
    if a != "" {
      if CompleteToken(a) {
        TokenEndsAlike(a, b);
        CutIsBetweenTokens(a[TokenLength(a)..], b);
      } else if |a| > 1 {
        FinalAtExtends(a, b, 2);
        assert TokenLength(a + b) > |a|;
      }
    }
  }

  /**
   Feeding a text whole and feeding it in two pieces agree for every cut that the parser reaches
   between two tokens, that is, for every cut that is not inside an escape sequence.
   */
  lemma {:induction false} FeedingInPieces(width: char -> int, t: Term, text: string, cut: nat)
    requires Valid(t) && cut <= |text| && BetweenTokens(text, cut)
    ensures Fed(width, t, text) == Fed(width, Fed(width, t, text[..cut]), text[cut..])
  {
    assert text == text[..cut] + text[cut..];
    if cut == |text| {
      assert text[..cut] == text && text[cut..] == "";
    } else {
      CutIsBetweenTokens(text[..cut], text[cut..]);
      WholeTextsFeedInPieces(width, t, text[..cut], text[cut..]);
    }
  }

  /** How many lines lie above the cursor, scrolled out or on the screen. */
  function Height(t: Term): nat { |t.scrollback| + t.row }

  lemma LineFeedRises(width: char -> int, t: Term)
    requires Valid(t)
    ensures Fed(width, t, "\n") == LineFed(t) && Height(LineFed(t)) == Height(t) + 1
    ensures Height(Fed(width, t, "\nm")) > Height(t)
  {
    assert "\n"[1..] == "" && "\nm"[1..] == "m" && "m"[1..] == "";
    assert Fed(width, LineFed(t), "m") == Printed(width('m'), LineFed(t), 'm');
  }

  /** What an open control sequence swallows: anything up to a final byte, here one that does nothing. */
  lemma OpenSequenceSwallows(width: char -> int, t: Term, a: string)
    requires Valid(t) && |a| > 1 && a[0] == ESC && a[1] == '[' && FinalAt(a, 2) == |a|
    ensures Fed(width, t, a) == t && Fed(width, t, a + "\nm") == t
  {
    var text := a + "\nm";
    assert a[|a|..] == "";
    assert text[|a|] == '\n' && text[|a| + 1] == 'm';
    assert forall k :: 2 <= k < |a| ==> text[k] == a[k];
    FinalAfter(text, 2, |a| + 1);
    assert text[|a| + 2..] == "";
  }

  /** After a text that is cut inside an escape sequence, a line feed is swallowed. */
  lemma {:induction false} CutSwallows(width: char -> int, t: Term, a: string) returns (b: string)
    requires Valid(t) && !Whole(a)
    ensures b == "\n" || b == "\nm"
    ensures Fed(width, t, a + b) == Fed(width, t, a)
    decreases |a|
  {
    if CompleteToken(a) {
      b := CutSwallows(width, Stepped(width, t, a), a[TokenLength(a)..]);
      TokenExtends(width, t, a, b);
    } else if |a| == 1 {
      b := "\n";
      assert a + b == [ESC, '\n'] && [ESC, '\n'][2..] == "" && a[1..] == "";
    } else {
      b := "\nm";
      OpenSequenceSwallows(width, t, a);
    }
  }

  /**
   Feeding a text and then any other is feeding them joined exactly when the first ends inside no
   escape sequence: from every state, some text is read differently after any other cut.
   */
  lemma {:induction false} CutsThatDoNotMatter(width: char -> int, t: Term, a: string)
    requires Valid(t)
    ensures Whole(a) <==> forall b :: Fed(width, t, a + b) == Fed(width, Fed(width, t, a), b)
  {
    if Whole(a) {
      forall b ensures Fed(width, t, a + b) == Fed(width, Fed(width, t, a), b) {
        WholeTextsFeedInPieces(width, t, a, b);
      }
    } else {
      var b := CutSwallows(width, t, a);
      LineFeedRises(width, Fed(width, t, a));
      assert Fed(width, t, a + b) != Fed(width, Fed(width, t, a), b);
    }
  }

  /** A cut inside an escape sequence does matter: the second piece is then printed. */
  lemma CutInsideEscapeMatters(width: char -> int, rows: nat, cols: nat)
    requires rows > 0 && cols > 0 && width('A') == 1
    ensures var t := Fresh(rows, cols);
            Fed(width, t, [ESC, 'A']) == t && Fed(width, Fed(width, t, [ESC]), "A").screen[0][0] == 'A'
  {
    var t := Fresh(rows, cols);
    assert [ESC, 'A'][2..] == "";
    assert Fed(width, t, [ESC, 'A']) == t;
    assert [ESC][1..] == "" && "A"[1..] == "";
    assert Fed(width, t, [ESC]) == t;
    assert Fed(width, t, "A") == Printed(1, t, 'A');
  }

  // ----- Plain text ---------------------------------------------------------------------------

  ghost predicate Plain(width: char -> int, text: string) {
    forall i :: 0 <= i < |text| ==> text[i] as int >= 32 && width(text[i]) == 1
  }

  function CharAt(text: string, k: nat): char { if k < |text| then text[k] else ' ' }

  /** How many cells there are before line `i`: `i` times `cols`, written as a sum. */
  function Start(cols: nat, i: nat): nat { if i == 0 then 0 else Start(cols, i - 1) + cols }

  /** The lines, read cell by cell, spell `text` and then only blanks; the cursor is behind it. */
  ghost predicate Spells(t: Term, text: string) {
    && Valid(t) && t.autowrap && (t.pendingWrap ==> t.col == t.cols - 1)
    && Start(t.cols, |t.scrollback| + t.row) + t.col + (if t.pendingWrap then 1 else 0) == |text|
    && LinesSpell(AllLines(t), t.cols, text)
  }

  ghost predicate LinesSpell(lines: seq<Line>, cols: nat, text: string) {
    forall i :: 0 <= i < |lines| ==> LineSpells(lines[i], Start(cols, i), cols, text)
  }

  ghost predicate LineSpells(line: Line, start: nat, cols: nat, text: string) {
    |line| == cols && forall j :: 0 <= j < cols ==> line[j] == CharAt(text, start + j)
  }

  lemma {:induction false} LinesDoNotOverlap(cols: nat, i: nat, k: nat)
    requires i < k
    ensures Start(cols, i) + cols <= Start(cols, k)
  {
    if i + 1 < k {
      LinesDoNotOverlap(cols, i, k - 1);
    }
  }

  lemma WrapSpells(t: Term, text: string)
    requires Spells(t, text) && t.pendingWrap
    ensures Spells(LineFed(t.(col := 0)), text) && LineFed(t.(col := 0)).col == 0
  {
    var lines, lines' := AllLines(t), AllLines(LineFed(t.(col := 0)));
    LineFeedKeepsText(t.(col := 0));
    if t.row + 1 == t.rows {
      assert lines' == lines + [Blank(t.cols)];
      assert LineSpells(Blank(t.cols), Start(t.cols, |lines|), t.cols, text);
    } else {
      assert lines' == lines;
    }
  }

  lemma PutSpells(t: Term, text: string, c: char)
    requires Spells(t, text) && !t.pendingWrap
    ensures Spells(Printed(1, t, c), text + [c])
  {
    var lines, lines' := AllLines(t), AllLines(Printed(1, t, c));
    var at := |t.scrollback| + t.row;
    assert lines' == lines[at := lines[at][t.col := c]] by {
      assert Erase(t.screen[t.row][t.col := c], t.col + 1, t.col + 1) == t.screen[t.row][t.col := c];
    }
    forall i | 0 <= i < |lines'|
      ensures LineSpells(lines'[i], Start(t.cols, i), t.cols, text + [c])
    {
      assert LineSpells(lines[i], Start(t.cols, i), t.cols, text);
      if i < at {
        LinesDoNotOverlap(t.cols, i, at);
      } else if at < i {
        LinesDoNotOverlap(t.cols, at, i);
      }
    }
  }

  lemma PrintSpells(t: Term, done: string, c: char)
    requires Spells(t, done)
    ensures Spells(Printed(1, t, c), done + [c])
  {
    if t.pendingWrap {
      var wrapped := LineFed(t.(col := 0));
      WrapSpells(t, done);
      assert Printed(1, t, c) == Printed(1, wrapped, c);
      PutSpells(wrapped, done, c);
    } else {
      PutSpells(t, done, c);
    }
  }

  lemma PlainStep(width: char -> int, t: Term, text: string)
    requires Valid(t) && text != "" && text[0] as int >= 32 && width(text[0]) == 1
    ensures Fed(width, t, text) == Fed(width, Printed(1, t, text[0]), text[1..])
  {
    assert Stepped(width, t, text) == Printed(1, t, text[0]);
  }

  lemma FirstMoved(done: string, text: string)
    requires text != ""
    ensures done + [text[0]] + text[1..] == done + text
  {
  }

  lemma {:induction false} PlainTextSpells(width: char -> int, t: Term, done: string, text: string)
    requires Spells(t, done) && Plain(width, text)
    ensures Spells(Fed(width, t, text), done + text)
    decreases |text|
  {
    if text == "" {
      assert done + text == done;
    } else {
      PlainStep(width, t, text);
      FirstMoved(done, text);
      PrintSpells(t, done, text[0]);
      PlainTextSpells(width, Printed(1, t, text[0]), done + [text[0]], text[1..]);
    }
  }

  /**
   Whatever the size of the screen, plain text fed to a fresh terminal is all there: scrollback and
   screen, read line after line, spell it out and then only blanks.
   */
  lemma PlainTextIsPreserved(width: char -> int, rows: nat, cols: nat, text: string)
    requires rows > 0 && cols > 0 && Plain(width, text)
    ensures Spells(Fed(width, Fresh(rows, cols), text), text)
  {
    FreshIsEmpty(rows, cols);
    PlainTextSpells(width, Fresh(rows, cols), "", text);
    NothingFirst(text);
  }

  lemma FreshIsEmpty(rows: nat, cols: nat)
    requires rows > 0 && cols > 0
    ensures Spells(Fresh(rows, cols), "")
  {
    var t := Fresh(rows, cols);
    assert AllLines(t) == t.screen;
    forall i | 0 <= i < rows ensures LineSpells(t.screen[i], Start(cols, i), cols, "") {
      assert t.screen[i] == Blank(cols);
    }
  }

  lemma NothingFirst(text: string)
    ensures "" + text == text
  {
  }

  // ----- Resizing -----------------------------------------------------------------------------

  /** A line cut or padded to `cols` cells. */
  function Fit(line: Line, cols: nat): (r: Line)
    ensures |r| == cols
    ensures |line| == cols ==> r == line
  {
    if |line| < cols then line + Blank(cols - |line|) else line[..cols]
  }

  function FitAll(lines: seq<Line>, cols: nat): (r: seq<Line>)
    ensures |r| == |lines|
    ensures forall i :: 0 <= i < |r| ==> r[i] == Fit(lines[i], cols)
  {
    seq(|lines|, i requires 0 <= i < |lines| => Fit(lines[i], cols))
  }

  lemma {:induction false} FitAllConcat(a: seq<Line>, b: seq<Line>, cols: nat)
    ensures FitAll(a + b, cols) == FitAll(a, cols) + FitAll(b, cols)
  {
  }

  ghost function Resized(t: Term, rows: nat, cols: nat): (t': Term)
    requires Valid(t) && rows > 0 && cols > 0
    ensures Valid(t') && t'.rows == rows && t'.cols == cols && t.scrollback <= t'.scrollback
  {
    var t1 := t.(rows := rows, cols := cols, col := Min(t.col, cols - 1), pendingWrap := false);
    if rows < t.rows then
      var k := t.rows - rows;
      t1.(scrollback := t.scrollback + t.screen[..k], screen := FitAll(t.screen[k..], cols), row := Max(0, t.row - k))
    else
      t1.(screen := FitAll(BlankRows(rows - t.rows, 0) + t.screen, cols), row := t.row + (rows - t.rows))
  }

  lemma MoveAcross(a: seq<Line>, b: seq<Line>, k: nat)
    requires k <= |b|
    ensures (a + b[..k]) + b[k..] == a + b
  {
  }

  lemma {:induction false} FitTailTwice(a: seq<Line>, b: seq<Line>, cols: nat)
    ensures FitAll(a + FitAll(b, cols), cols) == FitAll(a, cols) + FitAll(b, cols)
  {
  }

  lemma {:induction false} FitBlanks(n: nat, cols: nat)
    ensures FitAll(BlankRows(n, 0), cols) == BlankRows(n, cols)
  {
    assert Fit(Blank(0), cols) == Blank(cols);
  }

  lemma {:induction false} FitMoved(a: seq<Line>, b: seq<Line>, k: nat, cols: nat)
    requires k <= |b|
    ensures FitAll((a + b[..k]) + FitAll(b[k..], cols), cols) == FitAll(a, cols) + FitAll(b, cols)
  {
    FitTailTwice(a + b[..k], b[k..], cols);
    FitAllConcat(a + b[..k], b[k..], cols);
    MoveAcross(a, b, k);
    FitAllConcat(a, b, cols);
  }

  lemma {:induction false} FitPadded(a: seq<Line>, n: nat, b: seq<Line>, cols: nat)
    ensures FitAll(a + FitAll(BlankRows(n, 0) + b, cols), cols)
       == FitAll(a, cols) + (BlankRows(n, cols) + FitAll(b, cols))
  {
    FitTailTwice(a, BlankRows(n, 0) + b, cols);
    FitAllConcat(BlankRows(n, 0), b, cols);
    FitBlanks(n, cols);
  }

  lemma NothingAdded(cols: nat, lines: seq<Line>)
    ensures BlankRows(0, cols) + lines == lines
  {
  }

  /** A resize only moves lines between screen and scrollback, cut or padded to the new width. */
  lemma {:induction false} ResizeKeepsLines(t: Term, rows: nat, cols: nat)
    requires Valid(t) && rows > 0 && cols > 0
    ensures FitAll(AllLines(Resized(t, rows, cols)), cols)
         == FitAll(t.scrollback, cols) + (BlankRows(Max(0, rows - t.rows), cols) + FitAll(t.screen, cols))
  {
    var t', sb, screen := Resized(t, rows, cols), t.scrollback, t.screen;
    if rows < t.rows {
      var k := t.rows - rows;
      calc {
        FitAll(AllLines(t'), cols);
        FitAll((sb + screen[..k]) + FitAll(screen[k..], cols), cols);
        { FitMoved(sb, screen, k, cols); }
        FitAll(sb, cols) + FitAll(screen, cols);
        { NothingAdded(cols, FitAll(screen, cols)); }
        FitAll(sb, cols) + (BlankRows(0, cols) + FitAll(screen, cols));
      }
    } else {
      FitPadded(sb, rows - t.rows, screen, cols);
    }
  }

  /** At the same width a resize cuts and pads no line of the old screen. */
  lemma SameWidth(t: Term, rows: nat, i: nat)
    requires Valid(t) && rows > 0 && t.rows - rows <= i < t.rows
    ensures var screen := Resized(t, rows, t.cols).screen;
            0 <= i + rows - t.rows < |screen| && screen[i + rows - t.rows] == t.screen[i]
  {
    if rows < t.rows {
      assert t.screen[t.rows - rows..][i + rows - t.rows] == t.screen[i];
    } else {
      assert (BlankRows(rows - t.rows, 0) + t.screen)[i + rows - t.rows] == t.screen[i];
    }
  }

  lemma WholeSuffix(lines: seq<Line>, n: nat)
    requires |lines| == n
    ensures lines[|lines| - n..] == lines
  {
  }

  lemma ShrunkScreen(t: Term, rows: nat)
    requires Valid(t) && 0 < rows <= t.rows
    ensures Resized(t, rows, t.cols).screen == t.screen[t.rows - rows..]
  {
    var removed, screen := t.rows - rows, Resized(t, rows, t.cols).screen;
    forall i | 0 <= i < rows ensures screen[i] == t.screen[removed..][i] {
      SameWidth(t, rows, i + removed);
    }
  }

  /** Fewer rows at the same width: no line changes, each is still on the screen or in scrollback. */
  lemma {:induction false} ShrinkKeepsText(t: Term, rows: nat)
    requires Valid(t) && 0 < rows <= t.rows
    ensures AllLines(Resized(t, rows, t.cols)) == AllLines(t)
  {
    ShrunkScreen(t, rows);
    MoveAcross(t.scrollback, t.screen, t.rows - rows);
    WholeSuffix(t.screen, t.rows);
  }

  /** The cursor stays on its line unless that line scrolls out. */
  lemma {:induction false} ResizeKeepsCursorLine(t: Term, rows: nat)
    requires Valid(t) && rows > 0 && t.rows - rows <= t.row
    ensures var t' := Resized(t, rows, t.cols);
            t'.screen[t'.row] == t.screen[t.row] && t'.col == t.col
  {
    SameWidth(t, rows, t.row);
  }

  // ----- The class ----------------------------------------------------------------------------

  class TerminalModel {
    const width: char -> int
    var rows: nat
    var cols: nat
    var row: nat
    var col: nat
    var autowrap: bool
    var pendingWrap: bool
    var scrollback: seq<Line>
    var screen: seq<Line>

    ghost function State(): Term
      reads this
    {
      Term(rows, cols, row, col, autowrap, pendingWrap, scrollback, screen)
    }

    constructor (rows: nat, cols: nat, width: char -> int)
      requires rows > 0 && cols > 0
      ensures State() == Fresh(rows, cols) && this.width == width
    {
      this.rows, this.cols, this.row, this.col := rows, cols, 0, 0;
      this.autowrap, this.pendingWrap := true, false;
      this.scrollback, this.screen := [], BlankRows(rows, cols);
      this.width := width;
    }

    method Feed(text: string)
      requires Valid(State())
      modifies this
      ensures State() == Fed(width, old(State()), text)
    {
      var index := 0;
      while index < |text|
        invariant index <= |text| && Valid(State())
        invariant Fed(width, old(State()), text) == Fed(width, State(), text[index..])
        decreases |text| - index
      {
        ghost var before, rest := State(), text[index..];
        var c := text[index];
        if c == ESC {
          index := ConsumeEscape(text, index);
        } else {
          if c == '\r' {
            col, pendingWrap := 0, false;
          } else if c == '\n' {
            LineFeed();
          } else if c == '\U{0008}' {
            col := Max(0, col - 1);
          } else if c as int >= 32 {
            Put(c);
          }
          index := index + 1;
        }
        assert State() == Stepped(width, before, rest);
        assert text[index..] == rest[TokenLength(rest)..];
      }
    }

    method ConsumeEscape(text: string, index: nat) returns (next: nat)
      requires Valid(State()) && index < |text| && text[index] == ESC
      modifies this
      ensures State() == Stepped(width, old(State()), text[index..])
      ensures next == index + TokenLength(text[index..])
    {
      ghost var rest := text[index..];
      if index + 1 >= |text| {
        return index + 1;
      }
      if text[index + 1] != '[' {
        return Min(|text|, index + 2);
      }
      var end := index + 2;
      while end < |text| && !IsFinal(text[end])
        invariant index + 2 <= end <= |text|
        invariant FinalAt(rest, 2) == FinalAt(rest, end - index)
      {
        end := end + 1;
      }
      if end >= |text| {
        return |text|;
      }
      assert text[index + 2..end] == rest[2..end - index];
      Control(text[index + 2..end], text[end]);
      next := end + 1;
    }

    method Control(body: string, final: char)
      requires Valid(State())
      modifies this
      ensures State() == Controlled(old(State()), body, final)
    {
      var parts := Parameters(body);
      var first := if parts == [] then 0 else parts[0];
      var count := if first == 0 then 1 else first;
      if final == 'A' {
        row, pendingWrap := Max(0, row - count), false;
      } else if final == 'B' {
        row, pendingWrap := Min(rows - 1, row + count), false;
      } else if final == 'C' {
        col, pendingWrap := Min(cols - 1, col + count), false;
      } else if final == 'D' {
        col := Max(0, col - count);
      } else if final == 'G' {
        col := Min(cols - 1, Max(0, count - 1));
      } else if final == 'H' || final == 'f' {
        var r := (if |parts| >= 1 && parts[0] != 0 then parts[0] else 1) - 1;
        var c := (if |parts| >= 2 && parts[1] != 0 then parts[1] else 1) - 1;
        row, col := Min(rows - 1, Max(0, r)), Min(cols - 1, Max(0, c));
      } else if final == 'K' {
        EraseCells(if first == 2 then 0 else col, if first == 1 then col + 1 else cols);
        pendingWrap := false;
      } else if (final == 'h' || final == 'l') && body == "?7" {
        autowrap, pendingWrap := final == 'h', false;
      } else if final == 'J' {
        if first == 2 || first == 3 {
          screen, row, col := BlankRows(rows, cols), 0, 0;
        } else if first == 0 {
          EraseBelow();
        }
      }
    }

    /** Blanks part of the cursor's line. */
    method EraseCells(from: nat, to: nat)
      requires Valid(State()) && from <= to <= cols
      modifies this`screen
      ensures screen == old(screen)[row := Erase(old(screen)[row], from, to)]
    {
      assert Erase(screen[row], from, from) == screen[row];
      for c := from to to
        invariant Valid(State())
        invariant screen == old(screen)[row := Erase(old(screen)[row], from, c)]
      {
        screen := screen[row := screen[row][c := ' ']];
        assert screen[row] == Erase(old(screen)[row], from, c + 1);
      }
    }

    /** Blanks everything from the cursor on. */
    method EraseBelow()
      requires Valid(State())
      modifies this`screen
      ensures screen == ErasedBelow(old(screen), row, col, cols)
    {
      EraseCells(col, cols);
      for r := row + 1 to rows
        invariant Valid(State())
        invariant forall i :: 0 <= i < rows ==>
          screen[i] == if i < row || i >= r then old(screen)[i]
                       else if i == row then Erase(old(screen)[i], col, cols) else Blank(cols)
      {
        screen := screen[r := Blank(cols)];
      }
    }

    method LineFeed()
      requires Valid(State())
      modifies this
      ensures State() == LineFed(old(State()))
    {
      pendingWrap := false;
      row := row + 1;
      if row >= rows {
        scrollback := scrollback + [screen[0]];
        screen := screen[1..] + [Blank(cols)];
        row := rows - 1;
      }
    }

    method Put(c: char)
      requires Valid(State())
      modifies this
      ensures State() == Printed(width(c), old(State()), c)
    {
      var w := width(c);
      if w <= 0 {
        return;
      }
      Wrap();
      screen := screen[row := screen[row][col := c]];
      CoverTail(w);
      if col + w >= cols {
        pendingWrap, col := autowrap, cols - 1;
      } else {
        col := col + w;
      }
    }

    /** Carries out a pending wrap. */
    method Wrap()
      requires Valid(State())
      modifies this
      ensures State() == Wrapped(old(State()))
    {
      if pendingWrap && autowrap {
        col := 0;
        LineFeed();
      }
      pendingWrap := false;
    }

    /** Blanks the cells behind the cursor that a wide character covers, inside the line. */
    method CoverTail(w: nat)
      requires Valid(State()) && w > 0
      modifies this`screen
      ensures screen == old(screen)[row := Erase(old(screen)[row], col + 1, col + w)]
    {
      ghost var lines := screen;
      assert lines[row] == Erase(lines[row], col + 1, col + 1);
      for offset := 1 to w
        invariant Valid(State())
        invariant screen == lines[row := Erase(lines[row], col + 1, col + offset)]
      {
        if col + offset < cols {
          screen := screen[row := screen[row][col + offset := ' ']];
        }
        assert screen[row] == Erase(lines[row], col + 1, col + offset + 1);
      }
    }

    /** Cuts or pads every line. */
    static method FitLines(lines: seq<Line>, cols: nat) returns (fitted: seq<Line>)
      ensures fitted == FitAll(lines, cols)
    {
      fitted := [];
      for i := 0 to |lines|
        invariant fitted == FitAll(lines[..i], cols)
      {
        fitted := fitted + [Fit(lines[i], cols)];
      }
      assert lines[..|lines|] == lines;
    }

    method Resize(rows: nat, cols: nat)
      requires Valid(State()) && rows > 0 && cols > 0
      modifies this
      ensures State() == Resized(old(State()), rows, cols)
    {
      var kept := MoveRows(rows, cols);
      this.rows, this.cols := rows, cols;
      screen := FitLines(kept, cols);
      WholeSuffix(screen, rows);
      screen := screen[|screen| - rows..];
      row := Min(row, rows - 1);
      col := Min(col, cols - 1);
      pendingWrap := false;
    }

    /** Scrolls out the rows that are too many, or puts blank ones on top; the cursor moves along. */
    method MoveRows(rows: nat, ghost cols: nat) returns (kept: seq<Line>)
      requires Valid(State()) && rows > 0 && cols > 0
      modifies this`scrollback, this`row
      ensures var expected := Resized(old(State()), rows, cols);
              scrollback == expected.scrollback && row == expected.row && FitAll(kept, cols) == expected.screen
    {
      if rows < this.rows {
        var removedCount := this.rows - rows;
        scrollback := scrollback + screen[..removedCount];
        kept := screen[removedCount..];
        row := Max(0, row - removedCount);
      } else {
        var addedCount := rows - this.rows;
        kept := BlankRows(addedCount, 0) + screen;
        row := row + addedCount;
      }
    }
  }
}
