/** The tokens spelled out: what `scrub` and the C standard's lexer make of the characters is what `Tokens` says they make of
    the tokens. */
module Spelling {
  import opened Wrappers
  import opened Tokens
  import Scrub

  /** How every token is written. */
  type Spelled = Token -> string

  /** Tokens that begin or end a comment or a literal, and the backslash. */
  predicate IsMark(t: Token) {
    t in {BlockOpen, BlockClose, LineOpen, SlashOpen, StarOpen, Quote, RawQuote, EmptyLiteral, Splice}
  }

  /** A character that neither quotes nor escapes, and with the next one neither opens nor ends a comment. */
  predicate QuietAt(text: string, i: nat) {
    && i < |text| && text[i] !in {'"', '\'', '\\', '\n'}
    && (text[i] == '/' ==> !Scrub.At(text, i + 1, '/') && !Scrub.At(text, i + 1, '*'))
    && (text[i] == '*' ==> !Scrub.At(text, i + 1, '/'))
  }

  ghost predicate Quiet(s: string) { s != "" && forall i: nat :: i < |s| ==> QuietAt(s, i) }

  /** How a mark is written. */
  function Marking(t: Token): string {
    match t
    case BlockOpen => "/*"
    case BlockClose => "*/"
    case LineOpen => "//"
    case SlashOpen => "/*/"
    case StarOpen => "*/*"
    case Quote => "\""
    case RawQuote => "R\""
    case _ => "\\"
  }

  ghost predicate SpelledRight(w: Spelled, t: Token) {
    if IsMark(t) then w(t) == Marking(t) else Quiet(w(t))
  }

  ghost predicate Spells(w: Spelled) { forall t :: t != EmptyLiteral ==> SpelledRight(w, t) }

  /** The tokens of a line, a blank between any two. */
  function TextOf(w: Spelled, line: Line): string {
    if line == [] then "" else if |line| == 1 then w(line[0]) else w(line[0]) + " " + TextOf(w, line[1..])
  }

  /** A line as its tokens are read off the characters: a backslash only at the end, and inside a literal `R` and the quote
      behind it are two tokens. */
  ghost predicate Written(iso: bool, m: Mode, line: Line) {
    forall k: nat :: k < |line| ==> WrittenAt(iso, m, line, k)
  }

  predicate WrittenAt(iso: bool, m: Mode, line: Line, k: nat)
    requires k < |line|
  {
    && (line[k] == Splice ==> k == |line| - 1) && line[k] != EmptyLiteral
    && (EndRead(iso, m, line[..k]) == Literal ==> line[k] != RawQuote)
  }

  /** The line ends at `i`, or goes on with a blank. */
  predicate Ends(text: string, i: nat) { i == |text| || (i < |text| && text[i] in {' ', '\n'}) }

  ghost predicate Stands(text: string, i: nat, s: string) {
    i + |s| <= |text| && text[i..i + |s|] == s && Ends(text, i + |s|)
  }

  predicate LineEnds(text: string, i: nat) { i == |text| || Scrub.At(text, i, '\n') }

  /** Where a lexer of the characters is, as a reader of tokens has it. A backslash at a literal's end escapes a newline. */
  function Where(text: string, i: nat, c: Scrub.Mode): Option<Mode> {
    match c
    case InCode => Some(Code)
    case InLine => Some(Trailing)
    case InBlock(star) => if star && Scrub.At(text, i, '/') then None else Some(Block)
    case InLiteral(q) => if q == '"' then Some(Literal) else None
    case Escaped(q) => if q == '"' && LineEnds(text, i) then Some(Literal) else None
    case Opening => None
  }

  /** A lexer's run over a text: the mode in front of every character and at the end, and what every character became. */
  datatype Lexing = Lexing(iso: bool, text: string, modes: seq<Scrub.Mode>, out: string)

  predicate Stepped(r: Lexing, i: nat) {
    && i < |r.text| == |r.out| && |r.modes| == |r.text| + 1
    && Scrub.Step(r.iso, r.text, i, r.modes[i]) == (r.modes[i + 1], r.out[i])
  }

  type Run = r: Lexing | |r.out| == |r.text| && |r.modes| == |r.text| + 1 && forall i: nat :: i < |r.text| ==> Stepped(r, i)
    witness Lexing(true, "", [Scrub.InCode], "")

  /** The run from the first character on. */
  function RunOf(iso: bool, text: string): Run {
    var modes := seq(|text| + 1, i requires 0 <= i <= |text| => Scrub.ModeAt(iso, text, i));
    var r := Lexing(iso, text, modes, Scrub.Lex(iso, text, 0, Scrub.InCode));
    assert forall i: nat :: i < |text| ==> Stepped(r, i) by {
      forall i: nat | i < |text| ensures Stepped(r, i) { Scrub.LexAt(iso, text, i); }
    }
    r
  }

  /** Where the lexer is before character `i`. */
  function TokenMode(r: Run, i: nat): Option<Mode>
    requires i <= |r.text|
  {
    Where(r.text, i, r.modes[i])
  }

  /** The line stands at `i`. */
  ghost predicate LineIsAt(w: Spelled, text: string, i: nat, line: Line) {
    Stands(text, i, TextOf(w, line)) && LineEnds(text, i + |TextOf(w, line)|)
  }

  function Read(iso: bool, m: Mode, t: Token): (Mode, Mark) { if iso then Step(m, t) else Glance(m, t) }

  function EndRead(iso: bool, m: Mode, line: Line): Mode { if iso then EndMode(m, line) else EndGlance(m, line) }

  /** The characters `[i, i + |s|)` came out as the cell says: blank, or as they are; of a comment's end with a `*` on its
      other side, the `*` that belongs to no comment. */
  ghost predicate Fits(out: string, i: nat, s: string, cell: Cell)
    requires i + |s| <= |out|
  {
    match cell
    case Blank => forall k :: i <= k < i + |s| ==> out[k] == ' '
    case Kept(StarOpen) => exists k :: i <= k < i + |s| && out[k] == '*'
    case Kept(_) => out[i..i + |s|] == s
  }

  /** The line at `i` came out as the cells say. */
  ghost predicate Reads(out: string, i: nat, w: Spelled, line: Line, cells: seq<Cell>)
    requires |line| == |cells| && i + |TextOf(w, line)| <= |out|
    decreases line
  {
    line == [] ||
    (var n := |w(line[0])|;
     && Fits(out, i, w(line[0]), cells[0])
     && (|line| > 1 ==> out[i + n] == ' ' && Reads(out, i + n + 1, w, line[1..], cells[1..])))
  }

  // ------------------------------------------------------------- one token

  /** Quiet characters change nothing. */
  lemma {:induction false} QuietRead(r: Run, i: nat, n: nat, m: Mode)
    requires i + n <= |r.text| && forall k: nat :: i <= k < i + n ==> QuietAt(r.text, k)
    requires TokenMode(r, i) == Some(m)
    ensures TokenMode(r, i + n) == Some(m)
    ensures forall k :: i <= k < i + n ==> r.out[k] == if m == Code then r.text[k] else ' '
    decreases n
  {
    if n > 0 {
      QuietRead(r, i, n - 1, m);
      assert QuietAt(r.text, i + n - 1);
      assert Stepped(r, i + n - 1);
    }
  }

  lemma WordQuiet(text: string, i: nat, s: string)
    requires Quiet(s) && Stands(text, i, s)
    ensures forall k: nat :: i <= k < i + |s| ==> QuietAt(text, k)
  {
    forall k: nat | i <= k < i + |s| ensures QuietAt(text, k) {
      assert QuietAt(s, k - i) && text[k] == s[k - i];
      if k + 1 < i + |s| { assert text[k + 1] == s[k + 1 - i]; }
    }
  }

  /** The token at `i` came out shown or not, and the lexer behind it is where `m` is. */
  ghost predicate TokenIs(r: Run, w: Spelled, i: nat, t: Token, m: Mode, shown: bool)
    requires i + |w(t)| <= |r.text|
  {
    && TokenMode(r, i + |w(t)|) == Some(m)
    && Fits(r.out, i, w(t), if shown then Kept(t) else Blank)
  }

  ghost predicate TokenIsRead(r: Run, w: Spelled, i: nat, m: Mode, t: Token)
    requires i + |w(t)| <= |r.text|
  {
    TokenIs(r, w, i, t, Read(r.iso, m, t).0, Read(r.iso, m, t).1 == Shown)
  }

  lemma IsShown(out: string, i: nat, s: string, t: Token)
    requires i + |s| <= |out| && (if t == StarOpen then '*' in out[i..i + |s|] else out[i..i + |s|] == s)
    ensures Fits(out, i, s, Kept(t))
  {
    if t == StarOpen {
      var k :| 0 <= k < |s| && out[i..i + |s|][k] == '*';
      assert out[i + k] == '*';
    }
  }

  lemma PlainRead(r: Run, w: Spelled, i: nat, m: Mode, t: Token)
    requires !IsMark(t) && Quiet(w(t)) && Stands(r.text, i, w(t)) && TokenMode(r, i) == Some(m)
    ensures TokenIs(r, w, i, t, m, m == Code)
  {
    WordQuiet(r.text, i, w(t));
    QuietRead(r, i, |w(t)|, m);
    if m == Code {
      assert r.out[i..i + |w(t)|] == r.text[i..i + |w(t)|];
      IsShown(r.out, i, w(t), t);
    }
  }

  lemma PlainIs(iso: bool, m: Mode, t: Token)
    requires !IsMark(t)
    ensures Read(iso, m, t).0 == m && (Read(iso, m, t).1 == Shown <==> m == Code)
  {
  }

  /** The lexer is at a token that begins or ends a comment or a literal. */
  ghost predicate AtMark(r: Run, w: Spelled, i: nat, m: Mode, t: Token) {
    && IsMark(t) && t != EmptyLiteral && (m == Literal ==> t != RawQuote)
    && w(t) == Marking(t) && Stands(r.text, i, w(t)) && (t == Splice ==> LineEnds(r.text, i + 1))
    && TokenMode(r, i) == Some(m) && !Scrub.AfterStar(r.text, i)
  }

  lemma CharAt(text: string, i: nat, s: string, k: nat)
    requires Stands(text, i, s) && k < |s|
    ensures text[i + k] == s[k]
  {
    assert text[i + k] == text[i..i + |s|][k];
  }

  /** What comes out of a character of a mark that is shown or blanked. */
  function Left(c: char, shown: bool): char { if shown then c else ' ' }

  lemma OneStep(iso: bool, text: string, i: nat, m: Mode, t: Token, c: Scrub.Mode)
    requires t in {Quote, Splice} && i < |text| && text[i] == Marking(t)[0] && (t == Splice ==> LineEnds(text, i + 1))
    requires Where(text, i, c) == Some(m)
    ensures var (d, out) := Scrub.Step(iso, text, i, c);
      Where(text, i + 1, d) == Some(Read(iso, m, t).0) && out == Left(text[i], Read(iso, m, t).1 == Shown)
  {
  }

  lemma ShortMarkRead(r: Run, w: Spelled, i: nat, m: Mode, t: Token)
    requires AtMark(r, w, i, m, t) && t in {Quote, Splice}
    ensures TokenIsRead(r, w, i, m, t)
  {
    CharAt(r.text, i, w(t), 0);
    assert Stepped(r, i);
    OneStep(r.iso, r.text, i, m, t, r.modes[i]);
    CameOut(r, w, i, t, Read(r.iso, m, t).0, Read(r.iso, m, t).1 == Shown);
  }

  /** Two steps of the lexer over a mark, from `c` over `d`. */
  lemma TwoSteps(iso: bool, text: string, i: nat, m: Mode, t: Token, c: Scrub.Mode, d: Scrub.Mode)
    requires t in {BlockOpen, BlockClose, LineOpen, RawQuote} && (m == Literal ==> t != RawQuote)
    requires i + 1 < |text| && text[i] == Marking(t)[0] && text[i + 1] == Marking(t)[1] && Ends(text, i + 2)
    requires !Scrub.AfterStar(text, i) && Where(text, i, c) == Some(m) && Scrub.Step(iso, text, i, c).0 == d
    ensures var (e, out) := Scrub.Step(iso, text, i + 1, d);
      Where(text, i + 2, e) == Some(Read(iso, m, t).0) && out == Left(text[i + 1], Read(iso, m, t).1 == Shown)
    ensures Scrub.Step(iso, text, i, c).1 == Left(text[i], Read(iso, m, t).1 == Shown)
  {
  }

  lemma PairMarkRead(r: Run, w: Spelled, i: nat, m: Mode, t: Token)
    requires AtMark(r, w, i, m, t) && t in {BlockOpen, BlockClose, LineOpen, RawQuote}
    ensures TokenIsRead(r, w, i, m, t)
  {
    CharAt(r.text, i, w(t), 0);
    CharAt(r.text, i, w(t), 1);
    assert Stepped(r, i);
    assert Stepped(r, i + 1);
    TwoSteps(r.iso, r.text, i, m, t, r.modes[i], r.modes[i + 1]);
    CameOut(r, w, i, t, Read(r.iso, m, t).0, Read(r.iso, m, t).1 == Shown);
  }

  /** A mark that came out as it is, or blank. */
  lemma CameOut(r: Run, w: Spelled, i: nat, t: Token, m: Mode, shown: bool)
    requires i + |w(t)| <= |r.text| && t != StarOpen && TokenMode(r, i + |w(t)|) == Some(m)
    requires forall k :: 0 <= k < |w(t)| ==> r.out[i + k] == Left(w(t)[k], shown)
    ensures TokenIs(r, w, i, t, m, shown)
  {
    var out := r.out;
    if shown {
      IsShown(out, i, w(t), t);
    } else {
      forall k | i <= k < i + |w(t)| ensures out[k] == ' ' { assert out[i + (k - i)] == Left(w(t)[k - i], false); }
    }
  }

  /** Three steps, over an opener with a character before or behind it. */
  lemma ThreeSteps(iso: bool, text: string, i: nat, m: Mode, t: Token, c: Scrub.Mode, d: Scrub.Mode, e: Scrub.Mode)
    requires t in {SlashOpen, StarOpen} && i + 2 < |text| && Ends(text, i + 3)
    requires text[i] == Marking(t)[0] && text[i + 1] == Marking(t)[1] && text[i + 2] == Marking(t)[2]
    requires !Scrub.AfterStar(text, i) && Where(text, i, c) == Some(m)
    requires Scrub.Step(iso, text, i, c).0 == d && Scrub.Step(iso, text, i + 1, d).0 == e
    ensures Where(text, i + 3, Scrub.Step(iso, text, i + 2, e).0) == Some(Read(iso, m, t).0)
    ensures var a, b := Scrub.Step(iso, text, i, c).1, Scrub.Step(iso, text, i + 1, d).1;
      var z := Scrub.Step(iso, text, i + 2, e).1;
      if Read(iso, m, t).1 == Shown then t == StarOpen && '*' in {a, b, z} else a == b == z == ' '
  {
  }

  lemma LongMarkRead(r: Run, w: Spelled, i: nat, m: Mode, t: Token)
    requires AtMark(r, w, i, m, t) && t in {SlashOpen, StarOpen}
    ensures TokenIsRead(r, w, i, m, t)
  {
    CharAt(r.text, i, w(t), 0);
    CharAt(r.text, i, w(t), 1);
    CharAt(r.text, i, w(t), 2);
    assert Stepped(r, i);
    assert Stepped(r, i + 1);
    assert Stepped(r, i + 2);
    ThreeSteps(r.iso, r.text, i, m, t, r.modes[i], r.modes[i + 1], r.modes[i + 2]);
  }

  lemma TokenRead(r: Run, w: Spelled, i: nat, m: Mode, t: Token)
    requires t != EmptyLiteral && (m == Literal ==> t != RawQuote)
    requires Spells(w) && Stands(r.text, i, w(t)) && (t == Splice ==> LineEnds(r.text, i + |w(t)|))
    requires TokenMode(r, i) == Some(m) && !Scrub.AfterStar(r.text, i)
    ensures TokenIsRead(r, w, i, m, t)
  {
    assert SpelledRight(w, t);
    if !IsMark(t) { PlainRead(r, w, i, m, t); PlainIs(r.iso, m, t); }
    else if t in {Quote, Splice} { ShortMarkRead(r, w, i, m, t); }
    else if t in {SlashOpen, StarOpen} { LongMarkRead(r, w, i, m, t); }
    else { PairMarkRead(r, w, i, m, t); }
  }

  // ------------------------------------------------------- a line of them

  function CellsFrom(iso: bool, m: Mode, line: Line): (r: seq<Cell>)
    ensures |r| == |line|
  {
    if iso then ReadLine(m, line) else ScrubLine(m, line)
  }

  /** What the lexer makes of the characters of a line is what the reader makes of its tokens. */
  ghost predicate LineIsRead(r: Run, w: Spelled, i: nat, m: Mode, line: Line)
    requires i + |TextOf(w, line)| <= |r.text|
  {
    var end := i + |TextOf(w, line)|;
    && Reads(r.out, i, w, line, CellsFrom(r.iso, m, line))
    && TokenMode(r, end) == Some(EndRead(r.iso, m, line))
  }

  /** The reader is in front of the line. */
  ghost predicate Ready(r: Run, w: Spelled, i: nat, m: Mode, line: Line) {
    && Written(r.iso, m, line) && LineIsAt(w, r.text, i, line)
    && TokenMode(r, i) == Some(m) && !Scrub.AfterStar(r.text, i)
  }

  lemma {:induction false} LineRead(r: Run, w: Spelled, i: nat, m: Mode, line: Line)
    requires Spells(w) && Ready(r, w, i, m, line)
    ensures LineIsRead(r, w, i, m, line)
    decreases line
  {
    if line != [] {
      HeadRead(r, w, i, m, line);
      if |line| == 1 {
        LastRead(r, w, i, m, line);
      } else {
        RestReady(r, w, i, m, line);
        LineRead(r, w, i + |w(line[0])| + 1, Read(r.iso, m, line[0]).0, line[1..]);
        FirstRead(r, w, i, m, line);
      }
    }
  }

  lemma {:induction false} HeadRead(r: Run, w: Spelled, i: nat, m: Mode, line: Line)
    requires line != [] && Spells(w) && Ready(r, w, i, m, line)
    ensures i + |w(line[0])| <= |r.text| && TokenIsRead(r, w, i, m, line[0])
  {
    HeadStands(w, r.text, i, line);
    assert WrittenAt(r.iso, m, line, 0) && line[..0] == [];
    TokenRead(r, w, i, m, line[0]);
  }

  lemma {:induction false} RestReady(r: Run, w: Spelled, i: nat, m: Mode, line: Line)
    requires |line| > 1 && Ready(r, w, i, m, line)
    requires i + |w(line[0])| <= |r.text| && TokenIsRead(r, w, i, m, line[0])
    ensures i + |TextOf(w, line)| <= |r.text| && r.out[i + |w(line[0])|] == ' '
    ensures Ready(r, w, i + |w(line[0])| + 1, Read(r.iso, m, line[0]).0, line[1..])
  {
    HeadStands(w, r.text, i, line);
    RestWritten(r.iso, m, line);
    BlankRead(r, i + |w(line[0])|, Read(r.iso, m, line[0]).0);
  }

  lemma {:induction false} RestWritten(iso: bool, m: Mode, line: Line)
    requires line != [] && Written(iso, m, line)
    ensures Written(iso, Read(iso, m, line[0]).0, line[1..])
  {
    var rest := line[1..];
    forall k: nat | k < |rest| ensures WrittenAt(iso, Read(iso, m, line[0]).0, rest, k) {
      assert WrittenAt(iso, m, line, k + 1) && line[..k + 1][1..] == rest[..k] && line[..k + 1][0] == line[0];
      CellsCons(iso, m, line[..k + 1]);
    }
  }

  lemma BlankRead(r: Run, i: nat, m: Mode)
    requires i < |r.text| && r.text[i] == ' ' && TokenMode(r, i) == Some(m)
    ensures TokenMode(r, i + 1) == Some(m) && r.out[i] == ' '
  {
    assert Stepped(r, i);
  }

  lemma {:induction false} LastRead(r: Run, w: Spelled, i: nat, m: Mode, line: Line)
    requires |line| == 1 && i + |w(line[0])| <= |r.text| && TokenIsRead(r, w, i, m, line[0])
    ensures LineIsRead(r, w, i, m, line)
  {
    CellsCons(r.iso, m, line);
    assert line[1..] == [];
  }

  lemma {:induction false} FirstRead(r: Run, w: Spelled, i: nat, m: Mode, line: Line)
    requires |line| > 1 && i + |TextOf(w, line)| <= |r.text| && TokenIsRead(r, w, i, m, line[0])
    requires r.out[i + |w(line[0])|] == ' '
    requires LineIsRead(r, w, i + |w(line[0])| + 1, Read(r.iso, m, line[0]).0, line[1..])
    ensures LineIsRead(r, w, i, m, line)
  {
    CellsCons(r.iso, m, line);
    CellsRead(r.out, i, w, line, CellsFrom(r.iso, m, line), CellsFrom(r.iso, Read(r.iso, m, line[0]).0, line[1..]));
  }

  lemma {:induction false} CellsRead(out: string, i: nat, w: Spelled, line: Line, cells: seq<Cell>, more: seq<Cell>)
    requires |line| > 1 && |line| == |cells| && more == cells[1..] && i + |TextOf(w, line)| <= |out|
    requires Fits(out, i, w(line[0]), cells[0]) && out[i + |w(line[0])|] == ' '
    requires Reads(out, i + |w(line[0])| + 1, w, line[1..], more)
    ensures Reads(out, i, w, line, cells)
  {
  }

  lemma {:induction false} CellsCons(iso: bool, m: Mode, line: Line)
    requires line != []
    ensures CellsFrom(iso, m, line)[0] == if Read(iso, m, line[0]).1 == Shown then Kept(line[0]) else Blank
    ensures CellsFrom(iso, m, line)[1..] == CellsFrom(iso, Read(iso, m, line[0]).0, line[1..])
    ensures EndRead(iso, m, line) == EndRead(iso, Read(iso, m, line[0]).0, line[1..])
  {
  }

  /** The first token of a line, and the rest behind a blank. */
  lemma {:induction false} HeadStands(w: Spelled, text: string, i: nat, line: Line)
    requires line != [] && LineIsAt(w, text, i, line)
    ensures Stands(text, i, w(line[0])) && (|line| == 1 ==> LineEnds(text, i + |w(line[0])|))
    ensures |line| > 1 ==> text[i + |w(line[0])|] == ' ' && LineIsAt(w, text, i + |w(line[0])| + 1, line[1..])
  {
    var whole, n := TextOf(w, line), |w(line[0])|;
    assert whole[..n] == w(line[0]);
    assert text[i..i + |whole|][..n] == text[i..i + n];
    if |line| > 1 {
      assert text[i + n] == text[i..i + |whole|][n] == whole[n] == ' ';
      assert text[i..i + |whole|][n + 1..] == text[i + n + 1..i + |whole|];
      assert whole[n + 1..] == TextOf(w, line[1..]);
    }
  }

  // ------------------------------------------------------------- a file

  function FileText(w: Spelled, lines: seq<Line>): string {
    if lines == [] then "" else TextOf(w, lines[0]) + "\n" + FileText(w, lines[1..])
  }

  /** Where line `j` begins. */
  function Offset(w: Spelled, lines: seq<Line>, j: nat): nat
    requires j <= |lines|
  {
    if j == 0 then 0 else Offset(w, lines, j - 1) + |TextOf(w, lines[j - 1])| + 1
  }

  /** Line `j` stands where it begins, a newline behind it. */
  ghost predicate LineStands(w: Spelled, text: string, lines: seq<Line>, j: nat)
    requires j < |lines|
  {
    Offset(w, lines, j + 1) <= |text| && LineIsAt(w, text, Offset(w, lines, j), lines[j])
  }

  lemma {:induction false} Shifted(w: Spelled, lines: seq<Line>, j: nat)
    requires 0 < j <= |lines|
    ensures Offset(w, lines, j) == |TextOf(w, lines[0])| + 1 + Offset(w, lines[1..], j - 1)
    decreases j
  {
    if j > 1 { Shifted(w, lines, j - 1); }
  }

  lemma {:induction false} Further(w: Spelled, a: string, b: string, k: nat, line: Line)
    requires LineIsAt(w, b, k, line)
    ensures LineIsAt(w, a + b, |a| + k, line)
  {
    var s := TextOf(w, line);
    assert (a + b)[|a| + k..|a| + k + |s|] == b[k..k + |s|];
  }

  lemma {:induction false} LinesStand(w: Spelled, lines: seq<Line>, j: nat)
    requires j < |lines|
    ensures LineStands(w, FileText(w, lines), lines, j)
    decreases j
  {
    var head, more := TextOf(w, lines[0]), FileText(w, lines[1..]);
    Shifted(w, lines, j + 1);
    if j > 0 {
      Shifted(w, lines, j);
      LinesStand(w, lines[1..], j - 1);
      Further(w, head + "\n", more, Offset(w, lines[1..], j - 1), lines[j]);
    }
  }

  /** The file is spelled as its tokens are read off it. */
  ghost predicate WrittenAll(w: Spelled, lines: seq<Line>) {
    Spells(w) && forall j :: 0 <= j < |lines| ==> Written(false, StartOf(lines, j).seen, lines[j])
  }

  /** The end of a line. */
  lemma NewlineRead(r: Run, w: Spelled, i: nat, m: Mode, line: Line)
    requires i + |TextOf(w, line)| < |r.text| && r.text[i + |TextOf(w, line)|] == '\n'
    requires LineIsRead(r, w, i, m, line) && !r.iso
    ensures var next := i + |TextOf(w, line)| + 1;
      TokenMode(r, next) == Some(NextGlance(m, line)) && !Scrub.AfterStar(r.text, next)
  {
    assert Stepped(r, i + |TextOf(w, line)|);
  }

  lemma {:induction false} LineThenNewline(r: Run, w: Spelled, i: nat, m: Mode, line: Line)
    requires Spells(w) && Ready(r, w, i, m, line) && i + |TextOf(w, line)| < |r.text| && !r.iso
    ensures var next := i + |TextOf(w, line)| + 1;
      TokenMode(r, next) == Some(NextGlance(m, line)) && !Scrub.AfterStar(r.text, next)
  {
    LineRead(r, w, i, m, line);
    NewlineRead(r, w, i, m, line);
  }

  /** Where `scrub` is at a line's beginning. */
  ghost predicate StartIsAlike(r: Run, w: Spelled, lines: seq<Line>, j: nat)
    requires j <= |lines|
  {
    var i := Offset(w, lines, j);
    i <= |r.text| && TokenMode(r, i) == Some(StartOf(lines, j).seen) && !Scrub.AfterStar(r.text, i)
  }

  lemma {:induction false} StartsAlike(r: Run, w: Spelled, lines: seq<Line>, j: nat)
    requires j <= |lines| && WrittenAll(w, lines)
    requires !r.iso && r.text == FileText(w, lines) && r.modes[0] == Scrub.InCode
    ensures StartIsAlike(r, w, lines, j)
    decreases j
  {
    if j > 0 {
      StartsAlike(r, w, lines, j - 1);
      LinesStand(w, lines, j - 1);
      NextAlike(r, w, lines, j - 1);
    }
  }

  lemma {:induction false} NextAlike(r: Run, w: Spelled, lines: seq<Line>, j: nat)
    requires j < |lines| && WrittenAll(w, lines) && LineStands(w, r.text, lines, j) && StartIsAlike(r, w, lines, j) && !r.iso
    ensures StartIsAlike(r, w, lines, j + 1)
  {
    var i, m, line := Offset(w, lines, j), StartOf(lines, j).seen, lines[j];
    assert Written(false, m, line);
    LineThenNewline(r, w, i, m, line);
    assert StartOf(lines, j + 1).seen == NextGlance(m, line);
  }

  /** What `scrub` returns for the characters of a file is, line by line, what the gate is handed as its scrubbed lines. */
  lemma {:induction false} ScrubbedIs(w: Spelled, lines: seq<Line>, j: nat)
    requires j < |lines| && WrittenAll(w, lines)
    ensures LineStands(w, FileText(w, lines), lines, j)
    ensures Reads(Scrub.Scrubbed(FileText(w, lines)), Offset(w, lines, j), w, lines[j], ScrubAll(lines)[j])
  {
    var r := RunOf(false, FileText(w, lines));
    StartsAlike(r, w, lines, j);
    LinesStand(w, lines, j);
    LineRead(r, w, Offset(w, lines, j), StartOf(lines, j).seen, lines[j]);
  }
}
