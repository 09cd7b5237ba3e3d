/** Lines of C as `_not_just_assertions` sees them, and how `scrub` and a compiler read them.
    A line is the sequence of its tokens; blanks are dropped, so `line.rstrip()` is the identity. */
module Tokens {
  import opened Wrappers

  /** `Include` is also any other directive that puts something into the program, or onto what follows it: `#pragma`. */
  datatype DirectiveKind = Include | Define | RedefineAssert | Conditional

  datatype Token =
    | Ident(name: string)         // every other word, `new` and `and_eq` among them
    | Operand(text: string)       // numbers and operators that only read
    | Effect(op: string)          // `=`, `+=`, `++`, ...
    | AssertName(macro: string)   // `assert`, `VERIPP_ASSERT`, `__ESBMC_assert`
    | AssumeName(name: string)    // any word containing "assume"
    | Sizeof
    | If | Else | While | For | Do | Switch | Case | Default
    | LParen | RParen | LBracket | RBracket | LBrace | RBrace | Semi | Colon
    | BlockOpen | BlockClose | LineOpen
    | SlashOpen                   // `/*` with a `/` right behind it
    | StarOpen                    // `/*` with a `*` right before it
    | Quote | RawQuote
    | EmptyLiteral                // what `_LITERAL_RE.sub('""', ...)` leaves of a literal
    | Hash(kind: DirectiveKind)
    | Splice                      // a trailing backslash
    | Trigraph                    // `??`

  type Line = seq<Token>

  predicate IsQuote(t: Token) { t == Quote || t == RawQuote }

  /** A word other than `sizeof`. */
  predicate IsWord(t: Token) {
    t.Ident? || t.AssertName? || t.AssumeName?
    || t in {If, Else, While, For, Do, Switch, Case, Default}
  }

  /** Where a scanner is: in code, in a block comment, in a line comment, or in a literal. */
  datatype Mode = Code | Block | Trailing | Literal

  /** What becomes of a token: code, literal content (blanked by `scrub`, kept by the compiler), or comment.
      The opening quote counts as code, the closing one does not. */
  datatype Mark = Shown | Inner | Hidden

  /** The compiler's reading of a token. A comment's end closes it however the token goes on. */
  function Step(m: Mode, t: Token): (Mode, Mark) {
    match m
    case Code =>
      if t == BlockOpen || t == SlashOpen then (Block, Hidden)
      else if t == StarOpen then (Block, Shown)
      else if t == LineOpen then (Trailing, Hidden)
      else if IsQuote(t) then (Literal, Shown)
      else (Code, Shown)
    case Block =>
      if t == BlockClose || t == SlashOpen then (Code, Hidden)
      else if t == StarOpen then (Code, Shown)
      else (Block, Hidden)
    case Trailing => (Trailing, Hidden)
    case Literal => (if t == Quote then Code else Literal, Inner)
  }

  /** `scrub`'s reading: it ends a comment at a `*` `/` that the opener has a part in. */
  function Glance(m: Mode, t: Token): (Mode, Mark) {
    if m == Code && t == SlashOpen then (Code, Hidden)
    else if m == Code && t == StarOpen then (Code, Shown)
    else Step(m, t)
  }

  function EndMode(m: Mode, line: Line): Mode
    decreases line
  {
    if line == [] then m else EndMode(Step(m, line[0]).0, line[1..])
  }

  function EndGlance(m: Mode, line: Line): Mode
    decreases line
  {
    if line == [] then m else EndGlance(Glance(m, line[0]).0, line[1..])
  }

  /** The line goes on with the next. */
  predicate Spliced(line: Line) { line != [] && line[|line| - 1] == Splice }

  /** The mode the next line starts in: a line comment or an open literal ends with its line, unless that goes on. */
  function NextMode(m: Mode, line: Line): Mode {
    var e := EndMode(m, line);
    if e == Block || Spliced(line) then e else Code
  }

  /** ... and for `scrub`, to which a line comment always ends and an open literal never does. */
  function NextGlance(m: Mode, line: Line): Mode {
    var e := EndGlance(m, line);
    if e == Trailing then Code else e
  }

  datatype Cell = Blank | Kept(t: Token)

  /** One line with its comments and literals blanked. */
  function ReadLine(m: Mode, line: Line): (r: seq<Cell>)
    ensures |r| == |line|
    decreases line
  {
    if line == [] then []
    else
      var (m', k) := Step(m, line[0]);
      [if k == Shown then Kept(line[0]) else Blank] + ReadLine(m', line[1..])
  }

  /** One line of `scrub`'s output, which should be that. */
  function ScrubLine(m: Mode, line: Line): (r: seq<Cell>)
    ensures |r| == |line|
    decreases line
  {
    if line == [] then []
    else
      var (m', k) := Glance(m, line[0]);
      [if k == Shown then Kept(line[0]) else Blank] + ScrubLine(m', line[1..])
  }

  /** What a compiler is left with: code tokens, and the characters of literals. */
  datatype Piece = C(t: Token) | Chars(t: Token)

  function Pieces(m: Mode, line: Line): seq<Piece>
    decreases line
  {
    if line == [] then []
    else
      var (m', k) := Step(m, line[0]);
      (match k
       case Hidden => []
       case Inner => [Chars(line[0])]
       case Shown => if line == [Splice] then [] else [C(line[0])])
      + Pieces(m', line[1..])
  }

  predicate AllBlank(cells: seq<Cell>) {
    forall c <- cells :: c == Blank
  }

  function FirstKept(cells: seq<Cell>): Cell {
    if cells == [] then Blank else if cells[0].Kept? then cells[0] else FirstKept(cells[1..])
  }

  function LastKept(cells: seq<Cell>): Cell {
    if cells == [] then Blank else if LastKept(cells[1..]).Kept? then LastKept(cells[1..]) else cells[0]
  }

  predicate IsDirective(cells: seq<Cell>) {
    FirstKept(cells).Kept? && FirstKept(cells).t.Hash?
  }

  /** The kind of directive the cells are, if they are one. */
  function KindOf(cells: seq<Cell>): Option<DirectiveKind> {
    if IsDirective(cells) then Some(FirstKept(cells).t.kind) else None
  }

  // ------------------------------------------------------- line after line

  /** What a logical line has begun with: nothing yet, the `#` of a directive, or something else. */
  datatype Logical = Fresh | Directed(kind: DirectiveKind) | Plain

  /** Where a line starts: in which mode to `scrub` and to the compiler, and in which logical line. */
  datatype Start = Start(seen: Mode, mode: Mode, logical: Logical)

  const TOP := Start(Code, Code, Fresh)

  /** The logical line, with this line. */
  function Begun(s: Start, line: Line): Logical {
    var first := FirstKept(ReadLine(s.mode, line));
    if s.logical != Fresh || first == Blank || first == Kept(Splice) then s.logical
    else if first.t.Hash? then Directed(first.t.kind) else Plain
  }

  /** A logical line goes on over a splice and over an open comment. */
  function After(s: Start, line: Line): Start {
    Start(NextGlance(s.seen, line), NextMode(s.mode, line),
          if Spliced(line) || EndMode(s.mode, line) == Block then Begun(s, line) else Fresh)
  }

  function StartOf(lines: seq<Line>, j: nat): Start
    requires j <= |lines|
  {
    if j == 0 then TOP else After(StartOf(lines, j - 1), lines[j - 1])
  }

  /** A line and where it starts. */
  datatype View = View(line: Line, start: Start)

  function Views(lines: seq<Line>): (r: seq<View>)
    ensures |r| == |lines|
  {
    seq(|lines|, j requires 0 <= j < |lines| => View(lines[j], StartOf(lines, j)))
  }

  /** The line in `scrub`'s output. */
  function Cells(v: View): (r: seq<Cell>)
    ensures |r| == |v.line|
  {
    ScrubLine(v.start.seen, v.line)
  }

  function ScrubAll(lines: seq<Line>): (r: seq<seq<Cell>>)
    ensures |r| == |lines|
  {
    seq(|lines|, j requires 0 <= j < |lines| => Cells(Views(lines)[j]))
  }

  // ------------------------------------------------------- the preprocessor

  /** The directive the line is, or goes on with. */
  function Role(v: View): Option<DirectiveKind> {
    if Begun(v.start, v.line).Directed? then Some(Begun(v.start, v.line).kind) else None
  }

  /** A line of a directive, as the preprocessor sees it: what kind that is, and the line. */
  datatype Directive = Directive(kind: DirectiveKind, line: Line)

  function DirectiveOn(v: View): seq<Directive> {
    if Role(v).Some? then [Directive(Role(v).value, v.line)] else []
  }

  /** The lines of directives above line `j`. */
  function Directives(vs: seq<View>, j: nat): seq<Directive>
    requires j <= |vs|
  {
    if j == 0 then [] else Directives(vs, j - 1) + DirectiveOn(vs[j - 1])
  }

  /** Which lines are kept, by the directives above them, and what a directive puts into the program, by the directives
      as far as it. */
  datatype Preprocessor = Preprocessor(keeps: seq<Directive> -> bool, pulls: seq<Directive> -> seq<Piece>)

  /** Only conditional directives start or end a skipped stretch, and only `#include` pulls anything in. */
  ghost predicate Sectioned(pp: Preprocessor) {
    && (forall ds, d: Directive :: d.kind != Conditional ==> pp.keeps(ds + [d]) == pp.keeps(ds))
    && forall ds, d: Directive :: d.kind != Include ==> pp.pulls(ds + [d]) == []
  }

  /** The code on the line, if it is no directive's. */
  function CodeOn(v: View): seq<Piece> { if Role(v).Some? then [] else Pieces(v.start.mode, v.line) }

  /** What line `j` contributes to the program: its code, or what it pulls in, unless it is skipped. */
  function Compiled(pp: Preprocessor, vs: seq<View>, j: nat): seq<Piece>
    requires j < |vs|
  {
    if !pp.keeps(Directives(vs, j)) then []
    else if Role(vs[j]).Some? then pp.pulls(Directives(vs, j + 1))
    else CodeOn(vs[j])
  }

  /** What every line contributes. */
  function CompiledAll(pp: Preprocessor, vs: seq<View>): (r: seq<seq<Piece>>)
    ensures |r| == |vs|
  {
    seq(|vs|, j requires 0 <= j < |vs| => Compiled(pp, vs, j))
  }

  /** The contributions from the `j`-th on, one after the other. */
  function Joined(cs: seq<seq<Piece>>, j: nat): seq<Piece>
    requires j <= |cs|
    decreases |cs| - j
  {
    if j == |cs| then [] else cs[j] + Joined(cs, j + 1)
  }

  /** The program a file is compiled to. */
  function Program(pp: Preprocessor, lines: seq<Line>): seq<Piece> { Joined(CompiledAll(pp, Views(lines)), 0) }

  predicate IsTerminator(p: Piece) { p.C? && p.t in {Semi, LBrace, RBrace} }
}
