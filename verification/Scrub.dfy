/** `scrub`: comments and literal contents blanked in place, offsets kept; what it computes on every text,
    and on which texts that is what a C lexer would blank. */
module Scrub {

  /** Where a per-character lexer is. `InBlock(true)`: the last character could begin a comment end. */
  datatype Mode = InCode | InLine | Opening | InBlock(star: bool) | InLiteral(quote: char) | Escaped(quote: char)

  function Blank(c: char): char { if c == '\n' then c else ' ' }

  predicate At(text: string, i: nat, c: char) { i < |text| && text[i] == c }

  predicate OpensBlock(text: string, i: nat) { At(text, i, '/') && At(text, i + 1, '*') }

  predicate AfterStar(text: string, i: nat) { i > 0 && At(text, i - 1, '*') }

  /** One character. With `iso`, the lexer of sections 6.4.9, 6.4.5 and 6.4.4.4 of ISO/IEC 9899:2011;
      without, `scrub`'s own: a comment opener right after `*` closes at once, and its own `*` may close it. */
  function Step(iso: bool, text: string, i: nat, m: Mode): (Mode, char)
    requires i < |text|
  {
    var c := text[i];
    match m
    case InCode =>
      if c == '/' && At(text, i + 1, '/') then (InLine, ' ')
      else if OpensBlock(text, i) then (if !iso && AfterStar(text, i) then InCode else Opening, ' ')
      else if c == '"' || c == '\'' then (InLiteral(c), c)
      else (InCode, c)
    case InLine => if c == '\n' then (InCode, c) else (InLine, ' ')
    case Opening => (InBlock(!iso), ' ')
    case InBlock(star) => if star && c == '/' then (InCode, ' ') else (InBlock(c == '*'), Blank(c))
    case InLiteral(q) =>
      if c == q then (InCode, ' ') else if c == '\\' then (Escaped(q), ' ') else (InLiteral(q), Blank(c))
    case Escaped(q) => (InLiteral(q), Blank(c))
  }

  /** The text from `i` on, blanked by the lexer standing in `m`. */
  function Lex(iso: bool, text: string, i: nat, m: Mode): (r: string)
    requires i <= |text|
    ensures |r| == |text| - i
    decreases |text| - i
  {
    if i == |text| then "" else [Step(iso, text, i, m).1] + Lex(iso, text, i + 1, Step(iso, text, i, m).0)
  }

  /** The mode the lexer is in before character `i`. */
  function ModeAt(iso: bool, text: string, i: nat): Mode
    requires i <= |text|
  {
    if i == 0 then InCode else Step(iso, text, i - 1, ModeAt(iso, text, i - 1)).0
  }

  /** What `scrub` returns. */
  function Scrubbed(text: string): (r: string)
    ensures |r| == |text|
  {
    Lex(false, text, 0, InCode)
  }

  // -------------------------------------------------------------- the code

  /** The rest of the answer, `Lex` from `i` on, is what the answer has from `i` on. */
  ghost predicate Ahead(text: string, i: nat, m: Mode) {
    i <= |text| && Scrubbed(text)[i..] == Lex(false, text, i, m)
  }

  lemma AheadStep(text: string, i: nat, m: Mode)
    requires Ahead(text, i, m) && i < |text|
    ensures Scrubbed(text)[i] == Step(false, text, i, m).1
    ensures Ahead(text, i + 1, Step(false, text, i, m).0)
  {
    var whole := Scrubbed(text);
    assert whole[i..][0] == whole[i];
    assert whole[i..][1..] == whole[i + 1..];
  }

  /** Written so far as the answer has it, and untouched after. */
  ghost predicate Upto(text: string, out: array<char>, i: nat)
    reads out
  {
    && out.Length == |text|
    && (forall k :: 0 <= k < i && k < |text| ==> out[k] == Scrubbed(text)[k])
    && (forall k :: i <= k < |text| ==> out[k] == text[k])
  }

  method LineComment(text: string, out: array<char>, start: nat) returns (i: nat)
    requires start < |text| && Ahead(text, start, InCode) && Upto(text, out, start)
    requires At(text, start, '/') && At(text, start + 1, '/')
    modifies out
    ensures start < i <= |text| && Ahead(text, i, InCode) && Upto(text, out, i)
  {
    AheadStep(text, start, InCode);
    i := start;
    while i < |text| && text[i] != '\n'
      invariant start <= i <= |text| && Upto(text, out, i)
      invariant if i == start then Ahead(text, i, InCode) else Ahead(text, i, InLine)
    {
      AheadStep(text, i, if i == start then InCode else InLine);
      out[i] := ' ';
      i := i + 1;
    }
    if i < |text| {
      // the newline itself is code again, and is copied either way
      var whole := Scrubbed(text);
      assert Lex(false, text, i, InLine) == Lex(false, text, i, InCode);
    }
  }

  method BlockComment(text: string, out: array<char>, start: nat) returns (i: nat)
    requires start < |text| && Ahead(text, start, InCode) && Upto(text, out, start) && OpensBlock(text, start)
    modifies out
    ensures start < i <= |text| && Ahead(text, i, InCode) && Upto(text, out, i)
  {
    i := start;
    ghost var m := InCode;
    while i < |text| && !(i > 0 && text[i - 1] == '*' && text[i] == '/')
      invariant start <= i <= |text| && Upto(text, out, i) && Ahead(text, i, m)
      invariant m == if i == start then InCode else if i == start + 1 then Opening else InBlock(text[i - 1] == '*')
    {
      AheadStep(text, i, m);
      m := Step(false, text, i, m).0;
      if text[i] != '\n' { out[i] := ' '; }
      i := i + 1;
    }
    if i < |text| {
      AheadStep(text, i, m);
      out[i] := ' ';
      i := i + 1;
    } else {
      assert Lex(false, text, i, m) == Lex(false, text, i, InCode);
    }
  }

  /** One turn of the literal loop: a character, or a backslash and the character it escapes. */
  method LiteralChar(text: string, out: array<char>, at: nat, quote: char) returns (i: nat)
    requires at < |text| && text[at] != quote && Upto(text, out, at) && Ahead(text, at, InLiteral(quote))
    modifies out
    ensures at < i <= |text| + 1 && Upto(text, out, i)
    ensures i <= |text| ==> Ahead(text, i, InLiteral(quote))
  {
    i := at;
    AheadStep(text, i, InLiteral(quote));
    if text[i] == '\\' {
      out[i] := ' ';
      i := i + 1;
      assert Upto(text, out, i);
      if i < |text| { AheadStep(text, i, Escaped(quote)); }
    }
    if i < |text| && text[i] != '\n' { out[i] := ' '; }
    i := i + 1;
  }

  method Literal(text: string, out: array<char>, start: nat) returns (i: nat)
    requires start < |text| && Ahead(text, start, InCode) && Upto(text, out, start)
    requires text[start] == '"' || text[start] == '\''
    modifies out
    ensures start < i <= |text| + 1 && (i <= |text| ==> Ahead(text, i, InCode)) && Upto(text, out, i)
  {
    var quote := text[start];
    AheadStep(text, start, InCode);
    i := start + 1;
    while i < |text| && text[i] != quote
      invariant start < i <= |text| + 1 && Upto(text, out, i)
      invariant i <= |text| ==> Ahead(text, i, InLiteral(quote))
    {
      i := LiteralChar(text, out, i, quote);
    }
    if i < |text| {
      AheadStep(text, i, InLiteral(quote));
      out[i] := ' ';
      i := i + 1;
    } else if i == |text| {
      assert Lex(false, text, i, InLiteral(quote)) == Lex(false, text, i, InCode);
    }
  }

  /** `scrub`. */
  method ScrubText(text: string) returns (r: string)
    ensures r == Scrubbed(text)
  {
    var n := |text|;
    var out := new char[n](k requires 0 <= k < n => text[k]);
    var i := 0;
    while i < n
      invariant i <= n + 1 && Upto(text, out, i) && (i <= n ==> Ahead(text, i, InCode))
      decreases n - i
    {
      if text[i] == '/' && i + 1 < n && text[i + 1] == '/' {
        i := LineComment(text, out, i);
      } else if text[i] == '/' && i + 1 < n && text[i + 1] == '*' {
        i := BlockComment(text, out, i);
      } else if text[i] == '"' || text[i] == '\'' {
        i := Literal(text, out, i);
      } else {
        AheadStep(text, i, InCode);
        i := i + 1;
      }
    }
    r := out[..];
  }

  // ------------------------------------------------------------ offsets kept

  lemma {:induction false} LexFrom(iso: bool, text: string, i: nat)
    requires i <= |text|
    ensures Lex(iso, text, 0, InCode)[i..] == Lex(iso, text, i, ModeAt(iso, text, i))
  {
    if i > 0 {
      LexFrom(iso, text, i - 1);
      var whole := Lex(iso, text, 0, InCode);
      assert whole[i - 1..][1..] == whole[i..];
    }
  }

  lemma LexAt(iso: bool, text: string, i: nat)
    requires i < |text|
    ensures Lex(iso, text, 0, InCode)[i] == Step(iso, text, i, ModeAt(iso, text, i)).1
  {
    LexFrom(iso, text, i);
    assert Lex(iso, text, 0, InCode)[i..][0] == Lex(iso, text, 0, InCode)[i];
  }

  /** A quote mode holds a quote, and `Opening` stands before the star of its own opener. */
  lemma {:induction false} ModeIsSane(iso: bool, text: string, i: nat)
    requires i <= |text|
    ensures ModeAt(iso, text, i).Opening? ==> i > 0 && OpensBlock(text, i - 1)
    ensures ModeAt(iso, text, i).InLiteral? || ModeAt(iso, text, i).Escaped? ==> IsQuote(ModeAt(iso, text, i).quote)
  {
    if i > 0 { ModeIsSane(iso, text, i - 1); }
  }

  predicate IsQuote(c: char) { c == '"' || c == '\'' }

  /** Same length, a character is kept or blanked, and the line breaks are exactly the text's. */
  lemma OffsetsKept(text: string)
    ensures |Scrubbed(text)| == |text|
    ensures forall i :: 0 <= i < |text| ==> Scrubbed(text)[i] == text[i] || Scrubbed(text)[i] == ' '
    ensures forall i :: 0 <= i < |text| ==> (Scrubbed(text)[i] == '\n' <==> text[i] == '\n')
  {
    forall i | 0 <= i < |text|
      ensures Scrubbed(text)[i] == text[i] || Scrubbed(text)[i] == ' '
      ensures Scrubbed(text)[i] == '\n' <==> text[i] == '\n'
    {
      LexAt(false, text, i);
      ModeIsSane(false, text, i);
    }
  }

  // ------------------------------------------------- what stands where, in either lexer

  /** A character of code stays; no comment or literal begins there. */
  lemma CodeStays(iso: bool, text: string, i: nat)
    requires i < |text| && ModeAt(iso, text, i) == InCode && !IsQuote(text[i])
    requires text[i] == '/' ==> !At(text, i + 1, '/') && !At(text, i + 1, '*')
    ensures Lex(iso, text, 0, InCode)[i] == text[i] && ModeAt(iso, text, i + 1) == InCode
  {
    LexAt(iso, text, i);
  }

  /** A line comment is blanked up to the end of its line, and code goes on there. */
  lemma {:induction false} LineSpan(iso: bool, text: string, i: nat, j: nat)
    requires i < j <= |text| && ModeAt(iso, text, i) == InCode && text[i] == '/' && At(text, i + 1, '/')
    requires forall k :: i <= k < j ==> text[k] != '\n'
    ensures forall k :: i <= k < j ==> Lex(iso, text, 0, InCode)[k] == ' '
    ensures ModeAt(iso, text, j) == InLine
    ensures At(text, j, '\n') ==> Lex(iso, text, 0, InCode)[j] == '\n' && ModeAt(iso, text, j + 1) == InCode
    decreases j
  {
    LexAt(iso, text, j - 1);
    if i + 1 < j { LineSpan(iso, text, i, j - 1); }
    if j < |text| { LexAt(iso, text, j); }
  }

  /** No comment end stands before `j`: `scrub` takes one from its opener on, and the standard behind it. */
  ghost predicate StaysOpenTo(iso: bool, text: string, i: nat, j: nat) {
    forall k: nat :: (if iso then i + 2 else i) < k < j && k < |text| ==> !(text[k - 1] == '*' && text[k] == '/')
  }

  /** A block comment, for `scrub` one not right after a `*`, is blanked to its first end, and code goes on behind that. */
  lemma {:induction false} BlockSpan(iso: bool, text: string, i: nat, j: nat)
    requires i + 1 < j <= |text| && ModeAt(iso, text, i) == InCode && OpensBlock(text, i) && (iso || !AfterStar(text, i))
    requires StaysOpenTo(iso, text, i, j)
    ensures forall k :: i <= k < j ==> Lex(iso, text, 0, InCode)[k] == Blank(text[k])
    ensures ModeAt(iso, text, j) == InBlock(if j == i + 2 then !iso else text[j - 1] == '*')
    ensures j < |text| && !StaysOpenTo(iso, text, i, j + 1) ==>
              Lex(iso, text, 0, InCode)[j] == ' ' && ModeAt(iso, text, j + 1) == InCode
    decreases j
  {
    LexAt(iso, text, j - 1);
    if i + 2 < j {
      BlockSpan(iso, text, i, j - 1);
    } else {
      assert ModeAt(iso, text, i + 1) == Opening;
      LexAt(iso, text, i);
    }
    if j < |text| { LexAt(iso, text, j); }
  }

  /** Of one right after a `*`, `scrub` blanks the first character, and goes on with code. */
  lemma AfterStarSpan(text: string, i: nat)
    requires i < |text| && ModeAt(false, text, i) == InCode && OpensBlock(text, i) && AfterStar(text, i)
    ensures Scrubbed(text)[i] == ' ' && ModeAt(false, text, i + 1) == InCode
  {
    LexAt(false, text, i);
  }

  /** How many backslashes stand right before `k`, back to the quote at `i`. */
  function Backslashes(text: string, i: nat, k: nat): nat
    requires k <= |text|
  {
    if k <= i + 1 || text[k - 1] != '\\' then 0 else 1 + Backslashes(text, i, k - 1)
  }

  /** The quote that opened a literal stands at `k` unescaped. */
  predicate QuotedAt(text: string, i: nat, k: nat)
    requires i < |text|
  {
    i < k < |text| && text[k] == text[i] && Backslashes(text, i, k) % 2 == 0
  }

  /** A literal keeps its opening quote and is blanked up to the first quote of that kind that is not escaped, which is
      blanked too; code goes on behind it. */
  lemma {:induction false} LiteralSpan(iso: bool, text: string, i: nat, j: nat)
    requires i < j <= |text| && ModeAt(iso, text, i) == InCode && IsQuote(text[i])
    requires forall k: nat :: k < j ==> !QuotedAt(text, i, k)
    ensures Lex(iso, text, 0, InCode)[i] == text[i]
    ensures forall k :: i < k < j ==> Lex(iso, text, 0, InCode)[k] == Blank(text[k])
    ensures ModeAt(iso, text, j) == if Backslashes(text, i, j) % 2 == 0 then InLiteral(text[i]) else Escaped(text[i])
    ensures QuotedAt(text, i, j) ==> Lex(iso, text, 0, InCode)[j] == ' ' && ModeAt(iso, text, j + 1) == InCode
    decreases j
  {
    LexAt(iso, text, j - 1);
    if i + 1 < j {
      LiteralSpan(iso, text, i, j - 1);
      assert !QuotedAt(text, i, j - 1);
    }
    if j < |text| { LexAt(iso, text, j); }
  }

  // ------------------------------------------------- against the C standard

  /** What kind of text the next character belongs to. */
  datatype Kind = Code | LineText | BlockText | LiteralText

  function KindOf(m: Mode): Kind {
    match m
    case InCode => Code
    case InLine => LineText
    case Opening | InBlock(_) => BlockText
    case InLiteral(_) | Escaped(_) => LiteralText
  }

  /** Every character is code, comment or literal to `scrub` as it is to the standard. */
  ghost predicate SameReading(text: string) {
    forall i :: 0 <= i <= |text| ==> KindOf(ModeAt(false, text, i)) == KindOf(ModeAt(true, text, i))
  }

  /** No block comment the standard opens follows a `*` or has `/` as its first character. */
  ghost predicate Loose(text: string) {
    forall i :: 0 <= i < |text| && OpensBlock(text, i) && ModeAt(true, text, i) == InCode ==> LooseAt(text, i)
  }

  predicate LooseAt(text: string, i: nat) { !AfterStar(text, i) && !At(text, i + 2, '/') }

  /** While the openers are loose the two lexers go in step, apart from what may close a comment just opened. */
  lemma {:induction false} InStep(text: string, i: nat)
    requires Loose(text) && i <= |text|
    ensures i > 0 && ModeAt(true, text, i - 1) == Opening
            ==> ModeAt(false, text, i) == InBlock(true) && ModeAt(true, text, i) == InBlock(false)
                && !At(text, i, '/')
    ensures !(i > 0 && ModeAt(true, text, i - 1) == Opening) ==> ModeAt(false, text, i) == ModeAt(true, text, i)
    decreases i
  {
    if i > 0 {
      InStep(text, i - 1);
      ModeIsSane(true, text, i - 1);
      if ModeAt(true, text, i - 1) == InCode && OpensBlock(text, i - 1) { assert LooseAt(text, i - 1); }
      if i > 1 && ModeAt(true, text, i - 1) == Opening {
        assert ModeAt(true, text, i - 2) == InCode && OpensBlock(text, i - 2);
        assert LooseAt(text, i - 2);
      }
    }
  }

  lemma SameReadingIff(text: string)
    ensures SameReading(text) <==> Loose(text)
  {
    if Loose(text) {
      forall i | 0 <= i <= |text| ensures KindOf(ModeAt(false, text, i)) == KindOf(ModeAt(true, text, i)) {
        InStep(text, i);
      }
    }
    else {
      var i: nat :| i < |text| && OpensBlock(text, i) && ModeAt(true, text, i) == InCode && !LooseAt(text, i);
      TightOpenerMisread(text, i);
    }
  }

  /** Two characters into a block comment that did not open right after a `*`. */
  lemma OpenedTwo(iso: bool, text: string, i: nat)
    requires OpensBlock(text, i) && ModeAt(iso, text, i) == InCode && !AfterStar(text, i)
    ensures ModeAt(iso, text, i + 2) == InBlock(!iso)
  {
    assert ModeAt(iso, text, i + 1) == Opening;
  }

  /** An opener that is not loose is read differently within three characters. */
  lemma TightOpenerMisread(text: string, i: nat)
    requires i < |text| && OpensBlock(text, i) && ModeAt(true, text, i) == InCode && !LooseAt(text, i)
    ensures !SameReading(text)
  {
    var j := if ModeAt(false, text, i) != InCode then i else if AfterStar(text, i) then i + 1 else i + 3;
    if j == i + 3 {
      OpenedTwo(false, text, i);
      OpenedTwo(true, text, i);
    }
    assert KindOf(ModeAt(false, text, j)) != KindOf(ModeAt(true, text, j));
  }

  /** There, `scrub` blanks exactly what the standard's lexer blanks. */
  lemma BlanksAsTheStandard(text: string)
    requires Loose(text)
    ensures Scrubbed(text) == Lex(true, text, 0, InCode)
  {
    forall i | 0 <= i < |text| ensures Scrubbed(text)[i] == Lex(true, text, 0, InCode)[i] {
      LexAt(false, text, i);
      LexAt(true, text, i);
      InStep(text, i);
      ModeIsSane(true, text, i);
    }
  }

  /** What a caller can look for: one of two runs of three characters. */
  predicate TightAt(text: string, i: nat) {
    i + 2 < |text| && (text[i..i + 3] == "*/*" || text[i..i + 3] == "/*/")
  }

  lemma NoTightOpenerIsLoose(text: string)
    requires forall i: nat :: !TightAt(text, i)
    ensures Scrubbed(text) == Lex(true, text, 0, InCode)
  {
    forall i | 0 <= i < |text| && OpensBlock(text, i) && ModeAt(true, text, i) == InCode ensures LooseAt(text, i) {
      if i > 0 { assert !TightAt(text, i - 1); }
      assert !TightAt(text, i);
    }
    BlanksAsTheStandard(text);
  }

  /** A text of four characters, step by step. */
  lemma FourSteps(iso: bool, t: string)
    requires |t| == 4
    ensures var a := Step(iso, t, 0, InCode); var b := Step(iso, t, 1, a.0);
            var c := Step(iso, t, 2, b.0); var d := Step(iso, t, 3, c.0);
            Lex(iso, t, 0, InCode) == [a.1, b.1, c.1, d.1]
  {
    var a := Step(iso, t, 0, InCode);
    var b := Step(iso, t, 1, a.0);
    var c := Step(iso, t, 2, b.0);
    var d := Step(iso, t, 3, c.0);
    assert ModeAt(iso, t, 1) == a.0 && ModeAt(iso, t, 2) == b.0 && ModeAt(iso, t, 3) == c.0;
    LexAt(iso, t, 0);
    LexAt(iso, t, 1);
    LexAt(iso, t, 2);
    LexAt(iso, t, 3);
  }

  /** A comment right after a `*`: its text is left standing as code. */
  lemma CommentAfterStar()
    ensures Scrubbed("*/*x") == "* *x" && Lex(true, "*/*x", 0, InCode) == "*   "
  {
    FourSteps(false, "*/*x");
    FourSteps(true, "*/*x");
  }

  /** A comment that begins with a slash: `scrub` takes it to be closed already. */
  lemma CommentOpeningWithSlash()
    ensures Scrubbed("/*/x") == "   x" && Lex(true, "/*/x", 0, InCode) == "    "
  {
    FourSteps(false, "/*/x");
    FourSteps(true, "/*/x");
  }

  // ----------------------------------------------------------- scrubbed twice

  predicate Whitespace(c: char) { c == ' ' || c == '\n' }

  /** Nothing but blanks after an opening quote. */
  ghost predicate QuotesTrail(s: string) {
    forall i, j :: 0 <= i < j < |s| && IsQuote(s[i]) ==> Whitespace(s[j])
  }

  /** No comment opens in a scrubbed text. */
  lemma NoOpenerLeft(text: string, i: nat)
    requires i + 1 < |text| && Scrubbed(text)[i] == '/'
    ensures Scrubbed(text)[i + 1] != '/' && Scrubbed(text)[i + 1] != '*'
  {
    LexAt(false, text, i);
    ModeIsSane(false, text, i);
    OffsetsKept(text);
  }

  lemma {:induction false} QuietPrefix(text: string, s: string, i: nat)
    requires s == Scrubbed(text) && i <= |s| && forall k :: 0 <= k < i ==> !IsQuote(s[k])
    ensures ModeAt(false, s, i) == InCode
    ensures i < |s| ==> Step(false, s, i, InCode) == (if IsQuote(s[i]) then InLiteral(s[i]) else InCode, s[i])
  {
    if i > 0 { QuietPrefix(text, s, i - 1); }
    if i + 1 < |s| && s[i] == '/' { NoOpenerLeft(text, i); }
  }

  lemma {:induction false} QuotedBlanks(text: string, s: string, q: nat, i: nat)
    requires s == Scrubbed(text) && q < i <= |s| && IsQuote(s[q])
    requires forall k :: 0 <= k < q ==> !IsQuote(s[k])
    requires forall k :: q < k < i ==> Whitespace(s[k])
    ensures ModeAt(false, s, i) == InLiteral(s[q])
    decreases i
  {
    if i == q + 1 { QuietPrefix(text, s, q); } else { QuotedBlanks(text, s, q, i - 1); }
  }

  function FirstQuote(s: string): (q: nat)
    ensures q <= |s| && (forall k :: 0 <= k < q ==> !IsQuote(s[k])) && (q < |s| ==> IsQuote(s[q]))
  {
    if s == "" || IsQuote(s[0]) then 0 else 1 + FirstQuote(s[1..])
  }

  /** Scrubbing again changes nothing exactly when no code follows a literal: the opening quote stays and
      the closing one goes, so the second scrub reads on to the next quote. */
  lemma ScrubbedTwiceIff(text: string)
    ensures Scrubbed(Scrubbed(text)) == Scrubbed(text) <==> QuotesTrail(Scrubbed(text))
  {
    var s := Scrubbed(text);
    if QuotesTrail(s) {
      TrailingQuotesStay(text, s);
    } else {
      var i, j :| 0 <= i < j < |s| && IsQuote(s[i]) && !Whitespace(s[j]);
      SolidIsBlanked(text, s, i, j);
    }
  }

  lemma SolidIsBlanked(text: string, s: string, i: nat, j: nat)
    requires s == Scrubbed(text) && i < j < |s| && IsQuote(s[i]) && !Whitespace(s[j])
    ensures Scrubbed(s) != s
  {
    var q := FirstQuote(s);
    var k := FirstSolid(s, q + 1, j);
    QuotedBlanks(text, s, q, k);
    LexAt(false, s, k);
  }

  lemma TrailingQuotesStay(text: string, s: string)
    requires s == Scrubbed(text) && QuotesTrail(s)
    ensures Scrubbed(s) == s
  {
    var q := FirstQuote(s);
    forall i | 0 <= i < |s| ensures Scrubbed(s)[i] == s[i] {
      LexAt(false, s, i);
      if i <= q { QuietPrefix(text, s, i); } else { QuotedBlanks(text, s, q, i); }
    }
  }

  function FirstSolid(s: string, i: nat, j: nat): (k: nat)
    requires i <= j < |s| && !Whitespace(s[j])
    ensures i <= k <= j && !Whitespace(s[k]) && forall l :: i <= l < k ==> Whitespace(s[l])
    decreases j - i
  {
    if !Whitespace(s[i]) then i else FirstSolid(s, i + 1, j)
  }
}
