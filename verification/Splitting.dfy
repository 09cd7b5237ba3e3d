/** Splitting at top level: `split_top_level`, the argument spans of `_split_args`, and when they agree. */
module Splitting {
  import Brackets

  /** What `str.strip` strips. */
  predicate IsSpace(c: char) {
    var n := c as int;
    || 9 <= n <= 13 || 28 <= n <= 32 || n == 0x85 || n == 0xA0 || n == 0x1680 || 0x2000 <= n <= 0x200A
    || n == 0x2028 || n == 0x2029 || n == 0x202F || n == 0x205F || n == 0x3000
  }

  predicate Blank(s: string) { forall k :: 0 <= k < |s| ==> IsSpace(s[k]) }

  function LStrip(s: string): (r: string)
    ensures |r| <= |s| && (r != "" ==> !IsSpace(r[0]) && r[|r| - 1] == s[|s| - 1])
    ensures r == "" <==> Blank(s)
  {
    if s != "" && IsSpace(s[0]) then LStrip(s[1..]) else s
  }

  function RStrip(s: string): (r: string)
    ensures |r| <= |s| && (s != "" && !IsSpace(s[0]) ==> r != "" && r[0] == s[0])
    ensures s != "" && !IsSpace(s[|s| - 1]) ==> r == s
  {
    if s != "" && IsSpace(s[|s| - 1]) then RStrip(s[..|s| - 1]) else s
  }

  function Strip(s: string): string { RStrip(LStrip(s)) }

  /** `[p.strip() for p in parts if p.strip()]`. */
  function Trimmed(parts: seq<string>): seq<string> {
    if parts == [] then []
    else (if Blank(parts[0]) then [] else [Strip(parts[0])]) + Trimmed(parts[1..])
  }

  /** Those are these characters. */
  lemma SpaceIff(c: char)
    ensures IsSpace(c) <==> c as int in {
      9, 10, 11, 12, 13, 28, 29, 30, 31, 32, 0x85, 0xA0, 0x1680, 0x2000, 0x2001, 0x2002, 0x2003, 0x2004, 0x2005, 0x2006,
      0x2007, 0x2008, 0x2009, 0x200A, 0x2028, 0x2029, 0x202F, 0x205F, 0x3000}
  {
  }

  /** Stripping takes blanks off both ends, and all of them. */
  lemma StripIs(s: string) returns (a: string, b: string)
    ensures s == a + Strip(s) + b && Blank(a) && Blank(b)
    ensures Strip(s) != "" ==> !IsSpace(Strip(s)[0]) && !IsSpace(Strip(s)[|Strip(s)| - 1])
  {
    a := LStripIs(s);
    b := RStripIs(LStrip(s));
    assert s == a + (Strip(s) + b) == a + Strip(s) + b;
  }

  lemma {:induction false} LStripIs(s: string) returns (a: string)
    ensures s == a + LStrip(s) && Blank(a)
    decreases s
  {
    if s != "" && IsSpace(s[0]) {
      a := LStripIs(s[1..]);
      assert s == [s[0]] + s[1..] == [s[0]] + a + LStrip(s);
      a := [s[0]] + a;
    } else {
      a := "";
    }
  }

  lemma {:induction false} RStripIs(s: string) returns (b: string)
    ensures s == RStrip(s) + b && Blank(b) && (RStrip(s) != "" ==> !IsSpace(RStrip(s)[|RStrip(s)| - 1]))
    decreases s
  {
    if s != "" && IsSpace(s[|s| - 1]) {
      b := RStripIs(s[..|s| - 1]);
      assert s == s[..|s| - 1] + [s[|s| - 1]] == RStrip(s) + b + [s[|s| - 1]];
      b := b + [s[|s| - 1]];
    } else {
      b := "";
    }
  }

  // ------------------------------------------------------------ depth

  predicate Opens(angles: bool, c: char) { c == '(' || c == '[' || c == '{' || (angles && c == '<') }

  predicate Closes(angles: bool, c: char) { c == ')' || c == ']' || c == '}' || (angles && c == '>') }

  /** Counted are the brackets that `match_bracket` matches, or those without the angle brackets. */
  lemma CountsPairs(angles: bool, c: char)
    ensures Opens(angles, c) <==> exists d :: (c, d) in Brackets.PAIRS && (angles || c != '<')
    ensures Closes(angles, c) <==> exists d :: (d, c) in Brackets.PAIRS && (angles || c != '>')
  {
    assert ('(', ')') in Brackets.PAIRS && ('[', ']') in Brackets.PAIRS && ('{', '}') in Brackets.PAIRS;
    assert ('<', '>') in Brackets.PAIRS;
  }

  /** What a character does to the depth; `angles` says whether `<` and `>` are brackets. */
  function Turn(angles: bool, c: char): int {
    if Opens(angles, c) then 1 else if Closes(angles, c) then -1 else 0
  }

  /** Depth after `s`, starting from `d`. */
  function Deep(angles: bool, s: string, d: int): int {
    if s == "" then d else Deep(angles, s[1..], d + Turn(angles, s[0]))
  }

  lemma {:induction false} DeepAppend(angles: bool, s: string, t: string, d: int)
    ensures Deep(angles, s + t, d) == Deep(angles, t, Deep(angles, s, d))
  {
    if s == "" {
      assert s + t == t;
    } else {
      DeepAppend(angles, s[1..], t, d + Turn(angles, s[0]));
      assert (s + t)[1..] == s[1..] + t;
    }
  }

  /** A separator at this depth, counted after it. */
  predicate IsCut(angles: bool, sep: char, c: char, d: int) { c == sep && d + Turn(angles, c) == 0 }

  /** The pieces of `text` before stripping, `piece` being what is already in the first of them. */
  function Pieces(angles: bool, text: string, sep: char, piece: string, d: int): (r: seq<string>)
    ensures r != []
    decreases |text|
  {
    if text == "" then [piece]
    else if IsCut(angles, sep, text[0], d) then [piece] + Pieces(angles, text[1..], sep, "", 0)
    else Pieces(angles, text[1..], sep, piece + [text[0]], d + Turn(angles, text[0]))
  }

  // -------------------------------------------------------------- the code

  /** `split_top_level`. */
  method SplitTopLevel(text: string, sep: char) returns (r: seq<string>)
    ensures r == Trimmed(Pieces(true, text, sep, "", 0))
  {
    var parts: seq<string> := [];
    var depth, current := 0, "";
    for i := 0 to |text|
      invariant parts + Pieces(true, text[i..], sep, current, depth) == Pieces(true, text, sep, "", 0)
    {
      var ch := text[i];
      assert text[i..][1..] == text[i + 1..];
      if Opens(true, ch) {
        depth := depth + 1;
      } else if Closes(true, ch) {
        depth := depth - 1;
      }
      if ch == sep && depth == 0 {
        parts := parts + [current];
        current := "";
      } else {
        current := current + [ch];
      }
    }
    parts := parts + [current];
    r := Trimmed(parts);
  }

  /** The spans' text. */
  function Slices(inner: string, spans: seq<(nat, nat)>): (r: seq<string>)
    requires forall k :: 0 <= k < |spans| ==> spans[k].0 <= spans[k].1 <= |inner|
    ensures |r| == |spans|
  {
    seq(|spans|, k requires 0 <= k < |spans| => inner[spans[k].0..spans[k].1])
  }

  /** `_split_args`: all pieces, brackets without angles, except that blank text has no argument. */
  method SplitArgs(inner: string) returns (spans: seq<(nat, nat)>)
    ensures forall k :: 0 <= k < |spans| ==> spans[k].0 <= spans[k].1 <= |inner|
    ensures Slices(inner, spans) == if Blank(inner) then [] else Pieces(false, inner, ',', "", 0)
  {
    var depth: int, start: nat := 0, 0;
    spans := [];
    for i := 0 to |inner|
      invariant start <= i
      invariant forall k :: 0 <= k < |spans| ==> spans[k].0 <= spans[k].1 <= |inner|
      invariant Slices(inner, spans) + Pieces(false, inner[i..], ',', inner[start..i], depth)
             == Pieces(false, inner, ',', "", 0)
      invariant Blank(inner) ==> spans == []
    {
      var ch := inner[i];
      assert inner[i..][1..] == inner[i + 1..];
      assert inner[start..i] + [ch] == inner[start..i + 1];
      ghost var before := Slices(inner, spans);
      if Opens(false, ch) {
        depth := depth + 1;
      } else if Closes(false, ch) {
        depth := depth - 1;
      } else if ch == ',' && depth == 0 {
        assert inner[i + 1..i + 1] == "";
        ghost var piece := inner[start..i];
        spans := spans + [(start, i)];
        start := i + 1;
        assert Slices(inner, spans) == before + [piece];
        assert before + ([piece] + Pieces(false, inner[i + 1..], ',', "", 0))
            == before + [piece] + Pieces(false, inner[i + 1..], ',', "", 0);
      }
    }
    if !Blank(inner) {
      ghost var before := Slices(inner, spans);
      spans := spans + [(start, |inner|)];
      assert Slices(inner, spans) == before + [inner[start..|inner|]];
    }
  }

  // ---------------------------------------------------- nothing is lost

  function Join(ps: seq<string>, sep: char): string {
    if ps == [] then "" else if |ps| == 1 then ps[0] else ps[0] + [sep] + Join(ps[1..], sep)
  }

  /** Inside a piece that starts at depth `d` no separator is at depth zero. */
  ghost predicate Uncut(angles: bool, piece: string, sep: char, d: int) {
    forall k :: 0 <= k < |piece| ==> !IsCut(angles, sep, piece[k], Deep(angles, piece[..k], d))
  }

  /** Every piece is uncut, and every boundary is a separator at depth zero. */
  ghost predicate CutExactly(angles: bool, ps: seq<string>, sep: char, d: int) {
    && ps != []
    && Uncut(angles, ps[0], sep, d)
    && (|ps| > 1 ==> IsCut(angles, sep, sep, Deep(angles, ps[0], d)) && CutExactly(angles, ps[1..], sep, 0))
  }

  lemma UncutGrows(angles: bool, piece: string, sep: char, d: int, c: char)
    requires Uncut(angles, piece, sep, d) && !IsCut(angles, sep, c, Deep(angles, piece, d))
    ensures Uncut(angles, piece + [c], sep, d)
    ensures Deep(angles, piece + [c], d) == Deep(angles, piece, d) + Turn(angles, c)
  {
    DeepAppend(angles, piece, [c], d);
    forall k | 0 <= k < |piece| + 1 ensures !IsCut(angles, sep, (piece + [c])[k], Deep(angles, (piece + [c])[..k], d)) {
      assert (piece + [c])[..k] == piece[..k];
      if k == |piece| { assert piece[..k] == piece; }
    }
  }

  lemma {:induction false} PiecesCut(angles: bool, text: string, sep: char, piece: string, d: int)
    requires Uncut(angles, piece, sep, d)
    ensures var ps := Pieces(angles, text, sep, piece, Deep(angles, piece, d));
            Join(ps, sep) == piece + text && CutExactly(angles, ps, sep, d)
    decreases |text|
  {
    var now := Deep(angles, piece, d);
    if text != "" {
      assert [text[0]] + text[1..] == text;
      if IsCut(angles, sep, text[0], now) {
        PiecesCut(angles, text[1..], sep, "", 0);
        assert piece + [sep] + text[1..] == piece + text;
        assert ([piece] + Pieces(angles, text[1..], sep, "", 0))[1..] == Pieces(angles, text[1..], sep, "", 0);
      } else {
        UncutGrows(angles, piece, sep, d, text[0]);
        PiecesCut(angles, text[1..], sep, piece + [text[0]], d);
        assert piece + [text[0]] + text[1..] == piece + text;
      }
    }
  }

  /** One piece, consumed to its end. */
  lemma {:induction false} EatPiece(angles: bool, p: string, k: nat, rest: string, sep: char, d: int)
    requires k <= |p| && Uncut(angles, p, sep, d)
    ensures Pieces(angles, p + rest, sep, "", d) == Pieces(angles, p[k..] + rest, sep, p[..k], Deep(angles, p[..k], d))
  {
    if k == 0 {
      assert p[k..] == p;
    } else {
      EatPiece(angles, p, k - 1, rest, sep, d);
      var here := p[k - 1..] + rest;
      assert here[1..] == p[k..] + rest;
      assert p[..k] == p[..k - 1] + [p[k - 1]];
      DeepAppend(angles, p[..k - 1], [p[k - 1]], d);
    }
  }

  lemma LastPiece(angles: bool, p: string, sep: char, d: int)
    requires Uncut(angles, p, sep, d)
    ensures Pieces(angles, p, sep, "", d) == [p]
  {
    EatPiece(angles, p, |p|, "", sep, d);
    assert p + "" == p && p[|p|..] + "" == "" && p[..|p|] == p;
  }

  lemma FirstPiece(angles: bool, p: string, tail: string, sep: char, d: int)
    requires Uncut(angles, p, sep, d) && IsCut(angles, sep, sep, Deep(angles, p, d))
    ensures Pieces(angles, p + [sep] + tail, sep, "", d) == [p] + Pieces(angles, tail, sep, "", 0)
  {
    var rest := [sep] + tail;
    EatPiece(angles, p, |p|, rest, sep, d);
    assert p[|p|..] + rest == rest && p[..|p|] == p && rest[1..] == tail;
    assert p + [sep] + tail == p + rest;
  }

  lemma {:induction false} CutIsPieces(angles: bool, ps: seq<string>, sep: char, d: int)
    requires CutExactly(angles, ps, sep, d)
    ensures Pieces(angles, Join(ps, sep), sep, "", d) == ps
    decreases |ps|
  {
    if |ps| == 1 {
      LastPiece(angles, ps[0], sep, d);
    } else {
      FirstPiece(angles, ps[0], Join(ps[1..], sep), sep, d);
      CutIsPieces(angles, ps[1..], sep, 0);
    }
  }

  /** The pieces before stripping are the one way to cut the text at its separators at depth zero, and
      nowhere else, so that joining gives the text back. */
  lemma PiecesUnique(angles: bool, text: string, sep: char, ps: seq<string>)
    ensures ps == Pieces(angles, text, sep, "", 0) <==> Join(ps, sep) == text && CutExactly(angles, ps, sep, 0)
  {
    PiecesCut(angles, text, sep, "", 0);
    assert "" + text == text;
    if Join(ps, sep) == text && CutExactly(angles, ps, sep, 0) { CutIsPieces(angles, ps, sep, 0); }
  }

  // --------------------------------------------- the two splitters compared

  /** Every comma is at depth zero with angle brackets exactly when it is without. */
  predicate SameCommas(text: string, a: int, b: int) {
    text != "" ==>
    && (text[0] == ',' ==> (a == 0 <==> b == 0))
    && SameCommas(text[1..], a + Turn(true, text[0]), b + Turn(false, text[0]))
  }

  function Shown(angles: bool, text: string, piece: string, d: int): seq<string> {
    Trimmed(Pieces(angles, text, ',', piece, d))
  }

  lemma ShownAtCut(angles: bool, text: string, piece: string, d: int)
    requires text != "" && IsCut(angles, ',', text[0], d)
    ensures Shown(angles, text, piece, d)
         == (if Blank(piece) then [] else [Strip(piece)]) + Shown(angles, text[1..], "", 0)
  {
    var rest := Pieces(angles, text[1..], ',', "", 0);
    assert ([piece] + rest)[1..] == rest;
  }

  lemma {:induction false} StripOf(s: string, c: char, t: string)
    requires !Blank(s)
    ensures !Blank(s + t) && Strip(s + t) != "" && Strip(s + t)[0] == Strip(s)[0]
    ensures |Strip(s)| <= |LStrip(s)|
    ensures !IsSpace(c) ==> |Strip(s + [c] + t)| > |LStrip(s)|
  {
    LStripAppend(s, t);
    LStripAppend(s, [c] + t);
    assert s + [c] + t == s + ([c] + t);
    if exists k :: 0 <= k < |s| && !IsSpace(s[k]) {
      var k :| 0 <= k < |s| && !IsSpace(s[k]);
      assert (s + t)[k] == s[k];
    }
    if !IsSpace(c) { RStripKeeps(LStrip(s), c, t); }
  }

  lemma {:induction false} LStripAppend(s: string, t: string)
    requires !Blank(s)
    ensures LStrip(s + t) == LStrip(s) + t
    decreases |s|
  {
    assert (s + t)[0] == s[0];
    if IsSpace(s[0]) {
      assert (s + t)[1..] == s[1..] + t;
      LStripAppend(s[1..], t);
    }
  }

  lemma {:induction false} RStripKeeps(s: string, c: char, t: string)
    requires !IsSpace(c)
    ensures |RStrip(s + ([c] + t))| > |s|
    decreases |t|
  {
    var u := s + ([c] + t);
    if t != "" && IsSpace(u[|u| - 1]) {
      assert u[..|u| - 1] == s + ([c] + t[..|t| - 1]);
      RStripKeeps(s, c, t[..|t| - 1]);
    }
  }

  lemma ShownNow(angles: bool, text: string, piece: string, d: int)
    requires !Blank(piece) && (text == "" || IsCut(angles, ',', text[0], d))
    ensures Shown(angles, text, piece, d) != [] && Shown(angles, text, piece, d)[0] == Strip(piece)
  {
    if text == "" { assert Shown(angles, text, piece, d) == Trimmed([piece]); } else { ShownAtCut(angles, text, piece, d); }
  }

  /** The first piece shown extends what is already in it. */
  lemma {:induction false} FirstShown(angles: bool, text: string, piece: string, d: int) returns (more: string)
    requires !Blank(piece)
    ensures Shown(angles, text, piece, d) != [] && Shown(angles, text, piece, d)[0] == Strip(piece + more)
    decreases |text|
  {
    if text == "" || IsCut(angles, ',', text[0], d) {
      more := "";
      assert piece + "" == piece;
      ShownNow(angles, text, piece, d);
    } else {
      var k :| 0 <= k < |piece| && !IsSpace(piece[k]);
      assert (piece + [text[0]])[k] == piece[k];
      var then_ := FirstShown(angles, text[1..], piece + [text[0]], d + Turn(angles, text[0]));
      more := [text[0]] + then_;
      assert piece + [text[0]] + then_ == piece + more;
    }
  }

  /** After a cut, the first piece shown does not start with a comma. */
  lemma {:induction false} AfterCut(angles: bool, text: string, piece: string)
    requires Blank(piece)
    ensures var r := Shown(angles, text, piece, 0); r != [] ==> r[0] != "" && r[0][0] != ','
    decreases |text|
  {
    assert [piece][1..] == [] && Trimmed([]) == [];
    assert Trimmed([piece]) == [];
    if text != "" {
      var c := text[0];
      if IsCut(angles, ',', c, 0) {
        ShownAtCut(angles, text, piece, 0);
        AfterCut(angles, text[1..], "");
      } else if IsSpace(c) {
        AfterCut(angles, text[1..], piece + [c]);
      } else {
        StartsWith(piece, c);
        var more := FirstShown(angles, text[1..], piece + [c], Turn(angles, c));
        StripOf(piece + [c], ' ', more);
      }
    }
  }

  lemma {:induction false} StartsWith(piece: string, c: char)
    requires Blank(piece) && !IsSpace(c)
    ensures !Blank(piece + [c]) && Strip(piece + [c]) == [c]
  {
    if piece == "" {
      assert piece + [c] == [c];
    } else {
      assert (piece + [c])[1..] == piece[1..] + [c];
      StartsWith(piece[1..], c);
    }
    assert (piece + [c])[|piece|] == c;
  }

  /** One splitter cuts at a comma where the other does not: what they show differs. */
  lemma OneCuts(cutting: bool, rest: string, piece: string, d: int)
    ensures (if Blank(piece) then [] else [Strip(piece)]) + Shown(cutting, rest, "", 0)
         != Shown(!cutting, rest, piece + [','], d)
  {
    assert (piece + [','])[|piece|] == ',';
    var more := FirstShown(!cutting, rest, piece + [','], d);
    if Blank(piece) {
      StartsWith(piece, ',');
      StripOf(piece + [','], ' ', more);
      AfterCut(cutting, rest, "");
    } else {
      StripOf(piece, ',', more);
    }
  }

  lemma BothCut(rest: string, piece: string)
    ensures Shown(true, [','] + rest, piece, 0) == Shown(false, [','] + rest, piece, 0)
       <==> Shown(true, rest, "", 0) == Shown(false, rest, "", 0)
  {
    var text := [','] + rest;
    assert text[1..] == rest;
    ShownAtCut(true, text, piece, 0);
    ShownAtCut(false, text, piece, 0);
    var head := if Blank(piece) then [] else [Strip(piece)];
    assert (head + Shown(true, rest, "", 0))[|head|..] == Shown(true, rest, "", 0);
    assert (head + Shown(false, rest, "", 0))[|head|..] == Shown(false, rest, "", 0);
  }

  lemma OneCutsHere(text: string, piece: string, a: int, b: int)
    requires text != "" && text[0] == ',' && (a == 0) != (b == 0)
    ensures Shown(true, text, piece, a) != Shown(false, text, piece, b)
  {
    var rest := text[1..];
    if a == 0 {
      ShownAtCut(true, text, piece, a);
      ShownOn(false, text, piece, b);
      OneCuts(true, rest, piece, b);
    } else {
      ShownAtCut(false, text, piece, b);
      ShownOn(true, text, piece, a);
      OneCuts(false, rest, piece, a);
    }
  }

  lemma ShownOn(angles: bool, text: string, piece: string, d: int)
    requires text != "" && !IsCut(angles, ',', text[0], d)
    ensures Shown(angles, text, piece, d) == Shown(angles, text[1..], piece + [text[0]], d + Turn(angles, text[0]))
  {
  }

  lemma {:induction false} AgreeIff(text: string, piece: string, a: int, b: int)
    ensures Shown(true, text, piece, a) == Shown(false, text, piece, b) <==> SameCommas(text, a, b)
    decreases |text|
  {
    if text != "" {
      var c, rest := text[0], text[1..];
      if c == ',' && (a == 0) != (b == 0) {
        OneCutsHere(text, piece, a, b);
      } else if c == ',' && a == 0 {
        assert text == [','] + rest;
        BothCut(rest, piece);
        AgreeIff(rest, "", 0, 0);
      } else {
        AgreeIff(rest, piece + [c], a + Turn(true, c), b + Turn(false, c));
      }
    }
  }

  /** What `_split_args` shows of `inner`: the non-blank spans, stripped. */
  function ArgTexts(inner: string): seq<string> {
    Trimmed(if Blank(inner) then [] else Pieces(false, inner, ',', "", 0))
  }

  lemma {:induction false} BlankShowsNothing(text: string, piece: string)
    requires Blank(text) && Blank(piece)
    ensures Shown(false, text, piece, 0) == []
    decreases |text|
  {
    assert [piece][1..] == [] && Trimmed([]) == [];
    assert Trimmed([piece]) == [];
    if text != "" { BlankShowsNothing(text[1..], piece + [text[0]]); }
  }

  /** The non-blank arguments of `_split_args` are the pieces of `split_top_level` exactly when counting
      angle brackets moves no comma to or from depth zero. */
  lemma SplittersAgreeIff(inner: string)
    ensures ArgTexts(inner) == Trimmed(Pieces(true, inner, ',', "", 0)) <==> SameCommas(inner, 0, 0)
  {
    AgreeIff(inner, "", 0, 0);
    if Blank(inner) { BlankShowsNothing(inner, ""); }
  }

  lemma {:induction false} NoAngles(text: string, d: int)
    requires '<' !in text && '>' !in text
    ensures SameCommas(text, d, d)
  {
    if text != "" { NoAngles(text[1..], d + Turn(true, text[0])); }
  }

  /** In particular on every text without angle brackets. */
  lemma SplittersAgreeWithoutAngles(inner: string)
    requires '<' !in inner && '>' !in inner
    ensures ArgTexts(inner) == Trimmed(Pieces(true, inner, ',', "", 0))
  {
    NoAngles(inner, 0);
    SplittersAgreeIff(inner);
  }
}
