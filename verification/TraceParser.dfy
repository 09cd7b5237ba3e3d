/** Assignments of one trace state, multi-line values joined by brace balance. */
module TraceParser {
  import opened Wrappers
  import opened Splitting

  /** `raw` is kept as its lines, which the source joins by newlines. */
  datatype Assignment = Assignment(lvalue: string, value: string, raw: seq<string>)

  predicate AllDashes(s: string) { |s| >= 5 && forall k :: 0 <= k < |s| ==> s[k] == '-' }

  /** A line the parser passes over: blank, or a rule of dashes. */
  predicate Skipped(line: string) { Blank(line) || AllDashes(Strip(line)) }

  predicate Ends(line: string) { "Violated property" <= Strip(line) }

  function Count(s: string, c: char): nat {
    if s == "" then 0 else Count(s[..|s| - 1], c) + if s[|s| - 1] == c then 1 else 0
  }

  function Braces(s: string): int { Count(s, '{') - Count(s, '}') }

  /** The first `=` from `i` on. */
  function FirstEquals(s: string, i: nat): (r: Option<nat>)
    ensures r.Some? ==> i <= r.value < |s| && s[r.value] == '='
    decreases |s| - i
  {
    if i >= |s| then None else if s[i] == '=' then Some(i) else FirstEquals(s, i + 1)
  }

  /** `_ASSIGNMENT_RE`: two blanks or more, a left side of at least one character, the first `=` after it. */
  function Shape(line: string): Option<(string, string)> {
    var body := LStrip(line);
    if body == "" || |line| - |body| < 2 then None
    else match FirstEquals(body, 1)
      case None => None
      case Some(i) => Some((RStrip(body[..i]), LStrip(body[i + 1..])))
  }

  lemma {:induction false} IndentGone(indent: string, body: string)
    requires Blank(indent) && body != "" && !IsSpace(body[0])
    ensures LStrip(indent + body) == body
  {
    if indent == "" {
      assert indent + body == body;
    } else {
      assert (indent + body)[1..] == indent[1..] + body;
      IndentGone(indent[1..], body);
    }
  }

  lemma {:induction false} GapGone(l: string, gap: string)
    requires Blank(gap) && l != "" && !IsSpace(l[|l| - 1])
    ensures RStrip(l + gap) == l
  {
    if gap == "" {
      assert l + gap == l;
    } else {
      assert (l + gap)[..|l + gap| - 1] == l + gap[..|gap| - 1];
      GapGone(l, gap[..|gap| - 1]);
    }
  }

  lemma {:induction false} EqualsAt(s: string, i: nat, at: nat)
    requires i <= at < |s| && s[at] == '=' && forall k :: i <= k < at ==> s[k] != '='
    ensures FirstEquals(s, i) == Some(at)
    decreases at - i
  {
    if i < at { EqualsAt(s, i + 1, at); }
  }

  lemma EqualsAfter(l: string, gap: string, v: string)
    requires l != "" && '=' !in l[1..] && Blank(gap)
    ensures FirstEquals(l + gap + "=" + v, 1) == Some(|l| + |gap|)
  {
    var body, at := l + gap + "=" + v, |l| + |gap|;
    forall k | 1 <= k < at ensures body[k] != '=' {
      if k < |l| { assert body[k] == l[1..][k - 1]; } else { assert body[k] == gap[k - |l|]; }
    }
    EqualsAt(body, 1, at);
  }

  lemma Cut(a: string, b: string)
    ensures (a + "=" + b)[..|a|] == a && (a + "=" + b)[|a| + 1..] == b
  {}

  /** A printed assignment is read as one, whatever its value holds. */
  lemma PrintedShape(indent: string, l: string, gap: string, v: string)
    requires |indent| >= 2 && Blank(indent) && Blank(gap)
    requires l != "" && !IsSpace(l[0]) && !IsSpace(l[|l| - 1]) && '=' !in l[1..]
    ensures Shape(indent + (l + gap + "=" + v)) == Some((l, LStrip(v)))
  {
    var body := l + gap + "=" + v;
    assert body[0] == l[0];
    IndentGone(indent, body);
    ShapeOf(indent + body, body, l, gap, v);
  }

  lemma ShapeOf(line: string, body: string, l: string, gap: string, v: string)
    requires LStrip(line) == body == l + gap + "=" + v && |line| - |body| >= 2
    requires l != "" && !IsSpace(l[|l| - 1]) && '=' !in l[1..] && Blank(gap)
    ensures Shape(line) == Some((l, LStrip(v)))
  {
    EqualsAfter(l, gap, v);
    Cut(l + gap, v);
    GapGone(l, gap);
    ShapeBetween(line, body, l + gap, |l| + |gap|, l, v);
  }

  lemma ShapeBetween(line: string, body: string, head: string, at: nat, l: string, v: string)
    requires LStrip(line) == body && body != "" && |line| - |body| >= 2 && FirstEquals(body, 1) == Some(at)
    requires body[..at] == head && body[at + 1..] == v && RStrip(head) == l
    ensures Shape(line) == Some((l, LStrip(v)))
  {
    ShapeAt(line, body, at);
  }

  lemma ShapeAt(line: string, body: string, at: nat)
    requires LStrip(line) == body && body != "" && |line| - |body| >= 2 && FirstEquals(body, 1) == Some(at)
    ensures Shape(line) == Some((RStrip(body[..at]), LStrip(body[at + 1..])))
  {
  }

  /** What the parser asks of a line: whether it passes it over, whether it would end the state, the
      assignment it would open, and what it adds to a value that goes on. */
  datatype Look = Look(line: string, skipped: bool, ends: bool, opens: bool, lvalue: string, value: string,
                       opening: int, piece: string, braces: int)

  /** `clean` drops the binary suffix. */
  function LookAt(clean: string -> string, line: string): Look {
    var shape := Shape(line);
    var lvalue := if shape.Some? then shape.value.0 else "";
    var value := if shape.Some? then Strip(clean(shape.value.1)) else "";
    Look(line, Skipped(line), Ends(line), shape.Some?, lvalue, value, Braces(value), Strip(line), Braces(line))
  }

  function Looks(clean: string -> string, block: seq<string>): (r: seq<Look>)
    ensures |r| == |block|
  {
    seq(|block|, i requires 0 <= i < |block| => LookAt(clean, block[i]))
  }

  function Opened(l: Look): Assignment { Assignment(l.lvalue, l.value, [l.line]) }

  function Extended(a: Assignment, l: Look): Assignment {
    a.(value := a.value + " " + l.piece, raw := a.raw + [l.line])
  }

  // ---------------------------------------------------------- what a line is taken for

  function Dashes(n: nat): string { if n == 0 then "" else "-" + Dashes(n - 1) }

  lemma {:induction false} DashesAre(s: string)
    ensures s == Dashes(|s|) <==> forall k :: 0 <= k < |s| ==> s[k] == '-'
    decreases s
  {
    if s != "" { DashesAre(s[1..]); }
  }

  /** Passed over are the lines of blanks, and those of five dashes or more between blanks. */
  lemma SkippedIff(line: string)
    ensures Skipped(line) <==> Blank(line) || exists n: nat :: n >= 5 && Strip(line) == Dashes(n)
  {
    DashesAre(Strip(line));
    if n: nat :| n >= 5 && Strip(line) == Dashes(n) { DashesLength(n); }
  }

  lemma {:induction false} DashesLength(n: nat)
    ensures |Dashes(n)| == n
    decreases n
  {
    if n > 0 { DashesLength(n - 1); }
  }

  /** A state ends at a line that begins, behind its blanks, with these words. */
  lemma EndsIff(line: string)
    ensures Ends(line) <==> exists rest :: Strip(line) == "Violated property" + rest
  {
    var words := "Violated property";
    if Ends(line) { assert Strip(line) == words + Strip(line)[|words|..]; }
    if rest :| Strip(line) == words + rest { assert Strip(line)[..|words|] == words; }
  }

  /** One character more: an opening brace counts one, a closing one takes it back. */
  lemma BracesOf(s: string, c: char)
    ensures Braces("") == 0
    ensures Braces(s + [c]) == Braces(s) + if c == '{' then 1 else if c == '}' then -1 else 0
  {
    assert (s + [c])[..|s|] == s;
  }

  /** A line is read as an assignment exactly if it is indented by two blanks or more and has a `=` behind the first
      character of its text. */
  lemma ShapeIff(line: string)
    ensures Shape(line).Some? <==> |line| >= |LStrip(line)| + 2 && LStrip(line) != "" && '=' in LStrip(line)[1..]
  {
    var body := LStrip(line);
    if body != "" {
      if '=' in body[1..] {
        var k :| 0 <= k < |body[1..]| && body[1..][k] == '=';
        EqualsFound(body, 1, k + 1);
      }
      if FirstEquals(body, 1).Some? { assert body[1..][FirstEquals(body, 1).value - 1] == '='; }
    }
  }

  lemma {:induction false} EqualsFound(s: string, i: nat, k: nat)
    requires i <= k < |s| && s[k] == '='
    ensures FirstEquals(s, i).Some?
    decreases k - i
  {
    if s[i] != '=' { EqualsFound(s, i + 1, k); }
  }

  // ---------------------------------------------------------- the loop's state

  datatype State = State(found: seq<Assignment>, open: int, ended: bool)

  function WithLast(found: seq<Assignment>, l: Look): seq<Assignment>
    requires found != []
  {
    found[..|found| - 1] + [Extended(found[|found| - 1], l)]
  }

  /** One line. */
  function Next(s: State, l: Look): State {
    if s.ended || l.skipped then s
    else if s.open <= 0 && l.ends then s.(ended := true)
    else if s.open > 0 && s.found != [] then s.(found := WithLast(s.found, l), open := s.open + l.braces)
    else if !l.opens then (if s.found == [] then s else s.(found := WithLast(s.found, l)))
    else s.(found := s.found + [Opened(l)], open := l.opening)
  }

  function After(lines: seq<Look>): State {
    if lines == [] then State([], 0, false) else Next(After(lines[..|lines| - 1]), lines[|lines| - 1])
  }

  lemma AfterOne(lines: seq<Look>, n: nat)
    requires n < |lines|
    ensures After(lines[..n + 1]) == Next(After(lines[..n]), lines[n])
  {
    assert lines[..n + 1][..n] == lines[..n];
  }

  lemma {:induction false} EndedStays(lines: seq<Look>, n: nat)
    requires n <= |lines| && After(lines[..n]).ended
    ensures After(lines) == After(lines[..n])
    decreases |lines|
  {
    if n == |lines| {
      assert lines[..n] == lines;
    } else {
      assert lines[..|lines| - 1][..n] == lines[..n];
      EndedStays(lines[..|lines| - 1], n);
    }
  }

  /** `_parse_assignments`. */
  method ParseAssignments(clean: string -> string, block: seq<string>) returns (assignments: seq<Assignment>)
    ensures assignments == After(Looks(clean, block)).found
  {
    assignments := [];
    var openBraces := 0;
    ghost var looks := Looks(clean, block);
    for i := 0 to |block|
      invariant After(looks[..i]) == State(assignments, openBraces, false)
    {
      AfterOne(looks, i);
      var ended;
      assignments, openBraces, ended := ParseLine(clean, block[i], assignments, openBraces);
      if ended {
        EndedStays(looks, i + 1);
        return;
      }
    }
    assert looks[..|block|] == looks;
  }

  /** The body of that loop; `ended` is its `break`. */
  method ParseLine(clean: string -> string, line: string, before: seq<Assignment>, openBefore: int)
    returns (assignments: seq<Assignment>, openBraces: int, ended: bool)
    ensures State(assignments, openBraces, ended) == Next(State(before, openBefore, false), LookAt(clean, line))
  {
    assignments, openBraces, ended := before, openBefore, false;
    if Blank(line) || AllDashes(Strip(line)) { return; }
    if openBraces <= 0 && Ends(line) {
      ended := true;
      return;
    }
    if openBraces > 0 && assignments != [] {
      var last := assignments[|assignments| - 1];
      assignments := assignments[..|assignments| - 1]
        + [last.(value := last.value + " " + Strip(line), raw := last.raw + [line])];
      openBraces := openBraces + (Count(line, '{') - Count(line, '}'));
      return;
    }
    var m := Shape(line);
    if m.None? {
      if assignments != [] {
        var last := assignments[|assignments| - 1];
        assignments := assignments[..|assignments| - 1]
          + [last.(value := last.value + " " + Strip(line), raw := last.raw + [line])];
      }
      return;
    }
    var value := Strip(clean(m.value.1));
    assignments := assignments + [Assignment(m.value.0, value, [line])];
    openBraces := Count(value, '{') - Count(value, '}');
  }

  // ---------------------------------------------------------- what was printed

  /** The lines of one assignment. */
  datatype Group = Group(first: Look, rest: seq<Look>)

  function Lines(g: Group): seq<Look> { [g.first] + g.rest }

  function Grow(g: Group, l: Look): Group { Group(g.first, g.rest + [l]) }

  function Shrink(g: Group): Group
    requires g.rest != []
  {
    Group(g.first, g.rest[..|g.rest| - 1])
  }

  /** The first line opens an assignment and none is passed over. */
  predicate Readable(g: Group) {
    g.first.opens && !g.first.skipped && forall k :: 0 <= k < |g.rest| ==> !g.rest[k].skipped
  }

  /** The assignment a group stands for. */
  function Meant(g: Group): Assignment
    decreases |g.rest|
  {
    if g.rest == [] then Opened(g.first) else Extended(Meant(Shrink(g)), g.rest[|g.rest| - 1])
  }

  /** Braces left open after a group's lines; once closed it stays closed. */
  function OpenAfter(g: Group): int
    decreases |g.rest|
  {
    if g.rest == [] then g.first.opening
    else if OpenAfter(Shrink(g)) > 0 then OpenAfter(Shrink(g)) + g.rest[|g.rest| - 1].braces
    else OpenAfter(Shrink(g))
  }

  /** The line belongs to the group: inside its braces, or looking like neither an assignment nor the end. */
  predicate GoesOn(g: Group, l: Look) { OpenAfter(g) > 0 || (!l.opens && !l.ends) }

  /** Every line after the first belongs. */
  predicate Holds(g: Group)
    decreases |g.rest|
  {
    g.rest != [] ==> Holds(Shrink(g)) && GoesOn(Shrink(g), g.rest[|g.rest| - 1])
  }

  function AllLines(gs: seq<Group>): seq<Look> {
    if gs == [] then [] else AllLines(gs[..|gs| - 1]) + Lines(gs[|gs| - 1])
  }

  predicate AllReadable(gs: seq<Group>) { forall k :: 0 <= k < |gs| ==> Readable(gs[k]) }

  function AllMeant(gs: seq<Group>): seq<Assignment> {
    if gs == [] then [] else AllMeant(gs[..|gs| - 1]) + [Meant(gs[|gs| - 1])]
  }

  function OpenAtEnd(gs: seq<Group>): int { if gs == [] then 0 else OpenAfter(gs[|gs| - 1]) }

  /** Every group holds together and starts with all braces closed, on a line that does not end the state. */
  predicate Separable(gs: seq<Group>) {
    gs != [] ==>
      var front, last := gs[..|gs| - 1], gs[|gs| - 1];
      Separable(front) && OpenAtEnd(front) <= 0 && !last.first.ends && Holds(last)
  }

  function TotalRaw(found: seq<Assignment>): nat {
    if found == [] then 0 else TotalRaw(found[..|found| - 1]) + |found[|found| - 1].raw|
  }

  ghost predicate NoEmptyRaw(found: seq<Assignment>) { forall k :: 0 <= k < |found| ==> found[k].raw != [] }

  lemma TotalRawOne(found: seq<Assignment>, a: Assignment)
    ensures TotalRaw(found + [a]) == TotalRaw(found) + |a.raw|
  {
    assert (found + [a])[..|found|] == found;
  }

  lemma NextRaw(s: State, line: Look)
    requires NoEmptyRaw(s.found)
    ensures TotalRaw(Next(s, line).found) <= TotalRaw(s.found) + 1
    ensures NoEmptyRaw(Next(s, line).found)
  {
    if s.found != [] {
      TotalRawOne(s.found[..|s.found| - 1], Extended(s.found[|s.found| - 1], line));
    }
    TotalRawOne(s.found, Opened(line));
  }

  /** No line is shown twice, and no assignment is without one. */
  lemma {:induction false} RawIsLines(lines: seq<Look>)
    ensures TotalRaw(After(lines).found) <= |lines| && NoEmptyRaw(After(lines).found)
  {
    if lines != [] {
      RawIsLines(lines[..|lines| - 1]);
      NextRaw(After(lines[..|lines| - 1]), lines[|lines| - 1]);
    }
  }

  lemma {:induction false} MeantRaw(g: Group)
    ensures |Meant(g).raw| == 1 + |g.rest|
    decreases |g.rest|
  {
    if g.rest != [] { MeantRaw(Shrink(g)); }
  }

  lemma {:induction false} AllMeantRaw(gs: seq<Group>)
    ensures |AllMeant(gs)| == |gs| && TotalRaw(AllMeant(gs)) == |AllLines(gs)|
  {
    if gs != [] {
      AllMeantRaw(gs[..|gs| - 1]);
      TotalRawOne(AllMeant(gs[..|gs| - 1]), Meant(gs[|gs| - 1]));
      MeantRaw(gs[|gs| - 1]);
    }
  }

  lemma ExtendedSame(a: Assignment, b: Assignment, line: Look)
    ensures Extended(a, line) == Extended(b, line) <==> a == b
  {
    var t := " " + line.piece;
    if Extended(a, line) == Extended(b, line) {
      assert a.raw == (a.raw + [line.line])[..|a.raw|] && b.raw == (b.raw + [line.line])[..|b.raw|];
      assert a.value + " " + line.piece == a.value + t && b.value + " " + line.piece == b.value + t;
      assert a.value == (a.value + t)[..|a.value|] && b.value == (b.value + t)[..|b.value|];
    }
  }

  // ------------------------------------------------------ one line, forwards and back

  lemma AfterLast(lines: seq<Look>, l: Look)
    ensures After(lines + [l]) == Next(After(lines), l)
  {
    assert (lines + [l])[..|lines|] == lines;
  }

  /** A line shown as an assignment of its own was opened. */
  lemma OpenedLast(s: State, line: Look, front: seq<Assignment>)
    requires NoEmptyRaw(s.found) && !line.skipped && line.opens
    ensures Next(s, line).found == front + [Opened(line)] && s.found != front + [Opened(line)]
       <==> s.found == front && !s.ended && (s.open <= 0 ==> !line.ends) && (s.open <= 0 || s.found == [])
  {
    var t := Next(s, line).found;
    assert s.open > 0 && s.found != [] && !s.ended ==> |t[|t| - 1].raw| >= 2;
    if t == front + [Opened(line)] && s.found != t {
      assert t[|front|] == Opened(line) && t[..|front|] == front;
      assert t == s.found + [Opened(line)];
      assert t[..|s.found|] == s.found;
    }
  }

  /** A line shown at the end of the last assignment was joined to it. */
  lemma JoinedLast(s: State, line: Look, front: seq<Assignment>, m: Assignment)
    requires !line.skipped && m.raw != []
    ensures Next(s, line).found == front + [Extended(m, line)] && s.found != front + [Extended(m, line)]
       <==> s.found == front + [m] && !s.ended && (s.open > 0 || (!line.opens && !line.ends))
  {
    var t := Next(s, line).found;
    if t == front + [Extended(m, line)] && s.found != t {
      assert t[|front|] == Extended(m, line) && |t[|front|].raw| >= 2 && t[..|front|] == front;
      assert |s.found| == |t|;
      ExtendedSame(s.found[|front|], m, line);
      assert s.found == s.found[..|front|] + [s.found[|front|]];
    }
    if s.found == front + [m] {
      assert |(s.found)[|front|].raw| == |m.raw| && |Extended(m, line).raw| == |m.raw| + 1;
      assert (front + [Extended(m, line)])[|front|] == Extended(m, line);
      assert s.found[..|front|] == front;
    }
  }

  /** What the loop knows after these groups, if it shows them as they are meant; and when it does. */
  ghost predicate Exact(gs: seq<Group>) {
    && (After(AllLines(gs)).found == AllMeant(gs) <==> Separable(gs))
    && (Separable(gs) ==> After(AllLines(gs)) == State(AllMeant(gs), OpenAtEnd(gs), false))
  }

  lemma OneGroupMore(front: seq<Group>, g: Group)
    ensures AllLines(front + [g]) == AllLines(front) + Lines(g)
    ensures AllMeant(front + [g]) == AllMeant(front) + [Meant(g)]
    ensures OpenAtEnd(front + [g]) == OpenAfter(g)
    ensures Separable(front + [g]) <==> Separable(front) && OpenAtEnd(front) <= 0 && !g.first.ends && Holds(g)
  {
    assert (front + [g])[..|front|] == front;
  }

  lemma OneLineMore(g: Group, l: Look)
    ensures Lines(Grow(g, l)) == Lines(g) + [l] && Meant(Grow(g, l)) == Extended(Meant(g), l)
    ensures OpenAfter(Grow(g, l)) == if OpenAfter(g) > 0 then OpenAfter(g) + l.braces else OpenAfter(g)
    ensures Holds(Grow(g, l)) <==> Holds(g) && GoesOn(g, l)
  {
    assert Shrink(Grow(g, l)) == g;
  }

  /** Less was shown before the last line than is meant with it. */
  lemma NotYet(lines: seq<Look>, l: Look, gs: seq<Group>)
    requires AllLines(gs) == lines + [l]
    ensures After(lines).found != AllMeant(gs) && NoEmptyRaw(After(lines).found)
  {
    RawIsLines(lines);
    AllMeantRaw(gs);
  }

  lemma NewGroup(front: seq<Group>, l: Look)
    requires !l.skipped && l.opens && Exact(front)
    ensures Exact(front + [Group(l, [])])
  {
    var g, lines := Group(l, []), AllLines(front);
    OneGroupMore(front, g);
    assert Lines(g) == [l];
    AfterLast(lines, l);
    NotYet(lines, l, front + [g]);
    OpenedLast(After(lines), l, AllMeant(front));
    AllMeantRaw(front);
  }

  lemma LongerGroup(front: seq<Group>, g: Group, l: Look)
    requires !l.skipped && Exact(front + [g])
    ensures Exact(front + [Grow(g, l)])
  {
    var lines := AllLines(front + [g]);
    OneGroupMore(front, g);
    OneGroupMore(front, Grow(g, l));
    OneLineMore(g, l);
    assert AllLines(front) + (Lines(g) + [l]) == lines + [l];
    AfterLast(lines, l);
    NotYet(lines, l, front + [Grow(g, l)]);
    MeantRaw(g);
    JoinedLast(After(lines), l, AllMeant(front), Meant(g));
  }

  lemma {:induction false} ExactWith(front: seq<Group>, g: Group)
    requires Exact(front) && Readable(g)
    ensures Exact(front + [g])
    decreases |g.rest|
  {
    if g.rest == [] {
      NewGroup(front, g.first);
    } else {
      ExactWith(front, Shrink(g));
      LongerGroup(front, Shrink(g), g.rest[|g.rest| - 1]);
      assert Grow(Shrink(g), g.rest[|g.rest| - 1]) == g;
    }
  }

  lemma {:induction false} AllExact(gs: seq<Group>)
    requires AllReadable(gs)
    ensures Exact(gs)
  {
    if gs != [] {
      AllExact(gs[..|gs| - 1]);
      ExactWith(gs[..|gs| - 1], gs[|gs| - 1]);
      assert gs[..|gs| - 1] + [gs[|gs| - 1]] == gs;
    }
  }

  /** Printed assignments are recovered one for one exactly when, at every line, the braces of the value so
      far, or failing that the line's own look, say rightly whether it goes on. */
  lemma RecoveredIff(gs: seq<Group>)
    requires AllReadable(gs)
    ensures After(AllLines(gs)).found == AllMeant(gs) <==> Separable(gs)
  {
    AllExact(gs);
  }

  // ------------------------------------------------------ printed text

  /** An assignment as a checker prints it: left side and value, the value going on over more lines. */
  datatype Printed = Printed(indent: string, lvalue: string, gap: string, first: string, rest: seq<string>)

  function FirstLine(p: Printed): string { p.indent + (p.lvalue + p.gap + "=" + p.first) }

  function TextOf(p: Printed): seq<string> { [FirstLine(p)] + p.rest }

  function AllText(ps: seq<Printed>): seq<string> {
    if ps == [] then [] else AllText(ps[..|ps| - 1]) + TextOf(ps[|ps| - 1])
  }

  /** Indented; the left side trimmed and without a `=` past its first character; no line blank or ruled. */
  predicate WellPrinted(p: Printed) {
    && |p.indent| >= 2 && Blank(p.indent) && Blank(p.gap)
    && p.lvalue != "" && !IsSpace(p.lvalue[0]) && !IsSpace(p.lvalue[|p.lvalue| - 1]) && '=' !in p.lvalue[1..]
    && forall k :: 0 <= k < |p.rest| ==> !Skipped(p.rest[k])
  }

  function Without(p: Printed): Printed
    requires p.rest != []
  {
    p.(rest := p.rest[..|p.rest| - 1])
  }

  /** The value: what the first line gives of it, and the further lines, trimmed, each after a blank. */
  function ValueOf(clean: string -> string, p: Printed): string
    decreases |p.rest|
  {
    if p.rest == [] then Strip(clean(LStrip(p.first)))
    else ValueOf(clean, Without(p)) + " " + Strip(p.rest[|p.rest| - 1])
  }

  function Given(clean: string -> string, p: Printed): Assignment { Assignment(p.lvalue, ValueOf(clean, p), TextOf(p)) }

  function AllGiven(clean: string -> string, ps: seq<Printed>): (r: seq<Assignment>)
    ensures |r| == |ps|
  {
    if ps == [] then [] else AllGiven(clean, ps[..|ps| - 1]) + [Given(clean, ps[|ps| - 1])]
  }

  /** Braces the printed value leaves open, counted as long as any are. */
  function LeftOpen(clean: string -> string, p: Printed): int
    decreases |p.rest|
  {
    if p.rest == [] then Braces(Strip(clean(LStrip(p.first))))
    else
      var before := LeftOpen(clean, Without(p));
      if before > 0 then before + Braces(p.rest[|p.rest| - 1]) else before
  }

  /** Every further line stands inside the braces, or looks like neither an assignment nor the end. */
  predicate HeldTogether(clean: string -> string, p: Printed)
    decreases |p.rest|
  {
    p.rest != [] ==>
      var line := p.rest[|p.rest| - 1];
      HeldTogether(clean, Without(p)) && (LeftOpen(clean, Without(p)) > 0 || (Shape(line).None? && !Ends(line)))
  }

  /** ... and every assignment but the last leaves no brace open, and none begins like the end. */
  predicate ToldApart(clean: string -> string, ps: seq<Printed>) {
    ps != [] ==>
      var front, last := ps[..|ps| - 1], ps[|ps| - 1];
      && ToldApart(clean, front) && (front != [] ==> LeftOpen(clean, front[|front| - 1]) <= 0)
      && !Ends(FirstLine(last)) && HeldTogether(clean, last)
  }

  function GroupOf(clean: string -> string, p: Printed): Group {
    Group(LookAt(clean, FirstLine(p)), Looks(clean, p.rest))
  }

  function Groups(clean: string -> string, ps: seq<Printed>): (r: seq<Group>)
    ensures |r| == |ps|
  {
    if ps == [] then [] else Groups(clean, ps[..|ps| - 1]) + [GroupOf(clean, ps[|ps| - 1])]
  }

  lemma {:induction false} RStripPrefix(s: string)
    ensures RStrip(s) <= s
  {
    if s != "" && IsSpace(s[|s| - 1]) { RStripPrefix(s[..|s| - 1]); }
  }

  /** A line with an assignment is no rule. */
  lemma NotSkipped(p: Printed)
    requires WellPrinted(p)
    ensures !Skipped(FirstLine(p))
  {
    var head := p.lvalue + p.gap;
    var body := head + "=" + p.first;
    IndentGone(p.indent, body);
    assert FirstLine(p)[|p.indent|] == p.lvalue[0];
    assert body == head + (['='] + p.first);
    RStripKeeps(head, '=', p.first);
    RStripPrefix(body);
    assert RStrip(body)[|head|] == '=';
  }

  lemma FirstLook(clean: string -> string, p: Printed)
    requires WellPrinted(p)
    ensures var l := LookAt(clean, FirstLine(p));
      l.opens && !l.skipped && l.lvalue == p.lvalue && l.value == Strip(clean(LStrip(p.first)))
  {
    PrintedShape(p.indent, p.lvalue, p.gap, p.first);
    NotSkipped(p);
  }

  lemma LooksAppend(clean: string -> string, a: seq<string>, b: seq<string>)
    ensures Looks(clean, a + b) == Looks(clean, a) + Looks(clean, b)
  {}

  lemma LookOne(clean: string -> string, line: string)
    ensures Looks(clean, [line]) == [LookAt(clean, line)]
  {}

  lemma LooksLast(clean: string -> string, lines: seq<string>, n: nat)
    requires |lines| == n + 1
    ensures Looks(clean, lines) == Looks(clean, lines[..n]) + [LookAt(clean, lines[n])]
  {
    assert lines == lines[..n] + [lines[n]];
    LooksAppend(clean, lines[..n], [lines[n]]);
    LookOne(clean, lines[n]);
  }

  lemma GrowGroup(clean: string -> string, p: Printed)
    requires p.rest != []
    ensures GroupOf(clean, p) == Grow(GroupOf(clean, Without(p)), LookAt(clean, p.rest[|p.rest| - 1]))
  {
    LooksLast(clean, p.rest, |p.rest| - 1);
  }

  lemma TextLast(p: Printed)
    requires p.rest != []
    ensures TextOf(p) == TextOf(Without(p)) + [p.rest[|p.rest| - 1]]
  {}

  lemma GroupReadable(clean: string -> string, p: Printed)
    requires WellPrinted(p)
    ensures Readable(GroupOf(clean, p))
  {
    FirstLook(clean, p);
  }

  /** The printed assignment is the group's. */
  lemma {:induction false} GroupMeans(clean: string -> string, p: Printed)
    requires WellPrinted(p)
    ensures Meant(GroupOf(clean, p)) == Given(clean, p)
    ensures OpenAfter(GroupOf(clean, p)) == LeftOpen(clean, p)
    ensures Holds(GroupOf(clean, p)) <==> HeldTogether(clean, p)
    decreases |p.rest|
  {
    if p.rest == [] {
      FirstLook(clean, p);
      assert TextOf(p) == [FirstLine(p)] && Looks(clean, p.rest) == [];
    } else {
      GroupMeans(clean, Without(p));
      GroupMeansMore(clean, p, GroupOf(clean, Without(p)), LookAt(clean, p.rest[|p.rest| - 1]));
    }
  }

  lemma GroupMeansMore(clean: string -> string, p: Printed, g: Group, l: Look)
    requires WellPrinted(p) && p.rest != [] && g == GroupOf(clean, Without(p)) && l == LookAt(clean, p.rest[|p.rest| - 1])
    requires Meant(g) == Given(clean, Without(p)) && OpenAfter(g) == LeftOpen(clean, Without(p))
    requires Holds(g) <==> HeldTogether(clean, Without(p))
    ensures Meant(GroupOf(clean, p)) == Given(clean, p) && OpenAfter(GroupOf(clean, p)) == LeftOpen(clean, p)
    ensures Holds(GroupOf(clean, p)) <==> HeldTogether(clean, p)
  {
    GrowGroup(clean, p);
    TextLast(p);
    OneLineMore(g, l);
  }

  lemma LinesOf(clean: string -> string, p: Printed)
    ensures Lines(GroupOf(clean, p)) == Looks(clean, TextOf(p))
  {
    LooksAppend(clean, [FirstLine(p)], p.rest);
    LookOne(clean, FirstLine(p));
  }

  lemma {:induction false} GroupsReadable(clean: string -> string, ps: seq<Printed>)
    requires forall p <- ps :: WellPrinted(p)
    ensures AllReadable(Groups(clean, ps))
  {
    if ps != [] {
      assert (forall p <- ps[..|ps| - 1] :: p in ps) && ps[|ps| - 1] in ps;
      GroupsReadable(clean, ps[..|ps| - 1]);
      GroupReadable(clean, ps[|ps| - 1]);
    }
  }

  lemma {:induction false} GroupsLines(clean: string -> string, ps: seq<Printed>)
    ensures AllLines(Groups(clean, ps)) == Looks(clean, AllText(ps))
  {
    if ps != [] {
      var front, last := ps[..|ps| - 1], ps[|ps| - 1];
      GroupsLines(clean, front);
      OneGroupMore(Groups(clean, front), GroupOf(clean, last));
      LinesOf(clean, last);
      LooksAppend(clean, AllText(front), TextOf(last));
    }
  }

  lemma {:induction false} GroupsMean(clean: string -> string, ps: seq<Printed>)
    requires forall p <- ps :: WellPrinted(p)
    ensures AllMeant(Groups(clean, ps)) == AllGiven(clean, ps)
    ensures OpenAtEnd(Groups(clean, ps)) == if ps == [] then 0 else LeftOpen(clean, ps[|ps| - 1])
    ensures Separable(Groups(clean, ps)) <==> ToldApart(clean, ps)
  {
    if ps != [] {
      var front, last := ps[..|ps| - 1], ps[|ps| - 1];
      assert (forall p <- front :: p in ps) && last in ps;
      GroupsMean(clean, front);
      GroupMeans(clean, last);
      OneGroupMore(Groups(clean, front), GroupOf(clean, last));
    }
  }

  /** Printed assignments are given back, left sides and values, exactly when they can be told apart: at every line the
      braces of the value so far, or failing that the line's own look, say rightly whether the value goes on. */
  lemma PrintedGivenBackIff(clean: string -> string, ps: seq<Printed>)
    requires forall p <- ps :: WellPrinted(p)
    ensures After(Looks(clean, AllText(ps))).found == AllGiven(clean, ps) <==> ToldApart(clean, ps)
  {
    GroupsReadable(clean, ps);
    GroupsLines(clean, ps);
    GroupsMean(clean, ps);
    RecoveredIff(Groups(clean, ps));
  }

  /** A value on one line, its braces closed, that `clean` and trimming leave as it is. */
  predicate OneLine(clean: string -> string, p: Printed, v: string) {
    && WellPrinted(p) && p.rest == [] && LStrip(p.first) == v && clean(v) == v && Strip(v) == v
    && Braces(v) <= 0 && !Ends(FirstLine(p))
  }

  lemma OneLiner(clean: string -> string, p: Printed, v: string)
    requires OneLine(clean, p, v)
    ensures Given(clean, p) == Assignment(p.lvalue, v, TextOf(p)) && LeftOpen(clean, p) <= 0 && HeldTogether(clean, p)
  {}

  lemma {:induction false} OneLinersToldApart(clean: string -> string, ps: seq<Printed>, vs: seq<string>)
    requires |ps| == |vs| && forall k :: 0 <= k < |ps| ==> OneLine(clean, ps[k], vs[k])
    ensures ToldApart(clean, ps) && (ps != [] ==> LeftOpen(clean, ps[|ps| - 1]) <= 0)
  {
    if ps != [] {
      var n := |ps| - 1;
      OneLinersToldApart(clean, ps[..n], vs[..n]);
      OneLiner(clean, ps[n], vs[n]);
    }
  }

  lemma {:induction false} GivenAt(clean: string -> string, ps: seq<Printed>, k: nat)
    requires k < |ps|
    ensures AllGiven(clean, ps)[k] == Given(clean, ps[k])
  {
    if k < |ps| - 1 { GivenAt(clean, ps[..|ps| - 1], k); }
  }

  /** In particular values of one line each come back unchanged. */
  lemma OneLinersGivenBack(clean: string -> string, ps: seq<Printed>, vs: seq<string>)
    requires |ps| == |vs| && forall k :: 0 <= k < |ps| ==> OneLine(clean, ps[k], vs[k])
    ensures var found := After(Looks(clean, AllText(ps))).found;
      |found| == |ps| && forall k :: 0 <= k < |ps| ==> found[k].lvalue == ps[k].lvalue && found[k].value == vs[k]
  {
    forall p | p in ps ensures WellPrinted(p) {
      var k :| 0 <= k < |ps| && ps[k] == p;
      assert OneLine(clean, ps[k], vs[k]);
    }
    OneLinersToldApart(clean, ps, vs);
    PrintedGivenBackIff(clean, ps);
    forall k | 0 <= k < |ps| ensures AllGiven(clean, ps)[k] == Assignment(ps[k].lvalue, vs[k], TextOf(ps[k])) {
      GivenAt(clean, ps, k);
      OneLiner(clean, ps[k], vs[k]);
    }
  }

  /** In particular where braces alone tell: open before every further line, closed at the end. */
  predicate Balanced(clean: string -> string, p: Printed)
    decreases |p.rest|
  {
    p.rest != [] ==> Balanced(clean, Without(p)) && LeftOpen(clean, Without(p)) > 0
  }

  lemma {:induction false} BalancedHolds(clean: string -> string, p: Printed)
    requires Balanced(clean, p)
    ensures HeldTogether(clean, p)
    decreases |p.rest|
  {
    if p.rest != [] { BalancedHolds(clean, Without(p)); }
  }

  lemma {:induction false} BalancedToldApart(clean: string -> string, ps: seq<Printed>)
    requires forall p <- ps :: Balanced(clean, p) && LeftOpen(clean, p) <= 0 && !Ends(FirstLine(p))
    ensures ToldApart(clean, ps)
  {
    if ps != [] {
      var n := |ps| - 1;
      assert forall p <- ps[..n] :: p in ps;
      assert ps[n] in ps;
      BalancedToldApart(clean, ps[..n]);
      BalancedHolds(clean, ps[n]);
    }
  }

  /** ... whatever else the lines hold, `=` included. */
  lemma BalancedGivenBack(clean: string -> string, ps: seq<Printed>)
    requires forall p <- ps :: WellPrinted(p) && Balanced(clean, p) && LeftOpen(clean, p) <= 0 && !Ends(FirstLine(p))
    ensures After(Looks(clean, AllText(ps))).found == AllGiven(clean, ps)
  {
    BalancedToldApart(clean, ps);
    PrintedGivenBackIff(clean, ps);
  }
}
