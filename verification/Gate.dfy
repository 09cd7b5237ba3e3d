/** `_not_just_assertions`: may a rewritten file be verified in place of the original? */
module Gate {
  import opened Wrappers
  import opened Tokens

  /** What `SequenceMatcher.get_opcodes` returns: `before[i1..i2]` becomes `after[j1..j2]`. */
  datatype Tag = Equal | Insert | Replace | Delete
  datatype Opcode = Opcode(tag: Tag, i1: nat, i2: nat, j1: nat, j2: nat)

  /** `ops` is an edit script from `before[i..]` to `after[j..]`. Which script is the matcher's choice. */
  ghost predicate ValidScript(ops: seq<Opcode>, before: seq<Line>, after: seq<Line>, i: nat, j: nat)
    decreases ops
  {
    if ops == [] then i == |before| && j == |after|
    else
      var op := ops[0];
      && op.i1 == i <= op.i2 <= |before| && op.j1 == j <= op.j2 <= |after|
      && (op.tag == Equal ==> before[op.i1..op.i2] == after[op.j1..op.j2])
      && (op.tag == Insert ==> op.i1 == op.i2)
      && (op.tag == Delete ==> op.j1 == op.j2)
      && ValidScript(ops[1..], before, after, op.i2, op.j2)
  }

  datatype Refusal =
    | EditsLines | RawString | RedefinesAssertion | ChangesReading | AddsNothing
    | FollowsContinuation | Splices | Assumes | NotAssertion | CommentInCondition | UnreadableLiteral
    | ChangesState | InsideComment | NotAfterStatement

  /** The index of the first closing quote. */
  function FirstQuote(line: Line): (q: nat)
    requires Quote in line
    ensures q < |line| && line[q] == Quote && Quote !in line[..q]
  {
    if line[0] == Quote then 0
    else
      var q := 1 + FirstQuote(line[1..]);
      assert line[..q] == [line[0]] + line[1..][..q - 1];
      q
  }

  /** `_LITERAL_RE.sub('""', line)`: every literal closed on the line becomes `""`. */
  function Collapse(line: Line): Line {
    if line == [] then []
    else if IsQuote(line[0]) && Quote in line[1..] then
      [EmptyLiteral] + Collapse(line[FirstQuote(line[1..]) + 2..])
    else [line[0]] + Collapse(line[1..])
  }

  predicate MatchAt(code: Line, k: nat) {
    && 2 <= k && k + 1 < |code| && code[k] == RParen && code[k + 1] == Semi
    && (k + 2 == |code| || code[k + 2] == LineOpen)
  }

  /** The greedy `.*` of `_ASSERTION_RE`: the last closing parenthesis that lets the whole line match. */
  function GreedyMatch(code: Line, k: nat): (r: Option<nat>)
    ensures r.Some? ==> MatchAt(code, r.value)
  {
    if MatchAt(code, k) then Some(k) else if k == 0 then None else GreedyMatch(code, k - 1)
  }

  /** The `args` group of `_ASSERTION_RE.fullmatch(code)`. */
  function MatchAssertion(code: Line): Option<Line> {
    if |code| < 2 || !code[0].AssertName? || code[1] != LParen then None
    else
      match GreedyMatch(code, |code|)
      case None => None
      case Some(k) => Some(code[2..k])
  }

  /** A word the pattern for side effects finds: it begins with an ASCII letter or `_`. */
  predicate Spotted(t: Token) {
    IsWord(t) &&
    (t.Ident? ==> t.name != "" && ('a' <= t.name[0] <= 'z' || 'A' <= t.name[0] <= 'Z' || t.name[0] == '_'))
  }

  /** `_SIDE_EFFECT_RE`. */
  predicate HasSideEffect(args: Line) {
    || (exists t <- args :: t.Effect? || t == Semi)
    || (exists k :: 0 < k < |args| && Spotted(args[k - 1]) && args[k] == LParen)
  }

  /** The last kept cell of the nearest line above `j` that holds code and is not a directive. */
  function Above(scrubbed: seq<seq<Cell>>, j: nat): Cell
    requires j <= |scrubbed|
  {
    if j == 0 then Blank
    else if AllBlank(scrubbed[j - 1]) || IsDirective(scrubbed[j - 1]) then Above(scrubbed, j - 1)
    else LastKept(scrubbed[j - 1])
  }

  predicate Terminates(c: Cell) {
    c.Kept? && c.t in {Semi, LBrace, RBrace}
  }

  /** `_refuse_insertion`: why inserted line `j` could change the program, or None. */
  function RefuseInsertion(after: seq<Line>, scrubbed: seq<seq<Cell>>, j: nat): (r: Option<Refusal>)
    requires j < |after| == |scrubbed|
    ensures r.Some? ==> r.value !in {EditsLines, RawString, RedefinesAssertion, ChangesReading, AddsNothing}
  {
    var line := after[j];
    if j > 0 && Spliced(after[j - 1]) then Some(FollowsContinuation)
    else if Spliced(line) || Trigraph in line then Some(Splices)
    else if line == [] || line[0] == LineOpen then None
    else if exists t <- line :: t.AssumeName? then Some(Assumes)
    else
      match MatchAssertion(Collapse(line))
      case None => Some(NotAssertion)
      case Some(args) =>
        if exists t <- args :: t in {BlockOpen, SlashOpen, StarOpen, BlockClose, LineOpen} then Some(CommentInCondition)
        else if Quote in args || RawQuote in args then Some(UnreadableLiteral)
        else if HasSideEffect(args) then Some(ChangesState)
        else if AllBlank(scrubbed[j]) then Some(InsideComment)
        else if !Terminates(Above(scrubbed, j)) then Some(NotAfterStatement)
        else None
  }

  predicate OnlyInserts(ops: seq<Opcode>) {
    forall op <- ops :: op.tag == Equal || op.tag == Insert
  }

  predicate HasRawString(lines: seq<Line>) {
    exists line <- lines :: RawQuote in line
  }

  predicate RedefinesAssert(lines: seq<Line>) {
    exists line <- lines :: line != [] && line[0] == Hash(RedefineAssert)
  }

  /** One opcode passes: kept lines read the same, and no inserted line is refused. */
  ghost predicate OpFine(op: Opcode, after: seq<Line>, so: seq<seq<Cell>>, sn: seq<seq<Cell>>)
    requires |after| == |sn|
  {
    && op.i1 <= op.i2 <= |so| && op.j1 <= op.j2 <= |sn|
    && if op.tag == Equal then so[op.i1..op.i2] == sn[op.j1..op.j2]
       else forall j: nat :: op.j1 <= j < op.j2 ==> RefuseInsertion(after, sn, j) == None
  }

  /** Some line the opcode inserts is more than blanks and comments. */
  ghost predicate OpAdds(op: Opcode, sn: seq<seq<Cell>>) {
    op.tag == Insert && exists j: nat :: op.j1 <= j < op.j2 <= |sn| && !AllBlank(sn[j])
  }

  ghost predicate Adds(ops: seq<Opcode>, sn: seq<seq<Cell>>) {
    exists op <- ops :: OpAdds(op, sn)
  }

  /** The declarative form of the check: what `NotJustAssertions` decides. */
  ghost predicate Accepts(before: seq<Line>, after: seq<Line>, ops: seq<Opcode>) {
    var so, sn := ScrubAll(before), ScrubAll(after);
    && OnlyInserts(ops) && !HasRawString(before) && !RedefinesAssert(after)
    && (forall op <- ops :: OpFine(op, after, so, sn))
    && Adds(ops, sn)
  }

  lemma ScriptInRange(ops: seq<Opcode>, before: seq<Line>, after: seq<Line>, i: nat, j: nat)
    requires ValidScript(ops, before, after, i, j)
    ensures forall op <- ops :: op.i1 <= op.i2 <= |before| && op.j1 <= op.j2 <= |after|
    decreases ops
  {
    if ops != [] {
      ScriptInRange(ops[1..], before, after, ops[0].i2, ops[0].j2);
      assert ops == [ops[0]] + ops[1..];
    }
  }

  /** The inner loop over one inserted stretch: the first refusal, or how many lines it adds. */
  method CheckInserted(after: seq<Line>, scrubbed: seq<seq<Cell>>, j1: nat, j2: nat)
    returns (r: Option<Refusal>, added: nat)
    requires |after| == |scrubbed| && j1 <= j2 <= |after|
    ensures r.None? <==> forall j: nat :: j1 <= j < j2 ==> RefuseInsertion(after, scrubbed, j) == None
    ensures r.Some? ==> exists j: nat :: j1 <= j < j2 && RefuseInsertion(after, scrubbed, j) == r
    ensures r.None? ==> (added > 0 <==> exists j: nat :: j1 <= j < j2 && !AllBlank(scrubbed[j]))
  {
    added := 0;
    for j := j1 to j2
      invariant forall k: nat :: j1 <= k < j ==> RefuseInsertion(after, scrubbed, k) == None
      invariant added > 0 <==> exists k: nat :: j1 <= k < j && !AllBlank(scrubbed[k])
    {
      r := RefuseInsertion(after, scrubbed, j);
      if r != None { return; }
      if !AllBlank(scrubbed[j]) { added := added + 1; }
    }
    r := None;
  }

  /** The loop over the opcodes: the first refusal, or how many lines they add. */
  method CheckOpcodes(after: seq<Line>, ops: seq<Opcode>, scrubbedOld: seq<seq<Cell>>, scrubbedNew: seq<seq<Cell>>)
    returns (r: Option<Refusal>, added: nat)
    requires |after| == |scrubbedNew|
    requires forall op <- ops :: op.i1 <= op.i2 <= |scrubbedOld| && op.j1 <= op.j2 <= |scrubbedNew|
    requires OnlyInserts(ops)
    ensures r.None? <==> forall op <- ops :: OpFine(op, after, scrubbedOld, scrubbedNew)
    ensures r.Some? ==> r.value !in {EditsLines, RawString, RedefinesAssertion, AddsNothing}
    ensures r == Some(ChangesReading) ==>
              exists op <- ops :: op.tag == Equal && scrubbedOld[op.i1..op.i2] != scrubbedNew[op.j1..op.j2]
    ensures r.None? ==> (added > 0 <==> Adds(ops, scrubbedNew))
  {
    added := 0;
    for n := 0 to |ops|
      invariant forall k :: 0 <= k < n ==> OpFine(ops[k], after, scrubbedOld, scrubbedNew)
      invariant added > 0 <==> exists k :: 0 <= k < n && OpAdds(ops[k], scrubbedNew)
    {
      var op := ops[n];
      if op.tag == Equal {
        if scrubbedOld[op.i1..op.i2] != scrubbedNew[op.j1..op.j2] {
          assert !OpFine(op, after, scrubbedOld, scrubbedNew);
          return Some(ChangesReading), added;
        }
      } else {
        var refusal, lines := CheckInserted(after, scrubbedNew, op.j1, op.j2);
        if refusal != None {
          assert !OpFine(op, after, scrubbedOld, scrubbedNew);
          return refusal, added;
        }
        assert lines > 0 <==> OpAdds(op, scrubbedNew);
        added := added + lines;
      }
    }
    r := None;
  }

  /** `_not_just_assertions(before, after)`, for the script the diff returned. */
  method NotJustAssertions(before: seq<Line>, after: seq<Line>, ops: seq<Opcode>) returns (r: Option<Refusal>)
    requires ValidScript(ops, before, after, 0, 0)
    ensures r.None? <==> Accepts(before, after, ops)
    ensures r == Some(EditsLines) <==> exists op <- ops :: op.tag == Replace || op.tag == Delete
    ensures r == Some(RawString) <==> OnlyInserts(ops) && exists line <- before :: RawQuote in line
    ensures r == Some(RedefinesAssertion) ==> RedefinesAssert(after)
    ensures r == Some(ChangesReading) ==>
              exists op <- ops :: op.tag == Equal && op.i1 <= op.i2 <= |before| && op.j1 <= op.j2 <= |after|
                && ScrubAll(before)[op.i1..op.i2] != ScrubAll(after)[op.j1..op.j2]
    ensures r == Some(AddsNothing) ==> !Adds(ops, ScrubAll(after))
  {
    ScriptInRange(ops, before, after, 0, 0);
    if !OnlyInserts(ops) { return Some(EditsLines); }
    if HasRawString(before) { return Some(RawString); }
    if RedefinesAssert(after) { return Some(RedefinesAssertion); }
    var refusal, added := CheckOpcodes(after, ops, ScrubAll(before), ScrubAll(after));
    if refusal != None { return refusal; }
    return if added == 0 then Some(AddsNothing) else None;
  }
}
