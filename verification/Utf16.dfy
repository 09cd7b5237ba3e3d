/** The in-place conversion of a USB string descriptor from UTF-16LE to UTF-8. */
module Utf16 {
  import opened Wrappers

  type byte = x: int | 0 <= x < 256
  type unit = x: int | 0 <= x < 0x1_0000

  /** The bytes of one code unit; the shifts and masks of the source as division and remainder. */
  function Encode(u: unit): (r: seq<byte>)
    ensures 1 <= |r| <= 3
  {
    if u < 0x80 then [u]
    else if u < 0x800 then [0xC0 + u / 64 % 32, 0x80 + u % 64]
    else [0xE0 + u / 4096 % 16, 0x80 + u / 64 % 64, 0x80 + u % 64]
  }

  /** The encoding of the first `n` units. */
  function EncodeFirst(us: seq<unit>, n: nat): seq<byte>
    requires n <= |us|
  {
    if n == 0 then [] else EncodeFirst(us, n - 1) + Encode(us[n - 1])
  }

  function Word(low: byte, high: byte): unit { low as int + 256 * (high as int) }

  function UnitAt(b: seq<byte>, i: nat): unit
    requires 2 * i + 4 <= |b|
  {
    Word(b[2 * i + 2], b[2 * i + 3])
  }

  /** The `n` units after the descriptor's first word. */
  function Units(b: seq<byte>, n: nat): (r: seq<unit>)
    requires 2 * n + 2 <= |b|
    ensures |r| == n
  {
    seq(n, i requires 0 <= i < n => UnitAt(b, i))
  }

  /** The loop from unit `i` on with the write pointer at `w`; `None` is an access past the buffer's end. */
  function Run(b: seq<byte>, i: nat, n: nat, w: nat): (r: Option<(seq<byte>, nat)>)
    requires i <= n && w <= |b|
    ensures r.Some? ==> |r.value.0| == |b| && r.value.1 <= |b|
    decreases n - i
  {
    if i == n then Some((b, w))
    else if 2 * i + 4 > |b| then None
    else
      var e := Encode(UnitAt(b, i));
      if w + |e| > |b| then None else Run(b[..w] + e + b[w + |e|..], i + 1, n, w + |e|)
  }

  lemma CountStep(us: seq<unit>, i: nat, u: unit)
    requires i < |us| && us[i] == u
    ensures |EncodeFirst(us, i + 1)| == |EncodeFirst(us, i)| + if u < 0x80 then 1 else if u < 0x800 then 2 else 3
  {}

  // -------------------------------------------------------------- the code

  /** `_count_utf8_bytes` over the units of `buf + 1`. */
  method CountUtf8Bytes(buf: array<byte>, n: nat) returns (total: nat)
    requires 2 * n + 2 <= buf.Length
    ensures total == |EncodeFirst(Units(buf[..], n), n)|
  {
    total := 0;
    ghost var b := buf[..];
    ghost var us := Units(b, n);
    for i := 0 to n
      invariant total == |EncodeFirst(us, i)|
    {
      var chr := Word(buf[2 * i + 2], buf[2 * i + 3]);
      assert chr == UnitAt(b, i);
      CountStep(us, i, chr);
      if chr < 0x80 {
        total := total + 1;
      } else if chr < 0x800 {
        total := total + 2;
      } else {
        total := total + 3;
      }
    }
  }

  /** The body of the conversion loop, for a character that fits. */
  method Store(buf: array<byte>, w: nat, chr: unit) returns (next: nat)
    requires w + |Encode(chr)| <= buf.Length
    modifies buf
    ensures next == w + |Encode(chr)|
    ensures buf[..] == old(buf[..])[..w] + Encode(chr) + old(buf[..])[next..]
  {
    next := w;
    ghost var was, e := buf[..], Encode(chr);
    if chr < 0x80 {
      buf[next] := chr;
      next := next + 1;
      assert buf[..] == was[w := e[0]];
    } else if chr < 0x800 {
      buf[next] := 0xC0 + chr / 64 % 32;
      next := next + 1;
      buf[next] := 0x80 + chr % 64;
      next := next + 1;
      assert buf[..] == was[w := e[0]][w + 1 := e[1]];
    } else {
      buf[next] := 0xE0 + chr / 4096 % 16;
      next := next + 1;
      buf[next] := 0x80 + chr / 64 % 64;
      next := next + 1;
      buf[next] := 0x80 + chr % 64;
      next := next + 1;
      assert buf[..] == was[w := e[0]][w + 1 := e[1]][w + 2 := e[2]];
    }
    Written(was, w, e);
  }

  lemma Written(b: seq<byte>, w: nat, e: seq<byte>)
    requires 1 <= |e| <= 3 && w + |e| <= |b|
    ensures var one := b[w := e[0]];
      b[..w] + e + b[w + |e|..]
      == if |e| == 1 then one else if |e| == 2 then one[w + 1 := e[1]] else one[w + 1 := e[1]][w + 2 := e[2]]
  {
  }

  lemma RunTurn(b: seq<byte>, i: nat, n: nat, w: nat, c: seq<byte>)
    requires i < n && 2 * i + 4 <= |b|
    requires var e := Encode(UnitAt(b, i)); w + |e| <= |b| && c == b[..w] + e + b[w + |e|..]
    ensures |c| == |b| && Run(b, i, n, w) == Run(c, i + 1, n, w + |Encode(UnitAt(b, i))|)
  {}

  /** `_convert_utf16le_to_utf8` from `buf + 1` into `buf`: `ok` is that no access leaves the buffer. */
  method ConvertInPlace(buf: array<byte>, n: nat) returns (ok: bool, w: nat)
    modifies buf
    ensures ok <==> Run(old(buf[..]), 0, n, 0).Some?
    ensures ok ==> Run(old(buf[..]), 0, n, 0) == Some((buf[..], w))
  {
    w := 0;
    var i := 0;
    ghost var b := buf[..];
    while i < n
      invariant i <= n && w <= buf.Length && Run(buf[..], i, n, w) == Run(b, 0, n, 0)
    {
      if 2 * i + 4 > buf.Length { return false, w; }
      var chr := Word(buf[2 * i + 2], buf[2 * i + 3]);
      assert chr == UnitAt(buf[..], i);
      if w + |Encode(chr)| > buf.Length { return false, w; }
      ghost var before, at := buf[..], w;
      w := Store(buf, w, chr);
      RunTurn(before, i, n, at, buf[..]);
      i := i + 1;
    }
    ok := true;
  }

  // ------------------------------------------------ when it may be done in place

  /** What is written before unit `i` is read does not reach it. */
  ghost predicate NeverOvertakes(us: seq<unit>) {
    forall i :: 0 < i < |us| ==> |EncodeFirst(us, i)| <= 2 * i + 2
  }

  /** One turn, reading unit `i` where it still is what `b` had. */
  lemma OneTurn(b: seq<byte>, c: seq<byte>, n: nat, i: nat, done: seq<byte>)
    requires i < n && 2 * n + 2 <= |b| && |done| <= 2 * i + 2 && c == done + b[|done|..]
    ensures var e := Encode(UnitAt(b, i));
            Run(c, i, n, |done|) == if |done + e| > |b| then None
                                    else Run(done + e + b[|done + e|..], i + 1, n, |done + e|)
  {
    var e := Encode(UnitAt(b, i));
    SameUnit(b, c, i);
    if |done + e| <= |b| {
      Stored(b, c, done, e);
      RunTurn(c, i, n, |done|, done + e + b[|done + e|..]);
    } else {
      RunStops(c, i, n, |done|);
    }
  }

  lemma SameUnit(b: seq<byte>, c: seq<byte>, i: nat)
    requires 2 * i + 4 <= |b| == |c| && b[2 * i + 2] == c[2 * i + 2] && b[2 * i + 3] == c[2 * i + 3]
    ensures UnitAt(b, i) == UnitAt(c, i)
  {
  }

  lemma RunStops(b: seq<byte>, i: nat, n: nat, w: nat)
    requires i < n && 2 * i + 4 <= |b| && w <= |b| && w + |Encode(UnitAt(b, i))| > |b|
    ensures Run(b, i, n, w) == None
  {
  }

  lemma Stored(b: seq<byte>, c: seq<byte>, done: seq<byte>, e: seq<byte>)
    requires |done + e| <= |b| && c == done + b[|done|..]
    ensures c[..|done|] + e + c[|done| + |e|..] == done + e + b[|done + e|..]
  {
  }

  lemma {:induction false} RunIsEncode(b: seq<byte>, n: nat, i: nat)
    requires 2 * n + 2 <= |b| && i <= n && NeverOvertakes(Units(b, n))
    requires |EncodeFirst(Units(b, n), i)| <= |b|
    ensures var e, done := EncodeFirst(Units(b, n), n), EncodeFirst(Units(b, n), i);
            Run(done + b[|done|..], i, n, |done|) == if |e| <= |b| then Some((e + b[|e|..], |e|)) else None
    decreases n - i
  {
    var us := Units(b, n);
    var done := EncodeFirst(us, i);
    if i < n {
      assert i > 0 ==> |done| <= 2 * i + 2;
      OneTurn(b, done + b[|done|..], n, i, done);
      assert done + Encode(us[i]) == EncodeFirst(us, i + 1);
      if |EncodeFirst(us, i + 1)| <= |b| {
        RunIsEncode(b, n, i + 1);
      } else {
        EncodeGrows(us, i + 1, n);
      }
    }
  }

  lemma {:induction false} EncodeGrows(us: seq<unit>, i: nat, n: nat)
    requires i <= n <= |us|
    ensures |EncodeFirst(us, i)| <= |EncodeFirst(us, n)|
    decreases n
  {
    if i < n { EncodeGrows(us, i, n - 1); }
  }

  /** In place, where reading stays ahead of writing, the loop stores exactly what it would store elsewhere:
      the encoding of the units the buffer held, as many bytes as were counted, if they fit. */
  lemma InPlaceIsOutOfPlace(b: seq<byte>, n: nat)
    requires 2 * n + 2 <= |b| && NeverOvertakes(Units(b, n))
    ensures var e := EncodeFirst(Units(b, n), n);
            Run(b, 0, n, 0) == if |e| <= |b| then Some((e + b[|e|..], |e|)) else None
  {
    assert b == [] + b[0..];
    RunIsEncode(b, n, 0);
  }

  function Wide(us: seq<unit>, n: nat): nat
    requires n <= |us|
  {
    if n == 0 then 0 else Wide(us, n - 1) + if us[n - 1] >= 0x800 then 1 else 0
  }

  function Narrow(us: seq<unit>, n: nat): nat
    requires n <= |us|
  {
    if n == 0 then 0 else Narrow(us, n - 1) + if us[n - 1] < 0x80 then 1 else 0
  }

  lemma {:induction false} EncodedLength(us: seq<unit>, n: nat)
    requires n <= |us|
    ensures |EncodeFirst(us, n)| == 2 * n + Wide(us, n) - Narrow(us, n)
  {
    if n > 0 { EncodedLength(us, n - 1); }
  }

  /** Exactly when no proper prefix has three units of three bytes more than it has of one. */
  lemma NeverOvertakesIff(us: seq<unit>)
    ensures NeverOvertakes(us) <==> forall i :: 0 < i < |us| ==> Wide(us, i) <= Narrow(us, i) + 2
  {
    if NeverOvertakes(us) {
      forall i | 0 < i < |us| ensures Wide(us, i) <= Narrow(us, i) + 2 { EncodedLength(us, i); }
    } else {
      var i :| 0 < i < |us| && |EncodeFirst(us, i)| > 2 * i + 2;
      EncodedLength(us, i);
      assert Wide(us, i) > Narrow(us, i) + 2;
    }
  }

  lemma WideTurn(b: seq<byte>, i: nat, n: nat, w: nat, e: seq<byte>) returns (c: seq<byte>)
    requires i < n && 2 * i + 4 <= |b| && e == Encode(UnitAt(b, i)) && |e| == 3 && w + 3 <= |b|
    ensures |c| == |b| && Run(b, i, n, w) == Run(c, i + 1, n, w + 3)
    ensures c[w] == e[0] && c[w + 1] == e[1] && c[w + 2] == e[2]
    ensures forall k :: w + 3 <= k < |b| ==> c[k] == b[k]
  {
    c := b[..w] + e + b[w + 3..];
  }

  /** A fourth unit of U+0800: the third character's last byte has replaced its low byte. */
  lemma FourWideUnitsCorrupt(b: seq<byte>, n: nat)
    requires n == 4 && |b| >= 12 && forall i :: 0 <= i < 4 ==> UnitAt(b, i) == 0x800
    ensures |EncodeFirst(Units(b, n), n)| == 12 && EncodeFirst(Units(b, n), n)[10] == 0xA0
    ensures Run(b, 0, n, 0).Some? && Run(b, 0, n, 0).value.0[10] == 0xA2
  {
    var e := [0xE0, 0xA0, 0x80];
    assert Encode(0x800) == e;
    FourRun(b, n, e);
    FourEncoded(b, e, n);
    assert (e + e + e + e)[10] == 0xA0;
  }

  /** In place, the last byte of the third character is what the fourth unit is then read from. */
  lemma FourRun(b: seq<byte>, n: nat, e: seq<byte>)
    requires n == 4 && |b| >= 12 && (forall i :: 0 <= i < 4 ==> UnitAt(b, i) == 0x800) && e == Encode(0x800) && e[2] == 0x80
    ensures Run(b, 0, n, 0).Some? && Run(b, 0, n, 0).value.0[10] == 0xA2
  {
    assert UnitAt(b, 0) == UnitAt(b, 1) == UnitAt(b, 2) == UnitAt(b, 3) == 0x800;
    var b1 := WideTurn(b, 0, n, 0, e);
    SameUnit(b, b1, 1);
    var b2 := WideTurn(b1, 1, n, 3, e);
    SameUnit(b, b2, 2);
    var b3 := WideTurn(b2, 2, n, 6, e);
    LastTurn(b, b3, n);
  }

  lemma LastTurn(b: seq<byte>, b3: seq<byte>, n: nat)
    requires n == 4 && |b| == |b3| >= 12 && UnitAt(b, 3) == 0x800 && b3[8] == 0x80 && b3[9] == b[9]
    ensures Run(b3, 3, n, 9).Some? && Run(b3, 3, n, 9).value.0[10] == 0xA2
  {
    assert Encode(0x880) == [0xE0, 0xA2, 0x80];
    assert UnitAt(b3, 3) == 0x880;
    var b4 := WideTurn(b3, 3, n, 9, [0xE0, 0xA2, 0x80]);
    assert Run(b4, n, n, 12) == Some((b4, 12));
  }

  lemma FourEncoded(b: seq<byte>, e: seq<byte>, n: nat)
    requires n == 4 && |b| >= 12 && forall i :: 0 <= i < 4 ==> UnitAt(b, i) == 0x800
    requires e == Encode(0x800) && |e| == 3
    ensures EncodeFirst(Units(b, n), n) == e + e + e + e
  {
    var us := Units(b, n);
    assert us[0] == us[1] == us[2] == us[3] == 0x800;
    assert EncodeFirst(us, n - 4) == [];
    assert EncodeFirst(us, n - 3) == e;
    assert EncodeFirst(us, n - 2) == e + e;
    assert EncodeFirst(us, n - 1) == e + e + e;
  }

  // ------------------------------------------------------------ print_utf16

  /** `utf16_len`: the subtraction is in `int`, the division in a 64-bit `size_t`. */
  function UnitCount(bLength: byte): nat { (bLength - 2) % 0x1_0000_0000_0000_0000 / 2 }

  /** `print_utf16`: `ok` is that no access leaves the buffer; `text` is what the terminator ends. */
  method PrintUtf16(buf: array<byte>) returns (ok: bool, text: seq<byte>)
    requires buf.Length >= 2
    modifies buf
    ensures buf.Length == 256 && old(buf[0]) >= 2 && NeverOvertakes(Units(old(buf[..]), UnitCount(old(buf[0])))) ==>
              var e := EncodeFirst(Units(old(buf[..]), UnitCount(old(buf[0]))), UnitCount(old(buf[0])));
              (ok <==> |e| < 256) && (ok ==> text == e && buf[..|e|] == e && buf[|e|] == 0)
    ensures buf.Length == 256 && old(buf[0]) == 1 ==> !ok
    ensures old(buf[0]) == 0 ==> ok && buf[..] == old(buf[..])
  {
    text := [];
    if buf[0] == 0 { return true, []; }
    var n := UnitCount(buf[0]);
    ghost var b := buf[..];
    if 2 * n + 2 > buf.Length { return false, []; }
    var total := CountUtf8Bytes(buf, n);
    if NeverOvertakes(Units(b, n)) { InPlaceIsOutOfPlace(b, n); }
    var w;
    ok, w := ConvertInPlace(buf, n);
    if !ok || total >= buf.Length { return false, []; }
    buf[total] := 0;
    text := buf[..total];
  }

  // ---------------------------------------------------------- read back

  predicate Surrogate(u: unit) { 0xD800 <= u < 0xE000 }

  predicate Tail(b: byte) { 0x80 <= b < 0xC0 }

  /** The first character by section 4 of RFC 3629, up to three bytes, and how long it is. */
  function DecodeOne(s: seq<byte>): (r: Option<(unit, nat)>)
    ensures r.Some? ==> 1 <= r.value.1 <= |s|
  {
    if s == [] then None
    else if s[0] < 0x80 then Some((s[0], 1))
    else if 0xC2 <= s[0] < 0xE0 && |s| >= 2 && Tail(s[1]) then Some(((s[0] as int - 0xC0) * 64 + (s[1] as int - 0x80), 2))
    else if 0xE0 <= s[0] < 0xF0 && |s| >= 3 && Tail(s[1]) && Tail(s[2]) && (s[0] == 0xE0 ==> s[1] >= 0xA0)
            && (s[0] == 0xED ==> s[1] < 0xA0)
    then Some(((s[0] as int - 0xE0) * 4096 + (s[1] as int - 0x80) * 64 + (s[2] as int - 0x80), 3))
    else None
  }

  function Decode(s: seq<byte>): Option<seq<unit>> {
    if s == [] then Some([])
    else match DecodeOne(s)
      case None => None
      case Some((u, n)) => match Decode(s[n..]) case None => None case Some(us) => Some([u] + us)
  }

  lemma ThreeBytes(u: unit)
    requires u >= 0x800
    ensures u / 4096 < 16 && u == u / 4096 * 4096 + u / 64 % 64 * 64 + u % 64
    ensures u / 4096 == 0 ==> u / 64 % 64 >= 32
    ensures Surrogate(u) <==> u / 4096 == 13 && u / 64 % 64 >= 32
  {
    assert u / 64 / 64 == u / 4096;
  }

  lemma OneDecodes(u: unit, rest: seq<byte>)
    ensures DecodeOne(Encode(u) + rest) == if Surrogate(u) then None else Some((u, |Encode(u)|))
    ensures (Encode(u) + rest)[|Encode(u)|..] == rest
  {
    if u < 0x800 { ShortDecodes(u, rest); } else { LongDecodes(u, rest); }
  }

  lemma ShortDecodes(u: unit, rest: seq<byte>)
    requires u < 0x800
    ensures DecodeOne(Encode(u) + rest) == Some((u, |Encode(u)|))
  {
  }

  lemma LongDecodes(u: unit, rest: seq<byte>)
    requires u >= 0x800
    ensures DecodeOne(Encode(u) + rest) == if Surrogate(u) then None else Some((u, |Encode(u)|))
  {
    ThreeBytes(u);
  }

  function EncodeAll(us: seq<unit>): seq<byte> { if us == [] then [] else Encode(us[0]) + EncodeAll(us[1..]) }

  lemma {:induction false} EncodeFirstIs(us: seq<unit>, n: nat)
    requires n <= |us|
    ensures EncodeFirst(us, n) + EncodeAll(us[n..]) == EncodeAll(us)
  {
    if n == 0 {
      assert us[0..] == us;
    } else {
      EncodeFirstIs(us, n - 1);
      assert us[n - 1..][1..] == us[n..];
    }
  }

  lemma {:induction false} DecodesIff(us: seq<unit>)
    ensures Decode(EncodeAll(us)) == if exists k :: 0 <= k < |us| && Surrogate(us[k]) then None else Some(us)
  {
    if us != [] {
      DecodesIff(us[1..]);
      OneDecodes(us[0], EncodeAll(us[1..]));
      if k :| 0 <= k < |us| && Surrogate(us[k]) && k > 0 { assert Surrogate(us[1..][k - 1]); }
      assert us == [us[0]] + us[1..];
    }
  }

  /** What is written reads back as the units exactly when none of them is a surrogate. */
  lemma RoundTripIff(us: seq<unit>)
    ensures Decode(EncodeFirst(us, |us|)) == Some(us) <==> forall k :: 0 <= k < |us| ==> !Surrogate(us[k])
  {
    EncodeFirstIs(us, |us|);
    assert EncodeFirst(us, |us|) + [] == EncodeFirst(us, |us|);
    DecodesIff(us);
  }
}
