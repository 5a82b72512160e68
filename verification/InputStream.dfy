/**
 * Encapsulations on the C++ input stream (cpp/include/Ice/InputStream.h).
 *
 * `InputStream` is the object with its linked list of `Encaps` nodes; its methods are shown to do what
 * the functions on `Cursor` values say.  The properties of whole runs are about those functions: the
 * cursor only moves forward and stays in the buffer, and encapsulations that are closed are nested,
 * although opening one is checked against the end of the buffer only.
 */
module EncapsulationReader {

  newtype byte = x: int | 0 <= x < 256

  datatype Encoding = Encoding(major: byte, minor: byte)

  const Encoding_1_0 := Encoding(1, 0)

  datatype Error = UnmarshalOutOfBounds | EncapsulationError | UnsupportedEncoding | OptionalsError

  /** A throw ends the run. */
  datatype Outcome<+T> = Ok(value: T) | Throw(error: Error) {
    predicate IsFailure() { Throw? }
    function PropagateFailure<U>(): Outcome<U>
      requires Throw?
    {
      Throw(error)
    }
    function Extract(): T
      requires Ok?
    {
      value
    }
  }

  /** An open encapsulation: where its header starts, its size with the header, and its encoding. */
  datatype Frame = Frame(start: nat, sz: int, encoding: Encoding) {
    function End(): int { start + sz }
  }

  datatype Cursor = Cursor(i: nat, stack: seq<Frame>)

  // ---------------------------------------------------------------- the operations on values

  /** The four bytes at i as a little-endian, signed 32-bit integer. */
  function IntAt(b: seq<byte>, i: nat): (n: int)
    requires i + 4 <= |b|
    ensures -0x8000_0000 <= n < 0x8000_0000
  {
    var u := b[i] as int + 0x100 * b[i + 1] as int + 0x1_0000 * b[i + 2] as int + 0x100_0000 * b[i + 3] as int;
    if u < 0x8000_0000 then u else u - 0x1_0000_0000
  }

  /** `read(Int)`: the value and the new position. */
  function ReadInt(b: seq<byte>, i: nat): Outcome<(int, nat)> {
    if |b| - i < 4 then Throw(UnmarshalOutOfBounds) else Ok((IntAt(b, i), i + 4))
  }

  /** `read(Byte)`. */
  function ReadByte(b: seq<byte>, i: nat): Outcome<(byte, nat)> {
    if i >= |b| then Throw(UnmarshalOutOfBounds) else Ok((b[i], i + 1))
  }

  function ReadEncoding(b: seq<byte>, i: nat): Outcome<(Encoding, nat)> {
    var (major, j) :- ReadByte(b, i);
    var (minor, k) :- ReadByte(b, j);
    Ok((Encoding(major, minor), k))
  }

  /** The header at position i. */
  function FrameAt(b: seq<byte>, i: nat): Frame
    requires i + 6 <= |b|
  {
    Frame(i, IntAt(b, i), Encoding(b[i + 4], b[i + 5]))
  }

  /** The header of an encapsulation: size, check against the buffer, encoding. */
  function ReadHeader(b: seq<byte>, i: nat, tooSmall: Error): (r: Outcome<(int, Encoding, nat)>)
    ensures r.Ok? ==>
              && i + 6 <= |b| && r.value.0 == IntAt(b, i) && 6 <= r.value.0 && i + r.value.0 <= |b|
              && r.value.1 == Encoding(b[i + 4], b[i + 5]) && r.value.2 == i + 6
  {
    var (sz, j) :- ReadInt(b, i);
    if sz < 6 then Throw(tooSmall)
    else if j - 4 + sz > |b| then Throw(UnmarshalOutOfBounds)
    else
      match ReadEncoding(b, j)
      case Throw(e) => Throw(e)
      case Ok(v) => Ok((sz, v.0, v.1))
  }

  function Start(b: seq<byte>, supported: Encoding -> bool, s: Cursor): Outcome<Cursor> {
    var (sz, encoding, j) :- ReadHeader(b, s.i, UnmarshalOutOfBounds);
    if !supported(encoding) then Throw(UnsupportedEncoding)
    else Ok(Cursor(j, s.stack + [Frame(s.i, sz, encoding)]))
  }

  /** `skipOptionals` is any forward move inside the buffer, or a failure. */
  predicate CanSkipTo(b: seq<byte>, i: nat, optionals: Outcome<nat>) {
    optionals.Ok? ==> i <= optionals.value <= |b|
  }

  function End(b: seq<byte>, s: Cursor, optionals: Outcome<nat>): Outcome<Cursor>
    requires s.stack != [] && CanSkipTo(b, s.i, optionals)
  {
    var top := s.stack[|s.stack| - 1];
    var rest := s.stack[..|s.stack| - 1];
    if top.encoding != Encoding_1_0 then
      var i :- optionals;
      if i != top.End() then Throw(EncapsulationError) else Ok(Cursor(i, rest))
    else if s.i != top.End() then
      if s.i + 1 != top.End() then Throw(EncapsulationError) else Ok(Cursor(s.i + 1, rest))
    else
      Ok(Cursor(s.i, rest))
  }

  /** `skipEmptyEncapsulation` finishes at the end that the header announces. */
  function SkipEmpty(b: seq<byte>, supported: Encoding -> bool, s: Cursor): (r: Outcome<(Encoding, Cursor)>)
    ensures r.Ok? ==>
              && s.i + 6 <= |b| && 6 <= FrameAt(b, s.i).sz
              && r.value == (FrameAt(b, s.i).encoding, s.(i := FrameAt(b, s.i).End()))
              && r.value.1.i <= |b| && (r.value.0 == Encoding_1_0 ==> FrameAt(b, s.i).sz == 6)
  {
    var (sz, encoding, j) :- ReadHeader(b, s.i, EncapsulationError);
    if !supported(encoding) then Throw(UnsupportedEncoding)
    else if encoding == Encoding_1_0 then
      if sz != 6 then Throw(EncapsulationError) else Ok((encoding, s.(i := j)))
    else Ok((encoding, s.(i := j + sz - 6)))
  }

  /** `readEncapsulation` succeeds on every encapsulation that fits, and finishes at its end. */
  function ReadEncaps(b: seq<byte>, s: Cursor): (r: Outcome<(Encoding, Cursor)>)
    ensures r.Ok? <==> s.i + 6 <= |b| && 6 <= IntAt(b, s.i) && FrameAt(b, s.i).End() <= |b|
    ensures r.Ok? ==> r.value == (FrameAt(b, s.i).encoding, s.(i := FrameAt(b, s.i).End()))
  {
    var (sz, encoding, j) :- ReadHeader(b, s.i, EncapsulationError);
    Ok((encoding, s.(i := j + sz - 6)))
  }

  /** `skip` and `readBlob`. */
  function Skip(b: seq<byte>, s: Cursor, size: nat): Outcome<Cursor> {
    if s.i + size > |b| then Throw(UnmarshalOutOfBounds) else Ok(s.(i := s.i + size))
  }

  // ---------------------------------------------------------------- runs

  datatype Event =
    | StartEv
    | EndEv(optionals: Outcome<nat>)
    | SkipEmptyEv
    | ReadEncapsEv
    | SkipEv(size: nat)
    | ReadIntEv
    | ReadByteEv

  /** `endEncapsulation` asserts that an encapsulation is open. */
  predicate Allowed(b: seq<byte>, s: Cursor, e: Event) {
    e.EndEv? ==> s.stack != [] && CanSkipTo(b, s.i, e.optionals)
  }

  function Apply(b: seq<byte>, supported: Encoding -> bool, s: Cursor, e: Event): Outcome<Cursor>
    requires Allowed(b, s, e)
  {
    match e
    case StartEv => Start(b, supported, s)
    case EndEv(optionals) => End(b, s, optionals)
    case SkipEmptyEv => var r :- SkipEmpty(b, supported, s); Ok(r.1)
    case ReadEncapsEv => var r :- ReadEncaps(b, s); Ok(r.1)
    case SkipEv(size) => Skip(b, s, size)
    case ReadIntEv => var r :- ReadInt(b, s.i); Ok(s.(i := r.1))
    case ReadByteEv => var r :- ReadByte(b, s.i); Ok(s.(i := r.1))
  }

  /** The cursor and the ends of all open encapsulations lie within the buffer. */
  ghost predicate InBuffer(b: seq<byte>, s: Cursor) {
    s.i <= |b| && forall k :: 0 <= k < |s.stack| ==> s.stack[k].End() <= |b|
  }

  /** A successful run: event j leads from state j to state j + 1. */
  ghost predicate IsRun(b: seq<byte>, supported: Encoding -> bool, states: seq<Cursor>, events: seq<Event>) {
    && |states| == |events| + 1
    && InBuffer(b, states[0])
    && forall j :: 0 <= j < |events| ==> Leads(b, supported, states[j], events[j], states[j + 1])
  }

  ghost predicate Leads(b: seq<byte>, supported: Encoding -> bool, s: Cursor, e: Event, s': Cursor) {
    Allowed(b, s, e) && Apply(b, supported, s, e) == Ok(s')
  }

  /** A step moves forward within the buffer, and changes the stack at its top only. */
  lemma StepMoves(b: seq<byte>, supported: Encoding -> bool, s: Cursor, e: Event, s': Cursor)
    requires Leads(b, supported, s, e, s') && InBuffer(b, s)
    ensures s.i <= s'.i && InBuffer(b, s')
    ensures if e.StartEv? then |s'.stack| == |s.stack| + 1 && s.stack == s'.stack[..|s.stack|]
            else if e.EndEv? then |s'.stack| + 1 == |s.stack| && s'.stack == s.stack[..|s'.stack|]
            else s'.stack == s.stack
  {
  }

  lemma {:induction false} CursorMoves(b: seq<byte>, supported: Encoding -> bool, states: seq<Cursor>,
                                       events: seq<Event>, j: nat, k: nat)
    requires IsRun(b, supported, states, events) && j <= k < |states|
    ensures states[j].i <= states[k].i && InBuffer(b, states[j]) && InBuffer(b, states[k])
    decreases k
  {
    if k > 0 {
      CursorMoves(b, supported, states, events, if j < k then j else j - 1, k - 1);
      StepMoves(b, supported, states[k - 1], events[k - 1], states[k]);
    }
  }

  /** Event k opens an encapsulation and event m closes that same one. */
  ghost predicate Matches(states: seq<Cursor>, events: seq<Event>, k: nat, m: nat) {
    && |states| == |events| + 1 && k < m < |events|
    && events[k].StartEv?
    && |states[m + 1].stack| == |states[k].stack|
    && forall j :: k < j <= m ==> |states[j].stack| > |states[k].stack|
  }

  /** The encapsulation opened by event k stays at its place in the stack as long as it is open. */
  lemma {:induction false} FrameStays(b: seq<byte>, supported: Encoding -> bool, states: seq<Cursor>,
                                      events: seq<Event>, k: nat, j: nat)
    requires IsRun(b, supported, states, events) && k < j < |states| && events[k].StartEv?
    requires forall i :: k < i <= j ==> |states[i].stack| > |states[k].stack|
    ensures states[k].i + 6 <= |b| && states[j].stack[|states[k].stack|] == FrameAt(b, states[k].i)
    ensures states[k + 1].i == states[k].i + 6
    decreases j
  {
    assert Leads(b, supported, states[k], events[k], states[k + 1]);
    if j > k + 1 {
      CursorMoves(b, supported, states, events, j - 1, j - 1);
      FrameStays(b, supported, states, events, k, j - 1);
      assert Leads(b, supported, states[j - 1], events[j - 1], states[j]);
      StepMoves(b, supported, states[j - 1], events[j - 1], states[j]);
    }
  }

  /** A closed encapsulation ends exactly where its header said, in both encodings. */
  lemma CloseEndsAtSize(b: seq<byte>, supported: Encoding -> bool, states: seq<Cursor>, events: seq<Event>,
                        k: nat, m: nat)
    requires IsRun(b, supported, states, events) && Matches(states, events, k, m)
    ensures states[k].i + 6 <= |b| && states[k + 1].i == states[k].i + 6
    ensures 6 <= IntAt(b, states[k].i) && states[m + 1].i == FrameAt(b, states[k].i).End()
    ensures states[m + 1].stack == states[k].stack
  {
    FrameStays(b, supported, states, events, k, m);
    assert Leads(b, supported, states[k], events[k], states[k + 1]);
    assert Leads(b, supported, states[m], events[m], states[m + 1]);
    CursorMoves(b, supported, states, events, m, m);
    StepMoves(b, supported, states[m], events[m], states[m + 1]);
    assert |states[m].stack| == |states[k].stack| + 1;
    StackBelow(b, supported, states, events, k, m);
  }

  /** What was on the stack when an encapsulation was opened is untouched while it is open. */
  lemma {:induction false} StackBelow(b: seq<byte>, supported: Encoding -> bool, states: seq<Cursor>,
                                      events: seq<Event>, k: nat, j: nat)
    requires IsRun(b, supported, states, events) && k < j < |states| && events[k].StartEv?
    requires forall i :: k < i <= j ==> |states[i].stack| > |states[k].stack|
    ensures states[j].stack[..|states[k].stack|] == states[k].stack
    decreases j
  {
    var n := |states[k].stack|;
    assert Leads(b, supported, states[j - 1], events[j - 1], states[j]);
    CursorMoves(b, supported, states, events, j - 1, j - 1);
    StepMoves(b, supported, states[j - 1], events[j - 1], states[j]);
    if j > k + 1 {
      StackBelow(b, supported, states, events, k, j - 1);
      assert states[j].stack[..n] == states[j - 1].stack[..n];
    }
  }

  /** Proper nesting: whatever is opened and closed while another encapsulation is open lies wholly
      inside that one's body. */
  lemma ClosedAreNested(b: seq<byte>, supported: Encoding -> bool, states: seq<Cursor>, events: seq<Event>,
                        outer: nat, outerEnd: nat, inner: nat, innerEnd: nat)
    requires IsRun(b, supported, states, events)
    requires Matches(states, events, outer, outerEnd) && Matches(states, events, inner, innerEnd)
    requires outer < inner && innerEnd < outerEnd
    ensures states[outer].i + 6 <= |b| && states[inner].i + 6 <= |b|
    ensures states[outer].i + 6 <= states[inner].i
    ensures FrameAt(b, states[inner].i).End() <= FrameAt(b, states[outer].i).End()
  {
    CloseEndsAtSize(b, supported, states, events, outer, outerEnd);
    CloseEndsAtSize(b, supported, states, events, inner, innerEnd);
    CursorMoves(b, supported, states, events, outer + 1, inner);
    CursorMoves(b, supported, states, events, innerEnd + 1, outerEnd + 1);
  }

  /** Encapsulations closed one after the other do not overlap. */
  lemma ClosedAreDisjoint(b: seq<byte>, supported: Encoding -> bool, states: seq<Cursor>, events: seq<Event>,
                          first: nat, firstEnd: nat, second: nat, secondEnd: nat)
    requires IsRun(b, supported, states, events)
    requires Matches(states, events, first, firstEnd) && Matches(states, events, second, secondEnd)
    requires firstEnd < second
    ensures states[first].i + 6 <= |b| && FrameAt(b, states[first].i).End() <= states[second].i
  {
    CloseEndsAtSize(b, supported, states, events, first, firstEnd);
    CursorMoves(b, supported, states, events, firstEnd + 1, second);
  }

  /** Every close in a run that started with nothing open has its opening. */
  lemma {:induction false} CloseHasOpen(b: seq<byte>, supported: Encoding -> bool, states: seq<Cursor>,
                                        events: seq<Event>, m: nat)
    requires IsRun(b, supported, states, events) && states[0].stack == []
    requires m < |events| && events[m].EndEv?
    ensures exists k :: Matches(states, events, k, m)
  {
    assert Leads(b, supported, states[m], events[m], states[m + 1]);
    var n := |states[m + 1].stack|;
    assert |states[m].stack| == n + 1;
    var k := m;
    while |states[k].stack| > n
      invariant 0 <= k <= m
      invariant forall j :: k < j <= m ==> |states[j].stack| > n
      decreases k
    {
      k := k - 1;
    }
    assert Leads(b, supported, states[k], events[k], states[k + 1]);
    CursorMoves(b, supported, states, events, k, k);
    StepMoves(b, supported, states[k], events[k], states[k + 1]);
    assert Matches(states, events, k, m);
  }

  /** Once the cursor is past the end of an open encapsulation, that one is never closed: every
      successful continuation keeps it open. */
  lemma {:induction false} OverrunIsNeverClosed(b: seq<byte>, supported: Encoding -> bool, states: seq<Cursor>,
                                                events: seq<Event>, d: nat, j: nat)
    requires IsRun(b, supported, states, events) && j < |states|
    requires d < |states[0].stack| && states[0].i > states[0].stack[d].End()
    ensures d < |states[j].stack| && states[j].stack[d] == states[0].stack[d]
    decreases j
  {
    if j > 0 {
      OverrunIsNeverClosed(b, supported, states, events, d, j - 1);
      CursorMoves(b, supported, states, events, 0, j - 1);
      assert Leads(b, supported, states[j - 1], events[j - 1], states[j]);
      StepMoves(b, supported, states[j - 1], events[j - 1], states[j]);
    }
  }

  /** Opening does not look at the enclosing encapsulation: here the second one starts at the end of the
      first, is opened and closed, and leaves the first overrun. */
  lemma OpeningIgnoresTheEnclosing()
    ensures var b: seq<byte> := [6, 0, 0, 0, 1, 0, 6, 0, 0, 0, 1, 0];
            var supported: Encoding -> bool := _ => true;
            var s1 := Start(b, supported, Cursor(0, []));
            s1.Ok? && var s2 := Start(b, supported, s1.value);
            s2.Ok? && var s3 := End(b, s2.value, Ok(12));
            s3.Ok? && s3.value.i > s3.value.stack[0].End()
  {
    var b: seq<byte> := [6, 0, 0, 0, 1, 0, 6, 0, 0, 0, 1, 0];
    assert IntAt(b, 0) == 6 && IntAt(b, 6) == 6;
  }

  // ---------------------------------------------------------------- when the operations succeed

  /** A header starts at i whose encapsulation ends within the buffer. */
  predicate Fits(b: seq<byte>, i: nat) {
    i + 6 <= |b| && 6 <= IntAt(b, i) && i + IntAt(b, i) <= |b|
  }

  /** Opening succeeds exactly on a header that fits and has a supported encoding; then the cursor is after
      the header, which is on the stack. */
  lemma StartIff(b: seq<byte>, supported: Encoding -> bool, s: Cursor)
    ensures var r := Start(b, supported, s);
            if Fits(b, s.i) && supported(Encoding(b[s.i + 4], b[s.i + 5]))
            then r == Ok(Cursor(s.i + 6, s.stack + [FrameAt(b, s.i)]))
            else r == Throw(if Fits(b, s.i) then UnsupportedEncoding else UnmarshalOutOfBounds)
  {
  }

  /** Closing succeeds exactly when, in encoding 1.0, the cursor is at the end or one byte before it, and in
      any other, `skipOptionals` succeeds and stops at the end. */
  lemma EndIff(b: seq<byte>, s: Cursor, optionals: Outcome<nat>)
    requires s.stack != [] && CanSkipTo(b, s.i, optionals)
    ensures var top := s.stack[|s.stack| - 1];
            var end := top.start + top.sz;
            var r := End(b, s, optionals);
            && (r.Ok? <==> if top.encoding == Encoding(1, 0) then s.i == end || s.i + 1 == end
                           else optionals == Ok(end))
            && (r.Ok? ==> r.value.i == end && r.value.stack == s.stack[..|s.stack| - 1])
            && (r.Throw? ==> r.error == if top.encoding != Encoding(1, 0) && optionals.Throw? then optionals.error
                                        else EncapsulationError)
  {
  }

  /** Skipping an empty encapsulation succeeds exactly on a header that fits and has a supported encoding, and
      size 6 in encoding 1.0. */
  lemma SkipEmptyIff(b: seq<byte>, supported: Encoding -> bool, s: Cursor)
    ensures var r := SkipEmpty(b, supported, s);
            && (r.Ok? <==> Fits(b, s.i) && supported(FrameAt(b, s.i).encoding)
                           && (FrameAt(b, s.i).encoding == Encoding(1, 0) ==> IntAt(b, s.i) == 6))
            && (r.Throw? ==> r.error == if s.i + 4 > |b| then UnmarshalOutOfBounds
                                        else if IntAt(b, s.i) < 6 then EncapsulationError
                                        else if !Fits(b, s.i) then UnmarshalOutOfBounds
                                        else if !supported(FrameAt(b, s.i).encoding) then UnsupportedEncoding
                                        else EncapsulationError)
  {
  }

  /** Reads succeed exactly when what they read is in the buffer, and move past it. */
  lemma ReadsIff(b: seq<byte>, i: nat, stack: seq<Frame>, size: nat)
    ensures ReadInt(b, i) == if i + 4 <= |b| then Ok((IntAt(b, i), i + 4)) else Throw(UnmarshalOutOfBounds)
    ensures ReadByte(b, i) == if i + 1 <= |b| then Ok((b[i], i + 1)) else Throw(UnmarshalOutOfBounds)
    ensures Skip(b, Cursor(i, stack), size)
         == if i + size <= |b| then Ok(Cursor(i + size, stack)) else Throw(UnmarshalOutOfBounds)
    ensures ReadEncaps(b, Cursor(i, stack)).Throw? ==>
              ReadEncaps(b, Cursor(i, stack)).error
              == if i + 4 <= |b| && IntAt(b, i) < 6 then EncapsulationError else UnmarshalOutOfBounds
  {
  }

  // ---------------------------------------------------------------- what is written can be read

  /** The four bytes of a 32-bit integer that is not negative, the least significant one first. */
  function LittleEndian(n: nat): (r: seq<byte>)
    requires n < 0x8000_0000
    ensures |r| == 4
  {
    [(n % 256) as byte, (n / 0x100 % 256) as byte, (n / 0x1_0000 % 256) as byte, (n / 0x100_0000) as byte]
  }

  lemma IntRoundTrip(before: seq<byte>, n: nat, after: seq<byte>)
    requires n < 0x8000_0000
    ensures IntAt(before + LittleEndian(n) + after, |before|) == n
  {
    var b := before + LittleEndian(n) + after;
    assert b[|before|..|before| + 4] == LittleEndian(n);
    assert b[|before|] == LittleEndian(n)[0] && b[|before| + 1] == LittleEndian(n)[1];
    assert b[|before| + 2] == LittleEndian(n)[2] && b[|before| + 3] == LittleEndian(n)[3];
    Digits(n);
  }

  lemma Digits(n: nat)
    ensures n == n % 256 + 0x100 * (n / 0x100 % 256) + 0x1_0000 * (n / 0x1_0000 % 256) + 0x100_0000 * (n / 0x100_0000)
  {
    assert n / 0x100 / 0x100 == n / 0x1_0000 && n / 0x1_0000 / 0x100 == n / 0x100_0000;
  }

  /** Data that is written: bytes and nested encapsulations. */
  datatype Piece = Raw(bytes: seq<byte>) | Encapsulated(encoding: Encoding, body: seq<Piece>)

  function Encode(ps: seq<Piece>): (r: seq<byte>)
    requires Writable(ps)
    ensures |r| == Length(ps)
  {
    if ps == [] then [] else EncodePiece(ps[0]) + Encode(ps[1..])
  }

  function EncodePiece(p: Piece): (r: seq<byte>)
    requires WritablePiece(p)
    ensures |r| == PieceLength(p)
  {
    match p
    case Raw(bytes) => bytes
    case Encapsulated(encoding, body) =>
      LittleEndian(6 + Length(body)) + [encoding.major, encoding.minor] + Encode(body)
  }

  function PieceLength(p: Piece): nat {
    match p
    case Raw(bytes) => |bytes|
    case Encapsulated(_, body) => 6 + Length(body)
  }

  function Length(ps: seq<Piece>): nat {
    if ps == [] then 0 else PieceLength(ps[0]) + Length(ps[1..])
  }

  /** Every size fits 32 bits. */
  predicate Writable(ps: seq<Piece>) {
    ps != [] ==> WritablePiece(ps[0]) && Writable(ps[1..])
  }

  predicate WritablePiece(p: Piece) {
    p.Encapsulated? ==> 6 + Length(p.body) < 0x8000_0000 && Writable(p.body)
  }

  predicate AllSupported(ps: seq<Piece>, supported: Encoding -> bool) {
    ps != [] ==> PieceSupported(ps[0], supported) && AllSupported(ps[1..], supported)
  }

  predicate PieceSupported(p: Piece, supported: Encoding -> bool) {
    p.Encapsulated? ==> supported(p.encoding) && AllSupported(p.body, supported)
  }

  /** The operations that read the pieces, which start at position i; no optionals are left at the end of an
      encapsulation. */
  function Reading(ps: seq<Piece>, i: nat): seq<Event> {
    if ps == [] then []
    else ReadingPiece(ps[0], i) + Reading(ps[1..], i + PieceLength(ps[0]))
  }

  function ReadingPiece(p: Piece, i: nat): seq<Event> {
    match p
    case Raw(bytes) => [SkipEv(|bytes|)]
    case Encapsulated(_, body) => [StartEv] + Reading(body, i + 6) + [EndEv(Ok(i + PieceLength(p)))]
  }

  /** The operations are a successful run from s to s'. */
  ghost predicate Reaches(b: seq<byte>, supported: Encoding -> bool, s: Cursor, es: seq<Event>, s': Cursor) {
    exists states :: IsRun(b, supported, states, es) && states[0] == s && states[|es|] == s'
  }

  lemma ReachesNone(b: seq<byte>, supported: Encoding -> bool, s: Cursor)
    requires InBuffer(b, s)
    ensures Reaches(b, supported, s, [], s)
  {
    var states := [s];
    assert IsRun(b, supported, states, []) && states[0] == s && states[0] == s;
  }

  lemma ReachesOne(b: seq<byte>, supported: Encoding -> bool, s: Cursor, e: Event, s': Cursor)
    requires InBuffer(b, s) && Leads(b, supported, s, e, s')
    ensures Reaches(b, supported, s, [e], s')
  {
    var states := [s, s'];
    assert IsRun(b, supported, states, [e]) && states[0] == s && states[|[e]|] == s';
  }

  lemma ReachesBoth(b: seq<byte>, supported: Encoding -> bool, s: Cursor, es: seq<Event>, s1: Cursor,
                    more: seq<Event>, s2: Cursor)
    requires Reaches(b, supported, s, es, s1) && Reaches(b, supported, s1, more, s2)
    ensures Reaches(b, supported, s, es + more, s2)
  {
    var xs :| IsRun(b, supported, xs, es) && xs[0] == s && xs[|es|] == s1;
    var ys :| IsRun(b, supported, ys, more) && ys[0] == s1 && ys[|more|] == s2;
    var states, all := xs + ys[1..], es + more;
    forall j | 0 <= j < |all| ensures Leads(b, supported, states[j], all[j], states[j + 1]) {
      if j < |es| {
        assert Leads(b, supported, xs[j], es[j], xs[j + 1]);
      } else {
        assert Leads(b, supported, ys[j - |es|], more[j - |es|], ys[j - |es| + 1]);
      }
    }
    assert IsRun(b, supported, states, all) && states[0] == s && states[|all|] == s2;
  }

  /** The text from i on starts with these bytes. */
  predicate StandsAt(b: seq<byte>, i: nat, bytes: seq<byte>) {
    i + |bytes| <= |b| && b[i..i + |bytes|] == bytes
  }

  lemma StandsSplit(b: seq<byte>, i: nat, x: seq<byte>, y: seq<byte>)
    requires StandsAt(b, i, x + y)
    ensures StandsAt(b, i, x) && StandsAt(b, i + |x|, y)
  {
    assert b[i..i + |x|] == b[i..i + |x + y|][..|x|];
    assert b[i + |x|..i + |x| + |y|] == b[i..i + |x + y|][|x|..];
  }

  /** Whatever was written as nested encapsulations, in any encodings, is read back: every operation
      succeeds, and the cursor ends after it with the stack as it was. */
  lemma {:induction false} WrittenIsRead(b: seq<byte>, supported: Encoding -> bool, i: nat, stack: seq<Frame>,
                                         ps: seq<Piece>)
    requires Writable(ps) && AllSupported(ps, supported) && StandsAt(b, i, Encode(ps))
    requires InBuffer(b, Cursor(i, stack))
    ensures Reaches(b, supported, Cursor(i, stack), Reading(ps, i), Cursor(i + Length(ps), stack))
    decreases ps, 1
  {
    if ps == [] {
      ReachesNone(b, supported, Cursor(i, stack));
    } else {
      var k := i + PieceLength(ps[0]);
      StandsSplit(b, i, EncodePiece(ps[0]), Encode(ps[1..]));
      PieceIsRead(b, supported, i, stack, ps[0]);
      WrittenIsRead(b, supported, k, stack, ps[1..]);
      ReachesBoth(b, supported, Cursor(i, stack), ReadingPiece(ps[0], i), Cursor(k, stack), Reading(ps[1..], k),
                  Cursor(i + Length(ps), stack));
    }
  }

  lemma HeaderStands(b: seq<byte>, i: nat, n: nat, encoding: Encoding)
    requires 6 <= n < 0x8000_0000 && StandsAt(b, i, LittleEndian(n) + [encoding.major, encoding.minor])
    ensures IntAt(b, i) == n && b[i + 4] == encoding.major && b[i + 5] == encoding.minor
  {
    var h := LittleEndian(n) + [encoding.major, encoding.minor];
    assert b == b[..i] + LittleEndian(n) + b[i + 4..] by {
      StandsSplit(b, i, LittleEndian(n), [encoding.major, encoding.minor]);
    }
    IntRoundTrip(b[..i], n, b[i + 4..]);
    assert b[i + 4] == b[i..i + 6][4] == h[4] && b[i + 5] == b[i..i + 6][5] == h[5];
  }

  /** A header that was written is opened, and the body starts after it. */
  lemma HeaderIsRead(b: seq<byte>, supported: Encoding -> bool, i: nat, stack: seq<Frame>, encoding: Encoding,
                     body: seq<Piece>)
    requires WritablePiece(Encapsulated(encoding, body)) && supported(encoding) && InBuffer(b, Cursor(i, stack))
    requires StandsAt(b, i, EncodePiece(Encapsulated(encoding, body)))
    ensures StandsAt(b, i + 6, Encode(body))
    ensures var s := Cursor(i + 6, stack + [Frame(i, 6 + Length(body), encoding)]);
            InBuffer(b, s) && Reaches(b, supported, Cursor(i, stack), [StartEv], s)
  {
    var n := 6 + Length(body);
    var h := LittleEndian(n) + [encoding.major, encoding.minor];
    assert EncodePiece(Encapsulated(encoding, body)) == h + Encode(body);
    StandsSplit(b, i, h, Encode(body));
    HeaderStands(b, i, n, encoding);
    StartIff(b, supported, Cursor(i, stack));
    ReachesOne(b, supported, Cursor(i, stack), StartEv, Cursor(i + 6, stack + [Frame(i, n, encoding)]));
  }

  /** At its end, an encapsulation is closed. */
  lemma EndIsRead(b: seq<byte>, supported: Encoding -> bool, stack: seq<Frame>, top: Frame)
    requires 0 <= top.End() <= |b| && InBuffer(b, Cursor(top.End(), stack + [top]))
    ensures Reaches(b, supported, Cursor(top.End(), stack + [top]), [EndEv(Ok(top.End()))], Cursor(top.End(), stack))
  {
    var s := Cursor(top.End(), stack + [top]);
    EndIff(b, s, Ok(top.End()));
    assert s.stack[..|stack|] == stack;
    ReachesOne(b, supported, s, EndEv(Ok(top.End())), Cursor(top.End(), stack));
  }

  lemma {:induction false} PieceIsRead(b: seq<byte>, supported: Encoding -> bool, i: nat, stack: seq<Frame>, p: Piece)
    requires WritablePiece(p) && PieceSupported(p, supported) && StandsAt(b, i, EncodePiece(p))
    requires InBuffer(b, Cursor(i, stack))
    ensures Reaches(b, supported, Cursor(i, stack), ReadingPiece(p, i), Cursor(i + PieceLength(p), stack))
    decreases p, 0
  {
    match p
    case Raw(bytes) => BytesAreRead(b, supported, i, stack, |bytes|);
    case Encapsulated(encoding, body) =>
      var top := Frame(i, 6 + Length(body), encoding);
      var all := stack + [top];
      HeaderIsRead(b, supported, i, stack, encoding, body);
      WrittenIsRead(b, supported, i + 6, all, body);
      assert Cursor(i + 6 + Length(body), all) == Cursor(top.End(), all);
      AroundBody(b, supported, stack, top, Reading(body, i + 6));
  }

  lemma BytesAreRead(b: seq<byte>, supported: Encoding -> bool, i: nat, stack: seq<Frame>, size: nat)
    requires i + size <= |b| && InBuffer(b, Cursor(i, stack))
    ensures Reaches(b, supported, Cursor(i, stack), [SkipEv(size)], Cursor(i + size, stack))
  {
    ReadsIff(b, i, stack, size);
    ReachesOne(b, supported, Cursor(i, stack), SkipEv(size), Cursor(i + size, stack));
  }

  /** The header, the operations on the body, and the end. */
  lemma AroundBody(b: seq<byte>, supported: Encoding -> bool, stack: seq<Frame>, top: Frame, body: seq<Event>)
    requires 0 <= top.End() && InBuffer(b, Cursor(top.start + 6, stack + [top]))
    requires var first, last := Cursor(top.start + 6, stack + [top]), Cursor(top.End(), stack + [top]);
             && Reaches(b, supported, Cursor(top.start, stack), [StartEv], first)
             && Reaches(b, supported, first, body, last)
    ensures Reaches(b, supported, Cursor(top.start, stack), [StartEv] + body + [EndEv(Ok(top.End()))],
                    Cursor(top.End(), stack))
  {
    var first, last := Cursor(top.start + 6, stack + [top]), Cursor(top.End(), stack + [top]);
    assert top == (stack + [top])[|stack|];
    EndIsRead(b, supported, stack, top);
    ReachesBoth(b, supported, Cursor(top.start, stack), [StartEv], first, body, last);
    ReachesBoth(b, supported, Cursor(top.start, stack), [StartEv] + body, last, [EndEv(Ok(top.End()))],
                Cursor(top.End(), stack));
  }

  // ---------------------------------------------------------------- the object

  class Encaps {
    var start: nat
    var sz: int
    var encoding: Encoding
    var previous: Encaps?

    constructor ()
      ensures start == 0 && previous == null
    {
      start := 0;
      sz := 0;
      encoding := Encoding_1_0;
      previous := null;
    }

    method Reset()
      modifies this`previous
      ensures previous == null
    {
      previous := null;
    }
  }

  class InputStream {
    const b: seq<byte>
    const supported: Encoding -> bool
    const preAllocatedEncaps: Encaps
    var i: nat
    var currentEncaps: Encaps?

    /** The list from the bottom to `currentEncaps`, and the nodes obtained with new and deleted. */
    ghost var stack: seq<Encaps>
    ghost var created: set<Encaps>
    ghost var deleted: set<Encaps>

    /** The list is acyclic with the preallocated node at the bottom and nowhere else; the other nodes on
        it are those created and not deleted. */
    ghost predicate Links()
      reads this, preAllocatedEncaps, stack
    {
      && (if stack == [] then currentEncaps == null
          else currentEncaps == stack[|stack| - 1] && stack[0] == preAllocatedEncaps)
      && preAllocatedEncaps.previous == null
      && (forall k :: 0 < k < |stack| ==> stack[k].previous == stack[k - 1])
      && (forall j, k :: 0 <= j < k < |stack| ==> stack[j] != stack[k])
      && preAllocatedEncaps !in created
      && (forall e :: e in deleted ==> e in created && e !in stack)
      && (forall e :: e in created && e !in deleted ==> e in stack)
      && (forall k :: 0 < k < |stack| ==> stack[k] in created)
    }

    ghost function State(): Cursor
      reads this, stack
    {
      Cursor(i, seq(|stack|, k requires 0 <= k < |stack| reads this, stack =>
        Frame(stack[k].start, stack[k].sz, stack[k].encoding)))
    }

    constructor (b: seq<byte>, supported: Encoding -> bool)
      ensures Links() && State() == Cursor(0, []) && created == {}
      ensures this.b == b && this.supported == supported
    {
      this.b := b;
      this.supported := supported;
      preAllocatedEncaps := new Encaps();
      i := 0;
      currentEncaps := null;
      stack, created, deleted := [], {}, {};
    }

    method ReadIntValue() returns (r: Outcome<int>)
      modifies this`i
      ensures match ReadInt(b, old(i))
              case Ok(v) => r == Ok(v.0) && i == v.1
              case Throw(e) => r == Throw(e) && i == old(i)
    {
      if |b| - i < 4 {
        return Throw(UnmarshalOutOfBounds);
      }
      var src := i;
      i := i + 4;
      return Ok(IntAt(b, src));
    }

    method ReadByteValue() returns (r: Outcome<byte>)
      modifies this`i
      ensures match ReadByte(b, old(i))
              case Ok(v) => r == Ok(v.0) && i == v.1
              case Throw(e) => r == Throw(e) && i == old(i)
    {
      if i >= |b| {
        return Throw(UnmarshalOutOfBounds);
      }
      r := Ok(b[i]);
      i := i + 1;
    }

    method ReadEncodingValue() returns (r: Outcome<Encoding>)
      modifies this`i
      ensures match ReadEncoding(b, old(i))
              case Ok(v) => r == Ok(v.0) && i == v.1
              case Throw(e) => r == Throw(e)
    {
      var major :- ReadByteValue();
      var minor :- ReadByteValue();
      return Ok(Encoding(major, minor));
    }

    /** Push of a node: the preallocated one at the bottom, a new one above. */
    method Push()
      requires Links()
      modifies this`currentEncaps, this`stack, this`created, preAllocatedEncaps`start
      ensures Links() && |stack| == |old(stack)| + 1 && stack[..|old(stack)|] == old(stack)
      ensures currentEncaps.start == i
      ensures old(stack) == [] ==> currentEncaps == preAllocatedEncaps
      ensures old(stack) != [] ==> fresh(currentEncaps) && preAllocatedEncaps.start == old(preAllocatedEncaps.start)
      ensures currentEncaps == stack[|old(stack)|]
    {
      var oldEncaps := currentEncaps;
      if oldEncaps == null {
        currentEncaps := preAllocatedEncaps;
        stack := [preAllocatedEncaps];
      } else {
        var e := new Encaps();
        currentEncaps := e;
        currentEncaps.previous := oldEncaps;
        created := created + {e};
        stack := stack + [e];
      }
      currentEncaps.start := i;
    }

    /** On a throw the new node stays on the list; the run is over. */
    method StartEncapsulation() returns (r: Outcome<Encoding>)
      requires Links()
      modifies this, preAllocatedEncaps
      ensures Links()
      ensures match Start(b, supported, old(State()))
              case Ok(s) => State() == s && r == Ok(s.stack[|s.stack| - 1].encoding)
              case Throw(e) => r == Throw(e)
    {
      ghost var s := State();
      Push();
      assert State().stack[..|s.stack|] == s.stack;
      r := ReadEncapsHeader();
    }

    /** The header of the node that was just pushed. */
    method ReadEncapsHeader() returns (r: Outcome<Encoding>)
      requires Links() && stack != [] && currentEncaps.start == i
      modifies this`i, currentEncaps`sz, currentEncaps`encoding
      ensures Links()
      ensures var below := Cursor(old(i), old(State()).stack[..|old(stack)| - 1]);
              match Start(b, supported, below)
              case Ok(s) => State() == s && r == Ok(s.stack[|s.stack| - 1].encoding)
              case Throw(e) => r == Throw(e)
    {
      var sz :- ReadIntValue();
      if sz < 6 {
        return Throw(UnmarshalOutOfBounds);
      }
      if i - 4 + sz > |b| {
        return Throw(UnmarshalOutOfBounds);
      }
      currentEncaps.sz := sz;
      var encoding := ReadEncodingValue();
      if encoding.Throw? {
        return encoding;
      }
      currentEncaps.encoding := encoding.value;
      if !supported(currentEncaps.encoding) {
        return Throw(UnsupportedEncoding);
      }
      return Ok(currentEncaps.encoding);
    }

    /** The pop at the end of `endEncapsulation`: the node is reset or deleted. */
    method Pop()
      requires Links() && stack != []
      modifies this`currentEncaps, this`stack, this`deleted, preAllocatedEncaps`previous
      ensures Links()
      ensures State() == Cursor(i, old(State()).stack[..|old(stack)| - 1])
    {
      var oldEncaps := currentEncaps;
      currentEncaps := currentEncaps.previous;
      stack := stack[..|stack| - 1];
      if oldEncaps == preAllocatedEncaps {
        oldEncaps.Reset();
      } else {
        assert oldEncaps in created && oldEncaps !in deleted;
        deleted := deleted + {oldEncaps};
      }
    }

    method EndEncapsulation(optionals: Outcome<nat>) returns (r: Outcome<()>)
      requires Links() && stack != [] && CanSkipTo(b, i, optionals)
      modifies this, preAllocatedEncaps
      ensures Links()
      ensures match End(b, old(State()), optionals)
              case Ok(s) => State() == s && r == Ok(())
              case Throw(e) => r == Throw(e)
    {
      ghost var s := State();
      assert s.stack[|s.stack| - 1] == Frame(currentEncaps.start, currentEncaps.sz, currentEncaps.encoding);
      if currentEncaps.encoding != Encoding_1_0 {
        if optionals.Throw? {
          return Throw(optionals.error);
        }
        i := optionals.value;
        if i != currentEncaps.start + currentEncaps.sz {
          return Throw(EncapsulationError);
        }
      } else if i != currentEncaps.start + currentEncaps.sz {
        if i + 1 != currentEncaps.start + currentEncaps.sz {
          return Throw(EncapsulationError);
        }
        i := i + 1;
      }
      assert State() == s.(i := i);
      Pop();
      return Ok(());
    }

    method SkipEmptyEncapsulation() returns (r: Outcome<Encoding>)
      requires Links()
      modifies this`i
      ensures Links()
      ensures match SkipEmpty(b, supported, old(State()))
              case Ok(v) => r == Ok(v.0) && State() == v.1
              case Throw(e) => r == Throw(e)
    {
      var sz :- ReadIntValue();
      if sz < 6 {
        return Throw(EncapsulationError);
      }
      if i - 4 + sz > |b| {
        return Throw(UnmarshalOutOfBounds);
      }
      var encoding := ReadEncodingValue();
      if encoding.Throw? {
        return encoding;
      }
      if !supported(encoding.value) {
        return Throw(UnsupportedEncoding);
      }
      if encoding.value == Encoding_1_0 {
        if sz != 4 + 2 {
          return Throw(EncapsulationError);
        }
      } else {
        i := i + (sz - 4 - 2);
      }
      return encoding;
    }

    /** Returns the start and size of the blob as well. */
    method ReadEncapsulation() returns (v: nat, sz: int, r: Outcome<Encoding>)
      requires Links()
      modifies this`i
      ensures Links() && v == old(i)
      ensures match ReadEncaps(b, old(State()))
              case Ok(w) => r == Ok(w.0) && State() == w.1 && v + sz == i
              case Throw(e) => r == Throw(e)
    {
      v := i;
      sz := 0;
      var n := ReadIntValue();
      if n.Throw? {
        return v, sz, Throw(n.error);
      }
      sz := n.value;
      if sz < 6 {
        return v, sz, Throw(EncapsulationError);
      }
      if i - 4 + sz > |b| {
        return v, sz, Throw(UnmarshalOutOfBounds);
      }
      var encoding := ReadEncodingValue();
      if encoding.Ok? {
        i := i + (sz - 4 - 2);
      }
      return v, sz, encoding;
    }

    /** `skip`. */
    method SkipBytes(size: nat) returns (r: Outcome<()>)
      requires Links()
      modifies this`i
      ensures Links()
      ensures match Skip(b, old(State()), size)
              case Ok(s) => State() == s && r == Ok(())
              case Throw(e) => r == Throw(e) && i == old(i)
    {
      if i + size > |b| {
        return Throw(UnmarshalOutOfBounds);
      }
      i := i + size;
      return Ok(());
    }

    /** `readBlob`: the position of the blob. */
    method ReadBlob(sz: nat) returns (v: nat, r: Outcome<()>)
      requires Links() && i <= |b|
      modifies this`i
      ensures Links() && v == old(i)
      ensures match Skip(b, old(State()), sz)
              case Ok(s) => State() == s && r == Ok(())
              case Throw(e) => r == Throw(e) && i == old(i)
    {
      v := i;
      if sz > 0 {
        if |b| - i < sz {
          return v, Throw(UnmarshalOutOfBounds);
        }
        i := i + sz;
      }
      return v, Ok(());
    }
  }
}
