/**
  Length-prefixed framing over TCP: each payload travels as its length in decimal, a colon and
  the payload. The receiver is fed whatever chunks the network delivers.
 */
module Framing {
  import opened Bytes
  import opened Numerals

  const INT_LIMIT := 0x8000_0000

  /** The index of the first colon from i on, or the length. */
  function FirstColon(t: Text, i: nat): (n: nat)
    requires i <= |t|
    ensures i <= n <= |t| && (n < |t| ==> t[n] == COLON)
    decreases |t| - i
  {
    if i < |t| && t[i] != COLON then FirstColon(t, i + 1) else i
  }

  predicate IsDecimal(c: Byte) { 48 <= c < 58 }

  function DropSpaces(t: Text): Text
  {
    if t != [] && IsSpace(t[0]) then DropSpaces(t[1..]) else t
  }

  /** The longest prefix of decimal digits. */
  function LeadingDigits(t: Text): Text
  {
    if t != [] && IsDecimal(t[0]) then [t[0]] + LeadingDigits(t[1..]) else []
  }

  /** A conversion from long to int. */
  function ToInt(v: int): int
  {
    var m := v % (2 * INT_LIMIT);
    if m >= INT_LIMIT then m - 2 * INT_LIMIT else m
  }

  /** atoi, as a saturating strtol whose result is cut to an int. */
  function Atoi(t: Text): int
  {
    var u := DropSpaces(t);
    var negative := u != [] && u[0] == MINUS;
    var digits := LeadingDigits(if u != [] && (u[0] == MINUS || u[0] == 43) then u[1..] else u);
    var v := if negative then -Value(digits, 10) else Value(digits, 10);
    ToInt(if v >= LONG_LIMIT then LONG_LIMIT - 1 else if v < -LONG_LIMIT then -LONG_LIMIT else v)
  }

  predicate Spaces(t: Text) { forall i :: 0 <= i < |t| ==> t[i] == 32 || 9 <= t[i] <= 13 }

  predicate Decimals(t: Text) { forall i :: 0 <= i < |t| ==> 48 <= t[i] <= 57 }

  lemma {:induction false} SpacesDropped(blanks: Text, t: Text)
    requires Spaces(blanks) && (t != [] ==> !IsSpace(t[0]))
    ensures DropSpaces(blanks + t) == t
  {
    if blanks == [] {
      assert blanks + t == t;
    } else {
      assert (blanks + t)[1..] == blanks[1..] + t && (blanks + t)[0] == blanks[0];
      SpacesDropped(blanks[1..], t);
    }
  }

  lemma {:induction false} DigitsLead(digits: Text, rest: Text)
    requires Decimals(digits) && (rest != [] ==> !(48 <= rest[0] <= 57))
    ensures LeadingDigits(digits + rest) == digits
  {
    if digits == [] {
      assert digits + rest == rest;
    } else {
      assert (digits + rest)[1..] == digits[1..] + rest && (digits + rest)[0] == digits[0];
      DigitsLead(digits[1..], rest);
    }
  }

  /** The conversion keeps what fits, and the lowest 32 bits of anything. */
  lemma ToIntIs(v: int)
    ensures -0x8000_0000 <= ToInt(v) < 0x8000_0000 && (ToInt(v) - v) % 0x1_0000_0000 == 0
    ensures -0x8000_0000 <= v < 0x8000_0000 ==> ToInt(v) == v
    ensures ToInt(0x7FFF_FFFF_FFFF_FFFF) == -1 && ToInt(-0x8000_0000_0000_0000) == 0
  {
    var n := 0x1_0000_0000;
    assert v == n * (v / n) + v % n;
    assert ToInt(v) - v == n * -(v / n) || ToInt(v) - v == n * (-(v / n) - 1);
  }

  /** White space, a sign, and decimal digits up to something else. */
  predicate Shaped(blanks: Text, sign: Text, digits: Text, rest: Text)
  {
    && Spaces(blanks) && (sign == [] || sign == [43] || sign == [45]) && Decimals(digits)
    && (rest != [] ==> !(48 <= rest[0] <= 57))
    && (sign == digits == [] && rest != [] ==> !IsSpace(rest[0]) && rest[0] != 43 && rest[0] != 45)
  }

  /**
    What atoi sees: white space, a sign, and decimal digits up to something else; without digits it
    is zero. Within 32 bits it is the number, within 64 bits the number but for a multiple of 2^32,
    and beyond them the lowest bits of the nearest number of 64 bits.
   */
  lemma AtoiReads(blanks: Text, sign: Text, digits: Text, rest: Text)
    requires Shaped(blanks, sign, digits, rest)
    ensures var v := if sign == [45] then -Value(digits, 10) else Value(digits, 10);
            var n := Atoi(blanks + (sign + (digits + rest)));
            && -0x8000_0000 <= n < 0x8000_0000
            && (-0x8000_0000 <= v < 0x8000_0000 ==> n == v)
            && (-0x8000_0000_0000_0000 <= v < 0x8000_0000_0000_0000 ==> (n - v) % 0x1_0000_0000 == 0)
            && (v >= 0x8000_0000_0000_0000 ==> n == -1) && (v < -0x8000_0000_0000_0000 ==> n == 0)
  {
    hide ToInt, DropSpaces, LeadingDigits, Value;
    var u := sign + (digits + rest);
    SignInFront(sign, digits, rest);
    SpacesDropped(blanks, u);
    DigitsLead(digits, rest);
    var v := if sign == [45] then -Value(digits, 10) else Value(digits, 10);
    var w := if v >= LONG_LIMIT then LONG_LIMIT - 1 else if v < -LONG_LIMIT then -LONG_LIMIT else v;
    assert Atoi(blanks + u) == ToInt(w);
    ToIntIs(w);
  }

  lemma SignInFront(sign: Text, digits: Text, rest: Text)
    requires Shaped([], sign, digits, rest)
    ensures var u := sign + (digits + rest);
            && (u != [] ==> !IsSpace(u[0]))
            && (u != [] && (u[0] == 45 || u[0] == 43) <==> sign != [])
            && (u != [] && u[0] == 45 <==> sign == [45])
            && (if sign != [] then u[1..] else u) == digits + rest
  {
    var u := sign + (digits + rest);
    if sign != [] {
      assert u[1..] == digits + rest;
    } else {
      assert u == digits + rest;
    }
  }

  /** How many bytes to erase from the buffer, and the message found; nothing to do when erase is 0. */
  datatype Step = Step(erase: nat, data: Text)

  /** The text in front of the first colon, as far as c_str() shows it. */
  function Header(message: Text): Text { CString(message[..FirstColon(message, 0)]) }

  function Sub(t: Text, start: nat, count: nat): Text
    requires start <= |t|
  {
    if start + count <= |t| then t[start..start + count] else t[start..]
  }

  function ParseMessage(message: Text): (s: Step)
    ensures message == [] ==> s.erase == 0
  {
    var index := FirstColon(message, 0);
    if index < |message| then
      var lenStr := Header(message);
      var length := Atoi(lenStr);
      if length <= 0 then Step(|message|, [])
      else if length <= |message| - |lenStr| - 1 then Step(index + 1 + length, Sub(message, index + 1, length))
      else Step(0, [])
    else Step(0, [])
  }

  function Erased(buffer: Text, count: nat): Text
  {
    Sub(buffer, if count <= |buffer| then count else |buffer|, |buffer|)
  }

  lemma ErasedIs(buffer: Text, count: nat)
    ensures Erased(buffer, count) == if count <= |buffer| then buffer[count..] else []
  {
  }

  /** What the loop over a buffer leaves in it and hands on. */
  datatype Drained = Drained(rest: Text, messages: seq<Text>)

  /** Messages handed on already, and what draining further adds. */
  function Resume(done: seq<Text>, d: Drained): Drained { Drained(d.rest, done + d.messages) }

  lemma ResumeTwice(a: seq<Text>, b: seq<Text>, d: Drained)
    ensures Resume(a, Resume(b, d)) == Resume(a + b, d)
    ensures Resume([], d) == d
    ensures Resume(a, Drained(d.rest, [])) == Drained(d.rest, a)
  {
    assert a + (b + d.messages) == (a + b) + d.messages;
    assert [] + d.messages == d.messages;
    assert a + [] == a;
  }

  function Drain(buffer: Text): Drained
    decreases |buffer|
  {
    var s := ParseMessage(buffer);
    if s.erase == 0 then Drained(buffer, [])
    else
      ErasedIs(buffer, s.erase);
      var shorter := Erased(buffer, s.erase);
      if s.data == [] then Drained(shorter, [])
      else Resume([s.data], Drain(shorter))
  }

  lemma DrainOne(buffer: Text, done: seq<Text>)
    requires ParseMessage(buffer).erase > 0
    ensures var s := ParseMessage(buffer);
            var shorter := Erased(buffer, s.erase);
            && |shorter| < |buffer|
            && Resume(done, Drain(buffer)) ==
               if s.data == [] then Drained(shorter, done) else Resume(done + [s.data], Drain(shorter))
  {
    var s := ParseMessage(buffer);
    ErasedIs(buffer, s.erase);
    var shorter := Erased(buffer, s.erase);
    assert |shorter| < |buffer|;
    if s.data == [] {
      ResumeTwice(done, [], Drained(shorter, []));
    } else {
      ResumeTwice(done, [s.data], Drain(shorter));
    }
  }

  class TcpSessionWrapper {
    var buffer: Text
    /** The messages handed to processMessage so far. */
    var processed: seq<Text>

    constructor ()
      ensures buffer == [] && processed == []
    {
      buffer, processed := [], [];
    }

    /** A chunk has arrived. */
    method OnMessage(message: Text)
      modifies this
      ensures var d := Drain(old(buffer) + message);
              buffer == d.rest && processed == old(processed) + d.messages
    {
      buffer := buffer + message;
      ghost var before, goal := processed, Drain(buffer);
      ghost var done: seq<Text> := [];
      var step := ParseMessage(buffer);
      ResumeTwice([], [], goal);
      while step.erase > 0
        invariant step == ParseMessage(buffer)
        invariant processed == before + done
        invariant Resume(done, Drain(buffer)) == goal
        decreases |buffer|
      {
        DrainOne(buffer, done);
        buffer := Erased(buffer, step.erase);
        if step.data == [] {
          return;
        }
        ProcessMessage(step.data);
        done := done + [step.data];
        step := ParseMessage(buffer);
      }
    }

    method ProcessMessage(message: Text)
      modifies this`processed
      ensures processed == old(processed) + [message]
    {
      processed := processed + [message];
    }
  }

  /** Chunks one after the other, into a buffer that may hold the beginning of a frame. */
  function FeedAll(buffer: Text, chunks: seq<Text>): Drained
    decreases |chunks|
  {
    if chunks == [] then Drained(buffer, [])
    else
      var d := Drain(buffer + chunks[0]);
      Resume(d.messages, FeedAll(d.rest, chunks[1..]))
  }

  function Concat(chunks: seq<Text>): Text
  {
    if chunks == [] then [] else chunks[0] + Concat(chunks[1..])
  }

  // ---------------------------------------------------------------- any bytes

  /** No header yet, or a positive length whose body is incomplete. */
  predicate Waiting(buffer: Text)
  {
    var index := FirstColon(buffer, 0);
    index < |buffer| ==> Atoi(Header(buffer)) > |buffer| - |Header(buffer)| - 1 >= 0
  }

  /** Whatever arrives, between calls the buffer waits for more: no complete frame is left in it. */
  lemma {:induction false} DrainLeavesWaiting(buffer: Text)
    ensures Waiting(Drain(buffer).rest)
    ensures var rest := Drain(buffer).rest;
            FirstColon(rest, 0) < |rest| ==> FirstColon(rest, 0) + 1 + Atoi(Header(rest)) > |rest|
    decreases |buffer|
  {
    var s := ParseMessage(buffer);
    HeaderIsShort(buffer);
    if s.erase > 0 {
      ErasedIs(buffer, s.erase);
      if s.data != [] {
        DrainLeavesWaiting(Erased(buffer, s.erase));
      } else {
        assert Erased(buffer, s.erase) == [];
      }
    }
  }

  lemma HeaderIsShort(message: Text)
    ensures |Header(message)| <= FirstColon(message, 0)
  {
  }

  // ---------------------------------------------------------------- chunking

  /** The first header has no NUL and is positive. */
  predicate HeaderLegal(buffer: Text)
  {
    var index := FirstColon(buffer, 0);
    index < |buffer| ==> 0 !in buffer[..index] && Atoi(buffer[..index]) > 0
  }

  /** The length of the complete frame at the front, or 0. */
  function FrameLength(buffer: Text): (n: nat)
    ensures n <= |buffer|
  {
    var index := FirstColon(buffer, 0);
    if index < |buffer| && 0 < Atoi(buffer[..index]) <= |buffer| - index - 1 then index + 1 + Atoi(buffer[..index])
    else 0
  }

  /** What is left once the complete frames with legal headers are taken off. */
  function Leftover(stream: Text): Text
    decreases |stream|
  {
    if HeaderLegal(stream) && FrameLength(stream) > 0 then Leftover(stream[FrameLength(stream)..]) else stream
  }

  /** A header that is not a positive number. */
  predicate Illegal(buffer: Text) { FirstColon(buffer, 0) < |buffer| && Atoi(Header(buffer)) <= 0 }

  /** Wherever a cut starts in it, it starts with an illegal header. */
  predicate Swallowed(t: Text) { forall k :: 0 <= k < |t| ==> Illegal(t[k..]) }

  /** Behind the complete frames stands no header, or a legal one, or an illegal one that swallows what follows. */
  predicate Steady(stream: Text)
  {
    var u := Leftover(stream);
    HeaderLegal(u) || (Illegal(u) && Swallowed(u[FirstColon(u, 0) + 1..]))
  }

  /** With a legal header, parsing takes the complete frame at the front, if there is one. */
  lemma LegalStep(buffer: Text)
    requires HeaderLegal(buffer)
    ensures var n := FrameLength(buffer);
            && n <= |buffer|
            && ParseMessage(buffer).erase == n
            && (n > 0 ==> ParseMessage(buffer).data == buffer[FirstColon(buffer, 0) + 1..n] != [])
            && (n > 0 ==> Erased(buffer, n) == buffer[n..])
  {
    hide Header, Atoi, FirstColon, Erased;
    if FirstColon(buffer, 0) < |buffer| {
      LegalHeader(buffer);
      ErasedIs(buffer, FrameLength(buffer));
    }
  }

  /** A legal header is seen whole. */
  lemma LegalHeader(buffer: Text)
    requires HeaderLegal(buffer) && FirstColon(buffer, 0) < |buffer|
    ensures Header(buffer) == buffer[..FirstColon(buffer, 0)]
  {
    CStringWhole(buffer[..FirstColon(buffer, 0)]);
  }

  lemma {:induction false} FirstColonOfPrefix(t: Text, more: Text, i: nat)
    requires i <= |t|
    ensures FirstColon(t, i) < |t| ==> FirstColon(t + more, i) == FirstColon(t, i)
    ensures FirstColon(t, i) == |t| ==> FirstColon(t + more, i) >= |t|
    decreases |t| - i
  {
    if i < |t| && t[i] != COLON {
      FirstColonOfPrefix(t, more, i + 1);
    }
  }

  /** More bytes behind a header change neither the header nor a frame that is complete. */
  lemma MoreBytes(t: Text, more: Text)
    requires FirstColon(t, 0) < |t|
    ensures FirstColon(t + more, 0) == FirstColon(t, 0)
    ensures (t + more)[..FirstColon(t, 0)] == t[..FirstColon(t, 0)]
    ensures HeaderLegal(t + more) == HeaderLegal(t)
    ensures FrameLength(t) > 0 ==> FrameLength(t + more) == FrameLength(t)
  {
    FirstColonOfPrefix(t, more, 0);
  }

  lemma DrainFrame(buffer: Text)
    requires HeaderLegal(buffer)
    ensures var n := FrameLength(buffer);
            && n <= |buffer|
            && Drain(buffer) ==
               if n == 0 then Drained(buffer, [])
               else Resume([buffer[FirstColon(buffer, 0) + 1..n]], Drain(buffer[n..]))
  {
    LegalStep(buffer);
  }

  /** An illegal header clears everything. */
  lemma IllegalDrains(buffer: Text)
    requires Illegal(buffer)
    ensures Drain(buffer) == Drained([], [])
    ensures !HeaderLegal(buffer) && Leftover(buffer) == buffer
  {
    ErasedIs(buffer, |buffer|);
    CStringWhole(buffer[..FirstColon(buffer, 0)]);
  }

  lemma SwallowedDrains(t: Text)
    requires Swallowed(t)
    ensures Drain(t) == Drained([], []) && Steady(t)
  {
    if t != [] {
      assert t[0..] == t;
      IllegalDrains(t);
      SuffixSwallowed(t, FirstColon(t, 0) + 1);
    }
  }

  lemma SuffixSwallowed(t: Text, i: nat)
    requires Swallowed(t) && i <= |t|
    ensures Swallowed(t[i..])
  {
    forall k | 0 <= k < |t[i..]|
      ensures Illegal(t[i..][k..])
    {
      assert t[i..][k..] == t[i + k..];
    }
  }

  /** A steady stream may be cut anywhere: what the front yields comes first, and its rest joins the back. */
  lemma {:induction false} DrainSplits(t: Text, more: Text)
    requires Steady(t + more)
    ensures Steady(Drain(t).rest + more)
    ensures Drain(t + more) == Resume(Drain(t).messages, Drain(Drain(t).rest + more))
    decreases |t|, 1
  {
    if FirstColon(t, 0) == |t| {
      NothingYet(t, more);
    } else {
      MoreBytes(t, more);
      if !HeaderLegal(t) {
        IllegalSplits(t, more);
      } else if FrameLength(t) == 0 {
        NothingYet(t, more);
      } else {
        DrainSplitsFrame(t, more);
      }
    }
  }

  /** Nothing is taken from a front without a complete frame. */
  lemma NothingYet(t: Text, more: Text)
    requires HeaderLegal(t) && FrameLength(t) == 0
    ensures Drain(t) == Drained(t, [])
    ensures Drain(t + more) == Resume([], Drain(t + more))
  {
    DrainFrame(t);
    ResumeTwice([], [], Drain(t + more));
  }

  /** An illegal header in the front clears it, and what follows is swallowed too. */
  lemma IllegalSplits(t: Text, more: Text)
    requires FirstColon(t, 0) < |t| && !HeaderLegal(t + more) && Steady(t + more)
    ensures Steady(Drain(t).rest + more)
    ensures Drain(t + more) == Resume(Drain(t).messages, Drain(Drain(t).rest + more))
  {
    hide Drain, FirstColon, Swallowed, Illegal;
    IllegalInFront(t, more);
    IllegalDrains(t + more);
    IllegalDrains(t);
    var behind := (t + more)[FirstColon(t, 0) + 1..];
    var j := |t| - FirstColon(t, 0) - 1;
    SuffixSwallowed(behind, j);
    assert behind[j..] == more == [] + more;
    SwallowedDrains(more);
    ResumeTwice([], [], Drain(more));
  }

  lemma IllegalInFront(t: Text, more: Text)
    requires FirstColon(t, 0) < |t| && !HeaderLegal(t + more) && Steady(t + more)
    ensures Illegal(t) && Illegal(t + more) && FirstColon(t + more, 0) == FirstColon(t, 0)
    ensures Swallowed((t + more)[FirstColon(t, 0) + 1..])
  {
    hide Drain, Swallowed;
    MoreBytes(t, more);
  }

  lemma DrainTake(buffer: Text, n: nat, payload: Text, tail: Text)
    requires HeaderLegal(buffer) && 0 < n == FrameLength(buffer)
    requires n <= |buffer| && buffer[FirstColon(buffer, 0) + 1..n] == payload && buffer[n..] == tail
    ensures Drain(buffer) == Resume([payload], Drain(tail))
  {
    DrainFrame(buffer);
  }

  lemma SlicesOfFront(t: Text, more: Text, i: nat, n: nat)
    requires i <= n <= |t|
    ensures (t + more)[i..n] == t[i..n] && (t + more)[n..] == t[n..] + more
  {
  }

  /** A complete frame is taken off the same way when more bytes stand behind it. */
  lemma FrameGrows(t: Text, more: Text, n: nat, payload: Text, tail: Text)
    requires FirstColon(t, 0) < |t| && HeaderLegal(t + more)
    requires 0 < n == FrameLength(t) <= |t| && payload == t[FirstColon(t, 0) + 1..n] && tail == t[n..]
    ensures HeaderLegal(t) && FrameLength(t + more) == n
    ensures (t + more)[n..] == tail + more
    ensures Drain(t) == Resume([payload], Drain(tail))
    ensures Drain(t + more) == Resume([payload], Drain(tail + more))
  {
    MoreBytes(t, more);
    SlicesOfFront(t, more, FirstColon(t, 0) + 1, n);
    DrainTake(t, n, payload, tail);
    DrainTake(t + more, n, payload, tail + more);
  }

  lemma {:induction false} DrainSplitsFrame(t: Text, more: Text)
    requires FirstColon(t, 0) < |t| && HeaderLegal(t + more) && FrameLength(t) > 0
    requires Steady(t + more)
    ensures Steady(Drain(t).rest + more)
    ensures Drain(t + more) == Resume(Drain(t).messages, Drain(Drain(t).rest + more))
    decreases |t|, 0
  {
    var n := FrameLength(t);
    var payload, tail := t[FirstColon(t, 0) + 1..n], t[n..];
    FrameGrows(t, more, n, payload, tail);
    assert Leftover(t + more) == Leftover(tail + more);
    DrainSplits(tail, more);
    ResumeTwice([payload], Drain(tail).messages, Drain(Drain(tail).rest + more));
  }

  /** However a steady stream is cut into chunks, it yields the same messages and the same rest. */
  lemma {:induction false} ChunkingIndependence(buffer: Text, chunks: seq<Text>)
    requires chunks != [] && Steady(buffer + Concat(chunks))
    ensures FeedAll(buffer, chunks) == Drain(buffer + Concat(chunks))
    decreases |chunks|
  {
    var c, rest := chunks[0], chunks[1..];
    assert buffer + Concat(chunks) == (buffer + c) + Concat(rest);
    DrainSplits(buffer + c, Concat(rest));
    var d := Drain(buffer + c);
    if rest == [] {
      assert d.rest + Concat(rest) == d.rest;
      DrainTwice(buffer + c);
      ResumeTwice(d.messages, [], d);
    } else {
      ChunkingIndependence(d.rest, rest);
    }
  }

  /** A drained buffer yields nothing more. */
  lemma {:induction false} DrainTwice(buffer: Text)
    ensures Drain(Drain(buffer).rest) == Drained(Drain(buffer).rest, [])
    decreases |buffer|
  {
    var s := ParseMessage(buffer);
    if s.erase > 0 {
      ErasedIs(buffer, s.erase);
      HeaderIsShort(buffer);
      if s.data != [] {
        DrainTwice(Erased(buffer, s.erase));
      } else {
        assert Erased(buffer, s.erase) == [];
      }
    }
  }

  // ---------------------------------------------------------------- round trip

  /** What is sent for a payload. */
  function Frame(payload: Text): Text { Numeral(|payload|, 10) + ([COLON] + payload) }

  function Frames(payloads: seq<Text>): Text
  {
    if payloads == [] then [] else Frame(payloads[0]) + Frames(payloads[1..])
  }

  predicate Sendable(payload: Text) { 0 < |payload| < INT_LIMIT }

  /** The beginning of a frame, with its end still missing. */
  predicate Unfinished(rest: Text, payload: Text) { rest < Frame(payload) }

  lemma {:induction false} DigitsOfNumeral(t: Text)
    requires forall c :: c in t ==> IsDigit(c, 10)
    ensures LeadingDigits(t) == t
  {
    if t != [] {
      assert t[0] in t;
      DigitsOfNumeral(t[1..]);
      assert [t[0]] + t[1..] == t;
    }
  }

  /** The length that was printed is the length that is read. */
  lemma AtoiOfNumeral(n: nat)
    requires n < INT_LIMIT
    ensures Atoi(Numeral(n, 10)) == n
    ensures 0 !in Numeral(n, 10) && COLON !in Numeral(n, 10)
  {
    var t := Numeral(n, 10);
    NumeralRoundTrip(n, 10);
    assert t[0] in t;
    assert DropSpaces(t) == t;
    DigitsOfNumeral(t);
    assert LeadingDigits(t) == t;
    SmallMod(n, 2 * INT_LIMIT);
  }

  lemma {:induction false} ColonBehind(t: Text, more: Text, i: nat)
    requires i <= |t| && COLON !in t
    ensures FirstColon(t + more, i) == |t| + FirstColon(more, 0)
    decreases |t| - i
  {
    if i == |t| {
      ColonShift(t, more, 0);
    } else {
      assert (t + more)[i] == t[i];
      ColonBehind(t, more, i + 1);
    }
  }

  lemma {:induction false} ColonShift(t: Text, more: Text, i: nat)
    requires i <= |more|
    ensures FirstColon(t + more, |t| + i) == |t| + FirstColon(more, i)
    decreases |more| - i
  {
    if i < |more| && more[i] != COLON {
      assert (t + more)[|t| + i] == more[i];
      ColonShift(t, more, i + 1);
    }
  }

  /** A frame is taken off the front of whatever follows it. */
  lemma FrameIsTaken(payload: Text, more: Text)
    requires Sendable(payload)
    ensures var t := Frame(payload) + more;
            && HeaderLegal(t) && FrameLength(t) == |Frame(payload)|
            && t[FirstColon(t, 0) + 1..FrameLength(t)] == payload && t[FrameLength(t)..] == more
  {
    var h := Numeral(|payload|, 10);
    var t := Frame(payload) + more;
    AtoiOfNumeral(|payload|);
    assert t == h + ([COLON] + payload + more);
    ColonBehind(h, [COLON] + payload + more, 0);
    assert FirstColon([COLON] + payload + more, 0) == 0;
    assert t[..|h|] == h;
    assert t[|h| + 1..|h| + 1 + |payload|] == payload;
  }

  /** An unfinished frame waits, and its header, once it is there, is legal. */
  lemma UnfinishedWaits(rest: Text, payload: Text)
    requires Sendable(payload) && Unfinished(rest, payload)
    ensures Steady(rest) && Drain(rest) == Drained(rest, [])
  {
    var h := Numeral(|payload|, 10);
    var whole := Frame(payload);
    var missing := whole[|rest|..];
    assert whole == rest + missing;
    FrameIsTaken(payload, []);
    assert whole + [] == whole;
    AtoiOfNumeral(|payload|);
    ColonBehind(h, [COLON] + payload, 0);
    assert FirstColon([COLON] + payload, 0) == 0;
    FirstColonOfPrefix(rest, missing, 0);
    if FirstColon(rest, 0) < |rest| {
      MoreBytes(rest, missing);
      assert rest[..|h|] == whole[..|h|] == h;
    }
    LegalStep(rest);
  }

  lemma {:induction false} FramesDrain(payloads: seq<Text>, rest: Text, next: Text)
    requires forall p :: p in payloads ==> Sendable(p)
    requires Sendable(next) && Unfinished(rest, next)
    ensures Steady(Frames(payloads) + rest)
    ensures Drain(Frames(payloads) + rest) == Drained(rest, payloads)
    decreases |payloads|
  {
    hide Drain, Steady, Frame;
    if payloads == [] {
      assert [] + rest == rest;
      UnfinishedWaits(rest, next);
    } else {
      var more := Frames(payloads[1..]) + rest;
      FramesDrain(payloads[1..], rest, next);
      FrameThenMore(payloads[0], more, payloads[1..]);
      Associate(Frame(payloads[0]), Frames(payloads[1..]), rest);
      assert [payloads[0]] + payloads[1..] == payloads;
    }
  }

  lemma FrameThenMore(payload: Text, more: Text, others: seq<Text>)
    requires Sendable(payload) && Steady(more)
    requires Drain(more).messages == others
    ensures Steady(Frame(payload) + more)
    ensures Drain(Frame(payload) + more) == Drained(Drain(more).rest, [payload] + others)
  {
    FrameIsTaken(payload, more);
    DrainFrame(Frame(payload) + more);
  }

  /**
    For every list of payloads, whatever bytes they hold, and every way of cutting the stream of
    their frames into chunks, exactly those payloads are handed on, in order; and when the
    stream ends inside a further frame, exactly that beginning stays in the buffer.
   */
  lemma FramingRoundTrip(payloads: seq<Text>, rest: Text, next: Text, chunks: seq<Text>)
    requires forall p :: p in payloads ==> Sendable(p)
    requires Sendable(next) && Unfinished(rest, next)
    requires Concat(chunks) == Frames(payloads) + rest
    ensures FeedAll([], chunks) == Drained(rest, payloads)
  {
    if chunks == [] {
      assert payloads != [] ==> |Frames(payloads)| > 0;
    } else {
      FramesDrain(payloads, rest, next);
      assert [] + Concat(chunks) == Concat(chunks);
      ChunkingIndependence([], chunks);
    }
  }

  lemma {:induction false} NothingEmptyIsHandedOn(buffer: Text)
    ensures [] !in Drain(buffer).messages
    decreases |buffer|
  {
    var s := ParseMessage(buffer);
    ErasedIs(buffer, s.erase);
    if s.erase > 0 && s.data != [] {
      NothingEmptyIsHandedOn(Erased(buffer, s.erase));
    }
  }

  lemma {:induction false} NothingEmptyIsFed(buffer: Text, chunks: seq<Text>)
    ensures [] !in FeedAll(buffer, chunks).messages
    decreases |chunks|
  {
    if chunks != [] {
      var d := Drain(buffer + chunks[0]);
      NothingEmptyIsHandedOn(buffer + chunks[0]);
      NothingEmptyIsFed(d.rest, chunks[1..]);
    }
  }

  /** What was sent arrives, however it is cut, exactly when no payload is empty. */
  lemma FramingIsExact(payloads: seq<Text>, chunks: seq<Text>)
    requires forall p :: p in payloads ==> |p| < INT_LIMIT
    requires Concat(chunks) == Frames(payloads)
    ensures FeedAll([], chunks) == Drained([], payloads) <==> [] !in payloads
  {
    if [] in payloads {
      NothingEmptyIsFed([], chunks);
    } else {
      assert Sendable([0]);
      assert Frames(payloads) + [] == Frames(payloads);
      FramingRoundTrip(payloads, [], [0], chunks);
    }
  }

  // ---------------------------------------------------------------- exactly when the cutting does not matter

  /** Every cutting of a stream yields what the whole stream yields at once. */
  ghost predicate Independent(stream: Text)
  {
    forall chunks :: chunks != [] && Concat(chunks) == stream ==> FeedAll([], chunks) == Drain(stream)
  }

  /**
    The cutting of a stream does not matter if and only if the stream is steady: behind its
    complete frames there is nothing, or a header that is still legal, or an illegal header behind
    which every position starts another illegal header. NUL may stand in the payloads, and in all
    that follows a legal header; behind an illegal one there is none.
   */
  lemma CuttingIsExact(stream: Text)
    requires HeaderLegal(Leftover(stream)) || 0 !in Leftover(stream)
    ensures Independent(stream) <==> Steady(stream)
  {
    if Steady(stream) {
      forall chunks | chunks != [] && Concat(chunks) == stream
        ensures FeedAll([], chunks) == Drain(stream)
      {
        assert [] + Concat(chunks) == stream;
        ChunkingIndependence([], chunks);
      }
    } else {
      var chunks := CutThatMatters(stream);
    }
  }

  /** A cutting that shows that a stream is not steady. */
  lemma {:induction false} CutThatMatters(stream: Text) returns (chunks: seq<Text>)
    requires !Steady(stream) && 0 !in Leftover(stream)
    ensures chunks != [] && Concat(chunks) == stream && FeedAll([], chunks) != Drain(stream)
    decreases |stream|
  {
    hide Drain, FeedAll, Concat, FirstColon, Illegal, Atoi;
    if HeaderLegal(stream) && FrameLength(stream) > 0 {
      var n := FrameLength(stream);
      var tail := stream[n..];
      chunks := CutThatMatters(tail);
      FrameThenChunks(stream, tail, chunks);
      chunks := [stream[..n]] + chunks;
    } else {
      var m := NotAllSwallowed(stream);
      chunks := CutBehindIllegal(stream, m);
    }
  }

  /** Where a cut in an unsteady stream hits something else than an illegal header. */
  lemma NotAllSwallowed(stream: Text) returns (m: nat)
    requires !Steady(stream) && Leftover(stream) == stream && 0 !in stream
    ensures Illegal(stream) && FirstColon(stream, 0) < m < |stream| && !Illegal(stream[m..])
  {
    CStringWhole(stream[..FirstColon(stream, 0)]);
    var i := FirstColon(stream, 0) + 1;
    var t := stream[i..];
    var k :| 0 <= k < |t| && !Illegal(t[k..]);
    m := i + k;
    assert stream[m..] == t[k..];
  }

  /** A complete frame as a chunk of its own yields its payload, and then the other chunks are as if alone. */
  lemma FrameThenChunks(stream: Text, tail: Text, chunks: seq<Text>)
    requires HeaderLegal(stream) && FrameLength(stream) > 0 && tail == stream[FrameLength(stream)..]
    requires Concat(chunks) == tail && FeedAll([], chunks) != Drain(tail)
    ensures Concat([stream[..FrameLength(stream)]] + chunks) == stream
    ensures FeedAll([], [stream[..FrameLength(stream)]] + chunks) != Drain(stream)
  {
    hide Drain, FeedAll, Concat, Resume, FirstColon;
    var n := FrameLength(stream);
    var front := stream[..n];
    var payload := stream[FirstColon(stream, 0) + 1..n];
    FrameAlone(stream, front, payload);
    DrainTake(stream, n, payload, tail);
    assert front + tail == stream;
    OneMoreChunk(front, chunks);
    if Resume([payload], FeedAll([], chunks)) == Resume([payload], Drain(tail)) {
      ResumeCancels([payload], FeedAll([], chunks), Drain(tail));
    }
  }

  lemma OneMoreChunk(front: Text, chunks: seq<Text>)
    ensures Concat([front] + chunks) == front + Concat(chunks)
    ensures FeedAll([], [front] + chunks) == Resume(Drain(front).messages, FeedAll(Drain(front).rest, chunks))
  {
    var all := [front] + chunks;
    assert all[0] == front && all[1..] == chunks;
    assert [] + front == front;
  }

  lemma ResumeCancels(a: seq<Text>, d: Drained, e: Drained)
    requires Resume(a, d) == Resume(a, e)
    ensures d == e
  {
    assert d.messages == (a + d.messages)[|a|..];
    assert e.messages == (a + e.messages)[|a|..];
  }

  lemma FrameAlone(stream: Text, front: Text, payload: Text)
    requires HeaderLegal(stream) && 0 < FrameLength(stream) && front == stream[..FrameLength(stream)]
    requires payload == stream[FirstColon(stream, 0) + 1..FrameLength(stream)]
    ensures Drain(front) == Drained([], [payload])
  {
    var n := FrameLength(stream);
    FirstColonOfPrefix(front, stream[n..], 0);
    assert front + stream[n..] == stream;
    assert front[..FirstColon(stream, 0)] == stream[..FirstColon(stream, 0)];
    assert front[FirstColon(stream, 0) + 1..n] == payload;
    assert front[n..] == [];
    DrainTake(front, n, payload, []);
    assert Drain([]) == Drained([], []);
  }

  /** Cut in front of a header that is not illegal, or of bytes without a colon, those are not swallowed. */
  lemma CutBehindIllegal(stream: Text, m: nat) returns (chunks: seq<Text>)
    requires Illegal(stream) && 0 !in stream && FirstColon(stream, 0) < m < |stream|
    requires !Illegal(stream[m..])
    ensures chunks != [] && Concat(chunks) == stream && FeedAll([], chunks) != Drain(stream)
  {
    var x, y := stream[..m], stream[m..];
    chunks := [x, y];
    assert x + y == stream;
    FirstColonOfPrefix(x, y, 0);
    assert x[..FirstColon(stream, 0)] == stream[..FirstColon(stream, 0)];
    IllegalDrains(x);
    IllegalDrains(stream);
    FeedTwo(x, y);
    NotSwallowed(y);
    assert Concat([y]) == y + Concat([y][1..]) == y;
    assert chunks[1..] == [y];
  }

  lemma NotSwallowed(y: Text)
    requires y != [] && 0 !in y && !Illegal(y)
    ensures Drain(y) != Drained([], [])
  {
    CStringWhole(y[..FirstColon(y, 0)]);
    DrainFrame(y);
  }

  /**
    So the cutting of "x:" does not matter, nor that of a frame with an empty payload behind it,
    but that of an illegal header with a frame or with a byte behind it does.
   */
  lemma SmallStreams(m: Text)
    requires 0 !in m && m != [] && !Illegal(m)
    ensures Independent(Ascii("x:")) && Independent(Ascii("1:a0:"))
    ensures !Independent(Ascii("x:") + m)
  {
    var x := Ascii("x:");
    assert x == [120, 58];
    IllegalX([]);
    IllegalX(m);
    assert x + [] == x;
    assert (x + m)[2..] == m && m[0..] == m;
    assert !Swallowed(m);
    CuttingIsExact(x);
    CuttingIsExact(x + m);
    FrameThenEmpty();
  }

  lemma IllegalX(more: Text)
    ensures var t := [120, 58] + more;
            FirstColon(t, 0) == 1 && Illegal(t) && !HeaderLegal(t) && Leftover(t) == t
  {
    var t := [120, 58] + more;
    AtoiOfX();
    assert t[0] == 120 && t[1] == 58;
    assert t[..1] == [120];
    CStringWhole([120]);
    IllegalDrains(t);
  }

  lemma FrameThenEmpty()
    ensures Independent(Ascii("1:a0:"))
  {
    var t := [49, 58, 97, 48, 58];
    assert Ascii("1:a0:") == t;
    var z: Text := [48, 58];
    assert Numeral(1, 10) == [49];
    assert Frame([97]) + z == t;
    FrameIsTaken([97], z);
    assert Leftover(t) == Leftover(z);
    IllegalZero();
    CuttingIsExact(t);
  }

  lemma IllegalZero()
    ensures Illegal([48, 58]) && Leftover([48, 58]) == [48, 58] && FirstColon([48, 58], 0) == 1
  {
    var z: Text := [48, 58];
    assert FirstColon(z, 0) == 1 && z[..1] == [48];
    CStringWhole([48]);
    assert Numeral(0, 10) == [48];
    AtoiOfNumeral(0);
    IllegalDrains(z);
  }

  /** With a NUL in a positive header a frame is taken too early: the cutting of this stream matters. */
  lemma NulHeaderDependsOnChunks()
    ensures !Independent([49, 0, 58, 97])
  {
    hide Drain, FeedAll, Concat;
    var x, y: Text := [49, 0, 58], [97];
    assert x + y == [49, 0, 58, 97];
    NulHeader([]);
    NulHeader(y);
    assert x + [] == x;
    FeedTwo(x, y);
    assert FirstColon(y, 0) == 1;
    DrainFrame(y);
    ConcatTwo(x, y);
  }

  lemma ConcatTwo(x: Text, y: Text)
    ensures Concat([x, y]) == x + y
  {
    assert [x, y][1..] == [y];
    assert Concat([y][1..]) == [];
    assert y + [] == y;
  }

  lemma NulHeader(more: Text)
    requires |more| <= 1
    ensures Drain([49, 0, 58] + more) == Drained([], if more == [] then [] else [more])
  {
    hide ParseMessage, Erased, Drain;
    var t := [49, 0, 58] + more;
    NulParsed(t, more);
    DrainOne(t, []);
    EmptyDrains();
    ResumeTwice([], [], Drain(t));
    assert [] + [more] == [more];
    ResumeTwice([more], [], Drain([]));
  }

  lemma NulParsed(t: Text, more: Text)
    requires t == [49, 0, 58] + more && |more| <= 1
    ensures ParseMessage(t) == Step(4, more) && Erased(t, 4) == []
  {
    hide Atoi, Header, FirstColon;
    NulHeaderSeen(t);
    assert t[3..] == more;
    ErasedIs(t, 4);
  }

  lemma EmptyDrains()
    ensures Drain([]) == Drained([], [])
  {
  }

  lemma NulHeaderSeen(t: Text)
    requires |t| >= 3 && t[0] == 49 && t[1] == 0 && t[2] == 58
    ensures FirstColon(t, 0) == 2 && Header(t) == [49] && Atoi(Header(t)) == 1
  {
    assert FirstColon(t, 2) == FirstColon(t, 1) == FirstColon(t, 0) == 2;
    var h: Text := t[..2];
    assert h == [49, 0];
    assert FirstNul(h, 1) == FirstNul(h, 0) == 1;
    assert Header(t) == [49];
    assert Numeral(1, 10) == [49];
    AtoiOfNumeral(1);
  }

  lemma FeedTwo(x: Text, y: Text)
    requires Drain(x) == Drained([], [])
    ensures FeedAll([], [x, y]) == Drain(y)
  {
    FeedOne([], y);
    assert [] + x == x && [] + y == y;
    assert [x, y][1..] == [y];
    ResumeTwice([], [], FeedAll([], [y]));
  }

  lemma FeedOne(buffer: Text, chunk: Text)
    ensures FeedAll(buffer, [chunk]) == Drain(buffer + chunk)
    ensures buffer == [] ==> FeedAll(buffer, [chunk]) == Drain(chunk)
  {
    var d := Drain(buffer + chunk);
    assert |[chunk][1..]| == 0;
    ResumeTwice(d.messages, [], d);
    assert [] + chunk == chunk;
  }

  lemma AtoiOfX()
    ensures Atoi([120]) == 0
  {
    assert DropSpaces([120]) == [120];
    assert LeadingDigits([120]) == [];
  }
}
