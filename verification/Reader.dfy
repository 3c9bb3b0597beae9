/** Reading integers and compressed names out of a packet. */
module Reader {
  import opened Bytes
  import opened Texts
  import opened Names
  import opened VosBuffer

  // Reads past the end of the packet log an error and yield all ones.

  function Read8(p: Text, i: nat): Byte { if i + 1 > |p| then 0xFF else p[i] }

  function Read16(p: Text, i: nat): Word16 { if i + 2 > |p| then 0xFFFF else Get16(p, i) }

  function Read32(p: Text, i: nat): Word32 { if i + 4 > |p| then 0xFFFF_FFFF else Get32(p, i) }

  /**
    What the loop of GetLabel arrives at: a name and the bytes it took, or a refusal, each with
    the text left in the output; undefined behaviour, where a label leaves the packet or a closing
    zero has no label before it; or nothing yet.
   */
  datatype Walked = Named(count: nat, text: Text) | Refused(text: Text) | Undefined | Looping
  {
    predicate HasResult() { Named? || Refused? }
  }

  /** At most fuel rounds of the loop, from index, with jump, count and out as the loop has them. */
  ghost function Walk(p: Text, index: nat, jump: bool, count: nat, out: Text, fuel: nat): Walked
    decreases fuel
  {
    var tmp := Read8(p, index);
    if fuel == 0 then Looping
    else if tmp == 0 then
      if out == [] then Undefined
      else Named(if jump then count else count + 1, out[..|out| - 1])
    else if tmp >= LABEL_LIMIT then
      var pointer := Low14(Read16(p, index));
      if pointer > |p| then Refused(out)
      else Walk(p, pointer, true, if jump then count else count + 2, out, fuel - 1)
    else
      var next := index + 1 + tmp;
      if next > |p| then Undefined
      else Walk(p, next, jump, if jump then count else count + 1 + tmp, out + (p[index + 1..next] + [DOT]), fuel - 1)
  }

  ghost predicate Ends(p: Text, index: nat, jump: bool, count: nat, out: Text)
  {
    exists fuel: nat :: Walk(p, index, jump, count, out, fuel).HasResult()
  }

  /** The outcome of the loop, when there is one. */
  ghost function Outcome(p: Text, index: nat, jump: bool, count: nat, out: Text): (w: Walked)
    requires Ends(p, index, jump, count, out)
    ensures w.HasResult()
  {
    var fuel: nat :| Walk(p, index, jump, count, out, fuel).HasResult();
    Walk(p, index, jump, count, out, fuel)
  }

  /** More rounds do not change an outcome. */
  lemma {:induction false} MoreFuel(p: Text, index: nat, jump: bool, count: nat, out: Text, fuel: nat, fuel': nat)
    requires Walk(p, index, jump, count, out, fuel) != Looping && fuel <= fuel'
    ensures Walk(p, index, jump, count, out, fuel') == Walk(p, index, jump, count, out, fuel)
    decreases fuel
  {
    var tmp := Read8(p, index);
    if tmp >= LABEL_LIMIT {
      var pointer := Low14(Read16(p, index));
      if pointer <= |p| {
        MoreFuel(p, pointer, true, if jump then count else count + 2, out, fuel - 1, fuel' - 1);
      }
    } else if tmp != 0 {
      var next := index + 1 + tmp;
      if next <= |p| {
        var out' := out + (p[index + 1..next] + [DOT]);
        MoreFuel(p, next, jump, if jump then count else count + 1 + tmp, out', fuel - 1, fuel' - 1);
      }
    }
  }

  lemma OutcomeIs(p: Text, index: nat, jump: bool, count: nat, out: Text, fuel: nat)
    requires Walk(p, index, jump, count, out, fuel).HasResult()
    ensures Ends(p, index, jump, count, out)
    ensures Outcome(p, index, jump, count, out) == Walk(p, index, jump, count, out, fuel)
  {
    var fuel': nat :| Outcome(p, index, jump, count, out) == Walk(p, index, jump, count, out, fuel')
                      && Walk(p, index, jump, count, out, fuel').HasResult();
    if fuel <= fuel' {
      MoreFuel(p, index, jump, count, out, fuel, fuel');
    } else {
      MoreFuel(p, index, jump, count, out, fuel', fuel);
    }
  }

  /** Components as the loop copies them out, each with a dot behind it. */
  function Dotted(comps: Parts): Text
  {
    match comps
    case Nil => []
    case Cons(c, rest) => (c + [DOT]) + Dotted(rest)
  }

  lemma {:induction false} DottedIsJoin(comps: Parts)
    requires comps.Cons?
    ensures Dotted(comps) == Join(comps, DOT) + [DOT]
  {
    var c, rest := comps.head, comps.tail;
    if rest == Nil {
      assert (c + [DOT]) + [] == c + [DOT];
    } else {
      DottedIsJoin(rest);
      assert (c + [DOT]) + (Join(rest, DOT) + [DOT]) == (c + ([DOT] + Join(rest, DOT))) + [DOT];
    }
  }

  /** Where a name is spelled, the loop ends within two rounds a component and one more, and finds it. */
  lemma {:induction false} WalkReadsName(p: Text, start: nat, pos: nat, comps: Parts, jump: bool, count: nat, out: Text)
    requires NameAt(p, start, pos, comps) && (comps.Cons? || out != [])
    ensures Walk(p, pos, jump, count, out, 2 * comps.Size() + 1)
         == Found(if jump then count else count + NameLength(p, start, pos, comps), out + Dotted(comps))
    decreases comps, 1
  {
    if p[pos] >= LABEL_LIMIT {
      var target := PointerAt(p, pos);
      WalkReadsLabels(p, target, target, comps, true, if jump then count else count + 2, out);
    } else {
      WalkReadsLabels(p, start, pos, comps, jump, count, out);
      MoreFuel(p, pos, jump, count, out, 2 * comps.Size() + (if comps == Nil then 1 else 0), 2 * comps.Size() + 1);
    }
  }

  lemma {:induction false} WalkReadsLabels(p: Text, start: nat, pos: nat, comps: Parts,
                                           jump: bool, count: nat, out: Text)
    requires LabelsAt(p, start, pos, comps) && (comps.Cons? || out != [])
    ensures NameAt(p, start, pos, comps)
    ensures Walk(p, pos, jump, count, out, 2 * comps.Size() + (if comps == Nil then 1 else 0))
         == Found(if jump then count else count + NameLength(p, start, pos, comps), out + Dotted(comps))
    decreases comps, 0
  {
    if comps == Nil {
      assert out + [] == out;
    } else {
      var c, rest, next := comps.head, comps.tail, pos + 1 + |comps.head|;
      assert p[pos + 1..next] == c;
      WalkReadsName(p, start, next, rest, jump, if jump then count else count + 1 + |c|, out + (c + [DOT]));
      Associate(out, c + [DOT], Dotted(rest));
    }
  }

  /** A name found: the last dot is dropped. */
  function Found(count: nat, text: Text): Walked
    requires text != []
  {
    Named(count, text[..|text| - 1])
  }

  /**
    The reader undoes the writer: where a name is spelled, GetLabel's loop ends, with exactly
    that name and the number of bytes it occupies at that place.
   */
  lemma NameIsRead(p: Text, start: nat, pos: nat, name: Text)
    requires NameAt(p, start, pos, Split(name, DOT))
    ensures Ends(p, pos, false, 0, [])
    ensures Outcome(p, pos, false, 0, []) == Named(NameLength(p, start, pos, Split(name, DOT)), name)
  {
    var comps := Split(name, DOT);
    WalkReadsName(p, start, pos, comps, false, 0, []);
    var n := NameLength(p, start, pos, comps);
    assert Found(n, [] + Dotted(comps)) == Named(n, name) by {
      DottedIsJoin(comps);
      JoinOfSplit(name, DOT);
      assert [] + Dotted(comps) == name + [DOT];
      assert (name + [DOT])[..|name|] == name;
    }
    OutcomeIs(p, pos, false, 0, [], 2 * comps.Size() + 1);
  }

  // ---------------------------------------------------------------- the compressed form, byte by byte

  /** Integers are in network order, and all ones behind the end of the packet. */
  lemma IntegersAreBytes(p: Text, i: nat)
    ensures Read8(p, i) == if i + 1 <= |p| then p[i] else 0xFF
    ensures Read16(p, i) == if i + 2 <= |p| then p[i] as int * 256 + p[i + 1] as int else 0xFFFF
    ensures Read32(p, i) ==
              if i + 4 <= |p| then
                p[i] as int * 16777216 + p[i + 1] as int * 65536 + p[i + 2] as int * 256 + p[i + 3] as int
              else 0xFFFF_FFFF
  {
  }

  /** A result with more text, and more bytes counted, in front. */
  function Behind(w: Walked, k: nat, pre: Text): Walked
  {
    match w
    case Named(count, text) => Named(count + k, pre + text)
    case Refused(text) => Refused(pre + text)
    case _ => w
  }

  lemma {:induction false} WalkBehind(p: Text, index: nat, count: nat, out: Text, fuel: nat, k: nat, pre: Text)
    requires Walk(p, index, false, count, out, fuel).HasResult()
    ensures Walk(p, index, false, count + k, pre + out, fuel) == Behind(Walk(p, index, false, count, out, fuel), k, pre)
    decreases fuel
  {
    var tmp := Read8(p, index);
    if tmp == 0 {
      assert (pre + out)[..|pre + out| - 1] == pre + out[..|out| - 1];
    } else if tmp >= LABEL_LIMIT {
      var pointer := Low14(Read16(p, index));
      if pointer <= |p| {
        JumpedBehind(p, pointer, count + 2, out, fuel - 1, k, pre);
      }
    } else {
      var next := index + 1 + tmp;
      var piece := p[index + 1..next] + [DOT];
      Associate(pre, out, piece);
      WalkBehind(p, next, count + 1 + tmp, out + piece, fuel - 1, k, pre);
    }
  }

  lemma {:induction false} JumpedBehind(p: Text, index: nat, count: nat, out: Text, fuel: nat, k: nat, pre: Text)
    requires Walk(p, index, true, count, out, fuel).HasResult()
    ensures Walk(p, index, true, count + k, pre + out, fuel) == Behind(Walk(p, index, true, count, out, fuel), k, pre)
    decreases fuel
  {
    var tmp := Read8(p, index);
    if tmp == 0 {
      assert (pre + out)[..|pre + out| - 1] == pre + out[..|out| - 1];
    } else if tmp >= LABEL_LIMIT {
      var pointer := Low14(Read16(p, index));
      if pointer <= |p| {
        JumpedBehind(p, pointer, count, out, fuel - 1, k, pre);
      }
    } else {
      var next := index + 1 + tmp;
      var piece := p[index + 1..next] + [DOT];
      Associate(pre, out, piece);
      JumpedBehind(p, next, count, out + piece, fuel - 1, k, pre);
    }
  }

  /** A result seen through a pointer: two bytes, wherever the name goes on. */
  function Through(w: Walked, count: nat): Walked { if w.Named? then Named(count, w.text) else w }

  lemma {:induction false} WalkThrough(p: Text, index: nat, count: nat, c: nat, out: Text, fuel: nat)
    requires Walk(p, index, false, count, out, fuel).HasResult()
    ensures Walk(p, index, true, c, out, fuel) == Through(Walk(p, index, false, count, out, fuel), c)
    decreases fuel
  {
    var tmp := Read8(p, index);
    if tmp >= LABEL_LIMIT {
      var pointer := Low14(Read16(p, index));
      if pointer <= |p| {
        JumpedThrough(p, pointer, count + 2, c, out, fuel - 1);
      }
    } else if tmp != 0 {
      var next := index + 1 + tmp;
      WalkThrough(p, next, count + 1 + tmp, c, out + (p[index + 1..next] + [DOT]), fuel - 1);
    }
  }

  lemma {:induction false} JumpedThrough(p: Text, index: nat, count: nat, c: nat, out: Text, fuel: nat)
    requires Walk(p, index, true, count, out, fuel).HasResult()
    ensures Walk(p, index, true, c, out, fuel) == Through(Walk(p, index, true, count, out, fuel), c)
    decreases fuel
  {
    var tmp := Read8(p, index);
    if tmp >= LABEL_LIMIT {
      var pointer := Low14(Read16(p, index));
      if pointer <= |p| {
        JumpedThrough(p, pointer, count, c, out, fuel - 1);
      }
    } else if tmp != 0 {
      var next := index + 1 + tmp;
      JumpedThrough(p, next, count, c, out + (p[index + 1..next] + [DOT]), fuel - 1);
    }
  }

  /** A byte from 1 to 191 is the length of a label; with a zero behind it, the label is the name. */
  lemma LastLabelReads(p: Text, i: nat)
    requires i < |p| && 1 <= p[i] <= 191
    requires var next := i + 1 + p[i]; next < |p| && p[next] == 0
    ensures Ends(p, i, false, 0, [])
    ensures Outcome(p, i, false, 0, []) == Named(p[i] + 2, p[i + 1..i + 1 + p[i]])
  {
    var next := i + 1 + p[i];
    var piece := p[i + 1..next];
    var out: Text := [] + (piece + [DOT]);
    assert out[..|out| - 1] == piece;
    assert Walk(p, next, false, 1 + p[i], out, 1) == Named(p[i] + 2, piece);
    assert Walk(p, i, false, 0, [], 2) == Walk(p, next, false, 0 + 1 + p[i], out, 1);
    OutcomeIs(p, i, false, 0, [], 2);
  }

  /** With a name behind it, the label stands in front of that name, with a dot between. */
  lemma LabelInFrontReads(p: Text, i: nat)
    requires i < |p| && 1 <= p[i] <= 191 && i + 1 + p[i] <= |p|
    requires Ends(p, i + 1 + p[i], false, 0, [])
    ensures Ends(p, i, false, 0, [])
    ensures var next := i + 1 + p[i];
            Outcome(p, i, false, 0, []) ==
              match Outcome(p, next, false, 0, [])
              case Named(count, text) => Named(1 + p[i] + count, (p[i + 1..next] + [46]) + text)
              case Refused(text) => Refused((p[i + 1..next] + [46]) + text)
  {
    var next := i + 1 + p[i];
    var piece := p[i + 1..next] + [DOT];
    var fuel: nat :| Walk(p, next, false, 0, [], fuel).HasResult();
    OutcomeIs(p, next, false, 0, [], fuel);
    WalkBehind(p, next, 0, [], fuel, 1 + p[i], piece);
    assert piece + [] == [] + piece;
    assert Walk(p, i, false, 0, [], fuel + 1) == Walk(p, next, false, 0 + 1 + p[i], [] + piece, fuel);
    OutcomeIs(p, i, false, 0, [], fuel + 1);
  }

  /** Two bytes from 0xC000 on are a pointer: the name goes on where it leads, and it is refused out of the packet. */
  lemma PointerReads(p: Text, i: nat, target: nat)
    requires i + 2 <= |p| && p[i] >= 192 && target == (p[i] as int - 192) * 256 + p[i + 1] as int
    requires target <= |p| ==> Ends(p, target, false, 0, [])
    ensures Ends(p, i, false, 0, [])
    ensures Outcome(p, i, false, 0, []) ==
              if target > |p| then Refused([])
              else
                match Outcome(p, target, false, 0, [])
                case Named(_, text) => Named(2, text)
                case Refused(text) => Refused(text)
  {
    assert Low14(Read16(p, i)) == target;
    if target > |p| {
      assert Walk(p, i, false, 0, [], 1) == Refused([]);
      OutcomeIs(p, i, false, 0, [], 1);
    } else {
      var fuel: nat :| Walk(p, target, false, 0, [], fuel).HasResult();
      OutcomeIs(p, target, false, 0, [], fuel);
      WalkThrough(p, target, 0, 2, [], fuel);
      assert Walk(p, i, false, 0, [], fuel + 1) == Walk(p, target, true, 0 + 2, [], fuel);
      OutcomeIs(p, i, false, 0, [], fuel + 1);
    }
  }

  // ---------------------------------------------------------------- when the loop ends

  /** The loop is left at index: at a zero, at a pointer out of the packet, or in undefined behaviour. */
  predicate StopsAt(p: Text, index: nat)
  {
    var tmp := Read8(p, index);
    tmp == 0 || if tmp >= LABEL_LIMIT then Low14(Read16(p, index)) > |p| else index + 1 + tmp > |p|
  }

  function NextIndex(p: Text, index: nat): (next: nat)
    requires !StopsAt(p, index)
    ensures next <= |p|
  {
    var tmp := Read8(p, index);
    if tmp >= LABEL_LIMIT then Low14(Read16(p, index)) else index + 1 + tmp
  }

  /** The loop is left within n rounds. */
  predicate StopsWithin(p: Text, index: nat, n: nat)
    decreases n
  {
    n > 0 && (StopsAt(p, index) || StopsWithin(p, NextIndex(p, index), n - 1))
  }

  /** Whether the loop is left depends on the position alone. */
  lemma {:induction false} WalkStops(p: Text, index: nat, jump: bool, count: nat, out: Text, fuel: nat)
    ensures Walk(p, index, jump, count, out, fuel) != Looping <==> StopsWithin(p, index, fuel)
    decreases fuel
  {
    if fuel > 0 && !StopsAt(p, index) {
      var tmp, next := Read8(p, index), NextIndex(p, index);
      if tmp >= LABEL_LIMIT {
        WalkStops(p, next, true, if jump then count else count + 2, out, fuel - 1);
      } else {
        WalkStops(p, next, jump, if jump then count else count + 1 + tmp, out + (p[index + 1..next] + [DOT]), fuel - 1);
      }
    }
  }

  lemma {:induction false} StopsLater(p: Text, index: nat, m: nat, n: nat)
    requires StopsWithin(p, index, m) && m <= n
    ensures StopsWithin(p, index, n)
    decreases m
  {
    if !StopsAt(p, index) {
      StopsLater(p, NextIndex(p, index), m - 1, n - 1);
    }
  }

  /** The positions of the rounds are all different: none has as many rounds to go as an earlier one. */
  lemma {:induction false} Trail(p: Text, index: nat, n: nat) returns (visited: set<nat>)
    requires index <= |p| && n > 0 && StopsWithin(p, index, n) && !StopsWithin(p, index, n - 1)
    ensures |visited| == n
    ensures forall i :: i in visited ==> i <= |p| && StopsWithin(p, i, n)
    decreases n
  {
    if StopsAt(p, index) {
      visited := {index};
    } else {
      var rest := Trail(p, NextIndex(p, index), n - 1);
      forall i | i in rest
        ensures StopsWithin(p, i, n)
      {
        StopsLater(p, i, n - 1, n);
      }
      visited := rest + {index};
    }
  }

  /** A number of rounds within which the loop is left, and not sooner. */
  lemma {:induction false} FewestRounds(p: Text, index: nat, n: nat) returns (m: nat)
    requires StopsWithin(p, index, n)
    ensures 0 < m <= n && StopsWithin(p, index, m) && !StopsWithin(p, index, m - 1)
  {
    if n > 1 && StopsWithin(p, index, n - 1) {
      m := FewestRounds(p, index, n - 1);
    } else {
      m := n;
    }
  }

  lemma {:induction false} Pigeons(s: set<nat>, n: nat)
    requires forall i :: i in s ==> i < n
    ensures |s| <= n
    decreases n
  {
    if n == 0 {
      assert s == {};
    } else {
      var smaller := s - {n - 1};
      Pigeons(smaller, n - 1);
      assert s <= smaller + {n - 1};
      assert |s| <= |smaller| + 1 by {
        if n - 1 in s {
          assert s == smaller + {n - 1};
        } else {
          assert s == smaller;
        }
      }
    }
  }

  /**
    The loop never ends if and only if it has not ended after as many rounds as the packet has
    positions, its end included; and by then it has its result, if it ever has one.
   */
  lemma LoopIsExact(p: Text, index: nat, jump: bool, count: nat, out: Text)
    requires index <= |p|
    ensures Walk(p, index, jump, count, out, |p| + 1) == Looping
       <==> forall fuel: nat :: Walk(p, index, jump, count, out, fuel) == Looping
    ensures Ends(p, index, jump, count, out) <==> Walk(p, index, jump, count, out, |p| + 1).HasResult()
  {
    forall fuel: nat | Walk(p, index, jump, count, out, fuel) != Looping
      ensures Walk(p, index, jump, count, out, |p| + 1) == Walk(p, index, jump, count, out, fuel)
    {
      EndsSoon(p, index, jump, count, out, fuel);
    }
  }

  lemma EndsSoon(p: Text, index: nat, jump: bool, count: nat, out: Text, fuel: nat)
    requires index <= |p| && Walk(p, index, jump, count, out, fuel) != Looping
    ensures Walk(p, index, jump, count, out, |p| + 1) == Walk(p, index, jump, count, out, fuel)
  {
    WalkStops(p, index, jump, count, out, fuel);
    var n := FewestRounds(p, index, fuel);
    var visited := Trail(p, index, n);
    Pigeons(visited, |p| + 1);
    StopsLater(p, index, n, |p| + 1);
    WalkStops(p, index, jump, count, out, |p| + 1);
    if fuel <= |p| + 1 {
      MoreFuel(p, index, jump, count, out, fuel, |p| + 1);
    } else {
      MoreFuel(p, index, jump, count, out, |p| + 1, fuel);
    }
  }

  /** The rounds of the loop read bytes of the packet only. */
  ghost predicate Inside(p: Text, index: nat, fuel: nat)
    decreases fuel
  {
    && fuel > 0 && index < |p|
    && (Read8(p, index) >= LABEL_LIMIT ==> index + 2 <= |p|)
    && (StopsAt(p, index) || Inside(p, NextIndex(p, index), fuel - 1))
  }

  /** A name that was found inside a packet is found again when bytes follow it, in whatever form it stands there. */
  lemma {:induction false} NamedStays(p: Text, p': Text, index: nat, jump: bool, count: nat, out: Text, fuel: nat)
    requires p <= p' && Walk(p, index, jump, count, out, fuel).Named? && Inside(p, index, fuel)
    ensures Walk(p', index, jump, count, out, fuel) == Walk(p, index, jump, count, out, fuel)
    decreases fuel
  {
    var tmp := Read8(p, index);
    if tmp >= LABEL_LIMIT {
      assert Read16(p', index) == Read16(p, index);
      NamedStays(p, p', NextIndex(p, index), true, if jump then count else count + 2, out, fuel - 1);
    } else if tmp != 0 {
      var next := index + 1 + tmp;
      assert p'[index + 1..next] == p[index + 1..next];
      var out' := out + (p[index + 1..next] + [DOT]);
      NamedStays(p, p', next, jump, if jump then count else count + 1 + tmp, out', fuel - 1);
    }
  }

  /** In a packet below the reach of all ones, every name is found inside, since reading past its end is refused. */
  lemma {:induction false} NamedInside(p: Text, index: nat, jump: bool, count: nat, out: Text, fuel: nat)
    requires |p| < 0x3FFF && Walk(p, index, jump, count, out, fuel).Named?
    ensures Inside(p, index, fuel)
    decreases fuel
  {
    var tmp := Read8(p, index);
    if tmp >= LABEL_LIMIT {
      NamedInside(p, NextIndex(p, index), true, if jump then count else count + 2, out, fuel - 1);
    } else if tmp != 0 {
      var next := index + 1 + tmp;
      var out' := out + (p[index + 1..next] + [DOT]);
      NamedInside(p, next, jump, if jump then count else count + 1 + tmp, out', fuel - 1);
    }
  }

  /** A pointer to itself, in whatever packet and wherever, is never left. */
  lemma {:induction false} SelfPointerLoops(p: Text, i: nat, jump: bool, count: nat, out: Text, fuel: nat)
    requires Read8(p, i) >= LABEL_LIMIT && Low14(Read16(p, i)) == i <= |p|
    ensures Walk(p, i, jump, count, out, fuel) == Looping
    decreases fuel
  {
    if fuel > 0 {
      SelfPointerLoops(p, i, true, if jump then count else count + 2, out, fuel - 1);
    }
  }

  /** Nor is it enough that a pointer leads backwards: it may lead to the label in front of it. */
  lemma {:induction false} BackwardPointerLoops(p: Text, j: nat, i: nat, jump: bool, count: nat, out: Text, fuel: nat)
    requires 0 < Read8(p, j) < LABEL_LIMIT && j + 1 + Read8(p, j) == i
    requires Read8(p, i) >= LABEL_LIMIT && Low14(Read16(p, i)) == j && i <= |p|
    ensures Walk(p, j, jump, count, out, fuel) == Looping
    ensures Walk(p, i, jump, count, out, fuel) == Looping
    decreases fuel
  {
    if fuel > 0 {
      BackwardPointerLoops(p, j, i, true, if jump then count else count + 2, out, fuel - 1);
      var count' := if jump then count else count + 1 + Read8(p, j);
      BackwardPointerLoops(p, j, i, jump, count', out + (p[j + 1..i] + [DOT]), fuel - 1);
    }
  }

  /** The length that GetLabel returns; a refusal is -1 in an unsigned result. */
  function Reported(w: Walked): Word32
  {
    if w.Named? && w.count < 0x1_0000_0000 then w.count else 0xFFFF_FFFF
  }

  lemma OneMoreByte(before: Text, p: Text, start: nat, i: nat)
    requires start <= i < |p|
    ensures (before + p[start..i]) + [p[i]] == before + p[start..i + 1]
    ensures RawPart([p[i]], 1) == [p[i]]
  {
    assert p[start..i] + [p[i]] == p[start..i + 1];
  }

  /** The inner loop of GetLabel: copies a label byte by byte, and the dot behind it. */
  method CopyLabel(p: Text, start: nat, len: nat, out: Buffer)
    requires out.Valid() && start + len <= |p|
    modifies out, out.data
    ensures out.Valid() && (out.data == old(out.data) || fresh(out.data))
    ensures out.Contents() == old(out.Contents()) + (p[start..start + len] + [DOT])
  {
    hide RawPart, CString;
    ghost var before := out.Contents();
    var rest := len;
    ghost var text := before;
    assert before + p[start..start] == before;
    while rest > 0
      invariant 0 <= rest <= len
      invariant out.Valid() && (out.data == old(out.data) || fresh(out.data))
      invariant out.Contents() == text == before + p[start..start + len - rest]
    {
      var i := start + len - rest;
      OneMoreByte(before, p, start, i);
      var _ := out.AppendRaw([p[i]], 1);
      text := text + [p[i]];
      rest := rest - 1;
    }
    Associate(before, p[start..start + len], [DOT]);
    var _ := out.AppendChar(DOT);
  }

  /**
    Follows a possibly compressed name from index and appends its dotted text to out. It demands
    that the loop ends, which for foreign packets nothing guarantees.
   */
  method GetLabel(p: Text, start: Word16, out: Buffer) returns (r: Word32)
    requires |p| < 0x1_0000 && out.Valid()
    requires start <= |p| ==> Ends(p, start, false, 0, out.Contents())
    modifies out, out.data
    ensures out.Valid() && (out.data == old(out.data) || fresh(out.data))
    ensures start > |p| ==> r == 0xFFFF_FFFF && out.Contents() == old(out.Contents())
    ensures start <= |p| ==>
              var w := Outcome(p, start, false, 0, old(out.Contents()));
              r == Reported(w) && out.Contents() == w.text
  {
    if start > |p| {
      return 0xFFFF_FFFF;
    }
    ghost var before := out.Contents();
    ghost var fuel: nat :| Walk(p, start, false, 0, before, fuel).HasResult();
    OutcomeIs(p, start, false, 0, before, fuel);
    r := FollowLabels(p, start, out, fuel);
  }

  /** One round of the loop that comes to w. */
  lemma WalkRound(p: Text, index: nat, jump: bool, count: nat, out: Text, fuel: nat, w: Walked)
    requires Walk(p, index, jump, count, out, fuel) == w && w.HasResult()
    ensures fuel > 0
    ensures var tmp := Read8(p, index);
            var next := index + 1 + tmp;
            var pointer := Low14(Read16(p, index));
            if tmp == 0 then out != [] && w == Named(if jump then count else count + 1, out[..|out| - 1])
            else if tmp < LABEL_LIMIT then
              && next <= |p|
              && var count' := if jump then count else count + 1 + tmp;
              Walk(p, next, jump, count', out + (p[index + 1..next] + [DOT]), fuel - 1) == w
            else if pointer > |p| then w == Refused(out)
            else Walk(p, pointer, true, if jump then count else count + 2, out, fuel - 1) == w
  {
  }

  /** The loop of GetLabel; rounds is a number of rounds within which it ends. */
  method FollowLabels(p: Text, start: Word16, out: Buffer, ghost rounds: nat) returns (r: Word32)
    requires start <= |p| < 0x1_0000 && out.Valid()
    requires Walk(p, start, false, 0, out.Contents(), rounds).HasResult()
    modifies out, out.data
    ensures out.Valid() && (out.data == old(out.data) || fresh(out.data))
    ensures var w := Walk(p, start, false, 0, old(out.Contents()), rounds);
            r == Reported(w) && out.Contents() == w.text
  {
    hide Walk;
    ghost var fuel, text := rounds, out.Contents();
    ghost var w := Walk(p, start, false, 0, text, rounds);
    var count, index, jump := 0, start, false;
    while true
      invariant out.Valid() && (out.data == old(out.data) || fresh(out.data)) && out.Contents() == text
      invariant 0 <= index < 0x1_0000 && 0 <= count <= |p| + 2
      invariant !jump ==> start + count == index <= |p|
      invariant Walk(p, index, jump, count, text, fuel) == w && w.HasResult()
      decreases fuel
    {
      WalkRound(p, index, jump, count, text, fuel, w);
      var tmp := Read8(p, index);
      if tmp == 0 {
        if !jump {
          count := count + 1;
        }
        break;
      }
      if tmp >= LABEL_LIMIT {
        if !jump {
          count := count + 2;
          jump := true;
        }
        var pointer := Low14(Read16(p, index));
        if pointer > |p| {
          return 0xFFFF_FFFF;
        }
        index := pointer;
      } else {
        CopyLabel(p, index + 1, tmp, out);
        text := text + (p[index + 1..index + 1 + tmp] + [DOT]);
        index := index + 1 + tmp;
        if !jump {
          count := count + 1 + tmp;
        }
      }
      fuel := fuel - 1;
    }
    var _ := out.DeleteEnd();
    r := count;
  }
}
