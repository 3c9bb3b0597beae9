/** boost::split and boost::join over one separator byte. */
module Texts {
  import opened Bytes

  /** The pieces of a text, as the vector that boost::split fills. */
  datatype Parts = Nil | Cons(head: Text, tail: Parts)
  {
    function Size(): nat { if Nil? then 0 else 1 + tail.Size() }
  }

  function Split(t: Text, sep: Byte): (parts: Parts)
    ensures parts.Cons?
  {
    if t == [] then Cons([], Nil)
    else
      var rest := Split(t[1..], sep);
      if t[0] == sep then Cons([], rest) else Cons([t[0]] + rest.head, rest.tail)
  }

  function Join(parts: Parts, sep: Byte): Text
  {
    match parts
    case Nil => []
    case Cons(p, Nil) => p
    case Cons(p, rest) => p + ([sep] + Join(rest, sep))
  }

  /** One more piece in front. */
  lemma JoinCons(p: Text, rest: Parts, sep: Byte)
    ensures Join(Cons(p, rest), sep) == if rest == Nil then p else p + ([sep] + Join(rest, sep))
    ensures LackSeparator(Cons(p, rest), sep) <==> sep !in p && LackSeparator(rest, sep)
    ensures Cons(p, rest).Size() == 1 + rest.Size()
  {
  }

  predicate LackSeparator(parts: Parts, sep: Byte)
  {
    parts.Cons? ==> sep !in parts.head && LackSeparator(parts.tail, sep)
  }

  /** Joining what split produced gives the text back, and no piece contains the separator. */
  lemma {:induction false} JoinOfSplit(t: Text, sep: Byte)
    ensures Join(Split(t, sep), sep) == t
    ensures LackSeparator(Split(t, sep), sep)
  {
    if t != [] {
      JoinOfSplit(t[1..], sep);
      var rest := Split(t[1..], sep);
      assert t == [t[0]] + t[1..];
      if t[0] != sep {
        JoinHead(t[0], rest.head, rest.tail, sep);
      }
    }
  }

  lemma JoinHead(c: Byte, head: Text, tail: Parts, sep: Byte)
    ensures Join(Cons([c] + head, tail), sep) == [c] + Join(Cons(head, tail), sep)
  {
    if tail.Cons? {
      Associate([c], head, [sep] + Join(tail, sep));
    }
  }

  /** Splitting what join produced gives the pieces back. */
  lemma {:induction false} SplitOfJoin(parts: Parts, sep: Byte)
    requires parts.Cons? && LackSeparator(parts, sep)
    ensures Split(Join(parts, sep), sep) == parts
  {
    if parts.tail == Nil {
      SplitPrefix(parts.head, [], sep);
      assert parts.head + [] == parts.head;
    } else {
      SplitOfJoin(parts.tail, sep);
      var rest := Join(parts.tail, sep);
      SplitPrefix(parts.head, [sep] + rest, sep);
      assert ([sep] + rest)[1..] == rest;
    }
  }

  /** Bytes before the first separator belong to the first piece. */
  lemma {:induction false} SplitPrefix(a: Text, t: Text, sep: Byte)
    requires sep !in a
    ensures Split(a + t, sep) == Cons(a + Split(t, sep).head, Split(t, sep).tail)
  {
    if a == [] {
      assert a + t == t && a + Split(t, sep).head == Split(t, sep).head;
    } else {
      SplitPrefix(a[1..], t, sep);
      assert (a + t)[1..] == a[1..] + t;
      assert [a[0]] + (a[1..] + Split(t, sep).head) == a + Split(t, sep).head;
    }
  }

  function Append(a: Parts, b: Parts): Parts
  {
    match a
    case Nil => b
    case Cons(p, rest) => Cons(p, Append(rest, b))
  }
}
