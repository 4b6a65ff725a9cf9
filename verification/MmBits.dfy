/** Fields of MM demands: numbers of fixed width, optional fields and Type-3 elements. */
module MmBits {
  import opened Wrappers
  import opened BitSeq

  /** A value read from the front of some bits and the bits after it, or a structural error. */
  datatype Parsed<T> = Fail | Done(value: T, rest: seq<bool>)

  function Pow2(n: nat): (p: nat)
    ensures p >= 1
  {
    if n == 0 then 1 else 2 * Pow2(n - 1)
  }

  /** The number that the bits spell, most significant first. */
  function Value(s: seq<bool>): (v: nat)
    ensures v < Pow2(|s|)
  {
    if |s| == 0 then 0 else 2 * Value(s[..|s| - 1]) + BitValue(s[|s| - 1])
  }

  /** v in n bits. */
  function Bits(v: nat, n: nat): (s: seq<bool>)
    ensures |s| == n
  {
    if n == 0 then [] else Bits(v / 2, n - 1) + [v % 2 == 1]
  }

  lemma {:induction false} ValueOfBits(v: nat, n: nat)
    requires v < Pow2(n)
    ensures Value(Bits(v, n)) == v
  {
    if n > 0 {
      ValueOfBits(v / 2, n - 1);
      assert Bits(v, n)[..n - 1] == Bits(v / 2, n - 1);
    }
  }

  lemma {:induction false} BitsOfValue(s: seq<bool>)
    ensures Bits(Value(s), |s|) == s
  {
    if |s| > 0 {
      BitsOfValue(s[..|s| - 1]);
      assert Value(s) / 2 == Value(s[..|s| - 1]);
    }
  }

  /** The first bit counts most. */
  lemma {:induction false} FirstBitCountsMost(b: bool, s: seq<bool>)
    ensures Value([b] + s) == BitValue(b) * Pow2(|s|) + Value(s)
  {
    if |s| == 0 {
      assert ([b] + s)[..0] == [];
    } else {
      FirstBitCountsMost(b, s[..|s| - 1]);
      assert ([b] + s)[..|s|] == [b] + s[..|s| - 1];
    }
  }

  // ---- Fields ----

  function Field(s: seq<bool>, n: nat): Parsed<nat> {
    if |s| < n then Fail else Done(Value(s[..n]), s[n..])
  }

  lemma FieldOfBits(v: nat, n: nat, rest: seq<bool>)
    requires v < Pow2(n)
    ensures Field(Bits(v, n) + rest, n) == Done(v, rest)
  {
    ValueOfBits(v, n);
    Front(Bits(v, n), rest);
  }

  lemma Front<T>(a: seq<T>, b: seq<T>)
    ensures (a + b)[..|a|] == a && (a + b)[|a|..] == b
  {
  }

  lemma FieldIsBits(s: seq<bool>, n: nat)
    requires Field(s, n).Done?
    ensures var f := Field(s, n); f.value < Pow2(n) && s == Bits(f.value, n) + f.rest
  {
    var t := s[..n];
    FrontField(t, n);
    SplitAt(s, n);
  }

  lemma FrontField(t: seq<bool>, n: nat)
    requires |t| == n
    ensures Value(t) < Pow2(n) && Bits(Value(t), n) == t
  {
    BitsOfValue(t);
  }

  // ---- Optional fields ----

  /** A presence bit, and n bits if it is set. */
  function Optional(s: seq<bool>, n: nat): Parsed<Option<nat>> {
    if |s| == 0 then Fail
    else if !s[0] then Done(None, s[1..])
    else match Field(s[1..], n)
      case Fail => Fail
      case Done(v, rest) => Done(Some(v), rest)
  }

  function PrintOptional(o: Option<nat>, n: nat): seq<bool> {
    match o
    case None => [false]
    case Some(v) => [true] + Bits(v, n)
  }

  predicate Fits(o: Option<nat>, n: nat) {
    o.Some? ==> o.value < Pow2(n)
  }

  lemma OptionalOfPrint(o: Option<nat>, n: nat, rest: seq<bool>)
    requires Fits(o, n)
    ensures Optional(PrintOptional(o, n) + rest, n) == Done(o, rest)
  {
    if o.Some? {
      FieldOfBits(o.value, n, rest);
      assert ([true] + Bits(o.value, n) + rest)[1..] == Bits(o.value, n) + rest;
    } else {
      assert ([false] + rest)[1..] == rest;
    }
  }

  lemma OptionalIsPrint(s: seq<bool>, n: nat)
    requires Optional(s, n).Done?
    ensures var f := Optional(s, n); Fits(f.value, n) && s == PrintOptional(f.value, n) + f.rest
  {
    FirstBit(s);
    if s[0] {
      FieldIsBits(s[1..], n);
      Regroup([true], Bits(Field(s[1..], n).value, n), Field(s[1..], n).rest);
    }
  }

  lemma Regroup<T>(a: seq<T>, b: seq<T>, c: seq<T>)
    ensures a + (b + c) == (a + b) + c
  {
  }

  lemma FirstBit(s: seq<bool>)
    requires |s| > 0
    ensures s == [s[0]] + s[1..]
  {
  }

  // ---- Type-3 elements ----

  datatype Element = Element(id: nat, payload: seq<bool>)

  predicate ElementOk(e: Element) {
    e.id < Pow2(4) && |e.payload| < Pow2(11)
  }

  /** Identifier, length and payload. */
  function OneElement(s: seq<bool>): Parsed<Element> {
    match Field(s, 4)
    case Fail => Fail
    case Done(id, s1) =>
      match Field(s1, 11)
      case Fail => Fail
      case Done(length, s2) => if length > |s2| then Fail else Done(Element(id, s2[..length]), s2[length..])
  }

  function PrintElement(e: Element, rest: seq<bool>): seq<bool> {
    Bits(e.id, 4) + (Bits(|e.payload|, 11) + (e.payload + rest))
  }

  lemma ElementOfPrint(e: Element, rest: seq<bool>)
    requires ElementOk(e)
    ensures OneElement(PrintElement(e, rest)) == Done(e, rest)
  {
    FieldOfBits(e.id, 4, Bits(|e.payload|, 11) + (e.payload + rest));
    FieldOfBits(|e.payload|, 11, e.payload + rest);
    Front(e.payload, rest);
  }

  lemma ElementIsPrint(s: seq<bool>)
    requires OneElement(s).Done?
    ensures var f := OneElement(s); ElementOk(f.value) && s == PrintElement(f.value, f.rest) && |f.rest| + 15 <= |s|
  {
    FieldIsBits(s, 4);
    var s1 := Field(s, 4).rest;
    FieldIsBits(s1, 11);
    SplitAt(Field(s1, 11).rest, Field(s1, 11).value);
  }

  lemma SplitAt<T>(s: seq<T>, n: nat)
    requires n <= |s|
    ensures s == s[..n] + s[n..]
  {
  }

  /** What ends a list: nothing more, or a clear bit. */
  predicate Ends(rest: seq<bool>) {
    |rest| == 0 || !rest[0]
  }

  /** Elements behind set m-bits until the bits run out or an m-bit is clear. */
  function Elements(s: seq<bool>): Parsed<seq<Element>>
    decreases |s|
  {
    if Ends(s) then Done([], s)
    else match OneElement(s[1..])
      case Fail => Fail
      case Done(e, rest) =>
        ElementIsPrint(s[1..]);
        match Elements(rest)
        case Fail => Fail
        case Done(es, last) => Done([e] + es, last)
  }

  function PrintElements(es: seq<Element>, rest: seq<bool>): seq<bool> {
    if |es| == 0 then rest else [true] + PrintElement(es[0], PrintElements(es[1..], rest))
  }

  lemma {:induction false} ElementsOfPrint(es: seq<Element>, rest: seq<bool>)
    requires Ends(rest) && forall k :: 0 <= k < |es| ==> ElementOk(es[k])
    ensures Elements(PrintElements(es, rest)) == Done(es, rest)
    decreases |es|
  {
    if |es| > 0 {
      var tail := PrintElements(es[1..], rest);
      ElementsOfPrint(es[1..], rest);
      ElementOfPrint(es[0], tail);
      assert ([true] + PrintElement(es[0], tail))[1..] == PrintElement(es[0], tail);
      assert es == [es[0]] + es[1..];
    }
  }

  lemma {:induction false} ElementsIsPrint(s: seq<bool>)
    requires Elements(s).Done?
    ensures var f := Elements(s);
            Ends(f.rest) && s == PrintElements(f.value, f.rest) && forall k :: 0 <= k < |f.value| ==> ElementOk(f.value[k])
    decreases |s|
  {
    if !Ends(s) {
      ElementIsPrint(s[1..]);
      var f := OneElement(s[1..]);
      ElementsIsPrint(f.rest);
      assert s == [true] + s[1..];
      assert ([f.value] + Elements(f.rest).value)[1..] == Elements(f.rest).value;
    }
  }

  // ---- The cursor ----

  /** Reads n bits at pos; a read past the end gives what is left and does not move the cursor. */
  method ReadBits(body: seq<bool>, pos: nat, n: nat) returns (v: nat, next: nat)
    requires pos <= |body|
    ensures pos + n <= |body| ==> v == Value(body[pos..pos + n]) && next == pos + n
    ensures pos + n > |body| ==> v == Value(body[pos..]) && next == pos
  {
    v := 0;
    for i := 0 to n
      invariant pos + i <= |body| && v == Value(body[pos..pos + i])
    {
      var p := pos + i;
      if p >= |body| {
        assert body[pos..p] == body[pos..];
        return v, pos;
      }
      v := 2 * v + BitValue(body[p]);
      assert body[pos..p + 1][..i] == body[pos..p];
    }
    next := pos + n;
  }
}
