/** U-LOCATION-UPDATE-DEMAND (mm = 2; EN 300 392-2 section 16.10): the walker inverts a printer. */
module MmLocation {
  import opened Wrappers
  import opened BitSeq
  import opened MmBits

  const BODY_BITS: nat := 129

  datatype Optionals = Optionals(classOfMs: Option<nat>, energySaving: Option<nat>, la: Option<nat>, ssi: Option<nat>,
                                 ext: Option<nat>, elements: seq<Element>)

  /** la holds 15 bits; the walker reports the upper 14. */
  datatype Demand = Demand(updateType: nat, append: bool, cipher: Option<nat>, optionals: Option<Optionals>)

  /** First group of a group identity location demand. */
  datatype Gild = Gild(gssi: nat, classOfUsage: nat, addressType: nat)

  /** The walker's output. */
  datatype Report = Report(updateType: nat, append: bool, cipherOn: bool, classOfMs: Option<nat>, energySaving: Option<nat>,
                           la: Option<nat>, ssi: Option<nat>, ext: Option<nat>, gild: Option<Gild>)

  // ---- Grammar ----

  /** The five fields; no elements yet. */
  function ReadFields(s: seq<bool>): Parsed<Optionals> {
    match Optional(s, 24)
    case Fail => Fail
    case Done(classOfMs, s1) =>
      match Optional(s1, 3)
      case Fail => Fail
      case Done(energySaving, s2) =>
        match Optional(s2, 15)
        case Fail => Fail
        case Done(la, s3) =>
          match Optional(s3, 24)
          case Fail => Fail
          case Done(ssi, s4) =>
            match Optional(s4, 24)
            case Fail => Fail
            case Done(ext, s5) => Done(Optionals(classOfMs, energySaving, la, ssi, ext, []), s5)
  }

  function ReadOptionals(s: seq<bool>): Parsed<Optionals> {
    match ReadFields(s)
    case Fail => Fail
    case Done(o, s5) =>
      match Elements(s5)
      case Fail => Fail
      case Done(es, rest) => Done(o.(elements := es), rest)
  }

  function ReadDemand(s: seq<bool>): Parsed<Demand> {
    if |s| < 5 then Fail
    else match Optional(s[4..], 10)
      case Fail => Fail
      case Done(cipher, s1) =>
        if Ends(s1) then Done(Demand(Value(s[..3]), s[3], cipher, None), s1)
        else match ReadOptionals(s1[1..])
          case Fail => Fail
          case Done(o, rest) => Done(Demand(Value(s[..3]), s[3], cipher, Some(o)), rest)
  }

  function PrintOptionals(o: Optionals, rest: seq<bool>): seq<bool> {
    PrintOptional(o.classOfMs, 24) + (PrintOptional(o.energySaving, 3) + (PrintOptional(o.la, 15)
    + (PrintOptional(o.ssi, 24) + (PrintOptional(o.ext, 24) + PrintElements(o.elements, rest)))))
  }

  function Print(d: Demand, rest: seq<bool>): seq<bool> {
    Bits(d.updateType, 3) + ([d.append] + (PrintOptional(d.cipher, 10)
    + match d.optionals case None => rest case Some(o) => [true] + PrintOptionals(o, rest)))
  }

  predicate OptionalsOk(o: Optionals) {
    && Fits(o.classOfMs, 24) && Fits(o.energySaving, 3) && Fits(o.la, 15) && Fits(o.ssi, 24) && Fits(o.ext, 24)
    && forall k :: 0 <= k < |o.elements| ==> ElementOk(o.elements[k])
  }

  predicate DemandOk(d: Demand) {
    d.updateType < Pow2(3) && Fits(d.cipher, 10) && (d.optionals.Some? ==> OptionalsOk(d.optionals.value))
  }

  lemma OptionalsOfPrint(o: Optionals, rest: seq<bool>)
    requires OptionalsOk(o) && Ends(rest)
    ensures ReadOptionals(PrintOptionals(o, rest)) == Done(o, rest)
  {
    var s5 := PrintElements(o.elements, rest);
    var s4 := PrintOptional(o.ext, 24) + s5;
    var s3 := PrintOptional(o.ssi, 24) + s4;
    var s2 := PrintOptional(o.la, 15) + s3;
    var s1 := PrintOptional(o.energySaving, 3) + s2;
    OptionalOfPrint(o.classOfMs, 24, s1);
    OptionalOfPrint(o.energySaving, 3, s2);
    OptionalOfPrint(o.la, 15, s3);
    OptionalOfPrint(o.ssi, 24, s4);
    OptionalOfPrint(o.ext, 24, s5);
    ElementsOfPrint(o.elements, rest);
    Chain(PrintOptionals(o, rest), s1, s2, s3, s4, s5, o, rest);
  }

  lemma Chain(s: seq<bool>, s1: seq<bool>, s2: seq<bool>, s3: seq<bool>, s4: seq<bool>, s5: seq<bool>, o: Optionals,
              rest: seq<bool>)
    requires Optional(s, 24) == Done(o.classOfMs, s1) && Optional(s1, 3) == Done(o.energySaving, s2)
    requires Optional(s2, 15) == Done(o.la, s3) && Optional(s3, 24) == Done(o.ssi, s4) && Optional(s4, 24) == Done(o.ext, s5)
    requires Elements(s5) == Done(o.elements, rest)
    ensures ReadOptionals(s) == Done(o, rest)
  {
    assert ReadFields(s) == Done(o.(elements := []), s5);
  }

  lemma OptionalsIsPrint(s: seq<bool>)
    requires ReadOptionals(s).Done?
    ensures var f := ReadOptionals(s); OptionalsOk(f.value) && Ends(f.rest) && s == PrintOptionals(f.value, f.rest)
  {
    OptionalIsPrint(s, 24);
    var s1 := Optional(s, 24).rest;
    OptionalIsPrint(s1, 3);
    var s2 := Optional(s1, 3).rest;
    OptionalIsPrint(s2, 15);
    var s3 := Optional(s2, 15).rest;
    OptionalIsPrint(s3, 24);
    var s4 := Optional(s3, 24).rest;
    OptionalIsPrint(s4, 24);
    ElementsIsPrint(Optional(s4, 24).rest);
  }

  /** The grammar reads back every printed demand, whatever follows its end. */
  lemma DemandOfPrint(d: Demand, rest: seq<bool>)
    requires DemandOk(d) && Ends(rest)
    ensures ReadDemand(Print(d, rest)) == Done(d, rest)
  {
    var tail := match d.optionals case None => rest case Some(o) => [true] + PrintOptionals(o, rest);
    var s := Print(d, rest);
    var s4 := PrintOptional(d.cipher, 10) + tail;
    HeaderSplits(d.updateType, d.append, s4);
    OptionalOfPrint(d.cipher, 10, tail);
    if d.optionals.Some? {
      OptionalsOfPrint(d.optionals.value, rest);
      Front([true], PrintOptionals(d.optionals.value, rest));
    }
  }

  lemma HeaderSplits(updateType: nat, append: bool, tail: seq<bool>)
    requires updateType < Pow2(3)
    ensures var s := Bits(updateType, 3) + ([append] + tail);
            |s| >= 4 && Value(s[..3]) == updateType && s[3] == append && s[4..] == tail
  {
    ValueOfBits(updateType, 3);
    var s := Bits(updateType, 3) + ([append] + tail);
    assert s[..3] == Bits(updateType, 3);
    assert s[4..] == tail;
  }

  /** What the grammar reads is a printed demand. */
  lemma DemandIsPrint(s: seq<bool>)
    requires ReadDemand(s).Done?
    ensures var f := ReadDemand(s); DemandOk(f.value) && Ends(f.rest) && s == Print(f.value, f.rest)
  {
    OptionalIsPrint(s[4..], 10);
    var s1 := Optional(s[4..], 10).rest;
    FrontField(s[..3], 3);
    assert s == s[..3] + ([s[3]] + s[4..]);
    if !Ends(s1) {
      OptionalsIsPrint(s1[1..]);
      assert s1 == [true] + s1[1..];
    }
  }

  /** A body is accepted if and only if it is a printed demand with anything behind its end. */
  lemma AcceptedIffPrinted(body: seq<bool>)
    ensures ReadDemand(body).Done? <==> exists d, rest :: DemandOk(d) && Ends(rest) && body == Print(d, rest)
  {
    if ReadDemand(body).Done? {
      DemandIsPrint(body);
    }
    if d, rest :| DemandOk(d) && Ends(rest) && body == Print(d, rest) {
      DemandOfPrint(d, rest);
    }
  }

  // ---- What is reported ----

  /** The single attached group that a location demand element reports, if its payload has that form. */
  function GildOf(p: seq<bool>): Option<Gild> {
    if |p| >= 56 && p[2] && p[3] && Value(p[4..8]) == 8 && Value(p[8..19]) >= 6 && Value(p[19..25]) >= 1 && !p[25]
       && Value(p[29..31]) <= 1
    then Some(Gild(Value(p[31..55]), Value(p[26..29]), Value(p[29..31])))
    else None
  }

  /** A payload of that form: header, element length, number of groups, the group, and anything behind it. */
  function PrintGild(reserved: bool, mode: bool, length: nat, groups: nat, g: Gild, rest: seq<bool>): seq<bool> {
    [reserved, mode, true, true] + (Bits(8, 4) + (Bits(length, 11) + (Bits(groups, 6) + ([false]
    + (Bits(g.classOfUsage, 3) + (Bits(g.addressType, 2) + (Bits(g.gssi, 24) + rest)))))))
  }

  predicate GildOk(length: nat, groups: nat, g: Gild) {
    && 6 <= length < Pow2(11) && 1 <= groups < Pow2(6)
    && g.classOfUsage < Pow2(3) && g.addressType <= 1 && g.gssi < Pow2(24)
  }

  /** n bits of s from position k on. */
  predicate Spells(s: seq<bool>, k: nat, n: nat, v: nat) {
    k + n <= |s| && s[k..k + n] == Bits(v, n)
  }

  lemma NextField(s: seq<bool>, k: nat, n: nat, v: nat, rest: seq<bool>)
    requires k <= |s| && s[k..] == Bits(v, n) + rest
    ensures Spells(s, k, n, v) && s[k + n..] == rest
  {
    Front(Bits(v, n), rest);
    Inside(s, k, n);
  }

  lemma Inside(s: seq<bool>, k: nat, n: nat)
    requires k + n <= |s|
    ensures s[k..][..n] == s[k..k + n] && s[k..][n..] == s[k + n..]
  {
  }

  /**
   * The sub-walk reports the printed group if and only if at least one more bit follows it: the
   * walker asks for 56 bits, although the group is complete after 55.
   */
  lemma GildOfPrint(reserved: bool, mode: bool, length: nat, groups: nat, g: Gild, rest: seq<bool>)
    requires GildOk(length, groups, g)
    ensures GildOf(PrintGild(reserved, mode, length, groups, g, rest)) == if rest != [] then Some(g) else None
  {
    var s := PrintGild(reserved, mode, length, groups, g, rest);
    var s31 := Bits(g.gssi, 24) + rest;
    var s29 := Bits(g.addressType, 2) + s31;
    var s26 := Bits(g.classOfUsage, 3) + s29;
    GildHeader(s, reserved, mode, length, groups, s26);
    GildFields(s, g, rest);
    SpelledGild(s, length, groups, g);
  }

  lemma GildHeader(s: seq<bool>, reserved: bool, mode: bool, length: nat, groups: nat, s26: seq<bool>)
    requires s == [reserved, mode, true, true] + (Bits(8, 4) + (Bits(length, 11) + (Bits(groups, 6) + ([false] + s26))))
    ensures |s| == 26 + |s26| && s[2] && s[3] && !s[25] && s[26..] == s26
    ensures Spells(s, 4, 4, 8) && Spells(s, 8, 11, length) && Spells(s, 19, 6, groups)
  {
    Front([reserved, mode, true, true], Bits(8, 4) + (Bits(length, 11) + (Bits(groups, 6) + ([false] + s26))));
    NextField(s, 4, 4, 8, Bits(length, 11) + (Bits(groups, 6) + ([false] + s26)));
    NextField(s, 8, 11, length, Bits(groups, 6) + ([false] + s26));
    NextField(s, 19, 6, groups, [false] + s26);
    Inside(s, 25, 1);
    Front([false], s26);
  }

  lemma GildFields(s: seq<bool>, g: Gild, rest: seq<bool>)
    requires |s| >= 26 && s[26..] == Bits(g.classOfUsage, 3) + (Bits(g.addressType, 2) + (Bits(g.gssi, 24) + rest))
    ensures |s| == 55 + |rest|
    ensures Spells(s, 26, 3, g.classOfUsage) && Spells(s, 29, 2, g.addressType) && Spells(s, 31, 24, g.gssi)
  {
    NextField(s, 26, 3, g.classOfUsage, Bits(g.addressType, 2) + (Bits(g.gssi, 24) + rest));
    NextField(s, 29, 2, g.addressType, Bits(g.gssi, 24) + rest);
    NextField(s, 31, 24, g.gssi, rest);
  }

  lemma SpelledGild(s: seq<bool>, length: nat, groups: nat, g: Gild)
    requires GildOk(length, groups, g) && |s| >= 55 && s[2] && s[3] && !s[25]
    requires Spells(s, 4, 4, 8) && Spells(s, 8, 11, length) && Spells(s, 19, 6, groups)
    requires Spells(s, 26, 3, g.classOfUsage) && Spells(s, 29, 2, g.addressType) && Spells(s, 31, 24, g.gssi)
    ensures GildOf(s) == if |s| >= 56 then Some(g) else None
  {
    ValueOfBits(8, 4);
    ValueOfBits(length, 11);
    ValueOfBits(groups, 6);
    ValueOfBits(g.classOfUsage, 3);
    ValueOfBits(g.addressType, 2);
    ValueOfBits(g.gssi, 24);
  }

  /** What is reported is printed like that. */
  lemma GildIsPrint(p: seq<bool>)
    requires GildOf(p).Some?
    ensures var g, length, groups, rest := GildOf(p).value, Value(p[8..19]), Value(p[19..25]), p[55..];
            GildOk(length, groups, g) && rest != [] && p == PrintGild(p[0], p[1], length, groups, g, rest)
  {
    GildNumbers(p);
    GildParts(p);
    assert p[..4] == [p[0], p[1], true, true] && p[25..26] == [false];
    var g, length, groups := GildOf(p).value, Value(p[8..19]), Value(p[19..25]);
    Assembled(p, p[..4], p[4..8], p[8..19], p[19..25], p[25..26], p[26..29], p[29..31], p[31..55], p[55..], p[0], p[1],
              length, groups, g);
  }

  lemma GildNumbers(p: seq<bool>)
    requires GildOf(p).Some?
    ensures GildOk(Value(p[8..19]), Value(p[19..25]), GildOf(p).value) && p[4..8] == Bits(8, 4)
    ensures p[8..19] == Bits(Value(p[8..19]), 11) && p[19..25] == Bits(Value(p[19..25]), 6)
    ensures var g := GildOf(p).value;
            p[26..29] == Bits(g.classOfUsage, 3) && p[29..31] == Bits(g.addressType, 2) && p[31..55] == Bits(g.gssi, 24)
  {
    FrontField(p[4..8], 4);
    FrontField(p[8..19], 11);
    FrontField(p[19..25], 6);
    FrontField(p[26..29], 3);
    FrontField(p[29..31], 2);
    FrontField(p[31..55], 24);
  }

  lemma Assembled(p: seq<bool>, a: seq<bool>, b: seq<bool>, c: seq<bool>, d: seq<bool>, e: seq<bool>, f: seq<bool>, h: seq<bool>,
                  k: seq<bool>, rest: seq<bool>, reserved: bool, mode: bool, length: nat, groups: nat, g: Gild)
    requires p == a + (b + (c + (d + (e + (f + (h + (k + rest))))))) && a == [reserved, mode, true, true] && b == Bits(8, 4)
    requires c == Bits(length, 11) && d == Bits(groups, 6) && e == [false] && f == Bits(g.classOfUsage, 3)
    requires h == Bits(g.addressType, 2) && k == Bits(g.gssi, 24)
    ensures p == PrintGild(reserved, mode, length, groups, g, rest)
  {
  }

  lemma GildParts(p: seq<bool>)
    requires |p| >= 55
    ensures p == p[..4] + (p[4..8] + (p[8..19] + (p[19..25] + (p[25..26] + (p[26..29] + (p[29..31] + (p[31..55] + p[55..])))))))
  {
    NextPart(p, 31, 55);
    NextPart(p, 29, 31);
    NextPart(p, 26, 29);
    NextPart(p, 25, 26);
    NextPart(p, 19, 25);
    NextPart(p, 8, 19);
    NextPart(p, 4, 8);
    NextPart(p, 0, 4);
    assert p[0..] == p && p[0..4] == p[..4];
  }

  lemma NextPart(p: seq<bool>, a: nat, b: nat)
    requires a <= b <= |p|
    ensures p[a..] == p[a..b] + p[b..]
  {
  }

  /** The payload is a printed group with something behind it. */
  predicate PrintsGroup(payload: seq<bool>, g: Gild, reserved: bool, mode: bool, length: nat, groups: nat, rest: seq<bool>) {
    GildOk(length, groups, g) && rest != [] && payload == PrintGild(reserved, mode, length, groups, g, rest)
  }

  /** A group identity location demand that reports g. */
  ghost predicate CarriesGroup(e: Element, g: Gild) {
    e.id == 3 && exists reserved, mode, length, groups, rest :: PrintsGroup(e.payload, g, reserved, mode, length, groups, rest)
  }

  lemma CarriedIff(e: Element, g: Gild)
    ensures CarriesGroup(e, g) <==> e.id == 3 && GildOf(e.payload) == Some(g)
  {
    if GildOf(e.payload) == Some(g) {
      var p := e.payload;
      GildIsPrint(p);
      assert PrintsGroup(p, g, p[0], p[1], Value(p[8..19]), Value(p[19..25]), p[55..]);
    }
    if reserved, mode, length, groups, rest :| PrintsGroup(e.payload, g, reserved, mode, length, groups, rest) {
      GildOfPrint(reserved, mode, length, groups, g, rest);
    }
  }

  /** r is the group of the last element that carries one. */
  ghost predicate LastGroup(es: seq<Element>, r: Option<Gild>) {
    match r
    case None => forall k, g :: 0 <= k < |es| ==> !CarriesGroup(es[k], g)
    case Some(g) =>
      exists k :: 0 <= k < |es| && CarriesGroup(es[k], g) && forall j, h :: k < j < |es| ==> !CarriesGroup(es[j], h)
  }

  /** What each element reports. */
  function GroupIn(e: Element): Option<Gild> {
    if e.id == 3 then GildOf(e.payload) else None
  }

  function Groups(es: seq<Element>): (q: seq<Option<Gild>>)
    ensures |q| == |es| && forall k :: 0 <= k < |es| ==> q[k] == GroupIn(es[k])
  {
    seq(|es|, k requires 0 <= k < |es| => GroupIn(es[k]))
  }

  /** r is the last one of q that there is. */
  ghost predicate LastOf(q: seq<Option<Gild>>, r: Option<Gild>) {
    match r
    case None => forall k :: 0 <= k < |q| ==> q[k].None?
    case Some(g) => exists k :: 0 <= k < |q| && q[k] == Some(g) && forall j :: k < j < |q| ==> q[j].None?
  }

  lemma {:induction false} LastGildIsLastOf(es: seq<Element>, q: seq<Option<Gild>>, r: Option<Gild>)
    requires q == Groups(es) && r == LastGild(es)
    ensures LastOf(q, r)
    decreases |es|, 1
  {
    if |es| > 0 {
      var n := |es| - 1;
      assert es[..n] + [es[n]] == es;
      OneMoreElement(es[..n], es[n], Groups(es[..n]), LastGild(es[..n]), q, r);
    }
  }

  lemma {:induction false} OneMoreElement(es: seq<Element>, e: Element, p: seq<Option<Gild>>, before: Option<Gild>,
                                          q: seq<Option<Gild>>, r: Option<Gild>)
    requires p == Groups(es) && before == LastGild(es) && q == Groups(es + [e]) && r == LastGild(es + [e])
    ensures LastOf(q, r)
    decreases |es| + 1, 0
  {
    LastGildIsLastOf(es, p, before);
    GroupsGrow(es, e);
    LongerList(p, before, GroupIn(e));
  }

  lemma GroupsGrow(es: seq<Element>, e: Element)
    ensures Groups(es + [e]) == Groups(es) + [GroupIn(e)]
    ensures LastGild(es + [e]) == if GroupIn(e).Some? then GroupIn(e) else LastGild(es)
  {
    assert (es + [e])[..|es|] == es;
  }

  lemma LongerList(p: seq<Option<Gild>>, before: Option<Gild>, last: Option<Gild>)
    requires LastOf(p, before)
    ensures LastOf(p + [last], if last.Some? then last else before)
  {
    var q := p + [last];
    assert q[|p|] == last;
    if last.None? && before.Some? {
      var k :| 0 <= k < |p| && p[k] == before && forall j :: k < j < |p| ==> p[j].None?;
      StillLast(p, q, k);
    } else if last.None? {
      forall k | 0 <= k < |q|
        ensures q[k].None?
      {
        assert k < |p| ==> q[k] == p[k];
      }
    }
  }

  lemma StillLast(p: seq<Option<Gild>>, q: seq<Option<Gild>>, k: nat)
    requires q == p + [None] && k < |p| && p[k].Some? && forall j :: k < j < |p| ==> p[j].None?
    ensures LastOf(q, p[k])
  {
    assert q[k] == p[k];
    forall j | k < j < |q|
      ensures q[j].None?
    {
      assert j < |p| ==> q[j] == p[j];
    }
  }

  lemma CarriesExactly(e: Element)
    ensures match GroupIn(e)
            case None => forall g :: !CarriesGroup(e, g)
            case Some(g) => CarriesGroup(e, g)
  {
    forall g
      ensures CarriesGroup(e, g) <==> GroupIn(e) == Some(g)
    {
      CarriedIff(e, g);
    }
  }

  lemma LastGildIsLast(es: seq<Element>)
    ensures LastGroup(es, LastGild(es))
  {
    LastGildIsLastOf(es, Groups(es), LastGild(es));
    forall k | 0 <= k < |es|
      ensures match Groups(es)[k]
              case None => forall g :: !CarriesGroup(es[k], g)
              case Some(g) => CarriesGroup(es[k], g)
    {
      CarriesExactly(es[k]);
    }
  }

  /** The last group identity location demand that counts. */
  function LastGild(es: seq<Element>): Option<Gild> {
    if |es| == 0 then None
    else
      Newest(es[|es| - 1], LastGild(es[..|es| - 1]))
  }

  /** The group of a location demand element, otherwise the one before. */
  function Newest(e: Element, before: Option<Gild>): Option<Gild> {
    if e.id != 3 then before
    else match GildOf(e.payload)
      case None => before
      case Some(g) => Some(g)
  }

  function Half(o: Option<nat>): Option<nat> {
    match o case None => None case Some(v) => Some(v / 2)
  }

  function Reported(d: Demand): Report {
    match d.optionals
    case None => Report(d.updateType, d.append, d.cipher.Some?, None, None, None, None, None, None)
    case Some(o) => ReportFields(d.updateType, d.append, d.cipher.Some?, o, LastGild(o.elements))
  }

  /** The report, field by field: of the location area only the upper 14 of its 15 bits. */
  ghost predicate FieldByField(d: Demand, out: Report) {
    && out.updateType == d.updateType && out.append == d.append && out.cipherOn == d.cipher.Some?
    && match d.optionals
       case None => out.classOfMs.None? && out.energySaving.None? && out.la.None? && out.ssi.None? && out.ext.None?
             && out.gild.None?
       case Some(o) =>
         && out.classOfMs == o.classOfMs && out.energySaving == o.energySaving && out.ssi == o.ssi && out.ext == o.ext
         && (out.la.Some? <==> o.la.Some?) && (o.la.Some? ==> 2 * out.la.value <= o.la.value <= 2 * out.la.value + 1)
         && LastGroup(o.elements, out.gild)
  }

  lemma ReportedFieldByField(d: Demand)
    ensures FieldByField(d, Reported(d))
  {
    if d.optionals.Some? {
      LastGildIsLast(d.optionals.value.elements);
    }
  }

  // ---- The walker ----

  /** A presence bit at the cursor and the field it announces. */
  method ReadOptional(body: seq<bool>, pos: nat, remain: nat, n: nat)
    returns (ok: bool, o: Option<nat>, next: nat, left: nat)
    requires pos + remain == |body|
    ensures ok ==> next + left == |body| && Optional(body[pos..], n) == Done(o, body[next..])
    ensures !ok ==> Optional(body[pos..], n) == Fail
  {
    next, left, o := pos, remain, None;
    if left == 0 {
      return false, None, next, left;
    }
    var p;
    p, next := ReadBits(body, next, 1);
    left := left - 1;
    SingleBit(body, pos, next);
    if p == 1 {
      if left < n {
        return false, None, next, left;
      }
      var v;
      v, next := ReadBits(body, next, n);
      left := left - n;
      o := Some(v);
      FieldAtCursor(body, pos + 1, n);
    }
    ok := true;
  }

  lemma SingleBit(body: seq<bool>, pos: nat, next: nat)
    requires pos < |body| && next == pos + 1
    ensures Value(body[pos..pos + 1]) == BitValue(body[pos]) && body[pos..][0] == body[pos] && body[pos..][1..] == body[next..]
  {
    assert body[pos..pos + 1] == [body[pos]];
    assert [body[pos]][..0] == [];
  }

  lemma FieldAtCursor(body: seq<bool>, pos: nat, n: nat)
    requires pos + n <= |body|
    ensures Field(body[pos..], n) == Done(Value(body[pos..pos + n]), body[pos + n..])
  {
    assert body[pos..][..n] == body[pos..pos + n] && body[pos..][n..] == body[pos + n..];
  }

  /** A Type-3 element's identifier and length at the cursor, and its payload behind it. */
  method ReadElement(body: seq<bool>, pos: nat, remain: nat)
    returns (ok: bool, id: nat, length: nat, next: nat, left: nat)
    requires pos + remain == |body|
    ensures ok ==> next + left == |body| && length <= left && next == pos + 15
    ensures ok ==> OneElement(body[pos..]) == Done(Element(id, body[next..next + length]), body[next + length..])
    ensures !ok ==> OneElement(body[pos..]) == Fail
  {
    next, left, id, length := pos, remain, 0, 0;
    if left < 15 {
      ShortElement(body, pos);
      return false, 0, 0, next, left;
    }
    FieldAtCursor(body, pos, 4);
    FieldAtCursor(body, pos + 4, 11);
    id, next := ReadBits(body, next, 4);
    length, next := ReadBits(body, next, 11);
    left := left - 15;
    ok := length <= left;
    if ok {
      Payload(body, next, length);
    }
  }

  lemma ShortElement(body: seq<bool>, pos: nat)
    requires pos <= |body| < pos + 15
    ensures OneElement(body[pos..]) == Fail
  {
  }

  lemma Payload(body: seq<bool>, pos: nat, length: nat)
    requires pos + length <= |body|
    ensures body[pos..][..length] == body[pos..pos + length] && body[pos..][length..] == body[pos + length..]
  {
  }

  method PeekBit(body: seq<bool>, pos: nat) returns (b: bool)
    ensures b == (pos < |body| && body[pos])
  {
    b := if pos >= |body| then false else body[pos];
  }

  /** The sub-walker for the payload of g bits at gp. */
  method WalkGild(body: seq<bool>, gp: nat, g: nat) returns (r: Option<Gild>)
    requires gp + g <= |body|
    ensures r == GildOf(body[gp..gp + g])
  {
    r := None;
    if g >= 3 {
      var obit := PeekBit(body, gp + 2);
      if obit && g >= 29 {
        var uplink := IsUplinkHeader(body, gp, g);
        if uplink && g >= 32 {
          var numElem, nePos := ReadBits(body, gp + 19, 6);
          SubField(body, gp, g, 19, 6);
          if numElem >= 1 {
            var adi := PeekBit(body, gp + 25);
            if !adi && g >= 56 {
              r := ReadGild(body, gp, g);
            }
          }
        }
      }
    }
  }

  /** Whether a group identity uplink element of 6 bits or more starts the payload. */
  method IsUplinkHeader(body: seq<bool>, gp: nat, g: nat) returns (ok: bool)
    requires gp + g <= |body| && g >= 29
    ensures var p := body[gp..gp + g]; ok == (p[3] && Value(p[4..8]) == 8 && Value(p[8..19]) >= 6)
  {
    var mb := PeekBit(body, gp + 3);
    var subId, subPos := ReadBits(body, gp + 4, 4);
    var subLen;
    subLen, subPos := ReadBits(body, subPos, 11);
    SubField(body, gp, g, 4, 4);
    SubField(body, gp, g, 8, 11);
    ok := mb && subId == 8 && subLen >= 6;
  }

  method ReadGild(body: seq<bool>, gp: nat, g: nat) returns (r: Option<Gild>)
    requires gp + g <= |body| && g >= 56
    ensures var p := body[gp..gp + g];
            r == if Value(p[29..31]) <= 1 then Some(Gild(Value(p[31..55]), Value(p[26..29]), Value(p[29..31]))) else None
  {
    var cou, couPos := ReadBits(body, gp + 26, 3);
    var at;
    at, couPos := ReadBits(body, couPos, 2);
    SubField(body, gp, g, 26, 3);
    SubField(body, gp, g, 29, 2);
    r := None;
    if at == 0 || at == 1 {
      var gssi, gssiPos := ReadBits(body, gp + 31, 24);
      SubField(body, gp, g, 31, 24);
      r := Some(Gild(gssi, cou, at));
    }
  }

  lemma SubField(body: seq<bool>, gp: nat, g: nat, k: nat, n: nat)
    requires gp + g <= |body| && k + n <= g
    ensures body[gp..gp + g][k..k + n] == body[gp + k..gp + k + n]
  {
    var u, v := body[gp..gp + g][k..k + n], body[gp + k..gp + k + n];
    forall j | 0 <= j < n
      ensures u[j] == v[j]
    {
    }
  }

  /** The outcome of reading elements es and then whatever rest gives. */
  function Before(es: seq<Element>, rest: Parsed<seq<Element>>): Parsed<seq<Element>> {
    match rest
    case Fail => Fail
    case Done(more, last) => Done(es + more, last)
  }

  /** After the elements es, whose last group is gild, the walk goes on with the bits s. */
  predicate Walked(all: Parsed<seq<Element>>, es: seq<Element>, gild: Option<Gild>, s: seq<bool>) {
    all == Before(es, Elements(s)) && gild == LastGild(es)
  }

  /** The loop over the Type-3 elements; the cursor stays within the body. */
  method WalkElements(body: seq<bool>, start: nat, remain: nat) returns (ok: bool, gild: Option<Gild>)
    requires start + remain == |body|
    ensures ok <==> Elements(body[start..]).Done?
    ensures ok ==> gild == LastGild(Elements(body[start..]).value)
  {
    var pos, left := start, remain;
    ghost var all, es := Elements(body[start..]), [];
    gild := None;
    BeforeNothing(all);
    while left > 0
      invariant pos + left == |body| && Walked(all, es, gild, body[pos..])
    {
      var mbit := PeekBit(body, pos);
      if !mbit {
        EndStep(body, pos, all, es, gild);
        return true, gild;
      }
      ghost var e;
      ok, e, gild, pos, left := WalkElement(body, pos, left, all, es, gild);
      if !ok {
        return;
      }
      es := es + [e];
    }
    EndStep(body, pos, all, es, gild);
    ok := true;
  }

  /** One element behind a set m-bit. */
  method WalkElement(body: seq<bool>, pos: nat, remain: nat, ghost all: Parsed<seq<Element>>, ghost es: seq<Element>,
                     gild: Option<Gild>)
    returns (ok: bool, ghost e: Element, latest: Option<Gild>, next: nat, left: nat)
    requires pos + remain == |body| && remain > 0 && body[pos] && Walked(all, es, gild, body[pos..])
    ensures !ok ==> all == Fail
    ensures ok ==> next + left == |body| && left < remain && Walked(all, es + [e], latest, body[next..])
  {
    var id, length;
    ok, id, length, next, left := ReadElement(body, pos + 1, remain - 1);
    latest, e := gild, Element(id, []);
    if !ok {
      StepFails(body, pos, all, es, gild);
      return;
    }
    e := Element(id, body[next..next + length]);
    ElementStep(body, pos, all, es, gild, e, next + length);
    latest := Latest(body, id, length, next, gild, e);
    next, left := next + length, left - length;
  }

  /** Takes over the group of the element at the cursor, if it has one. */
  method Latest(body: seq<bool>, id: nat, length: nat, pos: nat, gild: Option<Gild>, ghost e: Element)
    returns (r: Option<Gild>)
    requires pos + length <= |body| && e == Element(id, body[pos..pos + length])
    ensures r == Newest(e, gild)
  {
    r := gild;
    if id == 3 && length > 0 {
      var g := WalkGild(body, pos, length);
      if g.Some? {
        r := g;
      }
    }
  }

  lemma BeforeNothing(p: Parsed<seq<Element>>)
    ensures Before([], p) == p
  {
    if p.Done? {
      assert [] + p.value == p.value;
    }
  }

  lemma EndStep(body: seq<bool>, pos: nat, all: Parsed<seq<Element>>, es: seq<Element>, gild: Option<Gild>)
    requires pos <= |body| && (pos < |body| ==> !body[pos]) && Walked(all, es, gild, body[pos..])
    ensures all == Done(es, body[pos..]) && gild == LastGild(es)
  {
    assert Ends(body[pos..]);
    assert es + [] == es;
  }

  /** A set m-bit at the cursor: the element behind it is the next one, or the walk fails. */
  lemma ElementStep(body: seq<bool>, m: nat, all: Parsed<seq<Element>>, es: seq<Element>, gild: Option<Gild>, e: Element,
                    next: nat)
    requires m < |body| && body[m] && next <= |body| && Walked(all, es, gild, body[m..])
    requires OneElement(body[m + 1..]) == Done(e, body[next..])
    ensures Walked(all, es + [e], Newest(e, gild), body[next..])
  {
    Behind(body, m);
    ElementFirst(body[m..], e, body[next..]);
    NextElement(es, e, Elements(body[next..]));
  }

  lemma StepFails(body: seq<bool>, m: nat, all: Parsed<seq<Element>>, es: seq<Element>, gild: Option<Gild>)
    requires m < |body| && body[m] && Walked(all, es, gild, body[m..]) && OneElement(body[m + 1..]) == Fail
    ensures all == Fail
  {
    Behind(body, m);
  }

  lemma Behind(body: seq<bool>, m: nat)
    requires m < |body|
    ensures body[m..][0] == body[m] && body[m..][1..] == body[m + 1..]
  {
  }

  lemma ElementFirst(s: seq<bool>, e: Element, rest: seq<bool>)
    requires |s| > 0 && s[0] && OneElement(s[1..]) == Done(e, rest)
    ensures Elements(s) == Before([e], Elements(rest))
  {
  }

  lemma NextElement(es: seq<Element>, e: Element, rest: Parsed<seq<Element>>)
    ensures Before(es, Before([e], rest)) == Before(es + [e], rest)
    ensures LastGild(es + [e]) == Newest(e, LastGild(es))
  {
    assert (es + [e])[..|es|] == es;
    if rest.Done? {
      assert es + ([e] + rest.value) == (es + [e]) + rest.value;
    }
  }

  /** The five optional fields behind the o-bit. */
  method WalkFields(body: seq<bool>, start: nat, remain: nat) returns (ok: bool, o: Optionals, pos: nat, left: nat)
    requires start + remain == |body|
    ensures ok ==> pos + left == |body| && ReadFields(body[start..]) == Done(o, body[pos..])
    ensures !ok ==> ReadFields(body[start..]) == Fail
  {
    pos, left := start, remain;
    o := Optionals(None, None, None, None, None, []);
    var classOfMs, energySaving, la, ssi, ext;
    ok, classOfMs, pos, left := ReadOptional(body, pos, left, 24);
    if !ok {
      return;
    }
    ok, energySaving, pos, left := ReadOptional(body, pos, left, 3);
    if !ok {
      return;
    }
    ok, la, pos, left := ReadOptional(body, pos, left, 15);
    if !ok {
      return;
    }
    ok, ssi, pos, left := ReadOptional(body, pos, left, 24);
    if !ok {
      return;
    }
    ok, ext, pos, left := ReadOptional(body, pos, left, 24);
    if !ok {
      return;
    }
    o := Optionals(classOfMs, energySaving, la, ssi, ext, []);
  }

  /** The fields and then the elements. */
  method WalkOptionals(body: seq<bool>, start: nat, remain: nat) returns (ok: bool, o: Optionals, gild: Option<Gild>)
    requires start + remain == |body|
    ensures ok <==> ReadOptionals(body[start..]).Done?
    ensures ok ==> var r := ReadOptionals(body[start..]).value;
                   o == r.(elements := []) && gild == LastGild(r.elements)
  {
    var pos, left;
    gild := None;
    ok, o, pos, left := WalkFields(body, start, remain);
    if ok {
      ok, gild := WalkElements(body, pos, left);
      NoElements(body[start..]);
    }
  }

  lemma NoElements(s: seq<bool>)
    requires ReadFields(s).Done?
    ensures ReadFields(s).value.elements == []
  {
  }

  function ReportFields(updateType: nat, append: bool, cipherOn: bool, o: Optionals, gild: Option<Gild>): Report {
    Report(updateType, append, cipherOn, o.classOfMs, o.energySaving, Half(o.la), o.ssi, o.ext, gild)
  }

  lemma PrintedIsReported(body: seq<bool>)
    ensures forall d, rest :: DemandOk(d) && Ends(rest) && body == Print(d, rest) ==>
              ReadDemand(body).Done? && FieldByField(d, Reported(ReadDemand(body).value))
  {
    forall d, rest | DemandOk(d) && Ends(rest) && body == Print(d, rest)
      ensures ReadDemand(body).Done? && FieldByField(d, Reported(ReadDemand(body).value))
    {
      DemandOfPrint(d, rest);
      ReportedFieldByField(d);
    }
  }

  /** walk_mm2: 0 and the reported fields, or -1. */
  method WalkMm2(body: seq<bool>) returns (rc: int, out: Report)
    requires |body| == BODY_BITS
    ensures rc == if ReadDemand(body).Done? then 0 else -1
    ensures rc == 0 ==> out == Reported(ReadDemand(body).value)
    ensures forall d, rest :: DemandOk(d) && Ends(rest) && body == Print(d, rest) ==> rc == 0 && FieldByField(d, out)
  {
    PrintedIsReported(body);
    var updateType, pos := ReadBits(body, 0, 3);
    var append := body[3];
    var ok, cipher, left;
    ok, cipher, pos, left := ReadOptional(body, 4, BODY_BITS - 4, 10);
    out := Report(updateType, append, cipher.Some?, None, None, None, None, None, None);
    if !ok {
      return -1, out;
    }
    rc, out := WalkRest(body, pos, left, updateType, append, cipher);
  }

  /** From the o-bit on. */
  method WalkRest(body: seq<bool>, pos: nat, left: nat, updateType: nat, append: bool, cipher: Option<nat>)
    returns (rc: int, out: Report)
    requires |body| == BODY_BITS == pos + left && updateType == Value(body[..3]) && append == body[3]
    requires Optional(body[4..], 10) == Done(cipher, body[pos..])
    ensures rc == if ReadDemand(body).Done? then 0 else -1
    ensures rc == 0 ==> out == Reported(ReadDemand(body).value)
  {
    out := Report(updateType, append, cipher.Some?, None, None, None, None, None, None);
    if left == 0 {
      return 0, out;
    }
    var obit := PeekBit(body, pos);
    if !obit {
      return 0, out;
    }
    assert body[pos..][1..] == body[pos + 1..];
    var ok, o, gild := WalkOptionals(body, pos + 1, left - 1);
    if !ok {
      return -1, out;
    }
    return 0, ReportFields(updateType, append, cipher.Some?, o, gild);
  }
}
