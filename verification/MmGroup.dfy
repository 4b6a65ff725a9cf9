/** U-ATTACH-DETACH-GROUP-IDENTITY (mm = 7; EN 300 392-2 section 16.10): the walker inverts a printer. */
module MmGroup {
  import opened Wrappers
  import opened BitSeq
  import opened MmBits
  import opened MmLocation

  const REPORT_RESPONSE: nat := 4
  const IDENTITY_UPLINK: nat := 8
  const MAX_RECORDS: nat := 3

  /** usage is the 3-bit class of usage of an attachment or the 2-bit reason of a detachment. */
  datatype Record = Record(detach: bool, usage: nat, addressType: nat, gssi: nat, ext: nat)

  /** The place of the group report response: nothing, a clear m-bit, or the element. */
  datatype Response = NoBit | ClearBit | Present(payload: seq<bool>)

  /** identities is the payload of the group identity uplink element. */
  datatype Content = Content(response: Response, identities: Option<seq<bool>>)

  datatype GroupDemand = GroupDemand(report: bool, mode: bool, content: Option<Content>)

  // ---- Records ----

  function UsageBits(detach: bool): nat {
    if detach then 2 else 3
  }

  /** Address fields by address type: 0 and 2 have a group identity, 1 also an extension, 3 nothing. */
  function ReadAddress(s: seq<bool>, detach: bool, usage: nat, at: nat): Parsed<Record> {
    if at >= 3 then Done(Record(detach, usage, at, 0, 0), s)
    else match Field(s, 24)
      case Fail => Fail
      case Done(gssi, s1) =>
        if at != 1 then Done(Record(detach, usage, at, gssi, 0), s1)
        else match Field(s1, 24)
          case Fail => Fail
          case Done(ext, s2) => Done(Record(detach, usage, at, gssi, ext), s2)
  }

  function OneRecord(s: seq<bool>): Parsed<Record> {
    if |s| < 1 then Fail
    else match Field(s[1..], UsageBits(s[0]))
      case Fail => Fail
      case Done(usage, s1) =>
        match Field(s1, 2)
        case Fail => Fail
        case Done(at, s2) => ReadAddress(s2, s[0], usage, at)
  }

  function PrintAddress(r: Record, rest: seq<bool>): seq<bool> {
    if r.addressType >= 3 then rest
    else if r.addressType != 1 then Bits(r.gssi, 24) + rest
    else Bits(r.gssi, 24) + (Bits(r.ext, 24) + rest)
  }

  function PrintRecord(r: Record, rest: seq<bool>): seq<bool> {
    [r.detach] + (Bits(r.usage, if r.detach then 2 else 3) + (Bits(r.addressType, 2) + PrintAddress(r, rest)))
  }

  predicate RecordOk(r: Record) {
    && r.usage < Pow2(UsageBits(r.detach)) && r.addressType < Pow2(2) && r.gssi < Pow2(24) && r.ext < Pow2(24)
    && (r.addressType >= 3 ==> r.gssi == 0) && (r.addressType != 1 ==> r.ext == 0)
  }

  lemma AddressOfPrint(r: Record, rest: seq<bool>)
    requires RecordOk(r)
    ensures ReadAddress(PrintAddress(r, rest), r.detach, r.usage, r.addressType) == Done(r, rest)
  {
    FieldOfBits(r.ext, 24, rest);
    FieldOfBits(r.gssi, 24, Bits(r.ext, 24) + rest);
    FieldOfBits(r.gssi, 24, rest);
  }

  lemma RecordOfPrint(r: Record, rest: seq<bool>)
    requires RecordOk(r)
    ensures OneRecord(PrintRecord(r, rest)) == Done(r, rest)
  {
    var s2 := PrintAddress(r, rest);
    FieldOfBits(r.usage, UsageBits(r.detach), Bits(r.addressType, 2) + s2);
    FieldOfBits(r.addressType, 2, s2);
    AddressOfPrint(r, rest);
    Front([r.detach], Bits(r.usage, UsageBits(r.detach)) + (Bits(r.addressType, 2) + s2));
  }

  lemma AddressIsPrint(s: seq<bool>, detach: bool, usage: nat, at: nat)
    requires ReadAddress(s, detach, usage, at).Done? && usage < Pow2(UsageBits(detach)) && at < Pow2(2)
    ensures var f := ReadAddress(s, detach, usage, at);
            && RecordOk(f.value) && f.value.detach == detach && f.value.usage == usage && f.value.addressType == at
            && s == PrintAddress(f.value, f.rest) && |f.rest| <= |s|
  {
    if at < 3 {
      FieldIsBits(s, 24);
      if at == 1 {
        FieldIsBits(Field(s, 24).rest, 24);
      }
    }
  }

  lemma RecordIsPrint(s: seq<bool>)
    requires OneRecord(s).Done?
    ensures var f := OneRecord(s); RecordOk(f.value) && s == PrintRecord(f.value, f.rest) && |f.rest| < |s|
  {
    FieldIsBits(s[1..], UsageBits(s[0]));
    var f1 := Field(s[1..], UsageBits(s[0]));
    FieldIsBits(f1.rest, 2);
    var f2 := Field(f1.rest, 2);
    AddressIsPrint(f2.rest, s[0], f1.value, f2.value);
    assert s == [s[0]] + s[1..];
  }

  /** Up to k results of a reader, as many as are complete. */
  function Repeated<R>(read: seq<bool> -> Parsed<R>, s: seq<bool>, k: nat): (rs: seq<R>)
    ensures |rs| <= k
    decreases k
  {
    if k == 0 then []
    else match read(s)
      case Fail => []
      case Done(r, rest) => [r] + Repeated(read, rest, k - 1)
  }

  /** Up to k records, as many as are complete. */
  function Records(s: seq<bool>, k: nat): (rs: seq<Record>)
    ensures |rs| <= k
  {
    Repeated(OneRecord, s, k)
  }

  function PrintRecords(rs: seq<Record>, rest: seq<bool>): seq<bool> {
    if |rs| == 0 then rest else PrintRecord(rs[0], PrintRecords(rs[1..], rest))
  }

  predicate RecordsOk(rs: seq<Record>) {
    forall k :: 0 <= k < |rs| ==> RecordOk(rs[k])
  }

  lemma RecordsStep(r: Record, rest: seq<bool>, k: nat)
    requires RecordOk(r) && k > 0
    ensures Records(PrintRecord(r, rest), k) == [r] + Records(rest, k - 1)
  {
    RecordOfPrint(r, rest);
  }

  lemma {:induction false} RecordsOfPrint(rs: seq<Record>, rest: seq<bool>)
    requires RecordsOk(rs)
    ensures Records(PrintRecords(rs, rest), |rs|) == rs
    decreases |rs|
  {
    if |rs| > 0 {
      var more := rs[1..];
      RecordsOfPrint(more, rest);
      RecordsStep(rs[0], PrintRecords(more, rest), |rs|);
      assert rs == [rs[0]] + more;
    }
  }

  /** Results already read and up to k more. */
  function Outlook<R>(read: seq<bool> -> Parsed<R>, rs: seq<R>, s: seq<bool>, k: nat): seq<R> {
    rs + Repeated(read, s, k)
  }

  lemma OutlookAtEnd<R>(read: seq<bool> -> Parsed<R>, rs: seq<R>, s: seq<bool>, k: nat)
    requires k == 0 || read(s).Fail?
    ensures Outlook(read, rs, s, k) == rs
  {
    assert Repeated(read, s, k) == [];
  }

  lemma OutlookStep<R>(read: seq<bool> -> Parsed<R>, rs: seq<R>, s: seq<bool>, k: nat, r: R, rest: seq<bool>)
    requires k > 0 && read(s) == Done(r, rest)
    ensures Outlook(read, rs, s, k) == Outlook(read, rs + [r], rest, k - 1)
  {
    assert Repeated(read, s, k) == [r] + Repeated(read, rest, k - 1);
    Regroup(rs, [r], Repeated(read, rest, k - 1));
  }

  function Fewer(a: nat, b: nat): nat {
    if a < b then a else b
  }

  /** The records of an identity uplink payload; an announced first record must be complete. */
  function Identities(p: seq<bool>): Parsed<seq<Record>> {
    if |p| < 6 then Fail else Announced(Value(p[..6]), Records(p[6..], Fewer(Value(p[..6]), MAX_RECORDS)))
  }

  function Announced(n: nat, rs: seq<Record>): Parsed<seq<Record>> {
    if n > 0 && rs == [] then Fail else Done(rs, [])
  }

  /** A payload that announces n records and carries the first three or fewer of them is reported exactly. */
  lemma IdentitiesOfPrint(n: nat, rs: seq<Record>, tail: seq<bool>)
    requires n < Pow2(6) && |rs| == Fewer(n, MAX_RECORDS) && RecordsOk(rs)
    ensures Identities(Bits(n, 6) + PrintRecords(rs, tail)) == Done(rs, [])
  {
    FieldOfBits(n, 6, PrintRecords(rs, tail));
    RecordsOfPrint(rs, tail);
  }

  /** No record can be read from these bits. */
  ghost predicate NoRecord(s: seq<bool>) {
    forall r, rest :: RecordOk(r) ==> s != PrintRecord(r, rest)
  }

  lemma NoRecordFails(s: seq<bool>)
    ensures NoRecord(s) <==> OneRecord(s).Fail?
  {
    if OneRecord(s).Done? {
      RecordIsPrint(s);
    }
    if r, rest :| RecordOk(r) && s == PrintRecord(r, rest) {
      RecordOfPrint(r, rest);
    }
  }

  /** n announced records, of which the first three, or fewer where the payload breaks off, are rs. */
  ghost predicate PrintsRecords(p: seq<bool>, n: nat, rs: seq<Record>, tail: seq<bool>) {
    && n < Pow2(6) && RecordsOk(rs) && p == Bits(n, 6) + PrintRecords(rs, tail)
    && (|rs| == Fewer(n, 3) || (0 < |rs| < Fewer(n, 3) && NoRecord(tail)))
  }

  lemma {:induction false} RecordsBreakOff(s: seq<bool>, rs: seq<Record>, tail: seq<bool>, k: nat)
    requires s == PrintRecords(rs, tail) && RecordsOk(rs) && |rs| <= k && OneRecord(tail).Fail?
    ensures Records(s, k) == rs
    decreases |rs|, 1
  {
    if |rs| > 0 {
      var more := rs[1..];
      assert rs == [rs[0]] + more;
      OneMoreRecord(s, rs[0], more, tail, k - 1, k, PrintRecords(more, tail));
    }
  }

  lemma {:induction false} OneMoreRecord(s: seq<bool>, r: Record, more: seq<Record>, tail: seq<bool>, j: nat, k: nat,
                                         rest: seq<bool>)
    requires RecordOk(r) && RecordsOk(more) && rest == PrintRecords(more, tail) && s == PrintRecord(r, rest)
    requires k == j + 1 && |more| <= j && OneRecord(tail).Fail?
    ensures Records(s, k) == [r] + more
    decreases |more| + 1, 0
  {
    RecordsBreakOff(rest, more, tail, j);
    PrependedRecord(s, r, rest, j, k, more);
  }

  lemma PrependedRecord(s: seq<bool>, r: Record, rest: seq<bool>, j: nat, k: nat, more: seq<Record>)
    requires RecordOk(r) && s == PrintRecord(r, rest) && k == j + 1 && Records(rest, j) == more
    ensures Records(s, k) == [r] + more
  {
    RecordOfPrint(r, rest);
    ReadOneMore(s, r, rest, j, k);
  }

  lemma ReadOneMore(s: seq<bool>, r: Record, rest: seq<bool>, j: nat, k: nat)
    requires k == j + 1 && OneRecord(s) == Done(r, rest)
    ensures Records(s, k) == [r] + Records(rest, j)
  {
  }

  lemma NothingToRead(tail: seq<bool>, k: nat)
    requires OneRecord(tail).Fail?
    ensures Records(tail, k) == []
  {
  }

  /** Such payloads are read back. */
  lemma PrintedRecordsAreRead(p: seq<bool>, n: nat, rs: seq<Record>, tail: seq<bool>)
    requires PrintsRecords(p, n, rs, tail)
    ensures Identities(p) == Done(rs, [])
  {
    FieldOfBits(n, 6, PrintRecords(rs, tail));
    if |rs| == Fewer(n, 3) {
      RecordsOfPrint(rs, tail);
    } else {
      NoRecordFails(tail);
      RecordsBreakOff(PrintRecords(rs, tail), rs, tail, Fewer(n, 3));
    }
  }

  lemma {:induction false} RecordsArePrinted(s: seq<bool>, k: nat) returns (rs: seq<Record>, tail: seq<bool>)
    ensures rs == Records(s, k) && RecordsOk(rs) && s == PrintRecords(rs, tail) && (|rs| == k || OneRecord(tail).Fail?)
    decreases k, 1
  {
    rs, tail := [], s;
    if k > 0 {
      var f := OneRecord(s);
      if f.Done? {
        RecordIsPrint(s);
        rs, tail := RecordsFromFirst(s, k - 1, k, f.value, f.rest);
      } else {
        NothingToRead(s, k);
      }
    }
  }

  lemma {:induction false} RecordsFromFirst(s: seq<bool>, j: nat, k: nat, r: Record, rest: seq<bool>)
    returns (rs: seq<Record>, tail: seq<bool>)
    requires k == j + 1 && RecordOk(r) && s == PrintRecord(r, rest)
    ensures rs == Records(s, k) && RecordsOk(rs) && s == PrintRecords(rs, tail) && (|rs| == k || OneRecord(tail).Fail?)
    decreases k, 0
  {
    var more;
    more, tail := RecordsArePrinted(rest, j);
    MoreRecords(s, j, k, r, rest, more, tail);
    rs := [r] + more;
  }

  lemma MoreRecords(s: seq<bool>, j: nat, k: nat, r: Record, rest: seq<bool>, more: seq<Record>, tail: seq<bool>)
    requires k == j + 1 && RecordOk(r) && s == PrintRecord(r, rest) && more == Records(rest, j) && RecordsOk(more)
    requires rest == PrintRecords(more, tail)
    ensures Records(s, k) == [r] + more && RecordsOk([r] + more) && s == PrintRecords([r] + more, tail)
  {
    PrependedRecord(s, r, rest, j, k, more);
    assert ([r] + more)[1..] == more;
  }

  /** And there are no others that are accepted. */
  lemma ReadRecordsArePrinted(p: seq<bool>) returns (n: nat, tail: seq<bool>)
    requires Identities(p).Done?
    ensures PrintsRecords(p, n, Identities(p).value, tail)
  {
    n := Value(p[..6]);
    var rs;
    rs, tail := RecordsArePrinted(p[6..], Fewer(n, 3));
    FrontField(p[..6], 6);
    SplitAt(p, 6);
    PrintsRecordsOrLess(p, n, rs, tail);
  }

  lemma PrintsRecordsOrLess(p: seq<bool>, n: nat, rs: seq<Record>, tail: seq<bool>)
    requires n < Pow2(6) && RecordsOk(rs) && p == Bits(n, 6) + PrintRecords(rs, tail)
    requires |rs| == Fewer(n, 3) || (0 < |rs| < Fewer(n, 3) && OneRecord(tail).Fail?)
    ensures PrintsRecords(p, n, rs, tail)
  {
    NoRecordFails(tail);
  }

  // ---- The whole demand ----

  function ReadResponse(s: seq<bool>): Parsed<Response> {
    if |s| == 0 then Fail
    else if !s[0] then Done(ClearBit, s[1..])
    else if |s| < 5 then Fail
    else if Value(s[1..5]) != REPORT_RESPONSE then Done(NoBit, s)
    else match OneElement(s[1..])
      case Fail => Fail
      case Done(e, rest) => Done(Present(e.payload), rest)
  }

  function ReadIdentities(s: seq<bool>): Parsed<Option<seq<bool>>> {
    if Ends(s) then Done(None, s)
    else match OneElement(s[1..])
      case Fail => Fail
      case Done(e, rest) =>
        if e.id != IDENTITY_UPLINK || Identities(e.payload).Fail? then Fail else Done(Some(e.payload), rest)
  }

  function ReadContent(s: seq<bool>): Parsed<Content> {
    match ReadResponse(s)
    case Fail => Fail
    case Done(response, s1) =>
      match ReadIdentities(s1)
      case Fail => Fail
      case Done(identities, rest) => Done(Content(response, identities), rest)
  }

  function ReadGroupDemand(s: seq<bool>): Parsed<GroupDemand> {
    if |s| < 2 then Fail
    else if Ends(s[2..]) then Done(GroupDemand(s[0], s[1], None), s[2..])
    else match ReadContent(s[3..])
      case Fail => Fail
      case Done(c, rest) => Done(GroupDemand(s[0], s[1], Some(c)), rest)
  }

  function PrintResponse(r: Response, rest: seq<bool>): seq<bool> {
    match r
    case NoBit => rest
    case ClearBit => [false] + rest
    case Present(p) => [true] + PrintElement(Element(4, p), rest)
  }

  function PrintIdentities(o: Option<seq<bool>>, rest: seq<bool>): seq<bool> {
    match o
    case None => rest
    case Some(p) => [true] + PrintElement(Element(8, p), rest)
  }

  function PrintGroupDemand(d: GroupDemand, rest: seq<bool>): seq<bool> {
    [d.report, d.mode] + match d.content
      case None => rest
      case Some(c) => [true] + PrintResponse(c.response, PrintIdentities(c.identities, rest))
  }

  predicate ContentOk(c: Content) {
    && (c.response.Present? ==> |c.response.payload| < Pow2(11))
    && (c.response.NoBit? ==> c.identities.Some?)
    && (c.identities.Some? ==> |c.identities.value| < Pow2(11) && Identities(c.identities.value).Done?)
  }

  predicate GroupDemandOk(d: GroupDemand) {
    d.content.Some? ==> ContentOk(d.content.value)
  }

  /** An element's demand ends where it is printed to end; only None needs the bits to end there. */
  predicate EndsGroup(d: GroupDemand, rest: seq<bool>) {
    d.content.None? || d.content.value.identities.None? ==> Ends(rest)
  }

  lemma SmallNumbers()
    ensures REPORT_RESPONSE < Pow2(4) && IDENTITY_UPLINK < Pow2(4)
  {
    assert Pow2(0) == 1 && Pow2(1) == 2 && Pow2(2) == 4 && Pow2(3) == 8;
  }

  lemma TaggedElement(e: Element, rest: seq<bool>)
    requires ElementOk(e)
    ensures var s := [true] + PrintElement(e, rest);
            |s| >= 16 && s[0] && Value(s[1..5]) == e.id && OneElement(s[1..]) == Done(e, rest)
  {
    ElementOfPrint(e, rest);
    ValueOfBits(e.id, 4);
    var s := [true] + PrintElement(e, rest);
    Front([true], PrintElement(e, rest));
    assert s[1..5] == Bits(e.id, 4);
  }

  lemma IdentitiesElementOfPrint(o: Option<seq<bool>>, rest: seq<bool>)
    requires o.Some? ==> |o.value| < Pow2(11) && Identities(o.value).Done?
    requires o.None? ==> Ends(rest)
    ensures ReadIdentities(PrintIdentities(o, rest)) == Done(o, rest)
  {
    if o.Some? {
      SmallNumbers();
      TaggedElement(Element(IDENTITY_UPLINK, o.value), rest);
    }
  }

  lemma ResponseOfPrint(c: Content, rest: seq<bool>)
    requires ContentOk(c)
    ensures var s1 := PrintIdentities(c.identities, rest);
            ReadResponse(PrintResponse(c.response, s1)) == Done(c.response, s1)
  {
    var s1 := PrintIdentities(c.identities, rest);
    SmallNumbers();
    match c.response
    case NoBit => TaggedElement(Element(IDENTITY_UPLINK, c.identities.value), rest);
    case ClearBit => Front([false], s1);
    case Present(p) => TaggedElement(Element(REPORT_RESPONSE, p), s1);
  }

  /** The grammar reads back every printed demand. */
  lemma GroupDemandOfPrint(d: GroupDemand, rest: seq<bool>)
    requires GroupDemandOk(d) && EndsGroup(d, rest)
    ensures ReadGroupDemand(PrintGroupDemand(d, rest)) == Done(d, rest)
  {
    match d.content
    case None => Front([d.report, d.mode], rest);
    case Some(c) =>
      ContentOfPrint(c, rest);
      HeaderOfContent(d.report, d.mode, PrintResponse(c.response, PrintIdentities(c.identities, rest)));
  }

  lemma ContentOfPrint(c: Content, rest: seq<bool>)
    requires ContentOk(c) && (c.identities.None? ==> Ends(rest))
    ensures ReadContent(PrintResponse(c.response, PrintIdentities(c.identities, rest))) == Done(c, rest)
  {
    ResponseOfPrint(c, rest);
    IdentitiesElementOfPrint(c.identities, rest);
  }

  lemma HeaderOfContent(report: bool, mode: bool, s3: seq<bool>)
    ensures var s := [report, mode] + ([true] + s3);
            |s| >= 3 && s[0] == report && s[1] == mode && s[2..] == [true] + s3 && s[3..] == s3
  {
  }

  lemma TaggedIsPrint(s: seq<bool>)
    requires |s| > 0 && s[0] && OneElement(s[1..]).Done?
    ensures var f := OneElement(s[1..]);
            ElementOk(f.value) && s == [true] + PrintElement(f.value, f.rest)
  {
    ElementIsPrint(s[1..]);
    assert s == [true] + s[1..];
  }

  lemma ElementIdIs(s: seq<bool>)
    requires |s| >= 5 && OneElement(s[1..]).Done?
    ensures OneElement(s[1..]).value.id == Value(s[1..5])
  {
    assert s[1..][..4] == s[1..5];
  }

  lemma ContentIsPrint(s: seq<bool>)
    requires ReadContent(s).Done?
    ensures var f := ReadContent(s);
            && ContentOk(f.value) && (f.value.identities.None? ==> Ends(f.rest))
            && s == PrintResponse(f.value.response, PrintIdentities(f.value.identities, f.rest))
  {
    ResponseIsPrint(s);
    IdentitiesIsPrint(ReadResponse(s).rest);
  }

  lemma ResponseIsPrint(s: seq<bool>)
    requires ReadResponse(s).Done?
    ensures var f := ReadResponse(s);
            && s == PrintResponse(f.value, f.rest)
            && (f.value.Present? ==> |f.value.payload| < Pow2(11)) && (f.value.NoBit? ==> !Ends(f.rest))
  {
    if !s[0] {
      assert s == [false] + s[1..];
    } else if Value(s[1..5]) == REPORT_RESPONSE {
      TaggedIsPrint(s);
      ElementIdIs(s);
    }
  }

  lemma IdentitiesIsPrint(s: seq<bool>)
    requires ReadIdentities(s).Done?
    ensures var f := ReadIdentities(s);
            && s == PrintIdentities(f.value, f.rest) && (f.value.None? ==> Ends(s) && Ends(f.rest))
            && (f.value.Some? ==> |f.value.value| < Pow2(11) && Identities(f.value.value).Done?)
  {
    if !Ends(s) {
      TaggedIsPrint(s);
    }
  }

  /** What the grammar reads is a printed demand. */
  lemma GroupDemandIsPrint(s: seq<bool>)
    requires ReadGroupDemand(s).Done?
    ensures var f := ReadGroupDemand(s);
            GroupDemandOk(f.value) && EndsGroup(f.value, f.rest) && s == PrintGroupDemand(f.value, f.rest)
  {
    FirstTwo(s);
    if !Ends(s[2..]) {
      ContentIsPrint(s[3..]);
      ThirdBit(s);
    }
  }

  lemma FirstTwo(s: seq<bool>)
    requires |s| >= 2
    ensures s == [s[0], s[1]] + s[2..]
  {
  }

  lemma ThirdBit(s: seq<bool>)
    requires |s| >= 3
    ensures s[2..] == [s[2]] + s[3..]
  {
  }

  /** A body is accepted if and only if it is a printed demand. */
  lemma GroupAcceptedIffPrinted(body: seq<bool>)
    ensures ReadGroupDemand(body).Done? <==>
              exists d, rest :: GroupDemandOk(d) && EndsGroup(d, rest) && body == PrintGroupDemand(d, rest)
  {
    if ReadGroupDemand(body).Done? {
      GroupDemandIsPrint(body);
    }
    if d, rest :| GroupDemandOk(d) && EndsGroup(d, rest) && body == PrintGroupDemand(d, rest) {
      GroupDemandOfPrint(d, rest);
    }
  }
}
