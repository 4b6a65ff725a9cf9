/** walk_mm7: the cursor walk over a group identity demand. */
module MmGroupWalker {
  import opened Wrappers
  import opened BitSeq
  import opened MmBits
  import opened MmLocation
  import opened MmGroup

  /** One reported group. */
  datatype Group = Group(detach: bool, classOfUsage: nat, addressType: nat, gssi: nat)

  datatype GroupReport = GroupReport(report: bool, mode: bool, groups: seq<Group>)

  function GroupOf(r: Record): Group {
    Group(r.detach, if r.detach then 0 else r.usage, r.addressType, r.gssi)
  }

  function GroupsOf(rs: seq<Record>): (g: seq<Group>)
    ensures |g| == |rs|
  {
    seq(|rs|, i requires 0 <= i < |rs| => GroupOf(rs[i]))
  }

  function ReportedGroups(d: GroupDemand): GroupReport {
    match d.content
    case None => GroupReport(d.report, d.mode, [])
    case Some(c) =>
      GroupReport(d.report, d.mode, match c.identities
                                    case None => []
                                    case Some(p) => match Identities(p) case Fail => [] case Done(rs, _) => GroupsOf(rs))
  }

  /** A record as it is reported: a detachment without its reason, and no address extension. */
  predicate ReportsRecord(r: Record, g: Group) {
    && g.detach == r.detach && g.addressType == r.addressType && g.gssi == r.gssi
    && g.classOfUsage == (if r.detach then 0 else r.usage)
  }

  ghost predicate ReportsRecords(rs: seq<Record>, groups: seq<Group>) {
    |groups| == |rs| && forall k :: 0 <= k < |rs| ==> ReportsRecord(rs[k], groups[k])
  }

  /** The report, field by field: the records of the payload in order. */
  ghost predicate GroupsFieldByField(d: GroupDemand, out: GroupReport) {
    && out.report == d.report && out.mode == d.mode
    && (d.content.None? || d.content.value.identities.None? ==> out.groups == [])
    && (d.content.Some? && d.content.value.identities.Some? ==>
          forall n, rs, tail :: PrintsRecords(d.content.value.identities.value, n, rs, tail) ==> ReportsRecords(rs, out.groups))
  }

  lemma ReportedGroupsFieldByField(d: GroupDemand)
    ensures GroupsFieldByField(d, ReportedGroups(d))
  {
    if d.content.Some? && d.content.value.identities.Some? {
      var p := d.content.value.identities.value;
      forall n, rs, tail | PrintsRecords(p, n, rs, tail)
        ensures ReportsRecords(rs, ReportedGroups(d).groups)
      {
        PrintedRecordsAreRead(p, n, rs, tail);
      }
    }
  }

  lemma PrintedGroupsAreReported(body: seq<bool>)
    ensures forall d, rest :: GroupDemandOk(d) && EndsGroup(d, rest) && body == PrintGroupDemand(d, rest) ==>
              ReadGroupDemand(body).Done? && GroupsFieldByField(d, ReportedGroups(ReadGroupDemand(body).value))
  {
    forall d, rest | GroupDemandOk(d) && EndsGroup(d, rest) && body == PrintGroupDemand(d, rest)
      ensures ReadGroupDemand(body).Done? && GroupsFieldByField(d, ReportedGroups(ReadGroupDemand(body).value))
    {
      GroupDemandOfPrint(d, rest);
      ReportedGroupsFieldByField(d);
    }
  }

  /** A field at pos inside the window that ends at end. */
  lemma WindowField(body: seq<bool>, pos: nat, end: nat, n: nat)
    requires pos <= end <= |body|
    ensures if pos + n <= end then Field(body[pos..end], n) == Done(Value(body[pos..pos + n]), body[pos + n..end])
            else Field(body[pos..end], n) == Fail
  {
    if pos + n <= end {
      assert body[pos..end][..n] == body[pos..pos + n] && body[pos..end][n..] == body[pos + n..end];
    }
  }

  lemma WindowBit(body: seq<bool>, pos: nat, end: nat)
    requires pos < end <= |body|
    ensures body[pos..end][0] == body[pos] && body[pos..end][1..] == body[pos + 1..end]
    ensures Value(body[pos..pos + 1]) == BitValue(body[pos])
  {
    SingleBit(body, pos, pos + 1);
  }

  /** n bits at the cursor, if the element has that many left. */
  method WalkField(body: seq<bool>, pos: nat, giuRemain: nat, n: nat, ghost end: nat)
    returns (ok: bool, v: nat, next: nat, left: nat)
    requires pos + giuRemain == end <= |body|
    ensures ok ==> next == pos + n && next + left == end && Field(body[pos..end], n) == Done(v, body[next..end])
    ensures !ok ==> Field(body[pos..end], n) == Fail
  {
    WindowField(body, pos, end, n);
    v, next, left := 0, pos, giuRemain;
    ok := giuRemain >= n;
    if ok {
      v, next := ReadBits(body, pos, n);
      left := giuRemain - n;
    }
  }

  /** One record at pos; giuRemain bits of the element are left. */
  method WalkRecord(body: seq<bool>, pos: nat, giuRemain: nat, ghost end: nat)
    returns (ok: bool, r: Record, next: nat, left: nat)
    requires pos + giuRemain == end <= |body|
    ensures ok ==> next + left == end && OneRecord(body[pos..end]) == Done(r, body[next..end])
    ensures !ok ==> OneRecord(body[pos..end]) == Fail
  {
    next, left, r, ok := pos, giuRemain, Record(false, 0, 0, 0, 0), false;
    if left < 1 {
      return;
    }
    WindowBit(body, pos, end);
    var adi := PeekBit(body, pos);
    var usage, at;
    ok, usage, next, left := WalkField(body, pos + 1, left - 1, if adi then 2 else 3, end);
    if !ok {
      return;
    }
    ok, at, next, left := WalkField(body, next, left, 2, end);
    if !ok {
      return;
    }
    ok, r, next, left := WalkAddress(body, next, left, adi, usage, at, end);
  }

  method WalkAddress(body: seq<bool>, pos: nat, giuRemain: nat, detach: bool, usage: nat, at: nat, ghost end: nat)
    returns (ok: bool, r: Record, next: nat, left: nat)
    requires pos + giuRemain == end <= |body|
    ensures ok ==> next + left == end && ReadAddress(body[pos..end], detach, usage, at) == Done(r, body[next..end])
    ensures !ok ==> ReadAddress(body[pos..end], detach, usage, at) == Fail
  {
    next, left, r, ok := pos, giuRemain, Record(detach, usage, at, 0, 0), true;
    if at == 0 || at == 1 || at == 2 {
      var gssi, ext;
      ok, gssi, next, left := WalkField(body, next, left, 24, end);
      if !ok {
        return;
      }
      r := Record(detach, usage, at, gssi, 0);
      if at == 1 {
        ok, ext, next, left := WalkField(body, next, left, 24, end);
        r := Record(detach, usage, at, gssi, ext);
      }
    }
  }

  /** The reader reads one record. */
  ghost predicate ReadsRecord(read: seq<bool> -> Parsed<Record>) {
    forall s {:trigger OneRecord(s)} :: read(s) == OneRecord(s)
  }

  /** Up to three records of num announced ones; ok unless the first is incomplete. */
  method WalkRecords(body: seq<bool>, start: nat, giuLeft: nat, num: nat, ghost end: nat,
                     ghost read: seq<bool> -> Parsed<Record>, ghost all: seq<Record>)
    returns (ok: bool, groups: seq<Group>)
    requires start + giuLeft == end <= |body| && num > 0 && ReadsRecord(read)
    requires all == Outlook(read, [], body[start..end], Fewer(num, MAX_RECORDS))
    ensures groups == GroupsOf(all) && ok == (all != [])
  {
    ghost var k: nat := Fewer(num, MAX_RECORDS);
    ghost var rs: seq<Record> := [];
    groups := [];
    var r, pos, giuRemain := 0, start, giuLeft;
    while r < num && r < 3
      invariant r + k == Fewer(num, MAX_RECORDS) && |rs| == r && pos + giuRemain == end
      invariant all == Outlook(read, rs, body[pos..end], k) && groups == GroupsOf(rs)
    {
      ghost var record;
      var good;
      good, record, groups, pos, giuRemain := AddRecord(body, pos, giuRemain, end, read, all, rs, groups, k);
      if !good {
        return r > 0, groups;
      }
      rs := rs + [record];
      k := k - 1;
      r := r + 1;
    }
    OutlookAtEnd(read, rs, body[pos..end], k);
    ok := true;
  }

  /** One more record, or the end of what is complete. */
  method AddRecord(body: seq<bool>, pos: nat, giuRemain: nat, ghost end: nat, ghost read: seq<bool> -> Parsed<Record>,
                   ghost all: seq<Record>, ghost rs: seq<Record>, groups: seq<Group>, ghost k: nat)
    returns (ok: bool, ghost record: Record, more: seq<Group>, next: nat, left: nat)
    requires pos + giuRemain == end <= |body| && k > 0 && ReadsRecord(read)
    requires all == Outlook(read, rs, body[pos..end], k) && groups == GroupsOf(rs)
    ensures ok ==> next + left == end && all == Outlook(read, rs + [record], body[next..end], k - 1)
    ensures ok ==> more == GroupsOf(rs + [record])
    ensures !ok ==> all == rs && more == groups
  {
    var r;
    ok, r, next, left := WalkRecord(body, pos, giuRemain, end);
    record, more := r, groups;
    assert read(body[pos..end]) == OneRecord(body[pos..end]);
    if ok {
      OutlookStep(read, rs, body[pos..end], k, r, body[next..end]);
      GroupsAppend(rs, r);
      more := groups + [GroupOf(r)];
    } else {
      OutlookAtEnd(read, rs, body[pos..end], k);
    }
  }

  lemma GroupsAppend(rs: seq<Record>, r: Record)
    ensures GroupsOf(rs + [r]) == GroupsOf(rs) + [GroupOf(r)]
  {
  }

  /** The place of the group report response: consumed, or left to the element behind it. */
  method WalkResponse(body: seq<bool>, pos: nat, remain: nat) returns (ok: bool, next: nat, left: nat)
    requires pos + remain == |body|
    ensures ok ==> next + left == |body| && ReadResponse(body[pos..]).Done? && ReadResponse(body[pos..]).rest == body[next..]
    ensures !ok ==> ReadResponse(body[pos..]) == Fail
  {
    next, left, ok := pos, remain, false;
    if left == 0 {
      return;
    }
    SingleBit(body, pos, pos + 1);
    var mRep := PeekBit(body, pos);
    if !mRep {
      return true, pos + 1, left - 1;
    }
    if left < 5 {
      return;
    }
    var peekId := PeekId(body, pos);
    if peekId != REPORT_RESPONSE {
      return true, next, left;
    }
    var id, length;
    ok, id, length, next, left := ReadElement(body, pos + 1, left - 1);
    if ok {
      next, left := next + length, left - length;
    }
  }

  /** The four bits behind the m-bit. */
  method PeekId(body: seq<bool>, pos: nat) returns (id: nat)
    requires pos + 5 <= |body|
    ensures id == Value(body[pos..][1..5])
  {
    id := BitValue(body[pos + 1]);
    id := 2 * id + BitValue(body[pos + 2]);
    id := 2 * id + BitValue(body[pos + 3]);
    id := 2 * id + BitValue(body[pos + 4]);
    FourBits(body[pos..][1..5]);
  }

  lemma FourBits(s: seq<bool>)
    requires |s| == 4
    ensures Value(s) == 8 * BitValue(s[0]) + 4 * BitValue(s[1]) + 2 * BitValue(s[2]) + BitValue(s[3])
  {
    assert s[..3][..2] == s[..2] && s[..2][..1] == s[..1] && s[..1][..0] == [];
    assert Value(s[..1]) == BitValue(s[0]);
    assert Value(s[..2]) == 2 * Value(s[..1]) + BitValue(s[1]);
    assert Value(s[..3]) == 2 * Value(s[..2]) + BitValue(s[2]);
  }

  /** The group identity uplink element behind its m-bit. */
  method WalkIdentities(body: seq<bool>, pos: nat, remain: nat) returns (ok: bool, groups: seq<Group>)
    requires pos + remain == |body|
    ensures ok <==> ReadIdentities(body[pos..]).Done?
    ensures ok ==> match ReadIdentities(body[pos..]).value
                   case None => groups == []
                   case Some(p) => Identities(p).Done? && groups == GroupsOf(Identities(p).value)
  {
    groups := [];
    if remain == 0 {
      return true, [];
    }
    SingleBit(body, pos, pos + 1);
    var mGiu := PeekBit(body, pos);
    if !mGiu {
      return true, [];
    }
    var id, length, next, left;
    ok, id, length, next, left := ReadElement(body, pos + 1, remain - 1);
    if !ok || id != IDENTITY_UPLINK {
      return false, [];
    }
    ok, groups := WalkPayload(body, next, length);
  }

  method WalkPayload(body: seq<bool>, pos: nat, length: nat) returns (ok: bool, groups: seq<Group>)
    requires pos + length <= |body|
    ensures var f := Identities(body[pos..pos + length]); ok == f.Done? && (ok ==> groups == GroupsOf(f.value))
  {
    if length < 6 {
      return false, [];
    }
    var num, next := ReadBits(body, pos, 6);
    ghost var read, all := PayloadFront(body, pos, length, num);
    if num == 0 {
      return true, [];
    }
    ok, groups := WalkRecords(body, next, length - 6, num, pos + length, read, all);
  }

  lemma PayloadFront(body: seq<bool>, pos: nat, length: nat, num: nat)
    returns (read: seq<bool> -> Parsed<Record>, all: seq<Record>)
    requires pos + length <= |body| && length >= 6 && num == Value(body[pos..pos + 6])
    ensures ReadsRecord(read) && Identities(body[pos..pos + length]) == Announced(num, all)
    ensures all == Outlook(read, [], body[pos + 6..pos + length], Fewer(num, MAX_RECORDS)) && (num == 0 ==> all == [])
  {
    var p := body[pos..pos + length];
    assert p[..6] == body[pos..pos + 6] && p[6..] == body[pos + 6..pos + length];
    read := OneRecord;
    all := Records(p[6..], Fewer(num, MAX_RECORDS));
  }

  /** walk_mm7: 0 and the reported groups, or -1. */
  method WalkMm7(body: seq<bool>) returns (rc: int, out: GroupReport)
    requires |body| == BODY_BITS
    ensures rc == if ReadGroupDemand(body).Done? then 0 else -1
    ensures rc == 0 ==> out == ReportedGroups(ReadGroupDemand(body).value)
    ensures forall d, rest :: GroupDemandOk(d) && EndsGroup(d, rest) && body == PrintGroupDemand(d, rest) ==>
              rc == 0 && GroupsFieldByField(d, out)
  {
    PrintedGroupsAreReported(body);
    var report, mode := body[0], body[1];
    out := GroupReport(report, mode, []);
    var obit := PeekBit(body, 2);
    if !obit {
      return 0, out;
    }
    var ok, pos, left := WalkResponse(body, 3, BODY_BITS - 3);
    if !ok {
      return -1, out;
    }
    var groups;
    ok, groups := WalkIdentities(body, pos, left);
    if !ok {
      return -1, out;
    }
    return 0, GroupReport(report, mode, groups);
  }
}
