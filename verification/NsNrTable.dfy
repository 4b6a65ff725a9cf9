/**
 * LLC stop-and-wait numbers per mobile: an open-addressing table of 64 packed words, against a
 * plain map from mobile to number of calls.
 */
module NsNrTable {
  const SLOTS: nat := 64

  function Hash(ssi: nat): (h: nat)
    ensures h < SLOTS
  {
    (ssi * 0x9E3779B1) % 0x1_0000_0000 / 0x100_0000 % SLOTS
  }

  /** The d-th slot to look at. */
  function Probe(ssi: nat, d: nat): (s: nat)
    ensures s < SLOTS
  {
    (Hash(ssi) + d) % SLOTS
  }

  /** [31:8] = ssi, [1] = ns, [0] = nr. */
  function Pack(ssi: nat, ns: nat, nr: nat): nat {
    256 * ssi + 2 * ns + nr
  }

  function SsiOf(v: nat): nat { v / 256 }
  function NsOf(v: nat): nat { v / 2 % 2 }
  function NrOf(v: nat): nat { v % 2 }

  lemma PackFields(ssi: nat, ns: nat, nr: nat)
    requires ns < 2 && nr < 2 && ns + nr > 0
    ensures var v := Pack(ssi, ns, nr); v != 0 && SsiOf(v) == ssi && NsOf(v) == ns && NrOf(v) == nr
  {
  }

  // ---- The plain map ----

  /** The numbers stored after count calls of a mobile. */
  function Numbers(count: nat): (nat, nat) {
    if count % 2 == 1 then (0, 1) else (1, 0)
  }

  lemma NumbersFlip(count: nat, next: nat)
    requires next == count + 1
    ensures Numbers(next) == (1 - Numbers(count).0, 1 - Numbers(count).1)
  {
  }

  /** The numbers (ns, nr) given to ssi when the mobiles' calls so far are counts. */
  function Answer(counts: map<nat, nat>, ssi: nat): (nat, nat) {
    if ssi in counts then Numbers(counts[ssi]) else if |counts| < SLOTS then (0, 1) else (1, 0)
  }

  function Counted(counts: map<nat, nat>, ssi: nat): map<nat, nat> {
    if ssi in counts then counts[ssi := counts[ssi] + 1] else if |counts| < SLOTS then counts[ssi := 1] else counts
  }

  function Occurrences(calls: seq<nat>, ssi: nat): nat {
    if |calls| == 0 then 0 else Occurrences(calls[..|calls| - 1], ssi) + if calls[|calls| - 1] == ssi then 1 else 0
  }

  function CountsAfter(calls: seq<nat>): map<nat, nat> {
    if |calls| == 0 then map[] else Counted(CountsAfter(calls[..|calls| - 1]), calls[|calls| - 1])
  }

  /** A mobile in the map has been counted at every call; another one never called, or found the map full. */
  lemma {:induction false} CountsAreCalls(calls: seq<nat>, ssi: nat)
    ensures var c := CountsAfter(calls);
            && |c| <= SLOTS
            && (ssi in c ==> c[ssi] == Occurrences(calls, ssi) > 0)
            && (ssi !in c && |c| < SLOTS ==> Occurrences(calls, ssi) == 0)
  {
    if |calls| > 0 {
      var before, last := calls[..|calls| - 1], calls[|calls| - 1];
      CountsAreCalls(before, ssi);
      CountsAreCalls(before, last);
      GrowsByOne(CountsAfter(before), last);
    }
  }

  lemma GrowsByOne(counts: map<nat, nat>, ssi: nat)
    ensures |Counted(counts, ssi)| == |counts| + if ssi !in counts && |counts| < SLOTS then 1 else 0
  {
    if ssi in counts {
      assert Counted(counts, ssi).Keys == counts.Keys;
    } else if |counts| < SLOTS {
      assert Counted(counts, ssi).Keys == counts.Keys + {ssi};
    }
  }

  /** While the map has room, a mobile's answers are (0,1) twice and then (1,0) and (0,1) in turn. */
  lemma AnswersAlternate(calls: seq<nat>, ssi: nat)
    requires ssi in CountsAfter(calls) || |CountsAfter(calls)| < SLOTS
    ensures var k := Occurrences(calls, ssi);
            Answer(CountsAfter(calls), ssi) == if k == 0 || k % 2 == 1 then (0, 1) else (1, 0)
  {
    CountsAreCalls(calls, ssi);
  }

  /** As long as the calls come from 64 mobiles at most, all of them are in the map and nobody else. */
  lemma {:induction false} SixtyFourAreServed(calls: seq<nat>)
    requires |Callers(calls)| <= 64
    ensures CountsAfter(calls).Keys == Callers(calls)
  {
    if |calls| > 0 {
      var before, last := calls[..|calls| - 1], calls[|calls| - 1];
      CallersGrow(before, last, calls);
      SixtyFourAreServed(before);
      assert |CountsAfter(before)| == |CountsAfter(before).Keys|;
    }
  }

  ghost function Callers(calls: seq<nat>): set<nat> {
    set ssi | ssi in calls
  }

  lemma CallersGrow(before: seq<nat>, last: nat, calls: seq<nat>)
    requires calls == before + [last]
    ensures Callers(calls) == Callers(before) + {last} && |Callers(before)| <= |Callers(calls)|
    ensures last !in Callers(before) ==> |Callers(before)| == |Callers(calls)| - 1
  {
    assert Callers(calls) == Callers(before) + {last};
    if last in Callers(before) {
      assert Callers(calls) == Callers(before);
    }
  }

  /** Once 64 mobiles are in the map it takes no more, and every other mobile always gets (1,0). */
  lemma {:induction false} OthersAreTurnedAway(calls: seq<nat>, more: seq<nat>, ssi: nat)
    requires |CountsAfter(calls)| == 64 && ssi !in CountsAfter(calls)
    ensures CountsAfter(calls + more).Keys == CountsAfter(calls).Keys && Answer(CountsAfter(calls + more), ssi) == (1, 0)
  {
    if |more| == 0 {
      assert calls + more == calls;
    } else {
      var n := |more| - 1;
      OthersAreTurnedAway(calls, more[..n], ssi);
      assert (calls + more)[..|calls| + n] == calls + more[..n];
      SameKeys(CountsAfter(calls + more[..n]), CountsAfter(calls), more[n]);
    }
  }

  lemma SameKeys(counts: map<nat, nat>, full: map<nat, nat>, ssi: nat)
    requires counts.Keys == full.Keys && |full| == 64
    ensures Counted(counts, ssi).Keys == full.Keys && |counts| == 64
  {
    assert |counts| == |counts.Keys| && |full| == |full.Keys|;
  }

  // ---- The table ----

  predicate Holds(t: seq<nat>, s: nat, ssi: nat)
    requires s < |t|
  {
    t[s] != 0 && SsiOf(t[s]) == ssi
  }

  /** A used slot stores the numbers of a mobile in the map. */
  predicate SlotOk(v: nat, counts: map<nat, nat>) {
    v == 0 || (SsiOf(v) in counts && counts[SsiOf(v)] > 0
               && NsOf(v) == Numbers(counts[SsiOf(v)]).0 && NrOf(v) == Numbers(counts[SsiOf(v)]).1)
  }

  /** The first d slots for ssi are used by others. */
  predicate Passed(t: seq<nat>, ssi: nat, d: nat)
    requires |t| == SLOTS
  {
    forall e: nat :: e < d ==> t[Probe(ssi, e)] != 0 && !Holds(t, Probe(ssi, e), ssi)
  }

  /** ssi is found at its d-th probe. */
  predicate FoundAt(t: seq<nat>, ssi: nat, d: nat)
    requires |t| == SLOTS
  {
    Passed(t, ssi, d) && Holds(t, Probe(ssi, d), ssi)
  }

  ghost function Used(t: seq<nat>): set<int> {
    set s | 0 <= s < |t| && t[s] != 0
  }

  predicate AllSlotsOk(t: seq<nat>, counts: map<nat, nat>) {
    forall s :: 0 <= s < |t| ==> SlotOk(t[s], counts)
  }

  ghost predicate AllFound(t: seq<nat>, counts: map<nat, nat>)
    requires |t| == SLOTS
  {
    forall ssi :: ssi in counts ==> exists d: nat :: FoundAt(t, ssi, d)
  }

  /** Two used words of the same mobile. */
  predicate Twins(v: nat, w: nat) {
    v != 0 && w != 0 && SsiOf(v) == SsiOf(w)
  }

  predicate NoTwins(t: seq<nat>) {
    forall r, s :: 0 <= r < |t| && 0 <= s < |t| && Twins(t[r], t[s]) ==> r == s
  }

  ghost predicate Represents(t: seq<nat>, counts: map<nat, nat>) {
    |t| == SLOTS && |Used(t)| == |counts| && AllSlotsOk(t, counts) && AllFound(t, counts) && NoTwins(t)
  }

  /** What was passed on the way is not where ssi is. */
  lemma FoundLater(t: seq<nat>, ssi: nat, d: nat, e: nat)
    requires |t| == SLOTS && Passed(t, ssi, d)
    ensures FoundAt(t, ssi, e) ==> d <= e && t[Probe(ssi, d)] != 0
  {
  }

  /** An empty slot on the path shows that ssi is not in the map. */
  lemma EmptyMeansAbsent(t: seq<nat>, counts: map<nat, nat>, ssi: nat, d: nat)
    requires Represents(t, counts) && Passed(t, ssi, d) && t[Probe(ssi, d)] == 0
    ensures ssi !in counts && |counts| < SLOTS
  {
    forall e: nat
      ensures !FoundAt(t, ssi, e)
    {
      FoundLater(t, ssi, d, e);
    }
    FewerThanAll(Used(t), Probe(ssi, d));
  }

  lemma FewerThanAll(used: set<int>, s: nat)
    requires s < SLOTS && s !in used && forall x :: x in used ==> 0 <= x < SLOTS
    ensures |used| < SLOTS
  {
    Pigeonhole(used + {s}, SLOTS);
  }

  lemma {:induction false} Pigeonhole(a: set<int>, n: nat)
    requires forall x :: x in a ==> 0 <= x < n
    ensures |a| <= n
  {
    if exists x :: x in a {
      Pigeonhole(a - {n - 1}, n - 1);
      assert a == a - {n - 1} || a == (a - {n - 1}) + {n - 1};
    } else {
      assert a == {};
    }
  }

  /** Every slot is on the path. */
  lemma PathCovers(ssi: nat, s: nat) returns (d: nat)
    requires s < SLOTS
    ensures d < SLOTS && Probe(ssi, d) == s
  {
    var h := Hash(ssi);
    d := if h <= s then s - h else s + SLOTS - h;
  }

  /** All slots used by others: the map is full, without ssi. */
  lemma AllPassed(t: seq<nat>, counts: map<nat, nat>, ssi: nat)
    requires Represents(t, counts) && Passed(t, ssi, SLOTS)
    ensures ssi !in counts && |counts| == SLOTS
  {
    forall s | 0 <= s < SLOTS
      ensures t[s] != 0 && !Holds(t, s, ssi)
    {
      var d := PathCovers(ssi, s);
    }
    forall e: nat
      ensures !FoundAt(t, ssi, e)
    {
      assert !Holds(t, Probe(ssi, e), ssi);
    }
    AllUsed(t);
  }

  lemma AllUsed(t: seq<nat>)
    requires |t| == SLOTS && forall s :: 0 <= s < SLOTS ==> t[s] != 0
    ensures |Used(t)| == SLOTS
  {
    Count(Used(t), SLOTS);
    Pigeonhole(Used(t), SLOTS);
  }

  lemma {:induction false} Count(a: set<int>, n: nat)
    requires forall x :: 0 <= x < n ==> x in a
    ensures |a| >= n
  {
    if n > 0 {
      Count(a - {n - 1}, n - 1);
      assert a == (a - {n - 1}) + {n - 1};
    }
  }

  /** Writing slot s, which held ssi or nothing, keeps everybody's path. */
  lemma PathKept(t: seq<nat>, ssi: nat, s: nat, v: nat, other: nat, d: nat)
    requires |t| == SLOTS && s < SLOTS && v != 0 && SsiOf(v) == ssi && (t[s] == 0 || SsiOf(t[s]) == ssi)
    requires other != ssi && FoundAt(t, other, d)
    ensures FoundAt(t[s := v], other, d)
  {
  }

  lemma OwnPath(t: seq<nat>, ssi: nat, d: nat, v: nat)
    requires |t| == SLOTS && Passed(t, ssi, d) && v != 0 && SsiOf(v) == ssi
    requires t[Probe(ssi, d)] == 0 || SsiOf(t[Probe(ssi, d)]) == ssi
    ensures FoundAt(t[Probe(ssi, d) := v], ssi, d)
  {
    var s := Probe(ssi, d);
    forall e: nat | e < d
      ensures t[s := v][Probe(ssi, e)] != 0 && !Holds(t[s := v], Probe(ssi, e), ssi)
    {
      assert t[Probe(ssi, e)] != 0 && !Holds(t, Probe(ssi, e), ssi);
    }
  }

  /** Storing the next numbers of ssi where the search stopped. */
  lemma StoreKeeps(t: seq<nat>, counts: map<nat, nat>, ssi: nat, d: nat, v: nat)
    requires Represents(t, counts) && Passed(t, ssi, d)
    requires v != 0 && SsiOf(v) == ssi
    requires if ssi in counts then Holds(t, Probe(ssi, d), ssi) else t[Probe(ssi, d)] == 0 && |counts| < SLOTS
    requires SlotOk(v, Counted(counts, ssi))
    ensures Represents(t[Probe(ssi, d) := v], Counted(counts, ssi))
  {
    var s := Probe(ssi, d);
    StoreFound(t, counts, ssi, d, v);
    UsedAfter(t, s, v);
    GrowsByOne(counts, ssi);
    StoreSlots(t, counts, ssi, s, v);
  }

  lemma StoreFound(t: seq<nat>, counts: map<nat, nat>, ssi: nat, d: nat, v: nat)
    requires |t| == SLOTS && AllFound(t, counts) && Passed(t, ssi, d) && v != 0 && SsiOf(v) == ssi
    requires t[Probe(ssi, d)] == 0 || SsiOf(t[Probe(ssi, d)]) == ssi
    ensures AllFound(t[Probe(ssi, d) := v], Counted(counts, ssi))
  {
    var s := Probe(ssi, d);
    var u := t[s := v];
    forall other | other in Counted(counts, ssi)
      ensures exists e: nat :: FoundAt(u, other, e)
    {
      if other == ssi {
        OwnPath(t, ssi, d, v);
      } else {
        var e: nat :| FoundAt(t, other, e);
        PathKept(t, ssi, s, v, other, e);
      }
    }
  }

  lemma UsedAfter(t: seq<nat>, s: nat, v: nat)
    requires s < |t| && v != 0
    ensures |Used(t[s := v])| == |Used(t)| + if t[s] == 0 then 1 else 0
  {
    assert Used(t[s := v]) == Used(t) + {s};
  }

  lemma StoreSlots(t: seq<nat>, counts: map<nat, nat>, ssi: nat, s: nat, v: nat)
    requires |t| == SLOTS && AllSlotsOk(t, counts) && NoTwins(t) && s < SLOTS && v != 0 && SsiOf(v) == ssi
    requires if ssi in counts then Holds(t, s, ssi) else t[s] == 0
    requires SlotOk(v, Counted(counts, ssi))
    ensures AllSlotsOk(t[s := v], Counted(counts, ssi)) && NoTwins(t[s := v])
  {
    var u := t[s := v];
    forall j | 0 <= j < SLOTS
      ensures SlotOk(u[j], Counted(counts, ssi)) && (j != s ==> !Twins(u[j], v))
    {
      assert SlotOk(t[j], counts) && (Twins(t[j], t[s]) ==> j == s);
    }
    forall j, k | 0 <= j < SLOTS && 0 <= k < SLOTS && Twins(u[j], u[k])
      ensures j == k
    {
      assert Twins(t[j], t[k]) ==> j == k;
    }
  }

  class Table {
    const words: array<nat>
    ghost var counts: map<nat, nat>
    ghost var calls: seq<nat>

    /** The table stands for the counts of all calls so far. */
    ghost predicate Valid()
      reads this, words
    {
      Consistent() && counts == CountsAfter(calls)
    }

    ghost predicate Consistent()
      reads this, words
    {
      words.Length == SLOTS && Represents(words[..], counts)
    }

    constructor ()
      ensures Valid() && calls == [] && fresh(words)
    {
      words := new nat[SLOTS](_ => 0);
      counts, calls := map[], [];
      new;
      assert Used(words[..]) == {};
    }

    /** The numbers for the next acknowledgement to ssi. */
    method Step(ssi: nat) returns (ns: nat, nr: nat)
      requires Valid() && ssi < 0x100_0000
      modifies this, words
      ensures Valid() && calls == old(calls) + [ssi] && (ns, nr) == Answer(CountsAfter(old(calls)), ssi)
    {
      ns, nr := Search(ssi);
      ghost var before := calls;
      calls := calls + [ssi];
      assert calls[..|calls| - 1] == before;
    }

    /** The first probe that finds ssi or an unused slot; SLOTS when there is none. */
    method Locate(ssi: nat) returns (probe: nat)
      requires Consistent()
      ensures probe <= SLOTS && Passed(words[..], ssi, probe)
      ensures probe < SLOTS ==> words[..][Probe(ssi, probe)] == 0 || Holds(words[..], Probe(ssi, probe), ssi)
    {
      for p := 0 to SLOTS
        invariant Passed(words[..], ssi, p)
      {
        var slot := Probe(ssi, p);
        var v := words[slot];
        if v == 0 || SsiOf(v) == ssi {
          return p;
        }
      }
      return SLOTS;
    }

    method Search(ssi: nat) returns (ns: nat, nr: nat)
      requires Consistent() && ssi < 0x100_0000
      modifies this, words
      ensures Consistent() && (ns, nr) == Answer(old(counts), ssi) && counts == Counted(old(counts), ssi)
      ensures calls == old(calls)
    {
      var probe := Locate(ssi);
      if probe == SLOTS {
        AllPassed(words[..], counts, ssi);
        return 1, 0;
      }
      var v := words[Probe(ssi, probe)];
      if v == 0 {
        EmptyMeansAbsent(words[..], counts, ssi, probe);
        Store(ssi, probe, 0, 1);
        return 0, 1;
      }
      ns, nr := NsOf(v), NrOf(v);
      assert SlotOk(words[..][Probe(ssi, probe)], counts);
      NumbersFlip(counts[ssi], counts[ssi] + 1);
      Store(ssi, probe, 1 - ns, 1 - nr);
    }

    /** Writes the numbers for ssi where its search stopped. */
    method Store(ssi: nat, probe: nat, ns: nat, nr: nat)
      requires Consistent() && Passed(words[..], ssi, probe) && ns < 2 && nr < 2
      requires if ssi in counts then Holds(words[..], Probe(ssi, probe), ssi)
               else words[..][Probe(ssi, probe)] == 0 && |counts| < SLOTS
      requires (ns, nr) == Numbers(if ssi in counts then counts[ssi] + 1 else 1)
      modifies this, words
      ensures Consistent() && counts == Counted(old(counts), ssi) && calls == old(calls)
    {
      PackFields(ssi, ns, nr);
      StoreKeeps(words[..], counts, ssi, probe, Pack(ssi, ns, nr));
      ghost var next := words[..][Probe(ssi, probe) := Pack(ssi, ns, nr)];
      words[Probe(ssi, probe)] := Pack(ssi, ns, nr);
      assert words[..] == next;
      counts := Counted(counts, ssi);
    }
  }
}
