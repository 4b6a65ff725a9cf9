/**
 * The order in which speech frame bits enter the channel coder: by sensitivity class, alternating
 * between the two frames of a burst (ETSI EN 300 395-2 table 4).
 */
module SpeechOrder {
  import opened BitSeq

  const ACELP_BITS: nat := 137
  const BURST_BITS: nat := 274

  /** Zero-based frame position of class 0 bit i. */
  function Class0Pos(i: nat): (r: nat)
    requires i < 51
    ensures r < 137
  {
    match i
    case 0 => 34 case 1 => 35 case 2 => 36 case 3 => 37 case 4 => 38 case 5 => 39 case 6 => 40 case 7 => 41
    case 8 => 42 case 9 => 46 case 10 => 47 case 11 => 55 case 12 => 60 case 13 => 61 case 14 => 62 case 15 => 63
    case 16 => 64 case 17 => 65 case 18 => 66 case 19 => 67 case 20 => 68 case 21 => 69 case 22 => 73 case 23 => 74
    case 24 => 82 case 25 => 87 case 26 => 88 case 27 => 89 case 28 => 90 case 29 => 91 case 30 => 92 case 31 => 93
    case 32 => 94 case 33 => 95 case 34 => 96 case 35 => 100 case 36 => 101 case 37 => 109 case 38 => 114
    case 39 => 115
    case 40 => 116 case 41 => 117 case 42 => 118 case 43 => 119 case 44 => 120 case 45 => 121 case 46 => 122
    case 47 => 123
    case 48 => 127 case 49 => 128 case _ => 136
  }

  /** Zero-based frame position of class 1 bit i. */
  function Class1Pos(i: nat): (r: nat)
    requires i < 56
    ensures r < 137
  {
    match i
    case 0 => 57 case 1 => 84 case 2 => 111 case 3 => 53 case 4 => 80 case 5 => 107 case 6 => 134 case 7 => 49
    case 8 => 76 case 9 => 103 case 10 => 130 case 11 => 44 case 12 => 71 case 13 => 98 case 14 => 125 case 15 => 54
    case 16 => 81 case 17 => 108 case 18 => 135 case 19 => 4 case 20 => 12 case 21 => 33 case 22 => 7 case 23 => 15
    case 24 => 16 case 25 => 21 case 26 => 22 case 27 => 23 case 28 => 24 case 29 => 25 case 30 => 5 case 31 => 13
    case 32 => 6 case 33 => 14 case 34 => 59 case 35 => 86 case 36 => 113 case 37 => 45 case 38 => 72 case 39 => 99
    case 40 => 126 case 41 => 43 case 42 => 70 case 43 => 97 case 44 => 124 case 45 => 32 case 46 => 48 case 47 => 75
    case 48 => 102 case 49 => 129 case 50 => 58 case 51 => 85 case 52 => 112 case 53 => 56 case 54 => 83 case _ => 110
  }

  /** Zero-based frame position of class 2 bit i. */
  function Class2Pos(i: nat): (r: nat)
    requires i < 30
    ensures r < 137
  {
    match i
    case 0 => 17 case 1 => 18 case 2 => 19 case 3 => 20 case 4 => 30 case 5 => 31 case 6 => 52 case 7 => 79
    case 8 => 106 case 9 => 133 case 10 => 0 case 11 => 1 case 12 => 2 case 13 => 3 case 14 => 8 case 15 => 9
    case 16 => 10 case 17 => 11 case 18 => 26 case 19 => 27 case 20 => 28 case 21 => 29 case 22 => 51 case 23 => 78
    case 24 => 105 case 25 => 132 case 26 => 50 case 27 => 77 case 28 => 104 case _ => 131
  }

  /** Place of frame position pos in the order of all three classes. */
  function ClassRank(pos: nat): (r: nat)
    requires pos < 137
    ensures r < 137
  {
    match pos / 12
    case 0 => (match pos % 12 case 0 => 117 case 1 => 118 case 2 => 119 case 3 => 120 case 4 => 70 case 5 => 81
        case 6 => 83 case 7 => 73 case 8 => 121 case 9 => 122 case 10 => 123 case _ => 124)
    case 1 => (match pos % 12 case 0 => 71 case 1 => 82 case 2 => 84 case 3 => 74 case 4 => 75 case 5 => 107
        case 6 => 108 case 7 => 109 case 8 => 110 case 9 => 76 case 10 => 77 case _ => 78)
    case 2 => (match pos % 12 case 0 => 79 case 1 => 80 case 2 => 125 case 3 => 126 case 4 => 127 case 5 => 128
        case 6 => 111 case 7 => 112 case 8 => 96 case 9 => 72 case 10 => 0 case _ => 1)
    case 3 => (match pos % 12 case 0 => 2 case 1 => 3 case 2 => 4 case 3 => 5 case 4 => 6 case 5 => 7
        case 6 => 8 case 7 => 92 case 8 => 62 case 9 => 88 case 10 => 9 case _ => 10)
    case 4 => (match pos % 12 case 0 => 97 case 1 => 58 case 2 => 133 case 3 => 129 case 4 => 113 case 5 => 54
        case 6 => 66 case 7 => 11 case 8 => 104 case 9 => 51 case 10 => 101 case _ => 85)
    case 5 => (match pos % 12 case 0 => 12 case 1 => 13 case 2 => 14 case 3 => 15 case 4 => 16 case 5 => 17
        case 6 => 18 case 7 => 19 case 8 => 20 case 9 => 21 case 10 => 93 case _ => 63)
    case 6 => (match pos % 12 case 0 => 89 case 1 => 22 case 2 => 23 case 3 => 98 case 4 => 59 case 5 => 134
        case 6 => 130 case 7 => 114 case 8 => 55 case 9 => 67 case 10 => 24 case _ => 105)
    case 7 => (match pos % 12 case 0 => 52 case 1 => 102 case 2 => 86 case 3 => 25 case 4 => 26 case 5 => 27
        case 6 => 28 case 7 => 29 case 8 => 30 case 9 => 31 case 10 => 32 case _ => 33)
    case 8 => (match pos % 12 case 0 => 34 case 1 => 94 case 2 => 64 case 3 => 90 case 4 => 35 case 5 => 36
        case 6 => 99 case 7 => 60 case 8 => 135 case 9 => 131 case 10 => 115 case _ => 56)
    case 9 => (match pos % 12 case 0 => 68 case 1 => 37 case 2 => 106 case 3 => 53 case 4 => 103 case 5 => 87
        case 6 => 38 case 7 => 39 case 8 => 40 case 9 => 41 case 10 => 42 case _ => 43)
    case 10 => (match pos % 12 case 0 => 44 case 1 => 45 case 2 => 46 case 3 => 47 case 4 => 95 case 5 => 65
        case 6 => 91 case 7 => 48 case 8 => 49 case 9 => 100 case 10 => 61 case _ => 136)
    case _ => (match pos % 12 case 0 => 132 case 1 => 116 case 2 => 57 case 3 => 69 case _ => 50)
  }

  lemma RankOfClass0(i: nat)
    requires i < 51
    ensures ClassRank(Class0Pos(i)) == i
  {
    match i
    case 0 => case 1 => case 2 => case 3 => case 4 => case 5 => case 6 => case 7 => case 8 => case 9 =>
    case 10 => case 11 => case 12 => case 13 =>
    case 14 => case 15 => case 16 => case 17 => case 18 => case 19 => case 20 => case 21 => case 22 =>
    case 23 => case 24 => case 25 => case 26 => case 27 =>
    case 28 => case 29 => case 30 => case 31 => case 32 => case 33 => case 34 => case 35 => case 36 =>
    case 37 => case 38 => case 39 => case 40 => case 41 =>
    case 42 => case 43 => case 44 => case 45 => case 46 => case 47 => case 48 => case 49 => case _ =>
  }

  lemma RankOfClass1(i: nat)
    requires i < 56
    ensures ClassRank(Class1Pos(i)) == 51 + i
  {
    if i < 28 {
      RankOfClass1Low(i);
    } else {
      RankOfClass1High(i);
    }
  }

  lemma RankOfClass1Low(i: nat)
    requires i < 28
    ensures ClassRank(Class1Pos(i)) == 51 + i
  {
    match i
    case 0 => case 1 => case 2 => case 3 => case 4 => case 5 => case 6 => case 7 => case 8 => case 9 =>
    case 10 => case 11 => case 12 => case 13 => case 14 => case 15 => case 16 => case 17 => case 18 =>
    case 19 => case 20 => case 21 => case 22 => case 23 => case 24 => case 25 => case 26 => case _ =>
  }

  lemma RankOfClass1High(i: nat)
    requires 28 <= i < 56
    ensures ClassRank(Class1Pos(i)) == 51 + i
  {
    match i
    case 28 => case 29 => case 30 => case 31 => case 32 => case 33 => case 34 => case 35 => case 36 =>
    case 37 => case 38 => case 39 => case 40 => case 41 => case 42 => case 43 => case 44 => case 45 =>
    case 46 => case 47 => case 48 => case 49 => case 50 => case 51 => case 52 => case 53 => case 54 => case _ =>
  }

  lemma RankOfClass2(i: nat)
    requires i < 30
    ensures ClassRank(Class2Pos(i)) == 107 + i
  {
    match i
    case 0 => case 1 => case 2 => case 3 => case 4 => case 5 => case 6 => case 7 => case 8 => case 9 =>
    case 10 => case 11 => case 12 => case 13 =>
    case 14 => case 15 => case 16 => case 17 => case 18 => case 19 => case 20 => case 21 => case 22 =>
    case 23 => case 24 => case 25 => case 26 => case 27 =>
    case 28 => case _ =>
  }

  /** The three tables of positions, one per class. */
  datatype ClassTables = ClassTables(class0: seq<nat>, class1: seq<nat>, class2: seq<nat>) {
    /** Frame positions in the order of all three classes. */
    function Order(): seq<nat> {
      class0 + class1 + class2
    }

    /** Every frame position occurs exactly once. */
    ghost predicate Valid() {
      && |class0| == 51 && |class1| == 56 && |class2| == 30
      && (forall r :: 0 <= r < ACELP_BITS ==> Order()[r] < ACELP_BITS)
      && (forall q, r :: 0 <= q < ACELP_BITS && 0 <= r < ACELP_BITS && Order()[q] == Order()[r] ==> q == r)
    }
  }

  function PosOfRank(r: nat): (pos: nat)
    requires r < ACELP_BITS
    ensures pos < ACELP_BITS
  {
    if r < 51 then Class0Pos(r) else if r < 107 then Class1Pos(r - 51) else Class2Pos(r - 107)
  }

  lemma RankOfPos(r: nat)
    requires r < ACELP_BITS
    ensures ClassRank(PosOfRank(r)) == r
  {
    if r < 51 {
      RankOfClass0(r);
    } else if r < 107 {
      RankOfClass1(r - 51);
    } else {
      RankOfClass2(r - 107);
    }
  }

  lemma PosInjective(q: nat, r: nat)
    requires q < ACELP_BITS && r < ACELP_BITS
    ensures PosOfRank(q) == PosOfRank(r) ==> q == r
  {
    RankOfPos(q);
    RankOfPos(r);
  }

  /** The source's tables. */
  function Tables(): (t: ClassTables)
    ensures t.Valid()
  {
    var t := ClassTables(seq(51, i requires 0 <= i < 51 => Class0Pos(i)), seq(56, i requires 0 <= i < 56 => Class1Pos(i)),
                         seq(30, i requires 0 <= i < 30 => Class2Pos(i)));
    assert t.Valid() by {
      TablesValid(t);
    }
    t
  }

  lemma TablesValid(t: ClassTables)
    requires |t.class0| == 51 && |t.class1| == 56 && |t.class2| == 30
    requires forall i :: 0 <= i < 51 ==> t.class0[i] == Class0Pos(i)
    requires forall i :: 0 <= i < 56 ==> t.class1[i] == Class1Pos(i)
    requires forall i :: 0 <= i < 30 ==> t.class2[i] == Class2Pos(i)
    ensures t.Valid()
  {
    forall r | 0 <= r < ACELP_BITS
      ensures t.Order()[r] == PosOfRank(r)
    {
    }
    forall q, r | 0 <= q < ACELP_BITS && 0 <= r < ACELP_BITS && t.Order()[q] == t.Order()[r]
      ensures q == r
    {
      PosInjective(q, r);
    }
  }

  // ---- The whole burst ----

  /** Codec bit that goes to channel position k: the two frames alternate. */
  function CodecIndex(t: ClassTables, k: nat): (c: nat)
    requires t.Valid() && k < BURST_BITS
    ensures c < BURST_BITS
  {
    t.Order()[k / 2] + if k % 2 == 0 then 0 else ACELP_BITS
  }

  lemma CodecIndexInjective(t: ClassTables, k: nat, l: nat)
    requires t.Valid() && k < BURST_BITS && l < BURST_BITS && CodecIndex(t, k) == CodecIndex(t, l)
    ensures k == l
  {
  }

  lemma IndicesDiffer(t: ClassTables, k: nat, l: nat)
    requires t.Valid() && k < BURST_BITS && l < BURST_BITS
    ensures k != l ==> CodecIndex(t, k) != CodecIndex(t, l)
  {
    if CodecIndex(t, k) == CodecIndex(t, l) {
      CodecIndexInjective(t, k, l);
    }
  }

  /** An injection of n positions into themselves hits every position. */
  lemma InjectionIsOnto(f: seq<int>, n: nat, c: nat)
    requires |f| == n && c < n && forall k :: 0 <= k < n ==> 0 <= f[k] < n
    requires forall k, l :: 0 <= k < n && 0 <= l < n && f[k] == f[l] ==> k == l
    ensures exists k :: 0 <= k < n && f[k] == c
  {
    var image := set k | 0 <= k < n :: f[k];
    ImageSize(f, n, image);
    if c !in image {
      SubsetOfRest(image, n, c);
    }
  }

  lemma ImageSize(f: seq<int>, n: nat, image: set<int>)
    requires |f| == n && forall k :: 0 <= k < n ==> f[k] in image
    requires forall k, l :: 0 <= k < n && 0 <= l < n && f[k] == f[l] ==> k == l
    ensures n <= |image|
  {
    forall k | k in Below(n)
      ensures 0 <= k < |f| && f[k] in image
    {
      BelowMembers(n, k);
    }
    InjectionBound(Below(n), image, f);
  }

  lemma SubsetOfRest(image: set<int>, n: nat, c: nat)
    requires c < n && c !in image && forall x :: x in image ==> 0 <= x < n
    ensures |image| < n
  {
    BelowMembers(n, c);
    forall x | x in image
      ensures x in Below(n) - {c}
    {
      BelowMembers(n, x);
    }
    SubsetSize(image, Below(n) - {c});
  }

  /** The numbers below n. */
  ghost function Below(n: nat): (s: set<int>)
    ensures |s| == n
    ensures forall k :: k in s ==> 0 <= k < n
  {
    if n == 0 then {} else
      var s := Below(n - 1);
      assert n - 1 !in s;
      s + {n - 1}
  }

  lemma {:induction false} BelowMembers(n: nat, k: int)
    ensures k in Below(n) <==> 0 <= k < n
  {
    if n > 0 {
      BelowMembers(n - 1, k);
    }
  }

  lemma {:induction false} SubsetSize(a: set<int>, b: set<int>)
    requires a <= b
    ensures |a| <= |b|
    decreases |a|
  {
    if exists x :: x in a {
      var x :| x in a;
      SubsetSize(a - {x}, b - {x});
      assert |b - {x}| == |b| - 1 && |a - {x}| == |a| - 1;
    } else {
      assert a == {};
    }
  }

  ghost function CodecIndices(t: ClassTables): (f: seq<int>)
    requires t.Valid()
    ensures |f| == BURST_BITS
    ensures forall k :: 0 <= k < BURST_BITS ==> f[k] == CodecIndex(t, k)
  {
    seq(BURST_BITS, k requires 0 <= k < BURST_BITS => CodecIndex(t, k))
  }

  lemma CodecIndexOnto(t: ClassTables, c: nat)
    requires t.Valid() && c < BURST_BITS
    ensures exists k :: 0 <= k < BURST_BITS && CodecIndex(t, k) == c
  {
    var f := CodecIndices(t);
    forall k, l | 0 <= k < BURST_BITS && 0 <= l < BURST_BITS && f[k] == f[l]
      ensures k == l
    {
      CodecIndexInjective(t, k, l);
    }
    InjectionIsOnto(f, BURST_BITS, c);
    var k :| 0 <= k < BURST_BITS && f[k] == c;
    assert CodecIndex(t, k) == c;
  }

  /** Channel position of codec bit c. */
  ghost function ChannelIndex(t: ClassTables, c: nat): (k: nat)
    requires t.Valid() && c < BURST_BITS
    ensures k < BURST_BITS && CodecIndex(t, k) == c
  {
    CodecIndexOnto(t, c);
    var k :| 0 <= k < BURST_BITS && CodecIndex(t, k) == c;
    k
  }

  /** Class-ordered bits of a burst. */
  function ToChannel(t: ClassTables, codec: seq<bool>): (channel: seq<bool>)
    requires t.Valid() && |codec| == BURST_BITS
    ensures |channel| == BURST_BITS
  {
    seq(BURST_BITS, k requires 0 <= k < BURST_BITS => codec[CodecIndex(t, k)])
  }

  ghost function ToCodec(t: ClassTables, channel: seq<bool>): (codec: seq<bool>)
    requires t.Valid() && |channel| == BURST_BITS
    ensures |codec| == BURST_BITS
  {
    seq(BURST_BITS, c requires 0 <= c < BURST_BITS => channel[ChannelIndex(t, c)])
  }

  /** The two reorderings undo each other. */
  lemma ReorderRoundTrip(t: ClassTables, s: seq<bool>)
    requires t.Valid() && |s| == BURST_BITS
    ensures ToCodec(t, ToChannel(t, s)) == s && ToChannel(t, ToCodec(t, s)) == s
  {
    forall k | 0 <= k < BURST_BITS
      ensures ChannelIndex(t, CodecIndex(t, k)) == k
    {
      CodecIndexInjective(t, k, ChannelIndex(t, CodecIndex(t, k)));
    }
  }

  /** Reordering keeps the number of differences. */
  lemma ToChannelDistance(t: ClassTables, s: seq<bool>, u: seq<bool>)
    requires t.Valid() && |s| == |u| == BURST_BITS
    ensures Distance(ToChannel(t, s), ToChannel(t, u)) <= Distance(s, u)
  {
    var f := CodecIndices(t);
    forall k, l | 0 <= k < |f| && 0 <= l < |f| && f[k] == f[l]
      ensures k == l
    {
      CodecIndexInjective(t, k, l);
    }
    GatherDistance(s, u, f);
    assert Gather(s, f) == ToChannel(t, s) && Gather(u, f) == ToChannel(t, u);
  }

  lemma ToCodecDistance(t: ClassTables, s: seq<bool>, u: seq<bool>)
    requires t.Valid() && |s| == |u| == BURST_BITS
    ensures Distance(ToCodec(t, s), ToCodec(t, u)) == Distance(s, u)
  {
    var g: seq<int> := seq(BURST_BITS, c requires 0 <= c < BURST_BITS => ChannelIndex(t, c));
    GatherDistance(s, u, g);
    assert Gather(s, g) == ToCodec(t, s) && Gather(u, g) == ToCodec(t, u);
    ToChannelDistance(t, ToCodec(t, s), ToCodec(t, u));
    ReorderRoundTrip(t, s);
    ReorderRoundTrip(t, u);
  }

  // ---- The loops ----

  /** One class of both frames into the channel order. */
  method EmitClass(t: ClassTables, codec: seq<bool>, table: seq<nat>, start: nat, channel: array<bool>)
    requires t.Valid() && |codec| == BURST_BITS && channel.Length == BURST_BITS
    requires start + |table| <= ACELP_BITS && t.Order()[start..start + |table|] == table
    requires channel[..2 * start] == ToChannel(t, codec)[..2 * start]
    modifies channel
    ensures channel[..2 * (start + |table|)] == ToChannel(t, codec)[..2 * (start + |table|)]
  {
    for i := 0 to |table|
      invariant channel[..2 * (start + i)] == ToChannel(t, codec)[..2 * (start + i)]
    {
      var pos, k := table[i], 2 * (start + i);
      assert pos == t.Order()[start + i];
      assert CodecIndex(t, k) == pos && CodecIndex(t, k + 1) == ACELP_BITS + pos;
      channel[k], channel[k + 1] := codec[pos], codec[ACELP_BITS + pos];
    }
  }

  method CodecToChannel(t: ClassTables, codec: seq<bool>, channel: array<bool>)
    requires t.Valid() && |codec| == BURST_BITS && channel.Length == BURST_BITS
    modifies channel
    ensures channel[..] == ToChannel(t, codec)
  {
    EmitClass(t, codec, t.class0, 0, channel);
    EmitClass(t, codec, t.class1, 51, channel);
    EmitClass(t, codec, t.class2, 107, channel);
    assert channel[..] == channel[..BURST_BITS];
  }

  /** One class of the channel order back to both frames. */
  method PlaceClass(t: ClassTables, channel: seq<bool>, table: seq<nat>, start: nat, codec: array<bool>)
    requires t.Valid() && |channel| == BURST_BITS && codec.Length == BURST_BITS
    requires start + |table| <= ACELP_BITS && t.Order()[start..start + |table|] == table
    requires forall j :: 0 <= j < 2 * start ==> codec[CodecIndex(t, j)] == channel[j]
    modifies codec
    ensures forall j :: 0 <= j < 2 * (start + |table|) ==> codec[CodecIndex(t, j)] == channel[j]
  {
    for i := 0 to |table|
      invariant forall j :: 0 <= j < 2 * (start + i) ==> codec[CodecIndex(t, j)] == channel[j]
    {
      var pos, k := table[i], 2 * (start + i);
      assert pos == t.Order()[start + i];
      assert CodecIndex(t, k) == pos && CodecIndex(t, k + 1) == ACELP_BITS + pos;
      forall j | 0 <= j < k
        ensures CodecIndex(t, j) != pos && CodecIndex(t, j) != ACELP_BITS + pos
      {
        IndicesDiffer(t, j, k);
        IndicesDiffer(t, j, k + 1);
      }
      codec[pos] := channel[k];
      codec[ACELP_BITS + pos] := channel[k + 1];
    }
  }

  method ChannelToCodec(t: ClassTables, channel: seq<bool>, codec: array<bool>)
    requires t.Valid() && |channel| == BURST_BITS && codec.Length == BURST_BITS
    modifies codec
    ensures codec[..] == ToCodec(t, channel)
  {
    PlaceClass(t, channel, t.class0, 0, codec);
    PlaceClass(t, channel, t.class1, 51, codec);
    PlaceClass(t, channel, t.class2, 107, codec);
    forall c | 0 <= c < BURST_BITS
      ensures codec[c] == channel[ChannelIndex(t, c)]
    {
      assert codec[CodecIndex(t, ChannelIndex(t, c))] == channel[ChannelIndex(t, c)];
    }
  }
}
