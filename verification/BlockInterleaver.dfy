/** The speech channel's block interleaver: written into 24 rows of 18, read out by columns. */
module BlockInterleaver {
  import opened BitSeq

  const LINES: nat := 24
  const COLUMNS: nat := 18
  const BLOCK_BITS: nat := 432

  /** Place of row `line`, column `col` when rows of `width` follow each other. */
  function Place(line: nat, col: nat, width: nat): nat {
    line * width + col
  }

  lemma PlaceFits(line: nat, col: nat, width: nat, height: nat)
    requires line < height && col < width
    ensures Place(line, col, width) < height * width
    ensures Place(line, col, width) / width == line && Place(line, col, width) % width == col
  {
    RowFits(line, width, height);
    DivisionIsUnique(line, col, width, Place(line, col, width));
  }

  lemma RowFits(line: nat, width: nat, height: nat)
    requires line < height
    ensures line * width + width <= height * width
  {
    var rest := height - line - 1;
    assert height * width == line * width + width + rest * width;
  }

  lemma DivisionIsUnique(q: nat, r: nat, d: nat, k: nat)
    requires r < d && k == q * d + r
    ensures k / d == q && k % d == r
  {
    var e := k / d - q;
    assert k == d * (k / d) + k % d;
    OnlySmallMultiple(e, d, r - k % d);
  }

  lemma OnlySmallMultiple(e: int, d: nat, z: int)
    requires (e * d == z || e * d == -z) && -(d as int) < z < d
    ensures e == 0 && z == 0
  {
    if e > 0 {
      RowFits(0, d, e);
    }
  }

  /** Where interleaved bit k comes from. */
  function Source(k: nat): (j: nat)
    requires k < BLOCK_BITS
    ensures j < BLOCK_BITS
  {
    Place(k % LINES, k / LINES, COLUMNS)
  }

  /** Where bit j goes. */
  function Destination(j: nat): (k: nat)
    requires j < BLOCK_BITS
    ensures k < BLOCK_BITS
  {
    Place(j % COLUMNS, j / COLUMNS, LINES)
  }

  lemma SourceOfDestination(j: nat)
    requires j < BLOCK_BITS
    ensures Source(Destination(j)) == j
  {
    PlaceFits(j % COLUMNS, j / COLUMNS, LINES, COLUMNS);
  }

  lemma DestinationOfSource(k: nat)
    requires k < BLOCK_BITS
    ensures Destination(Source(k)) == k
  {
    PlaceFits(k % LINES, k / LINES, COLUMNS, LINES);
  }

  function BlockInterleaved<T>(s: seq<T>): (r: seq<T>)
    requires |s| == BLOCK_BITS
    ensures |r| == BLOCK_BITS
  {
    seq(BLOCK_BITS, k requires 0 <= k < BLOCK_BITS => s[Source(k)])
  }

  function BlockDeinterleaved<T>(s: seq<T>): (r: seq<T>)
    requires |s| == BLOCK_BITS
    ensures |r| == BLOCK_BITS
  {
    seq(BLOCK_BITS, j requires 0 <= j < BLOCK_BITS => s[Destination(j)])
  }

  /** The two reorderings undo each other. */
  lemma BlockRoundTrip<T>(s: seq<T>)
    requires |s| == BLOCK_BITS
    ensures BlockDeinterleaved(BlockInterleaved(s)) == s && BlockInterleaved(BlockDeinterleaved(s)) == s
  {
    forall j | 0 <= j < BLOCK_BITS
      ensures BlockDeinterleaved(BlockInterleaved(s))[j] == s[j]
      ensures BlockInterleaved(BlockDeinterleaved(s))[j] == s[j]
    {
      SourceOfDestination(j);
      DestinationOfSource(j);
    }
  }

  /** Written row by row into 24 rows of 18, read column by column. */
  lemma MatrixBit<T>(s: seq<T>, line: nat, col: nat)
    requires |s| == 432 && line < 24 && col < 18
    ensures 24 * col + line < 432 && 18 * line + col < 432
    ensures BlockInterleaved(s)[24 * col + line] == s[18 * line + col]
    ensures BlockDeinterleaved(s)[18 * line + col] == s[24 * col + line]
  {
    PlaceFits(col, line, 24, 18);
    PlaceFits(line, col, 18, 24);
    assert Place(col, line, 24) == 24 * col + line && Place(line, col, 18) == 18 * line + col;
  }

  /** Neighbours on the air, fewer than 24 apart, come from positions 17 or more apart. */
  lemma NeighboursComeFromAfar(k: nat, l: nat)
    requires k < l < 432 && l - k < 24
    ensures Source(l) >= Source(k) + 17 || Source(k) >= Source(l) + 17
  {
    Column(k);
    Column(l);
    assert Source(k) == 18 * (k % 24) + k / 24 && Source(l) == 18 * (l % 24) + l / 24;
  }

  lemma Column(k: nat)
    ensures k == 24 * (k / 24) + k % 24
  {
  }

  lemma BlockDeinterleavedNoFarther(s: seq<bool>, u: seq<bool>)
    requires |s| == |u| == BLOCK_BITS
    ensures Distance(BlockDeinterleaved(s), BlockDeinterleaved(u)) <= Distance(s, u)
  {
    var f: seq<int> := seq(BLOCK_BITS, j requires 0 <= j < BLOCK_BITS => Destination(j));
    forall j, l | 0 <= j < |f| && 0 <= l < |f| && f[j] == f[l]
      ensures j == l
    {
      SourceOfDestination(j);
      SourceOfDestination(l);
    }
    GatherDistance(s, u, f);
    assert Gather(s, f) == BlockDeinterleaved(s) && Gather(u, f) == BlockDeinterleaved(u);
  }

  // ---- The loops ----

  method InterleaveSpeech<T>(input: seq<T>, out: array<T>)
    requires |input| == out.Length == BLOCK_BITS
    modifies out
    ensures out[..] == BlockInterleaved(input)
  {
    for col := 0 to COLUMNS
      invariant forall k :: 0 <= k < col * LINES ==> out[k] == BlockInterleaved(input)[k]
    {
      for line := 0 to LINES
        invariant forall k :: 0 <= k < col * LINES + line ==> out[k] == BlockInterleaved(input)[k]
      {
        PlaceFits(col, line, LINES, COLUMNS);
        PlaceFits(line, col, COLUMNS, LINES);
        out[col * LINES + line] := input[line * COLUMNS + col];
      }
    }
  }

  method DeinterleaveSpeech<T>(input: seq<T>, out: array<T>)
    requires |input| == out.Length == BLOCK_BITS
    modifies out
    ensures out[..] == BlockDeinterleaved(input)
  {
    for col := 0 to COLUMNS
      invariant forall k :: 0 <= k < col * LINES ==> out[Source(k)] == input[k]
    {
      for line := 0 to LINES
        invariant forall k :: 0 <= k < col * LINES + line ==> out[Source(k)] == input[k]
      {
        PlaceFits(col, line, LINES, COLUMNS);
        PlaceFits(line, col, COLUMNS, LINES);
        SourcesDiffer(col * LINES + line);
        out[line * COLUMNS + col] := input[col * LINES + line];
      }
    }
    forall j | 0 <= j < BLOCK_BITS
      ensures out[j] == BlockDeinterleaved(input)[j]
    {
      SourceOfDestination(j);
      assert out[Source(Destination(j))] == input[Destination(j)];
    }
  }

  lemma SourcesDiffer(n: nat)
    requires n < BLOCK_BITS
    ensures forall k :: 0 <= k < n ==> Source(k) != Source(n)
  {
    forall k | 0 <= k < n
      ensures Source(k) != Source(n)
    {
      DestinationOfSource(k);
      DestinationOfSource(n);
    }
  }
}
