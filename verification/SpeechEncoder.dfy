/** The speech channel's convolutional encoder: a delay line that outlives a call. */
module SpeechEncoder {
  import opened BitSeq
  import opened Trellis
  import opened ConvCode
  import opened ChannelCodec
  import opened SpeechCode

  /** Encoder state; history is everything encoded since the start. */
  class DelayLine {
    var d0: bool
    var d1: bool
    var d2: bool
    var d3: bool
    ghost var history: seq<bool>

    ghost predicate Valid()
      reads this
    {
      d0 == Tap(history, 0) && d1 == Tap(history, 1) && d2 == Tap(history, 2) && d3 == Tap(history, 3)
    }

    constructor ()
      ensures Valid() && history == []
    {
      d0, d1, d2, d3 := false, false, false, false;
      history := [];
    }

    method EncodeBit(bit: bool) returns (out: seq<bool>)
      requires Valid()
      modifies this
      ensures Valid() && history == old(history) + [bit]
      ensures out == SpeechOutputs(Register(history))
      ensures SpeechEncode(history) == SpeechEncode(old(history)) + out
    {
      out := [(((bit != d0) != d1) != d2) != d3, ((bit != d0) != d2) != d3, (bit != d1) != d3];
      AppendTaps(history, bit);
      d3 := d2;
      d2 := d1;
      d1 := d0;
      d0 := bit;
      history := history + [bit];
      assert history[..|history| - 1] == old(history);
      SpeechOutputsAreTaps(history);
    }

    /** Encodes the input as a continuation of the history. */
    method Encode(input: seq<bool>, output: array<bool>)
      requires Valid() && output.Length == 3 * |input|
      modifies this, output
      ensures Valid() && history == old(history) + input
      ensures SpeechEncode(history) == SpeechEncode(old(history)) + output[..]
    {
      ghost var before := history;
      ghost var coded := SpeechEncode(before);
      for i := 0 to |input|
        invariant Valid() && history == before + input[..i]
        invariant SpeechEncode(history) == coded + output[..3 * i]
      {
        ghost var done := output[..3 * i];
        var out := EncodeInto(input[i], output, 3 * i);
        NextBit(before, input, i);
        Regroup(coded, done, out, output[..3 * (i + 1)]);
      }
      assert input[..|input|] == input && output[..] == output[..3 * |input|];
    }

    method EncodeInto(bit: bool, output: array<bool>, at: nat) returns (out: seq<bool>)
      requires Valid() && at + 3 <= output.Length
      modifies this, output
      ensures Valid() && history == old(history) + [bit] && |out| == 3
      ensures SpeechEncode(history) == SpeechEncode(old(history)) + out
      ensures output[..at + 3] == old(output[..at]) + out
    {
      out := EncodeBit(bit);
      Put(output, at, out);
    }
  }

  lemma NextBit(before: seq<bool>, input: seq<bool>, i: nat)
    requires i < |input|
    ensures before + input[..i] + [input[i]] == before + input[..i + 1]
  {
  }

  lemma Regroup(coded: seq<bool>, done: seq<bool>, out: seq<bool>, all: seq<bool>)
    requires all == done + out
    ensures coded + done + out == coded + all
  {
  }
}
