/** Grid-block bucketing of `updateVisualization`: the band is cut into half-open
    blocks `[startFreq + i*gridSpacing, startFreq + (i+1)*gridSpacing)` for as long as a
    block starts below `endFreq`, and every block lists the numbers of the channels
    whose lower edge falls inside it. Empty blocks are kept. */
module GridBlocks {
  import opened ChannelLayout

  datatype GridBlock = GridBlock(blockNumber: nat, channels: seq<nat>)

  function BlockStart(startFreq: real, gridSpacing: real, i: nat): real
  {
    startFreq + (i as real) * gridSpacing
  }

  /** How many blocks the loop produces: ceil((endFreq - startFreq) / gridSpacing) when the band
      is not empty, none when `gridSpacing` is not positive. */
  function BlockCount(startFreq: real, endFreq: real, gridSpacing: real): nat
  {
    if gridSpacing <= 0.0 || endFreq <= startFreq then 0
    else
      var q := (startFreq - endFreq) / gridSpacing;
      assert q * gridSpacing == startFreq - endFreq;
      assert q < 0.0 by { MulLeIff(0.0, q, gridSpacing); }
      -q.Floor
  }

  /** The numbers of the channels whose lower edge lies in `[blockStart, blockEnd)`, in the
      order of `all` (the `filter`/`map` pair of the block loop). */
  function ChannelsInBlock(all: seq<Channel>, blockStart: real, blockEnd: real): seq<nat>
    decreases |all|
  {
    if all == [] then []
    else
      (if blockStart <= LowerEdge(all[0]) < blockEnd then [all[0].channelNumber] else [])
      + ChannelsInBlock(all[1..], blockStart, blockEnd)
  }

  /** The blocks of the band: the reference the block loop is proved against. */
  function GridBlocksOf(all: seq<Channel>, startFreq: real, endFreq: real, gridSpacing: real): seq<GridBlock>
  {
    seq(BlockCount(startFreq, endFreq, gridSpacing), i requires 0 <= i =>
      GridBlock(i, ChannelsInBlock(all, BlockStart(startFreq, gridSpacing, i), BlockStart(startFreq, gridSpacing, i) + gridSpacing)))
  }

  /** The block loop: nothing when `gridSpacing <= 0` (NaN included), otherwise one block per
      `i` while `startFreq + i*gridSpacing < endFreq`. */
  method AssignBlocks(allChannels: seq<Channel>, startFreq: real, endFreq: real, gridSpacing: real)
    returns (blocks: seq<GridBlock>)
    ensures blocks == GridBlocksOf(allChannels, startFreq, endFreq, gridSpacing)
    ensures gridSpacing <= 0.0 ==> blocks == []
  {
    blocks := [];
    if gridSpacing > 0.0 {
      ghost var n := BlockCount(startFreq, endFreq, gridSpacing);
      ghost var spec := GridBlocksOf(allChannels, startFreq, endFreq, gridSpacing);
      var i: nat := 0;
      while startFreq + (i as real) * gridSpacing < endFreq
        invariant i <= n
        invariant blocks == spec[..i]
        decreases n - i
      {
        BlockFitsIff(startFreq, endFreq, gridSpacing, i);
        var blockStart := startFreq + (i as real) * gridSpacing;
        var blockEnd := blockStart + gridSpacing;
        var channelsInBlock := ChannelsInBlock(allChannels, blockStart, blockEnd);
        blocks := blocks + [GridBlock(i, channelsInBlock)];
        assert spec[..i + 1] == spec[..i] + [spec[i]];
        i := i + 1;
      }
      BlockFitsIff(startFreq, endFreq, gridSpacing, i);
      assert spec[..i] == spec;
    }
  }

  lemma MulLtIff(a: real, b: real, s: real)
    requires s > 0.0
    ensures a < b <==> a * s < b * s
  {
    MulLeIff(b, a, s);
  }

  /** Block `i` starts below `endFreq` exactly when `i` is below the block count: the count is
      the least `i` with `startFreq + i*gridSpacing >= endFreq`. */
  lemma BlockFitsIff(startFreq: real, endFreq: real, gridSpacing: real, i: nat)
    requires gridSpacing > 0.0
    ensures BlockStart(startFreq, gridSpacing, i) < endFreq <==> i < BlockCount(startFreq, endFreq, gridSpacing)
  {
    var d := endFreq - startFreq;
    var x := d / gridSpacing;
    assert x * gridSpacing == d;
    MulLtIff(i as real, x, gridSpacing);
    if d > 0.0 {
      var q := (startFreq - endFreq) / gridSpacing;
      assert q == -x;
    } else {
      MulLeIff(0.0, i as real, gridSpacing);
    }
  }

  lemma DivLeIff(a: real, b: real, g: real)
    requires g > 0.0
    ensures a * g <= b <==> a <= b / g
  {
    var q := b / g;
    assert q * g == b;
    MulLeIff(a, q, g);
  }

  lemma DivLtIff(a: real, b: real, g: real)
    requires g > 0.0
    ensures b < a * g <==> b / g < a
  {
    var q := b / g;
    assert q * g == b;
    MulLtIff(q, a, g);
  }

  /** A frequency `x` lies in the half-open block `i` exactly when `i` is floor((x - startFreq) / gridSpacing). */
  lemma BlockOfFrequency(startFreq: real, gridSpacing: real, x: real, i: nat)
    requires gridSpacing > 0.0
    ensures (BlockStart(startFreq, gridSpacing, i) <= x < BlockStart(startFreq, gridSpacing, i) + gridSpacing)
      <==> i == ((x - startFreq) / gridSpacing).Floor
  {
    var q := (x - startFreq) / gridSpacing;
    DivLeIff(i as real, x - startFreq, gridSpacing);
    DivLtIff((i + 1) as real, x - startFreq, gridSpacing);
    assert ((i + 1) as real) * gridSpacing == (i as real) * gridSpacing + gridSpacing;
    var f := q.Floor;
    if (i as real) <= q < (i + 1) as real {
      assert i <= f && f <= i;
    }
  }

  /** A channel number is listed in a block exactly when a channel with that number has its lower edge in the block. */
  lemma {:induction false} InBlockIff(all: seq<Channel>, blockStart: real, blockEnd: real, x: nat)
    ensures x in ChannelsInBlock(all, blockStart, blockEnd) <==>
      exists k :: 0 <= k < |all| && all[k].channelNumber == x && blockStart <= LowerEdge(all[k]) < blockEnd
    decreases |all|
  {
    if all != [] {
      InBlockIff(all[1..], blockStart, blockEnd, x);
      if exists k :: 0 <= k < |all| && all[k].channelNumber == x && blockStart <= LowerEdge(all[k]) < blockEnd {
        var k :| 0 <= k < |all| && all[k].channelNumber == x && blockStart <= LowerEdge(all[k]) < blockEnd;
        if k > 0 {
          assert all[1..][k - 1] == all[k];
        }
      }
      if x in ChannelsInBlock(all[1..], blockStart, blockEnd) {
        var k :| 0 <= k < |all[1..]| && all[1..][k].channelNumber == x && blockStart <= LowerEdge(all[1..][k]) < blockEnd;
        assert all[k + 1] == all[1..][k];
      }
    }
  }

  /** Strictly increasing sequence of channel numbers. */
  predicate Increasing(s: seq<nat>)
  {
    forall i, j :: 0 <= i < j < |s| ==> s[i] < s[j]
  }

  /** Every number a block lists is at least `bound` when every channel's number is. */
  lemma {:induction false} InBlockBound(all: seq<Channel>, blockStart: real, blockEnd: real, bound: nat)
    requires forall k :: 0 <= k < |all| ==> bound <= all[k].channelNumber
    ensures forall x :: x in ChannelsInBlock(all, blockStart, blockEnd) ==> bound <= x
    decreases |all|
  {
    if all != [] {
      InBlockBound(all[1..], blockStart, blockEnd, bound);
    }
  }

  /** When the channels are numbered in increasing order, each block lists its channels in ascending order. */
  lemma {:induction false} BlockAscending(all: seq<Channel>, blockStart: real, blockEnd: real)
    requires forall i, j :: 0 <= i < j < |all| ==> all[i].channelNumber < all[j].channelNumber
    ensures Increasing(ChannelsInBlock(all, blockStart, blockEnd))
    decreases |all|
  {
    if all != [] {
      var rest := all[1..];
      BlockAscending(rest, blockStart, blockEnd);
      InBlockBound(rest, blockStart, blockEnd, all[0].channelNumber + 1);
      var r := ChannelsInBlock(all, blockStart, blockEnd);
      var tail := ChannelsInBlock(rest, blockStart, blockEnd);
      if blockStart <= LowerEdge(all[0]) < blockEnd {
        assert r == [all[0].channelNumber] + tail;
        forall i, j | 0 <= i < j < |r| ensures r[i] < r[j] {
          assert r[j] == tail[j - 1];
          assert tail[j - 1] in tail;
          if i > 0 {
            assert r[i] == tail[i - 1];
          }
        }
      }
    }
  }

  /** Channel number `x` is listed in block `b` and in no other block. */
  predicate InOnlyBlock(blocks: seq<GridBlock>, x: nat, b: int)
  {
    && 0 <= b < |blocks|
    && x in blocks[b].channels
    && forall i :: 0 <= i < |blocks| && i != b ==> x !in blocks[i].channels
  }

  /** A channel whose lower edge lies in the band appears in exactly one block: the one whose
      half-open interval contains its lower edge, found by floor((lowerEdge - startFreq) / gridSpacing). */
  lemma ChannelInExactlyOneBlock(all: seq<Channel>, startFreq: real, endFreq: real, gridSpacing: real, j: nat)
    requires gridSpacing > 0.0
    requires NumberedByIndex(all)
    requires j < |all|
    requires startFreq <= LowerEdge(all[j]) < endFreq
    ensures InOnlyBlock(GridBlocksOf(all, startFreq, endFreq, gridSpacing), j,
                        ((LowerEdge(all[j]) - startFreq) / gridSpacing).Floor)
  {
    var blocks := GridBlocksOf(all, startFreq, endFreq, gridSpacing);
    var x := LowerEdge(all[j]);
    var q := (x - startFreq) / gridSpacing;
    assert q * gridSpacing == x - startFreq;
    MulLeIff(0.0, q, gridSpacing);
    var b: nat := q.Floor;
    BlockOfFrequency(startFreq, gridSpacing, x, b);
    BlockFitsIff(startFreq, endFreq, gridSpacing, b);
    InBlockIff(all, BlockStart(startFreq, gridSpacing, b), BlockStart(startFreq, gridSpacing, b) + gridSpacing, j);
    forall i | 0 <= i < |blocks| && i != b
      ensures j !in blocks[i].channels
    {
      var lo := BlockStart(startFreq, gridSpacing, i);
      InBlockIff(all, lo, lo + gridSpacing, j);
      BlockOfFrequency(startFreq, gridSpacing, x, i);
    }
  }

  /** For a generated layout whose configurations all have a positive width and a positive grid
      spacing: every channel is in exactly one block, the one containing its lower edge, and every
      block lists its channels in ascending order. */
  lemma LayoutBlocks(startFreq: real, endFreq: real, configs: seq<ChannelConfig>, gridSpacing: real)
    requires gridSpacing > 0.0
    requires forall c :: c in configs ==> c.channelWidth > 0.0
    ensures var all := GenerateLayout(startFreq, endFreq, configs).channels;
      var blocks := GridBlocksOf(all, startFreq, endFreq, gridSpacing);
      && (forall j :: 0 <= j < |all| ==> InOnlyBlock(blocks, j, ((LowerEdge(all[j]) - startFreq) / gridSpacing).Floor))
      && (forall i :: 0 <= i < |blocks| ==> Increasing(blocks[i].channels))
  {
    var all := GenerateLayout(startFreq, endFreq, configs).channels;
    var blocks := GridBlocksOf(all, startFreq, endFreq, gridSpacing);
    ChannelNumbersAreIndices(startFreq, endFreq, configs);
    ChannelsInBand(startFreq, endFreq, configs);
    forall j | 0 <= j < |all|
      ensures InOnlyBlock(blocks, j, ((LowerEdge(all[j]) - startFreq) / gridSpacing).Floor)
    {
      assert all[j].config in configs;
      ChannelInExactlyOneBlock(all, startFreq, endFreq, gridSpacing, j);
    }
    forall i | 0 <= i < |blocks| ensures Increasing(blocks[i].channels) {
      var lo := BlockStart(startFreq, gridSpacing, i);
      BlockAscending(all, lo, lo + gridSpacing);
    }
  }
}
