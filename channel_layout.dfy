/** The channel layout generator of `updateVisualization`: for each channel
    configuration in order it places channels of the configured width, `spacing`
    apart, from the start of the band for as long as they fit, numbering them
    with one counter shared by all configurations, and summarises each
    configuration's channels as a range of channel numbers. Frequencies are
    exact reals in kilohertz. */
module ChannelLayout {

  /** One row of the configuration table: occupied bandwidth, channel width and channel spacing, in kHz. */
  datatype ChannelConfig = ChannelConfig(occupiedBw: real, channelWidth: real, channelSpacing: real)

  /** A generated channel: its center frequency, its number, and the configuration that produced it. */
  datatype Channel = Channel(centerFreq: real, channelNumber: nat, config: ChannelConfig)

  /** The channel numbers `start..end` (inclusive) produced by one configuration. */
  datatype ChannelRange = ChannelRange(occupiedBw: real, start: nat, end: nat)

  datatype Layout = Layout(channels: seq<Channel>, ranges: seq<ChannelRange>)

  function LowerEdge(ch: Channel): real { ch.centerFreq - ch.config.channelWidth / 2.0 }

  function UpperEdge(ch: Channel): real { ch.centerFreq + ch.config.channelWidth / 2.0 }

  /** Center frequency of the `k`-th candidate channel of configuration `c`. */
  function CenterOf(startFreq: real, c: ChannelConfig, k: nat): real
  {
    startFreq + c.channelWidth / 2.0 + (k as real) * c.channelSpacing
  }

  /** The `k`-th candidate channel of `c` ends at or below the end of the band. */
  predicate Fits(startFreq: real, endFreq: real, c: ChannelConfig, k: nat)
  {
    CenterOf(startFreq, c, k) + c.channelWidth / 2.0 <= endFreq
  }

  /** How many channels configuration `c` contributes: max(0, floor((end - start - width) / spacing) + 1),
      and none when the spacing is not positive (the generator skips such a configuration). */
  function ChannelCount(startFreq: real, endFreq: real, c: ChannelConfig): nat
  {
    if c.channelSpacing <= 0.0 then 0
    else
      var q := (endFreq - startFreq - c.channelWidth) / c.channelSpacing;
      if q < 0.0 then 0 else q.Floor + 1
  }

  /** The channels configuration `c` contributes when numbering starts at `first`. */
  function ConfigChannels(startFreq: real, endFreq: real, c: ChannelConfig, first: nat): seq<Channel>
  {
    seq(ChannelCount(startFreq, endFreq, c), k requires 0 <= k => Channel(CenterOf(startFreq, c, k), first + k, c))
  }

  /** The range entry of a configuration whose channels start at `first`: present only when it produced a channel. */
  function ConfigRange(startFreq: real, endFreq: real, c: ChannelConfig, first: nat): seq<ChannelRange>
  {
    var n := ChannelCount(startFreq, endFreq, c);
    if n > 0 then [ChannelRange(c.occupiedBw, first, first + n - 1)] else []
  }

  /** The layout of `configs`, processed in order: the reference the generator is proved against. */
  function GenerateLayout(startFreq: real, endFreq: real, configs: seq<ChannelConfig>): Layout
    decreases |configs|
  {
    if configs == [] then Layout([], [])
    else
      var prev := GenerateLayout(startFreq, endFreq, configs[..|configs| - 1]);
      var c := configs[|configs| - 1];
      var first := |prev.channels|;
      Layout(prev.channels + ConfigChannels(startFreq, endFreq, c, first),
             prev.ranges + ConfigRange(startFreq, endFreq, c, first))
  }

  /** The configurations that produce at least one channel, in order. */
  function Producing(startFreq: real, endFreq: real, configs: seq<ChannelConfig>): (r: seq<ChannelConfig>)
    ensures |r| <= |configs|
    ensures forall c :: c in r ==> c in configs && ChannelCount(startFreq, endFreq, c) > 0
    ensures forall c :: c in configs && ChannelCount(startFreq, endFreq, c) > 0 ==> c in r
    decreases |configs|
  {
    if configs == [] then []
    else
      var prev := Producing(startFreq, endFreq, configs[..|configs| - 1]);
      var c := configs[|configs| - 1];
      assert configs == configs[..|configs| - 1] + [c];
      if ChannelCount(startFreq, endFreq, c) > 0 then prev + [c] else prev
  }

  /** Sum of the channel counts of `configs`. */
  function TotalChannels(startFreq: real, endFreq: real, configs: seq<ChannelConfig>): nat
    decreases |configs|
  {
    if configs == [] then 0
    else TotalChannels(startFreq, endFreq, configs[..|configs| - 1]) + ChannelCount(startFreq, endFreq, configs[|configs| - 1])
  }

  /** Channel `i` carries number `i`: numbers run 0, 1, 2, ... with no gaps. */
  predicate NumberedByIndex(chs: seq<Channel>)
  {
    forall i :: 0 <= i < |chs| ==> chs[i].channelNumber == i
  }

  /** Every channel lies inside `[startFreq, endFreq]`, edges included, and comes from one of `configs`. */
  predicate AllInBand(chs: seq<Channel>, startFreq: real, endFreq: real, configs: seq<ChannelConfig>)
  {
    forall i :: 0 <= i < |chs| ==>
      startFreq <= LowerEdge(chs[i]) && UpperEdge(chs[i]) <= endFreq && chs[i].config in configs
  }

  /** The ranges cover the channel numbers 0..total-1 in order, without gaps or overlaps. */
  predicate RangesTileNumbers(ranges: seq<ChannelRange>, total: nat)
  {
    && (|ranges| == 0 <==> total == 0)
    && (|ranges| > 0 ==> ranges[0].start == 0 && ranges[|ranges| - 1].end == total - 1)
    && forall i :: 0 <= i < |ranges| - 1 ==> ranges[i + 1].start == ranges[i].end + 1
  }

  /** The layout loop of `updateVisualization`: one counter for all configurations, a
      `while` loop per configuration (`EmitConfigChannels`), and a range pushed for every
      configuration that produced a channel. */
  method GenerateChannels(startFreq: real, endFreq: real, configs: seq<ChannelConfig>)
    returns (allChannels: seq<Channel>, channelRanges: seq<ChannelRange>, channelCounter: nat)
    ensures Layout(allChannels, channelRanges) == GenerateLayout(startFreq, endFreq, configs)
    ensures channelCounter == |allChannels|
  {
    allChannels, channelRanges, channelCounter := [], [], 0;
    var j := 0;
    while j < |configs|
      invariant 0 <= j <= |configs|
      invariant Layout(allChannels, channelRanges) == GenerateLayout(startFreq, endFreq, configs[..j])
      invariant channelCounter == |allChannels|
    {
      var config := configs[j];
      assert configs[..j + 1][..j] == configs[..j];
      if config.channelSpacing > 0.0 {
        var emitted, startChannelForConfig;
        emitted, channelCounter, startChannelForConfig := EmitConfigChannels(startFreq, endFreq, config, channelCounter);
        allChannels := allChannels + emitted;
        if startChannelForConfig != -1 {
          channelRanges := channelRanges + [ChannelRange(config.occupiedBw, startChannelForConfig, channelCounter - 1)];
        }
      }
      j := j + 1;
    }
    assert configs[..|configs|] == configs;
  }

  /** The inner `while` loop for one configuration: starting at `startFreq + width/2`, emit a
      channel and step the center frequency by the spacing while the channel's upper edge is at
      or below `endFreq`. `startChannelForConfig` is the first number used, or -1 when none was. */
  method EmitConfigChannels(startFreq: real, endFreq: real, config: ChannelConfig, counter: nat)
    returns (emitted: seq<Channel>, channelCounter: nat, startChannelForConfig: int)
    requires config.channelSpacing > 0.0
    ensures emitted == ConfigChannels(startFreq, endFreq, config, counter)
    ensures channelCounter == counter + |emitted|
    ensures startChannelForConfig == if emitted == [] then -1 else counter
  {
    ghost var block := ConfigChannels(startFreq, endFreq, config, counter);
    ghost var n := ChannelCount(startFreq, endFreq, config);
    ghost var k: nat := 0;
    emitted, channelCounter, startChannelForConfig := [], counter, -1;
    var currentCenterFreq := startFreq + config.channelWidth / 2.0;
    while currentCenterFreq + config.channelWidth / 2.0 <= endFreq
      invariant k <= n
      invariant currentCenterFreq == CenterOf(startFreq, config, k)
      invariant channelCounter == counter + k
      invariant emitted == block[..k]
      invariant startChannelForConfig == if k == 0 then -1 else counter
      decreases n - k
    {
      FitsIff(startFreq, endFreq, config, k);
      if startChannelForConfig == -1 {
        startChannelForConfig := channelCounter;
      }
      emitted := emitted + [Channel(currentCenterFreq, channelCounter, config)];
      assert block[..k + 1] == block[..k] + [block[k]];
      channelCounter := channelCounter + 1;
      CenterStep(startFreq, config, k);
      currentCenterFreq := currentCenterFreq + config.channelSpacing;
      k := k + 1;
    }
    FitsIff(startFreq, endFreq, config, k);
    assert block[..k] == block;
  }

  lemma CenterStep(startFreq: real, c: ChannelConfig, k: nat)
    ensures CenterOf(startFreq, c, k + 1) == CenterOf(startFreq, c, k) + c.channelSpacing
  {
    assert ((k + 1) as real) * c.channelSpacing == (k as real) * c.channelSpacing + c.channelSpacing;
  }

  lemma MulLeIff(a: real, b: real, s: real)
    requires s > 0.0
    ensures a <= b <==> a * s <= b * s
  {
    assert b * s - a * s == (b - a) * s;
    if a <= b {
      assert (b - a) * s >= 0.0;
    } else {
      assert (b - a) * s < 0.0;
    }
  }

  /** The `k`-th candidate channel of a configuration fits in the band exactly when
      `k` is below the configuration's channel count: the loop emits channels 0..count-1 and stops. */
  lemma FitsIff(startFreq: real, endFreq: real, c: ChannelConfig, k: nat)
    requires c.channelSpacing > 0.0
    ensures Fits(startFreq, endFreq, c, k) <==> k < ChannelCount(startFreq, endFreq, c)
  {
    var d := endFreq - startFreq - c.channelWidth;
    var sp := c.channelSpacing;
    var q := d / sp;
    assert q * sp == d;
    assert Fits(startFreq, endFreq, c, k) <==> (k as real) * sp <= d;
    MulLeIff(k as real, q, sp);
  }

  /** Every channel a configuration contributes lies inside the band, and its neighbours are `spacing` apart. */
  lemma ConfigChannelInBand(startFreq: real, endFreq: real, c: ChannelConfig, first: nat, k: nat)
    requires k < ChannelCount(startFreq, endFreq, c)
    ensures var ch := ConfigChannels(startFreq, endFreq, c, first)[k];
      startFreq <= LowerEdge(ch) && UpperEdge(ch) <= endFreq
  {
    FitsIff(startFreq, endFreq, c, k);
    MulLeIff(0.0, k as real, c.channelSpacing);
  }

  /** The layout of a prefix of the configurations is a prefix of the whole layout. */
  lemma {:induction false} LayoutPrefix(startFreq: real, endFreq: real, configs: seq<ChannelConfig>, i: nat)
    requires i <= |configs|
    ensures GenerateLayout(startFreq, endFreq, configs[..i]).channels <= GenerateLayout(startFreq, endFreq, configs).channels
    ensures GenerateLayout(startFreq, endFreq, configs[..i]).ranges <= GenerateLayout(startFreq, endFreq, configs).ranges
    decreases |configs|
  {
    if i == |configs| {
      assert configs[..i] == configs;
    } else {
      var init := configs[..|configs| - 1];
      assert init[..i] == configs[..i];
      LayoutPrefix(startFreq, endFreq, init, i);
    }
  }

  /** Channel numbers are 0, 1, 2, ... in generation order, with no gaps. */
  lemma {:induction false} ChannelNumbersAreIndices(startFreq: real, endFreq: real, configs: seq<ChannelConfig>)
    ensures NumberedByIndex(GenerateLayout(startFreq, endFreq, configs).channels)
    decreases |configs|
  {
    if configs != [] {
      var init := configs[..|configs| - 1];
      ChannelNumbersAreIndices(startFreq, endFreq, init);
      var prev := GenerateLayout(startFreq, endFreq, init).channels;
      var chs := GenerateLayout(startFreq, endFreq, configs).channels;
      var block := ConfigChannels(startFreq, endFreq, configs[|configs| - 1], |prev|);
      assert chs == prev + block;
      forall i | 0 <= i < |chs| ensures chs[i].channelNumber == i {
        if i < |prev| {
          assert chs[i] == prev[i];
          assert prev[i].channelNumber == i;
        } else {
          assert chs[i] == block[i - |prev|];
          assert block[i - |prev|].channelNumber == |prev| + (i - |prev|);
        }
      }
    }
  }

  /** The final counter equals the sum of the configurations' channel counts. */
  lemma {:induction false} ChannelCounterIsTotal(startFreq: real, endFreq: real, configs: seq<ChannelConfig>)
    ensures |GenerateLayout(startFreq, endFreq, configs).channels| == TotalChannels(startFreq, endFreq, configs)
    decreases |configs|
  {
    if configs != [] {
      ChannelCounterIsTotal(startFreq, endFreq, configs[..|configs| - 1]);
    }
  }

  /** Every channel lies inside the band, edges included, and was produced by one of the configurations. */
  lemma {:induction false} ChannelsInBand(startFreq: real, endFreq: real, configs: seq<ChannelConfig>)
    ensures AllInBand(GenerateLayout(startFreq, endFreq, configs).channels, startFreq, endFreq, configs)
    decreases |configs|
  {
    if configs != [] {
      var init := configs[..|configs| - 1];
      var c := configs[|configs| - 1];
      ChannelsInBand(startFreq, endFreq, init);
      var prev := GenerateLayout(startFreq, endFreq, init).channels;
      var chs := GenerateLayout(startFreq, endFreq, configs).channels;
      var block := ConfigChannels(startFreq, endFreq, c, |prev|);
      assert chs == prev + block;
      forall i | 0 <= i < |chs|
        ensures startFreq <= LowerEdge(chs[i]) && UpperEdge(chs[i]) <= endFreq && chs[i].config in configs
      {
        if i < |prev| {
          assert chs[i] == prev[i];
          assert startFreq <= LowerEdge(prev[i]) && UpperEdge(prev[i]) <= endFreq && prev[i].config in init;
        } else {
          assert chs[i] == block[i - |prev|];
          ConfigChannelInBand(startFreq, endFreq, c, |prev|, i - |prev|);
        }
      }
    }
  }

  /** Configuration `j` owns the block of channels that starts where the previous configurations'
      channels end: exactly the channels it contributes, numbered on from there. */
  lemma ConfigSegment(startFreq: real, endFreq: real, configs: seq<ChannelConfig>, j: nat)
    requires j < |configs|
    ensures var chs := GenerateLayout(startFreq, endFreq, configs).channels;
      var first := |GenerateLayout(startFreq, endFreq, configs[..j]).channels|;
      var n := ChannelCount(startFreq, endFreq, configs[j]);
      first + n <= |chs| && chs[first..first + n] == ConfigChannels(startFreq, endFreq, configs[j], first)
  {
    LayoutPrefix(startFreq, endFreq, configs, j + 1);
    assert configs[..j + 1][..j] == configs[..j];
  }

  /** Successive channels of one configuration are numbered consecutively and their centers
      are exactly `spacing` apart; the first is centered `width/2` above the start of the band. */
  lemma ConfigChannelsSpaced(startFreq: real, endFreq: real, c: ChannelConfig, first: nat)
    ensures var cs := ConfigChannels(startFreq, endFreq, c, first);
      && (|cs| > 0 ==> cs[0].centerFreq == startFreq + c.channelWidth / 2.0 && cs[0].channelNumber == first)
      && forall k :: 0 < k < |cs| ==>
           cs[k].centerFreq == cs[k - 1].centerFreq + c.channelSpacing && cs[k].channelNumber == cs[k - 1].channelNumber + 1
  {
    var cs := ConfigChannels(startFreq, endFreq, c, first);
    forall k | 0 < k < |cs|
      ensures cs[k].centerFreq == cs[k - 1].centerFreq + c.channelSpacing
    {
      CenterStep(startFreq, c, k - 1);
    }
  }

  /** There is one range per configuration that produced a channel, in configuration order; each
      carries that configuration's occupied bandwidth and spans exactly its channel count. */
  lemma {:induction false} RangesFollowConfigs(startFreq: real, endFreq: real, configs: seq<ChannelConfig>)
    ensures var rs := GenerateLayout(startFreq, endFreq, configs).ranges;
      var ps := Producing(startFreq, endFreq, configs);
      && |rs| == |ps|
      && forall i :: 0 <= i < |rs| ==>
           && rs[i].occupiedBw == ps[i].occupiedBw
           && rs[i].start <= rs[i].end
           && rs[i].end - rs[i].start + 1 == ChannelCount(startFreq, endFreq, ps[i])
    decreases |configs|
  {
    if configs != [] {
      RangesFollowConfigs(startFreq, endFreq, configs[..|configs| - 1]);
    }
  }

  /** The ranges tile the channel numbers 0..total-1 in order, without gaps or overlaps. */
  lemma {:induction false} RangesTile(startFreq: real, endFreq: real, configs: seq<ChannelConfig>)
    ensures RangesTileNumbers(GenerateLayout(startFreq, endFreq, configs).ranges, |GenerateLayout(startFreq, endFreq, configs).channels|)
    decreases |configs|
  {
    if configs != [] {
      RangesTile(startFreq, endFreq, configs[..|configs| - 1]);
    }
  }

  /** Every range's occupied bandwidth is that of some configuration (so a lookup by bandwidth succeeds). */
  lemma RangesHaveConfig(startFreq: real, endFreq: real, configs: seq<ChannelConfig>)
    ensures forall r :: r in GenerateLayout(startFreq, endFreq, configs).ranges ==>
      exists c :: c in configs && c.occupiedBw == r.occupiedBw
  {
    RangesFollowConfigs(startFreq, endFreq, configs);
    var rs := GenerateLayout(startFreq, endFreq, configs).ranges;
    var ps := Producing(startFreq, endFreq, configs);
    forall r | r in rs ensures exists c :: c in configs && c.occupiedBw == r.occupiedBw {
      var i :| 0 <= i < |rs| && rs[i] == r;
      assert ps[i] in ps;
    }
  }
}
