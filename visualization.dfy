/** `updateVisualization` without its drawing: the frequency inputs are converted to
    kilohertz and checked, the configuration rows are read and checked, and only then are the
    channels laid out, the grid blocks filled and the configuration text generated. The form
    is given as parameters: each number input's text, what `parseFloat` made of it, and the
    unit selected beside it. */
module Visualization {
  import opened Common
  import opened Units
  import opened ChannelLayout
  import opened GridBlocks
  import opened DriotConfig

  /** A number input: its text (`val()`), its parsed value (`None` is NaN), and its unit.
      In the page `parsed` is `parseFloat(text)`, so an empty text always parses to NaN; the two
      fields are independent here, and no result depends on that link. */
  datatype NumberInput = NumberInput(text: string, parsed: Option<real>, unit: string)

  /** The three inputs of one channel-configuration row. */
  datatype RowInputs = RowInputs(occupiedBw: NumberInput, channelWidth: NumberInput, channelSpacing: NumberInput)

  datatype Inputs = Inputs(startFreq: NumberInput, endFreq: NumberInput, gridSpacing: NumberInput, rows: seq<RowInputs>)

  /** Why nothing was drawn. `EmptyRange` is the silent case: the range is unusable but one of
      its inputs is empty, so no message is shown. */
  datatype InputError = EmptyRange | InvalidRange | InvalidConfig | NoConfig

  /** What passed the checks, in kilohertz; the grid spacing may still be NaN. */
  datatype Validated = Validated(startFreq: real, endFreq: real, gridSpacing: Option<real>, configs: seq<ChannelConfig>)

  /** What one update produces: the channels, the ranges, the channel counter, the blocks and
      the configuration text. */
  datatype Rendering = Rendering(channels: seq<Channel>, ranges: seq<ChannelRange>, channelCount: nat,
                                 blocks: seq<GridBlock>, configText: string)

  function InputKHz(input: NumberInput): Option<real>
  {
    ConvertToKHz(input.parsed, input.unit)
  }

  /** Both ends are numbers and the start lies below the end. */
  predicate RangeUsable(inputs: Inputs)
  {
    var s := InputKHz(inputs.startFreq);
    var e := InputKHz(inputs.endFreq);
    s.Some? && e.Some? && s.value < e.value
  }

  predicate Positive(v: Option<real>)
  {
    v.Some? && v.value > 0.0
  }

  /** All three values of the row are numbers greater than zero. */
  predicate RowUsable(row: RowInputs)
  {
    Positive(InputKHz(row.occupiedBw)) && Positive(InputKHz(row.channelWidth)) && Positive(InputKHz(row.channelSpacing))
  }

  predicate AllRowsUsable(rows: seq<RowInputs>)
  {
    forall i :: 0 <= i < |rows| ==> RowUsable(rows[i])
  }

  /** A value as pushed into `configs`; NaN only occurs in a row that fails the check, whose
      configurations are never used, and stands as 0 here. */
  function ValueOf(v: Option<real>): real
  {
    if v.Some? then v.value else 0.0
  }

  function RowConfig(row: RowInputs): ChannelConfig
  {
    ChannelConfig(ValueOf(InputKHz(row.occupiedBw)), ValueOf(InputKHz(row.channelWidth)), ValueOf(InputKHz(row.channelSpacing)))
  }

  function RowConfigs(rows: seq<RowInputs>): (configs: seq<ChannelConfig>)
    ensures |configs| == |rows|
  {
    seq(|rows|, i requires 0 <= i < |rows| => RowConfig(rows[i]))
  }

  /** The checks of `updateVisualization`, in its order: the range first (silently when one
      of its inputs is empty), then every row, then that there is a row at all. */
  function Validate(inputs: Inputs): (r: Result<Validated, InputError>)
    ensures r == Failure(EmptyRange) <==>
      !RangeUsable(inputs) && (inputs.startFreq.text == "" || inputs.endFreq.text == "")
    ensures r == Failure(InvalidRange) <==>
      !RangeUsable(inputs) && inputs.startFreq.text != "" && inputs.endFreq.text != ""
    ensures r == Failure(InvalidConfig) <==> RangeUsable(inputs) && !AllRowsUsable(inputs.rows)
    ensures r == Failure(NoConfig) <==> RangeUsable(inputs) && inputs.rows == []
    ensures r.Success? <==> RangeUsable(inputs) && AllRowsUsable(inputs.rows) && inputs.rows != []
    ensures r.Success? ==>
      && r.value.startFreq < r.value.endFreq
      && |r.value.configs| == |inputs.rows| > 0
      && forall c :: c in r.value.configs ==> c.occupiedBw > 0.0 && c.channelWidth > 0.0 && c.channelSpacing > 0.0
  {
    if !RangeUsable(inputs) then
      if inputs.startFreq.text != "" && inputs.endFreq.text != "" then Failure(InvalidRange) else Failure(EmptyRange)
    else if !AllRowsUsable(inputs.rows) then Failure(InvalidConfig)
    else if inputs.rows == [] then Failure(NoConfig)
    else
      Success(Validated(InputKHz(inputs.startFreq).value, InputKHz(inputs.endFreq).value,
                        InputKHz(inputs.gridSpacing), RowConfigs(inputs.rows)))
  }

  /** The blocks of the update: none when the grid spacing is NaN. */
  function Blocks(all: seq<Channel>, startFreq: real, endFreq: real, gridSpacing: Option<real>): seq<GridBlock>
  {
    if gridSpacing.Some? then GridBlocksOf(all, startFreq, endFreq, gridSpacing.value) else []
  }

  /** The whole update for given inputs, title and number printer. */
  function Render(inputs: Inputs, title: string, numToStr: real -> string): Result<Rendering, InputError>
  {
    match Validate(inputs)
    case Failure(e) => Failure(e)
    case Success(v) =>
      var layout := GenerateLayout(v.startFreq, v.endFreq, v.configs);
      var blocks := Blocks(layout.channels, v.startFreq, v.endFreq, v.gridSpacing);
      RangesResolved(v.startFreq, v.endFreq, v.configs);
      Success(Rendering(layout.channels, layout.ranges, |layout.channels|, blocks,
                        ConfigText(title, v.startFreq, v.endFreq, v.configs, layout.ranges, blocks, |layout.channels|, numToStr)))
  }

  /** Every range of a layout finds its configuration, so the emitter's lookup never fails. */
  lemma RangesResolved(startFreq: real, endFreq: real, configs: seq<ChannelConfig>)
    ensures RangesResolve(configs, GenerateLayout(startFreq, endFreq, configs).ranges)
  {
    var ranges := GenerateLayout(startFreq, endFreq, configs).ranges;
    RangesHaveConfig(startFreq, endFreq, configs);
    forall j | 0 <= j < |ranges|
      ensures FindConfig(configs, ranges[j].occupiedBw).Some?
    {
      assert ranges[j] in ranges;
      var c :| c in configs && c.occupiedBw == ranges[j].occupiedBw;
      var i :| 0 <= i < |configs| && configs[i] == c;
    }
  }

  /** The `each` over the rows: every row's values are pushed, and a row that fails the check
      clears `isValid`. */
  method ReadConfigs(rows: seq<RowInputs>) returns (configs: seq<ChannelConfig>, isValid: bool)
    ensures isValid <==> AllRowsUsable(rows)
    ensures configs == RowConfigs(rows)
  {
    configs := [];
    isValid := true;
    for i := 0 to |rows|
      invariant isValid <==> AllRowsUsable(rows[..i])
      invariant configs == RowConfigs(rows[..i])
    {
      var row := rows[i];
      var occupiedBw := InputKHz(row.occupiedBw);
      var channelWidth := InputKHz(row.channelWidth);
      var channelSpacing := InputKHz(row.channelSpacing);
      if occupiedBw.None? || channelWidth.None? || channelSpacing.None?
         || occupiedBw.value <= 0.0 || channelWidth.value <= 0.0 || channelSpacing.value <= 0.0 {
        isValid := false;
      }
      configs := configs + [ChannelConfig(ValueOf(occupiedBw), ValueOf(channelWidth), ValueOf(channelSpacing))];
      assert rows[..i + 1][..i] == rows[..i];
    }
    assert rows[..|rows|] == rows;
  }

  /** `updateVisualization` up to the configuration text: the checks, the layout loop, the
      block loop (skipped unless the grid spacing is a positive number) and the emitter. */
  method UpdateVisualization(inputs: Inputs, title: string, numToStr: real -> string)
    returns (r: Result<Rendering, InputError>)
    ensures r == Render(inputs, title, numToStr)
  {
    var startFreq := InputKHz(inputs.startFreq);
    var endFreq := InputKHz(inputs.endFreq);
    var gridSpacing := InputKHz(inputs.gridSpacing);
    if startFreq.None? || endFreq.None? || startFreq.value >= endFreq.value {
      if inputs.startFreq.text != "" && inputs.endFreq.text != "" {
        return Failure(InvalidRange);
      }
      return Failure(EmptyRange);
    }
    var configs, isValid := ReadConfigs(inputs.rows);
    if !isValid {
      return Failure(InvalidConfig);
    }
    if |configs| == 0 {
      return Failure(NoConfig);
    }
    var allChannels, channelRanges, channelCounter := GenerateChannels(startFreq.value, endFreq.value, configs);
    var blocks: seq<GridBlock> := [];
    if gridSpacing.Some? {
      blocks := AssignBlocks(allChannels, startFreq.value, endFreq.value, gridSpacing.value);
    }
    RangesResolved(startFreq.value, endFreq.value, configs);
    var configText := GenerateDriotConfig(title, startFreq.value, endFreq.value, configs, channelRanges, blocks,
                                          channelCounter, numToStr);
    return Success(Rendering(allChannels, channelRanges, channelCounter, blocks, configText));
  }

  /** With a positive spacing, channel `j` sits in exactly one block: the one its lower edge
      falls in. */
  ghost predicate BlocksPlaceEachChannel(out: Rendering, v: Validated)
    requires v.gridSpacing.Some? && v.gridSpacing.value > 0.0
  {
    forall j :: 0 <= j < |out.channels| ==>
      InOnlyBlock(out.blocks, j, ((LowerEdge(out.channels[j]) - v.startFreq) / v.gridSpacing.value).Floor)
  }

  /** The blocks of a successful update with a positive spacing place every channel. */
  lemma RenderedBlocksPlaceEachChannel(inputs: Inputs, title: string, numToStr: real -> string)
    requires Render(inputs, title, numToStr).Success?
    requires Validate(inputs).value.gridSpacing.Some? && Validate(inputs).value.gridSpacing.value > 0.0
    ensures BlocksPlaceEachChannel(Render(inputs, title, numToStr).value, Validate(inputs).value)
  {
    var v := Validate(inputs).value;
    var layout := GenerateLayout(v.startFreq, v.endFreq, v.configs);
    var out := Render(inputs, title, numToStr).value;
    assert out.channels == layout.channels;
    assert out.blocks == GridBlocksOf(layout.channels, v.startFreq, v.endFreq, v.gridSpacing.value);
    LayoutPlaced(out, v);
  }

  /** The placement proved of a layout's channels carries over to a rendering that holds them. */
  lemma LayoutPlaced(out: Rendering, v: Validated)
    requires v.gridSpacing.Some? && v.gridSpacing.value > 0.0
    requires forall c :: c in v.configs ==> c.channelWidth > 0.0
    requires out.channels == GenerateLayout(v.startFreq, v.endFreq, v.configs).channels
    requires out.blocks == GridBlocksOf(out.channels, v.startFreq, v.endFreq, v.gridSpacing.value)
    ensures BlocksPlaceEachChannel(out, v)
  {
    LayoutBlocks(v.startFreq, v.endFreq, v.configs, v.gridSpacing.value);
  }

  /** What an update that gets through the checks guarantees: channel numbers 0, 1, 2, ...
      with the counter equal to their number, every channel inside the band, ranges that tile
      the numbers, and blocks that hold each channel exactly once in ascending order. */
  lemma RenderingSound(inputs: Inputs, title: string, numToStr: real -> string)
    requires Render(inputs, title, numToStr).Success?
    ensures var v := Validate(inputs).value;
      var out := Render(inputs, title, numToStr).value;
      && NumberedByIndex(out.channels)
      && out.channelCount == TotalChannels(v.startFreq, v.endFreq, v.configs)
      && AllInBand(out.channels, v.startFreq, v.endFreq, v.configs)
      && RangesTileNumbers(out.ranges, out.channelCount)
      && (v.gridSpacing.None? || v.gridSpacing.value <= 0.0 <==> out.blocks == [])
      && (forall i :: 0 <= i < |out.blocks| ==> Increasing(out.blocks[i].channels))
      && (v.gridSpacing.Some? && v.gridSpacing.value > 0.0 ==> BlocksPlaceEachChannel(out, v))
  {
    var v := Validate(inputs).value;
    ChannelNumbersAreIndices(v.startFreq, v.endFreq, v.configs);
    ChannelCounterIsTotal(v.startFreq, v.endFreq, v.configs);
    ChannelsInBand(v.startFreq, v.endFreq, v.configs);
    RangesTile(v.startFreq, v.endFreq, v.configs);
    if v.gridSpacing.Some? && v.gridSpacing.value > 0.0 {
      LayoutBlocks(v.startFreq, v.endFreq, v.configs, v.gridSpacing.value);
      RenderedBlocksPlaceEachChannel(inputs, title, numToStr);
      assert BlockCount(v.startFreq, v.endFreq, v.gridSpacing.value) > 0 by {
        BlockFitsIff(v.startFreq, v.endFreq, v.gridSpacing.value, 0);
      }
    }
  }
}
