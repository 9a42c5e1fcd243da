/** `generateDriotConfig`: the DrIoT band configuration document built from the channel
    layout and the grid blocks, one directive or comment per line. */
module DriotConfig {
  import opened Common
  import opened Decimal
  import opened ChannelLayout
  import opened GridBlocks

  /** The instance name used when the title field is empty. */
  const DefaultTitle := "DrIotLowerBand"

  /** The characters matched by the JavaScript regular-expression class `\s`. */
  predicate IsJsWhitespace(c: char)
  {
    c == '\t' || c == '\n' || c == '\U{B}' || c == '\U{C}' || c == '\r' || c == ' '
    || c == '\U{A0}' || c == '\U{1680}' || ('\U{2000}' <= c <= '\U{200A}')
    || c == '\U{2028}' || c == '\U{2029}' || c == '\U{202F}' || c == '\U{205F}'
    || c == '\U{3000}' || c == '\U{FEFF}'
  }

  predicate NoWhitespace(s: string)
  {
    forall i :: 0 <= i < |s| ==> !IsJsWhitespace(s[i])
  }

  /** `s.replace(/\s+/g, '')`: every whitespace character is dropped and the others keep their order. */
  function RemoveWhitespace(s: string): (r: string)
    ensures |r| <= |s|
    ensures NoWhitespace(r)
    ensures forall c :: c in r <==> c in s && !IsJsWhitespace(c)
    ensures NoWhitespace(s) ==> r == s
    decreases |s|
  {
    if s == [] then []
    else (if IsJsWhitespace(s[0]) then [] else [s[0]]) + RemoveWhitespace(s[1..])
  }

  /** Removal works character by character: it splits over concatenation, and (below) one
      character is kept exactly when it is not whitespace. Together these fix the result, order
      and repeats included. */
  lemma {:induction false} RemoveWhitespaceAppend(a: string, b: string)
    ensures RemoveWhitespace(a + b) == RemoveWhitespace(a) + RemoveWhitespace(b)
    decreases |a|
  {
    if a == [] {
      assert a + b == b;
    } else {
      var head := if IsJsWhitespace(a[0]) then [] else [a[0]];
      calc {
        RemoveWhitespace(a + b);
      == { assert (a + b)[0] == a[0]; assert (a + b)[1..] == a[1..] + b; }
        head + RemoveWhitespace(a[1..] + b);
      == { RemoveWhitespaceAppend(a[1..], b); }
        head + (RemoveWhitespace(a[1..]) + RemoveWhitespace(b));
      ==
        (head + RemoveWhitespace(a[1..])) + RemoveWhitespace(b);
      }
    }
  }

  lemma RemoveWhitespaceChar(c: char)
    ensures RemoveWhitespace([c]) == if IsJsWhitespace(c) then [] else [c]
  {
    assert [c][1..] == [];
  }

  /** The `[instance]` name: the title, or the default when the title is empty, without whitespace.
      A title made only of whitespace is not empty, so it gives the empty name. */
  function InstanceName(title: string): (name: string)
    ensures NoWhitespace(name)
    ensures title == [] ==> name == DefaultTitle
    ensures title != [] && NoWhitespace(title) ==> name == title
    ensures title != [] ==> forall c :: c in name <==> c in title && !IsJsWhitespace(c)
  {
    DefaultTitleHasNoWhitespace();
    RemoveWhitespace(if title == [] then DefaultTitle else title)
  }

  lemma DefaultTitleHasNoWhitespace()
    ensures NoWhitespace(DefaultTitle)
  {
    forall i | 0 <= i < |DefaultTitle| ensures !IsJsWhitespace(DefaultTitle[i]) {
      assert 'A' <= DefaultTitle[i] <= 'z';
    }
  }

  /** `configs.find(c => c.occupiedBw === bw)`: the FIRST configuration with that occupied bandwidth. */
  function FindConfig(configs: seq<ChannelConfig>, bw: real): (r: Option<ChannelConfig>)
    ensures r.None? <==> forall i :: 0 <= i < |configs| ==> configs[i].occupiedBw != bw
    ensures r.Some? ==> exists i :: 0 <= i < |configs| && configs[i] == r.value && FirstWithBandwidth(configs, bw, i)
    decreases |configs|
  {
    if configs == [] then None
    else if configs[0].occupiedBw == bw then (assert FirstWithBandwidth(configs, bw, 0); Some(configs[0]))
    else
      var r := FindConfig(configs[1..], bw);
      if r.Some? then
        var i :| 0 <= i < |configs[1..]| && configs[1..][i] == r.value && FirstWithBandwidth(configs[1..], bw, i);
        assert FirstWithBandwidth(configs, bw, i + 1);
        r
      else r
  }

  /** `configs[i]` has occupied bandwidth `bw` and no earlier configuration has. */
  predicate FirstWithBandwidth(configs: seq<ChannelConfig>, bw: real, i: int)
    requires 0 <= i < |configs|
  {
    configs[i].occupiedBw == bw && forall k :: 0 <= k < i ==> configs[k].occupiedBw != bw
  }

  /** Every range finds a configuration; otherwise the source dereferences `undefined` and throws. */
  predicate RangesResolve(configs: seq<ChannelConfig>, ranges: seq<ChannelRange>)
  {
    forall j :: 0 <= j < |ranges| ==> FindConfig(configs, ranges[j].occupiedBw).Some?
  }

  /** Number-to-text conversion never produces a line break. */
  ghost predicate SingleLine(numToStr: real -> string)
  {
    forall x: real :: '\n' !in numToStr(x)
  }

  /** The `#` comment line of one range; `config` is the one `FindConfig` returned for it.
      The word "badnwidth" is spelled as the document has it. */
  function CommentLine(range: ChannelRange, config: ChannelConfig, numToStr: real -> string): string
  {
    "# OBW=" + numToStr(range.occupiedBw) + "kHz, badnwidth=" + numToStr(config.channelWidth)
    + "kHz, spacing=" + numToStr(config.channelSpacing) + "kHz: "
    + IntToString(range.end - range.start + 1)
    + " (" + IntToString(range.start) + "-" + IntToString(range.end) + ")"
  }

  /** One comment line per range, in range order. */
  function CommentLines(configs: seq<ChannelConfig>, ranges: seq<ChannelRange>, numToStr: real -> string): (ls: seq<string>)
    requires RangesResolve(configs, ranges)
    ensures |ls| == |ranges|
    decreases |ranges|
  {
    if ranges == [] then []
    else
      var last := ranges[|ranges| - 1];
      CommentLines(configs, ranges[..|ranges| - 1], numToStr)
        + [CommentLine(last, FindConfig(configs, last.occupiedBw).value, numToStr)]
  }

  /** A `[instance] key = value` directive. */
  function Directive(name: string, key: string, value: string): string
  {
    "[" + name + "] " + key + " = " + value
  }

  /** A per-configuration array: the values in configuration order, separated by single spaces. */
  function Column(values: seq<real>, numToStr: real -> string): string
  {
    Join(seq(|values|, i requires 0 <= i < |values| => numToStr(values[i])), " ")
  }

  function Widths(configs: seq<ChannelConfig>): (v: seq<real>)
    ensures |v| == |configs| && forall i :: 0 <= i < |v| ==> v[i] == configs[i].channelWidth
  {
    seq(|configs|, i requires 0 <= i < |configs| => configs[i].channelWidth)
  }

  function Spacings(configs: seq<ChannelConfig>): (v: seq<real>)
    ensures |v| == |configs| && forall i :: 0 <= i < |v| ==> v[i] == configs[i].channelSpacing
  {
    seq(|configs|, i requires 0 <= i < |configs| => configs[i].channelSpacing)
  }

  function Bandwidths(configs: seq<ChannelConfig>): (v: seq<real>)
    ensures |v| == |configs| && forall i :: 0 <= i < |v| ==> v[i] == configs[i].occupiedBw
  {
    seq(|configs|, i requires 0 <= i < |configs| => configs[i].occupiedBw)
  }

  /** The seven directives every document has, in the order they are written. */
  function BandDirectives(name: string, startFreq: real, endFreq: real, configs: seq<ChannelConfig>,
                          numToStr: real -> string): (ls: seq<string>)
    ensures |ls| == 7
  {
    [ Directive(name, "is-driot-band", "true"),
      Directive(name, "driot-band-start-freq-mhz", numToStr(startFreq / 1000.0)),
      Directive(name, "driot-band-end-freq-mhz", numToStr(endFreq / 1000.0)),
      Directive(name, "driot-channel-bandwidths-khz", Column(Widths(configs), numToStr)),
      Directive(name, "driot-channel-spaces-khz", Column(Spacings(configs), numToStr)),
      Directive(name, "driot-channel-interference-nominal-transmit-widths-khz", Column(Bandwidths(configs), numToStr)),
      Directive(name, "driot-channel-interference-receive-widths-khz", Column(Bandwidths(configs), numToStr)) ]
  }

  /** The channel list of one block: its channel numbers separated by commas. */
  function BlockChannelsLine(name: string, block: GridBlock): string
  {
    Directive(name, "driot-block-" + IntToString(block.blockNumber) + "-channels",
      Join(seq(|block.channels|, i requires 0 <= i < |block.channels| => IntToString(block.channels[i])), ","))
  }

  /** The blocks that hold at least one channel, in their original order. */
  function NonEmptyBlocks(blocks: seq<GridBlock>): (ne: seq<GridBlock>)
    ensures |ne| <= |blocks|
    ensures forall b :: b in ne <==> b in blocks && |b.channels| > 0
    decreases |blocks|
  {
    if blocks == [] then []
    else
      var init := NonEmptyBlocks(blocks[..|blocks| - 1]);
      var last := blocks[|blocks| - 1];
      assert forall b :: b in blocks <==> b in blocks[..|blocks| - 1] || b == last;
      if |last.channels| > 0 then init + [last] else init
  }

  /** The channel-list directives of the non-empty blocks, built block by block. */
  function ChannelListLines(name: string, blocks: seq<GridBlock>): (ls: seq<string>)
    decreases |blocks|
  {
    if blocks == [] then []
    else
      var last := blocks[|blocks| - 1];
      ChannelListLines(name, blocks[..|blocks| - 1])
        + (if |last.channels| > 0 then [BlockChannelsLine(name, last)] else [])
  }

  /** The block section: nothing without blocks, otherwise the count of all blocks and then
      the channel lists of the non-empty ones. */
  function BlockLines(name: string, blocks: seq<GridBlock>): seq<string>
  {
    if blocks == [] then []
    else [Directive(name, "driot-block-count", IntToString(|blocks|))] + ChannelListLines(name, blocks)
  }

  /** The lines of the document, in order. */
  function ConfigLines(name: string, startFreq: real, endFreq: real, configs: seq<ChannelConfig>,
                       ranges: seq<ChannelRange>, blocks: seq<GridBlock>, total: nat,
                       numToStr: real -> string): seq<string>
    requires RangesResolve(configs, ranges)
  {
    HeaderLines(name) + CommentLines(configs, ranges, numToStr)
    + SummaryLines(name, startFreq, endFreq, configs, total, numToStr) + BlockLines(name, blocks)
  }

  /** The `#Instance` and `#Component` lines. */
  function HeaderLines(name: string): (ls: seq<string>)
    ensures |ls| == 2
  {
    ["#Instance " + name, "#Component Channel"]
  }

  /** The `# total` comment and the seven band directives. */
  function SummaryLines(name: string, startFreq: real, endFreq: real, configs: seq<ChannelConfig>,
                        total: nat, numToStr: real -> string): (ls: seq<string>)
    ensures |ls| == 8
  {
    ["# total: " + IntToString(total)] + BandDirectives(name, startFreq, endFreq, configs, numToStr)
  }

  /** Lines written one after another, each ended by a line feed. */
  function Unlines(ls: seq<string>): string
    decreases |ls|
  {
    if ls == [] then "" else ls[0] + "\n" + Unlines(ls[1..])
  }

  /** The document text `generateDriotConfig` puts into the output field. */
  function ConfigText(title: string, startFreq: real, endFreq: real, configs: seq<ChannelConfig>,
                      ranges: seq<ChannelRange>, blocks: seq<GridBlock>, total: nat,
                      numToStr: real -> string): string
    requires RangesResolve(configs, ranges)
  {
    Unlines(ConfigLines(InstanceName(title), startFreq, endFreq, configs, ranges, blocks, total, numToStr))
  }

  /** `generateDriotConfig`: appends the header, one comment per range, the total, the seven
      band directives and the block section to `output`, one line at a time. */
  method GenerateDriotConfig(title: string, startFreq: real, endFreq: real, configs: seq<ChannelConfig>,
                             channelRanges: seq<ChannelRange>, blocks: seq<GridBlock>, totalChannelCount: nat,
                             numToStr: real -> string)
    returns (output: string)
    requires RangesResolve(configs, channelRanges)
    ensures output == ConfigText(title, startFreq, endFreq, configs, channelRanges, blocks, totalChannelCount, numToStr)
  {
    var instanceName := InstanceName(title);
    ghost var header := HeaderLines(instanceName);
    ghost var comments := CommentLines(configs, channelRanges, numToStr);
    ghost var summary := SummaryLines(instanceName, startFreq, endFreq, configs, totalChannelCount, numToStr);
    ghost var blockLines := BlockLines(instanceName, blocks);

    output := "#Instance " + instanceName + "\n" + "#Component Channel" + "\n";
    UnlinesPair(header[0], header[1]);
    assert header == [header[0], header[1]];
    ghost var written := header;
    assert output == Unlines(written);

    var text := EmitRangeComments(configs, channelRanges, numToStr);
    UnlinesAppend(written, comments);
    output := output + text;
    written := written + comments;
    assert output == Unlines(written);

    text := EmitBandDirectives(instanceName, startFreq, endFreq, configs, totalChannelCount, numToStr);
    UnlinesAppend(written, summary);
    output := output + text;
    written := written + summary;
    assert output == Unlines(written);

    text := EmitBlockSection(instanceName, blocks);
    UnlinesAppend(written, blockLines);
    output := output + text;
    written := written + blockLines;
    assert output == Unlines(written);
    assert ConfigLines(instanceName, startFreq, endFreq, configs, channelRanges, blocks, totalChannelCount, numToStr) == written;
  }

  lemma UnlinesPair(a: string, b: string)
    ensures Unlines([a, b]) == a + "\n" + b + "\n"
  {
    assert [a, b][1..] == [b];
    assert Unlines([b]) == b + "\n" + Unlines([]);
  }

  /** The `channelRanges.forEach` loop: one comment line per range, in range order. */
  method EmitRangeComments(configs: seq<ChannelConfig>, channelRanges: seq<ChannelRange>, numToStr: real -> string)
    returns (output: string)
    requires RangesResolve(configs, channelRanges)
    ensures output == Unlines(CommentLines(configs, channelRanges, numToStr))
  {
    output := "";
    var j := 0;
    while j < |channelRanges|
      invariant 0 <= j <= |channelRanges|
      invariant output == Unlines(CommentLines(configs, channelRanges[..j], numToStr))
    {
      var range := channelRanges[j];
      var config := FindConfig(configs, range.occupiedBw).value;
      var line := CommentLine(range, config, numToStr);
      CommentLinesStep(configs, channelRanges, j, numToStr);
      UnlinesSnoc(CommentLines(configs, channelRanges[..j], numToStr), line);
      output := output + line + "\n";
      j := j + 1;
    }
    assert channelRanges[..j] == channelRanges;
  }

  /** One more range adds its comment line at the end. */
  lemma CommentLinesStep(configs: seq<ChannelConfig>, ranges: seq<ChannelRange>, j: nat, numToStr: real -> string)
    requires RangesResolve(configs, ranges) && j < |ranges|
    ensures RangesResolve(configs, ranges[..j]) && RangesResolve(configs, ranges[..j + 1])
    ensures CommentLines(configs, ranges[..j + 1], numToStr)
         == CommentLines(configs, ranges[..j], numToStr)
            + [CommentLine(ranges[j], FindConfig(configs, ranges[j].occupiedBw).value, numToStr)]
  {
    assert ranges[..j + 1][..j] == ranges[..j];
  }

  /** The total and the seven band directives, appended one line at a time. */
  method EmitBandDirectives(instanceName: string, startFreq: real, endFreq: real, configs: seq<ChannelConfig>,
                            totalChannelCount: nat, numToStr: real -> string)
    returns (output: string)
    ensures output == Unlines(SummaryLines(instanceName, startFreq, endFreq, configs, totalChannelCount, numToStr))
  {
    var total := "# total: " + IntToString(totalChannelCount);
    output := total + "\n";
    var isBand := Directive(instanceName, "is-driot-band", "true");
    output := output + isBand + "\n";
    var start := Directive(instanceName, "driot-band-start-freq-mhz", numToStr(startFreq / 1000.0));
    output := output + start + "\n";
    var end := Directive(instanceName, "driot-band-end-freq-mhz", numToStr(endFreq / 1000.0));
    output := output + end + "\n";
    var widths := Directive(instanceName, "driot-channel-bandwidths-khz", Column(Widths(configs), numToStr));
    output := output + widths + "\n";
    var spaces := Directive(instanceName, "driot-channel-spaces-khz", Column(Spacings(configs), numToStr));
    output := output + spaces + "\n";
    var transmit := Directive(instanceName, "driot-channel-interference-nominal-transmit-widths-khz", Column(Bandwidths(configs), numToStr));
    output := output + transmit + "\n";
    var receive := Directive(instanceName, "driot-channel-interference-receive-widths-khz", Column(Bandwidths(configs), numToStr));
    output := output + receive + "\n";
    SummaryLinesAre(instanceName, startFreq, endFreq, configs, totalChannelCount, numToStr);
    UnlinesEight(total, isBand, start, end, widths, spaces, transmit, receive);
  }

  /** Eight lines, each followed by a line feed. */
  lemma UnlinesEight(l0: string, l1: string, l2: string, l3: string, l4: string, l5: string, l6: string, l7: string)
    ensures Unlines([l0, l1, l2, l3, l4, l5, l6, l7]) ==
      l0 + "\n" + l1 + "\n" + l2 + "\n" + l3 + "\n" + l4 + "\n" + l5 + "\n" + l6 + "\n" + l7 + "\n"
  {
    assert Unlines([l0]) == l0 + "\n" by {
      assert Unlines([l0]) == l0 + "\n" + Unlines([]);
    }
    assert Unlines([l0, l1]) == Unlines([l0]) + l1 + "\n" by {
      UnlinesSnoc([l0], l1);
      assert [l0] + [l1] == [l0, l1];
    }
    assert Unlines([l0, l1, l2]) == Unlines([l0, l1]) + l2 + "\n" by {
      UnlinesSnoc([l0, l1], l2);
      assert [l0, l1] + [l2] == [l0, l1, l2];
    }
    assert Unlines([l0, l1, l2, l3]) == Unlines([l0, l1, l2]) + l3 + "\n" by {
      UnlinesSnoc([l0, l1, l2], l3);
      assert [l0, l1, l2] + [l3] == [l0, l1, l2, l3];
    }
    assert Unlines([l0, l1, l2, l3, l4]) == Unlines([l0, l1, l2, l3]) + l4 + "\n" by {
      UnlinesSnoc([l0, l1, l2, l3], l4);
      assert [l0, l1, l2, l3] + [l4] == [l0, l1, l2, l3, l4];
    }
    assert Unlines([l0, l1, l2, l3, l4, l5]) == Unlines([l0, l1, l2, l3, l4]) + l5 + "\n" by {
      UnlinesSnoc([l0, l1, l2, l3, l4], l5);
      assert [l0, l1, l2, l3, l4] + [l5] == [l0, l1, l2, l3, l4, l5];
    }
    assert Unlines([l0, l1, l2, l3, l4, l5, l6]) == Unlines([l0, l1, l2, l3, l4, l5]) + l6 + "\n" by {
      UnlinesSnoc([l0, l1, l2, l3, l4, l5], l6);
      assert [l0, l1, l2, l3, l4, l5] + [l6] == [l0, l1, l2, l3, l4, l5, l6];
    }
    assert Unlines([l0, l1, l2, l3, l4, l5, l6, l7]) == Unlines([l0, l1, l2, l3, l4, l5, l6]) + l7 + "\n" by {
      UnlinesSnoc([l0, l1, l2, l3, l4, l5, l6], l7);
      assert [l0, l1, l2, l3, l4, l5, l6] + [l7] == [l0, l1, l2, l3, l4, l5, l6, l7];
    }
  }

  /** The eight summary lines written out. */
  lemma SummaryLinesAre(name: string, startFreq: real, endFreq: real, configs: seq<ChannelConfig>,
                        total: nat, numToStr: real -> string)
    ensures SummaryLines(name, startFreq, endFreq, configs, total, numToStr) ==
      [ "# total: " + IntToString(total),
        Directive(name, "is-driot-band", "true"),
        Directive(name, "driot-band-start-freq-mhz", numToStr(startFreq / 1000.0)),
        Directive(name, "driot-band-end-freq-mhz", numToStr(endFreq / 1000.0)),
        Directive(name, "driot-channel-bandwidths-khz", Column(Widths(configs), numToStr)),
        Directive(name, "driot-channel-spaces-khz", Column(Spacings(configs), numToStr)),
        Directive(name, "driot-channel-interference-nominal-transmit-widths-khz", Column(Bandwidths(configs), numToStr)),
        Directive(name, "driot-channel-interference-receive-widths-khz", Column(Bandwidths(configs), numToStr)) ]
  {
  }

  /** The block section: nothing without blocks; otherwise the count line and the channel lists. */
  method EmitBlockSection(instanceName: string, blocks: seq<GridBlock>) returns (output: string)
    ensures output == Unlines(BlockLines(instanceName, blocks))
  {
    output := "";
    if |blocks| > 0 {
      var countLine := Directive(instanceName, "driot-block-count", IntToString(|blocks|));
      var lists := EmitChannelLists(instanceName, blocks);
      output := countLine + "\n" + lists;
      ghost var all := [countLine] + ChannelListLines(instanceName, blocks);
      assert all[0] == countLine && all[1..] == ChannelListLines(instanceName, blocks);
    }
  }

  /** The `blocks.forEach` loop: one channel-list line per block that holds channels. */
  method EmitChannelLists(instanceName: string, blocks: seq<GridBlock>) returns (output: string)
    ensures output == Unlines(ChannelListLines(instanceName, blocks))
  {
    output := "";
    var b := 0;
    while b < |blocks|
      invariant 0 <= b <= |blocks|
      invariant output == Unlines(ChannelListLines(instanceName, blocks[..b]))
    {
      var block := blocks[b];
      ChannelListLinesStep(instanceName, blocks, b);
      if |block.channels| > 0 {
        var line := BlockChannelsLine(instanceName, block);
        UnlinesSnoc(ChannelListLines(instanceName, blocks[..b]), line);
        output := output + line + "\n";
      } else {
        assert ChannelListLines(instanceName, blocks[..b]) + [] == ChannelListLines(instanceName, blocks[..b]);
      }
      b := b + 1;
    }
    assert blocks[..b] == blocks;
  }

  lemma ChannelListLinesStep(name: string, blocks: seq<GridBlock>, b: nat)
    requires b < |blocks|
    ensures ChannelListLines(name, blocks[..b + 1]) == ChannelListLines(name, blocks[..b])
      + (if |blocks[b].channels| > 0 then [BlockChannelsLine(name, blocks[b])] else [])
  {
    assert blocks[..b + 1][..b] == blocks[..b];
  }

  lemma {:induction false} UnlinesSnoc(ls: seq<string>, line: string)
    ensures Unlines(ls + [line]) == Unlines(ls) + line + "\n"
    decreases |ls|
  {
    if ls != [] {
      assert (ls + [line])[1..] == ls[1..] + [line];
      UnlinesSnoc(ls[1..], line);
    }
  }

  lemma {:induction false} UnlinesAppend(ls: seq<string>, more: seq<string>)
    ensures Unlines(ls + more) == Unlines(ls) + Unlines(more)
    decreases |ls|
  {
    if ls == [] {
      assert ls + more == more;
    } else {
      assert (ls + more)[1..] == ls[1..] + more;
      UnlinesAppend(ls[1..], more);
    }
  }

  // ---------------------------------------------------------------------------------------
  // Properties of the document

  predicate NoNewline(s: string)
  {
    '\n' !in s
  }

  /** The first position of `c` in `s`, or `|s|` when there is none. */
  function IndexOf(s: string, c: char): (k: nat)
    ensures k <= |s| && (k < |s| ==> s[k] == c)
    ensures forall i :: 0 <= i < k ==> s[i] != c
    decreases |s|
  {
    if s == [] then 0 else if s[0] == c then 0 else 1 + IndexOf(s[1..], c)
  }

  /** Splits a text into its lines: the reader of the document `Unlines` writes. */
  function Lines(s: string): seq<string>
    decreases |s|
  {
    if s == [] then []
    else
      var k := IndexOf(s, '\n');
      if k == |s| then [s] else [s[..k]] + Lines(s[k + 1..])
  }

  /** Reading back lines that hold no line feed gives exactly those lines. */
  lemma {:induction false} LinesUnlines(ls: seq<string>)
    requires forall i :: 0 <= i < |ls| ==> NoNewline(ls[i])
    ensures Lines(Unlines(ls)) == ls
    decreases |ls|
  {
    if ls != [] {
      var s := Unlines(ls);
      var first := ls[0];
      assert s == first + ("\n" + Unlines(ls[1..]));
      assert s[|first|] == '\n';
      assert forall i :: 0 <= i < |first| ==> s[i] == first[i] && first[i] != '\n';
      var k := IndexOf(s, '\n');
      assert k == |first|;
      assert s[..k] == first;
      assert s[k + 1..] == Unlines(ls[1..]);
      LinesUnlines(ls[1..]);
      assert [first] + ls[1..] == ls;
    }
  }

  lemma IntToStringSingle(i: int)
    ensures NoNewline(IntToString(i))
  {
    var t := IntToString(i);
    assert forall k :: 0 <= k < |t| ==> t[k] != '\n';
  }

  lemma JoinSingle(parts: seq<string>, sep: string)
    requires NoNewline(sep) && forall i :: 0 <= i < |parts| ==> NoNewline(parts[i])
    ensures NoNewline(Join(parts, sep))
  {
    if '\n' in Join(parts, sep) {
      JoinChars(parts, sep, '\n');
    }
  }

  lemma DirectiveSingle(name: string, key: string, value: string)
    requires NoNewline(name) && NoNewline(key) && NoNewline(value)
    ensures NoNewline(Directive(name, key, value))
  {
  }

  lemma NameSingle(name: string)
    requires NoWhitespace(name)
    ensures NoNewline(name)
  {
    assert forall k :: 0 <= k < |name| ==> name[k] != '\n';
  }

  lemma ColumnSingle(values: seq<real>, numToStr: real -> string)
    requires SingleLine(numToStr)
    ensures NoNewline(Column(values, numToStr))
  {
    var parts := seq(|values|, i requires 0 <= i < |values| => numToStr(values[i]));
    forall i | 0 <= i < |parts| ensures NoNewline(parts[i]) {
      var x := values[i];
      assert '\n' !in numToStr(x);
      assert parts[i] == numToStr(x);
    }
    JoinSingle(parts, " ");
  }

  lemma BlockChannelsLineSingle(name: string, block: GridBlock)
    requires NoNewline(name)
    ensures NoNewline(BlockChannelsLine(name, block))
  {
    var parts := seq(|block.channels|, i requires 0 <= i < |block.channels| => IntToString(block.channels[i]));
    forall i | 0 <= i < |parts| ensures NoNewline(parts[i]) {
      IntToStringSingle(block.channels[i]);
    }
    JoinSingle(parts, ",");
    IntToStringSingle(block.blockNumber);
  }

  lemma {:induction false} ChannelListLinesSingle(name: string, blocks: seq<GridBlock>)
    requires NoNewline(name)
    ensures forall i :: 0 <= i < |ChannelListLines(name, blocks)| ==> NoNewline(ChannelListLines(name, blocks)[i])
    decreases |blocks|
  {
    if blocks != [] {
      ChannelListLinesSingle(name, blocks[..|blocks| - 1]);
      BlockChannelsLineSingle(name, blocks[|blocks| - 1]);
    }
  }

  lemma {:induction false} CommentLinesSingle(configs: seq<ChannelConfig>, ranges: seq<ChannelRange>, numToStr: real -> string)
    requires RangesResolve(configs, ranges) && SingleLine(numToStr)
    ensures forall i :: 0 <= i < |ranges| ==> NoNewline(CommentLines(configs, ranges, numToStr)[i])
    decreases |ranges|
  {
    if ranges != [] {
      var r := ranges[|ranges| - 1];
      var init := ranges[..|ranges| - 1];
      CommentLinesSingle(configs, init, numToStr);
      CommentLineSingle(r, FindConfig(configs, r.occupiedBw).value, numToStr);
      var ls := CommentLines(configs, ranges, numToStr);
      assert ls == CommentLines(configs, init, numToStr) + [CommentLine(r, FindConfig(configs, r.occupiedBw).value, numToStr)];
      forall i | 0 <= i < |ranges| ensures NoNewline(ls[i]) {
        if i < |init| {
          assert ls[i] == CommentLines(configs, init, numToStr)[i];
        }
      }
    }
  }

  lemma CommentLineSingle(range: ChannelRange, config: ChannelConfig, numToStr: real -> string)
    requires SingleLine(numToStr)
    ensures NoNewline(CommentLine(range, config, numToStr))
  {
    IntToStringSingle(range.end - range.start + 1);
    IntToStringSingle(range.start);
    IntToStringSingle(range.end);
    assert NoNewline(numToStr(range.occupiedBw));
    assert NoNewline(numToStr(config.channelWidth));
    assert NoNewline(numToStr(config.channelSpacing));
  }

  lemma SummarySingle(name: string, startFreq: real, endFreq: real, configs: seq<ChannelConfig>,
                      total: nat, numToStr: real -> string)
    requires NoNewline(name) && SingleLine(numToStr)
    ensures var ls := SummaryLines(name, startFreq, endFreq, configs, total, numToStr);
      forall i :: 0 <= i < |ls| ==> NoNewline(ls[i])
  {
    IntToStringSingle(total);
    SummaryLinesAre(name, startFreq, endFreq, configs, total, numToStr);
    FreqDirectivesSingle(name, startFreq, endFreq, numToStr);
    ColumnDirectivesSingle(name, configs, numToStr);
  }

  lemma FreqDirectivesSingle(name: string, startFreq: real, endFreq: real, numToStr: real -> string)
    requires NoNewline(name) && SingleLine(numToStr)
    ensures NoNewline(Directive(name, "is-driot-band", "true"))
    ensures NoNewline(Directive(name, "driot-band-start-freq-mhz", numToStr(startFreq / 1000.0)))
    ensures NoNewline(Directive(name, "driot-band-end-freq-mhz", numToStr(endFreq / 1000.0)))
  {
    DirectiveSingle(name, "is-driot-band", "true");
    DirectiveSingle(name, "driot-band-start-freq-mhz", numToStr(startFreq / 1000.0));
    DirectiveSingle(name, "driot-band-end-freq-mhz", numToStr(endFreq / 1000.0));
  }

  lemma ColumnDirectivesSingle(name: string, configs: seq<ChannelConfig>, numToStr: real -> string)
    requires NoNewline(name) && SingleLine(numToStr)
    ensures NoNewline(Directive(name, "driot-channel-bandwidths-khz", Column(Widths(configs), numToStr)))
    ensures NoNewline(Directive(name, "driot-channel-spaces-khz", Column(Spacings(configs), numToStr)))
    ensures NoNewline(Directive(name, "driot-channel-interference-nominal-transmit-widths-khz", Column(Bandwidths(configs), numToStr)))
    ensures NoNewline(Directive(name, "driot-channel-interference-receive-widths-khz", Column(Bandwidths(configs), numToStr)))
  {
    ColumnSingle(Widths(configs), numToStr);
    ColumnSingle(Spacings(configs), numToStr);
    ColumnSingle(Bandwidths(configs), numToStr);
    DirectiveSingle(name, "driot-channel-bandwidths-khz", Column(Widths(configs), numToStr));
    DirectiveSingle(name, "driot-channel-spaces-khz", Column(Spacings(configs), numToStr));
    DirectiveSingle(name, "driot-channel-interference-nominal-transmit-widths-khz", Column(Bandwidths(configs), numToStr));
    DirectiveSingle(name, "driot-channel-interference-receive-widths-khz", Column(Bandwidths(configs), numToStr));
  }

  lemma BlockLinesSingle(name: string, blocks: seq<GridBlock>)
    requires NoNewline(name)
    ensures forall i :: 0 <= i < |BlockLines(name, blocks)| ==> NoNewline(BlockLines(name, blocks)[i])
  {
    ChannelListLinesSingle(name, blocks);
    IntToStringSingle(|blocks|);
    DirectiveSingle(name, "driot-block-count", IntToString(|blocks|));
  }

  lemma AllSingle(a: seq<string>, b: seq<string>, c: seq<string>, d: seq<string>)
    requires forall i :: 0 <= i < |a| ==> NoNewline(a[i])
    requires forall i :: 0 <= i < |b| ==> NoNewline(b[i])
    requires forall i :: 0 <= i < |c| ==> NoNewline(c[i])
    requires forall i :: 0 <= i < |d| ==> NoNewline(d[i])
    ensures forall i :: 0 <= i < |a + b + c + d| ==> NoNewline((a + b + c + d)[i])
  {
  }

  /** When numbers print on one line, every line of the document is free of line feeds. */
  lemma ConfigLinesSingle(name: string, startFreq: real, endFreq: real, configs: seq<ChannelConfig>,
                          ranges: seq<ChannelRange>, blocks: seq<GridBlock>, total: nat, numToStr: real -> string)
    requires NoWhitespace(name) && RangesResolve(configs, ranges) && SingleLine(numToStr)
    ensures var ls := ConfigLines(name, startFreq, endFreq, configs, ranges, blocks, total, numToStr);
      forall i :: 0 <= i < |ls| ==> NoNewline(ls[i])
  {
    NameSingle(name);
    var header := HeaderLines(name);
    assert NoNewline("#Component Channel");
    CommentLinesSingle(configs, ranges, numToStr);
    SummarySingle(name, startFreq, endFreq, configs, total, numToStr);
    BlockLinesSingle(name, blocks);
    AllSingle(header, CommentLines(configs, ranges, numToStr),
      SummaryLines(name, startFreq, endFreq, configs, total, numToStr), BlockLines(name, blocks));
  }

  /** Reading the generated document line by line gives back exactly the lines it was built from:
      the document is that sequence of lines and nothing else. */
  lemma DocumentLines(title: string, startFreq: real, endFreq: real, configs: seq<ChannelConfig>,
                      ranges: seq<ChannelRange>, blocks: seq<GridBlock>, total: nat, numToStr: real -> string)
    requires RangesResolve(configs, ranges) && SingleLine(numToStr)
    ensures Lines(ConfigText(title, startFreq, endFreq, configs, ranges, blocks, total, numToStr))
         == ConfigLines(InstanceName(title), startFreq, endFreq, configs, ranges, blocks, total, numToStr)
  {
    var name := InstanceName(title);
    ConfigLinesSingle(name, startFreq, endFreq, configs, ranges, blocks, total, numToStr);
    LinesUnlines(ConfigLines(name, startFreq, endFreq, configs, ranges, blocks, total, numToStr));
  }

  /** The channel-list section holds one line per non-empty block, in block order. */
  lemma {:induction false} ChannelListsFollowNonEmptyBlocks(name: string, blocks: seq<GridBlock>)
    ensures |ChannelListLines(name, blocks)| == |NonEmptyBlocks(blocks)|
    ensures forall i :: 0 <= i < |NonEmptyBlocks(blocks)| ==>
      ChannelListLines(name, blocks)[i] == BlockChannelsLine(name, NonEmptyBlocks(blocks)[i])
    decreases |blocks|
  {
    if blocks != [] {
      ChannelListsFollowNonEmptyBlocks(name, blocks[..|blocks| - 1]);
    }
  }

  /** Block numbers that increase along the blocks still increase along the non-empty ones. */
  predicate NumbersIncrease(blocks: seq<GridBlock>)
  {
    forall i, j :: 0 <= i < j < |blocks| ==> blocks[i].blockNumber < blocks[j].blockNumber
  }

  lemma {:induction false} NonEmptyBlocksKeepOrder(blocks: seq<GridBlock>)
    requires NumbersIncrease(blocks)
    ensures NumbersIncrease(NonEmptyBlocks(blocks))
    decreases |blocks|
  {
    if blocks != [] {
      var init := blocks[..|blocks| - 1];
      assert NumbersIncrease(init);
      NonEmptyBlocksKeepOrder(init);
      var ne := NonEmptyBlocks(init);
      var last := blocks[|blocks| - 1];
      forall i | 0 <= i < |ne| ensures ne[i].blockNumber < last.blockNumber {
        assert ne[i] in init;
      }
    }
  }

  /** The number of lines: header, one comment per range, total, seven directives and, when
      there are blocks, the count line and one channel list per non-empty block. */
  lemma LineCount(name: string, startFreq: real, endFreq: real, configs: seq<ChannelConfig>,
                  ranges: seq<ChannelRange>, blocks: seq<GridBlock>, total: nat, numToStr: real -> string)
    requires RangesResolve(configs, ranges)
    ensures |ConfigLines(name, startFreq, endFreq, configs, ranges, blocks, total, numToStr)|
         == 10 + |ranges| + (if blocks == [] then 0 else 1 + |NonEmptyBlocks(blocks)|)
  {
    var header := HeaderLines(name);
    var comments := CommentLines(configs, ranges, numToStr);
    var summary := SummaryLines(name, startFreq, endFreq, configs, total, numToStr);
    var blockLines := BlockLines(name, blocks);
    assert ConfigLines(name, startFreq, endFreq, configs, ranges, blocks, total, numToStr)
      == header + comments + summary + blockLines;
    BlockLinesCount(name, blocks);
    assert |header + comments + summary + blockLines| == 2 + |ranges| + 8 + |blockLines|;
  }

  lemma BlockLinesCount(name: string, blocks: seq<GridBlock>)
    ensures |BlockLines(name, blocks)| == if blocks == [] then 0 else 1 + |NonEmptyBlocks(blocks)|
  {
    ChannelListsFollowNonEmptyBlocks(name, blocks);
  }

  /** The block-count line is present exactly when there are blocks, right after the seven
      directives, and it counts the empty blocks too. */
  lemma BlockCountLine(name: string, startFreq: real, endFreq: real, configs: seq<ChannelConfig>,
                       ranges: seq<ChannelRange>, blocks: seq<GridBlock>, total: nat, numToStr: real -> string)
    requires RangesResolve(configs, ranges)
    ensures var ls := ConfigLines(name, startFreq, endFreq, configs, ranges, blocks, total, numToStr);
      (blocks == [] <==> |ls| == 10 + |ranges|)
      && (blocks != [] ==> ls[10 + |ranges|] == Directive(name, "driot-block-count", IntToString(|blocks|)))
  {
    LineCount(name, startFreq, endFreq, configs, ranges, blocks, total, numToStr);
  }

  /** When two configurations share an occupied bandwidth, the later one's range is described
      with the width and spacing of the first configuration that has that bandwidth. */
  lemma SharedBandwidthShowsFirst(configs: seq<ChannelConfig>, i: nat, j: nat)
    requires i < j < |configs| && configs[i].occupiedBw == configs[j].occupiedBw
    ensures FindConfig(configs, configs[j].occupiedBw) == FindConfig(configs, configs[i].occupiedBw)
    ensures exists k :: 0 <= k <= i && FindConfig(configs, configs[j].occupiedBw) == Some(configs[k])
  {
    var r := FindConfig(configs, configs[j].occupiedBw);
    var k :| 0 <= k < |configs| && configs[k] == r.value && FirstWithBandwidth(configs, configs[j].occupiedBw, k);
    assert k <= i;
  }

  /** A concrete case of the above: two 200 kHz configurations with different widths; the
      comments for both ranges report the first one's width. */
  lemma SharedBandwidthExample(numToStr: real -> string)
    ensures var configs := [ChannelConfig(200.0, 200.0, 200.0), ChannelConfig(200.0, 400.0, 400.0)];
      var first := ChannelRange(200.0, 0, 4);
      var second := ChannelRange(200.0, 5, 7);
      CommentLines(configs, [first, second], numToStr)
        == [CommentLine(first, configs[0], numToStr), CommentLine(second, configs[0], numToStr)]
      && configs[0].channelWidth != configs[1].channelWidth
  {
    var first := ChannelRange(200.0, 0, 4);
    var second := ChannelRange(200.0, 5, 7);
    assert [first, second][..1] == [first];
  }

  /** A title made only of whitespace is not empty, so it is not replaced by the default:
      the instance name comes out empty. */
  lemma WhitespaceTitleGivesEmptyName(title: string)
    requires title != [] && forall i :: 0 <= i < |title| ==> IsJsWhitespace(title[i])
    ensures InstanceName(title) == []
  {
    AllWhitespaceRemoved(title);
  }

  lemma {:induction false} AllWhitespaceRemoved(s: string)
    requires forall i :: 0 <= i < |s| ==> IsJsWhitespace(s[i])
    ensures RemoveWhitespace(s) == []
    decreases |s|
  {
    if s != [] {
      AllWhitespaceRemoved(s[1..]);
    }
  }
}
