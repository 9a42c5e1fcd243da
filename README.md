# DrIoT channel visualizer — a verified model of its core

The DrIoT channel visualizer is a single-page tool. It takes a frequency band (start and
end, each with a unit), a grid spacing and a list of channel-configuration rows. Each row
gives an occupied bandwidth, a channel width and a channel spacing. From these the tool:

- lays out numbered channels across the band;
- groups the channels into fixed-width grid blocks;
- prints the block contents as compact runs such as `0-3, 7`;
- emits a DrIoT configuration text;
- encodes the whole form into a URL-safe base64 fragment so that it can be shared, and
  decodes such a fragment back into the form.

This project models that logic, all of which lives in `js/main.js`, as Dafny:

- `Units`: `convertToKHz`, the unit conversion.
- `Visualization`: the body of `updateVisualization` up to the configuration text. This is
  the range check, the row checks, the calls to the layout and the block loop, and the
  emitter.
- `ChannelLayout`: the channel-generation loop, as a method proved against a fold over the
  configurations.
- `GridBlocks`: the grid-block loop, proved against a comprehension over the block indices.
- `RunFormat`: `formatChannelNumbers`. This covers the in-place sort on an array, the run
  collection loop and the join.
- `DriotConfig`: `generateDriotConfig`. It is proved against a list of lines, and the lines
  are proved to be recoverable from the text.
- `Base64`: `btoa` as section 4 of RFC 4648 with `=` padding, and `atob` as the
  "forgiving-base64 decode" algorithm of the WHATWG Infra standard. It also covers the URL-safe
  rewriting and the re-padding loop.
- `StateCodec`: `serializeSettings` and `deserializeSettings`. The byte layout is version
  3, then the title length, the title, zero padding to a multiple of four, three
  frequency words and then the channel words. The module holds:
  - the methods that fill and read the buffer;
  - the round trip;
  - the rejection of a truncated fragment;
  - the decoder as written beside the corrected one.
- `SettingsForm`: `applySettings` as a method of a `Form` class whose fields are the form
  inputs.
- `Decimal` and `Common`: shared helpers. These are integer printing (with its parser as a
  partner), `Join`, and the Option and Result types.

Frequencies are exact reals in kilohertz. `parseFloat` is an `Option<real>` input, where
`None` stands for NaN. A float32 word is an opaque four-byte sequence, and the title
travels as its UTF-8 bytes. The browser, the DOM and the drawing are not modelled; their
values arrive as parameters.

Where the tool's written description and its code differ, the model follows the code:

- The description lists an invalid-number error, and it counts an empty configuration
  list as an invalid configuration. The code has no separate number check: an unusable
  range is reported only when both range inputs are non-empty, and is silent otherwise.
  An empty row list gets its own message. `Visualization.InputError` has these four
  cases: `EmptyRange`, `InvalidRange`, `InvalidConfig` and `NoConfig`.
- The description gives the title length as 0–255. The code writes the length modulo 256
  and still writes every title byte, so a title of 256 bytes or more does not survive
  the round trip (`StateCodec.TitleLengthWraps`).
- The description says a fragment that fails to decode falls back to the default
  session. `deserializeSettings` returns null, and `applySettings` is then not called.
  What the page does next is outside this model.

## Model

| member | source | states |
|---|---|---|
| Units.KHzFactor | js/main.js:83-87 | The factor applied to a parsed value is always positive. |
| Units.ConvertToKHz | js/main.js:80-88 | NaN in gives NaN out and a number gives a number. The result is positive or zero exactly when the input is. A unit other than MHz or GHz leaves the value unchanged, and MHz multiplies it by 1000. |
| Units.ConversionConsistent | js/main.js:80-88 | NaN stays NaN. GHz is 1000 times MHz and MHz is 1000 times kHz. Any other unit leaves the value as it is. Conversion keeps the sign and the order of values. |
| Visualization.Validate | js/main.js:181-203 | Each outcome holds exactly when its condition holds. `EmptyRange`: the range is unusable (a NaN end, or start ≥ end) and one range input is empty. `InvalidRange`: the range is unusable and both inputs are filled. `InvalidConfig`: some row has a NaN or non-positive value. `NoConfig`: there are no rows. Success: none of these. On success start < end, and every configuration is positive. |
| Visualization.RowConfigs | js/main.js:189-200 | One configuration is pushed per row. |
| Visualization.ReadConfigs | js/main.js:189-200 | The row loop clears `isValid` exactly when some row fails the check, and pushes every row's configuration in order. |
| Visualization.UpdateVisualization | js/main.js:175-239 | The checks, the layout loop, the block loop (run only for a positive grid spacing) and the emitter give exactly the rendering the validated inputs determine. |
| Visualization.RangesResolved | js/main.js:149 | Every range the layout produces finds its configuration, so the emitter's `find` never comes back empty. |
| Visualization.RenderingSound | js/main.js:207-236 | After a successful update, the channel numbers are 0, 1, 2, … and the counter is their total. Every channel lies inside the band. The ranges tile the numbers. There are no blocks exactly when the grid spacing is NaN or not positive. Each block lists its channels in ascending order. With a positive spacing, every channel is in exactly one block, the one its lower edge falls in. |
| Visualization.RenderedBlocksPlaceEachChannel | js/main.js:207-236 | After a successful update with a positive grid spacing, every channel is in exactly one block, the one its lower edge falls in. |
| ChannelLayout.GenerateChannels | js/main.js:207-223 | The layout loop yields exactly the channels and ranges of the fold over the configurations. The counter equals the number of channels. |
| ChannelLayout.EmitConfigChannels | js/main.js:210-222 | The inner while loop emits exactly the channels of one configuration, numbered on from the counter. It pushes a range exactly when it emitted at least one channel. |
| ChannelLayout.FitsIff | js/main.js:213-214 | Candidate k fits in the band exactly when k is below the closed-form count max(0, ⌊(end − start − width)/spacing⌋ + 1). |
| ChannelLayout.CenterStep | js/main.js:213-218 | The centre of candidate k + 1 is the centre of candidate k plus the spacing, which is the loop's `currentCenterFreq += spacing`. |
| ChannelLayout.ConfigChannelInBand | js/main.js:213-214 | Every channel of a configuration has its lower edge at or above the start and its upper edge at or below the end. |
| ChannelLayout.LayoutPrefix | js/main.js:210-223 | The layout of a prefix of the configurations is a prefix of the whole layout. |
| ChannelLayout.ChannelNumbersAreIndices | js/main.js:209-217 | Channel i carries the number i. |
| ChannelLayout.ChannelCounterIsTotal | js/main.js:209-217 | The counter is the sum of the per-configuration counts. |
| ChannelLayout.ChannelsInBand | js/main.js:213-214 | Every channel of the layout lies within the band. |
| ChannelLayout.ConfigSegment | js/main.js:210-219 | Configuration j contributes a contiguous block of channels. The block starts after the channels of configurations 0..j−1 and holds exactly that configuration's channels. |
| ChannelLayout.ConfigChannelsSpaced | js/main.js:213-218 | A configuration's first channel is centred at start + width/2. Each further channel is one spacing higher and one number higher. |
| ChannelLayout.RangesFollowConfigs | js/main.js:220-222 | There is one range per configuration that produced channels, in configuration order, and its end − start + 1 is that configuration's count. |
| ChannelLayout.Producing | js/main.js:220 | The configurations that push a range are exactly those whose channel count is positive. |
| ChannelLayout.RangesTile | js/main.js:220-222 | Consecutive ranges abut, and together they cover 0..total−1. |
| ChannelLayout.RangesHaveConfig | js/main.js:221 | Each range's occupied bandwidth is the bandwidth of some configuration. |
| GridBlocks.AssignBlocks | js/main.js:226-236 | The block loop gives exactly the blocks of the comprehension. A spacing of zero or less gives no blocks. |
| GridBlocks.BlockFitsIff | js/main.js:228 | Block i is produced exactly when start + i·spacing < end, that is, when i is below the block count. |
| GridBlocks.BlockOfFrequency | js/main.js:229-232 | A frequency lies in block i exactly when i = ⌊(f − start)/spacing⌋. |
| GridBlocks.InBlockIff | js/main.js:231-233 | A channel number is listed in a block exactly when the channel's lower edge lies in [blockStart, blockEnd). |
| GridBlocks.InBlockBound | js/main.js:231-233 | A block lists only numbers of the channels it filtered, so a lower bound on those numbers bounds the list. |
| GridBlocks.BlockAscending | js/main.js:231-233 | When channel numbers increase along the channel list, each block's list is strictly increasing. |
| GridBlocks.ChannelInExactlyOneBlock | js/main.js:226-236 | A channel whose lower edge lies in the band is listed in exactly one block, the block ⌊(lower − start)/spacing⌋. |
| GridBlocks.LayoutBlocks | js/main.js:207-236 | For a generated layout, every channel sits in exactly one block, and every block's list ascends. |
| RunFormat.SortAscending | js/main.js:108 | The array ends sorted and is a permutation of what it held. |
| RunFormat.FormatChannelNumbers | js/main.js:106-119 | A null array gives `なし`. Otherwise the array is sorted in place as a permutation, and the text is the formatted runs of the sorted numbers (`なし` when the array is empty). |
| RunFormat.CollectRuns | js/main.js:109-117 | The scanning loop pushes exactly the texts of the maximal runs, in order. |
| RunFormat.Runs | js/main.js:111-116 | Every run has first ≤ last, and the last run ends at the last number. |
| RunFormat.Interval | js/main.js:114 | A run from a to b spans b − a + 1 numbers. |
| RunFormat.RunTexts | js/main.js:114 | One text per run. |
| RunFormat.ExpandRuns | js/main.js:111-116 | Expanding the runs gives back exactly the input sequence. |
| RunFormat.RunsIdempotent | js/main.js:111-116 | Splitting the expansion of the runs into runs again gives the same runs. |
| RunFormat.RunsMaximal | js/main.js:112 | For strictly increasing numbers, consecutive runs are separated by a gap. No two runs could be merged. |
| RunFormat.InExpand | js/main.js:114 | A number is in the expansion exactly when some run spans it. |
| RunFormat.RunsCover | js/main.js:111-117 | A number occurs in the input exactly when some run spans it. |
| Common.Join | js/main.js:118 | Joining no parts gives the empty text, and joining a single part gives that part. Together with `JoinSnoc` this describes `join` for every number of parts. |
| Common.JoinSnoc | js/main.js:118 | Joining one more part appends the separator and the part. |
| Common.JoinChars | js/main.js:158-161 | Every character of a joined text comes from the separator or from a part. |
| Decimal.NatToString | js/main.js:114 | The text is non-empty decimal digits with no leading zero. |
| Decimal.IntToString | js/main.js:153 | The text is decimal digits with a leading `-` exactly for negative numbers. |
| Decimal.IntToStringRoundTrip | js/main.js:153 | Parsing the printed integer gives it back. |
| Decimal.IntToStringInjective | js/main.js:114 | Two integers print alike exactly when they are equal. |
| DriotConfig.RemoveWhitespace | js/main.js:145 | The result has no whitespace, and a character appears in it exactly when it is a non-whitespace character of the input. A title without whitespace is unchanged. Order and repeats are fixed by `DriotConfig.RemoveWhitespaceAppend`. |
| DriotConfig.RemoveWhitespaceAppend | js/main.js:145 | Removing whitespace from a concatenation removes it from each part and joins the results. With `DriotConfig.RemoveWhitespaceChar` this fixes the result, so the other characters keep their order and their number. |
| DriotConfig.RemoveWhitespaceChar | js/main.js:145 | A single character is kept exactly when it is not whitespace. |
| DriotConfig.InstanceName | js/main.js:144-145 | An empty title gives `DrIotLowerBand`. A title without whitespace is kept as it is. Any other title gives a name with exactly its non-whitespace characters; `DriotConfig.RemoveWhitespaceAppend` shows that their order and number are kept. The name never holds whitespace. |
| DriotConfig.WhitespaceTitleGivesEmptyName | js/main.js:144-145 | A title of only whitespace is not replaced by the default and yields an empty instance name. |
| DriotConfig.FindConfig | js/main.js:149 | The result is empty exactly when no configuration has that bandwidth. Otherwise it is the first configuration that does. |
| DriotConfig.SharedBandwidthShowsFirst | js/main.js:149-151 | When two configurations share a bandwidth, the comment for the later one shows the widths of an earlier one. |
| DriotConfig.SharedBandwidthExample | js/main.js:148-152 | Two configurations share a 200 kHz bandwidth but have widths 200 and 400. The comments for both of their ranges print the first one's width. |
| DriotConfig.CommentLines | js/main.js:148-152 | One comment line per channel range. |
| DriotConfig.Widths | js/main.js:158 | The channel widths column lists each configuration's width in order. |
| DriotConfig.Spacings | js/main.js:159 | The spacings column lists each configuration's spacing in order. |
| DriotConfig.Bandwidths | js/main.js:160-161 | The two width columns list each configuration's occupied bandwidth in order. |
| DriotConfig.BandDirectives | js/main.js:155-161 | Seven band directives. |
| DriotConfig.HeaderLines | js/main.js:147 | Two header lines. |
| DriotConfig.SummaryLines | js/main.js:153-161 | The total line plus the seven band directives. |
| DriotConfig.NonEmptyBlocks | js/main.js:165-169 | Exactly the blocks with at least one channel are kept. |
| DriotConfig.GenerateDriotConfig | js/main.js:143-173 | The text built by the successive appends is exactly the document's lines, each ended by a newline. |
| DriotConfig.EmitRangeComments | js/main.js:148-152 | The range loop appends exactly the comment lines. |
| DriotConfig.EmitBandDirectives | js/main.js:153-161 | The appends give exactly the total line and the band directives. |
| DriotConfig.EmitBlockSection | js/main.js:163-170 | There is nothing without blocks. Otherwise there is the block-count line followed by the channel lists. |
| DriotConfig.EmitChannelLists | js/main.js:165-169 | The block loop appends one channel-list line per non-empty block. |
| DriotConfig.LinesUnlines | js/main.js:147-170 | Splitting the newline-terminated text gives back the lines. |
| DriotConfig.DocumentLines | js/main.js:143-170 | With a single-line number printer, the emitted text splits back into exactly the document's lines. |
| DriotConfig.ChannelListsFollowNonEmptyBlocks | js/main.js:165-169 | There is one channel-list line per non-empty block, in block order. |
| DriotConfig.NonEmptyBlocksKeepOrder | js/main.js:165-169 | Skipping empty blocks keeps the block numbers increasing. |
| DriotConfig.LineCount | js/main.js:147-170 | The document has 10 + one per range lines, plus 1 + one per non-empty block when there are blocks. |
| DriotConfig.BlockCountLine | js/main.js:163-164 | The block-count line appears exactly when there are blocks, and states their number. |
| Base64.CharSextet | js/main.js:426 | A decoded character value is below 64 and encodes back to the same character. |
| Base64.SextetCharInverse | js/main.js:426 | Decoding an alphabet character gives back its value. No alphabet character is `=`, `-` or `_`. |
| Base64.EncodeSextets | js/main.js:415 | The encoding uses 4 characters per 3 bytes, plus 2 or 3 characters for a 1- or 2-byte tail. |
| Base64.Btoa | js/main.js:415 | The padded text has length 4·⌈n/3⌉. |
| Base64.DecodeSextets | js/main.js:426 | 4 characters decode to 3 bytes, and a tail of 2 or 3 characters to 1 or 2 bytes. |
| Base64.Sextets | js/main.js:426 | The text is rejected exactly when some character is outside the alphabet. |
| Base64.StripPadding | js/main.js:426 | Only trailing `=` are removed, at most two, and only when the length is a multiple of four. |
| Base64.DecodeEncode | js/main.js:415-426 | Decoding the encoded bytes gives them back. |
| Base64.AtobBtoa | js/main.js:415-426 | `atob(btoa(b)) == b`. |
| Base64.UrlSafe | js/main.js:416 | The URL-safe text holds no `+`, `/` or `=`. |
| Base64.FromUrlSafe | js/main.js:421 | The restored text keeps its length and holds no `-` or `_`. |
| Base64.PadBase64 | js/main.js:422-424 | The re-padding loop keeps the text and appends only `=`, up to the next multiple of four and no further. |
| Base64.UrlSafeBtoa | js/main.js:415-416 | The URL-safe fragment is the unpadded base64 body with `+` and `/` replaced. |
| Base64.RestoreUrlSafe | js/main.js:416-424 | Restoring and re-padding a URL-safe fragment gives back the padded base64 text. |
| Base64.UrlSafeRoundTrip | js/main.js:415-426 | Decoding a restored fragment gives back the bytes. |
| Base64.DecodeDropLast | js/main.js:426 | Dropping the last character of an encoding that does not end in a single-byte group decodes to the bytes without the last one. |
| Base64.DropLastChar | js/main.js:416-426 | A fragment cut by one character either is rejected or decodes to the bytes without the last one. |
| Base64.Atob | js/main.js:426 | After whitespace and up to two padding `=` are removed, the text is rejected exactly when its length leaves remainder 1 modulo 4 or a character is outside the alphabet. Otherwise it yields three bytes for every four characters, rounded down. `Base64.AtobBtoa` and `Base64.AtobPadded` prove that it inverts `btoa` and decodes any padded valid sequence to its bytes. |
| Base64.AtobPadded | js/main.js:422-426 | Padding any valid character sequence and decoding it gives its bytes. |
| StateCodec.TripleWords | js/main.js:386-391 | Three words per configuration row. |
| StateCodec.CollectChannelValues | js/main.js:385-392 | The row loop pushes each row's three words in row order. |
| StateCodec.Padding | js/main.js:397 | The padding is below 4 and aligns the offset to a multiple of four. There is none when the offset is already aligned. |
| StateCodec.FreqOffset | js/main.js:396-397 | The frequency words start at the first multiple of four at or after 2 + title length. |
| StateCodec.Flatten | js/main.js:411 | Four bytes per word. |
| StateCodec.Words | js/main.js:450 | A buffer whose length is a multiple of four splits into one word per four bytes. |
| StateCodec.WordsFlatten | js/main.js:450 | Splitting flattened words gives them back. |
| StateCodec.FlattenWords | js/main.js:413 | Flattening split words gives back the bytes. |
| StateCodec.HeaderLayout | js/main.js:394-409 | The header holds version 3, the length modulo 256 and the title bytes, then zero bytes up to the frequency offset. |
| StateCodec.SerializeLayout | js/main.js:394-413 | The buffer length is a multiple of four. It is the header, then the frequency words, then the channel words. |
| StateCodec.FillBuffer | js/main.js:399-413 | The buffer is allocated and filled exactly with the serialized bytes. |
| StateCodec.SetBytes | js/main.js:403-413 | `buffer.set` overwrites exactly the target slice. |
| StateCodec.SerializeSettings | js/main.js:375-417 | The fragment is the URL-safe base64 of the serialized bytes and holds no `+`, `/` or `=`. |
| StateCodec.DecodeBytes | js/main.js:432-459 | Each outcome holds exactly when its condition holds. `UnsupportedVersion`: the buffer is empty or its first byte is not 3. `CorruptPayload`: the version is 3 but the buffer is shorter than the title, padding and three frequency words, or the channel part is not a whole number of words. On success there are three frequency words, the title has the stored length, and the channel words fill the rest. |
| StateCodec.RestoreBase64 | js/main.js:421-424 | The rewriting and the `while` loop give exactly the restored, padded text. |
| StateCodec.CopyBytes | js/main.js:427-430 | The copy loop fills a fresh buffer with exactly the decoded bytes. |
| StateCodec.ReadSettings | js/main.js:432-459 | Reading the buffer gives exactly the corrected decoder's result. |
| StateCodec.DeserializeSettings | js/main.js:419-465 | The result is that of the corrected decoder `DecodeUrl` from the Findings table. It differs from the code as written (`DecodeUrlAsWritten`) only on a one-byte buffer: `AsWrittenAgrees` shows the two agree on every other buffer. |
| StateCodec.TextDecode | js/main.js:442 | A leading byte-order mark is dropped from the title bytes, and any other title is kept as it is. |
| StateCodec.TextDecodeEmpty | js/main.js:442 | The decoded title is empty exactly for no bytes and for a lone byte-order mark. This is the case `if (settings.title)` treats as no title. |
| StateCodec.DecodeSerialize | js/main.js:394-459 | For a title of at most 255 bytes and three frequency words, decoding the serialized bytes gives back title, frequencies and channel words. |
| StateCodec.UrlRoundTrip | js/main.js:375-465 | The same round trip holds through the URL-safe fragment. |
| StateCodec.TitleLengthWraps | js/main.js:395 | For a title of 256 bytes or more the round trip fails, because the stored length wraps modulo 256. |
| StateCodec.DecodedLengthAligned | js/main.js:447-456 | Every buffer that decodes has a length that is a multiple of four. |
| StateCodec.TruncatedUrlRejected | js/main.js:416-456 | A shared fragment cut by its last character is rejected with `CorruptPayload`. |
| StateCodec.SerializeDecoded | js/main.js:394-459 | A buffer that decodes and has zero padding is exactly the serialization of what it decodes to. |
| StateCodec.SliceBound | js/main.js:449 | A slice bound is clamped to the buffer length. |
| StateCodec.OneByteBufferAccepted | js/main.js:433-459 | As written, the one-byte buffer `[3]` decodes to empty settings. The corrected decoder rejects it as corrupt. |
| StateCodec.AwIsOneByte | js/main.js:421-426 | The fragment `Aw` decodes to the single byte 3. |
| StateCodec.AwAccepted | js/main.js:419-465 | As written, the fragment `Aw` yields empty settings. The corrected decoder rejects it. |
| StateCodec.AsWrittenAgrees | js/main.js:432-459 | On every buffer except a one-byte one, the decoder as written and the corrected one agree. |
| SettingsForm.At | js/main.js:471-483 | Indexing past the end of the words gives undefined, which leaves the input empty. |
| SettingsForm.Rows | js/main.js:479-485 | One row per started triple: ⌈n/3⌉ rows. |
| SettingsForm.Form.ApplySettings | js/main.js:467-486 | The title input takes the decoded title text. When that text is empty, the input is left unchanged. The frequency inputs take words 0, 1 and 2 in kHz. The rows are replaced by one row per started triple of channel words. |
| SettingsForm.RowCount | js/main.js:479 | The `i += 3` loop runs ⌈n/3⌉ times. |
| SettingsForm.CompleteRows | js/main.js:479-485 | When the words form whole triples, every row is complete and holds words 3k, 3k+1 and 3k+2. |
| SettingsForm.IncompleteLastRow | js/main.js:479-485 | Otherwise only the last row is incomplete. It lacks its spacing, and also its width when one word is left over. |
| SettingsForm.TripleWordsAt | js/main.js:386-391 | Row k's words sit at indices 3k, 3k+1 and 3k+2. |
| SettingsForm.RowsOfTriples | js/main.js:479-485 | Applying the channel words of some rows re-creates exactly those rows. |
| SettingsForm.SharedFormRestored | js/main.js:375-486 | Sharing a form with a title of at most 255 bytes and reopening it decodes back to the shared title bytes, the three frequency words and every row. The title text handed to the form equals the title unless the title starts with a byte-order mark, which is dropped. That text is empty, so the old title is kept, exactly when the title is empty or a lone byte-order mark. |

## Left out

- The DOM and jQuery reads and writes are replaced by parameters and by the fields of
  `SettingsForm.Form`.
- The d3 chart drawing, the channel and block summary tables, PNG export, the clipboard,
  `history.replaceState`, the debounced event handlers and `showError`'s message texts are
  not modelled. `showError`'s messages are stood for by the error kinds.
- The `updateUrl` call inside `updateVisualization` is not modelled as part of the update.
  The serializer it calls is modelled on its own (`StateCodec.SerializeSettings`).
- The page start-up, and `loadSettings` reading the fragment from `window.location`, are
  not part of this model. The decoder and `applySettings` are.
- Floating point is left out. Frequencies are exact reals, so the layout loop's repeated
  `currentCenterFreq += spacing` equals start + width/2 + k·spacing with no rounding
  drift. Infinity is not modelled.
- The float32 encoding is left out. Words are opaque four-byte values, so the model does not
  capture rounding to float32 or the machine's byte order of `Float32Array`.
- `TextEncoder` and most of `TextDecoder` are left out. The title is its UTF-8 bytes.
  Decoding (`StateCodec.TextDecode`) models only the dropping of a leading byte-order mark.
  The replacement of malformed sequences is not modelled. The round-trip lemmas
  (`DecodeSerialize`, `UrlRoundTrip`) are about the title bytes. The title text survives
  the round trip only when it does not start with a byte-order mark
  (`SettingsForm.SharedFormRestored`).
- JavaScript's number-to-string conversion is a parameter `numToStr`, and `toLocaleString`
  is not modelled. Integers use `Decimal.IntToString`.
- `String.fromCharCode` and `charCodeAt` are the identity on bytes.
- RunFormat.SortAscending: the engine's sort algorithm is replaced by insertion sort. Only
  the result (sorted, a permutation) is stated.
- Visualization.RowConfigs: a NaN value in a row that fails the check is stored as 0. Such
  configurations are never used, because the update stops with `InvalidConfig`.
- StateCodec.ReadSettings: the check `remainingBytes < 0` cannot fail after the
  length check before it, so it has no branch in the model.
- StateCodec.SerializeSettings: requires exactly three frequency words, which the source
  always builds.
- The `try`/`catch` in `deserializeSettings` maps to `Failure(CorruptPayload)` for every
  thrown error. A text with characters outside the base64 alphabet makes `atob` throw,
  which gives this failure too.

## Findings

| source | as written | input that shows it | evidently intended | confidence | as-written member | corrected member |
|---|---|---|---|---|---|---|
| js/main.js:433-459 | With a one-byte buffer, `buffer[1]` is undefined, so every later offset is NaN. Both length checks compare NaN and pass, and every slice is empty. The decoder then returns settings with an empty title, no frequency words and no channel words, which `applySettings` writes into the form. | URL fragment `Aw` (the buffer `[3]`) | reject the buffer as corrupt, like every other buffer too short to hold its frequency words | not executed | StateCodec.AwAccepted | StateCodec.ReadSettings |
