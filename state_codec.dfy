/** The binary settings codec behind the shareable URL (`serializeSettings`,
    `deserializeSettings`). The byte layout is: the version byte 3, one title-length byte, the
    title bytes, zero bytes up to a four-byte boundary, three frequency words, then the channel
    words; the bytes are base64-encoded and made URL-safe. Float32 words are carried as opaque
    four-byte groups and the title as its UTF-8 bytes. */
module StateCodec {
  import opened Common
  import opened Base64

  /** The only layout version the codec writes and accepts. */
  const Version: byte := 3

  /** The number of frequency words: start, end and grid spacing. */
  const FreqWordCount := 3

  /** The four bytes of one `Float32Array` element. */
  type Word = w: seq<byte> | |w| == 4 witness [0, 0, 0, 0]

  /** What `deserializeSettings` returns: the title bytes and the two float arrays. The title
      text it hands on is `TextDecode` of these bytes. */
  datatype Settings = Settings(title: seq<byte>, freqValues: seq<Word>, channelValues: seq<Word>)

  /** The UTF-8 byte-order mark. */
  const Bom: seq<byte> := [0xEF, 0xBB, 0xBF]

  predicate StartsWithBom(bytes: seq<byte>)
  {
    |bytes| >= 3 && bytes[..3] == Bom
  }

  /** `new TextDecoder().decode(bytes)`, with text kept as its UTF-8 bytes: `ignoreBOM` is
      false by default, so a leading byte-order mark is dropped and the rest is kept. */
  function TextDecode(bytes: seq<byte>): (text: seq<byte>)
    ensures StartsWithBom(bytes) ==> bytes == Bom + text
    ensures !StartsWithBom(bytes) ==> text == bytes
  {
    if StartsWithBom(bytes) then bytes[3..] else bytes
  }

  /** The decoded title is empty exactly for no bytes and for a lone byte-order mark. */
  lemma TextDecodeEmpty(bytes: seq<byte>)
    ensures TextDecode(bytes) == [] <==> bytes == [] || bytes == Bom
  {
    if bytes == Bom {
      assert StartsWithBom(bytes);
    }
  }

  /** The three converted values of one channel-configuration row, as `serializeSettings` pushes
      them: occupied bandwidth, channel width, channel spacing. */
  datatype ConfigTriple = ConfigTriple(occupiedBw: Word, channelWidth: Word, channelSpacing: Word)

  /** The channel words of the rows, three per row in row order. */
  function TripleWords(rows: seq<ConfigTriple>): (ws: seq<Word>)
    ensures |ws| == 3 * |rows|
    decreases |rows|
  {
    if rows == [] then []
    else
      var last := rows[|rows| - 1];
      TripleWords(rows[..|rows| - 1]) + [last.occupiedBw, last.channelWidth, last.channelSpacing]
  }

  /** Why decoding failed: the version check (`version !== 3`) or the caught exception. */
  datatype CodecError = UnsupportedVersion | CorruptPayload

  // ---------------------------------------------------------------------------------------
  // Layout

  /** Zero bytes that take `offset` to the next multiple of four. */
  function Padding(offset: nat): (p: nat)
    ensures p < 4 && (offset + p) % 4 == 0
    ensures offset % 4 == 0 ==> p == 0
  {
    (4 - offset % 4) % 4
  }

  function Zeros(n: nat): (z: seq<byte>)
    ensures |z| == n && forall i :: 0 <= i < n ==> z[i] == 0
  {
    seq(n, _ => 0)
  }

  /** Where the frequency words start for a title of `titleLength` bytes. */
  function FreqOffset(titleLength: nat): (offset: nat)
    ensures offset % 4 == 0 && 2 + titleLength <= offset < 2 + titleLength + 4
  {
    2 + titleLength + Padding(2 + titleLength)
  }

  /** The bytes of consecutive words, as a `Float32Array`'s buffer holds them. */
  function Flatten(ws: seq<Word>): (b: seq<byte>)
    ensures |b| == 4 * |ws|
    decreases |ws|
  {
    if ws == [] then [] else ws[0] + Flatten(ws[1..])
  }

  /** The words a `Float32Array` sees over a buffer whose length is a multiple of four. */
  function Words(b: seq<byte>): (ws: seq<Word>)
    requires |b| % 4 == 0
    ensures 4 * |ws| == |b|
    decreases |b|
  {
    if |b| == 0 then [] else [b[..4]] + Words(b[4..])
  }

  /** The buffer `serializeSettings` fills. The length byte is the title length modulo 256,
      as a `Uint8Array` stores it, while every title byte is written. */
  function SerializeBytes(title: seq<byte>, freqValues: seq<Word>, channelValues: seq<Word>): seq<byte>
  {
    Header(title) + Flatten(freqValues) + Flatten(channelValues)
  }

  /** The part of the buffer before the frequency words. */
  function Header(title: seq<byte>): seq<byte>
  {
    [Version, |title| % 256] + title + Zeros(Padding(2 + |title|))
  }

  /** The URL fragment `serializeSettings` returns. */
  function SerializeUrl(title: seq<byte>, freqValues: seq<Word>, channelValues: seq<Word>): string
  {
    UrlSafe(Btoa(SerializeBytes(title, freqValues, channelValues)))
  }

  // ---------------------------------------------------------------------------------------
  // Decoding

  function Min(a: int, b: int): int
  {
    if a <= b then a else b
  }

  /** The decoder, with buffers too short to hold the title-length byte rejected (see
      `DecodeBytesAsWritten` for the decoder as written). Failures are reported exactly in
      the cases below, and a success always carries three frequency words. */
  function DecodeBytes(b: seq<byte>): (r: Result<Settings, CodecError>)
    ensures r == Failure(UnsupportedVersion) <==> |b| == 0 || b[0] != Version
    ensures r == Failure(CorruptPayload) <==>
      |b| > 0 && b[0] == Version
      && (|b| < 2 || FreqOffset(b[1]) + 12 > |b| || (|b| - FreqOffset(b[1]) - 12) % 4 != 0)
    ensures r.Success? ==>
      |r.value.freqValues| == FreqWordCount && |r.value.title| == b[1]
      && 4 * |r.value.channelValues| == |b| - FreqOffset(b[1]) - 12
  {
    if |b| == 0 || b[0] != Version then Failure(UnsupportedVersion)
    else if |b| < 2 then Failure(CorruptPayload)
    else
      var titleLength: nat := b[1];
      var title := b[2..Min(2 + titleLength, |b|)];
      var offset := FreqOffset(titleLength);
      if offset + 12 > |b| then Failure(CorruptPayload)
      else if (|b| - offset - 12) % 4 != 0 then Failure(CorruptPayload)
      else Success(Settings(title, Words(b[offset..offset + 12]), Words(b[offset + 12..])))
  }

  /** The text of a URL fragment restored to standard base64: `-` and `_` mapped back, then
      `=` appended to a multiple of four. */
  function RestoredBase64(text: string): string
  {
    PadBase64(FromUrlSafe(text))
  }

  /** What `deserializeSettings` makes of a URL fragment; `atob` throwing is a corrupt payload. */
  function DecodeUrl(text: string): Result<Settings, CodecError>
  {
    match Atob(RestoredBase64(text))
    case None => Failure(CorruptPayload)
    case Some(b) => DecodeBytes(b)
  }

  // ---------------------------------------------------------------------------------------
  // The decoder as written, with JavaScript's `undefined` and NaN offsets

  /** A JavaScript number that is an integer or NaN (`None`). */
  function Plus(a: Option<int>, b: Option<int>): Option<int>
  {
    if a.Some? && b.Some? then Some(a.value + b.value) else None
  }

  function Minus(a: Option<int>, b: Option<int>): Option<int>
  {
    if a.Some? && b.Some? then Some(a.value - b.value) else None
  }

  /** `(4 - (offset % 4)) % 4`; NaN stays NaN. */
  function PaddingOf(offset: Option<int>): Option<int>
  {
    if offset.Some? then Some((4 - offset.value % 4) % 4) else None
  }

  /** A comparison `x > y` or `x < y`: false whenever NaN is involved. */
  function Greater(x: Option<int>, y: int): bool
  {
    x.Some? && x.value > y
  }

  function Less(x: Option<int>, y: int): bool
  {
    x.Some? && x.value < y
  }

  /** A `slice` bound: NaN counts as 0, a negative bound counts from the end, and the bound is
      clamped to the length. */
  function SliceBound(x: Option<int>, len: nat): (k: nat)
    ensures k <= len
  {
    if x.None? then 0
    else if x.value < 0 then (if len + x.value < 0 then 0 else len + x.value)
    else if x.value > len then len
    else x.value
  }

  /** `buffer.slice(start, end)`. */
  function JsSlice(b: seq<byte>, start: Option<int>, end: Option<int>): seq<byte>
  {
    var i := SliceBound(start, |b|);
    var j := SliceBound(end, |b|);
    if i <= j then b[i..j] else []
  }

  /** The decoder exactly as written. Reading past the end of the buffer gives `undefined`, so
      on a one-byte buffer the title length is `undefined`, every offset after it is NaN, each
      comparison with NaN is false, and every slice is empty: nothing throws. */
  function DecodeBytesAsWritten(b: seq<byte>): Result<Settings, CodecError>
  {
    if |b| == 0 || b[0] != Version then Failure(UnsupportedVersion)
    else
      var titleLength: Option<int> := if |b| > 1 then Some(b[1] as int) else None;
      var title := JsSlice(b, Some(2), Plus(Some(2), titleLength));
      var afterTitle := Plus(Some(2), titleLength);
      var offset := Plus(afterTitle, PaddingOf(afterTitle));
      if Greater(Plus(offset, Some(12)), |b|) then Failure(CorruptPayload)
      else
        var freqBytes := JsSlice(b, offset, Plus(offset, Some(12)));
        var afterFreq := Plus(offset, Some(12));
        var remaining := Minus(Some(|b|), afterFreq);
        if Less(remaining, 0) then Failure(CorruptPayload)
        else
          var channelBytes := JsSlice(b, afterFreq, Plus(afterFreq, remaining));
          // A `Float32Array` over a buffer whose length is not a multiple of 4 throws.
          if |freqBytes| % 4 != 0 || |channelBytes| % 4 != 0 then Failure(CorruptPayload)
          else Success(Settings(title, Words(freqBytes), Words(channelBytes)))
  }

  function DecodeUrlAsWritten(text: string): Result<Settings, CodecError>
  {
    match Atob(RestoredBase64(text))
    case None => Failure(CorruptPayload)
    case Some(b) => DecodeBytesAsWritten(b)
  }

  // ---------------------------------------------------------------------------------------
  // Properties

  /** Reading words back from their bytes gives the words. */
  lemma {:induction false} WordsFlatten(ws: seq<Word>)
    ensures Words(Flatten(ws)) == ws
    decreases |ws|
  {
    if ws != [] {
      var b := Flatten(ws);
      assert b[..4] == ws[0];
      assert b[4..] == Flatten(ws[1..]);
      WordsFlatten(ws[1..]);
      assert [ws[0]] + ws[1..] == ws;
    }
  }

  /** Writing out the words read from a buffer gives the buffer. */
  lemma {:induction false} FlattenWords(b: seq<byte>)
    requires |b| % 4 == 0
    ensures Flatten(Words(b)) == b
    decreases |b|
  {
    if |b| > 0 {
      var ws := Words(b);
      assert ws[1..] == Words(b[4..]);
      FlattenWords(b[4..]);
      assert b[..4] + b[4..] == b;
    }
  }

  /** The header: version, the length byte, the title, then zero bytes up to the frequency
      word offset, a multiple of four. */
  lemma HeaderLayout(title: seq<byte>)
    ensures var h := Header(title);
      && |h| == FreqOffset(|title|)
      && h[0] == Version && h[1] == |title| % 256
      && h[2..2 + |title|] == title
      && (forall i :: 2 + |title| <= i < |h| ==> h[i] == 0)
  {
    var h := Header(title);
    var pad := Zeros(Padding(2 + |title|));
    forall i | 2 + |title| <= i < |h|
      ensures h[i] == 0
    {
      assert h[i] == pad[i - 2 - |title|];
    }
  }

  /** Where every part of the serialized buffer sits: the header, the frequency words, then
      the channel words; the whole is a whole number of words. */
  lemma SerializeLayout(title: seq<byte>, freqValues: seq<Word>, channelValues: seq<Word>)
    ensures |SerializeBytes(title, freqValues, channelValues)|
            == FreqOffset(|title|) + 4 * |freqValues| + 4 * |channelValues|
    ensures |SerializeBytes(title, freqValues, channelValues)| % 4 == 0
    ensures SerializeBytes(title, freqValues, channelValues)[..FreqOffset(|title|)] == Header(title)
    ensures SerializeBytes(title, freqValues, channelValues)[FreqOffset(|title|)..FreqOffset(|title|) + 4 * |freqValues|]
            == Flatten(freqValues)
    ensures SerializeBytes(title, freqValues, channelValues)[FreqOffset(|title|) + 4 * |freqValues|..]
            == Flatten(channelValues)
  {
    HeaderLayout(title);
    var h := Header(title);
    var f := Flatten(freqValues);
    var c := Flatten(channelValues);
    var b := SerializeBytes(title, freqValues, channelValues);
    assert b == h + f + c;
    AlignedSum(FreqOffset(|title|), |freqValues|, |channelValues|, |b|);
  }

  lemma AlignedSum(a: nat, x: nat, y: nat, n: nat)
    requires a % 4 == 0 && n == a + 4 * x + 4 * y
    ensures n % 4 == 0
  {
    var q := a / 4;
    assert a == 4 * q;
    assert n == 4 * (q + x + y);
  }

  /** Decoding a serialized buffer gives back the title, the frequency words and the channel
      words, for every title of at most 255 bytes. */
  lemma DecodeSerialize(title: seq<byte>, freqValues: seq<Word>, channelValues: seq<Word>)
    requires |title| <= 255 && |freqValues| == FreqWordCount
    ensures DecodeBytes(SerializeBytes(title, freqValues, channelValues))
            == Success(Settings(title, freqValues, channelValues))
  {
    var b := SerializeBytes(title, freqValues, channelValues);
    SerializeLayout(title, freqValues, channelValues);
    HeaderLayout(title);
    var h := b[..FreqOffset(|title|)];
    assert b[0] == h[0] && b[1] == h[1];
    assert b[2..2 + |title|] == h[2..2 + |title|];
    WordsFlatten(freqValues);
    WordsFlatten(channelValues);
    assert b[1] == |title|;
  }

  /** The same round trip through the URL fragment. */
  lemma UrlRoundTrip(title: seq<byte>, freqValues: seq<Word>, channelValues: seq<Word>)
    requires |title| <= 255 && |freqValues| == FreqWordCount
    ensures DecodeUrl(SerializeUrl(title, freqValues, channelValues))
            == Success(Settings(title, freqValues, channelValues))
  {
    UrlSafeRoundTrip(SerializeBytes(title, freqValues, channelValues));
    DecodeSerialize(title, freqValues, channelValues);
  }

  /** A title of 256 bytes or more never survives the round trip: the length byte wraps, so
      the decoder either fails or reads a title of another length. */
  lemma TitleLengthWraps(title: seq<byte>, freqValues: seq<Word>, channelValues: seq<Word>)
    requires |title| >= 256
    ensures DecodeBytes(SerializeBytes(title, freqValues, channelValues))
            != Success(Settings(title, freqValues, channelValues))
  {
    SerializeLayout(title, freqValues, channelValues);
  }

  /** A buffer the decoder accepts always has a length that is a multiple of four. */
  lemma DecodedLengthAligned(b: seq<byte>)
    requires DecodeBytes(b).Success?
    ensures |b| % 4 == 0
  {
  }

  /** Cutting the last character off a shared URL never yields settings and is reported as a
      corrupt payload: either `atob` throws or the bytes left are not a whole number of words. */
  lemma TruncatedUrlRejected(title: seq<byte>, freqValues: seq<Word>, channelValues: seq<Word>)
    ensures var u := SerializeUrl(title, freqValues, channelValues);
      |u| > 0 && DecodeUrl(u[..|u| - 1]) == Failure(CorruptPayload)
  {
    var b := SerializeBytes(title, freqValues, channelValues);
    SerializeLayout(title, freqValues, channelValues);
    DropLastChar(b);
    var u := SerializeUrl(title, freqValues, channelValues);
    var r := Atob(RestoredBase64(u[..|u| - 1]));
    if r.Some? {
      assert r.value == b[..|b| - 1];
      ShortOfAligned(|b|, |r.value|);
      if DecodeBytes(r.value).Success? {
        DecodedLengthAligned(r.value);
      }
    }
  }

  lemma ShortOfAligned(n: nat, m: nat)
    requires n % 4 == 0 && m + 1 == n
    ensures m % 4 == 3
  {
    var q := n / 4;
    assert n == 4 * q;
    assert m == 4 * (q - 1) + 3;
  }

  /** The padding bytes of a buffer: those between the title and the frequency words. */
  predicate PaddingIsZero(b: seq<byte>)
    requires |b| >= 2
  {
    forall i :: 2 + b[1] <= i < FreqOffset(b[1]) && i < |b| ==> b[i] == 0
  }

  /** The decoder never returns a partial result: serializing what it returns gives back
      every byte of its input, except padding bytes that were not zero. */
  lemma SerializeDecoded(b: seq<byte>)
    requires DecodeBytes(b).Success? && PaddingIsZero(b)
    ensures var s := DecodeBytes(b).value;
      SerializeBytes(s.title, s.freqValues, s.channelValues) == b
  {
    var s := DecodeBytes(b).value;
    var titleLength: nat := b[1];
    var offset := FreqOffset(titleLength);
    assert s == Settings(b[2..2 + titleLength], Words(b[offset..offset + 12]), Words(b[offset + 12..]));
    FlattenWords(b[offset..offset + 12]);
    FlattenWords(b[offset + 12..]);
    HeaderOfBuffer(b);
    ThreeParts(b, offset, offset + 12);
  }

  /** The bytes before the frequency words of a decodable buffer with zero padding are the
      header of its title. */
  lemma HeaderOfBuffer(b: seq<byte>)
    requires |b| >= 2 && b[0] == Version && FreqOffset(b[1]) <= |b| && PaddingIsZero(b)
    ensures Header(b[2..2 + b[1]]) == b[..FreqOffset(b[1])]
  {
    var titleLength: nat := b[1];
    var offset := FreqOffset(titleLength);
    var pad := Zeros(Padding(2 + titleLength));
    assert pad == b[2 + titleLength..offset];
    assert Header(b[2..2 + titleLength]) == [b[0], b[1]] + b[2..2 + titleLength] + pad;
    assert b[..offset] == [b[0], b[1]] + b[2..2 + titleLength] + b[2 + titleLength..offset];
  }

  lemma ThreeParts<T>(s: seq<T>, i: nat, j: nat)
    requires i <= j <= |s|
    ensures s == s[..i] + s[i..j] + s[j..]
  {
  }

  // ---------------------------------------------------------------------------------------
  // The one-byte buffer

  /** The decoder as written accepts the one-byte buffer `[3]` and returns settings with an
      empty title and no frequency words at all; the corrected decoder reports a corrupt
      payload. */
  lemma OneByteBufferAccepted()
    ensures DecodeBytesAsWritten([3]) == Success(Settings([], [], []))
    ensures DecodeBytes([3]) == Failure(CorruptPayload)
  {
    var b: seq<byte> := [3];
    assert JsSlice(b, Some(2), None) == [];
    assert JsSlice(b, None, None) == [];
  }

  /** The URL fragment "Aw" restores to "Aw==", which `atob` decodes to the single byte 3. */
  lemma AwIsOneByte()
    ensures Atob(RestoredBase64("Aw")) == Some([3])
  {
    AwRestored();
    AwStripped();
    AwSextets();
    AwDecoded();
  }

  lemma AwDecoded()
    ensures DecodeSextets([0, 48]) == [3]
  {
    var vs: seq<nat> := [0, 48];
    assert vs[0] * 4 + vs[1] / 16 == 3;
  }

  lemma AwStripped()
    ensures StripPadding(StripWhitespace("Aw==")) == "Aw"
  {
    NoWhitespaceKept("Aw==");
    assert "Aw=="[..2] == "Aw";
  }

  lemma AwRestored()
    ensures RestoredBase64("Aw") == "Aw=="
  {
    assert FromUrlSafe("Aw") == "Aw";
  }

  lemma AwSextets()
    ensures Sextets("Aw") == Some([0, 48])
  {
    assert SextetChar(0) == 'A' && SextetChar(48) == 'w';
    assert Chars([0, 48]) == "Aw";
    SextetsOfChars([0, 48]);
  }

  /** Opening the URL fragment "Aw": the decoder as written returns settings without
      frequency words, the corrected one a corrupt payload. */
  lemma AwAccepted()
    ensures DecodeUrlAsWritten("Aw") == Success(Settings([], [], []))
    ensures DecodeUrl("Aw") == Failure(CorruptPayload)
  {
    AwIsOneByte();
    OneByteBufferAccepted();
  }

  /** On every other buffer the decoder as written and the corrected decoder agree. */
  lemma AsWrittenAgrees(b: seq<byte>)
    requires |b| != 1
    ensures DecodeBytesAsWritten(b) == DecodeBytes(b)
  {
    if |b| >= 2 && b[0] == Version {
      AsWrittenAgreesLong(b);
    }
  }

  /** With the title-length byte present, every offset of the decoder as written is a number. */
  lemma AsWrittenAgreesLong(b: seq<byte>)
    requires |b| >= 2 && b[0] == Version
    ensures DecodeBytesAsWritten(b) == DecodeBytes(b)
  {
    var titleLength: nat := b[1];
    var afterTitle := 2 + titleLength;
    var offset := FreqOffset(titleLength);
    assert Plus(Some(2), Some(titleLength)) == Some(afterTitle);
    assert Plus(Some(afterTitle), PaddingOf(Some(afterTitle))) == Some(offset);
    assert Plus(Some(offset), Some(12)) == Some(offset + 12);
    SliceWithin(b, 2, afterTitle);
    if offset + 12 <= |b| {
      assert Minus(Some(|b|), Some(offset + 12)) == Some(|b| - (offset + 12));
      assert Plus(Some(offset + 12), Some(|b| - (offset + 12))) == Some(|b|);
      SliceWithin(b, offset, offset + 12);
      SliceWithin(b, offset + 12, |b|);
      assert !Greater(Some(offset + 12), |b|);
      assert !Less(Some(|b| - (offset + 12)), 0);
      assert JsSlice(b, Some(offset), Some(offset + 12)) == b[offset..offset + 12];
      assert JsSlice(b, Some(offset + 12), Some(|b|)) == b[offset + 12..];
    } else {
      assert Greater(Some(offset + 12), |b|);
    }
  }

  /** `slice` with two numeric bounds, the first within the buffer. */
  lemma SliceWithin(b: seq<byte>, i: nat, j: nat)
    requires i <= j && i <= |b|
    ensures JsSlice(b, Some(i), Some(j)) == b[i..Min(j, |b|)]
  {
  }

  // ---------------------------------------------------------------------------------------
  // `serializeSettings`

  /** `serializeSettings`: the rows' values are collected three by three, the buffer is
      allocated zero-filled and written part by part through a moving offset, then encoded
      with `btoa` and made URL-safe. */
  method SerializeSettings(title: seq<byte>, freqValues: seq<Word>, rows: seq<ConfigTriple>) returns (url: string)
    requires |freqValues| == FreqWordCount
    ensures url == SerializeUrl(title, freqValues, TripleWords(rows))
    ensures '+' !in url && '/' !in url && '=' !in url
  {
    var channelValues := CollectChannelValues(rows);
    var buffer := FillBuffer(title, freqValues, channelValues);
    url := UrlSafe(Btoa(buffer[..]));
  }

  /** The buffer of `serializeSettings`: allocated zero-filled at its total length, then the
      version, the length byte, the title, and (after skipping the padding) the two float
      arrays are written at a moving offset. */
  method FillBuffer(title: seq<byte>, freqValues: seq<Word>, channelValues: seq<Word>) returns (buffer: array<byte>)
    ensures fresh(buffer)
    ensures buffer[..] == SerializeBytes(title, freqValues, channelValues)
  {
    var preFloatOffset := 1 + 1 + |title|;
    var padding := (4 - preFloatOffset % 4) % 4;
    var freqBytes := Flatten(freqValues);
    var channelBytes := Flatten(channelValues);
    var totalLength := preFloatOffset + padding + |freqBytes| + |channelBytes|;
    buffer := new byte[totalLength](_ => 0);
    assert Filled(buffer[..], []);
    var offset := 0;
    Write(buffer, [Version], offset, []);
    offset := offset + 1;
    Write(buffer, [|title| % 256], offset, [Version]);
    offset := offset + 1;
    Write(buffer, title, offset, [Version, |title| % 256]);
    offset := offset + |title|;
    SkipZeros(buffer[..], [Version, |title| % 256] + title, padding);
    offset := offset + padding;
    Write(buffer, freqBytes, offset, Header(title));
    offset := offset + |freqBytes|;
    Write(buffer, channelBytes, offset, Header(title) + freqBytes);
    FilledComplete(buffer[..], Header(title) + freqBytes + channelBytes);
  }

  /** A buffer whose first bytes are `written` and whose other bytes are still zero. */
  ghost predicate Filled(contents: seq<byte>, written: seq<byte>)
  {
    |written| <= |contents| && contents == written + Zeros(|contents| - |written|)
  }

  /** `buffer.set(src, offset)` right after the bytes written so far. */
  method Write(buffer: array<byte>, src: seq<byte>, offset: nat, ghost written: seq<byte>)
    requires offset == |written| && offset + |src| <= buffer.Length
    requires Filled(buffer[..], written)
    modifies buffer
    ensures Filled(buffer[..], written + src)
  {
    SetBytes(buffer, src, offset);
    FillStep(buffer.Length, written, src);
  }

  /** Skipping zero bytes keeps the buffer filled. */
  lemma SkipZeros(contents: seq<byte>, written: seq<byte>, n: nat)
    requires Filled(contents, written) && |written| + n <= |contents|
    ensures Filled(contents, written + Zeros(n))
  {
    ZerosSplit(n, |contents| - |written| - n);
  }

  lemma FilledComplete(contents: seq<byte>, written: seq<byte>)
    requires Filled(contents, written) && |written| == |contents|
    ensures contents == written
  {
    assert Zeros(0) == [];
  }

  /** The `each` over the configuration rows: three values pushed per row. */
  method CollectChannelValues(rows: seq<ConfigTriple>) returns (channelValues: seq<Word>)
    ensures channelValues == TripleWords(rows)
  {
    channelValues := [];
    for k := 0 to |rows|
      invariant channelValues == TripleWords(rows[..k])
    {
      assert rows[..k + 1][..k] == rows[..k];
      channelValues := channelValues + [rows[k].occupiedBw, rows[k].channelWidth, rows[k].channelSpacing];
    }
    assert rows[..|rows|] == rows;
  }

  /** `buffer.set(src, offset)`: the bytes of `src` replace those from `offset` on. */
  method SetBytes(buffer: array<byte>, src: seq<byte>, offset: nat)
    requires offset + |src| <= buffer.Length
    modifies buffer
    ensures buffer[..] == old(buffer[..])[..offset] + src + old(buffer[..])[offset + |src|..]
  {
    forall i | offset <= i < offset + |src| {
      buffer[i] := src[i - offset];
    }
  }

  /** A zero-filled buffer whose first bytes are `written` stays in that shape when `src` is
      written right after them. */
  lemma FillStep(length: nat, written: seq<byte>, src: seq<byte>)
    requires |written| + |src| <= length
    ensures var before := written + Zeros(length - |written|);
      before[..|written|] + src + before[|written| + |src|..]
      == (written + src) + Zeros(length - |written| - |src|)
  {
    var rest := Zeros(length - |written|);
    var before := written + rest;
    assert before[..|written|] == written;
    assert before[|written| + |src|..] == rest[|src|..];
  }

  lemma ZerosSplit(a: nat, b: nat)
    ensures Zeros(a + b) == Zeros(a) + Zeros(b)
  {
  }

  // ---------------------------------------------------------------------------------------
  // `deserializeSettings`

  /** `deserializeSettings`: the URL-safe characters are mapped back, `=` is appended while
      the length is not a multiple of four, `atob` decodes the text, its characters are
      copied into a byte buffer, and the buffer is read through a moving offset. The buffer
      is read by the corrected decoder, which rejects a one-byte buffer; the code as written
      is `DecodeUrlAsWritten`, and `AsWrittenAgrees` shows the two agree on every other
      buffer. */
  method DeserializeSettings(text: string) returns (r: Result<Settings, CodecError>)
    ensures r == DecodeUrl(text)
  {
    var base64 := RestoreBase64(text);
    var decoded := Atob(base64);
    if decoded.None? {
      return Failure(CorruptPayload);
    }
    var buffer := CopyBytes(decoded.value);
    r := ReadSettings(buffer);
  }

  /** The two `replace` calls, then `=` appended while the length is not a multiple of four. */
  method RestoreBase64(text: string) returns (base64: string)
    ensures base64 == RestoredBase64(text)
  {
    base64 := FromUrlSafe(text);
    ghost var unpadded := base64;
    ghost var target := PadBase64(unpadded);
    while |base64| % 4 != 0
      invariant |unpadded| <= |base64| <= |target| && base64 == target[..|base64|]
      decreases |target| - |base64|
    {
      PaddedTail(unpadded, |base64|);
      base64 := base64 + "=";
    }
    PaddedLength(unpadded, |base64|);
  }

  /** The `charCodeAt` loop filling a `Uint8Array` of the decoded length. */
  method CopyBytes(binary: seq<byte>) returns (buffer: array<byte>)
    ensures fresh(buffer) && buffer[..] == binary
  {
    buffer := new byte[|binary|];
    for i := 0 to |binary|
      invariant buffer[..i] == binary[..i]
    {
      buffer[i] := binary[i];
    }
  }

  lemma PaddedTail(s: string, n: nat)
    requires |s| <= n <= |PadBase64(s)| && n % 4 != 0
    ensures n < |PadBase64(s)| && PadBase64(s)[n] == '='
  {
  }

  /** The padding loop stops exactly at the padded length. */
  lemma PaddedLength(s: string, n: nat)
    requires |s| <= n <= |PadBase64(s)| && n % 4 == 0
    ensures n == |PadBase64(s)|
  {
    var q := |s| / 4;
    var r := |s| % 4;
    assert |s| == 4 * q + r;
    var m := n / 4;
    assert n == 4 * m;
    if r == 0 {
      assert |PadBase64(s)| == |s|;
    } else {
      assert (4 - r) % 4 == 4 - r;
      assert |PadBase64(s)| == 4 * q + 4;
      assert 4 * m > 4 * q;
      assert m >= q + 1;
    }
  }

  /** The reads through the moving offset (the corrected decoder). */
  method ReadSettings(buffer: array<byte>) returns (r: Result<Settings, CodecError>)
    ensures r == DecodeBytes(buffer[..])
  {
    ghost var b := buffer[..];
    var offset := 0;
    if buffer.Length == 0 {
      return Failure(UnsupportedVersion);
    }
    var version := buffer[offset];
    offset := offset + 1;
    if version != Version {
      return Failure(UnsupportedVersion);
    }
    if buffer.Length < 2 {
      return Failure(CorruptPayload);
    }
    var titleLength: nat := buffer[offset];
    offset := offset + 1;
    var title := buffer[offset..Min(offset + titleLength, buffer.Length)];
    assert title == b[2..Min(2 + titleLength, |b|)];
    offset := offset + titleLength;
    var padding := (4 - offset % 4) % 4;
    offset := offset + padding;
    assert offset == FreqOffset(titleLength);
    var freqValuesByteLength := FreqWordCount * 4;
    if offset + freqValuesByteLength > buffer.Length {
      return Failure(CorruptPayload);
    }
    assert buffer[offset..offset + freqValuesByteLength] == b[offset..offset + 12];
    var freqValues := Words(buffer[offset..offset + freqValuesByteLength]);
    offset := offset + freqValuesByteLength;
    var remainingBytes := buffer.Length - offset;
    var channelBytes := buffer[offset..offset + remainingBytes];
    assert channelBytes == b[offset..];
    if |channelBytes| % 4 != 0 {
      return Failure(CorruptPayload);
    }
    var channelValues := Words(channelBytes);
    return Success(Settings(title, freqValues, channelValues));
  }
}
