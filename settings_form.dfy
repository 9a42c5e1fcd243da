/** The settings form that `applySettings` fills from decoded settings: the title, the three
    frequency inputs, and one channel-configuration row per triple of channel words. */
module SettingsForm {
  import opened Common
  import opened StateCodec

  /** The unit every restored input is set to. */
  const KHz := "kHz"

  /** A number input with its unit select; `None` is an input left empty, which is what
      `val(undefined)` and a row created from an `undefined` value give. */
  datatype Field = Field(value: Option<Word>, unit: string)

  /** One channel-configuration row of the form. */
  datatype ConfigRow = ConfigRow(occupiedBw: Field, channelWidth: Field, channelSpacing: Field)

  /** `values[i]`, which is `undefined` past the end of the array. */
  function At(values: seq<Word>, i: nat): (v: Option<Word>)
    ensures v.Some? <==> i < |values|
    ensures v.Some? ==> v.value == values[i]
  {
    if i < |values| then Some(values[i]) else None
  }

  /** A restored input: the value in kilohertz. */
  function KHzField(v: Option<Word>): Field
  {
    Field(v, KHz)
  }

  /** The row created for the triple starting at index `i`. */
  function RowAt(values: seq<Word>, i: nat): ConfigRow
  {
    ConfigRow(KHzField(At(values, i)), KHzField(At(values, i + 1)), KHzField(At(values, i + 2)))
  }

  /** The rows the loop `for (i = 0; i < length; i += 3)` creates: one per started triple. */
  function Rows(values: seq<Word>): (rows: seq<ConfigRow>)
    ensures |rows| == (|values| + 2) / 3
  {
    seq((|values| + 2) / 3, k requires 0 <= k => RowAt(values, 3 * k))
  }

  /** The row of a complete triple. */
  function TripleRow(t: ConfigTriple): ConfigRow
  {
    ConfigRow(KHzField(Some(t.occupiedBw)), KHzField(Some(t.channelWidth)), KHzField(Some(t.channelSpacing)))
  }

  predicate Complete(row: ConfigRow)
  {
    row.occupiedBw.value.Some? && row.channelWidth.value.Some? && row.channelSpacing.value.Some?
  }

  /** The form inputs that `applySettings` writes. */
  class Form {
    var title: seq<byte>
    var startFreq: Field
    var endFreq: Field
    var gridSpacing: Field
    var rows: seq<ConfigRow>

    constructor (title: seq<byte>, startFreq: Field, endFreq: Field, gridSpacing: Field, rows: seq<ConfigRow>)
      ensures this.title == title && this.startFreq == startFreq && this.endFreq == endFreq
      ensures this.gridSpacing == gridSpacing && this.rows == rows
    {
      this.title := title;
      this.startFreq := startFreq;
      this.endFreq := endFreq;
      this.gridSpacing := gridSpacing;
      this.rows := rows;
    }

    /** `applySettings`: the title text is the decoded title bytes, and an empty text leaves
        the title input as it was; the three frequency inputs take the first three frequency
        words in kilohertz; the rows are emptied and one row is created per started triple of
        channel words. */
    method ApplySettings(settings: Settings)
      modifies this
      ensures title == if TextDecode(settings.title) != [] then TextDecode(settings.title) else old(title)
      ensures startFreq == KHzField(At(settings.freqValues, 0))
      ensures endFreq == KHzField(At(settings.freqValues, 1))
      ensures gridSpacing == KHzField(At(settings.freqValues, 2))
      ensures rows == Rows(settings.channelValues)
    {
      var text := TextDecode(settings.title);
      if text != [] {
        title := text;
      }
      startFreq := KHzField(At(settings.freqValues, 0));
      endFreq := KHzField(At(settings.freqValues, 1));
      gridSpacing := KHzField(At(settings.freqValues, 2));
      rows := [];
      var values := settings.channelValues;
      var i := 0;
      while i < |values|
        invariant i % 3 == 0 && i <= |values| + 2
        invariant title == if TextDecode(settings.title) != [] then TextDecode(settings.title) else old(title)
        invariant startFreq == KHzField(At(settings.freqValues, 0))
        invariant endFreq == KHzField(At(settings.freqValues, 1))
        invariant gridSpacing == KHzField(At(settings.freqValues, 2))
        invariant |rows| == i / 3
        invariant forall k :: 0 <= k < |rows| ==> rows[k] == RowAt(values, 3 * k)
        decreases |values| - i
      {
        rows := rows + [RowAt(values, i)];
        i := i + 3;
      }
      RowCount(|values|, i);
    }
  }

  /** The loop stops after `ceil(n / 3)` rows. */
  lemma RowCount(n: nat, i: nat)
    requires i % 3 == 0 && n <= i <= n + 2
    ensures i / 3 == (n + 2) / 3
  {
    var m := i / 3;
    assert i == 3 * m;
    assert n + 2 == 3 * m + (n + 2 - i);
  }

  /** A whole number of triples gives complete rows, and reading their values back row by row
      gives the channel words. */
  lemma CompleteRows(values: seq<Word>)
    requires |values| % 3 == 0
    ensures |Rows(values)| == |values| / 3
    ensures forall k :: 0 <= k < |Rows(values)| ==> Complete(Rows(values)[k])
    ensures forall k :: 0 <= k < |Rows(values)| ==>
      Rows(values)[k].occupiedBw.value.value == values[3 * k]
      && Rows(values)[k].channelWidth.value.value == values[3 * k + 1]
      && Rows(values)[k].channelSpacing.value.value == values[3 * k + 2]
  {
  }

  /** Otherwise every row but the last is complete, and the last lacks its channel spacing
      (and its channel width too when a single word is left over). */
  lemma IncompleteLastRow(values: seq<Word>)
    requires |values| % 3 != 0
    ensures var rows := Rows(values);
      |rows| > 0
      && (forall k :: 0 <= k < |rows| - 1 ==> Complete(rows[k]))
      && rows[|rows| - 1].occupiedBw.value.Some?
      && rows[|rows| - 1].channelSpacing.value.None?
      && (rows[|rows| - 1].channelWidth.value.None? <==> |values| % 3 == 1)
  {
    var rows := Rows(values);
    var n := |values|;
    var last := |rows| - 1;
    LastTripleStart(n);
    forall k | 0 <= k < last
      ensures Complete(rows[k])
    {
      assert 3 * k + 2 < n;
    }
  }

  /** Where the last started triple begins when words are left over. */
  lemma LastTripleStart(n: nat)
    requires n % 3 != 0
    ensures (n + 2) / 3 >= 1
    ensures var s := 3 * ((n + 2) / 3 - 1); s < n && n <= s + 2 && (n == s + 1 <==> n % 3 == 1)
  {
    var q := n / 3;
    assert n == 3 * q + n % 3;
    assert (n + 2) / 3 == q + 1;
  }

  /** The partner of `serializeSettings`' row loop: the channel words of the rows unpack into
      exactly those rows, all complete. */
  lemma {:induction false} RowsOfTriples(triples: seq<ConfigTriple>)
    ensures Rows(TripleWords(triples)) == seq(|triples|, k requires 0 <= k < |triples| => TripleRow(triples[k]))
  {
    var values := TripleWords(triples);
    var rows := Rows(values);
    TripleWordsAt(triples);
    assert (3 * |triples| + 2) / 3 == |triples|;
    forall k | 0 <= k < |triples|
      ensures rows[k] == TripleRow(triples[k])
    {
      assert 3 * k + 2 < |values|;
    }
  }

  /** The words of triple `k` sit at indices `3k`, `3k + 1` and `3k + 2`. */
  lemma {:induction false} TripleWordsAt(triples: seq<ConfigTriple>)
    ensures forall k :: 0 <= k < |triples| ==>
      TripleWords(triples)[3 * k] == triples[k].occupiedBw
      && TripleWords(triples)[3 * k + 1] == triples[k].channelWidth
      && TripleWords(triples)[3 * k + 2] == triples[k].channelSpacing
    decreases |triples|
  {
    if triples != [] {
      var init := triples[..|triples| - 1];
      TripleWordsAt(init);
      forall k | 0 <= k < |triples|
        ensures TripleWords(triples)[3 * k] == triples[k].occupiedBw
        ensures TripleWords(triples)[3 * k + 1] == triples[k].channelWidth
        ensures TripleWords(triples)[3 * k + 2] == triples[k].channelSpacing
      {
        if k < |init| {
          assert triples[k] == init[k];
        }
      }
    }
  }

  /** Sharing and reopening a form of at most 255 title bytes decodes back to its title bytes,
      its three frequency words and every configuration row. The title text handed to the form
      is the title itself unless the title starts with a byte-order mark, which is dropped; it
      is empty, so the form keeps its old title, exactly when the title is empty or a lone
      byte-order mark. */
  lemma SharedFormRestored(title: seq<byte>, freqValues: seq<Word>, triples: seq<ConfigTriple>)
    requires |title| <= 255 && |freqValues| == FreqWordCount
    ensures var r := DecodeUrl(SerializeUrl(title, freqValues, TripleWords(triples)));
      && r == Success(Settings(title, freqValues, TripleWords(triples)))
      && Rows(r.value.channelValues) == seq(|triples|, k requires 0 <= k < |triples| => TripleRow(triples[k]))
      && (!StartsWithBom(title) ==> TextDecode(r.value.title) == title)
      && (StartsWithBom(title) ==> Bom + TextDecode(r.value.title) == title)
      && (TextDecode(r.value.title) == [] <==> title == [] || title == Bom)
  {
    UrlRoundTrip(title, freqValues, TripleWords(triples));
    RowsOfTriples(triples);
    TextDecodeEmpty(title);
  }
}
