/** Base64 as the browser's `btoa` and `atob` implement it, and the URL-safe rewriting the
    state codec applies on top. `btoa` is the encoding of section 4 of RFC 4648 with `=`
    padding; `atob` is the forgiving-base64 decode of the WHATWG Infra standard. Both work
    on "binary strings" whose characters are bytes, so bytes are used directly here. */
module Base64 {
  import opened Common

  /** The character for a 6-bit value: Table 1 of RFC 4648. */
  function SextetChar(v: nat): (c: char)
    requires v < 64
  {
    if v < 26 then (('A' as int) + v) as char
    else if v < 52 then (('a' as int) + (v - 26)) as char
    else if v < 62 then (('0' as int) + (v - 52)) as char
    else if v == 62 then '+'
    else '/'
  }

  /** The 6-bit value of an alphabet character; `None` for every other character, `=` included. */
  function CharSextet(c: char): (r: Option<nat>)
    ensures r.Some? ==> r.value < 64 && SextetChar(r.value) == c
  {
    if 'A' <= c <= 'Z' then Some((c as int) - ('A' as int))
    else if 'a' <= c <= 'z' then Some((c as int) - ('a' as int) + 26)
    else if '0' <= c <= '9' then Some((c as int) - ('0' as int) + 52)
    else if c == '+' then Some(62)
    else if c == '/' then Some(63)
    else None
  }

  lemma SextetCharInverse(v: nat)
    requires v < 64
    ensures CharSextet(SextetChar(v)) == Some(v)
    ensures SextetChar(v) != '=' && SextetChar(v) != '-' && SextetChar(v) != '_'
  {
  }

  predicate AllSextets(vs: seq<nat>)
  {
    forall i :: 0 <= i < |vs| ==> vs[i] < 64
  }

  // ---------------------------------------------------------------------------------------
  // Encoding (`btoa`)

  /** The 6-bit groups of `b`: three bytes give four groups; a final one or two bytes give two
      or three groups, the missing low bits being zero. */
  function EncodeSextets(b: seq<byte>): (vs: seq<nat>)
    ensures AllSextets(vs) && |vs| % 4 != 1
    ensures |vs| == (|b| / 3) * 4 + (if |b| % 3 == 0 then 0 else |b| % 3 + 1)
    decreases |b|
  {
    if |b| == 0 then []
    else if |b| == 1 then [b[0] / 4, (b[0] % 4) * 16]
    else if |b| == 2 then [b[0] / 4, (b[0] % 4) * 16 + b[1] / 16, (b[1] % 16) * 4]
    else [b[0] / 4, (b[0] % 4) * 16 + b[1] / 16, (b[1] % 16) * 4 + b[2] / 64, b[2] % 64] + EncodeSextets(b[3..])
  }

  function Chars(vs: seq<nat>): (s: string)
    requires AllSextets(vs)
    ensures |s| == |vs|
  {
    seq(|vs|, i requires 0 <= i < |vs| => SextetChar(vs[i]))
  }

  function Repeat(c: char, n: nat): (s: string)
    ensures |s| == n && forall i :: 0 <= i < n ==> s[i] == c
  {
    seq(n, _ => c)
  }

  /** `btoa`: the encoded groups followed by `=` up to a multiple of four characters. */
  function Btoa(b: seq<byte>): (s: string)
    ensures |s| % 4 == 0 && |s| == 4 * ((|b| + 2) / 3)
  {
    var vs := EncodeSextets(b);
    BtoaLength(|b|, |vs|);
    Chars(vs) + Repeat('=', (4 - |vs| % 4) % 4)
  }

  /** The groups of `len` bytes plus their padding make `4 * ceil(len / 3)` characters. */
  lemma BtoaLength(len: nat, n: nat)
    requires n == (len / 3) * 4 + (if len % 3 == 0 then 0 else len % 3 + 1)
    ensures (n + (4 - n % 4) % 4) % 4 == 0
    ensures n + (4 - n % 4) % 4 == 4 * ((len + 2) / 3)
  {
    var q := len / 3;
    var r := len % 3;
    var e := if r == 0 then 0 else 1;
    assert len == 3 * q + r;
    assert (len + 2) / 3 == q + e;
    PaddedGroups(q, if r == 0 then 0 else r + 1, n);
  }

  lemma PaddedGroups(q: nat, c: nat, n: nat)
    requires c == 0 || c == 2 || c == 3
    requires n == 4 * q + c
    ensures n % 4 == c
    ensures n + (4 - n % 4) % 4 == 4 * q + (if c == 0 then 0 else 4)
  {
  }

  // ---------------------------------------------------------------------------------------
  // Decoding (`atob`)

  predicate IsAsciiWhitespace(c: char)
  {
    c == '\t' || c == '\n' || c == '\U{C}' || c == '\r' || c == ' '
  }

  function StripWhitespace(s: string): (r: string)
    ensures |r| <= |s|
    ensures (forall i :: 0 <= i < |s| ==> !IsAsciiWhitespace(s[i])) ==> r == s
    decreases |s|
  {
    if s == [] then []
    else (if IsAsciiWhitespace(s[0]) then [] else [s[0]]) + StripWhitespace(s[1..])
  }

  /** When the length is a multiple of four, one or two trailing `=` are dropped. */
  function StripPadding(t: string): (r: string)
    ensures r <= t && |t| - 2 <= |r|
    ensures forall i :: |r| <= i < |t| ==> t[i] == '='
    ensures r != t ==> |t| % 4 == 0
  {
    if |t| % 4 == 0 && |t| >= 2 && t[|t| - 1] == '=' && t[|t| - 2] == '=' then t[..|t| - 2]
    else if |t| % 4 == 0 && |t| >= 1 && t[|t| - 1] == '=' then t[..|t| - 1]
    else t
  }

  /** The 6-bit values of the characters of `s`, or `None` when one is outside the alphabet. */
  function Sextets(s: string): (r: Option<seq<nat>>)
    ensures r.Some? ==> |r.value| == |s| && AllSextets(r.value)
    ensures r.None? <==> exists i :: 0 <= i < |s| && CharSextet(s[i]).None?
    decreases |s|
  {
    if s == [] then Some([])
    else
      var head := CharSextet(s[0]);
      var tail := Sextets(s[1..]);
      if head.None? then None
      else if tail.None? then
        (var i :| 0 <= i < |s[1..]| && CharSextet(s[1..][i]).None?; assert CharSextet(s[i + 1]).None?; None)
      else Some([head.value] + tail.value)
  }

  /** Bytes from 6-bit groups: four groups give three bytes, a final two or three give one or
      two bytes and their leftover low bits are discarded. */
  function DecodeSextets(vs: seq<nat>): (b: seq<byte>)
    requires AllSextets(vs) && |vs| % 4 != 1
    ensures |b| == (|vs| / 4) * 3 + (if |vs| % 4 == 0 then 0 else |vs| % 4 - 1)
    decreases |vs|
  {
    if |vs| == 0 then []
    else if |vs| == 2 then [vs[0] * 4 + vs[1] / 16]
    else if |vs| == 3 then [vs[0] * 4 + vs[1] / 16, (vs[1] % 16) * 16 + vs[2] / 4]
    else [vs[0] * 4 + vs[1] / 16, (vs[1] % 16) * 16 + vs[2] / 4, (vs[2] % 4) * 64 + vs[3]] + DecodeSextets(vs[4..])
  }

  /** `atob`: forgiving-base64 decode; `None` is the exception `atob` throws. */
  function Atob(s: string): (r: Option<seq<byte>>)
    ensures var data := StripPadding(StripWhitespace(s));
      r.None? <==> |data| % 4 == 1 || exists i :: 0 <= i < |data| && CharSextet(data[i]).None?
    ensures var data := StripPadding(StripWhitespace(s));
      r.Some? ==> |r.value| == 3 * |data| / 4
  {
    var data := StripPadding(StripWhitespace(s));
    if |data| % 4 == 1 then None
    else
      match Sextets(data)
      case None => None
      case Some(vs) => Some(DecodeSextets(vs))
  }

  // ---------------------------------------------------------------------------------------
  // URL-safe rewriting

  /** `s.replace(/x/g, y)` for single characters. */
  function ReplaceChar(s: string, from: char, to: char): (r: string)
    ensures |r| == |s|
    ensures forall i :: 0 <= i < |s| ==> r[i] == if s[i] == from then to else s[i]
  {
    seq(|s|, i requires 0 <= i < |s| => if s[i] == from then to else s[i])
  }

  /** `s.replace(/x/g, '')` for a single character. */
  function RemoveChar(s: string, c: char): (r: string)
    ensures c !in r
    ensures forall x :: x in r ==> x in s
    ensures c !in s ==> r == s
    decreases |s|
  {
    if s == [] then [] else (if s[0] == c then [] else [s[0]]) + RemoveChar(s[1..], c)
  }

  /** `+` becomes `-`, `/` becomes `_`, and every `=` is removed. */
  function UrlSafe(s: string): (r: string)
    ensures '+' !in r && '/' !in r && '=' !in r
  {
    var t := ReplaceChar(ReplaceChar(s, '+', '-'), '/', '_');
    assert '+' !in t && '/' !in t;
    RemoveChar(t, '=')
  }

  /** The inverse substitution: `-` becomes `+` and `_` becomes `/`. */
  function FromUrlSafe(s: string): (r: string)
    ensures |r| == |s| && '-' !in r && '_' !in r
  {
    ReplaceChar(ReplaceChar(s, '-', '+'), '_', '/')
  }

  /** `=` appended until the length is a multiple of four: the next multiple, not a later one. */
  function PadBase64(s: string): (r: string)
    ensures |s| <= |r| < |s| + 4 && |r| % 4 == 0 && r[..|s|] == s
    ensures forall i :: |s| <= i < |r| ==> r[i] == '='
  {
    s + Repeat('=', (4 - |s| % 4) % 4)
  }

  // ---------------------------------------------------------------------------------------
  // Properties

  lemma QuadRoundTrip(b0: byte, b1: byte, b2: byte)
    ensures var v0, v1, v2, v3 := b0 / 4, (b0 % 4) * 16 + b1 / 16, (b1 % 16) * 4 + b2 / 64, b2 % 64;
      v0 * 4 + v1 / 16 == b0 && (v1 % 16) * 16 + v2 / 4 == b1 && (v2 % 4) * 64 + v3 == b2
  {
    var v1 := (b0 % 4) * 16 + b1 / 16;
    var v2 := (b1 % 16) * 4 + b2 / 64;
    assert v1 / 16 == b0 % 4 && v1 % 16 == b1 / 16;
    assert v2 / 4 == b1 % 16 && v2 % 4 == b2 / 64;
  }

  lemma PairRoundTrip(b0: byte, b1: byte)
    ensures var v0, v1, v2 := b0 / 4, (b0 % 4) * 16 + b1 / 16, (b1 % 16) * 4;
      v0 * 4 + v1 / 16 == b0 && (v1 % 16) * 16 + v2 / 4 == b1
  {
    var v1 := (b0 % 4) * 16 + b1 / 16;
    assert v1 / 16 == b0 % 4 && v1 % 16 == b1 / 16;
  }

  lemma SingleRoundTrip(b0: byte)
    ensures (b0 / 4) * 4 + ((b0 % 4) * 16) / 16 == b0
  {
  }

  /** Decoding the groups of any byte string gives the bytes back. */
  lemma {:induction false} DecodeEncode(b: seq<byte>)
    ensures DecodeSextets(EncodeSextets(b)) == b
    decreases |b|
  {
    if |b| == 1 {
      SingleRoundTrip(b[0]);
    } else if |b| == 2 {
      PairRoundTrip(b[0], b[1]);
    } else if |b| >= 3 {
      DecodeEncode(b[3..]);
      DecodeEncodeStep(b);
    }
  }

  /** One group of three bytes in front of a string that already round-trips. */
  lemma DecodeEncodeStep(b: seq<byte>)
    requires |b| >= 3 && DecodeSextets(EncodeSextets(b[3..])) == b[3..]
    ensures DecodeSextets(EncodeSextets(b)) == b
  {
    var tail := EncodeSextets(b[3..]);
    var group := Group(b[0], b[1], b[2]);
    EncodeStep(b);
    FourMore(|tail|);
    assert (group + tail)[..4] == group && (group + tail)[4..] == tail;
    DecodeGroup(group + tail, b[0], b[1], b[2]);
    FirstThree(b);
  }

  lemma FirstThree<T>(s: seq<T>)
    requires |s| >= 3
    ensures s == [s[0], s[1], s[2]] + s[3..]
  {
  }

  lemma {:induction false} SextetsOfChars(vs: seq<nat>)
    requires AllSextets(vs)
    ensures Sextets(Chars(vs)) == Some(vs)
    decreases |vs|
  {
    if vs != [] {
      SextetCharInverse(vs[0]);
      assert Chars(vs)[1..] == Chars(vs[1..]);
      SextetsOfChars(vs[1..]);
      assert [vs[0]] + vs[1..] == vs;
    }
  }

  /** No alphabet character is a padding, URL-safe or whitespace character. */
  lemma CharsAlphabet(vs: seq<nat>)
    requires AllSextets(vs)
    ensures forall i :: 0 <= i < |vs| ==> Chars(vs)[i] != '=' && Chars(vs)[i] != '-' && Chars(vs)[i] != '_'
                                          && !IsAsciiWhitespace(Chars(vs)[i]) && CharSextet(Chars(vs)[i]).Some?
  {
    forall i | 0 <= i < |vs|
      ensures Chars(vs)[i] != '=' && Chars(vs)[i] != '-' && Chars(vs)[i] != '_'
      ensures !IsAsciiWhitespace(Chars(vs)[i]) && CharSextet(Chars(vs)[i]).Some?
    {
      SextetCharInverse(vs[i]);
    }
  }

  /** `atob` undoes `btoa` on every byte string. */
  lemma AtobBtoa(b: seq<byte>)
    ensures Atob(Btoa(b)) == Some(b)
  {
    var vs := EncodeSextets(b);
    BtoaIsPadded(b);
    AtobPadded(vs);
    DecodeEncode(b);
  }

  lemma {:induction false} RemoveCharAppend(a: string, b: string, c: char)
    ensures RemoveChar(a + b, c) == RemoveChar(a, c) + RemoveChar(b, c)
    decreases |a|
  {
    if a != [] {
      var head := if a[0] == c then [] else [a[0]];
      assert (a + b)[0] == a[0] && (a + b)[1..] == a[1..] + b;
      calc {
        RemoveChar(a + b, c);
        head + RemoveChar(a[1..] + b, c);
        { RemoveCharAppend(a[1..], b, c); }
        head + (RemoveChar(a[1..], c) + RemoveChar(b, c));
        RemoveChar(a, c) + RemoveChar(b, c);
      }
    } else {
      assert a + b == b;
    }
  }

  lemma {:induction false} RemoveRepeated(c: char, n: nat)
    ensures RemoveChar(Repeat(c, n), c) == []
    decreases n
  {
    if n > 0 {
      assert Repeat(c, n)[1..] == Repeat(c, n - 1);
      RemoveRepeated(c, n - 1);
    }
  }

  lemma ReplaceAppend(a: string, b: string, from: char, to: char)
    ensures ReplaceChar(a + b, from, to) == ReplaceChar(a, from, to) + ReplaceChar(b, from, to)
  {
  }

  /** The URL-safe text of `btoa(b)`: the alphabet characters with `+` and `/` rewritten, and no padding. */
  lemma UrlSafeBtoa(b: seq<byte>)
    ensures var body := Chars(EncodeSextets(b));
      UrlSafe(Btoa(b)) == ReplaceChar(ReplaceChar(body, '+', '-'), '/', '_')
  {
    var vs := EncodeSextets(b);
    var body := Chars(vs);
    var pad := Repeat('=', (4 - |vs| % 4) % 4);
    CharsAlphabet(vs);
    var safeBody := ReplaceChar(ReplaceChar(body, '+', '-'), '/', '_');
    ReplaceAppend(body, pad, '+', '-');
    ReplaceAppend(ReplaceChar(body, '+', '-'), ReplaceChar(pad, '+', '-'), '/', '_');
    assert ReplaceChar(ReplaceChar(pad, '+', '-'), '/', '_') == pad;
    var whole := ReplaceChar(ReplaceChar(body + pad, '+', '-'), '/', '_');
    assert whole == safeBody + pad;
    assert Btoa(b) == body + pad;
    assert UrlSafe(Btoa(b)) == RemoveChar(whole, '=');
    RemoveCharAppend(safeBody, pad, '=');
    RemoveRepeated('=', |pad|);
    assert '=' !in safeBody;
    assert RemoveChar(safeBody, '=') == safeBody;
    assert RemoveChar(whole, '=') == safeBody + [];
  }

  /** Undoing the substitution and restoring the padding gives back the `btoa` text. */
  lemma RestoreUrlSafe(b: seq<byte>)
    ensures PadBase64(FromUrlSafe(UrlSafe(Btoa(b)))) == Btoa(b)
  {
    var vs := EncodeSextets(b);
    var body := Chars(vs);
    UrlSafeBtoa(b);
    assert forall i :: 0 <= i < |body| ==> body[i] != '-' && body[i] != '_' by {
      CharsAlphabet(vs);
    }
    UndoSubstitution(body);
    BtoaIsPadded(b);
  }

  /** `btoa` is the alphabet text of the groups, padded to a multiple of four. */
  lemma BtoaIsPadded(b: seq<byte>)
    ensures Btoa(b) == PadBase64(Chars(EncodeSextets(b)))
  {
    var vs := EncodeSextets(b);
    var body := Chars(vs);
    assert |body| == |vs|;
    assert PadBase64(body) == body + Repeat('=', (4 - |vs| % 4) % 4);
  }

  /** Mapping `-` and `_` back undoes the substitution on text that held neither. */
  lemma UndoSubstitution(s: string)
    requires forall i :: 0 <= i < |s| ==> s[i] != '-' && s[i] != '_'
    ensures FromUrlSafe(ReplaceChar(ReplaceChar(s, '+', '-'), '/', '_')) == s
  {
  }

  /** Round trip through the URL-safe text: `atob` of the restored text is the original bytes. */
  lemma UrlSafeRoundTrip(b: seq<byte>)
    ensures Atob(PadBase64(FromUrlSafe(UrlSafe(Btoa(b))))) == Some(b)
  {
    RestoreUrlSafe(b);
    AtobBtoa(b);
  }

  /** Decoding all groups but the last of the encoding of `b` (when `b`'s length is not one more
      than a multiple of three) gives all bytes of `b` but the last. */
  lemma {:induction false} DecodeDropLast(b: seq<byte>)
    requires |b| > 0 && |b| % 3 != 1
    ensures var vs := EncodeSextets(b);
      |vs| > 0 && (|vs| - 1) % 4 != 1 && DecodeSextets(vs[..|vs| - 1]) == b[..|b| - 1]
    decreases |b|
  {
    if |b| <= 3 {
      DecodeDropLastShort(b);
    } else {
      DecodeDropLast(b[3..]);
      DecodeDropLastStep(b);
    }
  }

  lemma DecodeDropLastShort(b: seq<byte>)
    requires |b| == 2 || |b| == 3
    ensures var vs := EncodeSextets(b);
      |vs| > 0 && (|vs| - 1) % 4 != 1 && DecodeSextets(vs[..|vs| - 1]) == b[..|b| - 1]
  {
    var vs := EncodeSextets(b);
    if |b| == 2 {
      PairRoundTrip(b[0], b[1]);
      assert vs[..2] == [b[0] / 4, (b[0] % 4) * 16 + b[1] / 16];
    } else {
      QuadRoundTrip(b[0], b[1], b[2]);
      assert vs[..3] == [b[0] / 4, (b[0] % 4) * 16 + b[1] / 16, (b[1] % 16) * 4 + b[2] / 64];
    }
  }

  lemma DecodeDropLastStep(b: seq<byte>)
    requires |b| > 3 && |b| % 3 != 1
    requires var tail := EncodeSextets(b[3..]);
      |tail| > 0 && (|tail| - 1) % 4 != 1 && DecodeSextets(tail[..|tail| - 1]) == b[3..][..|b| - 4]
    ensures var vs := EncodeSextets(b);
      |vs| > 0 && (|vs| - 1) % 4 != 1 && DecodeSextets(vs[..|vs| - 1]) == b[..|b| - 1]
  {
    var rest := b[3..];
    var tail := EncodeSextets(rest);
    var group := Group(b[0], b[1], b[2]);
    EncodeStep(b);
    DropLastAppend(group, tail);
    var shorter := group + tail[..|tail| - 1];
    FourMore(|tail| - 1);
    assert shorter[..4] == group && shorter[4..] == tail[..|tail| - 1];
    DecodeGroup(shorter, b[0], b[1], b[2]);
    assert b[..3] == [b[0], b[1], b[2]];
    DropLastAppend(b[..3], rest);
    assert b == b[..3] + rest;
  }

  /** The four 6-bit groups of three bytes. */
  function Group(b0: byte, b1: byte, b2: byte): (g: seq<nat>)
    ensures |g| == 4 && AllSextets(g)
  {
    [b0 / 4, (b0 % 4) * 16 + b1 / 16, (b1 % 16) * 4 + b2 / 64, b2 % 64]
  }

  lemma EncodeStep(b: seq<byte>)
    requires |b| >= 3
    ensures EncodeSextets(b) == Group(b[0], b[1], b[2]) + EncodeSextets(b[3..])
  {
  }

  lemma DropLastAppend<T>(a: seq<T>, t: seq<T>)
    requires |t| > 0
    ensures (a + t)[..|a + t| - 1] == a + t[..|t| - 1]
  {
  }

  lemma FourMore(n: nat)
    ensures (n + 4) % 4 == n % 4
  {
  }

  /** A sextet sequence that starts with the four groups of three bytes decodes to those three
      bytes followed by the decoding of the rest. */
  lemma DecodeGroup(vs: seq<nat>, b0: byte, b1: byte, b2: byte)
    requires AllSextets(vs) && |vs| % 4 != 1 && |vs| >= 4
    requires vs[..4] == Group(b0, b1, b2)
    ensures DecodeSextets(vs) == [b0, b1, b2] + DecodeSextets(vs[4..])
  {
    var v0, v1, v2, v3 := vs[0], vs[1], vs[2], vs[3];
    assert DecodeSextets(vs) == [v0 * 4 + v1 / 16, (v1 % 16) * 16 + v2 / 4, (v2 % 4) * 64 + v3] + DecodeSextets(vs[4..]);
    assert v0 == b0 / 4 && v1 == (b0 % 4) * 16 + b1 / 16 && v2 == (b1 % 16) * 4 + b2 / 64 && v3 == b2 % 64 by {
      assert vs[..4][0] == v0 && vs[..4][1] == v1 && vs[..4][2] == v2 && vs[..4][3] == v3;
    }
    QuadRoundTrip(b0, b1, b2);
  }

  /** How many `=` the padding loop adds after the last character of the groups is dropped:
      three, one or two for byte counts 1, 0 or 2 modulo three. */
  lemma DroppedPadding(len: nat, n: nat)
    requires len > 0 && n == (len / 3) * 4 + (if len % 3 == 0 then 0 else len % 3 + 1)
    ensures n > 0
    ensures len % 3 == 1 ==> (4 - (n - 1) % 4) % 4 == 3 && (n - 1) % 4 == 1
    ensures len % 3 == 0 ==> (4 - (n - 1) % 4) % 4 == 1 && (n - 1) % 4 == 3
    ensures len % 3 == 2 ==> (4 - (n - 1) % 4) % 4 == 2 && (n - 1) % 4 == 2
  {
    var q := len / 3;
    var r := if len % 3 == 0 then 0 else len % 3 + 1;
    assert n == q * 4 + r;
    if r == 0 {
      assert q > 0;
      assert n - 1 == (q - 1) * 4 + 3;
    } else {
      assert n - 1 == q * 4 + (r - 1);
    }
  }

  lemma ReplacePrefix(s: string, n: nat, from: char, to: char)
    requires n <= |s|
    ensures ReplaceChar(s[..n], from, to) == ReplaceChar(s, from, to)[..n]
  {
  }

  /** Text that holds no whitespace loses nothing to the whitespace step of `atob`. */
  lemma NoWhitespaceKept(s: string)
    requires forall i :: 0 <= i < |s| ==> !IsAsciiWhitespace(s[i])
    ensures StripWhitespace(s) == s
  {
  }

  /** Undoing the URL-safe rewriting of the encoding cut before its last character gives the
      alphabet characters of all groups but the last. */
  lemma DropLastText(b: seq<byte>)
    requires |b| > 0
    ensures var vs := EncodeSextets(b); var u := UrlSafe(Btoa(b));
      |u| == |vs| > 0 && FromUrlSafe(u[..|u| - 1]) == Chars(vs[..|vs| - 1])
  {
    var vs := EncodeSextets(b);
    var body := Chars(vs);
    var n := |vs|;
    DroppedPadding(|b|, n);
    var u := UrlSafe(Btoa(b));
    UrlSafeBtoa(b);
    CharsAlphabet(vs);
    var s1 := ReplaceChar(body, '+', '-');
    var s2 := ReplaceChar(s1, '/', '_');
    var s3 := ReplaceChar(s2, '-', '+');
    ReplacePrefix(body, n - 1, '+', '-');
    ReplacePrefix(s1, n - 1, '/', '_');
    ReplacePrefix(s2, n - 1, '-', '+');
    ReplacePrefix(s3, n - 1, '_', '/');
    assert FromUrlSafe(u) == body;
  }

  /** Dropping the last character of the URL-safe encoding of a non-empty byte string never
      decodes to anything but the byte string without its last byte: either `atob` fails, or
      it returns exactly that prefix. */
  lemma DropLastChar(b: seq<byte>)
    requires |b| > 0
    ensures var u := UrlSafe(Btoa(b));
      |u| > 0
      && var r := Atob(PadBase64(FromUrlSafe(u[..|u| - 1])));
         r.None? || r == Some(b[..|b| - 1])
  {
    var u := UrlSafe(Btoa(b));
    assert |u| > 0 && PadBase64(FromUrlSafe(u[..|u| - 1])) == DroppedText(b) by {
      DropLastText(b);
    }
    if |b| % 3 == 1 {
      DroppedGroupRejected(b);
    } else {
      DroppedGroupDecodes(b);
    }
  }

  /** The padded text of all groups but the last, which the two cases below decode. */
  function DroppedText(b: seq<byte>): string
    requires |b| > 0
  {
    var vs := EncodeSextets(b);
    PadBase64(Chars(vs[..|vs| - 1]))
  }

  lemma DroppedTextNoWhitespace(b: seq<byte>)
    requires |b| > 0
    ensures StripWhitespace(DroppedText(b)) == DroppedText(b)
  {
    var vs := EncodeSextets(b);
    var w := vs[..|vs| - 1];
    var cut := Chars(w);
    CharsAlphabet(w);
    var t := DroppedText(b);
    forall i | 0 <= i < |t| ensures !IsAsciiWhitespace(t[i]) {
      if i < |cut| {
        assert t[i] == cut[i];
      }
    }
    NoWhitespaceKept(t);
  }

  /** One byte past a multiple of three: the cut text ends in a lone `=` after the padding
      step, which `atob` rejects. */
  lemma DroppedGroupRejected(b: seq<byte>)
    requires |b| % 3 == 1
    ensures Atob(DroppedText(b)).None?
  {
    var vs := EncodeSextets(b);
    var n := |vs|;
    DroppedPadding(|b|, n);
    var t := DroppedText(b);
    assert |t| == n + 2 && |t| % 4 == 0;
    assert t[|t| - 1] == '=' && t[|t| - 2] == '=' && t[|t| - 3] == '=';
    DroppedTextNoWhitespace(b);
    LoneEquals(t);
  }

  /** A text ending in three `=` keeps one of them after the padding is stripped, and `=` is
      no alphabet character. */
  lemma LoneEquals(t: string)
    requires |t| % 4 == 0 && |t| >= 3 && StripWhitespace(t) == t
    requires t[|t| - 1] == '=' && t[|t| - 2] == '=' && t[|t| - 3] == '='
    ensures Atob(t).None?
  {
    var data := StripPadding(t);
    assert data == t[..|t| - 2];
    assert Sextets(data).None? by {
      assert CharSextet(data[|data| - 1]).None?;
    }
  }

  /** Otherwise the cut text decodes to the bytes without the last one. */
  lemma DroppedGroupDecodes(b: seq<byte>)
    requires |b| > 0 && |b| % 3 != 1
    ensures Atob(DroppedText(b)) == Some(b[..|b| - 1])
  {
    var vs := EncodeSextets(b);
    DecodeDropLast(b);
    AtobPadded(vs[..|vs| - 1]);
  }

  /** Alphabet characters padded to a multiple of four decode to their groups. */
  lemma AtobPadded(w: seq<nat>)
    requires AllSextets(w) && |w| % 4 != 1
    ensures Atob(PadBase64(Chars(w))) == Some(DecodeSextets(w))
  {
    var t := PadBase64(Chars(w));
    CharsAlphabet(w);
    forall i | 0 <= i < |t| ensures !IsAsciiWhitespace(t[i]) {
      if i < |w| {
        assert t[i] == Chars(w)[i];
      }
    }
    NoWhitespaceKept(t);
    StripPaddedChars(w);
    SextetsOfChars(w);
  }

  lemma StripPaddedChars(w: seq<nat>)
    requires AllSextets(w) && |w| % 4 != 1
    ensures StripPadding(PadBase64(Chars(w))) == Chars(w)
  {
    var c := Chars(w);
    var k := (4 - |c| % 4) % 4;
    PadCount(|c|);
    assert PadBase64(c) == c + Repeat('=', k);
    assert |c| > 0 ==> c[|c| - 1] != '=' by {
      CharsAlphabet(w);
    }
    if k == 0 {
      StripNoPadding(c);
    } else if k == 2 {
      StripTwo(c);
    } else {
      StripOne(c);
    }
  }

  /** How many `=` the padding loop appends to a text of length `n`. */
  lemma PadCount(n: nat)
    ensures n % 4 == 0 ==> (4 - n % 4) % 4 == 0
    ensures n % 4 == 2 ==> (4 - n % 4) % 4 == 2
    ensures n % 4 == 3 ==> (4 - n % 4) % 4 == 1
  {
  }

  lemma StripNoPadding(c: string)
    requires |c| % 4 == 0 && (|c| > 0 ==> c[|c| - 1] != '=')
    ensures StripPadding(c + Repeat('=', 0)) == c
  {
    assert c + Repeat('=', 0) == c;
  }

  lemma StripTwo(c: string)
    requires (|c| + 2) % 4 == 0
    ensures StripPadding(c + Repeat('=', 2)) == c
  {
    var t := c + Repeat('=', 2);
    assert t[|t| - 1] == '=' && t[|t| - 2] == '=';
    assert t[..|t| - 2] == c;
  }

  lemma StripOne(c: string)
    requires (|c| + 1) % 4 == 0 && |c| > 0 && c[|c| - 1] != '='
    ensures StripPadding(c + Repeat('=', 1)) == c
  {
    var t := c + Repeat('=', 1);
    assert t[|t| - 2] == c[|c| - 1];
    assert t[..|t| - 1] == c;
  }
}
