/** Small value types shared by every component of the channel visualizer model. */
module Common {

  /** A value that may be missing: `None` stands for JavaScript's NaN or `undefined`. */
  datatype Option<+T> = None | Some(value: T)

  /** The outcome of an operation that reports a recoverable error instead of a value. */
  datatype Result<+T, +E> = Success(value: T) | Failure(error: E)

  /** One element of a `Uint8Array`. */
  type byte = x: int | 0 <= x < 256

  /** Joins the strings of `parts` with `sep` between neighbours, as `Array.prototype.join` does. */
  function Join(parts: seq<string>, sep: string): (r: string)
    ensures |parts| == 0 ==> r == ""
    ensures |parts| == 1 ==> r == parts[0]
    decreases |parts|
  {
    if |parts| == 0 then ""
    else if |parts| == 1 then parts[0]
    else Join(parts[..|parts| - 1], sep) + sep + parts[|parts| - 1]
  }

  lemma {:induction false} JoinSnoc(parts: seq<string>, sep: string, last: string)
    requires |parts| > 0
    ensures Join(parts + [last], sep) == Join(parts, sep) + sep + last
  {
    assert (parts + [last])[..|parts|] == parts;
  }

  /** Every character of a joined string comes from the separator or from one of the parts. */
  lemma {:induction false} JoinChars(parts: seq<string>, sep: string, c: char)
    requires c in Join(parts, sep)
    ensures c in sep || exists i :: 0 <= i < |parts| && c in parts[i]
    decreases |parts|
  {
    if |parts| > 1 {
      var init := parts[..|parts| - 1];
      if c in Join(init, sep) && c !in sep {
        JoinChars(init, sep, c);
        var i :| 0 <= i < |init| && c in init[i];
        assert parts[i] == init[i];
      }
    }
  }
}
