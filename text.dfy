/**
 * JavaScript's `String.prototype.split` for a one-character separator, and
 * indexing into its result array (an index past the end yields `undefined`).
 * The service uses it twice: `isoString.split('T')[0]` for today's date and
 * `dataUrl.split(',')[1]` for the base64 payload of a data URL.
 */
module Text {
  import opened Wrappers

  /** `s.split(c)`: the maximal runs of `s` between occurrences of `c`, left to right. */
  function Split(s: string, c: char): (parts: seq<string>)
    ensures |parts| >= 1
    ensures forall k :: 0 <= k < |parts| ==> c !in parts[k]
    decreases |s|
  {
    if s == [] then [[]]
    else
      var rest := Split(s[1..], c);
      if s[0] == c then [[]] + rest
      else [[s[0]] + rest[0]] + rest[1..]
  }

  /** `parts.join(c)`: the inverse of `Split`. */
  function Join(parts: seq<string>, c: char): string
    decreases |parts|
  {
    if parts == [] then []
    else if |parts| == 1 then parts[0]
    else parts[0] + [c] + Join(parts[1..], c)
  }

  /** `s.split(c)[i]`: `None` stands for JavaScript's `undefined`. */
  function Field(s: string, c: char, i: nat): (f: Option<string>)
    ensures f.Some? <==> i < |Split(s, c)|
    ensures f.Some? ==> c !in f.value
  {
    var parts := Split(s, c);
    if i < |parts| then Some(parts[i]) else None
  }

  /** A string without the separator splits into itself alone. */
  lemma {:induction false} SplitNoSeparator(s: string, c: char)
    requires c !in s
    ensures Split(s, c) == [s]
    decreases |s|
  {
    if s != [] {
      SplitNoSeparator(s[1..], c);
      assert [s[0]] + s[1..] == s;
    }
  }

  /** A separator-free prefix followed by the separator becomes the first part. */
  lemma {:induction false} SplitAfterPrefix(x: string, c: char, y: string)
    requires c !in x
    ensures Split(x + [c] + y, c) == [x] + Split(y, c)
    decreases |x|
  {
    var s := x + [c] + y;
    if x == [] {
      assert s[0] == c && s[1..] == y;
    } else {
      assert s[0] == x[0] && s[1..] == x[1..] + [c] + y;
      SplitAfterPrefix(x[1..], c, y);
      assert [x[0]] + x[1..] == x;
    }
  }

  /** Round trip one way: joining the parts of a split gives back the string. */
  lemma {:induction false} JoinSplit(s: string, c: char)
    ensures Join(Split(s, c), c) == s
    decreases |s|
  {
    if s != [] {
      JoinSplit(s[1..], c);
      var rest := Split(s[1..], c);
      if s[0] == c {
        assert Split(s, c) == [[]] + rest;
        assert ([[]] + rest)[1..] == rest;
        assert [s[0]] + s[1..] == s;
      } else {
        var parts := [[s[0]] + rest[0]] + rest[1..];
        assert Split(s, c) == parts;
        if |rest| == 1 {
          assert Join(rest, c) == rest[0];
          assert [s[0]] + s[1..] == s;
        } else {
          assert parts[1..] == rest[1..];
          assert Join(rest, c) == rest[0] + [c] + Join(rest[1..], c);
          assert Join(parts, c) == [s[0]] + rest[0] + [c] + Join(rest[1..], c);
          assert [s[0]] + s[1..] == s;
        }
      }
    }
  }

  /** Round trip the other way: separator-free parts are recovered by splitting their join. */
  lemma {:induction false} SplitJoin(parts: seq<string>, c: char)
    requires |parts| >= 1
    requires forall k :: 0 <= k < |parts| ==> c !in parts[k]
    ensures Split(Join(parts, c), c) == parts
    decreases |parts|
  {
    if |parts| == 1 {
      SplitNoSeparator(parts[0], c);
    } else {
      SplitJoin(parts[1..], c);
      SplitAfterPrefix(parts[0], c, Join(parts[1..], c));
      assert [parts[0]] + parts[1..] == parts;
    }
  }

  /** The first part is the longest separator-free prefix: it is the whole string or is followed by the separator. */
  lemma {:induction false} FirstPartIsPrefix(s: string, c: char)
    ensures var h := Split(s, c)[0];
      h <= s && c !in h && (|h| == |s| || s[|h|] == c)
    decreases |s|
  {
    if s != [] && s[0] != c {
      FirstPartIsPrefix(s[1..], c);
    }
  }

  /**
   * `url.split(',')[1]` is the segment between the first separator and the
   * next one (or the end); it is `undefined` exactly when there is no separator.
   */
  lemma SecondField(s: string, c: char, i: nat)
    requires i < |s| && s[i] == c && c !in s[..i]
    ensures Field(s, c, 1).Some?
    ensures var p := Field(s, c, 1).value;
      p <= s[i + 1..] && c !in p && (i + 1 + |p| == |s| || s[i + 1 + |p|] == c)
  {
    assert s == s[..i] + [c] + s[i + 1..];
    SplitAfterPrefix(s[..i], c, s[i + 1..]);
    FirstPartIsPrefix(s[i + 1..], c);
  }

  lemma {:induction false} NoSecondField(s: string, c: char)
    requires c !in s
    ensures Field(s, c, 0) == Some(s) && Field(s, c, 1) == None
  {
    SplitNoSeparator(s, c);
  }

  /** For `prefix,payload` with no further comma, the second field is exactly `payload`. */
  lemma {:induction false} PayloadOfDataUrl(prefix: string, c: char, payload: string)
    requires c !in prefix && c !in payload
    ensures Field(prefix + [c] + payload, c, 1) == Some(payload)
  {
    SplitAfterPrefix(prefix, c, payload);
    SplitNoSeparator(payload, c);
  }

  /** `s.split(c)[1]` is `undefined` exactly when `s` has no separator. */
  lemma SecondFieldDefined(s: string, c: char)
    ensures Field(s, c, 1).None? <==> c !in s
  {
    if c in s {
      var i :| 0 <= i < |s| && s[i] == c;
      SecondFieldFromAnySeparator(s, c, i);
    } else {
      NoSecondField(s, c);
    }
  }

  lemma SecondFieldFromAnySeparator(s: string, c: char, i: nat)
    requires i < |s| && s[i] == c
    ensures Field(s, c, 1).Some?
    decreases i
  {
    if c in s[..i] {
      var k :| 0 <= k < i && s[k] == c;
      SecondFieldFromAnySeparator(s, c, k);
    } else {
      SecondField(s, c, i);
    }
  }
}
