/**
 * `Date.prototype.toISOString` and the service's "today" string,
 * `new Date().toISOString().split('T')[0]`. The instant is given in UTC,
 * which is what `toISOString` renders.
 */
module IsoTime {
  import opened Dates
  import opened Text

  datatype Instant = Instant(date: Date, hour: nat, minute: nat, second: nat, millis: nat)

  predicate IsDigit(ch: char)
  {
    '0' <= ch <= '9'
  }

  predicate AllDigits(s: string)
  {
    forall k :: 0 <= k < |s| ==> IsDigit(s[k])
  }

  function Pow10(w: nat): (p: nat)
    ensures p >= 1
  {
    if w == 0 then 1 else 10 * Pow10(w - 1)
  }

  function DigitChar(d: nat): (ch: char)
    requires d < 10
    ensures IsDigit(ch) && DigitValue(ch) == d
  {
    ('0' as int + d) as char
  }

  function DigitValue(ch: char): int
  {
    ch as int - '0' as int
  }

  /** The number a string of decimal digits denotes, most significant digit first. */
  function Value(s: string): int
  {
    if s == [] then 0 else 10 * Value(s[..|s| - 1]) + DigitValue(s[|s| - 1])
  }

  /** Decimal digits of `n`, most significant first, without leading zeros. */
  function Digits(n: nat): (s: string)
    ensures |s| >= 1 && AllDigits(s)
    ensures Value(s) == n
  {
    if n < 10 then
      assert [DigitChar(n)][..0] == [];
      [DigitChar(n)]
    else
      var s := Digits(n / 10) + [DigitChar(n % 10)];
      assert s[..|s| - 1] == Digits(n / 10);
      s
  }

  /** Leading zeros do not change the number a digit string denotes. */
  lemma {:induction false} ValueAfterZeros(k: nat, d: string)
    ensures Value(Zeros(k) + d) == Value(d)
    decreases |d|
  {
    if d == [] {
      assert Zeros(k) + d == Zeros(k);
      ValueOfZeros(Zeros(k));
    } else {
      var front := d[..|d| - 1];
      assert (Zeros(k) + d)[..|Zeros(k) + d| - 1] == Zeros(k) + front;
      ValueAfterZeros(k, front);
    }
  }

  lemma {:induction false} ValueOfZeros(z: string)
    requires forall i :: 0 <= i < |z| ==> z[i] == '0'
    ensures Value(z) == 0
    decreases |z|
  {
    if z != [] {
      ValueOfZeros(z[..|z| - 1]);
    }
  }

  function Zeros(k: nat): (s: string)
    ensures |s| == k && AllDigits(s)
    ensures forall i :: 0 <= i < k ==> s[i] == '0'
  {
    if k == 0 then [] else "0" + Zeros(k - 1)
  }

  /** `n` in decimal, left-padded with zeros to at least `w` characters. */
  function Pad(n: nat, w: nat): (s: string)
    ensures |s| >= w && AllDigits(s)
    ensures Value(s) == n
  {
    var d := Digits(n);
    if |d| >= w then d
    else
      ValueAfterZeros(w - |d|, d);
      Zeros(w - |d|) + d
  }

  /** A number below 10^w has at most w digits. */
  lemma {:induction false} DigitsFit(n: nat, w: nat)
    requires 1 <= w && n < Pow10(w)
    ensures |Digits(n)| <= w
  {
    if n >= 10 {
      DigitsFit(n / 10, w - 1);
    }
  }

  lemma PadExact(n: nat, w: nat)
    requires 1 <= w && n < Pow10(w)
    ensures |Pad(n, w)| == w
  {
    DigitsFit(n, w);
  }

  /** The year as `toISOString` writes it: four digits in 0..9999, otherwise a sign and six digits. */
  function YearText(y: int): (s: string)
    ensures 'T' !in s
  {
    if 0 <= y <= 9999 then Pad(y, 4)
    else (if y < 0 then "-" else "+") + Pad(if y < 0 then -y else y, 6)
  }

  /** `YYYY-MM-DD`: the date part of an ISO timestamp. */
  function DateText(d: Date): (s: string)
    ensures 'T' !in s
  {
    YearText(d.year) + "-" + Pad(d.month, 2) + "-" + Pad(d.day, 2)
  }

  /** `toISOString()`: `YYYY-MM-DDTHH:mm:ss.sssZ`. */
  function IsoString(t: Instant): (s: string)
    ensures var d := DateText(t.date);
      |s| > |d| && s[..|d|] == d && s[|d|] == 'T' && s[|s| - 1] == 'Z'
  {
    DateText(t.date) + "T" + Pad(t.hour, 2) + ":" + Pad(t.minute, 2) + ":" + Pad(t.second, 2)
      + "." + Pad(t.millis, 3) + "Z"
  }

  /** `new Date().toISOString().split('T')[0]`. */
  function Today(now: Instant): (s: string)
    ensures s == DateText(now.date)
  {
    var iso := IsoString(now);
    TodayOf(iso, DateText(now.date));
    Split(iso, 'T')[0]
  }

  /** Any timestamp that starts with a `T`-free date followed by `T` has that date as its first field. */
  lemma TodayOf(iso: string, d: string)
    requires 'T' !in d && |iso| > |d| && iso[..|d|] == d && iso[|d|] == 'T'
    ensures Split(iso, 'T')[0] == d
  {
    assert iso == d + ['T'] + iso[|d| + 1..];
    SplitAfterPrefix(d, 'T', iso[|d| + 1..]);
  }

  /** For a four-digit year the date is `YYYY-MM-DD`: ten characters, dashes at 4 and 7, digits elsewhere. */
  lemma DateTextShape(d: Date)
    requires 0 <= d.year <= 9999
    ensures var s := DateText(d);
      |s| == 10 && s[4] == '-' && s[7] == '-'
      && AllDigits(s[..4]) && AllDigits(s[5..7]) && AllDigits(s[8..])
  {
    var y, m, dd := Pad(d.year, 4), Pad(d.month, 2), Pad(d.day, 2);
    PadExact(d.year, 4);
    PadExact(d.month, 2);
    PadExact(d.day, 2);
    var s := y + "-" + m + "-" + dd;
    assert DateText(d) == s;
    assert s[..4] == y;
    assert s[5..7] == m;
    assert s[8..] == dd;
  }
}
