/** The ordering key of detector image names in pilroi/data.py: `image_paths` sorts the
    `.raw` names it finds by `int(x[-8:-4])`, the four digits before the extension, and
    `pdi_paths` sorts the `.raw.pdi` names with the same key. The directory listing
    itself is not part of this model; names enter as strings. */
module FrameNames {
  import opened Wrappers

  /** `s[-a:-b]` for `a >= b >= 1`, clipped at the start of `s` as Python clips it. */
  function TailSlice(s: string, a: nat, b: nat): (t: string)
    requires 1 <= b <= a
    ensures |s| >= a ==> t == s[|s| - a..|s| - b]
    ensures |t| <= a - b
  {
    var lo := if |s| >= a then |s| - a else 0;
    var hi := if |s| >= b then |s| - b else 0;
    s[lo..hi]
  }

  /** The ASCII whitespace `int()` strips: space, tab, line feed, vertical tab, form feed,
      carriage return and the four separators 0x1C..0x1F. */
  predicate IsSpace(ch: char)
  {
    ch == ' ' || '\t' <= ch <= '\r' || '\U{1C}' <= ch <= '\U{1F}'
  }

  predicate IsDigit(ch: char)
  {
    '0' <= ch <= '9'
  }

  predicate AllDigits(s: string)
  {
    forall i :: 0 <= i < |s| ==> IsDigit(s[i])
  }

  function StripLeft(s: string): (t: string)
    ensures |t| <= |s|
    ensures |s| > 0 && !IsSpace(s[0]) ==> t == s
  {
    if |s| > 0 && IsSpace(s[0]) then StripLeft(s[1..]) else s
  }

  function StripRight(s: string): (t: string)
    ensures |t| <= |s|
    ensures |s| > 0 && !IsSpace(s[|s| - 1]) ==> t == s
  {
    if |s| > 0 && IsSpace(s[|s| - 1]) then StripRight(s[..|s| - 1]) else s
  }

  function Pow10(n: nat): (p: nat)
    ensures p >= 1
  {
    if n == 0 then 1 else 10 * Pow10(n - 1)
  }

  lemma {:induction false} Pow10Grows(m: nat, n: nat)
    requires m <= n
    ensures Pow10(m) <= Pow10(n)
  {
    if m < n {
      Pow10Grows(m, n - 1);
    }
  }

  /** A string of k decimal digits denotes a number below 10^k. */
  lemma {:induction false} DigitsValueBound(s: string)
    requires AllDigits(s)
    ensures DigitsValue(s) < Pow10(|s|)
  {
    if s != [] {
      DigitsValueBound(s[..|s| - 1]);
    }
  }

  /** The number a string of decimal digits denotes. */
  function DigitsValue(s: string): nat
    requires AllDigits(s)
  {
    if s == [] then 0 else DigitsValue(s[..|s| - 1]) * 10 + (s[|s| - 1] as int - '0' as int)
  }

  /** `int(t)` on a string: surrounding whitespace, an optional sign, then one or more
      decimal digits; anything else raises ValueError (None here). */
  function ParseInt(t: string): (r: Option<int>)
    ensures |t| > 0 && AllDigits(t) ==> r == Some(DigitsValue(t))
    ensures r.Some? ==> -(Pow10(|t|) as int) < r.value < Pow10(|t|)
  {
    var u := StripRight(StripLeft(t));
    if |u| > 0 && (u[0] == '+' || u[0] == '-') then
      var body := u[1..];
      if |body| > 0 && AllDigits(body) then
        DigitsValueBound(body);
        Pow10Grows(|body|, |t|);
        Some(if u[0] == '-' then -(DigitsValue(body) as int) else DigitsValue(body))
      else None
    else if |u| > 0 && AllDigits(u) then
      DigitsValueBound(u);
      Pow10Grows(|u|, |t|);
      Some(DigitsValue(u))
    else None
  }

  /** The sort key `int(x[-8:-4])` of `image_paths` and `pdi_paths`: four digits in front of
      the last four characters give their value; any key has at most four digits. */
  function SortKey(name: string): (key: Option<int>)
    ensures |name| >= 8 && AllDigits(name[|name| - 8..|name| - 4]) ==>
              key == Some(DigitsValue(name[|name| - 8..|name| - 4]))
    ensures key.Some? ==> -10000 < key.value < 10000
  {
    var t := TailSlice(name, 8, 4);
    Pow10Grows(|t|, 4);
    ParseInt(t)
  }

  /** The sort key the `.raw.pdi` names call for: the four characters before ".raw.pdi". */
  function PdiSortKey(name: string): Option<int>
  {
    ParseInt(TailSlice(name, 12, 8))
  }

  function DigitChar(d: nat): (ch: char)
    requires d < 10
    ensures IsDigit(ch) && ch as int - '0' as int == d
  {
    ('0' as int + d) as char
  }

  /** The frame number as it appears in a detector file name: four digits, zero-padded. */
  function FourDigits(n: nat): (s: string)
    requires n < 10000
    ensures |s| == 4 && AllDigits(s)
  {
    [DigitChar(n / 1000), DigitChar(n / 100 % 10), DigitChar(n / 10 % 10), DigitChar(n % 10)]
  }

  /** Four digits read back give the frame number. */
  lemma FourDigitsParse(n: nat)
    requires n < 10000
    ensures ParseInt(FourDigits(n)) == Some(n)
  {
    var s := FourDigits(n);
    assert StripLeft(s) == s;
    assert StripRight(s) == s;
    assert s[..1][..0] == [] && s[..2][..1] == s[..1] && s[..3][..2] == s[..2] && s[..3] == s[..|s| - 1];
    var q1, q2, q3 := n / 10, n / 100, n / 1000;
    assert q2 == q1 / 10 && q3 == q2 / 10;
    assert DigitsValue(s[..1]) == q3;
    assert DigitsValue(s[..2]) == q3 * 10 + q2 % 10 == q2;
    assert DigitsValue(s[..3]) == q2 * 10 + q1 % 10 == q1;
    assert DigitsValue(s) == q1 * 10 + n % 10 == n;
  }

  /** A name "<prefix>####.raw" sorts by its frame number ####. */
  lemma RawNameKey(prefix: string, n: nat)
    requires n < 10000
    ensures SortKey(prefix + FourDigits(n) + ".raw") == Some(n)
  {
    var name := prefix + FourDigits(n) + ".raw";
    assert TailSlice(name, 8, 4) == FourDigits(n);
    FourDigitsParse(n);
  }

  /** As written, a name "<prefix>####.raw.pdi" has ".raw" at positions -8..-4, which
      `int()` rejects: sorting a listing that holds such a name raises ValueError. */
  lemma PdiNameKeyFails(prefix: string, n: nat)
    requires n < 10000
    ensures SortKey(prefix + FourDigits(n) + ".raw.pdi") == None
  {
    var name := prefix + FourDigits(n) + ".raw.pdi";
    var t := TailSlice(name, 8, 4);
    assert t == ".raw";
    assert StripRight(StripLeft(t)) == t;
  }

  /** The corrected key recovers the frame number of a "<prefix>####.raw.pdi" name. */
  lemma PdiNameKey(prefix: string, n: nat)
    requires n < 10000
    ensures PdiSortKey(prefix + FourDigits(n) + ".raw.pdi") == Some(n)
  {
    var name := prefix + FourDigits(n) + ".raw.pdi";
    assert TailSlice(name, 12, 8) == FourDigits(n);
    FourDigitsParse(n);
  }
}
