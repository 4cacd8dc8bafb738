/** The string operations the health checks and the response rendering rely on,
    with Python's meaning: `str.strip()`, `str.join()` and `str()` of a
    non-negative integer, and the parser that reads such a number back. */
module Text {
  import opened Options

  /** Python's `str.isspace()` restricted to ASCII: tab, line feed, vertical
      tab, form feed, carriage return, the separators 0x1C-0x1F, and space. */
  predicate IsSpace(c: char) {
    c == ' ' || 9 <= c as int <= 13 || 0x1C <= c as int <= 0x1F
  }

  /** Every character of `s` is white space; true of the empty string. */
  predicate IsBlank(s: string) {
    forall i :: 0 <= i < |s| ==> IsSpace(s[i])
  }

  /** Where `s.lstrip()` starts: the first index at or after `i` that holds
      no white space, or `|s|`. */
  function SkipSpace(s: string, i: nat): (j: nat)
    requires i <= |s|
    ensures i <= j <= |s|
    ensures forall k :: i <= k < j ==> IsSpace(s[k])
    ensures j < |s| ==> !IsSpace(s[j])
    decreases |s| - i
  {
    if i < |s| && IsSpace(s[i]) then SkipSpace(s, i + 1) else i
  }

  /** Where `s.rstrip()` ends: the last index at or before `j` that follows
      a character other than white space, or 0. */
  function SkipSpaceBack(s: string, j: nat): (i: nat)
    requires j <= |s|
    ensures i <= j
    ensures forall k :: i <= k < j ==> IsSpace(s[k])
    ensures i > 0 ==> !IsSpace(s[i - 1])
  {
    if j > 0 && IsSpace(s[j - 1]) then SkipSpaceBack(s, j - 1) else j
  }

  /** `s.strip()`: empty exactly when `s` is all white space. */
  function Strip(s: string): (r: string)
    ensures r == "" <==> IsBlank(s)
  {
    var start := SkipSpace(s, 0);
    var end := SkipSpaceBack(s, |s|);
    if start < end then s[start..end] else ""
  }

  /** What `strip()` keeps of a text that is not blank: a slice that neither
      starts nor ends with white space, with only white space cut off on
      either side. */
  lemma StripTrims(s: string)
    requires !IsBlank(s)
    ensures var r := Strip(s);
      exists a, b :: 0 <= a < b <= |s| && r == s[a..b] && IsBlank(s[..a]) && IsBlank(s[b..])
                     && !IsSpace(s[a]) && !IsSpace(s[b - 1])
  {
    var a := SkipSpace(s, 0);
    var b := SkipSpaceBack(s, |s|);
    assert IsBlank(s[..a]) && IsBlank(s[b..]);
  }

  /** `sep.join(xs)`. */
  function Join(sep: string, xs: seq<string>): string
  {
    if |xs| == 0 then ""
    else if |xs| == 1 then xs[0]
    else xs[0] + sep + Join(sep, xs[1..])
  }

  /** The sum of the lengths of `xs`. */
  function TotalLength(xs: seq<string>): nat
  {
    if xs == [] then 0 else |xs[0]| + TotalLength(xs[1..])
  }

  /** Where the `i`-th piece starts in `Join(sep, xs)`: after the pieces
      before it and one separator each. */
  function PieceOffset(sep: string, xs: seq<string>, i: nat): nat
    requires i <= |xs|
  {
    TotalLength(xs[..i]) + i * |sep|
  }

  /** The joined text is every piece plus one separator between each pair. */
  lemma {:induction false} JoinLength(sep: string, xs: seq<string>)
    requires xs != []
    ensures |Join(sep, xs)| == TotalLength(xs) + (|xs| - 1) * |sep|
  {
    if |xs| > 1 {
      JoinLength(sep, xs[1..]);
      assert (|xs| - 1) * |sep| == (|xs| - 2) * |sep| + |sep|;
    }
  }

  /** Each piece appears, unchanged, at its offset in the joined text. */
  lemma {:induction false} JoinPiece(sep: string, xs: seq<string>, i: nat)
    requires i < |xs|
    ensures PieceOffset(sep, xs, i) + |xs[i]| <= |Join(sep, xs)|
    ensures Join(sep, xs)[PieceOffset(sep, xs, i)..PieceOffset(sep, xs, i) + |xs[i]|] == xs[i]
  {
    var j := Join(sep, xs);
    if i == 0 {
      assert xs[..0] == [];
      if |xs| > 1 {
        assert j == xs[0] + (sep + Join(sep, xs[1..]));
      }
    } else {
      var tail := Join(sep, xs[1..]);
      JoinPiece(sep, xs[1..], i - 1);
      assert xs[1..][i - 1] == xs[i];
      assert xs[..i] == [xs[0]] + xs[1..][..i - 1];
      assert TotalLength(xs[..i]) == |xs[0]| + TotalLength(xs[1..][..i - 1]);
      assert i * |sep| == (i - 1) * |sep| + |sep|;
      assert PieceOffset(sep, xs, i) == |xs[0]| + |sep| + PieceOffset(sep, xs[1..], i - 1);
      assert j == xs[0] + sep + tail;
    }
  }

  /** Past the first piece, offsets are those in the tail moved on by the
      first piece and one separator. */
  lemma PieceOffsetTail(sep: string, xs: seq<string>, i: nat)
    requires 0 < i <= |xs|
    ensures PieceOffset(sep, xs, i) == |xs[0]| + |sep| + PieceOffset(sep, xs[1..], i - 1)
  {
    assert xs[..i] == [xs[0]] + xs[1..][..i - 1];
    assert TotalLength(xs[..i]) == |xs[0]| + TotalLength(xs[1..][..i - 1]);
    assert i * |sep| == (i - 1) * |sep| + |sep|;
  }

  /** Between each piece and the next lies exactly one separator. */
  lemma {:induction false} JoinSeparator(sep: string, xs: seq<string>, i: nat)
    requires i + 1 < |xs|
    ensures PieceOffset(sep, xs, i) + |xs[i]| + |sep| == PieceOffset(sep, xs, i + 1) <= |Join(sep, xs)|
    ensures Join(sep, xs)[PieceOffset(sep, xs, i) + |xs[i]|..PieceOffset(sep, xs, i + 1)] == sep
  {
    var j := Join(sep, xs);
    var tail := Join(sep, xs[1..]);
    assert j == xs[0] + sep + tail;
    PieceOffsetTail(sep, xs, i + 1);
    if i == 0 {
      assert xs[..0] == [] && xs[..1] == [xs[0]];
      assert j[|xs[0]|..|xs[0]| + |sep|] == sep;
    } else {
      PieceOffsetTail(sep, xs, i);
      JoinSeparator(sep, xs[1..], i - 1);
      assert xs[1..][i - 1] == xs[i];
      var lo := PieceOffset(sep, xs[1..], i - 1) + |xs[i]|;
      var hi := PieceOffset(sep, xs[1..], i);
      var shift := |xs[0] + sep|;
      assert lo <= hi <= |tail|;
      assert j[shift..] == tail;
      assert j[shift + lo..shift + hi] == j[shift..][lo..hi];
    }
  }

  predicate IsDigit(c: char) {
    '0' <= c <= '9'
  }

  predicate AllDigits(s: string) {
    forall i :: 0 <= i < |s| ==> IsDigit(s[i])
  }

  function DigitChar(d: nat): (c: char)
    requires d < 10
    ensures IsDigit(c) && c as int - '0' as int == d
  {
    (d + '0' as int) as char
  }

  /** `str(n)` for a non-negative integer: decimal digits, no sign, and no
      leading zero except in "0" itself. */
  function Decimal(n: nat): (r: string)
    ensures r != [] && AllDigits(r)
    ensures r[0] == '0' ==> r == "0"
  {
    if n < 10 then [DigitChar(n)] else Decimal(n / 10) + [DigitChar(n % 10)]
  }

  /** The number a string of decimal digits denotes. */
  function DigitsValue(s: string): nat
    requires AllDigits(s)
  {
    if s == [] then 0
    else DigitsValue(s[..|s| - 1]) * 10 + (s[|s| - 1] as int - '0' as int)
  }

  /** Reads a decimal number as a header consumer would; None unless the text
      is one or more digits. */
  function ParseDecimal(s: string): Option<nat>
  {
    if s != [] && AllDigits(s) then Some(DigitsValue(s)) else None
  }

  /** Reading back `str(n)` gives `n`. */
  lemma {:induction false} ParseDecimalOfDecimal(n: nat)
    ensures ParseDecimal(Decimal(n)) == Some(n)
  {
    var d := Decimal(n);
    if n < 10 {
      assert d[..|d| - 1] == [];
    } else {
      ParseDecimalOfDecimal(n / 10);
      assert d[..|d| - 1] == Decimal(n / 10);
      assert d[|d| - 1] == DigitChar(n % 10);
      assert DigitsValue(d) == (n / 10) * 10 + n % 10;
    }
  }

  lemma {:induction false} ZeroValueIsZeros(s: string)
    requires AllDigits(s) && DigitsValue(s) == 0
    ensures forall i :: 0 <= i < |s| ==> s[i] == '0'
  {
    if s != [] {
      ZeroValueIsZeros(s[..|s| - 1]);
      assert forall i :: 0 <= i < |s| - 1 ==> s[..|s| - 1][i] == s[i];
    }
  }

  /** And the other way round: a digit string without a superfluous leading
      zero is `str()` of its value, so the rendering is the only one. */
  lemma {:induction false} DecimalOfParse(s: string)
    requires ParseDecimal(s).Some?
    requires s[0] == '0' ==> s == "0"
    ensures Decimal(ParseDecimal(s).value) == s
  {
    var p := s[..|s| - 1];
    var d := s[|s| - 1] as int - '0' as int;
    if p == [] {
      assert s == [s[0]];
      assert DigitsValue(s) == s[0] as int - '0' as int;
    } else {
      assert AllDigits(p);
      if DigitsValue(p) == 0 {
        ZeroValueIsZeros(p);
        assert false;
      }
      var n := DigitsValue(s);
      assert n == DigitsValue(p) * 10 + d;
      assert n / 10 == DigitsValue(p) && n % 10 == d;
      assert p[0] == s[0];
      DecimalOfParse(p);
      assert s == p + [s[|s| - 1]];
    }
  }
}
