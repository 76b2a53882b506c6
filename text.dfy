/** The parts of the .NET base library the engine leans on, written out on `seq<char>`:
    char.IsWhiteSpace, string.Trim, string.Join, string.IsNullOrEmpty and
    IsNullOrWhiteSpace, int.TryParse, double.TryParse, Int32.ToString and ordinal
    string comparison. */
module Text {
  import opened Wrappers

  /** char.IsWhiteSpace: the Unicode space, line and paragraph separators, the controls
      U+0009..U+000D and U+0085. */
  predicate IsWhiteSpace(c: char) {
    ('\U{9}' <= c <= '\U{D}') || c == ' ' || c == '\U{85}' || c == '\U{A0}' || c == '\U{1680}'
    || ('\U{2000}' <= c <= '\U{200A}') || c == '\U{2028}' || c == '\U{2029}' || c == '\U{202F}'
    || c == '\U{205F}' || c == '\U{3000}'
  }

  /** The white space that .NET number parsing skips around a number. */
  predicate IsNumberWhite(c: char) {
    ('\U{9}' <= c <= '\U{D}') || c == ' '
  }

  predicate IsAsciiDigit(c: char) {
    '0' <= c <= '9'
  }

  /** The class `[a-zA-Z]`. */
  predicate IsAsciiLetter(c: char) {
    ('a' <= c <= 'z') || ('A' <= c <= 'Z')
  }

  predicate AllDigits(s: string) {
    forall i :: 0 <= i < |s| ==> IsAsciiDigit(s[i])
  }

  /** string.IsNullOrEmpty */
  predicate IsNullOrEmpty(s: Option<string>) {
    s.None? || s.value == ""
  }

  /** string.IsNullOrWhiteSpace */
  predicate IsNullOrWhiteSpace(s: Option<string>) {
    s.None? || forall i :: 0 <= i < |s.value| ==> IsWhiteSpace(s.value[i])
  }

  function DigitValue(c: char): nat
    requires IsAsciiDigit(c)
  {
    c as int - '0' as int
  }

  function DigitChar(d: nat): (c: char)
    requires d < 10
    ensures IsAsciiDigit(c) && DigitValue(c) == d
  {
    ('0' as int + d) as char
  }

  // ---------------------------------------------------------------------------
  // Trimming and joining

  /** Drops the leading characters that satisfy `drop`. */
  function TrimStartWhere(s: string, drop: char -> bool): (r: string)
    ensures |r| <= |s|
    ensures r != [] ==> r[0] == s[|s| - |r|]
    ensures forall i :: 0 <= i < |s| - |r| ==> drop(s[i])
    ensures r != [] ==> !drop(r[0])
    decreases |s|
  {
    if s != [] && drop(s[0]) then TrimStartWhere(s[1..], drop) else s
  }

  /** Drops the trailing characters that satisfy `drop`. */
  function TrimEndWhere(s: string, drop: char -> bool): (r: string)
    ensures |r| <= |s| && r == s[..|r|]
    ensures forall i :: |r| <= i < |s| ==> drop(s[i])
    ensures r != [] ==> !drop(r[|r| - 1])
    decreases |s|
  {
    if s != [] && drop(s[|s| - 1]) then TrimEndWhere(s[..|s| - 1], drop) else s
  }

  /** string.Trim(chars): drops the characters satisfying `drop` from both ends. The
      result is empty exactly when every character is dropped, and otherwise begins and
      ends with a kept character. */
  function TrimWhere(s: string, drop: char -> bool): (r: string)
    ensures r != [] ==> !drop(r[0]) && !drop(r[|r| - 1])
    ensures r == [] <==> forall i :: 0 <= i < |s| ==> drop(s[i])
    ensures |r| <= |s|
  {
    var t := TrimStartWhere(s, drop);
    var r := TrimEndWhere(t, drop);
    assert r == [] ==> t == [];
    r
  }

  /** string.Trim(): drops leading and trailing white space. */
  function Trim(s: string): string {
    TrimWhere(s, IsWhiteSpace)
  }

  /** Neither end of the text is white space, as after string.Trim(). */
  predicate Tidy(s: string) {
    s != [] ==> !IsWhiteSpace(s[0]) && !IsWhiteSpace(s[|s| - 1])
  }

  /** Trimming twice gives the same as trimming once. */
  lemma {:induction false} TrimWhereIdempotent(s: string, drop: char -> bool)
    ensures TrimWhere(TrimWhere(s, drop), drop) == TrimWhere(s, drop)
  {
    var r := TrimWhere(s, drop);
    if r != [] {
      assert TrimStartWhere(r, drop) == r;
      assert TrimEndWhere(r, drop) == r;
    }
  }

  /** string.Join(sep, parts). */
  function Join(sep: string, parts: seq<string>): (r: string)
    ensures |parts| == 1 ==> r == parts[0]
    decreases |parts|
  {
    if |parts| == 0 then ""
    else if |parts| == 1 then parts[0]
    else parts[0] + sep + Join(sep, parts[1..])
  }

  /** Where part k starts in Join(sep, parts): the parts before it, each followed by
      one separator. */
  function JoinOffset(sep: string, parts: seq<string>, k: nat): nat
    requires k <= |parts|
  {
    if k == 0 then 0 else JoinOffset(sep, parts, k - 1) + |parts[k - 1]| + |sep|
  }

  /** Dropping the first part moves every later offset back by that part and one
      separator. */
  lemma {:induction false} JoinOffsetOfTail(sep: string, parts: seq<string>, k: nat)
    requires k < |parts|
    ensures JoinOffset(sep, parts, k + 1) == |parts[0]| + |sep| + JoinOffset(sep, parts[1..], k)
  {
    if k > 0 {
      JoinOffsetOfTail(sep, parts, k - 1);
    }
  }

  /** `s` occurs in `r` starting at index `i`. */
  predicate OccursAt(s: string, r: string, i: nat) {
    i + |s| <= |r| && r[i..i + |s|] == s
  }

  /** Slicing past the first of two texts slices the second. */
  lemma SliceAfter(a: string, b: string, i: nat, j: nat)
    requires |a| <= i <= j <= |a| + |b|
    ensures (a + b)[i..j] == b[i - |a|..j - |a|]
  {
    assert forall n :: 0 <= n < j - i ==> (a + b)[i..j][n] == b[i - |a|..j - |a|][n];
  }

  /** Join(sep, parts) with at least two parts is the first part, a separator and the
      join of the rest. */
  lemma JoinOfTail(sep: string, parts: seq<string>)
    requires |parts| >= 2
    ensures Join(sep, parts) == parts[0] + sep + Join(sep, parts[1..])
    ensures |Join(sep, parts)| == |parts[0]| + |sep| + |Join(sep, parts[1..])|
  {
  }

  /** Part k sits at JoinOffset(sep, parts, k) in the joined text. */
  lemma {:induction false} JoinPartAt(sep: string, parts: seq<string>, k: nat)
    requires k < |parts|
    ensures OccursAt(parts[k], Join(sep, parts), JoinOffset(sep, parts, k))
    decreases k
  {
    if k > 0 {
      var tail := parts[1..];
      JoinOfTail(sep, parts);
      JoinPartAt(sep, tail, k - 1);
      JoinOffsetOfTail(sep, parts, k - 1);
      var o := JoinOffset(sep, tail, k - 1);
      SliceAfter(parts[0] + sep, Join(sep, tail), |parts[0]| + |sep| + o, |parts[0]| + |sep| + o + |tail[k - 1]|);
    } else if |parts| >= 2 {
      JoinOfTail(sep, parts);
    }
  }

  /** The separator follows part k, up to where part k + 1 starts. */
  lemma {:induction false} JoinSeparatorAfter(sep: string, parts: seq<string>, k: nat)
    requires k + 1 < |parts|
    ensures OccursAt(sep, Join(sep, parts), JoinOffset(sep, parts, k) + |parts[k]|)
    decreases k
  {
    var tail := parts[1..];
    JoinOfTail(sep, parts);
    if k > 0 {
      JoinSeparatorAfter(sep, tail, k - 1);
      JoinOffsetOfTail(sep, parts, k - 1);
      JoinOffsetOfTail(sep, parts, k);
      var h := |parts[0]| + |sep|;
      var o := JoinOffset(sep, tail, k - 1) + |tail[k - 1]|;
      SliceAfter(parts[0] + sep, Join(sep, tail), h + o, h + o + |sep|);
    }
  }

  /** The joined text is exactly the parts and the separators between them. */
  lemma {:induction false} JoinLength(sep: string, parts: seq<string>)
    requires parts != []
    ensures |Join(sep, parts)| + |sep| == JoinOffset(sep, parts, |parts|)
    decreases |parts|
  {
    if |parts| >= 2 {
      JoinOfTail(sep, parts);
      JoinLength(sep, parts[1..]);
      JoinOffsetOfTail(sep, parts, |parts| - 1);
    }
  }

  /** `r` is the parts laid out one after another, in their order, with exactly one
      separator between neighbours and nothing before, after or in between. */
  predicate LaidOut(r: string, sep: string, parts: seq<string>) {
    (parts == [] ==> r == [])
    && (parts != [] ==> |r| + |sep| == JoinOffset(sep, parts, |parts|))
    && (forall k :: 0 <= k < |parts| ==> OccursAt(parts[k], r, JoinOffset(sep, parts, k)))
    && (forall k :: 0 <= k < |parts| - 1 ==> OccursAt(sep, r, JoinOffset(sep, parts, k) + |parts[k]|))
  }

  /** string.Join lays the parts out with the separator between them. */
  lemma JoinPlacesParts(sep: string, parts: seq<string>)
    ensures LaidOut(Join(sep, parts), sep, parts)
  {
    if parts != [] {
      JoinLength(sep, parts);
    }
    forall k | 0 <= k < |parts| {
      JoinPartAt(sep, parts, k);
    }
    forall k | 0 <= k < |parts| - 1 {
      JoinSeparatorAfter(sep, parts, k);
    }
  }

  // ---------------------------------------------------------------------------
  // Numbers

  /** The value of a string of decimal digits, most significant first. */
  function DigitsValue(s: string): nat
    requires AllDigits(s)
    decreases |s|
  {
    if s == [] then 0 else DigitsValue(s[..|s| - 1]) * 10 + DigitValue(s[|s| - 1])
  }

  /** The value of the digits after a decimal point: "5" is 0.5, "25" is 0.25. */
  function FractionValue(s: string): (r: real)
    requires AllDigits(s)
    ensures 0.0 <= r < 1.0
    decreases |s|
  {
    if s == [] then 0.0 else (DigitValue(s[0]) as real + FractionValue(s[1..])) / 10.0
  }

  /** The position of the first `c` in `s`, if any. */
  function IndexOf(s: string, c: char): (r: Option<nat>)
    ensures r.Some? ==> r.value < |s| && s[r.value] == c && forall j :: 0 <= j < r.value ==> s[j] != c
    ensures r.None? ==> forall j :: 0 <= j < |s| ==> s[j] != c
    decreases |s|
  {
    if s == [] then None
    else if s[0] == c then Some(0)
    else match IndexOf(s[1..], c)
      case None => None
      case Some(k) => Some(k + 1)
  }

  /** An unsigned decimal number: digits with at most one decimal point and at least one
      digit ("12", "12.5", ".5" and "5." are numbers; "", "." and "1.2.3" are not). */
  function ParseUnsignedDecimal(s: string): (r: Option<real>)
    ensures r.Some? ==> r.value >= 0.0
  {
    match IndexOf(s, '.')
    case None =>
      if s != [] && AllDigits(s) then Some(DigitsValue(s) as real) else None
    case Some(k) =>
      if |s| > 1 && AllDigits(s[..k]) && AllDigits(s[k + 1..])
      then Some(DigitsValue(s[..k]) as real + FractionValue(s[k + 1..]))
      else None
  }

  /** double.TryParse under a culture whose decimal point is '.': optional white space,
      an optional sign, an unsigned decimal number, optional white space. The value is
      exact (no rounding to binary64). Only a leading minus sign makes it negative. */
  function ParseDouble(s: string): (r: Option<real>)
    ensures r.Some? && r.value < 0.0 ==> TrimWhere(s, IsNumberWhite) != [] && TrimWhere(s, IsNumberWhite)[0] == '-'
  {
    var t := TrimWhere(s, IsNumberWhite);
    if t != [] && (t[0] == '-' || t[0] == '+') then
      match ParseUnsignedDecimal(t[1..])
      case None => None
      case Some(v) => Some(if t[0] == '-' then -v else v)
    else ParseUnsignedDecimal(t)
  }

  const Int32Min: int := -0x8000_0000
  const Int32Max: int := 0x7FFF_FFFF

  /** A value of C#'s `int`. */
  type Int32 = i: int | Int32Min <= i <= Int32Max

  /** int.TryParse on a possibly null string: optional white space, an optional sign,
      decimal digits, optional white space, and a value within the 32-bit range. */
  function ParseInt32(s: Option<string>): (r: Option<int>)
    ensures r.Some? ==> Int32Min <= r.value <= Int32Max
  {
    if s.None? then None
    else
      var t := TrimWhere(s.value, IsNumberWhite);
      var signed := t != [] && (t[0] == '-' || t[0] == '+');
      var body := if signed then t[1..] else t;
      if body == [] || !AllDigits(body) then None
      else
        var v := if signed && t[0] == '-' then -(DigitsValue(body) as int) else DigitsValue(body) as int;
        if Int32Min <= v <= Int32Max then Some(v) else None
  }

  /** The decimal digits of `n`, without leading zeros. */
  function NatToString(n: nat): (r: string)
    ensures r != [] && AllDigits(r)
  {
    if n < 10 then [DigitChar(n)] else NatToString(n / 10) + [DigitChar(n % 10)]
  }

  /** Int32.ToString(): a '-' for negative values, then the digits. */
  function IntToString(i: int): string {
    if i < 0 then "-" + NatToString(-i) else NatToString(i)
  }

  /** Reading the digits of `n` back gives `n`. */
  lemma {:induction false} DigitsOfNat(n: nat)
    ensures DigitsValue(NatToString(n)) == n
  {
    var s := NatToString(n);
    if n >= 10 {
      DigitsOfNat(n / 10);
      assert s[..|s| - 1] == NatToString(n / 10);
    }
  }

  /** int.TryParse(i.ToString()) gives back `i` for every 32-bit `i`. */
  lemma IntToStringRoundTrip(i: int)
    requires Int32Min <= i <= Int32Max
    ensures ParseInt32(Some(IntToString(i))) == Some(i)
  {
    var s := IntToString(i);
    var ds := NatToString(if i < 0 then -i else i);
    DigitsOfNat(if i < 0 then -i else i);
    assert s[|s| - 1] == ds[|ds| - 1];
    NoNumberWhiteAtEnds(s);
    if i < 0 {
      assert s == "-" + ds && s[0] == '-';
      assert s[1..] == ds;
    } else {
      assert s == ds && IsAsciiDigit(s[0]);
    }
  }

  /** double.TryParse reads the digits of a whole number as that number. */
  lemma ParseWholeNumber(n: nat)
    ensures ParseDouble(NatToString(n)) == Some(n as real)
  {
    var s := NatToString(n);
    DigitsOfNat(n);
    NoNumberWhiteAtEnds(s);
    assert IndexOf(s, '.').None?;
  }

  /** A string that starts and ends with a character other than number white space is
      left alone by the trimming of number parsing. */
  lemma NoNumberWhiteAtEnds(s: string)
    requires s != [] && !IsNumberWhite(s[0]) && !IsNumberWhite(s[|s| - 1])
    ensures TrimWhere(s, IsNumberWhite) == s
  {
    assert TrimStartWhere(s, IsNumberWhite) == s;
    assert TrimEndWhere(s, IsNumberWhite) == s;
  }

  /** The first '.' of "<digits>.<rest>" is the one after the digits. */
  lemma {:induction false} IndexOfPointAfterDigits(w: string, rest: string)
    requires AllDigits(w)
    ensures IndexOf(w + "." + rest, '.') == Some(|w|)
    decreases |w|
  {
    if w != [] {
      IndexOfPointAfterDigits(w[1..], rest);
      assert (w + "." + rest)[1..] == w[1..] + "." + rest;
    }
  }

  /** "<digits>.<digits>" is an unsigned decimal number with those integer and fraction
      parts. */
  lemma UnsignedWithPoint(w: string, ds: string)
    requires w != [] && AllDigits(w) && AllDigits(ds)
    ensures ParseUnsignedDecimal(w + "." + ds) == Some(DigitsValue(w) as real + FractionValue(ds))
  {
    var s := w + "." + ds;
    IndexOfPointAfterDigits(w, ds);
    assert s[..|w|] == w;
    assert s[|w| + 1..] == ds;
  }

  /** A number that starts with a digit and carries no surrounding white space has no
      sign to read: double.TryParse reads it as an unsigned decimal. */
  lemma ParseUnsignedNoSign(s: string)
    requires s != [] && IsAsciiDigit(s[0]) && TrimWhere(s, IsNumberWhite) == s
    ensures ParseDouble(s) == ParseUnsignedDecimal(s)
  {
  }

  /** "<n>.<ds>" carries no sign and no surrounding white space. */
  lemma FractionalHasNoSign(n: nat, ds: string)
    requires AllDigits(ds)
    ensures ParseDouble(NatToString(n) + "." + ds) == ParseUnsignedDecimal(NatToString(n) + "." + ds)
  {
    var w := NatToString(n);
    var s := w + "." + ds;
    assert s[0] == w[0];
    assert s[|s| - 1] == if ds == [] then '.' else ds[|ds| - 1];
    NoNumberWhiteAtEnds(s);
    ParseUnsignedNoSign(s);
  }

  /** "<n>.<ds>" is the unsigned decimal n + 0.<ds>. */
  lemma FractionalValue(n: nat, ds: string)
    requires AllDigits(ds)
    ensures ParseUnsignedDecimal(NatToString(n) + "." + ds) == Some(n as real + FractionValue(ds))
  {
    DigitsOfNat(n);
    UnsignedWithPoint(NatToString(n), ds);
  }

  /** double.TryParse keeps the fractional part: "<n>.<ds>" reads as n + 0.<ds>. */
  lemma ParseFractionalNumber(n: nat, ds: string)
    requires AllDigits(ds)
    ensures ParseDouble(NatToString(n) + "." + ds) == Some(n as real + FractionValue(ds))
  {
    FractionalHasNoSign(n, ds);
    FractionalValue(n, ds);
  }

  // ---------------------------------------------------------------------------
  // Ordinal comparison

  /** string.Compare(a, b, StringComparison.Ordinal) < 0: character by character, a
      proper prefix coming first. No string is less than itself. */
  predicate OrdinalLess(a: string, b: string)
    ensures OrdinalLess(a, b) ==> a != b
    decreases |a|
  {
    if a == [] then b != []
    else if b == [] then false
    else if a[0] != b[0] then a[0] < b[0]
    else OrdinalLess(a[1..], b[1..])
  }

  /** Ordinal order is a strict order: never both ways round. */
  lemma {:induction false} OrdinalLessAsymmetric(a: string, b: string)
    ensures !(OrdinalLess(a, b) && OrdinalLess(b, a))
    decreases |a|
  {
    if a != [] && b != [] && a[0] == b[0] {
      OrdinalLessAsymmetric(a[1..], b[1..]);
    }
  }
}
