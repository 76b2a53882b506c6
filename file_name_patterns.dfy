/** The regular expressions of BasicEpisodeParser, each written out as a matcher over
    `seq<char>`. .NET's backtracking matcher is reproduced pattern by pattern: the
    leftmost match wins, greedy quantifiers take as much as they can and give back only
    what the rest of the pattern needs. `\d` is taken to be the ASCII digits and
    RegexOptions.IgnoreCase to fold ASCII letters only. */
module FileNamePatterns {
  import opened Wrappers
  import opened Text

  // ---------------------------------------------------------------------------
  // Characters and runs

  /** ASCII case folding, which is what RegexOptions.IgnoreCase does to the letters the
      patterns mention. */
  function FoldCase(c: char): char {
    if 'A' <= c <= 'Z' then (c as int + 32) as char else c
  }

  predicate CharMatches(c: char, lit: char, ignoreCase: bool) {
    if ignoreCase then FoldCase(c) == FoldCase(lit) else c == lit
  }

  /** The literal `lit` occurs in `s` at position `i`. */
  predicate LiteralAt(s: string, i: nat, lit: string, ignoreCase: bool) {
    i + |lit| <= |s| && forall k :: 0 <= k < |lit| ==> CharMatches(s[i + k], lit[k], ignoreCase)
  }

  /** The class `[\d\.]`. */
  predicate IsNumberChar(c: char) {
    IsAsciiDigit(c) || c == '.'
  }

  /** The class `[0-9A-F]` under IgnoreCase. */
  predicate IsHexDigit(c: char) {
    IsAsciiDigit(c) || ('a' <= c <= 'f') || ('A' <= c <= 'F')
  }

  /** The class `[4|2|0]`. */
  predicate IsChromaChar(c: char) {
    c == '4' || c == '|' || c == '2' || c == '0'
  }

  /** Characters beyond ASCII that are punctuation, symbols or spaces: the Latin-1
      punctuation, the General Punctuation block, the CJK punctuation block and the
      full-width ASCII punctuation, less the letters and connectors among them. */
  predicate IsNonAsciiPunctuation(c: char) {
    ('\U{80}' <= c <= '\U{BF}' && c != '\U{AA}' && c != '\U{B5}' && c != '\U{BA}')
    || c == '\U{D7}' || c == '\U{F7}'
    || ('\U{2000}' <= c <= '\U{206F}' && c != '\U{203F}' && c != '\U{2040}' && c != '\U{2054}')
    || ('\U{3000}' <= c <= '\U{303F}' && c != '\U{3005}' && c != '\U{3006}'
        && !('\U{3031}' <= c <= '\U{3035}') && c != '\U{303B}' && c != '\U{303C}')
    || ('\U{FF01}' <= c <= '\U{FF0F}') || ('\U{FF1A}' <= c <= '\U{FF20}')
    || ('\U{FF3B}' <= c <= '\U{FF40}' && c != '\U{FF3F}') || ('\U{FF5B}' <= c <= '\U{FF65}')
  }

  /** `\w`: letters, decimal digits and connector punctuation. ASCII is classified
      exactly; beyond ASCII, everything but the punctuation blocks above counts as a
      word character (CJK ideographs and kana, the usual case in file names, do). */
  predicate IsWordChar(c: char) {
    IsAsciiLetter(c) || IsAsciiDigit(c) || c == '_' || (c > '\U{7F}' && !IsNonAsciiPunctuation(c))
  }

  /** The number of characters satisfying `p` from position `i` on: how far a greedy
      `p*` reaches. */
  function RunLength(s: string, i: nat, p: char -> bool): (n: nat)
    requires i <= |s|
    ensures i + n <= |s|
    ensures forall k :: i <= k < i + n ==> p(s[k])
    ensures i + n < |s| ==> !p(s[i + n])
    decreases |s| - i
  {
    if i < |s| && p(s[i]) then 1 + RunLength(s, i + 1, p) else 0
  }

  function Min(a: nat, b: nat): nat {
    if a <= b then a else b
  }

  // ---------------------------------------------------------------------------
  // Noise tokens (NonEpisodeFileNameRegex)

  /** The noise patterns, in table order. */
  datatype NoisePattern =
    | CrcTag        // [\[\(][0-9A-F]{8}[\]\)]                      IgnoreCase
    | SeasonTag     // S\d{2,}                                     IgnoreCase
    | ChromaTag     // yuv[4|2|0]{3}p(10|8)?                       IgnoreCase
    | Resolution    // \d{3,4}p                                    IgnoreCase
    | FrameSize     // \d{3,4}x\d{3,4}                             IgnoreCase
    | ProfileTag    // (Hi)?10p                                    IgnoreCase
    | BitDepth      // (8|10)bit                                   IgnoreCase
    | VideoCodec    // (x|h)(264|265)                              IgnoreCase
    | DateTag       // \[\d{2}(0[1-9]|1[0-2])(0[1-9]|1[0-9]|2[0-9]|3[0-1])]
    | VersionTag    // (?<=[^P])V\d+

  const NoisePatterns: seq<NoisePattern> :=
    [CrcTag, SeasonTag, ChromaTag, Resolution, FrameSize, ProfileTag, BitDepth, VideoCodec, DateTag, VersionTag]

  /** A two-digit month 01..12 at position i. */
  predicate MonthAt(s: string, i: nat)
    requires i + 2 <= |s|
  {
    (s[i] == '0' && '1' <= s[i + 1] <= '9') || (s[i] == '1' && '0' <= s[i + 1] <= '2')
  }

  /** A two-digit day 01..31 at position i. */
  predicate DayAt(s: string, i: nat)
    requires i + 2 <= |s|
  {
    (s[i] == '0' && '1' <= s[i + 1] <= '9') || ((s[i] == '1' || s[i] == '2') && IsAsciiDigit(s[i + 1]))
    || (s[i] == '3' && '0' <= s[i + 1] <= '1')
  }

  /** The length of the match of a noise pattern that starts at position i, if one
      does. No noise pattern matches the empty string. */
  function NoiseMatchAt(p: NoisePattern, s: string, i: nat): (r: Option<nat>)
    requires i <= |s|
    ensures r.Some? ==> 0 < r.value && i + r.value <= |s|
  {
    match p
    case CrcTag =>
      if i + 10 <= |s| && (s[i] == '[' || s[i] == '(') && (forall k :: i + 1 <= k < i + 9 ==> IsHexDigit(s[k]))
         && (s[i + 9] == ']' || s[i + 9] == ')')
      then Some(10) else None
    case SeasonTag =>
      if i < |s| && CharMatches(s[i], 'S', true) && RunLength(s, i + 1, IsAsciiDigit) >= 2
      then Some(1 + RunLength(s, i + 1, IsAsciiDigit)) else None
    case ChromaTag =>
      if LiteralAt(s, i, "yuv", true) && i + 7 <= |s| && IsChromaChar(s[i + 3]) && IsChromaChar(s[i + 4])
         && IsChromaChar(s[i + 5]) && CharMatches(s[i + 6], 'p', true)
      then Some(7 + (if LiteralAt(s, i + 7, "10", true) then 2 else if LiteralAt(s, i + 7, "8", true) then 1 else 0))
      else None
    case Resolution =>
      // The digits must run right up to the 'p', so they are the whole run.
      var n := RunLength(s, i, IsAsciiDigit);
      if 3 <= n <= 4 && i + n < |s| && CharMatches(s[i + n], 'p', true) then Some(n + 1) else None
    case FrameSize =>
      var n := RunLength(s, i, IsAsciiDigit);
      if 3 <= n <= 4 && i + n < |s| && CharMatches(s[i + n], 'x', true) && RunLength(s, i + n + 1, IsAsciiDigit) >= 3
      then Some(n + 1 + Min(RunLength(s, i + n + 1, IsAsciiDigit), 4)) else None
    case ProfileTag =>
      if LiteralAt(s, i, "hi10p", true) then Some(5) else if LiteralAt(s, i, "10p", true) then Some(3) else None
    case BitDepth =>
      if LiteralAt(s, i, "8bit", true) then Some(4) else if LiteralAt(s, i, "10bit", true) then Some(5) else None
    case VideoCodec =>
      if i + 4 <= |s| && (CharMatches(s[i], 'x', true) || CharMatches(s[i], 'h', true)) && LiteralAt(s, i + 1, "26", false)
         && (s[i + 3] == '4' || s[i + 3] == '5')
      then Some(4) else None
    case DateTag =>
      if i + 8 <= |s| && s[i] == '[' && IsAsciiDigit(s[i + 1]) && IsAsciiDigit(s[i + 2]) && MonthAt(s, i + 3)
         && DayAt(s, i + 5) && s[i + 7] == ']'
      then Some(8) else None
    case VersionTag =>
      if 1 <= i < |s| && s[i - 1] != 'P' && s[i] == 'V' && RunLength(s, i + 1, IsAsciiDigit) >= 1
      then Some(1 + RunLength(s, i + 1, IsAsciiDigit)) else None
  }

  /** The leftmost match of a noise pattern at or after `from`: its position and
      length. */
  function FirstNoiseMatch(p: NoisePattern, s: string, from: nat): (r: Option<(nat, nat)>)
    requires from <= |s|
    ensures r.Some? ==> from <= r.value.0 <= |s| && NoiseMatchAt(p, s, r.value.0) == Some(r.value.1)
                        && forall j :: from <= j < r.value.0 ==> NoiseMatchAt(p, s, j).None?
    ensures r.None? ==> forall j :: from <= j <= |s| ==> NoiseMatchAt(p, s, j).None?
    decreases |s| - from
  {
    match NoiseMatchAt(p, s, from)
    case Some(n) => Some((from, n))
    case None => if from == |s| then None else FirstNoiseMatch(p, s, from + 1)
  }

  /** `regex.IsMatch(s)` for a noise pattern. */
  predicate NoiseIsMatch(p: NoisePattern, s: string) {
    FirstNoiseMatch(p, s, 0).Some?
  }

  /** `regex.Replace(s, "")` from position `from` on: every match, found left to right
      without overlap, is cut out. */
  function RemoveFrom(p: NoisePattern, s: string, from: nat): (r: string)
    requires from <= |s|
    ensures |r| <= |s| - from
    decreases |s| - from
  {
    match FirstNoiseMatch(p, s, from)
    case None => s[from..]
    case Some((j, n)) => s[from..j] + RemoveFrom(p, s, j + n)
  }

  /** `regex.Replace(s, "")` for a noise pattern. */
  function RemoveNoise(p: NoisePattern, s: string): string {
    RemoveFrom(p, s, 0)
  }

  /** Cutting out a pattern that does not match changes nothing; one that does match
      shortens the name. */
  lemma RemoveNoiseShortens(p: NoisePattern, s: string)
    ensures !NoiseIsMatch(p, s) ==> RemoveNoise(p, s) == s
    ensures NoiseIsMatch(p, s) ==> |RemoveNoise(p, s)| < |s|
  {
    match FirstNoiseMatch(p, s, 0)
    case None =>
    case Some((j, n)) =>
      assert |RemoveFrom(p, s, j + n)| <= |s| - j - n;
  }

  /** The noise patterns applied one after the other, each to what the previous ones
      left. */
  function StripAll(ps: seq<NoisePattern>, s: string): (r: string)
    ensures |r| <= |s|
    decreases |ps|
  {
    if ps == [] then s else StripAll(ps[1..], RemoveNoise(ps[0], s))
  }

  /** The file name with every noise token removed, table entry by table entry. */
  function StripNoise(s: string): string {
    StripAll(NoisePatterns, s)
  }

  /** The loop both guessers open with: every noise pattern that matches the working
      copy is cut out of it, in table order. */
  method StripNoiseTokens(fileName: string) returns (tempName: string)
    ensures tempName == StripNoise(fileName)
    ensures |tempName| <= |fileName|
  {
    tempName := fileName;
    var i := 0;
    while i < |NoisePatterns|
      invariant 0 <= i <= |NoisePatterns|
      invariant StripAll(NoisePatterns[i..], tempName) == StripNoise(fileName)
      invariant |tempName| <= |fileName|
    {
      var regex := NoisePatterns[i];
      assert NoisePatterns[i..][1..] == NoisePatterns[i + 1..];
      RemoveNoiseShortens(regex, tempName);
      if !NoiseIsMatch(regex, tempName) {
        i := i + 1;
        continue;
      }
      tempName := RemoveNoise(regex, tempName);
      i := i + 1;
    }
  }

  // ---------------------------------------------------------------------------
  // Episode numbers (EpisodeFileNameRegex)

  /** The number patterns, in table order. Group 1 is always a run of `[\d\.]` (of
      `\d` for DigitRun). */
  datatype NumberPattern =
    | BracketedNumber       // \[([\d\.]{2,})\]
    | DashNumber            // - ?([\d\.]{2,})
    | EpisodeMarker         // EP?([\d\.]{2,})        IgnoreCase
    | OpenBracketNumber     // \[([\d\.]{2,})
    | HashNumber            // #([\d\.]{2,})
    | DigitRun              // (\d{2,})
    | BracketedShortNumber  // \[([\d\.]+)\]

  const NumberPatterns: seq<NumberPattern> :=
    [BracketedNumber, DashNumber, EpisodeMarker, OpenBracketNumber, HashNumber, DigitRun, BracketedShortNumber]

  /** Group 1 of a `[\d\.]{min,}` run starting at j, when the run is long enough. */
  function NumberRunFrom(s: string, j: nat, min: nat): (r: Option<string>)
    requires j <= |s|
    ensures r.Some? ==> |r.value| >= min && j + |r.value| <= |s| && r.value == s[j..j + |r.value|]
  {
    var n := RunLength(s, j, IsNumberChar);
    if n >= min then Some(s[j..j + n]) else None
  }

  /** Group 1 of a match of a number pattern starting at position i, if one does. */
  function NumberCaptureAt(p: NumberPattern, s: string, i: nat): (r: Option<string>)
    requires i <= |s|
    ensures r.Some? ==> r.value != [] && forall k :: 0 <= k < |r.value| ==> IsNumberChar(r.value[k])
  {
    match p
    case BracketedNumber =>
      if i < |s| && s[i] == '[' then
        var n := RunLength(s, i + 1, IsNumberChar);
        if n >= 2 && i + 1 + n < |s| && s[i + 1 + n] == ']' then Some(s[i + 1..i + 1 + n]) else None
      else None
    case DashNumber =>
      // The optional space is taken when present; giving it back cannot help, as a
      // space starts no number.
      if i < |s| && s[i] == '-' then NumberRunFrom(s, if i + 1 < |s| && s[i + 1] == ' ' then i + 2 else i + 1, 2)
      else None
    case EpisodeMarker =>
      if i < |s| && CharMatches(s[i], 'E', true) then
        NumberRunFrom(s, if i + 1 < |s| && CharMatches(s[i + 1], 'P', true) then i + 2 else i + 1, 2)
      else None
    case OpenBracketNumber =>
      if i < |s| && s[i] == '[' then NumberRunFrom(s, i + 1, 2) else None
    case HashNumber =>
      if i < |s| && s[i] == '#' then NumberRunFrom(s, i + 1, 2) else None
    case DigitRun =>
      var n := RunLength(s, i, IsAsciiDigit);
      if n >= 2 then Some(s[i..i + n]) else None
    case BracketedShortNumber =>
      if i < |s| && s[i] == '[' then
        var n := RunLength(s, i + 1, IsNumberChar);
        if n >= 1 && i + 1 + n < |s| && s[i + 1 + n] == ']' then Some(s[i + 1..i + 1 + n]) else None
      else None
  }

  /** Group 1 of the leftmost match at or after `from`: `regex.Match(s).Groups[1].Value`
      when searching from 0, and null exactly when `regex.IsMatch(s)` is false. */
  function FirstCapture(p: NumberPattern, s: string, from: nat): (r: Option<string>)
    requires from <= |s|
    ensures r.Some? ==> r.value != [] && forall k :: 0 <= k < |r.value| ==> IsNumberChar(r.value[k])
    decreases |s| - from
  {
    match NumberCaptureAt(p, s, from)
    case Some(c) => Some(c)
    case None => if from == |s| then None else FirstCapture(p, s, from + 1)
  }

  /** No capture is found only when the pattern matches nowhere at or after `from`. */
  lemma {:induction false} FirstCaptureNoneMeansNoMatch(p: NumberPattern, s: string, from: nat)
    requires from <= |s|
    requires FirstCapture(p, s, from).None?
    ensures forall j :: from <= j <= |s| ==> NumberCaptureAt(p, s, j).None?
    decreases |s| - from
  {
    if from < |s| {
      FirstCaptureNoneMeansNoMatch(p, s, from + 1);
      forall j | from <= j <= |s|
        ensures NumberCaptureAt(p, s, j).None?
      {
        if j > from {
          assert from + 1 <= j <= |s|;
        }
      }
    }
  }

  /** The position of the leftmost match at or after `from`, when there is one. */
  lemma {:induction false} LeftmostMatch(p: NumberPattern, s: string, from: nat) returns (j: nat)
    requires from <= |s|
    requires FirstCapture(p, s, from).Some?
    ensures from <= j <= |s| && NumberCaptureAt(p, s, j) == FirstCapture(p, s, from)
    ensures forall k :: from <= k < j ==> NumberCaptureAt(p, s, k).None?
    decreases |s| - from
  {
    if NumberCaptureAt(p, s, from).Some? {
      j := from;
    } else {
      j := LeftmostMatch(p, s, from + 1);
      forall k | from <= k < j
        ensures NumberCaptureAt(p, s, k).None?
      {
        if k > from {
          assert from + 1 <= k < j;
        }
      }
    }
  }

  /** The capture found is the one at the leftmost position where the pattern matches. */
  lemma FirstCaptureIsLeftmost(p: NumberPattern, s: string, from: nat)
    requires from <= |s|
    requires FirstCapture(p, s, from).Some?
    ensures exists j :: from <= j <= |s| && NumberCaptureAt(p, s, j) == FirstCapture(p, s, from)
                        && forall k :: from <= k < j ==> NumberCaptureAt(p, s, k).None?
  {
    var j := LeftmostMatch(p, s, from);
  }

  predicate IsDot(c: char) {
    c == '.'
  }

  /** What a number pattern yields: its leftmost capture, trimmed of '.', read by
      double.TryParse; None when it does not match or the capture does not parse. */
  function PatternNumber(p: NumberPattern, s: string): Option<real> {
    match FirstCapture(p, s, 0)
    case None => None
    case Some(c) => ParseDouble(TrimWhere(c, IsDot))
  }

  /** The first value present in a sequence of attempts. */
  function FirstSome<T>(attempts: seq<Option<T>>): Option<T>
    decreases |attempts|
  {
    if attempts == [] then None
    else if attempts[0].Some? then attempts[0]
    else FirstSome(attempts[1..])
  }

  /** The first present value is taken, and nothing is taken only when no attempt
      succeeds. */
  lemma {:induction false} FirstSomeIsFirst<T>(attempts: seq<Option<T>>)
    ensures FirstSome(attempts).Some? ==>
      exists k :: 0 <= k < |attempts| && attempts[k] == FirstSome(attempts)
                  && forall j :: 0 <= j < k ==> attempts[j].None?
    ensures FirstSome(attempts).None? <==> forall k :: 0 <= k < |attempts| ==> attempts[k].None?
    decreases |attempts|
  {
    if attempts != [] && attempts[0].None? {
      var r := FirstSome(attempts);
      var rest := attempts[1..];
      FirstSomeIsFirst(rest);
      assert forall k :: 1 <= k < |attempts| ==> attempts[k] == rest[k - 1];
      if r.Some? {
        var k :| 0 <= k < |rest| && rest[k] == r && forall j :: 0 <= j < k ==> rest[j].None?;
        assert attempts[k + 1] == r;
      }
    }
  }

  /** What each number pattern yields for a name, in table order. */
  function PatternNumbers(s: string): (r: seq<Option<real>>)
    ensures |r| == |NumberPatterns|
    ensures forall k :: 0 <= k < |r| ==> r[k] == PatternNumber(NumberPatterns[k], s)
  {
    seq(|NumberPatterns|, k requires 0 <= k < |NumberPatterns| => PatternNumber(NumberPatterns[k], s))
  }

  /** The episode number the file name states: what the first pattern that matches
      and parses yields, read from the noise-stripped name. */
  function FileNameNumber(stripped: string): Option<real> {
    FirstSome(PatternNumbers(stripped))
  }

  // ---------------------------------------------------------------------------
  // Episode types

  /** `([^a-zA-Z]|$)` at position j: the end of the name or a character that is not an
      ASCII letter. (`$` also matches before a final '\n', which is a non-letter.) */
  predicate Boundary(s: string, j: nat) {
    j == |s| || (j < |s| && !IsAsciiLetter(s[j]))
  }

  /** `(NC)?OP([^a-zA-Z]|$)` matching at position i (the optional "NC" never decides
      whether the name matches). */
  predicate OpeningAt(s: string, i: nat) {
    LiteralAt(s, i, "OP", false) && Boundary(s, i + 2)
  }

  /** `(NC)?ED([^a-zA-Z]|$)` matching at position i. */
  predicate EndingAt(s: string, i: nat) {
    LiteralAt(s, i, "ED", false) && Boundary(s, i + 2)
  }

  /** A word, optionally followed by a plural 's', then a boundary. */
  predicate WordAt(s: string, i: nat, word: string, plural: bool) {
    LiteralAt(s, i, word, false)
    && (Boundary(s, i + |word|) || (plural && LiteralAt(s, i + |word|, "s", false) && Boundary(s, i + |word| + 1)))
  }

  /** `(SPs?|Specials?|OVA|OAD)([^a-zA-Z]|$)` matching at position i. */
  predicate SpecialAt(s: string, i: nat) {
    WordAt(s, i, "SP", true) || WordAt(s, i, "Special", true) || WordAt(s, i, "OVA", false) || WordAt(s, i, "OAD", false)
  }

  /** `[^\w]PV([^a-zA-Z]|$)` matching at position i. */
  predicate PreviewAt(s: string, i: nat) {
    i < |s| && !IsWordChar(s[i]) && LiteralAt(s, i + 1, "PV", false) && Boundary(s, i + 3)
  }

  predicate MatchesOpening(s: string) {
    exists i :: 0 <= i < |s| && OpeningAt(s, i)
  }

  predicate MatchesEnding(s: string) {
    exists i :: 0 <= i < |s| && EndingAt(s, i)
  }

  predicate MatchesSpecial(s: string) {
    exists i :: 0 <= i < |s| && SpecialAt(s, i)
  }

  predicate MatchesPreview(s: string) {
    exists i :: 0 <= i < |s| && PreviewAt(s, i)
  }

  /** `AllSpecialEpisodeFileNameRegex.Any(x => x.IsMatch(s))`. */
  predicate MatchesAnySpecial(s: string) {
    MatchesSpecial(s) || MatchesPreview(s) || MatchesOpening(s) || MatchesEnding(s)
  }

  /** What may follow a marker: the end of the name or a character that is not an ASCII
      letter. */
  predicate EndsMarker(b: string) {
    b == [] || !IsAsciiLetter(b[0])
  }

  /** "OP" (and so "NCOP") followed by the end or a non-letter makes an opening,
      wherever it sits in the name. */
  lemma OpeningMarker(a: string, b: string)
    requires EndsMarker(b)
    ensures MatchesOpening(a + "OP" + b)
  {
    var s := a + "OP" + b;
    assert OpeningAt(s, |a|) by {
      assert s[|a|] == 'O' && s[|a| + 1] == 'P';
      if b != [] { assert s[|a| + 2] == b[0]; }
    }
  }

  /** "ED" (and so "NCED") followed by the end or a non-letter makes an ending. */
  lemma EndingMarker(a: string, b: string)
    requires EndsMarker(b)
    ensures MatchesEnding(a + "ED" + b)
  {
    var s := a + "ED" + b;
    assert EndingAt(s, |a|) by {
      assert s[|a|] == 'E' && s[|a| + 1] == 'D';
      if b != [] { assert s[|a| + 2] == b[0]; }
    }
  }

  /** Each of the special words followed by the end or a non-letter makes a special. */
  lemma SpecialMarker(a: string, word: string, b: string)
    requires word in ["SP", "SPs", "Special", "Specials", "OVA", "OAD"]
    requires EndsMarker(b)
    ensures MatchesSpecial(a + word + b)
  {
    var s := a + word + b;
    var i := |a|;
    assert forall k :: 0 <= k < |word| ==> s[i + k] == word[k];
    if b != [] { assert s[i + |word|] == b[0]; }
    if word == "SP" || word == "SPs" {
      assert LiteralAt(s, i, "SP", false);
      assert WordAt(s, i, "SP", true);
    } else if word == "Special" || word == "Specials" {
      assert LiteralAt(s, i, "Special", false);
      assert WordAt(s, i, "Special", true);
    } else {
      assert WordAt(s, i, word, false);
    }
    assert SpecialAt(s, i);
  }

  /** "PV" after a character that is not a word character, and followed by the end or a
      non-letter, makes a preview. */
  lemma PreviewMarker(a: string, c: char, b: string)
    requires !IsWordChar(c) && EndsMarker(b)
    ensures MatchesPreview(a + [c] + "PV" + b)
  {
    var s := a + [c] + "PV" + b;
    assert PreviewAt(s, |a|) by {
      assert s[|a|] == c && s[|a| + 1] == 'P' && s[|a| + 2] == 'V';
      if b != [] { assert s[|a| + 3] == b[0]; }
    }
  }

  /** A case-sensitive literal found at i starts with its first character there. */
  lemma LiteralStarts(s: string, i: nat, lit: string)
    requires lit != [] && LiteralAt(s, i, lit, false)
    ensures s[i] == lit[0]
  {
    assert CharMatches(s[i + 0], lit[0], false);
  }

  /** None of the four patterns ignores case, and each begins its marker with an
      upper-case letter: a name with no ASCII upper-case letter is never a special. */
  lemma LowerCaseNameIsNoSpecial(s: string)
    requires forall i :: 0 <= i < |s| ==> !('A' <= s[i] <= 'Z')
    ensures !MatchesAnySpecial(s)
  {
    forall i | 0 <= i < |s|
      ensures !OpeningAt(s, i) && !EndingAt(s, i) && !SpecialAt(s, i) && !PreviewAt(s, i)
    {
      if OpeningAt(s, i) { LiteralStarts(s, i, "OP"); }
      if EndingAt(s, i) { LiteralStarts(s, i, "ED"); }
      if WordAt(s, i, "SP", true) { LiteralStarts(s, i, "SP"); }
      if WordAt(s, i, "Special", true) { LiteralStarts(s, i, "Special"); }
      if WordAt(s, i, "OVA", false) { LiteralStarts(s, i, "OVA"); }
      if WordAt(s, i, "OAD", false) { LiteralStarts(s, i, "OAD"); }
      assert !LiteralAt(s, i + 1, "PV", false) by {
        if i + 1 < |s| {
          assert !CharMatches(s[(i + 1) + 0], "PV"[0], false);
        }
      }
    }
  }
}
