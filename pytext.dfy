/** The optional values the model returns where Python raises or finds nothing. */
module Options {
  datatype Option<+T> = None | Some(value: T)
}

/**
 * The Python string built-ins the bot relies on: `str.lower()`, the `in`
 * operator on strings, `str.split(" ", maxsplit)` and `int(str)`.
 */
module PyText {
  import opened Options

  /** A character of Python's `str.isspace()`: what the regular expression `\s` matches. */
  predicate IsSpace(c: char) {
    || c == ' '
    || '\t' <= c <= '\r'
    || '\U{1C}' <= c <= '\U{1F}'
    || c == '\U{85}' || c == '\U{A0}' || c == '\U{1680}'
    || '\U{2000}' <= c <= '\U{200A}'
    || c == '\U{2028}' || c == '\U{2029}' || c == '\U{202F}' || c == '\U{205F}' || c == '\U{3000}'
  }

  /**
   * What `int()` strips around a number: the ASCII whitespace `\t`-`\r` and
   * the space, and the `str.isspace()` characters from U+0080 up, which it
   * first turns into spaces. The separators U+001C-U+001F are not among them.
   */
  predicate IsIntSpace(c: char) {
    IsSpace(c) && !('\U{1C}' <= c <= '\U{1F}')
  }

  predicate IsDigit(c: char) {
    '0' <= c <= '9'
  }

  function DigitValue(c: char): (v: nat)
    requires IsDigit(c)
    ensures v < 10
  {
    c as int - '0' as int
  }

  function DigitChar(v: nat): (c: char)
    requires v < 10
    ensures IsDigit(c) && DigitValue(c) == v
  {
    ('0' as int + v) as char
  }

  // ---------------------------------------------------------------------
  // str.lower()

  /** Lower-casing of one character: ASCII and Latin-1 capitals. */
  function LowerChar(c: char): char {
    if 'A' <= c <= 'Z' || ('\U{C0}' <= c <= '\U{DE}' && c != '\U{D7}') then
      (c as int + 32) as char
    else
      c
  }

  function Lower(s: string): string {
    seq(|s|, i requires 0 <= i < |s| => LowerChar(s[i]))
  }

  /** A string `lower()` leaves as it is. */
  predicate IsLowered(s: string) {
    forall i :: 0 <= i < |s| ==> LowerChar(s[i]) == s[i]
  }

  lemma LowerIsLowered(s: string)
    ensures |Lower(s)| == |s| && IsLowered(Lower(s))
  {
  }

  /** Lower-casing neither creates nor removes a space, so it keeps every split position. */
  lemma LowerKeepsSpaces(s: string)
    ensures forall i :: 0 <= i < |s| ==> (Lower(s)[i] == ' ' <==> s[i] == ' ')
  {
  }

  // ---------------------------------------------------------------------
  // sub in s

  predicate OccursAt(s: string, sub: string, i: int) {
    0 <= i && i + |sub| <= |s| && s[i..i + |sub|] == sub
  }

  /** Python's `sub in s`: `sub` is a contiguous piece of `s`. */
  predicate Contains(s: string, sub: string) {
    exists i :: 0 <= i <= |s| - |sub| && OccursAt(s, sub, i)
  }

  /** Nothing contains a longer piece. */
  lemma ShorterNeverContains(s: string, sub: string)
    requires |s| < |sub|
    ensures !Contains(s, sub)
  {
  }

  lemma {:induction false} ContainsTransitive(a: string, b: string, c: string)
    requires Contains(a, b) && Contains(b, c)
    ensures Contains(a, c)
  {
    var i :| 0 <= i <= |a| - |b| && OccursAt(a, b, i);
    var j :| 0 <= j <= |b| - |c| && OccursAt(b, c, j);
    var x := a[i + j..i + j + |c|];
    forall k | 0 <= k < |c|
      ensures x[k] == c[k]
    {
      assert x[k] == a[i..i + |b|][j + k];
      assert c[k] == b[j..j + |c|][k];
    }
    assert x == c;
    assert OccursAt(a, c, i + j);
  }

  lemma ContainsMiddle(a: string, b: string, c: string)
    ensures Contains(a + b + c, b)
  {
    assert (a + b + c)[|a|..|a| + |b|] == b;
    assert OccursAt(a + b + c, b, |a|);
  }

  // ---------------------------------------------------------------------
  // s.split(" ", maxsplit)

  /** The first index of `c` in `s`. */
  function IndexOf(s: string, c: char): (r: Option<nat>)
    ensures r.Some? ==> r.value < |s| && s[r.value] == c
  {
    if s == [] then None
    else if s[0] == c then Some(0)
    else
      match IndexOf(s[1..], c)
      case None => None
      case Some(i) => Some(i + 1)
  }

  /** `IndexOf` finds the first occurrence, and finds none only when there is none. */
  lemma {:induction false} IndexOfFirst(s: string, c: char)
    ensures IndexOf(s, c).None? <==> c !in s
    ensures IndexOf(s, c).Some? ==> c !in s[..IndexOf(s, c).value]
  {
    if s != [] && s[0] != c {
      IndexOfFirst(s[1..], c);
      assert s == [s[0]] + s[1..];
      if IndexOf(s[1..], c).Some? {
        var i := IndexOf(s[1..], c).value;
        assert s[..i + 1] == [s[0]] + s[1..][..i];
      }
    }
  }

  /**
   * Python's `s.split(" ", maxsplit)` for a non-negative `maxsplit`: at most
   * `maxsplit` cuts, each at the first remaining space, the rest kept whole.
   */
  function Split(s: string, maxsplit: nat): (parts: seq<string>)
    ensures 1 <= |parts| <= maxsplit + 1
    decreases maxsplit
  {
    if maxsplit == 0 then [s]
    else
      match IndexOf(s, ' ')
      case None => [s]
      case Some(i) => [s[..i]] + Split(s[i + 1..], maxsplit - 1)
  }

  /** Python's `" ".join(parts)`. */
  function Join(parts: seq<string>): string {
    if |parts| == 0 then ""
    else if |parts| == 1 then parts[0]
    else parts[0] + " " + Join(parts[1..])
  }

  /** Python's `s.count(" ")`. */
  function CountSpaces(s: string): nat {
    if s == [] then 0 else (if s[0] == ' ' then 1 else 0) + CountSpaces(s[1..])
  }

  function Min(a: nat, b: nat): nat {
    if a <= b then a else b
  }

  lemma {:induction false} CountSpacesAppend(a: string, b: string)
    ensures CountSpaces(a + b) == CountSpaces(a) + CountSpaces(b)
  {
    if a == [] {
      assert a + b == b;
    } else {
      assert (a + b)[1..] == a[1..] + b;
      CountSpacesAppend(a[1..], b);
    }
  }

  lemma {:induction false} NoSpaceCountsZero(a: string)
    requires ' ' !in a
    ensures CountSpaces(a) == 0
  {
    if a != [] {
      assert a[0] in a;
      assert forall x :: x in a[1..] ==> x in a;
      NoSpaceCountsZero(a[1..]);
    }
  }

  /** Cutting at the first space removes exactly one space from the count. */
  lemma CountSpacesAtCut(s: string, i: nat)
    requires i < |s| && s[i] == ' ' && ' ' !in s[..i]
    ensures CountSpaces(s) == 1 + CountSpaces(s[i + 1..])
  {
    assert s == s[..i] + ([' '] + s[i + 1..]);
    CountSpacesAppend(s[..i], [' '] + s[i + 1..]);
    NoSpaceCountsZero(s[..i]);
    assert ([' '] + s[i + 1..])[1..] == s[i + 1..];
  }

  /** Re-joining the pieces with single spaces gives back the original string. */
  lemma {:induction false} SplitJoin(s: string, maxsplit: nat)
    ensures Join(Split(s, maxsplit)) == s
    decreases maxsplit
  {
    if maxsplit > 0 && IndexOf(s, ' ').Some? {
      var i := IndexOf(s, ' ').value;
      var t := s[i + 1..];
      var rest := Split(t, maxsplit - 1);
      assert Split(s, maxsplit) == [s[..i]] + rest;
      SplitJoin(t, maxsplit - 1);
      assert Join(rest) == t;
      assert |rest| > 0 && s[i] == ' ';
      JoinAtCut(s, i, rest);
    }
  }

  lemma JoinAtCut(s: string, i: nat, rest: seq<string>)
    requires i < |s| && s[i] == ' ' && |rest| > 0
    requires Join(rest) == s[i + 1..]
    ensures Join([s[..i]] + rest) == s
  {
    JoinCons(s[..i], rest);
    assert s == s[..i] + " " + s[i + 1..];
  }

  lemma JoinCons(x: string, rest: seq<string>)
    requires |rest| > 0
    ensures Join([x] + rest) == x + " " + Join(rest)
  {
    assert ([x] + rest)[1..] == rest;
  }

  /** The first word is a piece of the joined text. */
  lemma JoinHasFirst(ws: seq<string>)
    requires |ws| > 0
    ensures Contains(Join(ws), ws[0])
  {
    if |ws| == 1 {
      assert OccursAt(Join(ws), ws[0], 0);
    } else {
      var t := Join(ws);
      assert t == ws[0] + " " + Join(ws[1..]);
      assert t[0..|ws[0]|] == ws[0];
      assert OccursAt(t, ws[0], 0);
    }
  }

  /** The number of pieces is one more than the number of cuts, and a cut needs a space. */
  lemma {:induction false} SplitLength(s: string, maxsplit: nat)
    ensures |Split(s, maxsplit)| == Min(maxsplit, CountSpaces(s)) + 1
    decreases maxsplit
  {
    if maxsplit == 0 {
    } else {
      IndexOfFirst(s, ' ');
      match IndexOf(s, ' ')
      case None =>
        NoSpaceCountsZero(s);
      case Some(i) =>
        CountSpacesAtCut(s, i);
        SplitLength(s[i + 1..], maxsplit - 1);
    }
  }

  /** Every piece but the last is free of spaces; so is the last when fewer than all cuts were made. */
  lemma {:induction false} SplitPiecesHaveNoSpace(s: string, maxsplit: nat)
    ensures var parts := Split(s, maxsplit);
      && (forall k :: 0 <= k < |parts| - 1 ==> ' ' !in parts[k])
      && (|parts| <= maxsplit ==> ' ' !in parts[|parts| - 1])
    decreases maxsplit
  {
    if maxsplit > 0 {
      IndexOfFirst(s, ' ');
      match IndexOf(s, ' ')
      case None =>
      case Some(i) =>
        SplitPiecesHaveNoSpace(s[i + 1..], maxsplit - 1);
        var rest := Split(s[i + 1..], maxsplit - 1);
        assert Split(s, maxsplit) == [s[..i]] + rest;
    }
  }

  /** Pieces of a lower-cased string are lower-cased. */
  lemma {:induction false} SplitKeepsLowered(s: string, maxsplit: nat)
    requires IsLowered(s)
    ensures forall k :: 0 <= k < |Split(s, maxsplit)| ==> IsLowered(Split(s, maxsplit)[k])
    decreases maxsplit
  {
    if maxsplit > 0 {
      match IndexOf(s, ' ')
      case None =>
      case Some(i) =>
        var t := s[i + 1..];
        assert forall j :: 0 <= j < |t| ==> t[j] == s[i + 1 + j];
        SplitKeepsLowered(s[i + 1..], maxsplit - 1);
        var rest := Split(s[i + 1..], maxsplit - 1);
        assert Split(s, maxsplit) == [s[..i]] + rest;
        var h := s[..i];
        assert forall j :: 0 <= j < |h| ==> h[j] == s[j];
    }
  }

  /** A string with exactly `n - 1` spaces splits into `n` space-free words that join back to it. */
  lemma SplitIntoWords(s: string, n: nat)
    requires n > 0 && CountSpaces(s) == n - 1
    ensures var parts := Split(s, n);
      && |parts| == n
      && Join(parts) == s
      && (forall k :: 0 <= k < n ==> ' ' !in parts[k])
  {
    SplitLength(s, n);
    SplitJoin(s, n);
    SplitPiecesHaveNoSpace(s, n);
  }

  /** Splitting off a space-free first word. */
  lemma SplitFirstWord(a: string, b: string, maxsplit: nat)
    requires maxsplit > 0 && ' ' !in a
    ensures Split(a + " " + b, maxsplit) == [a] + Split(b, maxsplit - 1)
  {
    var s := a + " " + b;
    assert s[|a|] == ' ';
    assert s[..|a|] == a;
    assert s[|a| + 1..] == b;
    assert s[|a|] in s;
    IndexOfFirst(s, ' ');
    var r := IndexOf(s, ' ');
    assert forall k :: 0 <= k < |a| ==> s[k] == a[k];
    assert forall k :: 0 <= k < r.value ==> s[..r.value][k] == s[k];
    assert r.value == |a|;
  }

  /**
   * Splitting words joined by single spaces gives the words back, when all
   * but the last are space-free and either the cuts run out exactly at the
   * last word or that word is space-free too.
   */
  lemma {:induction false} SplitJoinWords(ws: seq<string>, maxsplit: nat)
    requires |ws| > 0
    requires forall k :: 0 <= k < |ws| - 1 ==> ' ' !in ws[k]
    requires maxsplit == |ws| - 1 || (maxsplit >= |ws| && ' ' !in ws[|ws| - 1])
    ensures Split(Join(ws), maxsplit) == ws
    decreases |ws|
  {
    if |ws| == 1 {
      if maxsplit > 0 {
        SplitNoSpace(ws[0], maxsplit);
      }
    } else {
      var rest := ws[1..];
      assert ws == [ws[0]] + rest;
      assert forall k :: 0 <= k < |rest| - 1 ==> ' ' !in rest[k] by {
        assert forall k :: 0 <= k < |rest| ==> rest[k] == ws[k + 1];
      }
      assert rest[|rest| - 1] == ws[|ws| - 1];
      SplitJoinWords(rest, maxsplit - 1);
      SplitJoinCons(ws[0], rest, maxsplit);
    }
  }

  lemma SplitJoinCons(w: string, rest: seq<string>, maxsplit: nat)
    requires maxsplit > 0 && ' ' !in w && |rest| > 0
    requires Split(Join(rest), maxsplit - 1) == rest
    ensures Split(Join([w] + rest), maxsplit) == [w] + rest
  {
    JoinCons(w, rest);
    SplitFirstWord(w, Join(rest), maxsplit);
  }

  lemma SplitNoSpace(a: string, maxsplit: nat)
    requires ' ' !in a
    ensures Split(a, maxsplit) == [a]
  {
  }

  // ---------------------------------------------------------------------
  // int(s) for base 10

  function StripLeft(s: string): (t: string)
    ensures |t| <= |s|
  {
    if |s| > 0 && IsIntSpace(s[0]) then StripLeft(s[1..]) else s
  }

  function StripRight(s: string): (t: string)
    ensures |t| <= |s|
  {
    if |s| > 0 && IsIntSpace(s[|s| - 1]) then StripRight(s[..|s| - 1]) else s
  }

  /** What `int()` ignores around the number: leading and trailing whitespace. */
  function Strip(s: string): string {
    StripRight(StripLeft(s))
  }

  /** Decimal digits with single underscores between them, as `int()` accepts them. */
  predicate IsDigitGroups(t: string) {
    && |t| > 0
    && IsDigit(t[0])
    && (|t| == 1 || IsDigitGroups(if t[1] == '_' then t[2..] else t[1..]))
  }

  /** The value of the digits of `t`, underscores skipped. */
  function DecimalValue(t: string): nat {
    if t == [] then 0
    else
      var last := t[|t| - 1];
      if IsDigit(last) then 10 * DecimalValue(t[..|t| - 1]) + DigitValue(last)
      else DecimalValue(t[..|t| - 1])
  }

  /** Python's `int(s)`: `None` where it raises `ValueError`. */
  function ParseInt(s: string): Option<int> {
    var t := Strip(s);
    if |t| > 0 && (t[0] == '+' || t[0] == '-') then
      if IsDigitGroups(t[1..]) then
        var v: int := DecimalValue(t[1..]);
        Some(if t[0] == '-' then -v else v)
      else None
    else if IsDigitGroups(t) then Some(DecimalValue(t))
    else None
  }

  /** Python's `str(n)` for a natural number. */
  function NatToString(n: nat): (s: string)
    ensures |s| > 0 && forall i :: 0 <= i < |s| ==> IsDigit(s[i])
  {
    if n < 10 then [DigitChar(n)] else NatToString(n / 10) + [DigitChar(n % 10)]
  }

  /** Python's `str(n)` for an integer. */
  function IntToString(n: int): string {
    if n < 0 then "-" + NatToString(-n) else NatToString(n)
  }

  lemma {:induction false} AllDigitsAreGroups(t: string)
    requires |t| > 0 && forall i :: 0 <= i < |t| ==> IsDigit(t[i])
    ensures IsDigitGroups(t)
    decreases |t|
  {
    if |t| > 1 {
      AllDigitsAreGroups(t[1..]);
    }
  }

  lemma {:induction false} NatToStringValue(n: nat)
    ensures DecimalValue(NatToString(n)) == n
  {
    var s := NatToString(n);
    if n >= 10 {
      NatToStringValue(n / 10);
      assert s[..|s| - 1] == NatToString(n / 10);
    }
  }

  lemma StripDigitsBounded(t: string)
    requires |t| > 0 && !IsIntSpace(t[0]) && !IsIntSpace(t[|t| - 1])
    ensures Strip(t) == t
  {
  }

  /** Text that starts with neither a sign nor a digit is not a number to `int()`. */
  lemma ParseIntRejectsWord(t: string)
    requires |t| > 0 && !IsIntSpace(t[0]) && !IsIntSpace(t[|t| - 1])
    requires !IsDigit(t[0]) && t[0] != '+' && t[0] != '-'
    ensures ParseInt(t) == None
  {
    StripDigitsBounded(t);
  }

  /** A number behind an information separator is not a number to `int()`, which does not strip U+001C-U+001F. */
  lemma ParseIntKeepsSeparators(t: string)
    requires |t| > 0 && '\U{1C}' <= t[0] <= '\U{1F}'
    ensures ParseInt(t) == None
  {
    StripRightKeepsHead(t);
  }

  lemma {:induction false} StripRightKeepsHead(s: string)
    requires |s| > 0 && !IsIntSpace(s[0])
    ensures |StripRight(s)| > 0 && StripRight(s)[0] == s[0]
    decreases |s|
  {
    if IsIntSpace(s[|s| - 1]) {
      StripRightKeepsHead(s[..|s| - 1]);
    }
  }

  /** `int()` reads back what `str()` writes, for every integer. */
  lemma ParseIntToString(n: int)
    ensures ParseInt(IntToString(n)) == Some(n)
  {
    var s := IntToString(n);
    if n < 0 {
      var d := NatToString(-n);
      assert s == "-" + d;
      StripDigitsBounded(s);
      assert s[1..] == d;
      AllDigitsAreGroups(d);
      NatToStringValue(-n);
    } else {
      var d := NatToString(n);
      StripDigitsBounded(s);
      AllDigitsAreGroups(d);
      NatToStringValue(n);
    }
  }
}
