/** Text formats of the inventory client (utils/formatting.ts): Vietnamese number
    grouping (`1.200,5`), its parsing back to a number, the smart number input mask,
    and the `DD/MM/YYYY HH:MM:SS` date-time format with its parser. */
module Formatting {
  import opened Js
  import opened Text
  import opened Calendar

  // ---------------------------------------------------------------- thousands grouping

  /** Length of the run of digits that starts at index `p`. */
  function DigitRun(s: string, p: nat): (n: nat)
    requires p <= |s|
    ensures p + n <= |s|
    ensures forall i :: p <= i < p + n ==> IsDigit(s[i])
    ensures p + n < |s| ==> !IsDigit(s[p + n])
    decreases |s| - p
  {
    if p < |s| && IsDigit(s[p]) then 1 + DigitRun(s, p + 1) else 0
  }

  /** The regular expression `\B(?=(\d{3})+(?!\d))` matches at position `p`: no word
      boundary there, and the digit run starting there has a positive multiple of
      three digits. */
  predicate DotBefore(s: string, p: nat)
    requires p <= |s|
  {
    0 < p < |s| && IsWordChar(s[p - 1]) && DigitRun(s, p) >= 3 && DigitRun(s, p) % 3 == 0
  }

  /** The output of the replacement for the suffix of `s` from index `p`. */
  function GroupFrom(s: string, p: nat): string
    requires p <= |s|
    decreases |s| - p
  {
    if p == |s| then ""
    else (if DotBefore(s, p) then "." else "") + [s[p]] + GroupFrom(s, p + 1)
  }

  /** `s.replace(/\B(?=(\d{3})+(?!\d))/g, ".")`: a '.' before every position that the
      pattern matches. */
  function GroupThousands(s: string): string
  {
    GroupFrom(s, 0)
  }

  /** The grouping of a digit string into threes from the right, separated by '.'. */
  function Grouped(d: string): (r: string)
    ensures d == "" <==> r == ""
    decreases |d|
  {
    if |d| <= 3 then d else Grouped(d[..|d| - 3]) + "." + d[|d| - 3..]
  }

  /** A grouping holds only digits and '.', and begins and ends with a digit. */
  lemma {:induction false} GroupedChars(d: string)
    requires AllDigits(d)
    ensures forall c :: c in Grouped(d) ==> IsDigit(c) || c == '.'
    ensures d != "" ==> IsDigit(Grouped(d)[0]) && IsDigit(Grouped(d)[|Grouped(d)| - 1])
    decreases |d|
  {
    if |d| > 3 {
      var a, b := d[..|d| - 3], d[|d| - 3..];
      GroupedChars(a);
      assert Grouped(d) == Grouped(a) + "." + b;
      assert forall c :: c in b ==> c in d;
    }
  }

  lemma DigitRunOfDigits(d: string, p: nat)
    requires AllDigits(d) && p <= |d|
    ensures DigitRun(d, p) == |d| - p
    decreases |d| - p
  {
    if p < |d| {
      DigitRunOfDigits(d, p + 1);
    }
  }

  /** In a digit string the pattern matches exactly where a multiple of three digits
      remains. */
  lemma DotBeforeDigits(d: string, p: nat)
    requires AllDigits(d) && p <= |d|
    ensures DotBefore(d, p) <==> 0 < p < |d| && (|d| - p) % 3 == 0
  {
    DigitRunOfDigits(d, p);
  }

  lemma {:induction false} GroupFromShort(d: string, p: nat)
    requires AllDigits(d) && p <= |d| && |d| <= 3
    ensures GroupFrom(d, p) == d[p..]
    decreases |d| - p
  {
    if p < |d| {
      DotBeforeDigits(d, p);
      GroupFromShort(d, p + 1);
      assert d[p..] == [d[p]] + d[p + 1..];
    }
  }

  lemma {:induction false} GroupFromTail(d: string)
    requires AllDigits(d) && |d| > 3
    ensures GroupFrom(d, |d| - 3) == "." + d[|d| - 3..]
  {
    var n := |d|;
    DotBeforeDigits(d, n - 3);
    DotBeforeDigits(d, n - 2);
    DotBeforeDigits(d, n - 1);
    assert GroupFrom(d, n) == "";
    assert GroupFrom(d, n - 1) == [d[n - 1]];
    assert GroupFrom(d, n - 2) == [d[n - 2]] + [d[n - 1]];
    assert d[n - 3..] == [d[n - 3], d[n - 2], d[n - 1]];
  }

  /** Dropping the last three digits keeps the pattern's matches before them. */
  lemma DotBeforeInit(d: string, p: nat)
    requires AllDigits(d) && |d| > 3 && p < |d| - 3
    ensures DotBefore(d, p) == DotBefore(d[..|d| - 3], p)
  {
    var e := d[..|d| - 3];
    assert AllDigits(e);
    DotBeforeDigits(d, p);
    DotBeforeDigits(e, p);
  }

  lemma DotJoinAssoc(w: string, x: string, b: string)
    ensures w + (x + "." + b) == (w + x) + "." + b
  {
  }

  lemma {:induction false} GroupFromSplit(d: string, p: nat)
    requires AllDigits(d) && |d| > 3 && p <= |d| - 3
    ensures GroupFrom(d, p) == GroupFrom(d[..|d| - 3], p) + "." + d[|d| - 3..]
    decreases |d| - p
  {
    var n := |d|;
    var e, b := d[..n - 3], d[n - 3..];
    if p == n - 3 {
      GroupFromTail(d);
      assert GroupFrom(e, p) == "";
    } else {
      var x := GroupFrom(e, p + 1);
      var w := (if DotBefore(d, p) then "." else "") + [d[p]];
      assert GroupFrom(e, p) == w + x by {
        DotBeforeInit(d, p);
        assert e[p] == d[p];
      }
      assert GroupFrom(d, p + 1) == x + "." + b by {
        GroupFromSplit(d, p + 1);
      }
      assert GroupFrom(d, p) == w + GroupFrom(d, p + 1);
      DotJoinAssoc(w, x, b);
    }
  }

  /** On digit strings the regular-expression replacement is exactly the grouping
      into threes from the right. */
  lemma {:induction false} GroupThousandsDigits(d: string)
    requires AllDigits(d)
    ensures GroupThousands(d) == Grouped(d)
    decreases |d|
  {
    if |d| <= 3 {
      GroupFromShort(d, 0);
    } else {
      GroupFromSplit(d, 0);
      GroupThousandsDigits(d[..|d| - 3]);
    }
  }

  /** Deleting the '.'s from a grouping gives the digits back. */
  lemma {:induction false} UngroupGrouped(d: string)
    requires '.' !in d
    ensures RemoveChar(Grouped(d), '.') == d
    decreases |d|
  {
    if |d| > 3 {
      var a, b := d[..|d| - 3], d[|d| - 3..];
      assert d == a + b && '.' !in a && '.' !in b;
      UngroupGrouped(a);
      RemoveCharAround(Grouped(a), b, '.');
    }
  }

  /** The replacement only inserts '.'s: deleting every '.' on both sides agrees. */
  lemma {:induction false} UngroupFrom(s: string, p: nat)
    requires p <= |s|
    ensures RemoveChar(GroupFrom(s, p), '.') == RemoveChar(s[p..], '.')
    decreases |s| - p
  {
    if p < |s| {
      UngroupFrom(s, p + 1);
      var rest := GroupFrom(s, p + 1);
      var dot := if DotBefore(s, p) then "." else "";
      var u, v := [s[p]] + rest, s[p..];
      assert GroupFrom(s, p) == dot + u;
      assert RemoveChar(dot, '.') == "";
      RemoveCharAppend(dot, u, '.');
      assert u[1..] == rest && v[1..] == s[p + 1..] && v[0] == u[0];
      if s[p] == '.' {
        RemoveCharSkip(u, '.');
        RemoveCharSkip(v, '.');
      } else {
        RemoveCharKeep(u, '.');
        RemoveCharKeep(v, '.');
      }
    }
  }

  lemma DigitsLackChar(s: string, c: char)
    requires AllDigits(s) && !IsDigit(c)
    ensures c !in s
  {
  }

  /** The last '.'-separated group of a grouping longer than three digits has
      exactly three digits. */
  lemma LastGroup(d: string)
    requires '.' !in d && |d| > 3
    ensures var parts := Split(Grouped(d), '.'); |parts| > 1 && parts[|parts| - 1] == d[|d| - 3..]
  {
    var a, b := d[..|d| - 3], d[|d| - 3..];
    assert '.' !in b;
    SplitAppend(Grouped(a), b, '.');
    SplitNoSep(b, '.');
    assert Grouped(d) == Grouped(a) + ['.'] + b;
  }

  // ---------------------------------------------------------------- formatNumberToVN

  /** `formatNumberToVN(value)`: '' for undefined, null and ''; text that already has
      a ',' unchanged; otherwise the integer part grouped with '.' and the first
      decimal part, if non-empty, after a ','. */
  function FormatNumberToVN(lib: Lib, value: Value): (r: string)
    ensures value.Undefined? || value.Null? || value == Str("") ==> r == ""
    ensures !(value.Undefined? || value.Null? || value == Str("")) && ',' in ToString(lib, value)
            ==> r == ToString(lib, value)
  {
    if value.Undefined? || value.Null? || value == Str("") then ""
    else
      var str := ToString(lib, value);
      if ',' in str then str
      else
        var parts := Split(str, '.');
        var integerPart := GroupThousands(parts[0]);
        var decimalPart := if |parts| > 1 then parts[1] else "";
        if decimalPart != "" then integerPart + "," + decimalPart else integerPart
  }

  /** The characters before the first '.' of the text are kept, in order, once the
      inserted '.'s are deleted. */
  lemma FormatKeepsIntegerDigits(lib: Lib, value: Value)
    requires !(value.Undefined? || value.Null? || value == Str(""))
    requires ',' !in ToString(lib, value)
    ensures var integerPart := Split(ToString(lib, value), '.')[0];
            RemoveChar(Split(FormatNumberToVN(lib, value), ',')[0], '.') == integerPart
  {
    var str := ToString(lib, value);
    var parts := Split(str, '.');
    var p0 := parts[0];
    var g := GroupThousands(p0);
    assert RemoveChar(g, '.') == p0 by {
      SplitPieces(str, '.');
      UngroupFrom(p0, 0);
      assert p0[0..] == p0;
    }
    assert ',' !in g by {
      SplitChars(str, '.');
      assert ',' !in p0;
      GroupFromChars(p0, 0);
    }
    var decimalPart := if |parts| > 1 then parts[1] else "";
    if decimalPart != "" {
      assert ',' !in decimalPart by {
        SplitChars(str, '.');
      }
      var f := g + "," + decimalPart;
      assert FormatNumberToVN(lib, value) == f;
      assert Join([g, decimalPart], [',']) == f;
      SplitJoin([g, decimalPart], ',');
    } else {
      assert FormatNumberToVN(lib, value) == g;
      SplitNoSep(g, ',');
    }
  }

  /** The replacement inserts nothing but '.'s. */
  lemma {:induction false} GroupFromChars(s: string, p: nat)
    requires p <= |s|
    ensures forall c :: c in GroupFrom(s, p) ==> c == '.' || c in s
    decreases |s| - p
  {
    if p < |s| {
      GroupFromChars(s, p + 1);
    }
  }

  // ---------------------------------------------------------------- parseVNToNumber

  /** The text cleanup of `parseVNToNumber`: grouping '.'s removed, ',' made the
      decimal point. */
  function CleanVN(s: string): string
  {
    ReplaceChar(RemoveChar(s, '.'), ',', ".")
  }

  /** `parseVNToNumber(value)`: 0 for falsy values other than the number 0, numbers
      unchanged, anything else through `CleanVN` and `parseFloat`, NaN as 0. */
  function ParseVNToNumber(lib: Lib, value: Value): (r: real)
    ensures value.Number? && value.n.Fin? ==> r == value.n.val
    ensures !Truthy(value) ==> r == 0.0
  {
    if !Truthy(value) && value != Number(Fin(0.0)) then 0.0
    else if value.Number? then OrZero(value.n)
    else OrZero(lib.parseFloat(CleanVN(ToString(lib, value))))
  }

  /** A plain decimal numeral: digits, or digits '.' digits. */
  predicate PlainDecimal(s: string)
  {
    var parts := Split(s, '.');
    |parts| <= 2 && |parts[0]| > 0 && AllDigits(parts[0])
    && (|parts| == 2 ==> |parts[1]| > 0 && AllDigits(parts[1]))
  }

  lemma ReplaceCharNone(s: string, c: char, rep: string)
    requires c !in s
    ensures ReplaceChar(s, c, rep) == s
  {
  }

  lemma FormatInteger(lib: Lib, d: string)
    requires AllDigits(d)
    ensures FormatNumberToVN(lib, Str(d)) == Grouped(d) || d == ""
    ensures CleanVN(Grouped(d)) == d
  {
    DigitsLackChar(d, ',');
    DigitsLackChar(d, '.');
    SplitNoSep(d, '.');
    GroupThousandsDigits(d);
    UngroupGrouped(d);
    ReplaceCharNone(d, ',', ".");
  }

  lemma FormatDecimal(lib: Lib, d: string, e: string)
    requires AllDigits(d) && |e| > 0 && AllDigits(e)
    ensures FormatNumberToVN(lib, Str(d + "." + e)) == Grouped(d) + "," + e
    ensures CleanVN(Grouped(d) + "," + e) == d + "." + e
  {
    DigitsLackChar(d, ',');
    DigitsLackChar(d, '.');
    DigitsLackChar(e, ',');
    DigitsLackChar(e, '.');
    var s := d + "." + e;
    assert Split(s, '.') == [d, e] by { SplitTwo(d, e, '.'); }
    NotInJoin(d, '.', e, ',');
    GroupThousandsDigits(d);
    CleanDecimal(d, e);
  }

  lemma CleanDecimal(d: string, e: string)
    requires '.' !in d && ',' !in d && '.' !in e && ',' !in e
    ensures CleanVN(Grouped(d) + "," + e) == d + "." + e
  {
    UngroupGrouped(d);
    RemoveCharPast(Grouped(d), ',', e, '.');
    ReplaceCharAround(d, e, ',', ".");
    ReplaceCharNone(d, ',', ".");
    ReplaceCharNone(e, ',', ".");
  }

  /** The cleanup of `parseVNToNumber` undoes `formatNumberToVN` on plain decimal
      numerals, so formatting and parsing back gives the number of the original text. */
  lemma ParseFormatRoundTrip(lib: Lib, s: string)
    requires PlainDecimal(s)
    ensures CleanVN(FormatNumberToVN(lib, Str(s))) == s
    ensures ParseVNToNumber(lib, Str(FormatNumberToVN(lib, Str(s)))) == OrZero(lib.parseFloat(s))
  {
    var parts := Split(s, '.');
    JoinSplit(s, '.');
    if |parts| == 1 {
      assert s == parts[0];
      FormatInteger(lib, s);
    } else {
      assert s == parts[0] + "." + parts[1];
      FormatDecimal(lib, parts[0], parts[1]);
    }
  }

  // ---------------------------------------------------------------- processNumberInput

  predicate IsDigitOrComma(c: char)
  {
    IsDigit(c) || c == ','
  }

  /** Step 1 of `processNumberInput`: decides what the '.'s typed without a ',' mean. */
  function ResolveDots(val: string): string
  {
    if ',' !in val then
      if EndsWith(val, '.') then RemoveChar(val, '.') + ","
      else
        var parts := Split(val, '.');
        if |parts| > 1 then
          var lastPart := parts[|parts| - 1];
          if 0 < |lastPart| < 3 then
            var lastDot := LastIndexOf(val, '.');
            assert lastDot >= 0 by {
              if '.' !in val { SplitNoSep(val, '.'); }
            }
            RemoveChar(val[..lastDot], '.') + "," + val[lastDot + 1..]
          else RemoveChar(val, '.')
        else val
    else RemoveChar(val, '.')
  }

  /** Step 3: everything after the first ',' loses its commas. */
  function KeepFirstComma(val: string): string
  {
    var parts := Split(val, ',');
    if |parts| > 2 then parts[0] + "," + Join(parts[1..], "") else val
  }

  /** Step 4: the integer part is regrouped, a decimal part or a final ',' kept. */
  function RegroupInteger(val: string): string
  {
    var currentParts := Split(val, ',');
    var integerPart := GroupThousands(currentParts[0]);
    if |currentParts| > 1 then integerPart + "," + currentParts[1]
    else if EndsWith(val, ',') then integerPart + ","
    else integerPart
  }

  /** `processNumberInput(raw)`; step 2 keeps only digits and ','. */
  function ProcessNumberInput(raw: string): (r: string)
    ensures var (d, e) := InputPieces(raw);
            AllDigits(d) && (e.Some? ==> AllDigits(e.value)) && r == NumberText(d, e)
  {
    RegroupCanonical(raw);
    RegroupInteger(KeepFirstComma(KeepChars(ResolveDots(raw), IsDigitOrComma)))
  }

  /** The canonical text of a number being typed: the integer digits `d` grouped in
      threes with '.', then, if there is a decimal part `e`, a ',' and its digits. */
  function NumberText(d: string, e: Option<string>): string
  {
    if e.Some? then Grouped(d) + "," + e.value else Grouped(d)
  }

  /** Canonical text holds only digits, '.' and ',', with exactly one ',' when there
      is a decimal part and none otherwise. */
  lemma NumberTextChars(d: string, e: Option<string>)
    requires AllDigits(d) && (e.Some? ==> AllDigits(e.value))
    ensures forall c :: c in NumberText(d, e) ==> IsDigit(c) || c == '.' || c == ','
    ensures CountChar(NumberText(d, e), ',') == if e.Some? then 1 else 0
  {
    GroupedChars(d);
    var g := Grouped(d);
    assert ',' !in g;
    CountCharZero(g, ',');
    if e.Some? {
      var x := e.value;
      DigitsLackChar(x, ',');
      CountCharZero(x, ',');
      var t := [','] + x;
      assert t[1..] == x;
      assert CountChar(t, ',') == 1;
      CountCharAppend(g, t, ',');
      assert g + "," + x == g + t;
    }
  }

  lemma {:induction false} CountCharAppend(a: string, b: string, c: char)
    ensures CountChar(a + b, c) == CountChar(a, c) + CountChar(b, c)
    decreases |a|
  {
    if |a| > 0 {
      assert (a + b)[1..] == a[1..] + b;
      CountCharAppend(a[1..], b, c);
    } else {
      assert a + b == b;
    }
  }

  lemma SplitTwo(d: string, x: string, sep: char)
    requires sep !in d && sep !in x
    ensures Split(d + [sep] + x, sep) == [d, x]
  {
    SplitAppend(d, x, sep);
    SplitNoSep(d, sep);
    SplitNoSep(x, sep);
  }

  lemma RegroupOne(d: string)
    requires AllDigits(d)
    ensures RegroupInteger(d) == Grouped(d)
  {
    DigitsLackChar(d, ',');
    SplitNoSep(d, ',');
    GroupThousandsDigits(d);
  }

  lemma RegroupTwo(d: string, x: string)
    requires AllDigits(d) && ',' !in x
    ensures RegroupInteger(d + "," + x) == Grouped(d) + "," + x
  {
    DigitsLackChar(d, ',');
    SplitTwo(d, x, ',');
    GroupThousandsDigits(d);
  }

  lemma KeepFirstCommaOne(d: string)
    requires ',' !in d
    ensures KeepFirstComma(d) == d
  {
    SplitNoSep(d, ',');
  }

  lemma KeepFirstCommaTwo(d: string, x: string)
    requires ',' !in d && ',' !in x
    ensures KeepFirstComma(d + "," + x) == d + "," + x
  {
    SplitTwo(d, x, ',');
  }

  lemma KeepDigits(d: string)
    requires AllDigits(d)
    ensures KeepChars(d, IsDigitOrComma) == d
  {
    KeepCharsAll(d, IsDigitOrComma);
  }

  /** A string of digits and ',' splits, after step 3, into one or two digit pieces. */
  lemma KeepFirstCommaShape(v: string)
    requires forall i :: 0 <= i < |v| ==> IsDigitOrComma(v[i])
    ensures var parts := Split(KeepFirstComma(v), ',');
            |parts| <= 2 && AllDigits(parts[0]) && (|parts| == 2 ==> AllDigits(parts[1]))
  {
    var parts := Split(v, ',');
    PiecesAreDigits(v);
    if |parts| > 2 {
      var rest := Join(parts[1..], "");
      JoinDigits(parts[1..]);
      DigitsLackChar(parts[0], ',');
      DigitsLackChar(rest, ',');
      SplitTwo(parts[0], rest, ',');
    }
  }

  lemma PiecesAreDigits(v: string)
    requires forall i :: 0 <= i < |v| ==> IsDigitOrComma(v[i])
    ensures forall i :: 0 <= i < |Split(v, ',')| ==> AllDigits(Split(v, ',')[i])
  {
    var parts := Split(v, ',');
    SplitChars(v, ',');
    SplitPieces(v, ',');
    forall i, k | 0 <= i < |parts| && 0 <= k < |parts[i]| ensures IsDigit(parts[i][k]) {
      var c := parts[i][k];
      assert c in parts[i];
      assert c in v;
      assert c != ',';
    }
  }

  lemma {:induction false} JoinDigits(parts: seq<string>)
    requires forall i :: 0 <= i < |parts| ==> AllDigits(parts[i])
    ensures AllDigits(Join(parts, ""))
    decreases |parts|
  {
    if |parts| > 1 {
      JoinDigits(parts[1..]);
      assert Join(parts, "") == parts[0] + Join(parts[1..], "");
      DigitsAppend(parts[0], Join(parts[1..], ""));
    }
  }

  /** The integer and decimal digits that `processNumberInput` keeps. */
  function InputPieces(raw: string): (string, Option<string>)
  {
    var parts := Split(KeepFirstComma(KeepChars(ResolveDots(raw), IsDigitOrComma)), ',');
    (parts[0], if |parts| > 1 then Some(parts[1]) else None)
  }

  /** Steps 1 to 4 of `processNumberInput` end in canonical text: digits grouped
      in threes, then at most one ',' and decimal digits. */
  lemma RegroupCanonical(raw: string)
    ensures var (d, e) := InputPieces(raw);
            AllDigits(d) && (e.Some? ==> AllDigits(e.value))
            && RegroupInteger(KeepFirstComma(KeepChars(ResolveDots(raw), IsDigitOrComma)))
               == NumberText(d, e)
  {
    var v2 := KeepChars(ResolveDots(raw), IsDigitOrComma);
    var val := KeepFirstComma(v2);
    KeepFirstCommaShape(v2);
    var cp := Split(val, ',');
    JoinSplit(val, ',');
    if |cp| > 1 {
      assert val == cp[0] + "," + cp[1];
      RegroupTwo(cp[0], cp[1]);
    } else {
      assert val == cp[0];
      RegroupOne(cp[0]);
    }
  }

  /** A grouping of digits does not end with '.'. */
  lemma GroupedEnd(d: string)
    requires AllDigits(d)
    ensures !EndsWith(Grouped(d), '.')
  {
    if |d| > 3 {
      var b := d[|d| - 3..];
      assert Grouped(d)[|Grouped(d)| - 1] == b[2];
    }
  }

  /** Step 1 reads a grouping of digits as thousands separators. */
  lemma ResolveDotsGrouped(d: string)
    requires AllDigits(d)
    ensures ResolveDots(Grouped(d)) == d
  {
    var g := Grouped(d);
    DigitsLackChar(d, '.');
    assert ',' !in g by {
      GroupedChars(d);
    }
    GroupedEnd(d);
    if |d| <= 3 {
      SplitNoSep(d, '.');
    } else {
      LastGroup(d);
      UngroupGrouped(d);
    }
  }

  /** Once step 1 has left only the digits `d`, the rest regroups them. */
  lemma ProcessAfterInteger(raw: string, d: string)
    requires AllDigits(d) && ResolveDots(raw) == d
    ensures ProcessNumberInput(raw) == NumberText(d, None)
  {
    KeepDigits(d);
    DigitsLackChar(d, ',');
    KeepFirstCommaOne(d);
    RegroupOne(d);
  }

  /** Once step 1 has left the digits `d`, a ',' and the digits `x`, the rest
      regroups `d` and keeps `x`. */
  lemma ProcessAfterDecimal(raw: string, d: string, x: string)
    requires AllDigits(d) && AllDigits(x) && ResolveDots(raw) == d + "," + x
    ensures ProcessNumberInput(raw) == NumberText(d, Some(x))
  {
    var v := d + "," + x;
    DigitsLackChar(d, ',');
    DigitsLackChar(x, ',');
    assert KeepChars(v, IsDigitOrComma) == v by {
      KeepCharsPast(d, ',', x, IsDigitOrComma);
      KeepDigits(d);
      KeepDigits(x);
    }
    KeepFirstCommaTwo(d, x);
    RegroupTwo(d, x);
  }

  lemma ProcessNumberInputFixesInteger(d: string)
    requires AllDigits(d)
    ensures ProcessNumberInput(Grouped(d)) == Grouped(d)
  {
    ResolveDotsGrouped(d);
    ProcessAfterInteger(Grouped(d), d);
  }

  lemma ProcessNumberInputFixesDecimal(d: string, x: string)
    requires AllDigits(d) && AllDigits(x)
    ensures ProcessNumberInput(Grouped(d) + "," + x) == Grouped(d) + "," + x
  {
    var g := Grouped(d);
    assert ResolveDots(g + "," + x) == d + "," + x by {
      DigitsLackChar(d, '.');
      DigitsLackChar(x, '.');
      var r := g + "," + x;
      assert r[|g|] == ',';
      UngroupGrouped(d);
      RemoveCharPast(g, ',', x, '.');
    }
    ProcessAfterDecimal(g + "," + x, d, x);
  }

  /** Canonical text is left unchanged by `processNumberInput`. */
  lemma ProcessNumberInputFixes(d: string, e: Option<string>)
    requires AllDigits(d) && (e.Some? ==> AllDigits(e.value))
    ensures ProcessNumberInput(NumberText(d, e)) == NumberText(d, e)
  {
    if e.Some? {
      ProcessNumberInputFixesDecimal(d, e.value);
    } else {
      ProcessNumberInputFixesInteger(d);
    }
  }

  /** Applying `processNumberInput` twice is applying it once. */
  lemma ProcessNumberInputIdempotent(raw: string)
    ensures ProcessNumberInput(ProcessNumberInput(raw)) == ProcessNumberInput(raw)
  {
    var (d, e) := InputPieces(raw);
    assert ProcessNumberInput(raw) == NumberText(d, e);
    ProcessNumberInputFixes(d, e);
  }

  /** Digits and '.'s without the '.'s are digits. */
  lemma {:induction false} DotlessDigits(s: string)
    requires forall i :: 0 <= i < |s| ==> IsDigit(s[i]) || s[i] == '.'
    ensures AllDigits(RemoveChar(s, '.'))
    decreases |s|
  {
    if |s| > 0 {
      DotlessDigits(s[1..]);
    }
  }

  /** A trailing '.' typed without a ',' becomes the decimal comma. */
  lemma TrailingDotIsComma(raw: string)
    requires ',' !in raw && EndsWith(raw, '.')
    requires forall i :: 0 <= i < |raw| ==> IsDigit(raw[i]) || raw[i] == '.'
    ensures ProcessNumberInput(raw) == NumberText(RemoveChar(raw, '.'), Some(""))
  {
    DotlessDigits(raw);
    TrailingDotResolved(raw);
    ProcessAfterDecimal(raw, RemoveChar(raw, '.'), "");
  }

  lemma TrailingDotResolved(raw: string)
    requires ',' !in raw && EndsWith(raw, '.')
    ensures ResolveDots(raw) == RemoveChar(raw, '.') + "," + ""
  {
    var d := RemoveChar(raw, '.');
    assert d + "," == d + "," + "";
  }

  /** The last '.' of `front + "." + back` is the one between them. */
  lemma LastDotAt(front: string, back: string)
    requires '.' !in back
    ensures LastIndexOf(front + "." + back, '.') == |front|
  {
    var raw := front + "." + back;
    assert raw[|front|] == '.';
    assert raw[|front| + 1..] == back;
  }

  /** Without a ',', the '.'-groups of `front + "." + back` end with `back`. */
  lemma ResolveDotsSetting(front: string, back: string)
    requires ',' !in front && AllDigits(back) && |back| > 0
    ensures var raw := front + "." + back;
            ',' !in raw && !EndsWith(raw, '.') && |Split(raw, '.')| > 1
            && Split(raw, '.')[|Split(raw, '.')| - 1] == back
  {
    var raw := front + "." + back;
    DigitsLackChar(back, ',');
    DigitsLackChar(back, '.');
    NotInJoin(front, '.', back, ',');
    assert raw[|raw| - 1] == back[|back| - 1];
    SplitAppend(front, back, '.');
    SplitNoSep(back, '.');
  }

  /** Without a ',', a last '.'-group of one or two digits is the decimal part. */
  lemma ShortLastGroupIsDecimal(front: string, back: string)
    requires ',' !in front && AllDigits(back) && 0 < |back| < 3
    requires forall i :: 0 <= i < |front| ==> IsDigit(front[i]) || front[i] == '.'
    ensures ProcessNumberInput(front + "." + back) == NumberText(RemoveChar(front, '.'), Some(back))
  {
    DotlessDigits(front);
    ShortLastGroupResolved(front, back);
    ProcessAfterDecimal(front + "." + back, RemoveChar(front, '.'), back);
  }

  lemma ShortLastGroupResolved(front: string, back: string)
    requires ',' !in front && AllDigits(back) && 0 < |back| < 3
    ensures ResolveDots(front + "." + back) == RemoveChar(front, '.') + "," + back
  {
    var raw := front + "." + back;
    ResolveDotsSetting(front, back);
    DigitsLackChar(back, '.');
    LastDotAt(front, back);
    assert raw[..|front|] == front && raw[|front| + 1..] == back;
  }

  /** Without a ',', '.'s before a last group of three or more digits are thousands
      separators: they are dropped and the digits regrouped. */
  lemma LongLastGroupIsThousands(front: string, back: string)
    requires ',' !in front && AllDigits(back) && |back| >= 3
    requires forall i :: 0 <= i < |front| ==> IsDigit(front[i]) || front[i] == '.'
    ensures ProcessNumberInput(front + "." + back) == NumberText(RemoveChar(front, '.') + back, None)
  {
    var raw := front + "." + back;
    var d := RemoveChar(front, '.');
    DotlessDigits(front);
    DigitsAppend(d, back);
    assert ResolveDots(raw) == d + back by {
      ResolveDotsSetting(front, back);
      DigitsLackChar(back, '.');
      RemoveCharAround(front, back, '.');
    }
    ProcessAfterInteger(raw, d + back);
  }

  // ---------------------------------------------------------------- date-time text

  /** `String(year)`. */
  function YearText(y: int): string
  {
    if y < 0 then "-" + NatToString(-y) else NatToString(y)
  }

  /** `DD/MM/YYYY` of `formatDateTime`. */
  function DateText(d: Date): string
    requires ValidDate(d)
  {
    Pad2(d.day) + "/" + Pad2(d.month + 1) + "/" + YearText(d.year)
  }

  /** `HH:MM:SS` of `formatDateTime`. */
  function TimeText(t: DateTime): string
    requires ValidDateTime(t)
  {
    Pad2(t.hour) + ":" + Pad2(t.minute) + ":" + Pad2(t.second)
  }

  /** `formatDateTime(date)`: `DD/MM/YYYY HH:MM:SS`, every field but the year padded
      to two digits. */
  function FormatDateTime(t: DateTime): (r: string)
    requires ValidDateTime(t)
    ensures 0 <= t.date.year ==> Split(r, ' ') == [DateText(t.date), TimeText(t)]
  {
    assert 0 <= t.date.year ==> Split(DateText(t.date) + " " + TimeText(t), ' ')
                                == [DateText(t.date), TimeText(t)] by {
      if 0 <= t.date.year {
        DateTextFields(t.date);
        TimeTextFields(t);
        SplitTwo(DateText(t.date), TimeText(t), ' ');
      }
    }
    DateText(t.date) + " " + TimeText(t)
  }

  /** `parseVNDateTimeToTimestamp(text)`: 0 for empty text, for text without a time
      after the date, and for a date or time of the wrong number of fields;
      otherwise the local time value, seconds defaulting to 0. */
  function ParseVNDateTimeToTimestamp(text: string): (r: Num)
    ensures text == "" ==> r == Fin(0.0)
    ensures ' ' !in Trim(text) ==> r == Fin(0.0)
  {
    assert ' ' !in Trim(text) ==> Split(Trim(text), ' ') == [Trim(text)] by {
      if ' ' !in Trim(text) { SplitNoSep(Trim(text), ' '); }
    }
    if text == "" then Fin(0.0)
    else
      var parts := Split(Trim(text), ' ');
      if |parts| < 2 then Fin(0.0)
      else
        var dParts := Split(parts[0], '/');
        var tParts := Split(parts[1], ':');
        if |dParts| != 3 || |tParts| < 2 then Fin(0.0)
        else
          NewDate(ParseInt(dParts[2]), MinusOne(ParseInt(dParts[1])),
                  ParseInt(dParts[0]), ParseInt(tParts[0]), ParseInt(tParts[1]),
                  if |tParts| > 2 && tParts[2] != "" then ParseInt(tParts[2]) else Some(0))
  }

  /** `n - 1` on a number that may be NaN. */
  function MinusOne(n: Option<int>): (r: Option<int>)
    ensures r.Some? <==> n.Some?
    ensures r.Some? ==> r.value == n.value - 1
  {
    if n.Some? then Some(n.value - 1) else None
  }

  lemma ParseIntYear(y: int)
    requires 0 <= y
    ensures ParseInt(YearText(y)) == Some(y)
  {
    ParseIntOfDigits(NatToString(y));
    NatToStringValue(y);
  }

  /** Three separator-free pieces joined by a separator split back into themselves. */
  lemma SplitThree(a: string, b: string, c: string, sep: char)
    requires sep !in a && sep !in b && sep !in c
    ensures Split(a + [sep] + b + [sep] + c, sep) == [a, b, c]
  {
    SplitAppend(a + [sep] + b, c, sep);
    SplitTwo(a, b, sep);
    SplitNoSep(c, sep);
  }

  lemma DateTextFields(d: Date)
    requires ValidDate(d) && 0 <= d.year
    ensures Split(DateText(d), '/') == [Pad2(d.day), Pad2(d.month + 1), YearText(d.year)]
    ensures ' ' !in DateText(d) && IsDigit(DateText(d)[0])
  {
    var dd, mm, yy := Pad2(d.day), Pad2(d.month + 1), YearText(d.year);
    DigitsLackChar(dd, '/');
    DigitsLackChar(mm, '/');
    DigitsLackChar(yy, '/');
    SplitThree(dd, mm, yy, '/');
    DigitsLackChar(dd, ' ');
    DigitsLackChar(mm, ' ');
    DigitsLackChar(yy, ' ');
    NotInJoin(dd, '/', mm, ' ');
    NotInJoin(dd + "/" + mm, '/', yy, ' ');
  }

  lemma TimeTextFields(t: DateTime)
    requires ValidDateTime(t)
    ensures Split(TimeText(t), ':') == [Pad2(t.hour), Pad2(t.minute), Pad2(t.second)]
    ensures ' ' !in TimeText(t) && IsDigit(TimeText(t)[|TimeText(t)| - 1])
  {
    var h, mi, s := Pad2(t.hour), Pad2(t.minute), Pad2(t.second);
    DigitsLackChar(h, ':');
    DigitsLackChar(mi, ':');
    DigitsLackChar(s, ':');
    SplitThree(h, mi, s, ':');
    DigitsLackChar(h, ' ');
    DigitsLackChar(mi, ' ');
    DigitsLackChar(s, ' ');
    NotInJoin(h, ':', mi, ' ');
    NotInJoin(h + ":" + mi, ':', s, ' ');
    assert TimeText(t)[|TimeText(t)| - 1] == s[|s| - 1];
  }

  /** The text of a date-time with a year from 0 on is trimmed already and splits
      into its date and time at the one space. */
  lemma FormatDateTimeParts(t: DateTime)
    requires ValidDateTime(t) && 0 <= t.date.year
    ensures var r := FormatDateTime(t);
            r != "" && Trim(r) == r && Split(Trim(r), ' ') == [DateText(t.date), TimeText(t)]
  {
    var a, b := DateText(t.date), TimeText(t);
    DateTextFields(t.date);
    TimeTextFields(t);
    var r := a + " " + b;
    assert r[0] == a[0] && r[|r| - 1] == b[|b| - 1];
    TrimIdempotent(r);
    SplitTwo(a, b, ' ');
  }

  /** Years 100 to 200000 keep the time value inside the range `Date` accepts. */
  lemma LocalTimeInRange(t: DateTime)
    requires ValidDateTime(t) && 100 <= t.date.year <= 200000
    ensures var v := LocalTime(t.date.year, t.date.month, t.date.day, t.hour, t.minute, t.second);
            -8640000000000000 <= v <= 8640000000000000
  {
    LocalTimeOfValid(t);
    DayNumberInYear(t.date);
    DaysBeforeYearMonotone(0, t.date.year);
    DaysBeforeYearMonotone(t.date.year + 1, 200001);
  }

  /** A trimmed text of a date and a time with three fields each is read field by field. */
  lemma ParseVNOfFields(text: string, a: string, b: string,
                        dd: string, mm: string, yy: string, h: string, mi: string, s: string)
    requires text != "" && Split(Trim(text), ' ') == [a, b]
    requires Split(a, '/') == [dd, mm, yy] && Split(b, ':') == [h, mi, s] && s != ""
    ensures ParseVNDateTimeToTimestamp(text)
            == NewDate(ParseInt(yy), MinusOne(ParseInt(mm)), ParseInt(dd), ParseInt(h), ParseInt(mi), ParseInt(s))
  {
  }

  /** `new Date` of integer fields with a year from 100 on and a time value in range. */
  lemma NewDateOfFields(y: int, m: int, d: int, h: int, mi: int, s: int)
    requires 100 <= y
    requires -8640000000000000 <= LocalTime(y, m, d, h, mi, s) <= 8640000000000000
    ensures NewDate(Some(y), Some(m), Some(d), Some(h), Some(mi), Some(s))
            == Fin(LocalTime(y, m, d, h, mi, s) as real)
  {
  }

  /** The formatted text is read back as the padded fields it was made of. */
  lemma ParseFormattedFields(t: DateTime)
    requires ValidDateTime(t) && 0 <= t.date.year
    ensures var dd, mm, yy := Pad2(t.date.day), Pad2(t.date.month + 1), YearText(t.date.year);
            var h, mi, s := Pad2(t.hour), Pad2(t.minute), Pad2(t.second);
            ParseVNDateTimeToTimestamp(FormatDateTime(t))
            == NewDate(ParseInt(yy), MinusOne(ParseInt(mm)), ParseInt(dd), ParseInt(h), ParseInt(mi), ParseInt(s))
  {
    var dd, mm, yy := Pad2(t.date.day), Pad2(t.date.month + 1), YearText(t.date.year);
    var h, mi, s := Pad2(t.hour), Pad2(t.minute), Pad2(t.second);
    var text, a, b := FormatDateTime(t), DateText(t.date), TimeText(t);
    assert Split(a, '/') == [dd, mm, yy] by { DateTextFields(t.date); }
    assert Split(b, ':') == [h, mi, s] && s != "" by { TimeTextFields(t); }
    assert text != "" && Split(Trim(text), ' ') == [a, b] by { FormatDateTimeParts(t); }
    ParseVNOfFields(text, a, b, dd, mm, yy, h, mi, s);
  }

  /** The padded fields of a date-time from year 100 on make its time value again. */
  lemma NewDateOfPaddedFields(t: DateTime)
    requires ValidDateTime(t) && 100 <= t.date.year <= 200000
    ensures var dd, mm, yy := Pad2(t.date.day), Pad2(t.date.month + 1), YearText(t.date.year);
            var h, mi, s := Pad2(t.hour), Pad2(t.minute), Pad2(t.second);
            NewDate(ParseInt(yy), MinusOne(ParseInt(mm)), ParseInt(dd), ParseInt(h), ParseInt(mi), ParseInt(s))
            == Fin(LocalTime(t.date.year, t.date.month, t.date.day, t.hour, t.minute, t.second) as real)
  {
    ParseIntPad2(t.date.day);
    ParseIntPad2(t.date.month + 1);
    ParseIntYear(t.date.year);
    ParseIntPad2(t.hour);
    ParseIntPad2(t.minute);
    ParseIntPad2(t.second);
    LocalTimeInRange(t);
    NewDateOfFields(t.date.year, t.date.month, t.date.day, t.hour, t.minute, t.second);
  }

  /** Parsing the output of `formatDateTime` gives the time value of the same
      date-time (years from 100 on, where `new Date` takes the year as given). */
  lemma FormatParseRoundTrip(t: DateTime)
    requires ValidDateTime(t) && 100 <= t.date.year <= 200000
    ensures ParseVNDateTimeToTimestamp(FormatDateTime(t))
            == Fin(LocalTime(t.date.year, t.date.month, t.date.day, t.hour, t.minute, t.second) as real)
  {
    ParseFormattedFields(t);
    NewDateOfPaddedFields(t);
  }
}
