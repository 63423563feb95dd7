/** String operations of the JavaScript host that the source uses: `split` on one
    character, `join`, `trim`, `includes`, character replacement, `padStart` and
    `parseInt` in base 10. Strings are sequences of Unicode scalar values (`char`);
    the host's UTF-16 code units are not modelled. */
module Text {
  import opened Js
  import Seqs

  predicate IsDigit(c: char)
  {
    '0' <= c <= '9'
  }

  /** A word character of a regular expression (`\w`). */
  predicate IsWordChar(c: char)
  {
    IsDigit(c) || ('a' <= c <= 'z') || ('A' <= c <= 'Z') || c == '_'
  }

  /** White space as `String.prototype.trim` removes it: the ECMAScript white space
      (tab, vertical tab, form feed, space, no-break space, the byte order mark and
      the space separators of Unicode) and the line terminators. */
  predicate IsSpace(c: char)
  {
    c == ' ' || c == '\t' || c == '\n' || c == '\r' || c == '\U{000B}' || c == '\U{000C}'
    || c == '\U{00A0}' || c == '\U{1680}' || ('\U{2000}' <= c <= '\U{200A}')
    || c == '\U{2028}' || c == '\U{2029}' || c == '\U{202F}' || c == '\U{205F}'
    || c == '\U{3000}' || c == '\U{FEFF}'
  }

  predicate AllDigits(s: string)
  {
    forall i :: 0 <= i < |s| ==> IsDigit(s[i])
  }

  // ---------------------------------------------------------------- trim

  function TrimStart(s: string): (r: string)
    ensures |r| <= |s| && r == s[|s| - |r|..]
    ensures r == [] || !IsSpace(r[0])
    ensures forall i :: 0 <= i < |s| - |r| ==> IsSpace(s[i])
  {
    if |s| > 0 && IsSpace(s[0]) then TrimStart(s[1..]) else s
  }

  function TrimEnd(s: string): (r: string)
    ensures |r| <= |s| && r == s[..|r|]
    ensures r == [] || !IsSpace(r[|r| - 1])
    ensures forall i :: |r| <= i < |s| ==> IsSpace(s[i])
  {
    if |s| > 0 && IsSpace(s[|s| - 1]) then TrimEnd(s[..|s| - 1]) else s
  }

  /** `s.trim()`. */
  function Trim(s: string): (r: string)
  {
    TrimEnd(TrimStart(s))
  }

  /** A string without white space at either end is its own trim. */
  lemma TrimIdempotent(s: string)
    requires s == [] || (!IsSpace(s[0]) && !IsSpace(s[|s| - 1]))
    ensures Trim(s) == s
  {
  }

  /** Trimming twice is trimming once. */
  lemma TrimTrim(s: string)
    ensures Trim(Trim(s)) == Trim(s)
  {
    var t := TrimStart(s);
    var r := TrimEnd(t);
    if r != [] {
      assert r[0] == t[0];
    }
    TrimIdempotent(r);
  }

  /** Trimming introduces no character. */
  lemma TrimChars(s: string, c: char)
    requires c in Trim(s)
    ensures c in s
  {
    var t := TrimStart(s);
    var r := TrimEnd(t);
    var i :| 0 <= i < |r| && r[i] == c;
    assert t[i] == c;
    assert s[|s| - |t| + i] == c;
  }

  // ---------------------------------------------------------------- split / join

  /** `s.split(sep)` for a one-character separator. */
  function Split(s: string, sep: char): (parts: seq<string>)
    ensures |parts| >= 1
    decreases |s|
  {
    if |s| == 0 then [""]
    else
      var rest := Split(s[1..], sep);
      if s[0] == sep then [""] + rest else [[s[0]] + rest[0]] + rest[1..]
  }

  /** `parts.join(sep)`. */
  function Join(parts: seq<string>, sep: string): string
  {
    if |parts| == 0 then ""
    else if |parts| == 1 then parts[0]
    else parts[0] + sep + Join(parts[1..], sep)
  }

  /** No piece of a split holds the separator. */
  lemma {:induction false} SplitPieces(s: string, sep: char)
    ensures forall i :: 0 <= i < |Split(s, sep)| ==> sep !in Split(s, sep)[i]
    decreases |s|
  {
    if |s| > 0 {
      SplitPieces(s[1..], sep);
      var rest := Split(s[1..], sep);
      if s[0] != sep {
        var p := Split(s, sep);
        forall i | 0 <= i < |p| ensures sep !in p[i] {
          if i == 0 {
            assert p[0] == [s[0]] + rest[0];
          } else {
            assert p[i] == rest[i];
          }
        }
      }
    }
  }

  /** Joining the pieces of a split restores the string. */
  lemma {:induction false} JoinSplit(s: string, sep: char)
    ensures Join(Split(s, sep), [sep]) == s
    decreases |s|
  {
    if |s| > 0 {
      var rest := Split(s[1..], sep);
      JoinSplit(s[1..], sep);
      if s[0] == sep {
        assert Split(s, sep) == [""] + rest;
        assert s == [sep] + s[1..];
      } else {
        var p := [[s[0]] + rest[0]] + rest[1..];
        assert Split(s, sep) == p;
        if |rest| == 1 {
          assert Join(p, [sep]) == [s[0]] + rest[0];
        } else {
          assert Join(p, [sep]) == [s[0]] + rest[0] + [sep] + Join(rest[1..], [sep]);
          assert Join(rest, [sep]) == rest[0] + [sep] + Join(rest[1..], [sep]);
        }
        assert s == [s[0]] + s[1..];
      }
    }
  }

  /** Joining pieces that lack `x` with a separator other than `x` gives a text
      without `x`. */
  lemma {:induction false} JoinLacks(parts: seq<string>, sep: char, x: char)
    requires x != sep
    requires forall i :: 0 <= i < |parts| ==> x !in parts[i]
    ensures x !in Join(parts, [sep])
    decreases |parts|
  {
    if |parts| > 1 {
      var rest := parts[1..];
      assert forall i :: 0 <= i < |rest| ==> x !in rest[i] by {
        forall i | 0 <= i < |rest| ensures x !in rest[i] {
          assert rest[i] == parts[i + 1];
        }
      }
      JoinLacks(rest, sep, x);
      NotInJoin(parts[0], sep, Join(rest, [sep]), x);
    }
  }

  /** Every piece of a split is made of characters of the string. */
  lemma {:induction false} SplitChars(s: string, sep: char)
    ensures forall i, c :: 0 <= i < |Split(s, sep)| && c in Split(s, sep)[i] ==> c in s
    decreases |s|
  {
    if |s| > 0 {
      SplitChars(s[1..], sep);
      var rest := Split(s[1..], sep);
      assert forall c :: c in s[1..] ==> c in s;
      if s[0] != sep {
        var p := Split(s, sep);
        assert p == [[s[0]] + rest[0]] + rest[1..];
        forall i, c | 0 <= i < |p| && c in p[i] ensures c in s {
          if i > 0 {
            assert p[i] == rest[i];
          } else if c != s[0] {
            assert c in rest[0];
          }
        }
      }
    }
  }

  lemma SplitConsSep(s: string, sep: char)
    ensures Split([sep] + s, sep) == [""] + Split(s, sep)
  {
    assert ([sep] + s)[1..] == s;
  }

  lemma SplitConsOther(x: char, s: string, sep: char)
    requires x != sep
    ensures Split([x] + s, sep) == [[x] + Split(s, sep)[0]] + Split(s, sep)[1..]
  {
    assert ([x] + s)[1..] == s;
  }

  lemma SplitStepSep(a: string, b: string, sep: char)
    requires Split(a + [sep] + b, sep) == Split(a, sep) + Split(b, sep)
    ensures Split([sep] + a + [sep] + b, sep) == Split([sep] + a, sep) + Split(b, sep)
  {
    var rest := a + [sep] + b;
    assert [sep] + a + [sep] + b == [sep] + rest;
    SplitConsSep(rest, sep);
    SplitConsSep(a, sep);
    SeqAppendAssoc([""], Split(a, sep), Split(b, sep));
  }

  lemma SeqAppendAssoc(x: seq<string>, y: seq<string>, z: seq<string>)
    ensures x + (y + z) == (x + y) + z
  {
  }

  lemma ConsHeadAppend(x: char, ra: seq<string>, rb: seq<string>)
    requires |ra| >= 1
    ensures [[x] + (ra + rb)[0]] + (ra + rb)[1..] == ([[x] + ra[0]] + ra[1..]) + rb
  {
    assert (ra + rb)[0] == ra[0];
    assert (ra + rb)[1..] == ra[1..] + rb;
  }

  lemma SplitStepOther(x: char, a: string, b: string, sep: char)
    requires x != sep
    requires Split(a + [sep] + b, sep) == Split(a, sep) + Split(b, sep)
    ensures Split([x] + a + [sep] + b, sep) == Split([x] + a, sep) + Split(b, sep)
  {
    var rest := a + [sep] + b;
    assert [x] + a + [sep] + b == [x] + rest;
    SplitConsOther(x, rest, sep);
    SplitConsOther(x, a, sep);
    ConsHeadAppend(x, Split(a, sep), Split(b, sep));
  }

  /** Splitting at a separator between `a` and `b` splits `a` and `b` separately. */
  lemma {:induction false} SplitAppend(a: string, b: string, sep: char)
    ensures Split(a + [sep] + b, sep) == Split(a, sep) + Split(b, sep)
    decreases |a|
  {
    if |a| == 0 {
      assert a + [sep] + b == [sep] + b;
      SplitConsSep(b, sep);
    } else {
      var x, a1 := a[0], a[1..];
      assert a == [x] + a1;
      assert a + [sep] + b == [x] + a1 + [sep] + b;
      SplitAppend(a1, b, sep);
      if x == sep {
        SplitStepSep(a1, b, sep);
      } else {
        SplitStepOther(x, a1, b, sep);
      }
    }
  }

  /** A string without the separator splits into itself. */
  lemma {:induction false} SplitNoSep(s: string, sep: char)
    requires sep !in s
    ensures Split(s, sep) == [s]
    decreases |s|
  {
    if |s| > 0 {
      var x, s1 := s[0], s[1..];
      assert s == [x] + s1;
      SplitNoSep(s1, sep);
      SplitConsOther(x, s1, sep);
    }
  }

  /** Splitting a join of separator-free pieces gives the pieces back. */
  lemma {:induction false} SplitJoin(parts: seq<string>, sep: char)
    requires |parts| >= 1
    requires forall i :: 0 <= i < |parts| ==> sep !in parts[i]
    ensures Split(Join(parts, [sep]), sep) == parts
    decreases |parts|
  {
    if |parts| == 1 {
      SplitNoSep(parts[0], sep);
    } else {
      var rest := parts[1..];
      assert forall i :: 0 <= i < |rest| ==> sep !in rest[i] by {
        forall i | 0 <= i < |rest| ensures sep !in rest[i] {
          assert rest[i] == parts[i + 1];
        }
      }
      SplitJoin(rest, sep);
      assert Join(parts, [sep]) == parts[0] + [sep] + Join(rest, [sep]);
      SplitAppend(parts[0], Join(rest, [sep]), sep);
      SplitNoSep(parts[0], sep);
      assert parts == [parts[0]] + rest;
    }
  }

  /** A character other than the separator is in neither side only if it is not in
      their join. */
  lemma NotInJoin(a: string, sep: char, b: string, x: char)
    requires x != sep && x !in a && x !in b
    ensures x !in a + [sep] + b
  {
    var s := a + [sep] + b;
    forall i | 0 <= i < |s| ensures s[i] != x {
      if i < |a| {
        assert s[i] == a[i];
      } else if i > |a| {
        assert s[i] == b[i - |a| - 1];
      }
    }
  }

  lemma DigitsAppend(a: string, b: string)
    requires AllDigits(a) && AllDigits(b)
    ensures AllDigits(a + b)
  {
    var s := a + b;
    forall i | 0 <= i < |s| ensures IsDigit(s[i]) {
      if i < |a| {
        assert s[i] == a[i];
      } else {
        assert s[i] == b[i - |a|];
      }
    }
  }

  predicate EndsWith(s: string, c: char)
  {
    |s| > 0 && s[|s| - 1] == c
  }

  /** `s.indexOf(c)`: the first index holding `c`, or -1. */
  function IndexOf(s: string, c: char): (k: int)
    ensures -1 <= k < |s|
    ensures k == -1 <==> c !in s
    ensures k >= 0 ==> s[k] == c && forall j :: 0 <= j < k ==> s[j] != c
  {
    if |s| == 0 then -1
    else if s[0] == c then 0
    else
      var k := IndexOf(s[1..], c);
      assert s == [s[0]] + s[1..];
      if k >= 0 then k + 1 else -1
  }

  /** `s.lastIndexOf(c)`: the last index holding `c`, or -1. */
  function LastIndexOf(s: string, c: char): (k: int)
    ensures -1 <= k < |s|
    ensures k == -1 <==> c !in s
    ensures k >= 0 ==> s[k] == c && c !in s[k + 1..]
  {
    if |s| == 0 then -1
    else if s[|s| - 1] == c then |s| - 1
    else
      var init := s[..|s| - 1];
      var k := LastIndexOf(init, c);
      assert s == init + [s[|s| - 1]];
      assert c in s <==> c in init;
      if k >= 0 then
        assert s[k + 1..] == init[k + 1..] + [s[|s| - 1]];
        k
      else k
  }

  // ---------------------------------------------------------------- search and replace

  /** `hay.includes(needle)`. */
  predicate Contains(hay: string, needle: string)
  {
    exists i :: 0 <= i <= |hay| && OccursAt(hay, needle, i)
  }

  /** `needle` occurs in `hay` starting at index `i`. */
  predicate OccursAt(hay: string, needle: string, i: int)
  {
    0 <= i && i + |needle| <= |hay| && hay[i..i + |needle|] == needle
  }

  lemma ContainsEmpty(hay: string)
    ensures Contains(hay, "")
  {
    assert OccursAt(hay, "", 0);
  }

  /** `s.replace(/c/g, rep)`: every occurrence of the character `c` becomes `rep`. */
  function ReplaceChar(s: string, c: char, rep: string): (r: string)
    ensures c !in rep ==> c !in r
    ensures c !in s ==> r == s
  {
    if |s| == 0 then ""
    else (if s[0] == c then rep else [s[0]]) + ReplaceChar(s[1..], c, rep)
  }

  /** Removing every `c`; inserting only `c`s and removing them again is the identity. */
  function RemoveChar(s: string, c: char): (r: string)
    ensures c !in r
    ensures |r| <= |s|
    ensures c !in s ==> r == s
  {
    if |s| == 0 then ""
    else (if s[0] == c then "" else [s[0]]) + RemoveChar(s[1..], c)
  }

  /** Removing a character introduces no other character. */
  lemma {:induction false} RemoveCharChars(s: string, c: char)
    ensures forall x :: x in RemoveChar(s, c) ==> x in s
    decreases |s|
  {
    if |s| > 0 {
      RemoveCharChars(s[1..], c);
    }
  }

  lemma RemoveCharAppend(a: string, b: string, c: char)
    ensures RemoveChar(a + b, c) == RemoveChar(a, c) + RemoveChar(b, c)
  {
    if |a| > 0 {
      assert (a + b)[1..] == a[1..] + b;
      RemoveCharAppend(a[1..], b, c);
    } else {
      assert a + b == b;
    }
  }

  lemma RemoveCharSkip(s: string, c: char)
    requires |s| > 0 && s[0] == c
    ensures RemoveChar(s, c) == RemoveChar(s[1..], c)
  {
  }

  lemma RemoveCharKeep(s: string, c: char)
    requires |s| > 0 && s[0] != c
    ensures RemoveChar(s, c) == [s[0]] + RemoveChar(s[1..], c)
  {
  }

  /** Removing `c` around a `c` between `a` and `b`. */
  lemma RemoveCharAround(a: string, b: string, c: char)
    ensures RemoveChar(a + [c] + b, c) == RemoveChar(a, c) + RemoveChar(b, c)
  {
    var t := [c] + b;
    assert t[1..] == b;
    assert RemoveChar(t, c) == RemoveChar(b, c) by { RemoveCharSkip(t, c); }
    RemoveCharAppend(a, t, c);
    assert a + [c] + b == a + t;
  }

  /** Removing `c` keeps a different character `sep` between `a` and `b`. */
  lemma RemoveCharPast(a: string, sep: char, b: string, c: char)
    requires sep != c
    ensures RemoveChar(a + [sep] + b, c) == RemoveChar(a, c) + [sep] + RemoveChar(b, c)
  {
    var t := [sep] + b;
    var x, y := RemoveChar(a, c), RemoveChar(b, c);
    assert RemoveChar(t, c) == [sep] + y by {
      assert t[1..] == b;
      RemoveCharKeep(t, c);
    }
    assert RemoveChar(a + t, c) == x + ([sep] + y) by {
      RemoveCharAppend(a, t, c);
    }
    StringConsAssoc(a, sep, b);
    StringConsAssoc(x, sep, y);
  }

  lemma StringConsAssoc(a: string, sep: char, b: string)
    ensures a + ([sep] + b) == a + [sep] + b
  {
  }

  lemma {:induction false} ReplaceCharAppend(a: string, b: string, c: char, rep: string)
    ensures ReplaceChar(a + b, c, rep) == ReplaceChar(a, c, rep) + ReplaceChar(b, c, rep)
    decreases |a|
  {
    if |a| > 0 {
      assert (a + b)[1..] == a[1..] + b;
      ReplaceCharAppend(a[1..], b, c, rep);
    } else {
      assert a + b == b;
    }
  }

  lemma ReplaceCharHead(s: string, c: char, rep: string)
    requires |s| > 0 && s[0] == c
    ensures ReplaceChar(s, c, rep) == rep + ReplaceChar(s[1..], c, rep)
  {
  }

  /** Replacing the `c` between `a` and `b`. */
  lemma ReplaceCharAround(a: string, b: string, c: char, rep: string)
    ensures ReplaceChar(a + [c] + b, c, rep) == ReplaceChar(a, c, rep) + rep + ReplaceChar(b, c, rep)
  {
    var t := [c] + b;
    assert t[1..] == b;
    assert ReplaceChar(t, c, rep) == rep + ReplaceChar(b, c, rep) by { ReplaceCharHead(t, c, rep); }
    ReplaceCharAppend(a, t, c, rep);
    assert a + [c] + b == a + t;
    var x, y := ReplaceChar(a, c, rep), ReplaceChar(b, c, rep);
    assert x + (rep + y) == x + rep + y;
  }

  /** The characters of `s` that satisfy `keep`, in order: only such characters,
      each as often as in `s` (KeepCharsCounts), in the order of `s`
      (KeepCharsSubseq). */
  function KeepChars(s: string, keep: char -> bool): (r: string)
    ensures |r| <= |s|
    ensures forall i :: 0 <= i < |r| ==> keep(r[i])
  {
    if |s| == 0 then ""
    else (if keep(s[0]) then [s[0]] else "") + KeepChars(s[1..], keep)
  }

  /** Every character that satisfies `keep` is kept as often as it occurs in `s`,
      and no other character is kept. */
  lemma {:induction false} KeepCharsCounts(s: string, keep: char -> bool)
    ensures forall c :: keep(c) ==> multiset(KeepChars(s, keep))[c] == multiset(s)[c]
    ensures forall c :: !keep(c) ==> multiset(KeepChars(s, keep))[c] == 0
  {
    if |s| > 0 {
      KeepCharsCounts(s[1..], keep);
      assert s == [s[0]] + s[1..];
    }
  }

  /** The kept characters form a subsequence of `s`. */
  lemma KeepCharsSubseq(s: string, keep: char -> bool)
    ensures Seqs.IsSubseq(KeepChars(s, keep), s)
  {
    KeepCharsIsFilter(s, keep);
    Seqs.FilterIsSubseq(s, keep);
  }

  /** Keeping characters is filtering the sequence of characters. */
  lemma {:induction false} KeepCharsIsFilter(s: string, keep: char -> bool)
    ensures KeepChars(s, keep) == Seqs.Filter(s, keep)
  {
    if |s| > 0 {
      KeepCharsIsFilter(s[1..], keep);
    }
  }

  lemma KeepCharsAll(s: string, keep: char -> bool)
    requires forall i :: 0 <= i < |s| ==> keep(s[i])
    ensures KeepChars(s, keep) == s
  {
  }

  lemma {:induction false} KeepCharsAppend(a: string, b: string, keep: char -> bool)
    ensures KeepChars(a + b, keep) == KeepChars(a, keep) + KeepChars(b, keep)
    decreases |a|
  {
    if |a| > 0 {
      assert (a + b)[1..] == a[1..] + b;
      KeepCharsAppend(a[1..], b, keep);
    } else {
      assert a + b == b;
    }
  }

  lemma KeepCharsHead(s: string, keep: char -> bool)
    requires |s| > 0 && keep(s[0])
    ensures KeepChars(s, keep) == [s[0]] + KeepChars(s[1..], keep)
  {
  }

  /** A kept separator between `a` and `b` stays between them. */
  lemma KeepCharsPast(a: string, sep: char, b: string, keep: char -> bool)
    requires keep(sep)
    ensures KeepChars(a + [sep] + b, keep) == KeepChars(a, keep) + [sep] + KeepChars(b, keep)
  {
    var t := [sep] + b;
    assert t[1..] == b;
    assert KeepChars(t, keep) == [sep] + KeepChars(b, keep) by { KeepCharsHead(t, keep); }
    KeepCharsAppend(a, t, keep);
    assert a + [sep] + b == a + t;
    var x, y := KeepChars(a, keep), KeepChars(b, keep);
    assert x + ([sep] + y) == x + [sep] + y;
  }

  function CountChar(s: string, c: char): nat
  {
    if |s| == 0 then 0 else (if s[0] == c then 1 else 0) + CountChar(s[1..], c)
  }

  lemma CountCharZero(s: string, c: char)
    ensures CountChar(s, c) == 0 <==> c !in s
  {
  }

  // ---------------------------------------------------------------- numbers as text

  function DigitChar(d: nat): (c: char)
    requires d < 10
    ensures IsDigit(c) && c as int == '0' as int + d
  {
    ('0' as int + d) as char
  }

  function DigitValue(c: char): (d: nat)
    requires IsDigit(c)
    ensures d < 10 && DigitChar(d) == c
  {
    (c as int - '0' as int) as nat
  }

  /** `String(n)` for a natural number: its decimal digits without leading zeros. */
  function NatToString(n: nat): (s: string)
    ensures |s| >= 1 && AllDigits(s)
    ensures |s| > 1 ==> s[0] != '0'
    ensures n < 10 <==> |s| == 1
    ensures n < 100 ==> |s| <= 2
    decreases n
  {
    if n < 10 then [DigitChar(n)] else NatToString(n / 10) + [DigitChar(n % 10)]
  }

  /** The value of a string of decimal digits. */
  function DigitsValue(s: string): nat
    requires AllDigits(s)
  {
    if |s| == 0 then 0 else 10 * DigitsValue(s[..|s| - 1]) + DigitValue(s[|s| - 1])
  }

  /** Appending a digit shifts the value one decimal place. */
  lemma DigitsValueSnoc(init: string, c: char)
    requires AllDigits(init) && IsDigit(c)
    ensures AllDigits(init + [c])
    ensures DigitsValue(init + [c]) == 10 * DigitsValue(init) + DigitValue(c)
  {
    var s := init + [c];
    assert s[..|s| - 1] == init;
  }

  lemma {:induction false} NatToStringValue(n: nat)
    ensures DigitsValue(NatToString(n)) == n
    decreases n
  {
    if n >= 10 {
      var q, r := n / 10, n % 10;
      NatToStringValue(q);
      DigitsValueSnoc(NatToString(q), DigitChar(r));
      assert DigitValue(DigitChar(r)) == r;
    }
  }

  /** `String(n).padStart(2, '0')`. */
  function Pad2(n: nat): (s: string)
    ensures |s| >= 2 && AllDigits(s)
    ensures n < 100 ==> |s| == 2
  {
    var t := NatToString(n);
    if |t| < 2 then "0" + t else t
  }

  lemma Pad2Value(n: nat)
    ensures DigitsValue(Pad2(n)) == n
  {
    NatToStringValue(n);
    var t := NatToString(n);
    if |t| < 2 {
      var p := "0" + t;
      assert p[..|p| - 1] == "0";
      assert DigitsValue("0") == 0 by { assert "0"[..0] == ""; }
    }
  }

  /** Length of the run of digits at the start of `s`. */
  function DigitPrefix(s: string): (k: nat)
    ensures k <= |s| && AllDigits(s[..k])
    ensures k < |s| ==> !IsDigit(s[k])
  {
    if |s| > 0 && IsDigit(s[0]) then
      var k := 1 + DigitPrefix(s[1..]);
      assert s[..k] == [s[0]] + s[1..][..k - 1];
      k
    else 0
  }

  lemma DigitPrefixAll(s: string)
    requires AllDigits(s)
    ensures DigitPrefix(s) == |s|
  {
    if |s| > 0 {
      DigitPrefixAll(s[1..]);
    }
  }

  /** `parseInt(s, 10)`: leading white space, an optional sign, then the longest run
      of digits; NaN (None) when there is no digit. */
  function ParseInt(s: string): Option<int>
  {
    var t := TrimStart(s);
    var neg := |t| > 0 && t[0] == '-';
    var u := if |t| > 0 && (t[0] == '-' || t[0] == '+') then t[1..] else t;
    var k := DigitPrefix(u);
    if k == 0 then None
    else Some(if neg then -(DigitsValue(u[..k]) as int) else DigitsValue(u[..k]))
  }

  /** parseInt reads back every padded decimal rendering. */
  lemma ParseIntOfDigits(s: string)
    requires |s| > 0 && AllDigits(s)
    ensures ParseInt(s) == Some(DigitsValue(s))
  {
    assert !IsSpace(s[0]);
    DigitPrefixAll(s);
    assert s[..|s|] == s;
  }

  lemma ParseIntPad2(n: nat)
    ensures ParseInt(Pad2(n)) == Some(n as int)
  {
    ParseIntOfDigits(Pad2(n));
    Pad2Value(n);
  }
}
