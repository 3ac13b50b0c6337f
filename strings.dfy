/**
 * The string operations of Python and JavaScript that the benchmark relies on,
 * written out on `seq<char>`: `str.split`, `str.strip`, `str.lower`, `str.replace`,
 * `str.split()` on whitespace, `int(...)`, and decimal rendering of integers.
 */
module Strings {
  import opened Wrappers

  /** Python's `str.isspace` (also what `str.strip()` and `str.split()` treat as whitespace). */
  predicate IsSpace(c: char) {
    c == ' ' || ('\t' <= c <= '\r') || ('\U{1C}' <= c <= '\U{1F}') || c == '\U{85}' || c == '\U{A0}'
    || c == '\U{1680}' || ('\U{2000}' <= c <= '\U{200A}') || c == '\U{2028}' || c == '\U{2029}'
    || c == '\U{202F}' || c == '\U{205F}' || c == '\U{3000}'
  }

  /** The characters JavaScript's `String.prototype.trim` removes. */
  predicate IsJsSpace(c: char) {
    c == ' ' || ('\t' <= c <= '\r') || c == '\U{A0}' || c == '\U{1680}' || ('\U{2000}' <= c <= '\U{200A}')
    || c == '\U{2028}' || c == '\U{2029}' || c == '\U{202F}' || c == '\U{205F}' || c == '\U{3000}'
    || c == '\U{FEFF}'
  }

  /** `!s.trim()` in JavaScript: the string is empty once trimmed. */
  predicate IsBlank(s: string) {
    forall i :: 0 <= i < |s| ==> IsJsSpace(s[i])
  }

  predicate IsDigit(c: char) { '0' <= c <= '9' }

  predicate IsUpper(c: char) { 'A' <= c <= 'Z' }

  function DigitValue(c: char): (d: nat)
    requires IsDigit(c)
    ensures d < 10
  {
    (c as int - '0' as int) as nat
  }

  function DigitChar(d: nat): (c: char)
    requires d < 10
    ensures IsDigit(c) && DigitValue(c) == d
  {
    (d + '0' as int) as char
  }

  predicate AllDigits(s: string) {
    forall i :: 0 <= i < |s| ==> IsDigit(s[i])
  }

  // ---------------------------------------------------------------------------
  // Prefixes and substrings

  predicate StartsWith(s: string, p: string) {
    |p| <= |s| && s[..|p|] == p
  }

  /** `t` occurs in `s` starting at position `i`. */
  predicate OccursAt(s: string, t: string, i: int) {
    0 <= i && i + |t| <= |s| && s[i..i + |t|] == t
  }

  /** `t in s` in Python, `s.includes(t)` in JavaScript. */
  ghost predicate Contains(s: string, t: string) {
    exists i :: OccursAt(s, t, i)
  }

  /**
   * The first position at or after `from` where `t` occurs in `s`, as `str.find(t, from)`
   * (`IndexOfSpec`).
   */
  function IndexOf(s: string, t: string, from: nat): Option<nat>
    decreases |s| - from
  {
    if from + |t| > |s| then None
    else if s[from..from + |t|] == t then Some(from)
    else IndexOf(s, t, from + 1)
  }

  /** `IndexOf` finds an occurrence at or after `from` with none before it, or there is none. */
  lemma {:induction false} IndexOfSpec(s: string, t: string, from: nat)
    ensures IndexOf(s, t, from).Some? ==> from <= IndexOf(s, t, from).value && OccursAt(s, t, IndexOf(s, t, from).value)
    ensures IndexOf(s, t, from).Some? ==> forall j :: from <= j < IndexOf(s, t, from).value ==> !OccursAt(s, t, j)
    ensures IndexOf(s, t, from).None? ==> forall j :: from <= j ==> !OccursAt(s, t, j)
    decreases |s| - from
  {
    if from + |t| <= |s| && s[from..from + |t|] != t {
      IndexOfSpec(s, t, from + 1);
    }
  }

  /** `IndexOf` finds the first occurrence at or after `from`. */
  lemma {:induction false} IndexOfFirst(s: string, t: string, from: nat, k: nat)
    requires from <= k && OccursAt(s, t, k)
    requires forall j :: from <= j < k ==> !OccursAt(s, t, j)
    ensures IndexOf(s, t, from) == Some(k)
    decreases k - from
  {
    if from < k {
      assert !OccursAt(s, t, from);
      IndexOfFirst(s, t, from + 1, k);
    }
  }

  /** A slice of a slice is a slice of the original. */
  lemma SliceOfSlice(s: string, a: nat, b: nat, i: nat, j: nat)
    requires a <= b <= |s| && i <= j <= b - a
    ensures s[a..b][i..j] == s[a + i..a + j]
  {
    forall k | 0 <= k < j - i ensures s[a..b][i..j][k] == s[a + i..a + j][k] {
    }
  }

  /** A string starts with anything it was built from by appending. */
  lemma StartsWithAppend(p: string, q: string)
    ensures StartsWith(p + q, p)
  {
    assert (p + q)[..|p|] == p;
  }

  /** A prefix of a prefix is a prefix. */
  lemma StartsWithTrans(s: string, p: string, q: string)
    requires StartsWith(s, p) && StartsWith(p, q)
    ensures StartsWith(s, q)
  {
    assert s[..|q|] == s[..|p|][..|q|];
  }

  /** A computable test for `Contains`. */
  function Includes(s: string, t: string): (b: bool)
    ensures b <==> Contains(s, t)
  {
    var r := IndexOf(s, t, 0);
    IndexOfSpec(s, t, 0);
    if r.Some? then
      true
    else
      assert forall j :: 0 <= j ==> !OccursAt(s, t, j);
      false
  }

  // ---------------------------------------------------------------------------
  // Case and replacement

  function LowerChar(c: char): (d: char)
    ensures !IsUpper(d)
    ensures !IsUpper(c) ==> d == c
  {
    if IsUpper(c) then (c as int + 32) as char else c
  }

  /** `str.lower()` restricted to ASCII letters. */
  function Lower(s: string): (r: string)
    ensures |r| == |s|
    ensures forall i :: 0 <= i < |s| ==> r[i] == LowerChar(s[i])
  {
    seq(|s|, i requires 0 <= i < |s| => LowerChar(s[i]))
  }

  /** `s.replace(a, b)` for single characters. */
  function ReplaceChar(s: string, a: char, b: char): (r: string)
    ensures |r| == |s|
    ensures forall i :: 0 <= i < |s| ==> r[i] == (if s[i] == a then b else s[i])
  {
    seq(|s|, i requires 0 <= i < |s| => if s[i] == a then b else s[i])
  }

  /** `s.replace(old, new)`: every non-overlapping occurrence, scanning left to right. */
  function ReplaceAll(s: string, pat: string, rep: string): string
    requires |pat| > 0
    decreases |s|
  {
    if |s| < |pat| then s
    else if s[..|pat|] == pat then rep + ReplaceAll(s[|pat|..], pat, rep)
    else [s[0]] + ReplaceAll(s[1..], pat, rep)
  }

  /** Replacing an occurrence by something that drops only `c`-free text keeps a character `c` out. */
  lemma {:induction false} ReplaceAllKeepsOut(s: string, pat: string, rep: string, c: char)
    requires |pat| > 0
    requires c !in s && c !in rep
    ensures c !in ReplaceAll(s, pat, rep)
    decreases |s|
  {
    if |s| < |pat| {
    } else if s[..|pat|] == pat {
      ReplaceAllKeepsOut(s[|pat|..], pat, rep, c);
    } else {
      ReplaceAllKeepsOut(s[1..], pat, rep, c);
    }
  }

  /** Same, for a class of characters (no upper-case letter survives if none was there). */
  lemma {:induction false} ReplaceAllKeepsNoUpper(s: string, pat: string, rep: string)
    requires |pat| > 0
    requires forall i :: 0 <= i < |s| ==> !IsUpper(s[i])
    requires forall i :: 0 <= i < |rep| ==> !IsUpper(rep[i])
    ensures forall i :: 0 <= i < |ReplaceAll(s, pat, rep)| ==> !IsUpper(ReplaceAll(s, pat, rep)[i])
    decreases |s|
  {
    if |s| < |pat| {
    } else if s[..|pat|] == pat {
      ReplaceAllKeepsNoUpper(s[|pat|..], pat, rep);
    } else {
      ReplaceAllKeepsNoUpper(s[1..], pat, rep);
    }
  }

  // ---------------------------------------------------------------------------
  // Stripping

  function StripStart(s: string): (r: string)
    ensures |r| <= |s| && r == s[|s| - |r|..]
    ensures r == [] || !IsSpace(r[0])
    ensures forall i :: 0 <= i < |s| - |r| ==> IsSpace(s[i])
  {
    if |s| > 0 && IsSpace(s[0]) then StripStart(s[1..]) else s
  }

  function StripEnd(s: string): (r: string)
    ensures |r| <= |s| && r == s[..|r|]
    ensures r == [] || !IsSpace(r[|r| - 1])
    ensures forall i :: |r| <= i < |s| ==> IsSpace(s[i])
  {
    if |s| > 0 && IsSpace(s[|s| - 1]) then StripEnd(s[..|s| - 1]) else s
  }

  /** `str.strip()`: the slice of `s` left after removing surrounding whitespace. */
  function Strip(s: string): (r: string)
    ensures exists a, b :: 0 <= a <= b <= |s| && r == s[a..b]
              && (forall i :: 0 <= i < a ==> IsSpace(s[i]))
              && (forall i :: b <= i < |s| ==> IsSpace(s[i]))
    ensures r == [] || (!IsSpace(r[0]) && !IsSpace(r[|r| - 1]))
  {
    var t := StripStart(s);
    var r := StripEnd(t);
    assert r == s[|s| - |t|..|s| - |t| + |r|];
    r
  }

  /** Every character `strip` keeps was a character of its input. */
  lemma StripChars(s: string)
    ensures forall i :: 0 <= i < |Strip(s)| ==> Strip(s)[i] in s
  {
    var r := Strip(s);
    var a, b :| 0 <= a <= b <= |s| && r == s[a..b];
    forall i | 0 <= i < |r| ensures r[i] in s {
      assert r[i] == s[a + i];
    }
  }

  // ---------------------------------------------------------------------------
  // Splitting and joining on a separator character

  /** Python's `s.split(sep)` for a one-character separator. */
  function Split(s: string, sep: char): (parts: seq<string>)
    ensures |parts| >= 1
    decreases |s|
  {
    if |s| == 0 then [""]
    else if s[0] == sep then [""] + Split(s[1..], sep)
    else var rest := Split(s[1..], sep); [[s[0]] + rest[0]] + rest[1..]
  }

  /** `sep.join(parts)`. */
  function Join(parts: seq<string>, sep: string): string {
    if |parts| == 0 then ""
    else if |parts| == 1 then parts[0]
    else parts[0] + sep + Join(parts[1..], sep)
  }

  lemma {:induction false} SplitNoSep(s: string, sep: char)
    requires sep !in s
    ensures Split(s, sep) == [s]
    decreases |s|
  {
    if |s| > 0 {
      SplitNoSep(s[1..], sep);
      assert [s[0]] + s[1..] == s;
    }
  }

  /** A part before the first separator is split off as the first part. */
  lemma {:induction false} SplitAtFirst(a: string, sep: char, b: string)
    requires sep !in a
    ensures Split(a + [sep] + b, sep) == [a] + Split(b, sep)
    decreases |a|
  {
    var s := a + [sep] + b;
    if |a| == 0 {
      assert s[1..] == b;
    } else {
      assert s[1..] == a[1..] + [sep] + b;
      SplitAtFirst(a[1..], sep, b);
      assert [a[0]] + a[1..] == a;
    }
  }

  /** Round trip: joining the parts of a split with the separator gives back the string. */
  lemma {:induction false} JoinSplit(s: string, sep: char)
    ensures Join(Split(s, sep), [sep]) == s
    decreases |s|
  {
    if |s| == 0 {
    } else if s[0] == sep {
      JoinSplit(s[1..], sep);
      assert [""] + Split(s[1..], sep) == Split(s, sep);
      assert s == [sep] + s[1..];
    } else {
      var rest := Split(s[1..], sep);
      JoinSplit(s[1..], sep);
      var parts := Split(s, sep);
      assert parts[0] == [s[0]] + rest[0];
      assert parts[1..] == rest[1..];
      if |rest| == 1 {
        assert s == [s[0]] + rest[0];
      } else {
        assert Join(rest, [sep]) == rest[0] + [sep] + Join(rest[1..], [sep]);
        assert s == [s[0]] + s[1..];
      }
    }
  }

  /** No part of a split contains the separator. */
  lemma {:induction false} SplitPartsNoSep(s: string, sep: char)
    ensures forall k :: 0 <= k < |Split(s, sep)| ==> sep !in Split(s, sep)[k]
    decreases |s|
  {
    if |s| > 0 {
      SplitPartsNoSep(s[1..], sep);
    }
  }

  /** The first part of a split is the text before the first separator (all of it when there is none). */
  lemma {:induction false} SplitFirstPart(s: string, sep: char)
    ensures sep !in Split(s, sep)[0]
    ensures StartsWith(s, Split(s, sep)[0])
    ensures |Split(s, sep)[0]| < |s| ==> s[|Split(s, sep)[0]|] == sep
    decreases |s|
  {
    if |s| > 0 && s[0] != sep {
      SplitFirstPart(s[1..], sep);
      var p := Split(s[1..], sep)[0];
      assert Split(s, sep)[0] == [s[0]] + p;
      assert s[..|p| + 1] == [s[0]] + s[1..][..|p|];
    }
  }

  /** Round trip the other way: splitting a join of separator-free parts gives the parts back. */
  lemma {:induction false} SplitJoin(parts: seq<string>, sep: char)
    requires |parts| >= 1
    requires forall k :: 0 <= k < |parts| ==> sep !in parts[k]
    ensures Split(Join(parts, [sep]), sep) == parts
    decreases |parts|
  {
    if |parts| == 1 {
      SplitNoSep(parts[0], sep);
    } else {
      SplitJoin(parts[1..], sep);
      SplitAtFirst(parts[0], sep, Join(parts[1..], [sep]));
      assert [parts[0]] + parts[1..] == parts;
    }
  }

  /** Joining one more part appends the separator and that part. */
  lemma {:induction false} JoinAppend(parts: seq<string>, p: string, sep: string)
    requires parts != []
    ensures Join(parts + [p], sep) == Join(parts, sep) + sep + p
    decreases |parts|
  {
    if |parts| == 1 {
      assert (parts + [p])[1..] == [p];
    } else {
      assert (parts + [p])[1..] == parts[1..] + [p];
      JoinAppend(parts[1..], p, sep);
    }
  }

  /** A character found in no part and not in the separator is not in the join. */
  lemma {:induction false} JoinKeepsOut(parts: seq<string>, sep: string, c: char)
    requires c !in sep
    requires forall k :: 0 <= k < |parts| ==> c !in parts[k]
    ensures c !in Join(parts, sep)
    decreases |parts|
  {
    if |parts| > 1 {
      JoinKeepsOut(parts[1..], sep, c);
    }
  }

  // ---------------------------------------------------------------------------
  // Splitting on runs of whitespace (Python's `s.split()` with no argument)

  /** The longest prefix of `s` without whitespace. */
  function TakeWord(s: string): (w: string)
    ensures |w| <= |s| && w == s[..|w|]
    ensures forall i :: 0 <= i < |w| ==> !IsSpace(s[i])
    ensures |w| < |s| ==> IsSpace(s[|w|])
  {
    if |s| == 0 || IsSpace(s[0]) then [] else [s[0]] + TakeWord(s[1..])
  }

  /** A word: non-empty and free of whitespace. */
  predicate IsWord(w: string) {
    |w| > 0 && forall i :: 0 <= i < |w| ==> !IsSpace(w[i])
  }

  function SplitWords(s: string): (ws: seq<string>)
    ensures forall k :: 0 <= k < |ws| ==> IsWord(ws[k])
    decreases |s|
  {
    if |s| == 0 then []
    else if IsSpace(s[0]) then SplitWords(s[1..])
    else var w := TakeWord(s); [w] + SplitWords(s[|w|..])
  }

  lemma {:induction false} TakeWordBeforeSpace(a: string, c: char, b: string)
    requires IsSpace(c)
    ensures TakeWord(a + [c] + b) == TakeWord(a)
    decreases |a|
  {
    var s := a + [c] + b;
    if |a| == 0 {
    } else if IsSpace(a[0]) {
    } else {
      assert s[1..] == a[1..] + [c] + b;
      TakeWordBeforeSpace(a[1..], c, b);
    }
  }

  /** A whitespace character splits the text into two independent halves. */
  lemma {:induction false} SplitWordsAtSpace(a: string, c: char, b: string)
    requires IsSpace(c)
    ensures SplitWords(a + [c] + b) == SplitWords(a) + SplitWords(b)
    decreases |a|
  {
    var s := a + [c] + b;
    if |a| == 0 {
      assert s[1..] == b;
    } else if IsSpace(a[0]) {
      assert s[1..] == a[1..] + [c] + b;
      SplitWordsAtSpace(a[1..], c, b);
    } else {
      var w := TakeWord(a);
      TakeWordBeforeSpace(a, c, b);
      assert TakeWord(s) == w;
      assert s[|w|..] == a[|w|..] + [c] + b;
      SplitWordsAtSpace(a[|w|..], c, b);
    }
  }

  lemma SplitWordsOfWord(w: string)
    requires IsWord(w)
    ensures SplitWords(w) == [w]
  {
    assert TakeWord(w) == w by {
      var t := TakeWord(w);
      assert |t| == |w|;
    }
    assert w[|w|..] == [];
  }

  /** Round trip: joining words with a whitespace separator and splitting again gives the words back. */
  lemma {:induction false} SplitWordsJoin(ws: seq<string>, c: char)
    requires IsSpace(c)
    requires forall k :: 0 <= k < |ws| ==> IsWord(ws[k])
    ensures SplitWords(Join(ws, [c])) == ws
    decreases |ws|
  {
    if |ws| == 0 {
    } else if |ws| == 1 {
      SplitWordsOfWord(ws[0]);
    } else {
      SplitWordsJoin(ws[1..], c);
      SplitWordsOfWord(ws[0]);
      SplitWordsAtSpace(ws[0], c, Join(ws[1..], [c]));
      assert ws[0] + [c] + Join(ws[1..], [c]) == Join(ws, [c]);
    }
  }

  // ---------------------------------------------------------------------------
  // Decimal numbers

  /** The decimal digits of a natural number, without leading zeros. */
  function NatToString(n: nat): (s: string)
    ensures |s| >= 1 && AllDigits(s)
    decreases n
  {
    if n < 10 then [DigitChar(n)] else NatToString(n / 10) + [DigitChar(n % 10)]
  }

  /** Python's `str(i)` / `f"{i}"` and JavaScript's `i.toString()` for an integer. */
  function IntToString(i: int): (s: string)
    ensures |s| >= 1
  {
    if i < 0 then "-" + NatToString(-i) else NatToString(i)
  }

  /** The value of a string of decimal digits (most significant first). */
  function DigitsValue(s: string): (n: nat)
    requires AllDigits(s)
    decreases |s|
  {
    if |s| == 0 then 0 else 10 * DigitsValue(s[..|s| - 1]) + DigitValue(s[|s| - 1])
  }

  lemma {:induction false} DigitsValueOfNat(n: nat)
    ensures DigitsValue(NatToString(n)) == n
    decreases n
  {
    var s := NatToString(n);
    if n >= 10 {
      DigitsValueOfNat(n / 10);
      assert s[..|s| - 1] == NatToString(n / 10);
    }
  }

  /**
   * Python's `int(s)` on a string: surrounding whitespace, an optional sign, then one or
   * more ASCII digits; anything else raises ValueError.
   */
  function ParseInt(s: string): (r: Result<int>)
    ensures r.Success? <==>
      var t := Strip(s);
      |t| > 0 && (if t[0] == '+' || t[0] == '-' then |t| > 1 && AllDigits(t[1..]) else AllDigits(t))
  {
    var t := Strip(s);
    if |t| == 0 then Failure("invalid literal for int()")
    else if t[0] == '+' || t[0] == '-' then
      if |t| > 1 && AllDigits(t[1..]) then
        var v: int := DigitsValue(t[1..]);
        Success(if t[0] == '-' then -v else v)
      else Failure("invalid literal for int()")
    else if AllDigits(t) then Success(DigitsValue(t))
    else Failure("invalid literal for int()")
  }

  lemma StripOfDigits(s: string)
    requires |s| > 0 && (s[0] == '-' || IsDigit(s[0])) && AllDigits(s[1..])
    ensures Strip(s) == s
  {
    assert !IsSpace(s[0]);
    assert StripStart(s) == s;
    if |s| > 1 {
      assert s[|s| - 1] == s[1..][|s| - 2];
    }
    assert !IsSpace(s[|s| - 1]);
    assert StripEnd(s) == s;
  }

  /** Round trip: `int(str(i)) == i` for every integer, with no clamping of the range. */
  lemma ParseIntOfIntToString(i: int)
    ensures ParseInt(IntToString(i)) == Success(i)
  {
    var s := IntToString(i);
    if i < 0 {
      ParseIntOfNegative(-i, s);
    } else {
      ParseIntOfNat(i, s);
    }
  }

  lemma ParseIntOfNat(n: nat, s: string)
    requires s == NatToString(n)
    ensures ParseInt(s) == Success(n)
  {
    StripOfDigits(s);
    DigitsValueOfNat(n);
    assert ParseInt(s) == Success(DigitsValue(s));
  }

  lemma ParseIntOfNegative(n: nat, s: string)
    requires n > 0 && s == "-" + NatToString(n)
    ensures ParseInt(s) == Success(-(n as int))
  {
    var d := NatToString(n);
    assert s[1..] == d;
    StripOfDigits(s);
    ParseIntMinus(s);
    DigitsValueOfNat(n);
  }

  /** A string with no surrounding whitespace made of `-` and digits parses as a negative number. */
  lemma ParseIntMinus(s: string)
    requires Strip(s) == s && |s| > 1 && s[0] == '-' && AllDigits(s[1..])
    ensures ParseInt(s) == Success(-(DigitsValue(s[1..]) as int))
  {
  }
}
