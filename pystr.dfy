/** The Python `str` operations the matchers rely on, over `seq<char>`.
    Character classes are the ASCII ones: `isspace` is space, `\t` to `\r` and `\x1c` to `\x1f`;
    case mapping and digits are ASCII letters and `0`-`9`. */
module PyStr {

  predicate IsSpace(c: char) {
    c == ' ' || ('\t' <= c <= '\r') || ('\U{1C}' <= c <= '\U{1F}')
  }

  predicate IsDigit(c: char) {
    '0' <= c <= '9'
  }

  predicate IsUpperLetter(c: char) {
    'A' <= c <= 'Z'
  }

  predicate IsLowerLetter(c: char) {
    'a' <= c <= 'z'
  }

  predicate IsAlpha(c: char) {
    IsUpperLetter(c) || IsLowerLetter(c)
  }

  function DigitValue(c: char): (r: nat)
    requires IsDigit(c)
    ensures r < 10
  {
    c as int - '0' as int
  }

  function LowerChar(c: char): char {
    if IsUpperLetter(c) then (c as int + 32) as char else c
  }

  function UpperChar(c: char): char {
    if IsLowerLetter(c) then (c as int - 32) as char else c
  }

  /** `s.lower()`: no upper-case letter is left and every other character is kept. */
  function Lower(s: string): (r: string)
    ensures |r| == |s|
    ensures forall i :: 0 <= i < |s| ==> r[i] == LowerChar(s[i]) && !IsUpperLetter(r[i])
  {
    seq(|s|, i requires 0 <= i < |s| => LowerChar(s[i]))
  }

  /** `s.upper()`. */
  function Upper(s: string): (r: string)
    ensures |r| == |s|
    ensures forall i :: 0 <= i < |s| ==> r[i] == UpperChar(s[i]) && !IsLowerLetter(r[i])
  {
    seq(|s|, i requires 0 <= i < |s| => UpperChar(s[i]))
  }

  predicate StartsWith(s: string, p: string) {
    |p| <= |s| && s[..|p|] == p
  }

  /** `p in s`. */
  predicate Contains(s: string, p: string)
    decreases |s|
  {
    StartsWith(s, p) || (|s| > 0 && Contains(s[1..], p))
  }

  lemma StartsWithContains(s: string, p: string)
    requires StartsWith(s, p)
    ensures Contains(s, p)
  {
  }

  /** `s.lstrip()`. */
  function LStrip(s: string): string
    decreases |s|
  {
    if |s| > 0 && IsSpace(s[0]) then LStrip(s[1..]) else s
  }

  /** `s.lstrip()` is a suffix of `s`: what it drops is whitespace, and what it keeps does not
      start with whitespace. */
  lemma {:induction false} LStripSlice(s: string)
    ensures |LStrip(s)| <= |s| && LStrip(s) == s[|s| - |LStrip(s)|..]
    ensures forall k :: 0 <= k < |s| - |LStrip(s)| ==> IsSpace(s[k])
    ensures |LStrip(s)| > 0 ==> !IsSpace(LStrip(s)[0])
    decreases |s|
  {
    if |s| > 0 && IsSpace(s[0]) {
      var t := s[1..];
      LStripSlice(t);
      assert LStrip(s) == LStrip(t);
      assert t[|t| - |LStrip(t)|..] == s[|s| - |LStrip(s)|..];
      assert forall k :: 1 <= k < |s| ==> s[k] == t[k - 1];
    }
  }

  /** `s.rstrip()`. */
  function RStrip(s: string): string
    decreases |s|
  {
    if |s| > 0 && IsSpace(s[|s| - 1]) then RStrip(s[..|s| - 1]) else s
  }

  /** `s.rstrip()` is a prefix of `s`: what it drops is whitespace, and what it keeps does not
      end with whitespace. */
  lemma {:induction false} RStripSlice(s: string)
    ensures |RStrip(s)| <= |s| && RStrip(s) == s[..|RStrip(s)|]
    ensures forall k :: |RStrip(s)| <= k < |s| ==> IsSpace(s[k])
    ensures |RStrip(s)| > 0 ==> !IsSpace(RStrip(s)[|RStrip(s)| - 1])
    decreases |s|
  {
    if |s| > 0 && IsSpace(s[|s| - 1]) {
      RStripSlice(s[..|s| - 1]);
    }
  }

  predicate AllSpace(t: string) {
    forall k :: 0 <= k < |t| ==> IsSpace(t[k])
  }

  /** The number of whitespace characters `s.strip()` drops at the front. */
  function Lead(s: string): (n: nat)
    ensures n <= |s|
  {
    LStripSlice(s);
    |s| - |LStrip(s)|
  }

  /** `s.strip()`: the slice of `s` that starts after its leading whitespace and ends before
      its trailing whitespace. */
  function Strip(s: string): string {
    RStrip(LStrip(s))
  }

  /** `s.strip()` is the slice of `s` after its leading whitespace, and it neither starts nor
      ends with whitespace. */
  lemma StripSlice(s: string)
    ensures Lead(s) + |Strip(s)| <= |s| && Strip(s) == s[Lead(s)..Lead(s) + |Strip(s)|]
    ensures |Strip(s)| > 0 ==> !IsSpace(Strip(s)[0]) && !IsSpace(Strip(s)[|Strip(s)| - 1])
  {
    LStripSlice(s);
    RStripSlice(LStrip(s));
  }

  /** What `s.strip()` drops, at either end, is whitespace. */
  lemma StripDropsSpace(s: string)
    ensures Lead(s) + |Strip(s)| <= |s| && AllSpace(s[..Lead(s)]) && AllSpace(s[Lead(s) + |Strip(s)|..])
  {
    LStripSlice(s);
    RStripSlice(LStrip(s));
    var l := LStrip(s);
    var i := Lead(s);
    assert s[i + |Strip(s)|..] == l[|Strip(s)|..];
  }

  /** `s.replace(pat, rep)`: non-overlapping occurrences, scanned from the left. */
  function Replace(s: string, pat: string, rep: string): string
    decreases |s|
  {
    if |pat| == 0 then
      if |s| == 0 then rep else rep + [s[0]] + Replace(s[1..], pat, rep)
    else if |s| == 0 then ""
    else if StartsWith(s, pat) then rep + Replace(s[|pat|..], pat, rep)
    else [s[0]] + Replace(s[1..], pat, rep)
  }

  /** Replacing a pattern that does not occur gives back the string. */
  lemma {:induction false} ReplaceAbsent(s: string, pat: string, rep: string)
    requires |pat| > 0 && !Contains(s, pat)
    ensures Replace(s, pat, rep) == s
    decreases |s|
  {
    if |s| > 0 {
      ReplaceAbsent(s[1..], pat, rep);
      assert [s[0]] + s[1..] == s;
    }
  }

  /** `sep.join(parts)`. */
  function Join(parts: seq<string>, sep: string): string
    decreases |parts|
  {
    if |parts| == 0 then ""
    else if |parts| == 1 then parts[0]
    else parts[0] + sep + Join(parts[1..], sep)
  }

  function Concat(parts: seq<string>): string
    decreases |parts|
  {
    if |parts| == 0 then "" else parts[0] + Concat(parts[1..])
  }

  /** `s.split(c)` for a one-character separator. */
  function SplitOn(s: string, c: char): (r: seq<string>)
    ensures |r| >= 1
    ensures forall t :: t in r ==> c !in t
    decreases |s|
  {
    if |s| == 0 then [""]
    else
      var rest := SplitOn(s[1..], c);
      if s[0] == c then [""] + rest
      else [[s[0]] + rest[0]] + rest[1..]
  }

  lemma JoinCons(parts: seq<string>, sep: string)
    requires |parts| >= 2
    ensures Join(parts, sep) == parts[0] + sep + Join(parts[1..], sep)
  {
  }

  /** Joining the parts of a split with the separator gives back the string. */
  lemma {:induction false} JoinSplitOn(s: string, c: char)
    ensures Join(SplitOn(s, c), [c]) == s
    decreases |s|
  {
    if |s| > 0 {
      var rest := SplitOn(s[1..], c);
      JoinSplitOn(s[1..], c);
      assert [s[0]] + s[1..] == s;
      if s[0] == c {
        var parts := [""] + rest;
        assert SplitOn(s, c) == parts;
        assert parts[1..] == rest;
        JoinCons(parts, [c]);
        assert Join(parts, [c]) == [c] + Join(rest, [c]);
      } else if |rest| == 1 {
        assert SplitOn(s, c) == [[s[0]] + rest[0]];
      } else {
        var head := [s[0]] + rest[0];
        var parts := [head] + rest[1..];
        assert SplitOn(s, c) == parts;
        assert parts[1..] == rest[1..];
        JoinCons(parts, [c]);
        JoinCons(rest, [c]);
        var tail := Join(rest[1..], [c]);
        assert Join(parts, [c]) == head + [c] + tail;
        assert head + [c] + tail == [s[0]] + (rest[0] + [c] + tail);
      }
    }
  }

  /** A string without the separator splits into itself alone. */
  lemma {:induction false} SplitOnAbsent(s: string, c: char)
    requires c !in s
    ensures SplitOn(s, c) == [s]
    decreases |s|
  {
    if |s| > 0 {
      SplitOnAbsent(s[1..], c);
      assert [s[0]] + s[1..] == s;
    }
  }

  /** Splitting a string with one separator after a separator-free head gives the head and
      then the split of the rest. */
  lemma {:induction false} SplitOnAfter(x: string, y: string, c: char)
    requires c !in x
    ensures SplitOn(x + [c] + y, c) == [x] + SplitOn(y, c)
    decreases |x|
  {
    var s := x + [c] + y;
    if |x| == 0 {
      assert s[1..] == y;
    } else {
      assert s[1..] == x[1..] + [c] + y;
      SplitOnAfter(x[1..], y, c);
      assert [x[0]] + x[1..] == x;
    }
  }
  predicate NoSpace(t: string) {
    forall k :: 0 <= k < |t| ==> !IsSpace(t[k])
  }

  /** The longest prefix of `s` without whitespace. */
  function Word(s: string): (r: string)
    ensures |r| <= |s| && r == s[..|r|] && NoSpace(r)
    ensures |r| < |s| ==> IsSpace(s[|r|])
    decreases |s|
  {
    if |s| == 0 || IsSpace(s[0]) then "" else [s[0]] + Word(s[1..])
  }

  /** `s.split()`: the maximal runs of non-whitespace characters, in order. */
  function SplitWs(s: string): (r: seq<string>)
    ensures forall k :: 0 <= k < |r| ==> |r[k]| > 0 && NoSpace(r[k])
    ensures NoSpace(s) && |s| > 0 ==> r == [s]
    ensures |r| == 0 <==> forall k :: 0 <= k < |s| ==> IsSpace(s[k])
    decreases |s|
  {
    if |s| == 0 then []
    else if IsSpace(s[0]) then SplitWs(s[1..])
    else
      var w := Word(s);
      assert NoSpace(s) ==> w == s && s[|w|..] == [];
      [w] + SplitWs(s[|w|..])
  }

  /** `w` is the word at position `i` of `s`: a run of non-whitespace characters that ends at
      whitespace or at the end of `s`. */
  predicate WordAt(s: string, i: nat, w: string) {
    i + |w| <= |s| && w == s[i..i + |w|] && NoSpace(w) && (i + |w| < |s| ==> IsSpace(s[i + |w|]))
  }

  /** The word read from the suffix of `s` at `i` is the word at `i`, and it is not empty when
      `s` has no whitespace there. */
  lemma WordFrom(s: string, i: nat, t: string)
    requires i <= |s| && t == s[i..]
    ensures WordAt(s, i, Word(t))
    ensures i < |s| && !IsSpace(s[i]) ==> |Word(t)| > 0
  {
    var w := Word(t);
    assert t[..|w|] == s[i..i + |w|];
    if i + |w| < |s| {
      assert t[|w|] == s[i + |w|];
    }
  }

  /** `a` and `b` are the first two words of `s`: `a` is the non-empty word at the start, and `b`
      is the word that follows it. */
  predicate LeadingWords(s: string, a: string, b: string) {
    |a| > 0 && WordAt(s, 0, a) && NextWord(s, |a|, b)
  }

  /** `b` is the word after the whitespace run that starts at `j`, or "" exactly when only
      whitespace follows `j`. */
  predicate NextWord(s: string, j: nat, b: string)
    requires j <= |s|
  {
    var i := j + SpaceRun(s[j..]);
    (b == "" <==> i == |s|) && (i < |s| ==> WordAt(s, i, b))
  }

  /** For a string that starts with a word, the first two fields of `split()` are its leading
      words. */
  lemma SplitWsTwo(s: string)
    requires |s| > 0 && !IsSpace(s[0])
    ensures var r := SplitWs(s); |r| > 0 && LeadingWords(s, r[0], if |r| > 1 then r[1] else "")
  {
    var r := SplitWs(s);
    SplitWsFirst(s);
    var a := r[0];
    SplitWsNext(s, |a|);
    var rest := r[1..];
    assert rest == SplitWs(s[|a|..]);
    var b := if |r| > 1 then r[1] else "";
    assert b == if |rest| > 0 then rest[0] else "";
  }

  /** There is only one word at a position. */
  lemma WordAtUnique(s: string, i: nat, w1: string, w2: string)
    requires WordAt(s, i, w1) && WordAt(s, i, w2)
    ensures w1 == w2
  {
    assert forall k :: 0 <= k < |w1| ==> w1[k] == s[i + k];
    assert forall k :: 0 <= k < |w2| ==> w2[k] == s[i + k];
  }

  /** The leading words of a string are determined by it. */
  lemma LeadingWordsUnique(s: string, a1: string, b1: string, a2: string, b2: string)
    requires LeadingWords(s, a1, b1) && LeadingWords(s, a2, b2)
    ensures a1 == a2 && b1 == b2
  {
    WordAtUnique(s, 0, a1, a2);
    var i := |a1| + SpaceRun(s[|a1|..]);
    if i < |s| {
      WordAtUnique(s, i, b1, b2);
    }
  }

  /** Two words joined by one space are the leading words of the result. */
  lemma JoinedWords(a: string, b: string)
    requires |a| > 0 && NoSpace(a) && NoSpace(b)
    ensures LeadingWords(a + " " + b, a, b)
  {
    var s := a + " " + b;
    assert s[0..|a|] == a;
    assert s[|a|] == ' ';
    var t := s[|a|..];
    assert t == " " + b;
    assert t[1..] == b;
    assert b != "" ==> !IsSpace(b[0]);
    assert SpaceRun(t) == 1;
    var i := |a| + 1;
    assert s[i..i + |b|] == b;
  }

  /** A word at the start is the first field of `split()`, and the other fields are the split of
      what follows it. */
  lemma SplitWsFirst(s: string)
    requires |s| > 0 && !IsSpace(s[0])
    ensures var r := SplitWs(s);
      |r| > 0 && |r[0]| > 0 && WordAt(s, 0, r[0]) && r[1..] == SplitWs(s[|r[0]|..])
  {
    SplitWsCons(s);
    assert s[0..] == s;
    WordFrom(s, 0, s);
  }

  /** The first field of the split of the suffix from `j`, or "" when there is none, is the word
      that follows `j`. */
  lemma SplitWsNext(s: string, j: nat)
    requires j <= |s|
    ensures var r := SplitWs(s[j..]); NextWord(s, j, if |r| > 0 then r[0] else "")
  {
    var t := s[j..];
    SplitWsSkips(t);
    var u := t[SpaceRun(t)..];
    var i := j + SpaceRun(t);
    assert u == s[i..];
    if i < |s| {
      assert u[0] == t[SpaceRun(t)];
      SplitWsCons(u);
      WordFrom(s, i, u);
    } else {
      assert u == [];
    }
  }

  /** Splitting on whitespace skips the leading whitespace run. */
  lemma {:induction false} SplitWsSkips(t: string)
    ensures SplitWs(t) == SplitWs(t[SpaceRun(t)..])
    decreases |t|
  {
    if |t| > 0 && IsSpace(t[0]) {
      SplitWsSkips(t[1..]);
      assert t[1..][SpaceRun(t[1..])..] == t[SpaceRun(t)..];
    }
  }

  /** A word at the start is the first field, and the split goes on after it. */
  lemma SplitWsCons(t: string)
    requires |t| > 0 && !IsSpace(t[0])
    ensures SplitWs(t) == [Word(t)] + SplitWs(t[|Word(t)|..])
  {
  }

  /** The length of the whitespace run at the start of `s`. */
  function SpaceRun(s: string): (n: nat)
    ensures n <= |s|
    ensures forall k :: 0 <= k < n ==> IsSpace(s[k])
    ensures n < |s| ==> !IsSpace(s[n])
    decreases |s|
  {
    if |s| > 0 && IsSpace(s[0]) then 1 + SpaceRun(s[1..]) else 0
  }

  predicate NoDoubleSpace(t: string) {
    forall k :: 0 <= k < |t| - 1 ==> !(IsSpace(t[k]) && IsSpace(t[k + 1]))
  }

  /** `re.split(r'\s{2,}', s)`: the fields between maximal runs of two or more whitespace
      characters. No field holds two whitespace characters in a row, and a field that is
      followed by another one does not end in whitespace. */
  function SplitRuns2(s: string): (r: seq<string>)
    ensures |r| >= 1
    ensures forall k :: 0 <= k < |r| ==> NoDoubleSpace(r[k])
    ensures |s| > 0 && !IsSpace(s[0]) ==> |r[0]| > 0 && r[0][0] == s[0]
    ensures |s| > 0 && IsSpace(s[0]) && (|s| == 1 || !IsSpace(s[1])) ==> |r[0]| > 0 && r[0][0] == s[0]
    ensures NoDoubleSpace(s) ==> r == [s]
    decreases |s|
  {
    if |s| == 0 then [""]
    else if |s| >= 2 && IsSpace(s[0]) && IsSpace(s[1]) then
      assert !NoDoubleSpace(s) by {
        assert IsSpace(s[0]) && IsSpace(s[1]);
      }
      var n := SpaceRun(s);
      [""] + SplitRuns2(s[n..])
    else
      var rest := SplitRuns2(s[1..]);
      assert NoDoubleSpace(s) ==> NoDoubleSpace(s[1..]) by {
        if NoDoubleSpace(s) {
          forall k | 0 <= k < |s[1..]| - 1
            ensures !(IsSpace(s[1..][k]) && IsSpace(s[1..][k + 1]))
          {
            assert s[1..][k] == s[k + 1] && s[1..][k + 1] == s[k + 2];
          }
        }
      }
      var head := [s[0]] + rest[0];
      assert NoDoubleSpace(head) by {
        if |rest[0]| > 0 && IsSpace(s[0]) {
          assert |s| >= 2 && !IsSpace(s[1]);
        }
      }
      assert NoDoubleSpace(s) ==> head == s by {
        if NoDoubleSpace(s) {
          assert rest == [s[1..]];
          assert [s[0]] + s[1..] == s;
        }
      }
      [head] + rest[1..]
  }

  /** `int(s)` succeeds: optional surrounding whitespace, an optional sign and decimal
      digits, with single underscores allowed between digits. */
  predicate IsIntLiteral(s: string) {
    DigitGroups(Unsigned(Strip(s)))
  }

  /** The text after a leading sign, if there is one. */
  function Unsigned(t: string): (r: string)
    ensures |r| <= |t|
  {
    if |t| > 0 && (t[0] == '+' || t[0] == '-') then t[1..] else t
  }

  /** Digits, possibly with single underscores between two digits. */
  predicate DigitGroups(b: string) {
    |b| > 0 && IsDigit(b[0]) && IsDigit(b[|b| - 1]) &&
    forall k :: 0 <= k < |b| ==> DigitOrJoin(b, k)
  }

  /** The character at `k` is a digit, or an underscore followed by a digit inside the string. */
  predicate DigitOrJoin(b: string, k: nat)
    requires k < |b|
  {
    IsDigit(b[k]) || (b[k] == '_' && 0 < k < |b| - 1 && IsDigit(b[k + 1]))
  }

  /** The decimal rendering Python's `str(n)` gives a natural number. */
  function NatToString(n: nat): (r: string)
    ensures |r| > 0 && forall k :: 0 <= k < |r| ==> IsDigit(r[k])
    decreases n
  {
    if n < 10 then [('0' as int + n) as char]
    else NatToString(n / 10) + [('0' as int + n % 10) as char]
  }

  /** The value of a string of decimal digits. */
  function DigitsValue(s: string): nat
    requires forall k :: 0 <= k < |s| ==> IsDigit(s[k])
    decreases |s|
  {
    if |s| == 0 then 0 else DigitsValue(s[..|s| - 1]) * 10 + DigitValue(s[|s| - 1])
  }

  /** `int(str(n)) == n`. */
  lemma {:induction false} NatToStringValue(n: nat)
    ensures DigitsValue(NatToString(n)) == n
    decreases n
  {
    if n >= 10 {
      NatToStringValue(n / 10);
      var r := NatToString(n);
      assert r[..|r| - 1] == NatToString(n / 10);
    }
  }
}
