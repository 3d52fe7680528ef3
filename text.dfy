/** The JavaScript string operations the application relies on, over `seq<char>`:
    `trim`, `toLowerCase`, `startsWith`, `endsWith`, `slice`/`substring` from 0,
    `split(sep)[0]`, `join`, a global character-class `replace`, and the decimal
    rendering of a number inside a template literal. */
module Text {

  /** The characters `String.prototype.trim` removes: the ASCII white space, the
      line terminators U+2028 and U+2029, the byte order mark and the Unicode
      space separators. */
  const WHITESPACE: string :=
    " \t\n\r\U{0B}\U{0C}\U{A0}\U{1680}"
    + "\U{2000}\U{2001}\U{2002}\U{2003}\U{2004}\U{2005}\U{2006}\U{2007}\U{2008}\U{2009}\U{200A}"
    + "\U{2028}\U{2029}\U{202F}\U{205F}\U{3000}\U{FEFF}"

  /** `c` occurs in `s`. */
  predicate Among(c: char, s: string) {
    |s| > 0 && (s[0] == c || Among(c, s[1..]))
  }

  predicate IsWhitespace(c: char) {
    Among(c, WHITESPACE)
  }

  lemma {:induction false} AmongIndex(c: char, s: string)
    requires Among(c, s)
    ensures exists i :: 0 <= i < |s| && s[i] == c
  {
    if s[0] != c {
      AmongIndex(c, s[1..]);
      var i :| 0 <= i < |s[1..]| && s[1..][i] == c;
      assert s[i + 1] == c;
    }
  }

  /** No white space character is an ASCII letter, so lower-casing never
      touches it. */
  lemma WhitespaceIsNoLetter(c: char)
    ensures IsWhitespace(c) ==> !('A' <= c <= 'Z') && !('a' <= c <= 'z')
  {
    if IsWhitespace(c) {
      AmongIndex(c, WHITESPACE);
      var i :| 0 <= i < |WHITESPACE| && WHITESPACE[i] == c;
      assert forall j :: 0 <= j < |WHITESPACE| ==> WHITESPACE[j] < 'A' || WHITESPACE[j] > 'z';
    }
  }

  predicate AllWhitespace(s: string) {
    forall i :: 0 <= i < |s| ==> IsWhitespace(s[i])
  }

  /** `s` without its leading white space. */
  function TrimStart(s: string): (r: string)
    ensures |r| <= |s| && r == s[|s| - |r|..]
    ensures r == [] || !IsWhitespace(r[0])
  {
    if |s| > 0 && IsWhitespace(s[0]) then
      var r := TrimStart(s[1..]);
      assert s[1..][|s| - 1 - |r|..] == s[|s| - |r|..];
      r
    else s
  }

  /** What `TrimStart` drops is white space. */
  lemma {:induction false} TrimStartDropsWhitespace(s: string)
    ensures AllWhitespace(s[..|s| - |TrimStart(s)|])
    decreases |s|
  {
    if |s| > 0 && IsWhitespace(s[0]) {
      var r := TrimStart(s[1..]);
      TrimStartDropsWhitespace(s[1..]);
      var p, q := s[..|s| - |r|], s[1..][..|s| - 1 - |r|];
      forall i | 0 <= i < |p|
        ensures IsWhitespace(p[i])
      {
        if i > 0 {
          assert p[i] == q[i - 1];
        }
      }
    }
  }

  /** `s` without its trailing white space. */
  function TrimEnd(s: string): (r: string)
    ensures |r| <= |s| && r == s[..|r|]
    ensures r == [] || !IsWhitespace(r[|r| - 1])
  {
    if |s| > 0 && IsWhitespace(s[|s| - 1]) then TrimEnd(s[..|s| - 1]) else s
  }

  /** What `TrimEnd` drops is white space. */
  lemma {:induction false} TrimEndDropsWhitespace(s: string)
    ensures AllWhitespace(s[|TrimEnd(s)|..])
    decreases |s|
  {
    if |s| > 0 && IsWhitespace(s[|s| - 1]) {
      var r := TrimEnd(s[..|s| - 1]);
      TrimEndDropsWhitespace(s[..|s| - 1]);
      assert s[|r|..] == s[..|s| - 1][|r|..] + [s[|s| - 1]];
    }
  }

  /** `s.trim()`. */
  function Trim(s: string): string {
    TrimEnd(TrimStart(s))
  }

  /** `!s.trim()`: a string is blank when trimming leaves nothing. */
  predicate IsBlank(s: string) {
    Trim(s) == []
  }

  /** A string is blank exactly when every character of it is white space. */
  lemma BlankIffAllWhitespace(s: string)
    ensures IsBlank(s) <==> AllWhitespace(s)
  {
    if IsBlank(s) {
      BlankIsWhitespace(s);
    }
    if AllWhitespace(s) {
      WhitespaceTrimsAway(s);
    }
  }

  lemma BlankIsWhitespace(s: string)
    requires IsBlank(s)
    ensures AllWhitespace(s)
  {
    var t := TrimStart(s);
    TrimStartDropsWhitespace(s);
    TrimEndDropsWhitespace(t);
    // `t` is white space and starts with none, so it is empty.
    assert t[0..] == t;
    assert s[..|s| - |t|] == s;
  }

  lemma WhitespaceTrimsAway(s: string)
    requires AllWhitespace(s)
    ensures TrimStart(s) == [] && IsBlank(s)
  {
  }

  /** Text that is not blank stays so whatever is put around it. */
  lemma PaddedNotBlank(a: string, s: string, b: string)
    requires !IsBlank(s)
    ensures !IsBlank(a + s + b)
  {
    BlankIffAllWhitespace(s);
    BlankIffAllWhitespace(a + s + b);
    var i :| 0 <= i < |s| && !IsWhitespace(s[i]);
    assert (a + s + b)[|a| + i] == s[i];
  }

  lemma AppendedNotBlank(s: string, b: string)
    requires !IsBlank(s)
    ensures !IsBlank(s + b)
  {
    BlankIffAllWhitespace(s);
    BlankIffAllWhitespace(s + b);
    var i :| 0 <= i < |s| && !IsWhitespace(s[i]);
    assert (s + b)[i] == s[i];
  }

  /** The result of trimming has no white space at either end. */
  lemma TrimEnds(s: string)
    ensures Trim(s) == [] || (!IsWhitespace(Trim(s)[0]) && !IsWhitespace(Trim(s)[|Trim(s)| - 1]))
  {
    var t := TrimStart(s);
    var r := TrimEnd(t);
    if r != [] {
      assert r[0] == t[0];
    }
  }

  lemma {:induction false} TrimStartPadded(a: string, s: string)
    requires AllWhitespace(a)
    ensures TrimStart(a + s) == TrimStart(s)
    decreases |a|
  {
    if |a| > 0 {
      assert (a + s)[1..] == a[1..] + s;
      TrimStartPadded(a[1..], s);
    } else {
      assert a + s == s;
    }
  }

  lemma {:induction false} TrimEndPadded(s: string, b: string)
    requires AllWhitespace(b)
    ensures TrimEnd(s + b) == TrimEnd(s)
    decreases |b|
  {
    if |b| > 0 {
      assert (s + b)[..|s + b| - 1] == s + b[..|b| - 1];
      TrimEndPadded(s, b[..|b| - 1]);
    } else {
      assert s + b == s;
    }
  }

  /** Trimming a string that does not start with white space only works at its end. */
  lemma {:induction false} TrimStartKeepsSuffix(s: string, b: string)
    requires s != [] && !IsWhitespace(s[0])
    ensures TrimStart(s + b) == s + b
  {
  }

  /** Leading white space is cut the same way whatever follows a non-blank string. */
  lemma TrimStartAppend(s: string, b: string)
    requires AllWhitespace(b)
    ensures TrimStart(s) != [] ==> TrimStart(s + b) == TrimStart(s) + b
    ensures TrimStart(s) == [] ==> TrimStart(s + b) == []
  {
    var t := TrimStart(s);
    TrimStartThenAppend(s, b);
    if t == [] {
      assert t + b == b + [];
      TrimStartPadded(b, []);
    } else {
      TrimStartKeepsSuffix(t, b);
    }
  }

  /** The white space `TrimStart` cuts from `s` is cut from `s + b` as well. */
  lemma TrimStartThenAppend(s: string, b: string)
    ensures TrimStart(s + b) == TrimStart(TrimStart(s) + b)
  {
    var t := TrimStart(s);
    var w := s[..|s| - |t|];
    TrimStartDropsWhitespace(s);
    assert s + b == w + (t + b) by {
      assert s == w + t;
    }
    TrimStartPadded(w, t + b);
  }

  /** White space added at either end of a string does not change its trimmed form. */
  lemma TrimPadded(a: string, s: string, b: string)
    requires AllWhitespace(a) && AllWhitespace(b)
    ensures Trim(a + s + b) == Trim(s)
  {
    assert a + s + b == a + (s + b);
    TrimStartPadded(a, s + b);
    assert TrimStart(a + s + b) == TrimStart(s + b);
    TrimStartAppend(s, b);
    assert TrimStart(a + s + b) == TrimStart(TrimStart(s) + b);
    if TrimStart(s) != [] {
      TrimEndPadded(TrimStart(s), b);
      assert TrimEnd(TrimStart(s) + b) == TrimEnd(TrimStart(s));
    } else {
      assert TrimStart(s) + b == [] + b;
      TrimEndPadded([], b);
    }
  }

  /** Trimming twice is trimming once. */
  lemma TrimIdempotent(s: string)
    ensures Trim(Trim(s)) == Trim(s)
  {
    var r := Trim(s);
    if r != [] {
      TrimStartKeepsSuffix(r, []);
      assert r + [] == r;
    }
  }

  /** `toLowerCase` of one character, for the ASCII letters. */
  function LowerChar(c: char): (d: char)
    ensures 'A' <= c <= 'Z' ==> 'a' <= d <= 'z' && d as int - c as int == 32
    ensures !('A' <= c <= 'Z') ==> d == c
  {
    if 'A' <= c <= 'Z' then (c as int + 32) as char else c
  }

  /** `s.toLowerCase()`, character by character. */
  function Lower(s: string): (r: string)
    ensures |r| == |s|
  {
    seq(|s|, i requires 0 <= i < |s| => LowerChar(s[i]))
  }

  /** White space is left as it is by lower-casing. */
  lemma LowerKeepsWhitespace(s: string)
    requires AllWhitespace(s)
    ensures Lower(s) == s
  {
    forall i | 0 <= i < |s|
      ensures Lower(s)[i] == s[i]
    {
      WhitespaceIsNoLetter(s[i]);
    }
  }

  lemma LowerIdempotent(s: string)
    ensures Lower(Lower(s)) == Lower(s)
  {
  }

  lemma {:induction false} LowerTrimStart(s: string)
    ensures TrimStart(Lower(s)) == Lower(TrimStart(s))
    decreases |s|
  {
    if |s| > 0 {
      assert Lower(s)[0] == LowerChar(s[0]);
      assert Lower(s)[1..] == Lower(s[1..]);
      WhitespaceIsNoLetter(s[0]);
      WhitespaceIsNoLetter(LowerChar(s[0]));
      if IsWhitespace(s[0]) {
        LowerTrimStart(s[1..]);
      }
    }
  }

  lemma {:induction false} LowerTrimEnd(s: string)
    ensures TrimEnd(Lower(s)) == Lower(TrimEnd(s))
    decreases |s|
  {
    if |s| > 0 {
      assert Lower(s)[|s| - 1] == LowerChar(s[|s| - 1]);
      assert Lower(s)[..|s| - 1] == Lower(s[..|s| - 1]);
      WhitespaceIsNoLetter(s[|s| - 1]);
      WhitespaceIsNoLetter(LowerChar(s[|s| - 1]));
      if IsWhitespace(s[|s| - 1]) {
        LowerTrimEnd(s[..|s| - 1]);
      }
    }
  }

  /** Lower-casing then trimming (as the answer checks write it) equals trimming
      then lower-casing. */
  lemma LowerTrimCommute(s: string)
    ensures Trim(Lower(s)) == Lower(Trim(s))
  {
    LowerTrimStart(s);
    LowerTrimEnd(TrimStart(s));
  }

  /** `s.startsWith(p)`. */
  predicate StartsWith(s: string, p: string) {
    |p| <= |s| && s[..|p|] == p
  }

  /** `s.endsWith(p)`. */
  predicate EndsWith(s: string, p: string) {
    |p| <= |s| && s[|s| - |p|..] == p
  }

  /** `s.slice(0, n)` and `s.substring(0, n)` for a non-negative `n`. */
  function Take<T>(s: seq<T>, n: nat): (r: seq<T>)
    ensures |r| == if n <= |s| then n else |s|
    ensures r == s[..|r|]
  {
    if n <= |s| then s[..n] else s
  }

  /** `s.split(sep)[0]`: everything before the first `sep`, or all of `s`. */
  function BeforeFirst(s: string, sep: char): (r: string)
    ensures |r| <= |s| && r == s[..|r|]
    ensures sep !in r
    ensures |r| < |s| ==> s[|r|] == sep
    ensures sep !in s ==> r == s
  {
    if |s| == 0 || s[0] == sep then [] else [s[0]] + BeforeFirst(s[1..], sep)
  }

  /** The part before the first separator is exactly the text up to it. */
  lemma {:induction false} BeforeFirstSplit(a: string, sep: char, b: string)
    requires sep !in a
    ensures BeforeFirst(a + [sep] + b, sep) == a
  {
    if |a| > 0 {
      assert (a + [sep] + b)[1..] == a[1..] + [sep] + b;
      BeforeFirstSplit(a[1..], sep, b);
    }
  }

  /** `s.replace(/[...]/g, '')`: `s` with every character of `drop` removed. */
  function RemoveChars(s: string, drop: set<char>): (r: string)
    ensures |r| <= |s|
    ensures forall i :: 0 <= i < |r| ==> r[i] !in drop
  {
    if |s| == 0 then []
    else RemoveChars(s[..|s| - 1], drop) + (if s[|s| - 1] in drop then [] else [s[|s| - 1]])
  }

  /** Removing characters works piece by piece and so keeps the order of the rest. */
  lemma {:induction false} RemoveCharsAppend(a: string, b: string, drop: set<char>)
    ensures RemoveChars(a + b, drop) == RemoveChars(a, drop) + RemoveChars(b, drop)
    decreases |b|
  {
    if |b| == 0 {
      assert a + b == a;
    } else {
      assert (a + b)[..|a + b| - 1] == a + b[..|b| - 1];
      RemoveCharsAppend(a, b[..|b| - 1], drop);
    }
  }

  /** Every kept character keeps its number of occurrences; the removed ones vanish. */
  lemma {:induction false} RemoveCharsCounts(s: string, drop: set<char>, c: char)
    ensures multiset(RemoveChars(s, drop))[c] == if c in drop then 0 else multiset(s)[c]
    decreases |s|
  {
    if |s| > 0 {
      var front, last := s[..|s| - 1], s[|s| - 1];
      RemoveCharsCounts(front, drop, c);
      assert s == front + [last];
      OccurrencesSnoc(front, last, c);
      if last !in drop {
        OccurrencesSnoc(RemoveChars(front, drop), last, c);
      }
    }
  }

  lemma OccurrencesSnoc(s: string, x: char, c: char)
    ensures multiset(s + [x])[c] == multiset(s)[c] + if x == c then 1 else 0
  {
    assert multiset(s + [x]) == multiset(s) + multiset{x};
  }

  /** A string with none of the dropped characters is left as it is. */
  lemma {:induction false} RemoveCharsNoop(s: string, drop: set<char>)
    requires forall i :: 0 <= i < |s| ==> s[i] !in drop
    ensures RemoveChars(s, drop) == s
    decreases |s|
  {
    if |s| > 0 {
      RemoveCharsNoop(s[..|s| - 1], drop);
      assert s == s[..|s| - 1] + [s[|s| - 1]];
    }
  }

  /** `parts.join(sep)`. */
  function Join(parts: seq<string>, sep: string): (r: string)
    ensures |parts| == 1 ==> r == parts[0]
  {
    if |parts| == 0 then []
    else if |parts| == 1 then parts[0]
    else Join(parts[..|parts| - 1], sep) + sep + parts[|parts| - 1]
  }

  /** Number of occurrences of `c` in `s`. */
  function Occurrences(s: string, c: char): nat {
    multiset(s)[c]
  }

  /** Joining pieces that do not contain `c` with a separator that does not
      contain `c` gives a string without `c`. */
  lemma {:induction false} JoinAvoids(parts: seq<string>, sep: string, c: char)
    requires c !in sep
    requires forall k :: 0 <= k < |parts| ==> c !in parts[k]
    ensures c !in Join(parts, sep)
    decreases |parts|
  {
    if |parts| > 1 {
      JoinAvoids(parts[..|parts| - 1], sep, c);
    }
  }

  function DigitChar(d: nat): (c: char)
    requires d < 10
    ensures '0' <= c <= '9'
  {
    ('0' as int + d) as char
  }

  function DigitValue(c: char): nat
    requires '0' <= c <= '9'
  {
    c as int - '0' as int
  }

  /** The decimal rendering of a natural number, as `${n}` produces it. */
  function NatToString(n: nat): (r: string)
    ensures |r| > 0
    ensures forall i :: 0 <= i < |r| ==> '0' <= r[i] <= '9'
    ensures |r| > 1 ==> r[0] != '0'
    decreases n
  {
    if n < 10 then [DigitChar(n)] else NatToString(n / 10) + [DigitChar(n % 10)]
  }

  /** The number a string of decimal digits denotes. */
  function ParseDigits(s: string): nat
    requires forall i :: 0 <= i < |s| ==> '0' <= s[i] <= '9'
  {
    if |s| == 0 then 0 else 10 * ParseDigits(s[..|s| - 1]) + DigitValue(s[|s| - 1])
  }

  /** Reading back a rendered number gives the number. */
  lemma {:induction false} NatToStringRoundTrip(n: nat)
    ensures ParseDigits(NatToString(n)) == n
    decreases n
  {
    if n >= 10 {
      NatToStringRoundTrip(n / 10);
      var s := NatToString(n);
      assert s[..|s| - 1] == NatToString(n / 10);
    }
  }

  /** Different numbers render differently. */
  lemma NatToStringInjective(m: nat, n: nat)
    requires NatToString(m) == NatToString(n)
    ensures m == n
  {
    NatToStringRoundTrip(m);
    NatToStringRoundTrip(n);
  }
}
