/** The few Python string operations the two translators rely on, over
    `string` (= `seq<char>`): `strip`, `startswith`, `find`/`in`, `split`,
    `str(n)`, `int(s)`, `bin(n)` and `rjust`. */
module Text {
  import opened Wrappers

  /** Whether Python's `str.strip()` removes the character (white space). */
  predicate IsWhitespace(c: char) {
    || c == ' ' || '\t' <= c <= '\r' || '\U{001C}' <= c <= '\U{001F}' || c == '\U{0085}' || c == '\U{00A0}'
    || c == '\U{1680}' || '\U{2000}' <= c <= '\U{200A}' || c == '\U{2028}' || c == '\U{2029}'
    || c == '\U{202F}' || c == '\U{205F}' || c == '\U{3000}'
  }

  /** The characters `str.strip()` removes. */
  const Whitespace: set<char> := set c: char | IsWhitespace(c)

  predicate StartsWith(s: string, prefix: string) {
    |prefix| <= |s| && s[..|prefix|] == prefix
  }

  /** Where `s.lstrip(chars)` begins, looking from index `k` on. */
  function LStripFrom(s: string, chars: set<char>, k: nat): (r: nat)
    requires k <= |s|
    ensures k <= r <= |s|
    ensures r == |s| || s[r] !in chars
    decreases |s| - k
  {
    if k < |s| && s[k] in chars then LStripFrom(s, chars, k + 1) else k
  }

  /** Where `s.rstrip(chars)` ends, looking from index `k` down. */
  function RStripTo(s: string, chars: set<char>, k: nat): (r: nat)
    requires k <= |s|
    ensures r <= k
    ensures r == 0 || s[r - 1] !in chars
  {
    if k > 0 && s[k - 1] in chars then RStripTo(s, chars, k - 1) else k
  }

  /** `s.lstrip(chars)`: drops the leading characters that are in `chars`. */
  function LStrip(s: string, chars: set<char>): string {
    s[LStripFrom(s, chars, 0)..]
  }

  /** `s.rstrip(chars)`: drops the trailing characters that are in `chars`. */
  function RStrip(s: string, chars: set<char>): string {
    s[..RStripTo(s, chars, |s|)]
  }

  /** `s.strip(chars)`: both ends. */
  function Strip(s: string, chars: set<char>): string {
    LStrip(RStrip(s, chars), chars)
  }

  /** Stripping removes only characters of `chars`. */
  lemma {:induction false} LStripRemovesOnly(s: string, chars: set<char>, k: nat)
    requires k <= |s|
    ensures forall i :: k <= i < LStripFrom(s, chars, k) ==> s[i] in chars
    decreases |s| - k
  {
    if k < |s| && s[k] in chars {
      LStripRemovesOnly(s, chars, k + 1);
    }
  }

  lemma {:induction false} RStripRemovesOnly(s: string, chars: set<char>, k: nat)
    requires k <= |s|
    ensures forall i :: RStripTo(s, chars, k) <= i < k ==> s[i] in chars
  {
    if k > 0 && s[k - 1] in chars {
      RStripRemovesOnly(s, chars, k - 1);
    }
  }

  /** `rstrip` stops at the last character not in `chars`. */
  lemma {:induction false} RStripToStops(s: string, chars: set<char>, j: nat, k: nat)
    requires 0 < j <= k <= |s| && s[j - 1] !in chars
    requires forall i :: j <= i < k ==> s[i] in chars
    ensures RStripTo(s, chars, k) == j
    decreases k
  {
    if k > j {
      RStripToStops(s, chars, j, k - 1);
    }
  }

  /** Stripping a tail made of `chars` off a text that does not end in one. */
  lemma RStripStopsAt(s: string, tail: string, chars: set<char>)
    requires s != [] && s[|s| - 1] !in chars
    requires forall i :: 0 <= i < |tail| ==> tail[i] in chars
    ensures RStrip(s + tail, chars) == s
  {
    var t := s + tail;
    forall i | |s| <= i < |t|
      ensures t[i] in chars
    {
      assert t[i] == tail[i - |s|];
    }
    RStripToStops(t, chars, |s|, |t|);
    assert t[..|s|] == s;
  }

  /** A text that neither begins nor ends with one of `chars` is left as it is. */
  lemma StripUnchanged(s: string, chars: set<char>)
    requires s != [] && s[0] !in chars && s[|s| - 1] !in chars
    ensures Strip(s, chars) == s
  {
  }

  /** The text occurs in `s` starting at index `k`. */
  predicate OccursAt(s: string, p: string, k: int) {
    0 <= k && k + |p| <= |s| && s[k..k + |p|] == p
  }

  /** `s.find(p, from)`: the first index at or after `from` where `p` occurs, or -1. */
  function FindFrom(s: string, p: string, from: nat): (r: int)
    ensures r == -1 || (from <= r && r + |p| <= |s|)
    decreases |s| - from
  {
    if from + |p| > |s| then -1
    else if s[from..from + |p|] == p then from
    else FindFrom(s, p, from + 1)
  }

  /** `find` reports an occurrence, and no earlier one exists. */
  lemma {:induction false} FindFromFirst(s: string, p: string, from: nat)
    ensures var r := FindFrom(s, p, from);
      (r == -1 || OccursAt(s, p, r))
      && forall k :: from <= k && (r == -1 || k < r) ==> !OccursAt(s, p, k)
    decreases |s| - from
  {
    if from + |p| <= |s| && s[from..from + |p|] != p {
      FindFromFirst(s, p, from + 1);
    }
  }

  /** `s.find(p)`. */
  function Find(s: string, p: string): int {
    FindFrom(s, p, 0)
  }

  /** `p in s` for two strings. */
  predicate Contains(s: string, p: string) {
    Find(s, p) >= 0
  }

  /** Cutting `s` where `p` first occurs leaves a text in which `p` does not occur. */
  lemma NotInPrefixBeforeFind(s: string, p: string)
    requires Contains(s, p) && p != []
    ensures !Contains(s[..Find(s, p)], p)
  {
    var i := Find(s, p);
    var t := s[..i];
    FindFromFirst(s, p, 0);
    forall k | 0 <= k
      ensures !OccursAt(t, p, k)
    {
      if k + |p| <= |t| {
        assert k < i && !OccursAt(s, p, k);
        assert t[k..k + |p|] == s[k..k + |p|];
      }
    }
    FindFromFirst(t, p, 0);
  }

  /** A one-character text occurs exactly where the character does. */
  lemma ContainsChar(s: string, c: char)
    ensures Contains(s, [c]) <==> c in s
  {
    FindFromFirst(s, [c], 0);
    var r := Find(s, [c]);
    if r >= 0 {
      assert s[r..r + 1] == [c];
      assert s[r] == c;
    }
    if c in s {
      var i :| 0 <= i < |s| && s[i] == c;
      assert s[i..i + 1] == [c];
      assert OccursAt(s, [c], i);
    }
  }

  /** Whether a cleaned line is kept as a command: both translators drop
      empty lines and lines that start with `//`. */
  predicate Kept(s: string) {
    !(StartsWith(s, "//") || s == "")
  }

  // ---------------------------------------------------------------------------
  // split and join on one separator character

  /** `s.split(sep)`: every piece between two separators, empty pieces kept. */
  function Split(s: string, sep: char): (r: seq<string>)
    ensures |r| >= 1
  {
    if s == [] then [""]
    else if s[0] == sep then [""] + Split(s[1..], sep)
    else
      var rest := Split(s[1..], sep);
      [[s[0]] + rest[0]] + rest[1..]
  }

  /** No piece holds the separator, and there is more than one piece exactly
      when the text holds the separator. */
  lemma {:induction false} SplitPieces(s: string, sep: char)
    ensures forall i :: 0 <= i < |Split(s, sep)| ==> sep !in Split(s, sep)[i]
    ensures |Split(s, sep)| == 1 <==> sep !in s
  {
    if s != [] {
      SplitPieces(s[1..], sep);
      var rest := Split(s[1..], sep);
      var r := Split(s, sep);
      if s[0] != sep {
        assert r[0] == [s[0]] + rest[0];
        forall i | 0 < i < |r| ensures sep !in r[i] {
          assert r[i] == rest[i];
        }
        assert sep in s <==> sep in s[1..] by {
          assert s == [s[0]] + s[1..];
        }
      } else {
        forall i | 0 < i < |r| ensures sep !in r[i] {
          assert r[i] == rest[i - 1];
        }
      }
    }
  }

  /** `sep.join(words)`. */
  function Join(words: seq<string>, sep: char): string
    requires |words| >= 1
  {
    if |words| == 1 then words[0] else words[0] + [sep] + Join(words[1..], sep)
  }

  /** Joining the pieces again gives back the original text. */
  lemma {:induction false} JoinSplit(s: string, sep: char)
    ensures Join(Split(s, sep), sep) == s
  {
    if s == [] {
    } else if s[0] == sep {
      JoinSplit(s[1..], sep);
      assert Split(s, sep)[1..] == Split(s[1..], sep);
    } else {
      JoinSplit(s[1..], sep);
      var rest := Split(s[1..], sep);
      var r := Split(s, sep);
      if |rest| == 1 {
        assert r == [[s[0]] + rest[0]];
      } else {
        assert r[1..] == rest[1..];
        assert Join(rest, sep) == rest[0] + [sep] + Join(rest[1..], sep);
      }
    }
  }

  /** Splitting a join of separator-free words gives back the words. */
  lemma {:induction false} SplitJoin(words: seq<string>, sep: char)
    requires |words| >= 1
    requires forall i :: 0 <= i < |words| ==> sep !in words[i]
    ensures Split(Join(words, sep), sep) == words
  {
    if |words| == 1 {
      SplitNoSep(words[0], sep);
    } else {
      SplitJoin(words[1..], sep);
      SplitWordThenSep(words[0], sep, Join(words[1..], sep));
      assert words == [words[0]] + words[1..];
    }
  }

  lemma {:induction false} SplitNoSep(w: string, sep: char)
    requires sep !in w
    ensures Split(w, sep) == [w]
  {
    if w != [] {
      SplitNoSep(w[1..], sep);
      assert [w[0]] + w[1..] == w;
    }
  }

  lemma {:induction false} SplitWordThenSep(w: string, sep: char, tail: string)
    requires sep !in w
    ensures Split(w + [sep] + tail, sep) == [w] + Split(tail, sep)
  {
    if w == [] {
      assert [sep] + tail == w + [sep] + tail;
      assert ([sep] + tail)[1..] == tail;
    } else {
      SplitWordThenSep(w[1..], sep, tail);
      assert (w + [sep] + tail)[1..] == w[1..] + [sep] + tail;
      assert [w[0]] + w[1..] == w;
    }
  }

  /** Splitting at one separator splits each side separately. */
  lemma {:induction false} SplitAtSep(a: string, sep: char, b: string)
    ensures Split(a + [sep] + b, sep) == Split(a, sep) + Split(b, sep)
  {
    if a == [] {
      assert a + [sep] + b == [sep] + b;
      SplitCons(sep, b, sep);
    } else {
      SplitAtSep(a[1..], sep, b);
      assert a == [a[0]] + a[1..];
      assert a + [sep] + b == [a[0]] + (a[1..] + [sep] + b);
      SplitAtSepStep(a[0], a[1..], sep, b);
    }
  }

  /** The inductive step of `SplitAtSep`: one more character in front. */
  lemma SplitAtSepStep(c: char, a: string, sep: char, b: string)
    requires Split(a + [sep] + b, sep) == Split(a, sep) + Split(b, sep)
    ensures Split([c] + (a + [sep] + b), sep) == Split([c] + a, sep) + Split(b, sep)
  {
    SplitCons(c, a, sep);
    SplitCons(c, a + [sep] + b, sep);
    if c == sep {
      PrependPiece("", Split(a, sep), Split(b, sep));
    } else {
      ExtendFirstPiece([c], Split(a, sep), Split(b, sep));
    }
  }

  lemma PrependPiece(p: string, left: seq<string>, right: seq<string>)
    ensures [p] + (left + right) == [p] + left + right
  {
  }

  lemma ExtendFirstPiece(p: string, left: seq<string>, right: seq<string>)
    requires |left| >= 1
    ensures [p + (left + right)[0]] + (left + right)[1..] == [p + left[0]] + left[1..] + right
  {
    assert (left + right)[0] == left[0];
    assert (left + right)[1..] == left[1..] + right;
  }

  /** Splitting a text that starts with a given character. */
  lemma SplitCons(c: char, s: string, sep: char)
    ensures Split([c] + s, sep)
         == if c == sep then [""] + Split(s, sep) else [[c] + Split(s, sep)[0]] + Split(s, sep)[1..]
  {
    assert ([c] + s)[0] == c && ([c] + s)[1..] == s;
  }

  /** A text that splits into exactly three words is those words joined. */
  lemma ThreeWords(s: string, sep: char)
    requires |Split(s, sep)| == 3
    ensures var w := Split(s, sep); s == w[0] + [sep] + w[1] + [sep] + w[2]
  {
    JoinSplit(s, sep);
    var w := Split(s, sep);
    assert w[1..][1..] == [w[2]];
    assert Join(w[1..], sep) == w[1] + [sep] + w[2];
  }

  // ---------------------------------------------------------------------------
  // decimal numbers: `str(n)` and `int(s)`

  predicate IsDigit(c: char) {
    '0' <= c <= '9'
  }

  predicate AllDigits(s: string) {
    forall i :: 0 <= i < |s| ==> IsDigit(s[i])
  }

  function DigitChar(d: nat): (c: char)
    requires d < 10
    ensures IsDigit(c) && c as int - '0' as int == d
  {
    ('0' as int + d) as char
  }

  /** `str(n)` for a natural number: its decimal numeral, no leading zeros. */
  function DecimalString(n: nat): (r: string)
    ensures r != [] && AllDigits(r)
    ensures '_' !in r
  {
    if n < 10 then [DigitChar(n)] else DecimalString(n / 10) + [DigitChar(n % 10)]
  }

  /** The value of a string of decimal digits (leading zeros allowed). */
  function DigitsValue(s: string): nat
    requires AllDigits(s)
  {
    if s == [] then 0 else DigitsValue(s[..|s| - 1]) * 10 + (s[|s| - 1] as int - '0' as int)
  }

  /** Reading back a numeral gives the number it was written from. */
  lemma {:induction false} DecimalRoundTrip(n: nat)
    ensures DigitsValue(DecimalString(n)) == n
  {
    if n >= 10 {
      DecimalRoundTrip(n / 10);
      var s := DecimalString(n);
      assert s[..|s| - 1] == DecimalString(n / 10);
    }
  }

  /** Different numbers have different numerals. */
  lemma DecimalInjective(m: nat, n: nat)
    requires DecimalString(m) == DecimalString(n)
    ensures m == n
  {
    DecimalRoundTrip(m);
    DecimalRoundTrip(n);
  }

  /** The digits of an integer literal as Python's `int` reads them: decimal
      digits, single underscores allowed between two digits. */
  predicate IsDigitGroups(s: string) {
    && s != []
    && IsDigit(s[0]) && IsDigit(s[|s| - 1])
    && (forall i :: 0 <= i < |s| ==> IsDigit(s[i]) || s[i] == '_')
    && (forall i :: 0 <= i < |s| - 1 ==> s[i] == '_' ==> s[i + 1] != '_')
  }

  function RemoveUnderscores(s: string): (r: string)
    requires forall i :: 0 <= i < |s| ==> IsDigit(s[i]) || s[i] == '_'
    ensures AllDigits(r)
  {
    if s == [] then []
    else (if s[0] == '_' then [] else [s[0]]) + RemoveUnderscores(s[1..])
  }

  /** The characters `int()` skips around a numeral: the ASCII white space
      `' '` and `'\t'`..`'\r'`, and the non-ASCII white space, which `int()`
      first turns into `' '`. The ASCII separators U+001C..U+001F, which
      `str.strip()` removes, are not skipped. */
  const IntWhitespace: set<char> := Whitespace - {'\U{001C}', '\U{001D}', '\U{001E}', '\U{001F}'}

  /** `int(s)`: surrounding white space, an optional sign and decimal digit
      groups; `None` where Python raises `ValueError`. */
  function ParseInt(s: string): Option<int> {
    var t := Strip(s, IntWhitespace);
    var signed := t != [] && (t[0] == '+' || t[0] == '-');
    var body := if signed then t[1..] else t;
    if IsDigitGroups(body) then
      var v: int := DigitsValue(RemoveUnderscores(body));
      Some(if signed && t[0] == '-' then -v else v)
    else None
  }

  lemma {:induction false} RemoveUnderscoresOfDigits(s: string)
    requires AllDigits(s)
    ensures RemoveUnderscores(s) == s
  {
    if s != [] {
      RemoveUnderscoresOfDigits(s[1..]);
    }
  }

  lemma DigitNotWhitespace(c: char)
    requires IsDigit(c)
    ensures c !in IntWhitespace
  {
  }

  /** `int()` does not skip an ASCII separator that `strip()` would remove:
      a text beginning with one is no numeral. */
  lemma SeparatorNotSkipped(c: char, s: string)
    requires '\U{001C}' <= c <= '\U{001F}'
    ensures c in Whitespace
    ensures ParseInt([c] + s) == None
  {
    var u := [c] + s;
    assert c !in IntWhitespace;
    assert u[0] !in IntWhitespace;
    RStripRemovesOnly(u, IntWhitespace, |u|);
    assert RStripTo(u, IntWhitespace, |u|) > 0;
    var r := RStrip(u, IntWhitespace);
    assert r != [] && r[0] == c;
    assert LStrip(r, IntWhitespace) == r;
  }

  /** `int(str(n)) == n`. */
  lemma ParseDecimal(n: nat)
    ensures ParseInt(DecimalString(n)) == Some(n)
  {
    var s := DecimalString(n);
    DigitNotWhitespace(s[|s| - 1]);
    assert RStrip(s, IntWhitespace) == s;
    DigitNotWhitespace(s[0]);
    assert LStrip(s, IntWhitespace) == s;
    assert s[0] != '+' && s[0] != '-';
    assert IsDigitGroups(s);
    RemoveUnderscoresOfDigits(s);
    DecimalRoundTrip(n);
  }

  // ---------------------------------------------------------------------------
  // binary numerals: `bin(n)[2:]` and `rjust`

  function Pow2(k: nat): (r: nat)
    ensures r >= 1
  {
    if k == 0 then 1 else 2 * Pow2(k - 1)
  }

  predicate IsBits(s: string) {
    forall i :: 0 <= i < |s| ==> s[i] == '0' || s[i] == '1'
  }

  /** `bin(n)[2:]` for a natural number: binary digits, no leading zeros. */
  function BinaryString(n: nat): (r: string)
    ensures r != [] && IsBits(r)
  {
    if n < 2 then [if n == 0 then '0' else '1']
    else BinaryString(n / 2) + [if n % 2 == 0 then '0' else '1']
  }

  /** The value of a string of binary digits, most significant first. */
  function BinaryValue(s: string): nat
    requires IsBits(s)
  {
    if s == [] then 0 else 2 * BinaryValue(s[..|s| - 1]) + (if s[|s| - 1] == '1' then 1 else 0)
  }

  lemma {:induction false} BinaryRoundTrip(n: nat)
    ensures BinaryValue(BinaryString(n)) == n
  {
    if n >= 2 {
      BinaryRoundTrip(n / 2);
      var s := BinaryString(n);
      assert s[..|s| - 1] == BinaryString(n / 2);
    }
  }

  /** `bin(n)` needs at most `k` digits exactly when `n < 2^k`. */
  lemma {:induction false} BinaryLength(n: nat, k: nat)
    requires k >= 1
    ensures |BinaryString(n)| <= k <==> n < Pow2(k)
  {
    if n >= 2 {
      if k == 1 {
        assert Pow2(1) == 2;
        assert |BinaryString(n)| >= 2;
      } else {
        BinaryLength(n / 2, k - 1);
      }
    } else {
      PowAtLeastTwo(k);
    }
  }

  lemma {:induction false} PowAtLeastTwo(k: nat)
    requires k >= 1
    ensures Pow2(k) >= 2
  {
    if k > 1 {
      PowAtLeastTwo(k - 1);
    }
  }

  /** `n` copies of `x`, as Python's `[x] * n` or `c * n`. */
  function Repeat<T>(x: T, n: nat): (r: seq<T>)
    ensures |r| == n && forall i :: 0 <= i < n ==> r[i] == x
  {
    if n == 0 then [] else [x] + Repeat(x, n - 1)
  }

  /** `s.count(x)` for a list `s`: how many of its elements equal `x`. */
  function Count<T(==)>(s: seq<T>, x: T): nat {
    if s == [] then 0 else (if s[0] == x then 1 else 0) + Count(s[1..], x)
  }

  lemma {:induction false} CountAppend<T>(a: seq<T>, b: seq<T>, x: T)
    ensures Count(a + b, x) == Count(a, x) + Count(b, x)
  {
    if a != [] {
      CountAppend(a[1..], b, x);
      assert (a + b)[1..] == a[1..] + b;
    } else {
      assert a + b == b;
    }
  }

  lemma {:induction false} CountAbsent<T>(s: seq<T>, x: T)
    requires x !in s
    ensures Count(s, x) == 0
  {
    if s != [] {
      CountAbsent(s[1..], x);
    }
  }

  lemma {:induction false} CountRepeat<T>(x: T, n: nat)
    ensures Count(Repeat(x, n), x) == n
  {
    if n > 0 {
      CountRepeat(x, n - 1);
    }
  }

  /** Leading zeros do not change the value of a binary numeral. */
  lemma {:induction false} LeadingZeros(z: nat, s: string)
    requires IsBits(s)
    ensures IsBits(Repeat('0', z) + s) && BinaryValue(Repeat('0', z) + s) == BinaryValue(s)
  {
    if s != [] {
      var t := Repeat('0', z) + s;
      assert t[..|t| - 1] == Repeat('0', z) + s[..|s| - 1];
      LeadingZeros(z, s[..|s| - 1]);
    } else {
      assert Repeat('0', z) + s == Repeat('0', z);
      AllZeros(z);
    }
  }

  lemma {:induction false} AllZeros(z: nat)
    ensures BinaryValue(Repeat('0', z)) == 0
  {
    if z > 0 {
      var t := Repeat('0', z);
      assert t[..z - 1] == Repeat('0', z - 1);
      AllZeros(z - 1);
    }
  }

  /** `s.rjust(width, fill)`: pads on the left to `width`, never truncates. */
  function RJust(s: string, width: nat, fill: char): (r: string)
    ensures |r| == if |s| >= width then |s| else width
  {
    if |s| >= width then s else Repeat(fill, width - |s|) + s
  }

  /** The text ends the padded text, and only fill characters come before it. */
  lemma RJustPads(s: string, width: nat, fill: char)
    ensures var r := RJust(s, width, fill);
      r[|r| - |s|..] == s && forall i :: 0 <= i < |r| - |s| ==> r[i] == fill
  {
    var r := RJust(s, width, fill);
    if |s| < width {
      assert r == Repeat(fill, width - |s|) + s;
    }
  }
}
