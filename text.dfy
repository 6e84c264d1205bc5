/**
 * String helpers the other modules are built on: Java's `String.repeat`,
 * `String.trim`, ASCII `toLowerCase`, decimal `int` formatting and parsing,
 * and two tokenisers used to state what a command line or a comma list means
 * (`Words` splits on blanks as a shell does, `Split` cuts at every separator).
 */
module Text {

  // ---------------------------------------------------------------- repeat

  /** `s.repeat(n)`, for any kind of sequence. */
  function Repeat<T>(s: seq<T>, n: nat): seq<T> {
    if n == 0 then [] else s + Repeat(s, n - 1)
  }

  /** A one-element sequence repeated `n` times is `n` copies of that element. */
  lemma {:induction false} RepeatOne<T>(c: T, n: nat)
    ensures |Repeat([c], n)| == n
    ensures forall i :: 0 <= i < n ==> Repeat([c], n)[i] == c
  {
    if n > 0 {
      RepeatOne(c, n - 1);
      assert Repeat([c], n) == [c] + Repeat([c], n - 1);
    }
  }

  /** Concatenation is associative (a step the solver is told explicitly in long proofs). */
  lemma AppendAssoc<T>(a: seq<T>, b: seq<T>, d: seq<T>)
    ensures a + b + d == a + (b + d)
  {
  }

  /** A piece ` w ` appended at once is the blank, the word and the blank appended in turn. */
  lemma AppendPiece(x: string, piece: string, w: string)
    requires piece == " " + w + " "
    ensures x + piece == x + " " + w + " "
  {
    AppendAssoc(x, " " + w, " ");
    AppendAssoc(x, " ", w);
  }

  /** A piece ` w1 w2 ` appended at once is its blanks and words appended in turn. */
  lemma AppendPiece2(x: string, piece: string, w1: string, w2: string)
    requires piece == " " + w1 + " " + w2 + " "
    ensures x + piece == x + " " + w1 + " " + w2 + " "
  {
    AppendAssoc(x, " " + w1 + " " + w2, " ");
    AppendAssoc(x, " " + w1 + " ", w2);
    AppendAssoc(x, " " + w1, " ");
    AppendAssoc(x, " ", w1);
  }

  /** A value `a:b` appended piece by piece is the value appended at once. */
  lemma AppendValue(x: string, a: string, b: string)
    ensures x + a + ":" + b == x + (a + ":" + b)
  {
    AppendAssoc(x + a, ":", b);
    AppendAssoc(x, a, ":" + b);
  }

  // ---------------------------------------------------------------- words

  /**
   * The blank-separated words of `s`: maximal runs of non-blank characters,
   * in order. This is how a shell cuts an unquoted command line into arguments.
   */
  function Words(s: string): (r: seq<string>)
    ensures forall i :: 0 <= i < |r| ==> r[i] != [] && ' ' !in r[i]
    ensures s != [] && s[0] != ' ' ==> r != [] && r[0][0] == s[0]
    decreases |s|
  {
    if s == [] then []
    else if s[0] == ' ' then Words(s[1..])
    else if |s| == 1 || s[1] == ' ' then [[s[0]]] + Words(s[1..])
    else
      var w := Words(s[1..]);
      [[s[0]] + w[0]] + w[1..]
  }

  /** A blank between two strings separates their words. */
  lemma {:induction false} WordsAround(a: string, b: string)
    ensures Words(a + " " + b) == Words(a) + Words(b)
    decreases |a|
  {
    var s := a + " " + b;
    if a == [] {
      assert s == " " + b && s[1..] == b;
    } else {
      assert s[0] == a[0];
      assert s[1..] == a[1..] + " " + b;
      WordsAround(a[1..], b);
      var A, B := Words(a[1..]), Words(b);
      assert Words(s[1..]) == A + B;
      if a[0] == ' ' {
        assert Words(s) == Words(s[1..]);
        assert Words(a) == A;
      } else if |a| == 1 || a[1] == ' ' {
        assert s[1] == ' ';
        assert Words(s) == [[a[0]]] + (A + B);
        assert Words(a) == [[a[0]]] + A;
        AppendAssoc([[a[0]]], A, B);
      } else {
        assert s[1] == a[1];
        assert A != [] && A[0][0] == a[1];
        assert (A + B)[0] == A[0] && (A + B)[1..] == A[1..] + B;
        assert Words(s) == [[a[0]] + A[0]] + (A[1..] + B);
        assert Words(a) == [[a[0]] + A[0]] + A[1..];
        AppendAssoc([[a[0]] + A[0]], A[1..], B);
      }
    }
  }

  /** Words do not run across a blank at the end of `x` or the start of `y`. */
  lemma WordsConcat(x: string, y: string)
    requires x == [] || y == [] || x[|x| - 1] == ' ' || y[0] == ' '
    ensures Words(x + y) == Words(x) + Words(y)
  {
    if x == [] {
      assert x + y == y;
    } else if y == [] {
      assert x + y == x;
    } else if y[0] == ' ' {
      BlankBefore(x, y[1..]);
      assert y == " " + y[1..];
    } else {
      BlankAfter(x[..|x| - 1], y);
      assert x == x[..|x| - 1] + " ";
    }
  }

  /** A blank that starts `" " + b` separates the words of `a` from those of `b`. */
  lemma BlankBefore(a: string, b: string)
    ensures Words(a + (" " + b)) == Words(a) + Words(" " + b)
  {
    AppendAssoc(a, " ", b);
    WordsAround(a, b);
    assert (" " + b)[1..] == b;
  }

  /** A blank that ends `a + " "` separates the words of `a` from those of `b`. */
  lemma BlankAfter(a: string, b: string)
    ensures Words(a + " " + b) == Words(a + " ") + Words(b)
  {
    WordsAround(a, b);
    ThenBlank(a);
  }

  /** A non-empty string without blanks is a single word. */
  lemma {:induction false} WordsOfWord(w: string)
    requires w != [] && ' ' !in w
    ensures Words(w) == [w]
    decreases |w|
  {
    if |w| == 1 {
      assert w[1..] == [] && [w[0]] == w;
    } else {
      assert w[1..][0] == w[1] && ' ' !in w[1..];
      WordsOfWord(w[1..]);
      assert w[1] != ' ';
      assert [w[0]] + w[1..] == w;
    }
  }

  /** True when `w` is one shell word: non-empty and free of blanks. */
  predicate IsWord(w: string) {
    w != [] && ' ' !in w
  }

  /** Appending a blank and one more word appends that word to the words. */
  lemma ThenWord(a: string, w: string)
    requires IsWord(w)
    ensures Words(a + " " + w) == Words(a) + [w]
  {
    WordsAround(a, w);
    WordsOfWord(w);
  }

  /** Appending two blank-separated words appends both. */
  lemma ThenWords2(a: string, w1: string, w2: string)
    requires IsWord(w1) && IsWord(w2)
    ensures Words(a + " " + w1 + " " + w2) == Words(a) + [w1, w2]
  {
    ThenWord(a, w1);
    ThenWord(a + " " + w1, w2);
  }

  /** Appending three blank-separated words appends all three. */
  lemma ThenWords3(a: string, w1: string, w2: string, w3: string)
    requires IsWord(w1) && IsWord(w2) && IsWord(w3)
    ensures Words(a + " " + w1 + " " + w2 + " " + w3) == Words(a) + [w1, w2, w3]
  {
    ThenWords2(a, w1, w2);
    ThenWord(a + " " + w1 + " " + w2, w3);
  }

  /** Appending four blank-separated words appends all four. */
  lemma ThenWords4(a: string, w1: string, w2: string, w3: string, w4: string)
    requires IsWord(w1) && IsWord(w2) && IsWord(w3) && IsWord(w4)
    ensures Words(a + " " + w1 + " " + w2 + " " + w3 + " " + w4) == Words(a) + [w1, w2, w3, w4]
  {
    ThenWords2(a, w1, w2);
    ThenWords2(a + " " + w1 + " " + w2, w3, w4);
  }

  /** Six blank-separated words. */
  lemma SixWords(t0: string, t1: string, t2: string, t3: string, t4: string, t5: string)
    requires IsWord(t0) && IsWord(t1) && IsWord(t2) && IsWord(t3) && IsWord(t4) && IsWord(t5)
    ensures Words(t0 + " " + t1 + " " + t2 + " " + t3 + " " + t4 + " " + t5) == [t0, t1] + [t2, t3, t4, t5]
  {
    WordsOfWord(t0);
    ThenWord(t0, t1);
    ThenWords4(t0 + " " + t1, t2, t3, t4, t5);
  }

  /** Trailing blanks add no word. */
  lemma ThenBlank(a: string)
    ensures Words(a + " ") == Words(a)
  {
    WordsAround(a, "");
    assert a + " " + "" == a + " ";
  }

  /** Two words and a trailing blank. */
  lemma TwoWordsBlank(t0: string, t1: string)
    requires IsWord(t0) && IsWord(t1)
    ensures Words(t0 + " " + t1 + " ") == [t0, t1]
  {
    WordsOfWord(t0);
    ThenWord(t0, t1);
    ThenBlank(t0 + " " + t1);
  }

  // ---------------------------------------------------------------- split

  /** The pieces of `s` between occurrences of `sep`, empty pieces included. */
  function Split(s: string, sep: char): (r: seq<string>)
    ensures |r| > 0
    ensures forall i :: 0 <= i < |r| ==> sep !in r[i]
    decreases |s|
  {
    if s == [] then [""]
    else if s[0] == sep then [""] + Split(s[1..], sep)
    else
      var t := Split(s[1..], sep);
      [[s[0]] + t[0]] + t[1..]
  }

  /** Splitting distributes over a separator placed between two strings. */
  lemma {:induction false} SplitAround(a: string, sep: char, b: string)
    ensures Split(a + [sep] + b, sep) == Split(a, sep) + Split(b, sep)
    decreases |a|
  {
    var s := a + [sep] + b;
    if a == [] {
      assert s == [sep] + b && s[1..] == b;
    } else {
      assert s[0] == a[0];
      assert s[1..] == a[1..] + [sep] + b;
      SplitAround(a[1..], sep, b);
    }
  }

  /** A string without the separator is a single piece. */
  lemma {:induction false} SplitOfPiece(a: string, sep: char)
    requires sep !in a
    ensures Split(a, sep) == [a]
    decreases |a|
  {
    if a != [] {
      SplitOfPiece(a[1..], sep);
      assert [a[0]] + a[1..] == a;
    }
  }

  /** The number of occurrences of `c` in `s`. */
  function Count(s: string, c: char): nat
    decreases |s|
  {
    if s == [] then 0 else (if s[0] == c then 1 else 0) + Count(s[1..], c)
  }

  /** Splitting yields one more piece than there are separators. */
  lemma {:induction false} SplitLength(s: string, sep: char)
    ensures |Split(s, sep)| == Count(s, sep) + 1
    decreases |s|
  {
    if s != [] {
      SplitLength(s[1..], sep);
    }
  }

  // ---------------------------------------------------------------- integers

  predicate IsDigit(c: char) {
    '0' <= c <= '9'
  }

  function DigitChar(d: nat): (c: char)
    requires d < 10
    ensures IsDigit(c)
  {
    ('0' as int + d) as char
  }

  function DigitValue(c: char): int {
    c as int - '0' as int
  }

  /** The decimal digits of `n`, without leading zeros. */
  function NatToString(n: nat): (r: string)
    ensures |r| > 0 && forall i :: 0 <= i < |r| ==> IsDigit(r[i])
    ensures n == 0 ==> r == "0"
    ensures r[0] == '0' ==> n == 0
  {
    if n < 10 then [DigitChar(n)] else NatToString(n / 10) + [DigitChar(n % 10)]
  }

  /** The value of a string of decimal digits. */
  function ParseDigits(s: string): int
    requires forall i :: 0 <= i < |s| ==> IsDigit(s[i])
    decreases |s|
  {
    if s == [] then 0 else ParseDigits(s[..|s| - 1]) * 10 + DigitValue(s[|s| - 1])
  }

  lemma {:induction false} ParseNatToString(n: nat)
    ensures ParseDigits(NatToString(n)) == n
  {
    if n >= 10 {
      ParseNatToString(n / 10);
      var s := NatToString(n);
      assert s[..|s| - 1] == NatToString(n / 10);
    }
  }

  /** `s` without its leading minus sign, if it has one. */
  function Unsigned(s: string): string {
    if |s| > 0 && s[0] == '-' then s[1..] else s
  }

  /** Java's `matches("-?(0|[1-9]\\d*)")`; `\d` is an ASCII digit. */
  predicate IsIntPattern(s: string) {
    var d := Unsigned(s);
    && |d| > 0
    && (forall i :: 0 <= i < |d| ==> IsDigit(d[i]))
    && (d[0] == '0' ==> |d| == 1)
  }

  /** The value of a string matching the pattern, as `Long.parseLong` would read it. */
  function ParseInt(s: string): int
    requires IsIntPattern(s)
  {
    var m := ParseDigits(Unsigned(s));
    if s[0] == '-' then -m else m
  }

  /** `String.valueOf(n)`: decimal text with a leading minus for negatives. */
  function IntToString(n: int): (r: string)
    ensures IsIntPattern(r)
    ensures forall i :: 0 <= i < |r| ==> r[i] == '-' || IsDigit(r[i])
  {
    if n < 0 then "-" + NatToString(-n) else NatToString(n)
  }

  /** Formatting an integer and parsing it back gives the integer. */
  lemma ParseIntToString(n: int)
    ensures ParseInt(IntToString(n)) == n
  {
    if n < 0 {
      assert IntToString(n)[1..] == NatToString(-n);
      ParseNatToString(-n);
    } else {
      ParseNatToString(n);
    }
  }

  /** Distinct integers have distinct decimal texts. */
  lemma IntToStringInjective(m: int, n: int)
    requires IntToString(m) == IntToString(n)
    ensures m == n
  {
    ParseIntToString(m);
    ParseIntToString(n);
  }

  // ---------------------------------------------------------------- case and trim

  predicate IsUpperAscii(c: char) {
    'A' <= c <= 'Z'
  }

  function LowerAscii(c: char): char {
    if IsUpperAscii(c) then (c as int + 32) as char else c
  }

  /** `toLowerCase()` restricted to ASCII letters. */
  function ToLowerAscii(s: string): (r: string)
    ensures |r| == |s|
    ensures forall i :: 0 <= i < |r| ==> !IsUpperAscii(r[i])
    ensures forall i :: 0 <= i < |r| ==> !IsUpperAscii(s[i]) ==> r[i] == s[i]
  {
    seq(|s|, i requires 0 <= i < |s| => LowerAscii(s[i]))
  }

  /** Leading characters at or below U+0020 removed. */
  function TrimStart(s: string): string
    decreases |s|
  {
    if s != [] && s[0] <= ' ' then TrimStart(s[1..]) else s
  }

  /** Trailing characters at or below U+0020 removed. */
  function TrimEnd(s: string): string
    decreases |s|
  {
    if s != [] && s[|s| - 1] <= ' ' then TrimEnd(s[..|s| - 1]) else s
  }

  /** `String.trim()`. */
  function Trim(s: string): string {
    TrimEnd(TrimStart(s))
  }

  predicate IsBlank(s: string) {
    forall i :: 0 <= i < |s| ==> s[i] <= ' '
  }

  lemma {:induction false} TrimStartEmpty(s: string)
    ensures TrimStart(s) == "" <==> IsBlank(s)
    ensures TrimStart(s) != "" ==> TrimStart(s)[0] > ' '
    decreases |s|
  {
    if s != [] && s[0] <= ' ' {
      TrimStartEmpty(s[1..]);
      assert forall i :: 1 <= i < |s| ==> s[i] == s[1..][i - 1];
    }
  }

  lemma {:induction false} TrimEndKeepsFirst(s: string)
    requires s != [] && s[0] > ' '
    ensures TrimEnd(s) != ""
    decreases |s|
  {
    if s[|s| - 1] <= ' ' {
      TrimEndKeepsFirst(s[..|s| - 1]);
    }
  }

  /** `s.trim().equals("")` holds exactly when every character of `s` is at or below U+0020. */
  lemma TrimEmptyIffBlank(s: string)
    ensures Trim(s) == "" <==> IsBlank(s)
  {
    TrimStartEmpty(s);
    if TrimStart(s) != "" {
      TrimEndKeepsFirst(TrimStart(s));
    }
  }
}
