/**
 * String helpers with Python's meaning: `str.lower`, `str.upper`, `in` on
 * strings, `str.split()` without arguments and `str(n)` for a natural number.
 * Case mapping is modelled on the ASCII letters only.
 */
module Text {

  // ---------------------------------------------------------------- case

  function LowerChar(c: char): char {
    if 'A' <= c <= 'Z' then (c as int + 32) as char else c
  }

  function UpperChar(c: char): char {
    if 'a' <= c <= 'z' then (c as int - 32) as char else c
  }

  /** `s.lower()` */
  function Lower(s: string): (r: string)
    ensures |r| == |s|
    ensures forall i :: 0 <= i < |s| ==> r[i] == LowerChar(s[i])
  {
    if s == [] then [] else [LowerChar(s[0])] + Lower(s[1..])
  }

  /** `s.upper()` */
  function Upper(s: string): (r: string)
    ensures |r| == |s|
    ensures forall i :: 0 <= i < |s| ==> r[i] == UpperChar(s[i])
  {
    if s == [] then [] else [UpperChar(s[0])] + Upper(s[1..])
  }

  // ---------------------------------------------------------- substrings

  predicate StartsWith(prefix: string, s: string) {
    |prefix| <= |s| && s[..|prefix|] == prefix
  }

  /** `needle in hay`, computed by scanning every start position. */
  predicate Contains(needle: string, hay: string)
    ensures Contains(needle, hay) ==> |needle| <= |hay|
    ensures needle == [] ==> Contains(needle, hay)
    decreases |hay|
  {
    StartsWith(needle, hay) || (hay != [] && Contains(needle, hay[1..]))
  }

  /** `needle` occurs in `hay` starting at position `i`. */
  predicate OccursAt(needle: string, hay: string, i: int) {
    0 <= i && i + |needle| <= |hay| && hay[i..i + |needle|] == needle
  }

  /** The definition of a substring: `needle` occurs at some position of `hay`. */
  ghost predicate Occurs(needle: string, hay: string) {
    exists i :: OccursAt(needle, hay, i)
  }

  /** The scan agrees with the definition of a substring. */
  lemma {:induction false} ContainsIff(needle: string, hay: string)
    ensures Contains(needle, hay) <==> Occurs(needle, hay)
    decreases |hay|
  {
    if StartsWith(needle, hay) {
      assert OccursAt(needle, hay, 0);
    } else if hay != [] {
      var tail := hay[1..];
      ContainsIff(needle, tail);
      if Contains(needle, tail) {
        var j :| OccursAt(needle, tail, j);
        assert hay[j + 1..j + 1 + |needle|] == tail[j..j + |needle|];
        assert OccursAt(needle, hay, j + 1);
      }
      if exists i :: OccursAt(needle, hay, i) {
        var i :| OccursAt(needle, hay, i);
        assert i != 0;
        assert tail[i - 1..i - 1 + |needle|] == hay[i..i + |needle|];
        assert OccursAt(needle, tail, i - 1);
      }
    }
  }

  /** The empty string is a substring of every string. */
  lemma ContainsEmpty(hay: string)
    ensures Contains("", hay)
  {
  }

  // ------------------------------------------------------------ splitting

  /** Characters `str.split()` treats as separators (its ASCII and Latin-1 whitespace). */
  predicate IsSpace(c: char) {
    c == ' ' || c == '\t' || c == '\n' || c == '\r' || c == '\U{000B}' || c == '\U{000C}'
    || ('\U{001C}' <= c <= '\U{001F}') || c == '\U{0085}' || c == '\U{00A0}'
  }

  function SkipSpaces(s: string): (r: string)
    ensures |r| <= |s| && r == s[|s| - |r|..]
    ensures r != [] ==> !IsSpace(r[0])
  {
    if s != [] && IsSpace(s[0]) then SkipSpaces(s[1..]) else s
  }

  /** The longest prefix of `s` free of separators. */
  function TakeWord(s: string): (w: string)
    ensures |w| <= |s| && w == s[..|w|]
    ensures |w| < |s| ==> IsSpace(s[|w|])
    ensures s != [] && !IsSpace(s[0]) ==> w != []
  {
    if s == [] || IsSpace(s[0]) then [] else [s[0]] + TakeWord(s[1..])
  }

  /** The prefix `TakeWord` takes holds no separator. */
  lemma {:induction false} TakeWordNoSpace(s: string)
    ensures forall i :: 0 <= i < |TakeWord(s)| ==> !IsSpace(TakeWord(s)[i])
  {
    if s != [] && !IsSpace(s[0]) {
      TakeWordNoSpace(s[1..]);
      assert TakeWord(s) == [s[0]] + TakeWord(s[1..]);
    }
  }

  /** A word of `str.split()`: non-empty and free of separators. */
  predicate IsWord(w: string) {
    w != [] && forall i :: 0 <= i < |w| ==> !IsSpace(w[i])
  }

  /** `s.split()`: the maximal runs of non-separator characters, in order. */
  function Words(s: string): (ws: seq<string>)
    ensures |ws| <= |s|
    decreases |s|
  {
    var t := SkipSpaces(s);
    if t == [] then [] else
      var w := TakeWord(t);
      [w] + Words(t[|w|..])
  }

  /** Every word of the split is non-empty and free of separators. */
  lemma {:induction false} WordsAreWords(s: string)
    ensures forall k :: 0 <= k < |Words(s)| ==> IsWord(Words(s)[k])
    decreases |s|
  {
    var t := SkipSpaces(s);
    if t != [] {
      var w := TakeWord(t);
      TakeWordNoSpace(t);
      WordsAreWords(t[|w|..]);
      AllWordsCons(w, Words(t[|w|..]));
    }
  }

  lemma AllWordsCons(w: string, rest: seq<string>)
    requires IsWord(w)
    requires forall k :: 0 <= k < |rest| ==> IsWord(rest[k])
    ensures forall k :: 0 <= k < |[w] + rest| ==> IsWord(([w] + rest)[k])
  {
  }

  /** A string made only of separators has no words. */
  lemma BlankHasNoWords(s: string)
    requires forall i :: 0 <= i < |s| ==> IsSpace(s[i])
    ensures Words(s) == []
  {
  }

  /** A single word splits into just that word. */
  lemma {:induction false} WordsOfOneWord(w: string)
    requires IsWord(w)
    ensures Words(w) == [w]
  {
    assert SkipSpaces(w) == w;
    TakeWordAll(w);
    assert w[|w|..] == [];
  }

  lemma {:induction false} TakeWordAll(w: string)
    requires forall i :: 0 <= i < |w| ==> !IsSpace(w[i])
    ensures TakeWord(w) == w
  {
    if w != [] {
      TakeWordAll(w[1..]);
      assert w == [w[0]] + w[1..];
    }
  }

  /** A leading separator is skipped. */
  lemma WordsSkipsSpace(s: string)
    requires s != [] && IsSpace(s[0])
    ensures Words(s) == Words(s[1..])
  {
    assert SkipSpaces(s) == SkipSpaces(s[1..]);
  }

  /** A word is cut at the first separator, whatever follows it. */
  lemma {:induction false} TakeWordStopsAtSpace(a: string, c: char, b: string)
    requires IsSpace(c)
    ensures TakeWord(a + [c] + b) == TakeWord(a)
  {
    if a == [] {
      assert (a + [c] + b)[0] == c;
    } else {
      assert (a + [c] + b)[0] == a[0];
      assert (a + [c] + b)[1..] == a[1..] + [c] + b;
      TakeWordStopsAtSpace(a[1..], c, b);
    }
  }

  /** Dropping a prefix of `a` from `a + [c] + b`. */
  lemma DropBeforeSeparator(a: string, c: char, b: string, n: nat)
    requires n <= |a|
    ensures (a + [c] + b)[n..] == a[n..] + [c] + b
  {
  }

  /** A string that starts with a word splits into that word and the words of the rest. */
  lemma WordsUnfold(s: string)
    requires s != [] && !IsSpace(s[0])
    ensures Words(s) == [TakeWord(s)] + Words(s[|TakeWord(s)|..])
  {
    assert SkipSpaces(s) == s;
  }

  /** The first word of `a + [c] + b` is the first word of `a`, and so is the rest after it. */
  lemma WordAtFront(a: string, c: char, b: string)
    requires IsSpace(c) && a != [] && !IsSpace(a[0])
    ensures var w := TakeWord(a);
            Words(a + [c] + b) == [w] + Words(a[|w|..] + [c] + b) &&
            Words(a) == [w] + Words(a[|w|..])
  {
    var s := a + [c] + b;
    assert s[0] == a[0];
    TakeWordStopsAtSpace(a, c, b);
    var w := TakeWord(a);
    WordsUnfold(s);
    WordsUnfold(a);
    DropBeforeSeparator(a, c, b, |w|);
  }

  lemma SplitAfterSpace(a: string, c: char, b: string)
    requires IsSpace(c) && a != [] && IsSpace(a[0])
    requires Words(a[1..] + [c] + b) == Words(a[1..]) + Words(b)
    ensures Words(a + [c] + b) == Words(a) + Words(b)
  {
    var s := a + [c] + b;
    assert s[0] == a[0];
    DropBeforeSeparator(a, c, b, 1);
    WordsSkipsSpace(s);
    WordsSkipsSpace(a);
  }

  lemma SplitAfterWord(a: string, c: char, b: string)
    requires IsSpace(c) && a != [] && !IsSpace(a[0])
    requires Words(a[|TakeWord(a)|..] + [c] + b) == Words(a[|TakeWord(a)|..]) + Words(b)
    ensures Words(a + [c] + b) == Words(a) + Words(b)
  {
    var w := TakeWord(a);
    WordAtFront(a, c, b);
    ConsAssoc(w, Words(a[|w|..]), Words(b));
  }

  lemma ConsAssoc(w: string, p: seq<string>, q: seq<string>)
    ensures [w] + (p + q) == ([w] + p) + q
  {
  }

  /**
   * Splitting at a separator: the words of `a`, a separator, then `b` are the
   * words of `a` followed by the words of `b`. With `WordsOfOneWord` and
   * `BlankHasNoWords` this fixes `Words` on every string: the maximal
   * separator-free runs, in order.
   */
  lemma {:induction false} WordsSplitAtSpace(a: string, c: char, b: string)
    requires IsSpace(c)
    ensures Words(a + [c] + b) == Words(a) + Words(b)
    decreases |a|
  {
    if a == [] {
      var s := a + [c] + b;
      assert s[0] == c;
      DropBeforeSeparator(a, c, b, 0);
      assert s[1..] == b;
      WordsSkipsSpace(s);
    } else if IsSpace(a[0]) {
      WordsSplitAtSpace(a[1..], c, b);
      SplitAfterSpace(a, c, b);
    } else {
      WordsSplitAtSpace(a[|TakeWord(a)|..], c, b);
      SplitAfterWord(a, c, b);
    }
  }

  /** Two words with a separator between them split into those two words. */
  lemma WordsOfTwoWords(first: string, c: char, last: string)
    requires IsWord(first) && IsSpace(c) && IsWord(last)
    ensures Words(first + [c] + last) == [first, last]
  {
    WordsSplitAtSpace(first, c, last);
    WordsOfOneWord(first);
    WordsOfOneWord(last);
  }

  /** The words joined by single spaces, as `" ".join(ws)`. */
  function Unwords(ws: seq<string>): string {
    if ws == [] then [] else if |ws| == 1 then ws[0] else ws[0] + " " + Unwords(ws[1..])
  }

  /** Round trip: splitting words joined by spaces gives the words back. */
  lemma {:induction false} WordsOfUnwords(ws: seq<string>)
    requires forall k :: 0 <= k < |ws| ==> IsWord(ws[k])
    ensures Words(Unwords(ws)) == ws
  {
    if |ws| == 1 {
      WordsOfOneWord(ws[0]);
    } else if |ws| > 1 {
      WordsOfUnwords(ws[1..]);
      UnwordsStep(ws);
    }
  }

  /** The inductive step of the round trip: the first word, then the words of the rest. */
  lemma UnwordsStep(ws: seq<string>)
    requires |ws| > 1 && IsWord(ws[0])
    requires Words(Unwords(ws[1..])) == ws[1..]
    ensures Words(Unwords(ws)) == ws
  {
    WordThenRest(ws[0], Unwords(ws[1..]), ws[1..]);
    assert ws == [ws[0]] + ws[1..];
  }

  /** A word, a space, then text whose words are `tail`: the word comes first, then `tail`. */
  lemma WordThenRest(w: string, rest: string, tail: seq<string>)
    requires IsWord(w) && Words(rest) == tail
    ensures Words(w + " " + rest) == [w] + tail
  {
    WordsOfOneWord(w);
    WordsSplitAtSpace(w, ' ', rest);
    assert w + " " + rest == w + [' '] + rest;
  }

  // ------------------------------------------------------------- numbers

  function DigitChar(d: nat): (c: char)
    requires d < 10
    ensures '0' <= c <= '9'
    ensures c == '0' <==> d == 0
    ensures DigitValue(c) == d
  {
    ('0' as int + d) as char
  }

  /** The value of a decimal digit character; any other character counts as zero. */
  function DigitValue(c: char): nat
  {
    if '0' <= c <= '9' then c as int - '0' as int else 0
  }

  /** The number a string of decimal digits denotes, read most significant digit first. */
  function DecimalValue(s: string): nat
    decreases |s|
  {
    if s == [] then 0 else DecimalValue(s[..|s| - 1]) * 10 + DigitValue(s[|s| - 1])
  }

  /** `str(n)`: the decimal numeral of `n`, without leading zeros. */
  function NatToString(n: nat): (r: string)
    ensures r != [] && forall i :: 0 <= i < |r| ==> '0' <= r[i] <= '9'
    ensures r[0] == '0' <==> n == 0
    decreases n
  {
    if n < 10 then [DigitChar(n)] else NatToString(n / 10) + [DigitChar(n % 10)]
  }

  /** The numeral of `n` denotes `n`: `str(n)` spells the number itself. */
  lemma {:induction false} NatToStringValue(n: nat)
    ensures DecimalValue(NatToString(n)) == n
    decreases n
  {
    if n >= 10 {
      var s := NatToString(n);
      assert s[..|s| - 1] == NatToString(n / 10);
      assert s[|s| - 1] == DigitChar(n % 10);
      NatToStringValue(n / 10);
    }
  }

  /** Numerals of ten and above have at least two digits, so a one-character numeral is below ten. */
  lemma {:induction false} NatToStringLength(n: nat)
    ensures |NatToString(n)| >= 1
    ensures n >= 10 ==> |NatToString(n)| >= 2
    decreases n
  {
    if n >= 10 {
      NatToStringLength(n / 10);
    }
  }

  /** Distinct numbers have distinct numerals. */
  lemma {:induction false} NatToStringInjective(a: nat, b: nat)
    requires NatToString(a) == NatToString(b)
    ensures a == b
    decreases a
  {
    NatToStringLength(a);
    NatToStringLength(b);
    if a < 10 && b < 10 {
      assert [DigitChar(a)] == NatToString(b);
    } else if a >= 10 && b >= 10 {
      var sa, sb := NatToString(a), NatToString(b);
      assert sa[|sa| - 1] == DigitChar(a % 10);
      assert sb[|sb| - 1] == DigitChar(b % 10);
      assert sa[..|sa| - 1] == NatToString(a / 10);
      assert sb[..|sb| - 1] == NatToString(b / 10);
      NatToStringInjective(a / 10, b / 10);
    }
  }
}
