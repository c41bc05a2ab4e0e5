/** String operations with the meaning Python gives them, on `seq<char>`.
    Case mapping and whitespace cover the ASCII range only. */
module Text {

  /** `str.rfind` for one character: the index of the last `c` in `s`, or -1. */
  function LastIndexOf(s: string, c: char): (r: int)
    ensures -1 <= r < |s|
    ensures r >= 0 ==> s[r] == c
    ensures forall j :: r < j < |s| ==> s[j] != c
  {
    if s == [] then -1
    else if s[|s| - 1] == c then |s| - 1
    else LastIndexOf(s[..|s| - 1], c)
  }

  /** An index holding `c` with no `c` after it is the one `rfind` reports. */
  lemma LastIndexOfIs(s: string, c: char, k: int)
    requires -1 <= k < |s|
    requires k >= 0 ==> s[k] == c
    requires forall j :: k < j < |s| ==> s[j] != c
    ensures LastIndexOf(s, c) == k
  {
  }

  /** `rfind` reports -1 exactly for a character that does not occur. */
  lemma LastIndexOfAbsent(s: string, c: char)
    ensures LastIndexOf(s, c) == -1 <==> c !in s
  {
    if c in s {
      var i :| 0 <= i < |s| && s[i] == c;
      assert LastIndexOf(s, c) >= i;
    }
  }

  /** When `b` holds a `c`, the last `c` of `a + b` is the last `c` of `b`. */
  lemma {:induction false} LastIndexOfInTail(a: string, b: string, c: char)
    requires c in b
    ensures LastIndexOf(a + b, c) == |a| + LastIndexOf(b, c)
  {
    if b[|b| - 1] != c {
      assert (a + b)[..|a + b| - 1] == a + b[..|b| - 1];
      assert c in b[..|b| - 1] by {
        var i :| 0 <= i < |b| && b[i] == c;
        assert b[..|b| - 1][i] == c;
      }
      LastIndexOfInTail(a, b[..|b| - 1], c);
    }
  }

  /** When `b` holds no `c`, the last `c` of `a + b` is the last `c` of `a`. */
  lemma {:induction false} LastIndexOfInHead(a: string, b: string, c: char)
    requires c !in b
    ensures LastIndexOf(a + b, c) == LastIndexOf(a, c)
  {
    if b == [] {
      assert a + b == a;
    } else {
      assert (a + b)[..|a + b| - 1] == a + b[..|b| - 1];
      LastIndexOfInHead(a, b[..|b| - 1], c);
    }
  }

  /** `str.endswith`: the string is some prefix followed by the suffix, so
      in particular the last characters agree. */
  predicate EndsWith(s: string, suffix: string)
    ensures EndsWith(s, suffix) ==> |suffix| <= |s| && s == s[..|s| - |suffix|] + suffix
    ensures EndsWith(s, suffix) && suffix != [] ==> s[|s| - 1] == suffix[|suffix| - 1]
  {
    |suffix| <= |s| && s[|s| - |suffix|..] == suffix
  }

  /** `t` occurs in `s` starting at index `i`. */
  predicate OccursAt(s: string, t: string, i: int)
  {
    0 <= i <= |s| - |t| && s[i..i + |t|] == t
  }

  /** `t` occurs somewhere in `s` (Python's `t in s`). */
  predicate Contains(s: string, t: string)
  {
    exists i | 0 <= i <= |s| - |t| :: OccursAt(s, t, i)
  }

  lemma ContainsMiddle(a: string, b: string, c: string)
    ensures Contains(a + b + c, b)
  {
    assert (a + b + c)[|a|..|a| + |b|] == b;
    assert OccursAt(a + b + c, b, |a|);
  }

  function LowerChar(c: char): char
  {
    if 'A' <= c <= 'Z' then (c as int + 32) as char else c
  }

  function UpperChar(c: char): char
  {
    if 'a' <= c <= 'z' then (c as int - 32) as char else c
  }

  /** `str.lower`. */
  function Lower(s: string): (r: string)
    ensures |r| == |s|
    ensures forall i :: 0 <= i < |s| ==> r[i] == LowerChar(s[i])
  {
    seq(|s|, i requires 0 <= i < |s| => LowerChar(s[i]))
  }

  /** Lower-casing works character by character. */
  lemma LowerConcat(a: string, b: string)
    ensures Lower(a + b) == Lower(a) + Lower(b)
  {
  }

  /** `str.capitalize`: first character upper case, the rest lower case. */
  function Capitalize(w: string): (r: string)
    ensures |r| == |w|
    ensures |w| > 0 ==> r[0] == UpperChar(w[0]) && r[1..] == Lower(w[1..])
  {
    if w == [] then [] else [UpperChar(w[0])] + Lower(w[1..])
  }

  /** The characters `str.strip` removes (ASCII part of `str.isspace`):
      none of them is a letter, a digit, a dot, a '/' or a '_'. */
  predicate IsSpace(c: char)
    ensures IsSpace(c) ==> c as int < 128 && c != '.' && c != '/' && c != '_'
    ensures IsSpace(c) ==> !('a' <= c <= 'z') && !('A' <= c <= 'Z') && !('0' <= c <= '9')
  {
    9 <= c as int <= 13 || 28 <= c as int <= 32
  }

  /** `str.lstrip`: drop leading whitespace. What is left is no longer and
      does not start with whitespace. */
  function StripStart(s: string): (r: string)
    ensures |r| <= |s|
    ensures r == [] || !IsSpace(r[0])
  {
    if s != [] && IsSpace(s[0]) then StripStart(s[1..]) else s
  }

  /** `lstrip` removes exactly the leading whitespace: what it drops is all
      whitespace and what it keeps does not start with whitespace. */
  lemma {:induction false} StripStartIs(s: string)
    ensures |StripStart(s)| <= |s| && StripStart(s) == s[|s| - |StripStart(s)|..]
    ensures forall i :: 0 <= i < |s| - |StripStart(s)| ==> IsSpace(s[i])
    ensures StripStart(s) == [] || !IsSpace(StripStart(s)[0])
  {
    if s != [] && IsSpace(s[0]) {
      var t, r := s[1..], StripStart(s[1..]);
      assert StripStart(s) == r;
      StripStartIs(t);
      assert |r| <= |t| && r == t[|t| - |r|..];
      assert t[|t| - |r|..] == s[|s| - |r|..];
      forall i | 0 <= i < |s| - |r| ensures IsSpace(s[i]) {
        if i > 0 {
          assert s[i] == t[i - 1];
        }
      }
    }
  }

  /** `str.rstrip`: drop trailing whitespace. What is left is no longer and
      does not end with whitespace. */
  function StripEnd(s: string): (r: string)
    ensures |r| <= |s|
    ensures r == [] || !IsSpace(r[|r| - 1])
  {
    if s != [] && IsSpace(s[|s| - 1]) then StripEnd(s[..|s| - 1]) else s
  }

  /** `rstrip` removes exactly the trailing whitespace. */
  lemma {:induction false} StripEndIs(s: string)
    ensures |StripEnd(s)| <= |s| && StripEnd(s) == s[..|StripEnd(s)|]
    ensures forall i :: |StripEnd(s)| <= i < |s| ==> IsSpace(s[i])
    ensures StripEnd(s) == [] || !IsSpace(StripEnd(s)[|StripEnd(s)| - 1])
  {
    if s != [] && IsSpace(s[|s| - 1]) {
      var t, r := s[..|s| - 1], StripEnd(s[..|s| - 1]);
      assert StripEnd(s) == r;
      StripEndIs(t);
      assert t[..|r|] == s[..|r|];
      forall i | |r| <= i < |s| ensures IsSpace(s[i]) {
        if i < |s| - 1 {
          assert s[i] == t[i];
        }
      }
    }
  }

  /** `str.strip`: a piece of the string that neither starts nor ends with
      whitespace. */
  function Strip(s: string): (r: string)
    ensures |r| <= |s| && Unpadded(r)
  {
    var t := StripStart(s);
    StripEndIs(t);
    StripEnd(t)
  }

  /** A string that starts with whitespace is shortened by `strip`. */
  lemma StripShortensPadded(s: string)
    requires s != [] && IsSpace(s[0])
    ensures |Strip(s)| < |s|
  {
    StripStartIs(s[1..]);
    StripEndIs(StripStart(s));
  }

  /** Neither starts nor ends with whitespace. */
  predicate Unpadded(s: string)
  {
    s == [] || (!IsSpace(s[0]) && !IsSpace(s[|s| - 1]))
  }

  /** A string that neither starts nor ends with whitespace is its own strip. */
  lemma StripUnpadded(s: string)
    requires Unpadded(s)
    ensures Strip(s) == s
  {
  }

  /** `[line.strip() for line in lines]`. */
  function StripAll(lines: seq<string>): (r: seq<string>)
    ensures |r| == |lines|
    ensures forall i :: 0 <= i < |lines| ==> r[i] == Strip(lines[i])
  {
    seq(|lines|, i requires 0 <= i < |lines| => Strip(lines[i]))
  }

  /** Stripping one more line extends the stripped list by that line's strip. */
  lemma StripAllSnoc(lines: seq<string>, i: int)
    requires 0 <= i < |lines|
    ensures StripAll(lines[..i + 1]) == StripAll(lines[..i]) + [Strip(lines[i])]
  {
    var longer, shorter := StripAll(lines[..i + 1]), StripAll(lines[..i]);
    forall k | 0 <= k < i + 1 ensures longer[k] == (shorter + [Strip(lines[i])])[k] {
      if k < i {
        assert lines[..i + 1][k] == lines[..i][k];
        assert shorter[k] == Strip(lines[..i][k]);
      } else {
        assert lines[..i + 1][k] == lines[i];
      }
    }
  }

  /** Stripping a concatenation of lists strips each part. */
  lemma StripAllConcat(a: seq<string>, b: seq<string>)
    ensures StripAll(a + b) == StripAll(a) + StripAll(b)
  {
    var whole, parts := StripAll(a + b), StripAll(a) + StripAll(b);
    forall k | 0 <= k < |a + b| ensures whole[k] == parts[k] {
      if k < |a| {
        assert (a + b)[k] == a[k];
        assert parts[k] == StripAll(a)[k];
      } else {
        assert (a + b)[k] == b[k - |a|];
        assert parts[k] == StripAll(b)[k - |a|];
      }
    }
  }

  /** `str.split(sep)`: the pieces between separators, never an empty list. */
  function Split(s: string, sep: char): (r: seq<string>)
    ensures |r| >= 1
    ensures forall w | w in r :: sep !in w
  {
    if s == [] then [[]]
    else
      var rest := Split(s[1..], sep);
      if s[0] == sep then [[]] + rest else [[s[0]] + rest[0]] + rest[1..]
  }

  /** `sep.join(words)`. */
  function Join(words: seq<string>, sep: char): string
    requires |words| >= 1
  {
    if |words| == 1 then words[0] else words[0] + [sep] + Join(words[1..], sep)
  }

  /** The joined string opens with the first word, followed by the
      separator when more words come, and closes with the last word. */
  lemma {:induction false} JoinParts(words: seq<string>, sep: char)
    requires |words| >= 1
    ensures var r := Join(words, sep);
      && |words[0]| <= |r| && r[..|words[0]|] == words[0]
      && (|words| > 1 ==> |words[0]| < |r| && r[|words[0]|] == sep)
      && EndsWith(r, words[|words| - 1])
  {
    if |words| > 1 {
      JoinParts(words[1..], sep);
      var rest := Join(words[1..], sep);
      assert Join(words, sep) == (words[0] + [sep]) + rest;
    }
  }

  /** Joining the pieces of a split gives the original string back. */
  lemma {:induction false} JoinSplit(s: string, sep: char)
    ensures Join(Split(s, sep), sep) == s
  {
    if s != [] {
      var rest := Split(s[1..], sep);
      JoinSplit(s[1..], sep);
      if s[0] != sep && |rest| > 1 {
        assert ([[s[0]] + rest[0]] + rest[1..])[1..] == rest[1..];
        assert Join(rest, sep) == rest[0] + [sep] + Join(rest[1..], sep);
      }
    }
  }

  /** Splitting a string that starts with a separator-free word. */
  lemma {:induction false} SplitAfterWord(w: string, tail: string, sep: char)
    requires sep !in w
    ensures Split(w + tail, sep) == [w + Split(tail, sep)[0]] + Split(tail, sep)[1..]
  {
    if w != [] {
      assert (w + tail)[1..] == w[1..] + tail;
      SplitAfterWord(w[1..], tail, sep);
      assert [w[0]] + (w[1..] + Split(tail, sep)[0]) == w + Split(tail, sep)[0];
    } else {
      assert w + tail == tail;
      var t := Split(tail, sep);
      assert t == [t[0]] + t[1..];
      assert w + t[0] == t[0];
    }
  }

  /** Splitting the join of separator-free words gives the words back. */
  lemma {:induction false} SplitJoin(words: seq<string>, sep: char)
    requires |words| >= 1
    requires forall w | w in words :: sep !in w
    ensures Split(Join(words, sep), sep) == words
  {
    if |words| == 1 {
      SplitAfterWord(words[0], [], sep);
      assert words[0] + [] == words[0];
    } else {
      var rest := Join(words[1..], sep);
      SplitJoin(words[1..], sep);
      assert words[0] + [sep] + rest == words[0] + ([sep] + rest);
      SplitAfterWord(words[0], [sep] + rest, sep);
      assert ([sep] + rest)[1..] == rest;
      assert Split([sep] + rest, sep) == [[]] + Split(rest, sep);
      assert words[0] + [] == words[0];
      assert words == [words[0]] + words[1..];
    }
  }

  function DigitChar(d: int): char
    requires 0 <= d < 10
  {
    ('0' as int + d) as char
  }

  /** `str(n)` for a natural number. */
  function NatToDecimal(n: nat): (r: string)
    ensures |r| >= 1
    ensures forall i :: 0 <= i < |r| ==> '0' <= r[i] <= '9'
    decreases n
  {
    if n < 10 then [DigitChar(n)] else NatToDecimal(n / 10) + [DigitChar(n % 10)]
  }

  /** `str(n)` for any integer. */
  function IntToDecimal(n: int): (r: string)
    ensures |r| >= 1
    ensures r[0] == '-' <==> n < 0
  {
    if n < 0 then "-" + NatToDecimal(-n) else NatToDecimal(n)
  }

  /** The value of a string of decimal digits (`int(s)`). */
  function DecimalValue(s: string): nat
    requires forall i :: 0 <= i < |s| ==> '0' <= s[i] <= '9'
  {
    if s == [] then 0
    else 10 * DecimalValue(s[..|s| - 1]) + (s[|s| - 1] as int - '0' as int)
  }

  /** Reading back the digits written by `str` gives the number. */
  lemma {:induction false} DecimalRoundTrip(n: nat)
    ensures DecimalValue(NatToDecimal(n)) == n
    decreases n
  {
    if n >= 10 {
      DecimalRoundTrip(n / 10);
      var r := NatToDecimal(n);
      assert r[..|r| - 1] == NatToDecimal(n / 10);
    }
  }

  /** Reading back `str(n)` for any integer: the digits after the minus
      sign of a negative number, or all of them otherwise, give its
      magnitude. */
  lemma IntDecimalRoundTrip(n: int)
    ensures n >= 0 ==> DecimalValue(IntToDecimal(n)) == n
    ensures n < 0 ==> IntToDecimal(n)[1..] == NatToDecimal(-n) && DecimalValue(IntToDecimal(n)[1..]) == -n
  {
    if n < 0 {
      DecimalRoundTrip(-n);
    } else {
      DecimalRoundTrip(n);
    }
  }

  /** Different integers are written differently. */
  lemma IntToDecimalInjective(a: int, b: int)
    requires IntToDecimal(a) == IntToDecimal(b)
    ensures a == b
  {
    IntDecimalRoundTrip(a);
    IntDecimalRoundTrip(b);
  }
}
