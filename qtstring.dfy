/** The few QString operations the relay is written with, stated as functions
    over `seq<char>`: `indexOf`, `mid`, `startsWith`, `split`, `replace`,
    `toLower` (ASCII letters), `QString::number` and `toInt`. */
module QtString {

  /** `s.indexOf(c)`: the position of the first `c`, or -1. */
  function IndexOf(s: string, c: char): (r: int)
    ensures -1 <= r < |s|
    ensures r == -1 <==> c !in s
    ensures r >= 0 ==> s[r] == c && c !in s[..r]
  {
    if |s| == 0 then -1
    else if s[0] == c then 0
    else
      var k := IndexOf(s[1..], c);
      assert s[1..][..if k < 0 then 0 else k] == s[1..1 + if k < 0 then 0 else k];
      if k < 0 then -1 else k + 1
  }

  /** `s.mid(pos, n)`: a negative `n`, or one running past the end, takes
      everything from `pos`; a `pos` past the end gives the empty string. */
  function Mid(s: string, pos: nat, n: int): (r: string)
    ensures pos <= |s| && 0 <= n <= |s| - pos ==> r == s[pos..pos + n]
    ensures pos <= |s| && (n < 0 || n > |s| - pos) ==> r == s[pos..]
    ensures pos > |s| ==> r == ""
  {
    if pos > |s| then ""
    else if n < 0 || n > |s| - pos then s[pos..]
    else s[pos..pos + n]
  }

  predicate StartsWith(s: string, prefix: string)
  {
    |prefix| <= |s| && s[..|prefix|] == prefix
  }

  /** `s.split(c)` with empty parts kept: the text between consecutive `c`s. */
  function Split(s: string, c: char): (parts: seq<string>)
    ensures |parts| >= 1
    ensures forall i :: 0 <= i < |parts| ==> c !in parts[i]
    decreases |s|
  {
    var k := IndexOf(s, c);
    if k < 0 then [s] else [s[..k]] + Split(s[k + 1..], c)
  }

  /** The inverse of `Split`: the parts with one `c` between neighbours. */
  function Join(parts: seq<string>, c: char): string
    requires |parts| >= 1
  {
    if |parts| == 1 then parts[0] else parts[0] + [c] + Join(parts[1..], c)
  }

  lemma {:induction false} JoinSplit(s: string, c: char)
    ensures Join(Split(s, c), c) == s
    decreases |s|
  {
    var k := IndexOf(s, c);
    if k >= 0 {
      var rest := Split(s[k + 1..], c);
      JoinSplit(s[k + 1..], c);
      JoinCons(s[..k], rest, c);
      assert s == s[..k] + [c] + s[k + 1..];
    }
  }

  lemma JoinCons(a: string, rest: seq<string>, c: char)
    requires |rest| >= 1
    ensures Join([a] + rest, c) == a + [c] + Join(rest, c)
  {
    assert ([a] + rest)[1..] == rest;
  }

  lemma {:induction false} SplitJoin(parts: seq<string>, c: char)
    requires |parts| >= 1
    requires forall i :: 0 <= i < |parts| ==> c !in parts[i]
    ensures Split(Join(parts, c), c) == parts
  {
    if |parts| > 1 {
      var rest := Join(parts[1..], c);
      JoinCons(parts[0], parts[1..], c);
      assert parts == [parts[0]] + parts[1..];
      SplitJoin(parts[1..], c);
      SplitFront(parts[0], rest, c);
    }
  }

  /** Splitting text that starts with a `c`-free part and a `c`. */
  lemma SplitFront(a: string, rest: string, c: char)
    requires c !in a
    ensures Split(a + [c] + rest, c) == [a] + Split(rest, c)
  {
    var s := a + [c] + rest;
    assert s == a + ([c] + rest);
    IndexOfAfterFree(a, [c] + rest, c);
    assert IndexOf([c] + rest, c) == 0;
    assert s[|a| + 1..] == rest;
    assert s[..|a|] == a;
  }

  /** A prefix that holds no `c` only shifts where the first `c` is. */
  lemma {:induction false} IndexOfAfterFree(a: string, b: string, c: char)
    requires c !in a && c in b
    ensures IndexOf(a + b, c) == |a| + IndexOf(b, c)
  {
    var k := IndexOf(b, c);
    assert (a + b)[|a| + k] == c;
    assert (a + b)[..|a| + k] == a + b[..k];
  }

  /** `s.replace(pattern, replacement)`: every occurrence, scanned left to
      right; the inserted text is not scanned again. */
  function ReplaceAll(s: string, pattern: string, replacement: string): string
    requires |pattern| > 0
    decreases |s|
  {
    if |s| < |pattern| then s
    else if s[..|pattern|] == pattern then replacement + ReplaceAll(s[|pattern|..], pattern, replacement)
    else [s[0]] + ReplaceAll(s[1..], pattern, replacement)
  }

  /** Text in which the pattern's first character never occurs is left as it is. */
  lemma {:induction false} ReplaceAllFree(s: string, pattern: string, replacement: string)
    requires |pattern| > 0 && pattern[0] !in s
    ensures ReplaceAll(s, pattern, replacement) == s
    decreases |s|
  {
    if |s| >= |pattern| {
      assert s[0] != pattern[0];
      assert s[..|pattern|] != pattern;
      ReplaceAllFree(s[1..], pattern, replacement);
    }
  }

  /** Text free of the pattern's first character passes through unchanged
      in front of whatever follows. */
  lemma {:induction false} ReplaceAllFreePrefix(a: string, b: string, pattern: string, replacement: string)
    requires |pattern| > 0 && pattern[0] !in a
    ensures ReplaceAll(a + b, pattern, replacement) == a + ReplaceAll(b, pattern, replacement)
    decreases |a|
  {
    if |a| > 0 {
      var s := a + b;
      assert s[0] == a[0] && a[0] != pattern[0];
      if |s| >= |pattern| {
        assert s[..|pattern|] != pattern;
        assert s[1..] == a[1..] + b;
        ReplaceAllFreePrefix(a[1..], b, pattern, replacement);
      } else {
        ReplaceAllShort(b, pattern, replacement);
      }
    } else {
      assert a + b == b;
    }
  }

  lemma ReplaceAllShort(s: string, pattern: string, replacement: string)
    requires |pattern| > 0 && |s| < |pattern|
    ensures ReplaceAll(s, pattern, replacement) == s
  {
  }

  /** An occurrence at the front is replaced, and the scan goes on after it. */
  lemma ReplaceAllFront(b: string, pattern: string, replacement: string)
    requires |pattern| > 0
    ensures ReplaceAll(pattern + b, pattern, replacement) == replacement + ReplaceAll(b, pattern, replacement)
  {
    var s := pattern + b;
    assert s[..|pattern|] == pattern;
    assert s[|pattern|..] == b;
  }

  /** The first occurrence after text free of the pattern's first character
      is replaced, the text before it is kept, and the scan resumes right
      after the occurrence. */
  lemma ReplaceMiddle(before: string, pattern: string, after: string, replacement: string)
    requires |pattern| > 0 && pattern[0] !in before
    ensures ReplaceAll(before + pattern + after, pattern, replacement)
      == before + replacement + ReplaceAll(after, pattern, replacement)
  {
    assert before + pattern + after == before + (pattern + after);
    ReplaceAllFreePrefix(before, pattern + after, pattern, replacement);
    ReplaceAllFront(after, pattern, replacement);
  }

  predicate IsAsciiUpper(ch: char)
  {
    'A' <= ch <= 'Z'
  }

  /** `s.toLower()` for ASCII letters. */
  function ToLower(s: string): (r: string)
    ensures |r| == |s|
    ensures forall i :: 0 <= i < |s| ==> r[i] == if IsAsciiUpper(s[i]) then (s[i] as int + 32) as char else s[i]
  {
    if |s| == 0 then "" else [if IsAsciiUpper(s[0]) then (s[0] as int + 32) as char else s[0]] + ToLower(s[1..])
  }

  /** `s.contains(t)`: `t` occurs somewhere in `s`. */
  predicate Contains(s: string, t: string)
    decreases |s|
  {
    StartsWith(s, t) || (|s| > 0 && Contains(s[1..], t))
  }

  predicate IsDigit(ch: char)
  {
    '0' <= ch <= '9'
  }

  predicate AllDigits(s: string)
  {
    forall i :: 0 <= i < |s| ==> IsDigit(s[i])
  }

  function DigitChar(d: nat): char
    requires d < 10
  {
    ('0' as int + d) as char
  }

  /** `QString::number(n)` for `n >= 0`: decimal digits, no leading zero. */
  function NatToString(n: nat): (r: string)
    ensures |r| >= 1 && AllDigits(r)
    ensures |r| > 1 ==> r[0] != '0'
  {
    if n < 10 then [DigitChar(n)] else NatToString(n / 10) + [DigitChar(n % 10)]
  }

  /** `QString::number(n)`: a '-' sign for negatives. */
  function IntToString(n: int): string
  {
    if n < 0 then "-" + NatToString(-n) else NatToString(n)
  }

  /** The value of a string of decimal digits. */
  function DigitsValue(s: string): nat
    requires AllDigits(s)
  {
    if |s| == 0 then 0 else DigitsValue(s[..|s| - 1]) * 10 + (s[|s| - 1] as int - '0' as int)
  }

  /** `toInt()` / `toLong()`: an optional '-' and at least one digit;
      anything else reads as 0, which is what Qt returns on failure. */
  function ParseDecimal(s: string): int
  {
    if |s| > 0 && AllDigits(s) then DigitsValue(s)
    else if |s| > 1 && s[0] == '-' && AllDigits(s[1..]) then -(DigitsValue(s[1..]) as int)
    else 0
  }

  lemma {:induction false} NatToStringValue(n: nat)
    ensures DigitsValue(NatToString(n)) == n
  {
    if n >= 10 {
      NatToStringValue(n / 10);
      var s := NatToString(n);
      assert s[..|s| - 1] == NatToString(n / 10);
    }
  }

  /** What `QString::number` writes, `toInt` reads back. */
  lemma IntToStringRoundTrip(n: int)
    ensures ParseDecimal(IntToString(n)) == n
  {
    if n < 0 {
      NatToStringValue(-n);
      var s := IntToString(n);
      assert s[1..] == NatToString(-n);
      assert s[0] == '-';
      assert !IsDigit(s[0]);
    } else {
      NatToStringValue(n);
    }
  }

  /** A printed number holds neither a space nor anything but a sign and digits. */
  lemma IntToStringHasNoSpace(n: int)
    ensures ' ' !in IntToString(n)
  {
    var s := IntToString(n);
    forall i | 0 <= i < |s|
      ensures s[i] != ' '
    {
      if n < 0 && i > 0 {
        assert s[i] == NatToString(-n)[i - 1];
      }
    }
  }
}
