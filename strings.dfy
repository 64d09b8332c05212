/** String helpers that mirror the Python string operations the ingestion core uses. */
module Strings {

  /** Python's `sep.join(parts)`, defined from the right so that appending one part unfolds once. */
  function Join(parts: seq<string>, sep: string): string
  {
    if |parts| == 0 then ""
    else if |parts| == 1 then parts[0]
    else Join(parts[..|parts| - 1], sep) + sep + parts[|parts| - 1]
  }

  /** Joining from the left: the first part, the separator, then the join of the rest. */
  lemma {:induction false} JoinCons(p: string, rest: seq<string>, sep: string)
    requires |rest| > 0
    ensures Join([p] + rest, sep) == p + sep + Join(rest, sep)
  {
    var n := |rest|;
    if n == 1 {
      assert ([p] + rest)[..1] == [p];
    } else {
      assert ([p] + rest)[..n] == [p] + rest[..n - 1];
      JoinCons(p, rest[..n - 1], sep);
    }
  }

  /** `"".join(parts)`. */
  function Concat(parts: seq<string>): string
  {
    if |parts| == 0 then "" else Concat(parts[..|parts| - 1]) + parts[|parts| - 1]
  }

  /** Appending a part to a non-empty join adds the separator and the part. */
  lemma JoinSnoc(parts: seq<string>, x: string, sep: string)
    requires |parts| > 0
    ensures Join(parts + [x], sep) == Join(parts, sep) + sep + x
  {
    assert (parts + [x])[..|parts|] == parts;
  }

  /** A join starts with its first part. */
  lemma {:induction false} JoinStartsWithFirst(parts: seq<string>, sep: string)
    requires |parts| > 0
    ensures StartsWith(Join(parts, sep), parts[0])
  {
    if |parts| > 1 {
      var front := parts[..|parts| - 1];
      JoinStartsWithFirst(front, sep);
      assert front[0] == parts[0];
      var s := Join(parts, sep);
      assert s == Join(front, sep) + sep + parts[|parts| - 1];
      assert s[..|parts[0]|] == Join(front, sep)[..|parts[0]|];
    }
  }

  /** Every part followed by a newline, as written to a buffer one part and one "\n" at a time. */
  function ConcatLines(parts: seq<string>): string
  {
    if |parts| == 0 then "" else ConcatLines(parts[..|parts| - 1]) + parts[|parts| - 1] + "\n"
  }

  lemma {:induction false} ConcatLinesAppend(a: seq<string>, b: seq<string>)
    ensures ConcatLines(a + b) == ConcatLines(a) + ConcatLines(b)
    decreases |b|
  {
    if |b| == 0 {
      assert a + b == a;
    } else {
      var n := |b|;
      assert (a + b)[..|a + b| - 1] == a + b[..n - 1];
      ConcatLinesAppend(a, b[..n - 1]);
    }
  }

  /** Terminating every part with a newline is the newline join followed by one more newline. */
  lemma {:induction false} ConcatLinesIsJoin(parts: seq<string>)
    ensures |parts| == 0 ==> ConcatLines(parts) == "" == Join(parts, "\n")
    ensures |parts| > 0 ==> ConcatLines(parts) == Join(parts, "\n") + "\n"
  {
    if |parts| > 1 {
      ConcatLinesIsJoin(parts[..|parts| - 1]);
    } else if |parts| == 1 {
      assert parts[..0] == [];
    }
  }

  predicate StartsWith(s: string, prefix: string)
  {
    |prefix| <= |s| && s[..|prefix|] == prefix
  }

  predicate EndsWith(s: string, suffix: string)
  {
    |suffix| <= |s| && s[|s| - |suffix|..] == suffix
  }

  /** A concatenation starts with its left part and ends with its right part. */
  lemma ConcatEnds(a: string, b: string)
    ensures StartsWith(a + b, a) && EndsWith(a + b, b)
  {
    assert (a + b)[..|a|] == a;
    assert (a + b)[|a + b| - |b|..] == b;
  }

  /** A string starting with `t` starts with its first character. */
  lemma StartsWithHead(s: string, t: string)
    requires |t| > 0
    ensures StartsWith(s, t) ==> s[0] == t[0]
  {
    if StartsWith(s, t) {
      assert s[..|t|][0] == t[0];
    }
  }

  /** A string that starts with `a + b` starts with `a`. */
  lemma StartsWithPrefix(s: string, a: string, b: string)
    requires StartsWith(s, a + b)
    ensures StartsWith(s, a)
  {
    assert s[..|a|] == s[..|a + b|][..|a|];
  }

  /** No character of `s` is in `cs`. */
  predicate Avoids(s: string, cs: set<char>)
  {
    forall i :: 0 <= i < |s| ==> s[i] !in cs
  }

  /** `s` with every character of `cs` removed. */
  function Without(s: string, cs: set<char>): string
  {
    if |s| == 0 then "" else Without(s[..|s| - 1], cs) + (if s[|s| - 1] in cs then "" else [s[|s| - 1]])
  }

  lemma {:induction false} WithoutAppend(a: string, b: string, cs: set<char>)
    ensures Without(a + b, cs) == Without(a, cs) + Without(b, cs)
    decreases |b|
  {
    if |b| == 0 {
      assert a + b == a;
    } else {
      assert (a + b)[..|a + b| - 1] == a + b[..|b| - 1];
      WithoutAppend(a, b[..|b| - 1], cs);
    }
  }

  lemma {:induction false} WithoutAvoided(s: string, cs: set<char>)
    requires Avoids(s, cs)
    ensures Without(s, cs) == s
    decreases |s|
  {
    if |s| > 0 {
      WithoutAvoided(s[..|s| - 1], cs);
    }
  }

  /**
   * `re.split` on a class of single separator characters: the pieces between separators,
   * empty pieces included, so one more piece than there are separators.
   */
  function SplitOn(s: string, seps: set<char>): (parts: seq<string>)
    ensures |parts| > 0
    decreases |s|
  {
    if |s| == 0 then [""] else Extend(SplitOn(s[..|s| - 1], seps), s[|s| - 1], seps)
  }

  /** One more character read by the splitter: a separator opens an empty piece, any other character extends the last piece. */
  function Extend(pieces: seq<string>, c: char, seps: set<char>): (r: seq<string>)
    requires |pieces| > 0
    ensures |r| > 0
  {
    if c in seps then pieces + [""] else pieces[..|pieces| - 1] + [pieces[|pieces| - 1] + [c]]
  }

  lemma ExtendAppend(x: seq<string>, y: seq<string>, c: char, seps: set<char>)
    requires |y| > 0
    ensures Extend(x + y, c, seps) == x + Extend(y, c, seps)
  {
    if c !in seps {
      assert (x + y)[..|x + y| - 1] == x + y[..|y| - 1];
    }
  }

  /** The pieces hold no separator, and together they are the input without its separators. */
  lemma {:induction false} SplitOnPieces(s: string, seps: set<char>)
    ensures forall k :: 0 <= k < |SplitOn(s, seps)| ==> Avoids(SplitOn(s, seps)[k], seps)
    ensures Concat(SplitOn(s, seps)) == Without(s, seps)
    decreases |s|
  {
    if |s| > 0 {
      var front := SplitOn(s[..|s| - 1], seps);
      SplitOnPieces(s[..|s| - 1], seps);
      var c := s[|s| - 1];
      var parts := SplitOn(s, seps);
      if c in seps {
        assert parts[..|parts| - 1] == front;
      } else {
        var n := |front|;
        assert parts[..n - 1] == front[..n - 1];
        assert Concat(front) == Concat(front[..n - 1]) + front[n - 1];
        forall k | 0 <= k < |parts| ensures Avoids(parts[k], seps) {
          if k < n - 1 {
            assert parts[k] == front[k];
          }
        }
      }
    }
  }

  /** A string without separators is one piece. */
  lemma {:induction false} SplitOnNone(w: string, seps: set<char>)
    requires Avoids(w, seps)
    ensures SplitOn(w, seps) == [w]
    decreases |w|
  {
    if |w| > 0 {
      SplitOnNone(w[..|w| - 1], seps);
      assert w[..|w| - 1] + [w[|w| - 1]] == w;
    }
  }

  /** Appending one character extends the pieces read so far. */
  lemma SplitOnSnoc(s: string, d: char, seps: set<char>)
    ensures SplitOn(s + [d], seps) == Extend(SplitOn(s, seps), d, seps)
  {
    assert (s + [d])[..|s + [d]| - 1] == s;
  }

  /** A separator character splits the input into the pieces of what precedes it and of what follows it. */
  lemma {:induction false} SplitOnAt(a: string, c: char, b: string, seps: set<char>)
    requires c in seps
    ensures SplitOn(a + [c] + b, seps) == SplitOn(a, seps) + SplitOn(b, seps)
    decreases |b|
  {
    if |b| == 0 {
      assert a + [c] + b == a + [c];
      SplitOnSnoc(a, c, seps);
    } else {
      var b' := b[..|b| - 1];
      var d := b[|b| - 1];
      SplitOnAt(a, c, b', seps);
      assert b' + [d] == b;
      assert (a + [c] + b') + [d] == a + [c] + b;
      SplitOnSnoc(a + [c] + b', d, seps);
      SplitOnSnoc(b', d, seps);
      ExtendAppend(SplitOn(a, seps), SplitOn(b', seps), d, seps);
    }
  }

  /** With one separator character, joining the pieces on it gives the input back. */
  lemma {:induction false} SplitOnJoin(s: string, c: char)
    ensures Join(SplitOn(s, {c}), [c]) == s
    decreases |s|
  {
    if |s| > 0 {
      var front := SplitOn(s[..|s| - 1], {c});
      SplitOnJoin(s[..|s| - 1], c);
      var parts := SplitOn(s, {c});
      var n := |front|;
      if s[|s| - 1] == c {
        JoinSnoc(front, "", [c]);
      } else if n == 1 {
        assert parts == [front[0] + [s[|s| - 1]]];
      } else {
        JoinSnoc(front[..n - 1], front[n - 1] + [s[|s| - 1]], [c]);
        assert front == front[..n - 1] + [front[n - 1]];
        JoinSnoc(front[..n - 1], front[n - 1], [c]);
      }
    }
  }

  /** `str.lower()` restricted to ASCII letters. */
  function LowerChar(c: char): char
  {
    if 'A' <= c <= 'Z' then (c as int + 32) as char else c
  }

  function Lower(s: string): (r: string)
    ensures |r| == |s|
    ensures forall i :: 0 <= i < |s| ==> r[i] == LowerChar(s[i])
  {
    seq(|s|, i requires 0 <= i < |s| => LowerChar(s[i]))
  }

  predicate IsDigit(c: char)
  {
    '0' <= c <= '9'
  }

  function DigitChar(d: nat): (c: char)
    requires d < 10
    ensures IsDigit(c)
  {
    ('0' as int + d) as char
  }

  /** `str(n)` for a non-negative integer. */
  function DecimalString(n: nat): (s: string)
    ensures |s| > 0
    ensures forall i :: 0 <= i < |s| ==> IsDigit(s[i])
  {
    if n < 10 then [DigitChar(n)] else DecimalString(n / 10) + [DigitChar(n % 10)]
  }

  /** `int(s)` for a string of decimal digits. */
  function ParseDecimal(s: string): nat
    requires forall i :: 0 <= i < |s| ==> IsDigit(s[i])
  {
    if |s| == 0 then 0
    else ParseDecimal(s[..|s| - 1]) * 10 + DigitValue(s[|s| - 1])
  }

  function DigitValue(c: char): (d: nat)
    requires IsDigit(c)
    ensures d < 10
  {
    c as int - '0' as int
  }

  /** `int(str(n)) == n`, and `str(n)` has no superfluous leading zero. */
  lemma {:induction false} DecimalRoundTrip(n: nat)
    ensures ParseDecimal(DecimalString(n)) == n
    ensures |DecimalString(n)| > 1 ==> DecimalString(n)[0] != '0'
  {
    if n >= 10 {
      DecimalRoundTrip(n / 10);
      var s := DecimalString(n);
      assert s[..|s| - 1] == DecimalString(n / 10);
    }
  }

  /** Python's `str.strip(c)` for a single character `c`. */
  function Strip(s: string, c: char): (r: string)
    ensures |r| == 0 || (r[0] != c && r[|r| - 1] != c)
    ensures |r| <= |s|
    decreases |s|
  {
    if |s| > 0 && s[0] == c then Strip(s[1..], c)
    else if |s| > 0 && s[|s| - 1] == c then Strip(s[..|s| - 1], c)
    else s
  }

  /** What `Strip` keeps is one contiguous piece of the input: it only removes characters at the ends. */
  lemma {:induction false} StripIsInfix(s: string, c: char) returns (i: nat, j: nat)
    ensures i <= j <= |s| && Strip(s, c) == s[i..j]
    ensures forall k :: 0 <= k < i ==> s[k] == c
    ensures forall k :: j <= k < |s| ==> s[k] == c
    decreases |s|
  {
    if |s| > 0 && s[0] == c {
      var i', j' := StripIsInfix(s[1..], c);
      i, j := i' + 1, j' + 1;
      assert s[1..][i'..j'] == s[i..j];
    } else if |s| > 0 && s[|s| - 1] == c {
      i, j := StripIsInfix(s[..|s| - 1], c);
      assert s[..|s| - 1][i..j] == s[i..j];
    } else {
      i, j := 0, |s|;
    }
  }

  /** Stripping twice is stripping once. */
  lemma StripIdempotent(s: string, c: char)
    ensures Strip(Strip(s, c), c) == Strip(s, c)
  {
  }
}
