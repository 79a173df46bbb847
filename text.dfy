/** String operations the assessor borrows from Python's `str` type:
    `sep.join(parts)`, `s.split(c)` with a one-character separator,
    `s.splitlines()`, `s.lower()`, the substring test `sub in s` and
    the decimal rendering of an integer inside an f-string. */
module Text {

  /** `sep.join(parts)`. */
  function JoinWith(parts: seq<string>, sep: string): (r: string)
  {
    if parts == [] then ""
    else if |parts| == 1 then parts[0]
    else parts[0] + sep + JoinWith(parts[1..], sep)
  }

  /** A character that occurs in no part and not in the separator does not
      occur in the joined string. */
  lemma {:induction false} JoinWithAvoids(parts: seq<string>, sep: string, c: char)
    requires c !in sep
    requires forall i :: 0 <= i < |parts| ==> c !in parts[i]
    ensures c !in JoinWith(parts, sep)
  {
    if |parts| > 1 {
      JoinWithAvoids(parts[1..], sep, c);
      assert c !in parts[0];
    }
  }

  /** Joining is empty exactly when there is nothing to join or every part
      is empty and there is only one of them; in particular joining a
      non-empty list whose first part is non-empty is non-empty. */
  lemma {:induction false} JoinWithNonEmpty(parts: seq<string>, sep: string)
    requires parts != [] && parts[0] != ""
    ensures JoinWith(parts, sep) != ""
    ensures |JoinWith(parts, sep)| >= |parts[0]|
  {
    if |parts| > 1 {
      assert JoinWith(parts, sep) == parts[0] + (sep + JoinWith(parts[1..], sep));
    }
  }

  /** How many times `c` occurs in `s`. */
  function Occurrences(s: string, c: char): (n: nat)
    ensures n <= |s|
    ensures n == 0 <==> c !in s
  {
    if s == [] then 0
    else (if s[0] == c then 1 else 0) + Occurrences(s[1..], c)
  }

  /** `s.split(sep)` for a one-character separator: the pieces between the
      separators, always at least one of them. */
  function SplitOn(s: string, sep: char): (parts: seq<string>)
    ensures |parts| == Occurrences(s, sep) + 1
    ensures forall i :: 0 <= i < |parts| ==> sep !in parts[i]
  {
    if s == [] then [""]
    else
      var rest := SplitOn(s[1..], sep);
      if s[0] == sep then [""] + rest
      else [[s[0]] + rest[0]] + rest[1..]
  }

  /** Splitting and joining again with the same separator gives the string
      back. */
  lemma {:induction false} JoinSplitOn(s: string, sep: char)
    ensures JoinWith(SplitOn(s, sep), [sep]) == s
  {
    if s != [] {
      var rest := SplitOn(s[1..], sep);
      JoinSplitOn(s[1..], sep);
      if s[0] == sep {
        assert SplitOn(s, sep) == [""] + rest;
        assert ([""] + rest)[1..] == rest;
        assert JoinWith(SplitOn(s, sep), [sep]) == "" + [sep] + JoinWith(rest, [sep]);
      } else {
        var parts := [[s[0]] + rest[0]] + rest[1..];
        assert SplitOn(s, sep) == parts;
        if |rest| == 1 {
          assert JoinWith(rest, [sep]) == rest[0];
        } else {
          assert parts[1..] == rest[1..];
          assert JoinWith(rest, [sep]) == rest[0] + [sep] + JoinWith(rest[1..], [sep]);
        }
      }
    }
  }

  /** Joining pieces that do not contain the separator and splitting again
      gives the pieces back. */
  lemma {:induction false} SplitOnJoin(parts: seq<string>, sep: char)
    requires parts != []
    requires forall i :: 0 <= i < |parts| ==> sep !in parts[i]
    ensures SplitOn(JoinWith(parts, [sep]), sep) == parts
  {
    if |parts| == 1 {
      SplitOnFree(parts[0], sep);
    } else {
      SplitOnJoin(parts[1..], sep);
      SplitOnAppend(parts[0], JoinWith(parts[1..], [sep]), sep);
      assert [parts[0]] + parts[1..] == parts;
    }
  }

  /** A string without the separator is a single piece. */
  lemma {:induction false} SplitOnFree(s: string, sep: char)
    requires sep !in s
    ensures SplitOn(s, sep) == [s]
  {
    if s != [] {
      SplitOnFree(s[1..], sep);
      assert [s[0]] + s[1..] == s;
    }
  }

  /** Splitting `a + [sep] + b` when `a` has no separator. */
  lemma {:induction false} SplitOnAppend(a: string, b: string, sep: char)
    requires sep !in a
    ensures SplitOn(a + [sep] + b, sep) == [a] + SplitOn(b, sep)
  {
    if a == [] {
      assert a + [sep] + b == [sep] + b;
      assert ([sep] + b)[1..] == b;
    } else {
      var t := a[1..] + [sep] + b;
      assert a + [sep] + b == [a[0]] + t;
      SplitOnAppend(a[1..], b, sep);
      SplitOnCons(a[0], t, sep);
      assert [a[0]] + a[1..] == a;
    }
  }

  /** Splitting a string that starts with an ordinary character. */
  lemma SplitOnCons(c: char, t: string, sep: char)
    requires c != sep
    ensures SplitOn([c] + t, sep) == [[c] + SplitOn(t, sep)[0]] + SplitOn(t, sep)[1..]
  {
    assert ([c] + t)[1..] == t;
  }

  /** The characters `str.splitlines()` treats as line boundaries. */
  predicate IsLineBreak(c: char)
  {
    c == '\n' || c == '\r' || c == '\U{000B}' || c == '\U{000C}'
    || c == '\U{001C}' || c == '\U{001D}' || c == '\U{001E}' || c == '\U{0085}'
    || c == '\U{2028}' || c == '\U{2029}'
  }

  /** Index of the first line boundary in `s`, or `|s|` when there is none. */
  function LineEnd(s: string): (k: nat)
    ensures k <= |s|
    ensures forall j :: 0 <= j < k ==> !IsLineBreak(s[j])
    ensures k < |s| ==> IsLineBreak(s[k])
  {
    if s == [] || IsLineBreak(s[0]) then 0 else 1 + LineEnd(s[1..])
  }

  /** `s.splitlines()`: the lines of `s` without their terminators, where
      "\r\n" ends one line and a final terminator opens no empty line. */
  function SplitLines(s: string): (lines: seq<string>)
    ensures forall i :: 0 <= i < |lines| ==> forall j :: 0 <= j < |lines[i]| ==> !IsLineBreak(lines[i][j])
    ensures s == [] <==> lines == []
    decreases |s|
  {
    if s == [] then []
    else
      var k := LineEnd(s);
      if k == |s| then [s]
      else
        var w := if s[k] == '\r' && k + 1 < |s| && s[k + 1] == '\n' then 2 else 1;
        [s[..k]] + SplitLines(s[k + w..])
  }

  predicate NoLineBreak(line: string)
  {
    forall j :: 0 <= j < |line| ==> !IsLineBreak(line[j])
  }

  /** Lines without terminators, joined with "\n" or with the "\r\n" the
      range service puts between its lines, split back into the same lines,
      provided the last one is not empty (a trailing terminator opens no
      line). */
  lemma {:induction false} SplitLinesJoin(lines: seq<string>, eol: string)
    requires eol == "\n" || eol == "\r\n"
    requires forall i :: 0 <= i < |lines| ==> NoLineBreak(lines[i])
    requires lines != [] ==> lines[|lines| - 1] != ""
    ensures SplitLines(JoinWith(lines, eol)) == lines
  {
    if |lines| == 1 {
      var s := lines[0];
      assert NoLineBreak(s);
      LineEndFree(s);
    } else if |lines| > 1 {
      var b := JoinWith(lines[1..], eol);
      assert JoinWith(lines, eol) == lines[0] + (eol + b);
      assert NoLineBreak(lines[0]);
      SplitLinesStep(lines[0], eol, b);
      SplitLinesJoin(lines[1..], eol);
      assert [lines[0]] + lines[1..] == lines;
    }
  }

  /** A line without terminators followed by a terminator: `splitlines()`
      gives that line and then the lines of the rest. */
  lemma SplitLinesStep(a: string, eol: string, b: string)
    requires eol == "\n" || eol == "\r\n"
    requires NoLineBreak(a)
    ensures SplitLines(a + (eol + b)) == [a] + SplitLines(b)
  {
    var s := a + (eol + b);
    LineEndAt(a, eol + b);
    assert s[..|a|] == a;
    assert s[|a| + |eol|..] == b;
  }

  lemma {:induction false} LineEndFree(s: string)
    requires NoLineBreak(s)
    ensures LineEnd(s) == |s|
  {
    if s != [] {
      LineEndFree(s[1..]);
    }
  }

  /** The first line boundary of `a + t` is where `t` starts with one. */
  lemma {:induction false} LineEndAt(a: string, t: string)
    requires NoLineBreak(a)
    requires t != [] && IsLineBreak(t[0])
    ensures LineEnd(a + t) == |a|
  {
    if a != [] {
      assert (a + t)[1..] == a[1..] + t;
      LineEndAt(a[1..], t);
    }
  }

  /** `sub` occurs in `s` starting at index `i`. */
  predicate OccursAt(s: string, sub: string, i: nat)
  {
    i + |sub| <= |s| && s[i..i + |sub|] == sub
  }

  /** The substring test `sub in s`. */
  predicate Contains(s: string, sub: string)
  {
    exists i: nat | i <= |s| :: OccursAt(s, sub, i)
  }

  /** A string that lacks one of the characters of `sub` cannot contain it. */
  lemma AbsentChar(s: string, sub: string, k: nat)
    requires k < |sub| && sub[k] !in s
    ensures !Contains(s, sub)
  {
    forall i: nat | i <= |s|
      ensures !OccursAt(s, sub, i)
    {
      if i + |sub| <= |s| {
        assert s[i..i + |sub|][k] == s[i + k];
        assert s[i + k] in s;
      }
    }
  }

  /** A string that starts with `sub` contains it. */
  lemma PrefixContained(s: string, sub: string)
    requires sub <= s
    ensures Contains(s, sub)
  {
    assert s[..|sub|] == sub;
    assert OccursAt(s, sub, 0);
  }

  /** `sub` occurs in `a + sub + b`. */
  lemma InfixContained(a: string, sub: string, b: string)
    ensures Contains(a + sub + b, sub)
  {
    assert (a + sub + b)[|a|..|a| + |sub|] == sub;
    assert OccursAt(a + sub + b, sub, |a|);
  }

  /** `c.lower()` for the ASCII letters; other characters are unchanged. */
  function LowerChar(c: char): (r: char)
  {
    if 'A' <= c <= 'Z' then (c - 'A' + 'a') as char else c
  }

  /** `s.lower()`, folding the ASCII letters. */
  function Lower(s: string): (r: string)
    ensures |r| == |s|
    ensures forall i :: 0 <= i < |s| ==> r[i] == LowerChar(s[i])
  {
    if s == [] then [] else [LowerChar(s[0])] + Lower(s[1..])
  }

  predicate HasUpper(s: string)
  {
    exists i :: 0 <= i < |s| && 'A' <= s[i] <= 'Z'
  }

  /** Folded text has no upper-case ASCII letter left and folding it again
      changes nothing. */
  lemma LowerIsFolded(s: string)
    ensures !HasUpper(Lower(s))
    ensures Lower(Lower(s)) == Lower(s)
  {
  }

  function DigitChar(d: nat): (c: char)
    requires d < 10
    ensures '0' <= c <= '9'
  {
    ('0' as int + d) as char
  }

  /** Decimal rendering of a natural number, without leading zeros. */
  function NatToString(n: nat): (r: string)
    ensures r != []
    ensures forall i :: 0 <= i < |r| ==> '0' <= r[i] <= '9'
  {
    if n < 10 then [DigitChar(n)] else NatToString(n / 10) + [DigitChar(n % 10)]
  }

  /** The value a string of decimal digits denotes. */
  function DecimalValue(s: string): (n: nat)
    requires forall i :: 0 <= i < |s| ==> '0' <= s[i] <= '9'
  {
    if s == [] then 0
    else 10 * DecimalValue(s[..|s| - 1]) + (s[|s| - 1] as int - '0' as int)
  }

  /** Reading back the rendering of `n` gives `n`. */
  lemma {:induction false} NatToStringValue(n: nat)
    ensures DecimalValue(NatToString(n)) == n
  {
    if n >= 10 {
      var r := NatToString(n);
      NatToStringValue(n / 10);
      assert r[..|r| - 1] == NatToString(n / 10);
    }
  }

  /** `str(i)` for an integer: an optional minus sign, then the digits. */
  function IntToString(i: int): (r: string)
    ensures r != []
    ensures forall j :: 0 <= j < |r| ==> r[j] == '-' || '0' <= r[j] <= '9'
    ensures i < 0 <==> r[0] == '-'
  {
    if i < 0 then "-" + NatToString(-i) else NatToString(i)
  }
}
