/** The command-line password assessor: four checks, each returning a score
    and a feedback message, summed and mapped onto a five-band rating.
    The SHA-1 digest of the password, the answer of the Pwned Passwords
    range service and the list of common passwords are inputs. */
module Assessor {
  import opened Text

  /** What one check returns: a score contribution and a feedback message
      ("" for no feedback). */
  datatype Check = Check(score: int, feedback: string)

  /** An exception the program does not catch: tuple unpacking of a
      response line that does not split into exactly two fields. */
  datatype Crash = UnpackError(line: string)

  /** A check's outcome, or the uncaught exception that aborts the run. */
  datatype Result<T> = Ok(value: T) | Raised(error: Crash)

  /** How many of the ascending `cutoffs` are at most `x`. */
  function CountAtMost(cutoffs: seq<int>, x: int): (n: nat)
    ensures n <= |cutoffs|
  {
    if cutoffs == [] then 0
    else (if cutoffs[0] <= x then 1 else 0) + CountAtMost(cutoffs[1..], x)
  }

  lemma {:induction false} CountAtMostMonotone(cutoffs: seq<int>, x: int, y: int)
    requires x <= y
    ensures CountAtMost(cutoffs, x) <= CountAtMost(cutoffs, y)
  {
    if cutoffs != [] {
      CountAtMostMonotone(cutoffs[1..], x, y);
    }
  }

  lemma CountAtMostThree(a: int, b: int, c: int, x: int)
    ensures CountAtMost([a, b, c], x) ==
      (if a <= x then 1 else 0) + (if b <= x then 1 else 0) + (if c <= x then 1 else 0)
  {
    assert CountAtMost([c], x) == (if c <= x then 1 else 0) + CountAtMost([], x) by {
      assert [c][1..] == [];
    }
    assert CountAtMost([b, c], x) == (if b <= x then 1 else 0) + CountAtMost([c], x) by {
      assert [b, c][1..] == [c];
    }
    assert CountAtMost([a, b, c], x) == (if a <= x then 1 else 0) + CountAtMost([b, c], x) by {
      assert [a, b, c][1..] == [b, c];
    }
  }

  lemma CountAtMostFour(a: int, b: int, c: int, d: int, x: int)
    ensures CountAtMost([a, b, c, d], x) ==
      (if a <= x then 1 else 0) + (if b <= x then 1 else 0) + (if c <= x then 1 else 0) + (if d <= x then 1 else 0)
  {
    CountAtMostThree(b, c, d, x);
    assert CountAtMost([a, b, c, d], x) == (if a <= x then 1 else 0) + CountAtMost([b, c, d], x) by {
      assert [a, b, c, d][1..] == [b, c, d];
    }
  }

  // ---------------------------------------------------------------------
  // Length

  // The longer messages of this module are written as concatenations of
  // shorter literals. The text is exactly the program's; the split is only a
  // proof aid, so that the page's routing lemmas can show which characters a
  // message lacks one short piece at a time.
  const TooShort := "Password is too short " + "(less than 8 characters)."
  const LengthOkay := "Password length is okay " + "(8-11 characters)."
  const LengthGood := "Password length is good " + "(12-15 characters)."
  const LengthExcellent := "Password length is excellent " + "(16+ characters)."

  const LengthMessages: seq<string> := [TooShort, LengthOkay, LengthGood, LengthExcellent]

  /** Scores the length of the password: 20 points for each of the lengths
      8, 12 and 16 it reaches, with the message of its band. */
  function CheckLength(password: string): Check
  {
    var length := |password|;
    if length < 8 then Check(0, TooShort)
    else if 8 <= length <= 11 then Check(20, LengthOkay)
    else if 12 <= length <= 15 then Check(40, LengthGood)
    else Check(60, LengthExcellent)
  }

  /** The length bands add up: 20 points for each of the lengths 8, 12 and
      16 the password reaches. */
  lemma LengthBands(p: string)
    ensures CheckLength(p).score == (if |p| >= 8 then 20 else 0) + (if |p| >= 12 then 20 else 0) + (if |p| >= 16 then 20 else 0)
  {
  }

  /** Each score comes with the message of its band. */
  lemma LengthMessageOfScore(p: string)
    ensures CheckLength(p).feedback == LengthMessages[CheckLength(p).score / 20]
  {
  }

  /** A longer password never scores less on length. */
  lemma LengthScoreMonotone(p: string, q: string)
    requires |p| <= |q|
    ensures CheckLength(p).score <= CheckLength(q).score
  {
    LengthBands(p);
    LengthBands(q);
  }

  /** The length score reaches 60 exactly from 16 characters on. */
  lemma LengthFull(p: string)
    ensures CheckLength(p).score <= 60
    ensures CheckLength(p).score == 60 <==> |p| >= 16
  {
  }

  /** The length score is one of 0, 20, 40, 60 and the message is never
      empty. */
  lemma LengthScoreValues(p: string)
    ensures CheckLength(p).score in {0, 20, 40, 60}
    ensures CheckLength(p).feedback != ""
  {
  }

  // ---------------------------------------------------------------------
  // Character variety

  /** The four character classes, tested by the patterns `[a-z]`, `[A-Z]`,
      `\d` and `[^a-zA-Z\d]`. */
  datatype CharClass = Lowercase | Uppercase | Digit | Special

  /** The order in which the classes are tested and their hints given. */
  const ClassOrder: seq<CharClass> := [Lowercase, Uppercase, Digit, Special]

  function Rank(k: CharClass): nat
  {
    match k
    case Lowercase => 0
    case Uppercase => 1
    case Digit => 2
    case Special => 3
  }

  /** The one class a character matches: anything that is not an ASCII
      letter or digit is special. */
  function ClassOf(c: char): CharClass
  {
    if 'a' <= c <= 'z' then Lowercase
    else if 'A' <= c <= 'Z' then Uppercase
    else if '0' <= c <= '9' then Digit
    else Special
  }

  function Hint(k: CharClass): (h: string)
    ensures h != ""
  {
    match k
    case Lowercase => "Add lowercase letters (a-z)."
    case Uppercase => "Add uppercase letters (A-Z)."
    case Digit => "Add numbers (0-9)."
    case Special => "Add special characters (e.g., !@#$%)."
  }

  /** `re.search(pattern, s)` for the pattern of class `k`: whether some
      character of `s` matches it. */
  predicate Matches(k: CharClass, s: string)
  {
    exists i | 0 <= i < |s| :: ClassOf(s[i]) == k
  }

  /** The classes of the characters of `s`. */
  function Present(s: string): set<CharClass>
  {
    if s == [] then {} else {ClassOf(s[0])} + Present(s[1..])
  }

  /** A class is present exactly when its pattern matches somewhere. */
  lemma {:induction false} PresentIffMatches(s: string, k: CharClass)
    ensures k in Present(s) <==> Matches(k, s)
  {
    if s != [] {
      PresentIffMatches(s[1..], k);
      if Matches(k, s[1..]) {
        var i :| 0 <= i < |s[1..]| && ClassOf(s[1..][i]) == k;
        assert ClassOf(s[i + 1]) == k;
      }
      forall i | 1 <= i < |s| && ClassOf(s[i]) == k ensures Matches(k, s[1..]) {
        assert s[1..][i - 1] == s[i];
      }
    }
  }

  /** `[k]` when `k` is not in `present`, else nothing. */
  function IfAbsent(k: CharClass, present: set<CharClass>): seq<CharClass>
  {
    if k in present then [] else [k]
  }

  /** The classes of `ks` that are not in `present`, in the order of `ks`. */
  function Absent(ks: seq<CharClass>, present: set<CharClass>): (r: seq<CharClass>)
    ensures |r| <= |ks|
  {
    if ks == [] then []
    else Absent(ks[..|ks| - 1], present) + IfAbsent(ks[|ks| - 1], present)
  }

  lemma AbsentSnoc(ks: seq<CharClass>, k: CharClass, present: set<CharClass>)
    ensures Absent(ks + [k], present) == Absent(ks, present) + IfAbsent(k, present)
  {
    assert (ks + [k])[..|ks|] == ks;
  }

  /** The classes the password lacks, in test order. */
  function Missing(s: string): seq<CharClass>
  {
    Absent(ClassOrder, Present(s))
  }

  /** Missing(s) spelled out class by class. */
  lemma MissingUnfolded(s: string)
    ensures var P := Present(s);
      Missing(s) == IfAbsent(Lowercase, P) + IfAbsent(Uppercase, P) + IfAbsent(Digit, P) + IfAbsent(Special, P)
  {
    var P := Present(s);
    AbsentSnoc([], Lowercase, P);
    assert [] + [Lowercase] == [Lowercase];
    AbsentSnoc([Lowercase], Uppercase, P);
    assert [Lowercase] + [Uppercase] == [Lowercase, Uppercase];
    AbsentSnoc([Lowercase, Uppercase], Digit, P);
    assert [Lowercase, Uppercase] + [Digit] == [Lowercase, Uppercase, Digit];
    AbsentSnoc([Lowercase, Uppercase, Digit], Special, P);
    assert [Lowercase, Uppercase, Digit] + [Special] == ClassOrder;
  }

  /** Each missing class is one of `ks` and not in `present`, and each of
      `ks` not in `present` is missing. */
  lemma {:induction false} AbsentMembers(ks: seq<CharClass>, present: set<CharClass>, k: CharClass)
    ensures k in Absent(ks, present) <==> k in ks && k !in present
  {
    if ks != [] {
      var front := ks[..|ks| - 1];
      AbsentMembers(front, present, k);
      assert ks == front + [ks[|ks| - 1]];
    }
  }

  function Hints(ks: seq<CharClass>): (hs: seq<string>)
    ensures |hs| == |ks|
    ensures forall i :: 0 <= i < |ks| ==> hs[i] == Hint(ks[i])
  {
    if ks == [] then [] else [Hint(ks[0])] + Hints(ks[1..])
  }

  /** One more missing class adds its hint at the end. */
  lemma {:induction false} HintsSnoc(ks: seq<CharClass>, k: CharClass)
    ensures Hints(ks + [k]) == Hints(ks) + [Hint(k)]
  {
    if ks != [] {
      assert (ks + [k])[1..] == ks[1..] + [k];
      HintsSnoc(ks[1..], k);
    }
  }

  /** Taking one class out of a set shrinks it by one exactly when the class
      was in it. */
  lemma RemoveClass(S: set<CharClass>, k: CharClass)
    ensures |S| == |S - {k}| + (if k in S then 1 else 0)
  {
    if k in S {
      assert S == (S - {k}) + {k};
    } else {
      assert S == S - {k};
    }
  }

  /** A set of classes has one element per class it holds. */
  lemma ClassSetSize(S: set<CharClass>)
    ensures |S| == (if Lowercase in S then 1 else 0) + (if Uppercase in S then 1 else 0)
                 + (if Digit in S then 1 else 0) + (if Special in S then 1 else 0)
  {
    var S1 := S - {Lowercase};
    var S2 := S1 - {Uppercase};
    var S3 := S2 - {Digit};
    var S4 := S3 - {Special};
    assert S4 == {} by {
      forall k | k in S4 ensures false {
        match k
        case Lowercase =>
        case Uppercase =>
        case Digit =>
        case Special =>
      }
    }
    RemoveClass(S, Lowercase);
    RemoveClass(S1, Uppercase);
    RemoveClass(S2, Digit);
    RemoveClass(S3, Special);
  }

  /** The number of classes present and the number missing add up to four. */
  lemma PresentCount(s: string)
    ensures |Present(s)| + |Missing(s)| == 4
  {
    MissingUnfolded(s);
    ClassSetSize(Present(s));
  }

  /** The score of `check_character_variety`: ten points per class present. */
  function VarietyScore(s: string): int
  {
    10 * |Present(s)|
  }

  /** The variety score is a multiple of ten between 0 and 40, and it is 40
      exactly when all four classes occur. */
  lemma VarietyFull(s: string)
    ensures VarietyScore(s) % 10 == 0 && 0 <= VarietyScore(s) <= 40
    ensures VarietyScore(s) == 40 <==> |Present(s)| == 4
  {
    PresentCount(s);
  }

  /** Equivalently, ten points fewer than 40 for every hint given. */
  lemma VarietyScoreByMissing(s: string)
    ensures VarietyScore(s) == 10 * (4 - |Missing(s)|)
  {
    PresentCount(s);
  }

  /** The feedback of `check_character_variety`: the hint of every missing
      class, in test order, separated by spaces; empty exactly when the
      score is full. */
  function VarietyFeedback(s: string): string
  {
    JoinWith(Hints(Missing(s)), " ")
  }

  /** The variety feedback is empty exactly when the score is full. */
  lemma VarietyFeedbackEmpty(s: string)
    ensures VarietyFeedback(s) == "" <==> VarietyScore(s) == 40
  {
    HintsJoinEmpty(Missing(s));
    VarietyScoreByMissing(s);
  }

  /** The joined hints are empty exactly when no class is missing. */
  lemma HintsJoinEmpty(ks: seq<CharClass>)
    ensures JoinWith(Hints(ks), " ") == "" <==> ks == []
  {
    if ks != [] {
      JoinWithNonEmpty(Hints(ks), " ");
    }
  }

  /** Filtering keeps the order of `ks`. */
  lemma {:induction false} AbsentInOrder(ks: seq<CharClass>, P: set<CharClass>)
    requires forall i, j :: 0 <= i < j < |ks| ==> Rank(ks[i]) < Rank(ks[j])
    ensures forall i, j :: 0 <= i < j < |Absent(ks, P)| ==> Rank(Absent(ks, P)[i]) < Rank(Absent(ks, P)[j])
  {
    if ks != [] {
      var front, last := ks[..|ks| - 1], ks[|ks| - 1];
      AbsentInOrder(front, P);
      var r := Absent(front, P);
      forall i | 0 <= i < |r| ensures Rank(r[i]) < Rank(last) {
        AbsentMembers(front, P, r[i]);
        var j :| 0 <= j < |front| && front[j] == r[i];
      }
    }
  }

  /** The hints are given in test order: lowercase, uppercase, digit,
      special, each at most once, and exactly for the classes not present. */
  lemma MissingInOrder(s: string)
    ensures forall i, j :: 0 <= i < j < |Missing(s)| ==> Rank(Missing(s)[i]) < Rank(Missing(s)[j])
    ensures forall k :: k in Missing(s) <==> k !in Present(s)
  {
    AbsentInOrder(ClassOrder, Present(s));
    forall k ensures k in Missing(s) <==> k !in Present(s) {
      AbsentMembers(ClassOrder, Present(s), k);
      match k
      case Lowercase => assert ClassOrder[0] == k;
      case Uppercase => assert ClassOrder[1] == k;
      case Digit => assert ClassOrder[2] == k;
      case Special => assert ClassOrder[3] == k;
    }
  }

  /** A password made only of characters outside ASCII (non-Latin letters
      included) matches only the special-character pattern. */
  lemma {:induction false} NonAsciiCountsAsSpecial(s: string)
    requires s != []
    requires forall i :: 0 <= i < |s| ==> s[i] as int > 127
    ensures Present(s) == {Special}
    ensures VarietyScore(s) == 10
    ensures Missing(s) == [Lowercase, Uppercase, Digit]
  {
    if |s| > 1 {
      NonAsciiCountsAsSpecial(s[1..]);
    }
    MissingUnfolded(s);
  }

  /** The state of `check_character_variety` once the first `n` classes
      have been tested: the missing ones so far, their hints, and ten points
      for each one found. */
  ghost predicate VarietySoFar(s: string, n: nat, score: int, hints: seq<string>, missing: seq<CharClass>)
    requires n <= |ClassOrder|
  {
    missing == Absent(ClassOrder[..n], Present(s)) && hints == Hints(missing) && score == 10 * (n - |missing|)
  }

  /** A class the password has adds ten points and no hint. */
  lemma VarietyFound(s: string, n: nat, k: CharClass, score: int, hints: seq<string>, missing: seq<CharClass>)
    requires n < |ClassOrder| && k == ClassOrder[n] && VarietySoFar(s, n, score, hints, missing)
    requires Matches(k, s)
    ensures VarietySoFar(s, n + 1, score + 10, hints, missing)
  {
    PresentIffMatches(s, k);
    assert ClassOrder[..n + 1] == ClassOrder[..n] + [ClassOrder[n]];
    AbsentSnoc(ClassOrder[..n], ClassOrder[n], Present(s));
  }

  /** A class the password lacks adds its hint and no points. */
  lemma VarietyMissed(s: string, n: nat, k: CharClass, score: int, hints: seq<string>, missing: seq<CharClass>)
    requires n < |ClassOrder| && k == ClassOrder[n] && VarietySoFar(s, n, score, hints, missing)
    requires !Matches(k, s)
    ensures VarietySoFar(s, n + 1, score, hints + [Hint(k)], missing + [k])
  {
    PresentIffMatches(s, k);
    assert ClassOrder[..n + 1] == ClassOrder[..n] + [ClassOrder[n]];
    AbsentSnoc(ClassOrder[..n], ClassOrder[n], Present(s));
    HintsSnoc(missing, ClassOrder[n]);
  }

  /** Once every class has been tested, the score and the joined hints are
      the ones the check reports. */
  lemma VarietyComplete(s: string, score: int, hints: seq<string>, missing: seq<CharClass>)
    requires VarietySoFar(s, |ClassOrder|, score, hints, missing)
    ensures score == VarietyScore(s) && JoinWith(hints, " ") == VarietyFeedback(s)
  {
    assert ClassOrder[..|ClassOrder|] == ClassOrder;
    VarietyScoreByMissing(s);
  }

  /** One of the four blocks of `check_character_variety`: ten points when
      the pattern of class `k` matches, otherwise its hint. */
  method TestClass(password: string, n: nat, k: CharClass, score: int, hints: seq<string>, ghost missing: seq<CharClass>)
    returns (score': int, hints': seq<string>, ghost missing': seq<CharClass>)
    requires n < |ClassOrder| && k == ClassOrder[n] && VarietySoFar(password, n, score, hints, missing)
    ensures VarietySoFar(password, n + 1, score', hints', missing')
  {
    if Matches(k, password) {
      VarietyFound(password, n, k, score, hints, missing);
      score', hints', missing' := score + 10, hints, missing;
    } else {
      VarietyMissed(password, n, k, score, hints, missing);
      score', hints', missing' := score, hints + [Hint(k)], missing + [k];
    }
  }

  /** `check_character_variety`: adds ten to the score for each class the
      password matches and collects the hint of each class it does not. */
  method CheckCharacterVariety(password: string) returns (score: int, feedback: string)
    ensures score == VarietyScore(password)
    ensures feedback == VarietyFeedback(password)
  {
    score := 0;
    var hints: seq<string> := [];
    ghost var missing: seq<CharClass> := [];
    assert VarietySoFar(password, 0, score, hints, missing);
    score, hints, missing := TestClass(password, 0, Lowercase, score, hints, missing);
    score, hints, missing := TestClass(password, 1, Uppercase, score, hints, missing);
    score, hints, missing := TestClass(password, 2, Digit, score, hints, missing);
    score, hints, missing := TestClass(password, 3, Special, score, hints, missing);
    feedback := JoinWith(hints, " ");
    VarietyComplete(password, score, hints, missing);
  }

  // ---------------------------------------------------------------------
  // Commonality

  const CommonMessage := "This is a " + "very common" + " password and is extremely insecure."

  /** Penalises a password whose ASCII-folded form is in the set of common
      passwords; the entries of the set themselves are not folded. */
  function CheckCommonality(password: string, common: set<string>): (r: Check)
    ensures r.score <= 0
    ensures r.feedback == "" <==> r.score == 0
  {
    if Lower(password) in common then Check(-50, CommonMessage) else Check(0, "")
  }

  /** `a` and `b` are equal once their ASCII letters are folded. */
  predicate EqualIgnoringCase(a: string, b: string)
  {
    |a| == |b| && forall i :: 0 <= i < |a| ==> LowerChar(a[i]) == LowerChar(b[i])
  }

  /** The penalty applies exactly when some entry of the set without
      capital letters equals the password up to case. */
  lemma CommonalityMatch(password: string, common: set<string>)
    ensures CheckCommonality(password, common).score == -50 <==>
            exists w :: w in common && !HasUpper(w) && EqualIgnoringCase(w, password)
  {
    var l := Lower(password);
    LowerIsFolded(password);
    if l in common {
      assert EqualIgnoringCase(l, password);
    }
    forall w | w in common && !HasUpper(w) && EqualIgnoringCase(w, password)
      ensures w == l
    {
      forall i | 0 <= i < |w| ensures w[i] == l[i] {
        assert !('A' <= w[i] <= 'Z');
      }
    }
  }

  /** The outcome does not depend on the case of the password. */
  lemma CommonalityIgnoresCase(password: string, common: set<string>)
    ensures CheckCommonality(password, common) == CheckCommonality(Lower(password), common)
  {
    LowerIsFolded(password);
  }

  // ---------------------------------------------------------------------
  // Breach check against the Pwned Passwords range service

  const RangeEndpoint := "https://api.pwnedpasswords.com/range/"
  const ConnectError := "API Error" + ": Could not connect to the " + "'Have I Been Pwned' service."
  const NotBreached := "Good news! This " + "password was not found " + "in any known data breaches."

  function StatusError(status: int): string
  {
    "API Error" + ": Could not check if " + "password was pwned (Status: " + IntToString(status) + ")."
  }

  function Breached(count: string): string
  {
    "DANGER" + ": This password has appeared in a data breach " + count + " times! Do not use it."
  }

  predicate IsUpperHex(c: char)
  {
    '0' <= c <= '9' || 'A' <= c <= 'F'
  }

  /** An upper-case hexadecimal SHA-1 digest (40 digits). */
  predicate IsDigest(d: string)
  {
    |d| == 40 && forall i :: 0 <= i < |d| ==> IsUpperHex(d[i])
  }

  /** The five-digit prefix sent to the service and the 35-digit suffix
      looked for in its answer; together they are the digest. */
  function SplitDigest(digest: string): (parts: (string, string))
    requires IsDigest(digest)
    ensures |parts.0| == 5 && |parts.1| == 35
    ensures parts.0 + parts.1 == digest
  {
    (digest[..5], digest[5..])
  }

  /** The address queried for a digest. */
  function RangeUrl(digest: string): string
    requires IsDigest(digest)
  {
    RangeEndpoint + SplitDigest(digest).0
  }

  /** k-anonymity: two digests lead to the same query exactly when their
      five-digit prefixes agree, so the query reveals nothing of the suffix. */
  lemma RangeUrlRevealsOnlyPrefix(d1: string, d2: string)
    requires IsDigest(d1) && IsDigest(d2)
    ensures RangeUrl(d1) == RangeUrl(d2) <==> d1[..5] == d2[..5]
  {
    if RangeUrl(d1) == RangeUrl(d2) {
      assert RangeUrl(d1)[|RangeEndpoint|..] == d1[..5];
      assert RangeUrl(d2)[|RangeEndpoint|..] == d2[..5];
    }
  }

  /** What the HTTP request produced: no answer at all (the request raised
      a `RequestException`), or a status code and the body text. */
  datatype Response = ConnectionFailed | Received(status: int, text: string)

  /** A line that unpacks into `h, count`: exactly one ':'. */
  predicate WellFormed(line: string)
  {
    |SplitOn(line, ':')| == 2
  }

  /** A line that unpacks and whose hash part is the suffix. */
  predicate IsHit(line: string, suffix: string)
  {
    WellFormed(line) && SplitOn(line, ':')[0] == suffix
  }

  /** The scan of the answer's lines, from the first: a line that does not
      unpack raises, a line whose hash part is the suffix is a breach, and
      reaching the end is the all-clear. */
  function ScanLines(lines: seq<string>, suffix: string): Result<Check>
  {
    if lines == [] then Ok(Check(0, NotBreached))
    else
      var fields := SplitOn(lines[0], ':');
      if |fields| != 2 then Raised(UnpackError(lines[0]))
      else if fields[0] == suffix then Ok(Check(-100, Breached(fields[1])))
      else ScanLines(lines[1..], suffix)
  }

  /** The result of `check_pwned_api` for a digest and the service's answer. */
  function Pwned(digest: string, response: Response): Result<Check>
    requires IsDigest(digest)
  {
    match response
    case ConnectionFailed => Ok(Check(0, ConnectError))
    case Received(status, text) =>
      if status != 200 then Ok(Check(0, StatusError(status)))
      else ScanLines(SplitLines(text), SplitDigest(digest).1)
  }

  /** `check_pwned_api`: splits the digest, interprets the service's answer
      and scans its `HASH:COUNT` lines, returning at the first hit. */
  method CheckPwnedApi(digest: string, response: Response) returns (r: Result<Check>)
    requires IsDigest(digest)
    ensures r == Pwned(digest, response)
  {
    var (prefix, suffix) := SplitDigest(digest);
    if response.ConnectionFailed? {
      return Ok(Check(0, ConnectError));
    }
    if response.status != 200 {
      return Ok(Check(0, StatusError(response.status)));
    }
    var lines := SplitLines(response.text);
    var i := 0;
    while i < |lines|
      invariant 0 <= i <= |lines|
      invariant ScanLines(lines[i..], suffix) == ScanLines(lines, suffix)
    {
      var fields := SplitOn(lines[i], ':');
      if |fields| != 2 {
        return Raised(UnpackError(lines[i]));
      }
      var h, count := fields[0], fields[1];
      if h == suffix {
        return Ok(Check(-100, Breached(count)));
      }
      assert lines[i..][1..] == lines[i + 1..];
      i := i + 1;
    }
    return Ok(Check(0, NotBreached));
  }

  /** The line `i` is the first one that stops the scan: every line before
      it unpacks and misses the suffix. */
  predicate ClearBefore(lines: seq<string>, suffix: string, i: int)
  {
    forall j :: 0 <= j < i && j < |lines| ==> WellFormed(lines[j]) && !IsHit(lines[j], suffix)
  }

  /** The scan raises exactly when a line that does not unpack comes before
      any line that matches. */
  lemma {:induction false} ScanRaisesIff(lines: seq<string>, suffix: string)
    ensures ScanLines(lines, suffix).Raised? <==>
            exists i :: 0 <= i < |lines| && !WellFormed(lines[i]) && ClearBefore(lines, suffix, i)
  {
    if lines != [] {
      ScanRaisesIff(lines[1..], suffix);
      if WellFormed(lines[0]) && !IsHit(lines[0], suffix) {
        if ScanLines(lines, suffix).Raised? {
          var i :| 0 <= i < |lines[1..]| && !WellFormed(lines[1..][i]) && ClearBefore(lines[1..], suffix, i);
          ClearBeforeStep(lines, suffix, i + 1);
          assert lines[1..][i] == lines[i + 1];
        }
        forall i | 0 <= i < |lines| && !WellFormed(lines[i]) && ClearBefore(lines, suffix, i)
          ensures ScanLines(lines[1..], suffix).Raised?
        {
          assert i != 0;
          ClearBeforeStep(lines, suffix, i);
          assert lines[1..][i - 1] == lines[i];
        }
      } else if !WellFormed(lines[0]) {
        assert ClearBefore(lines, suffix, 0);
      } else {
        forall i | 0 <= i < |lines| && !WellFormed(lines[i]) ensures !ClearBefore(lines, suffix, i) {
          assert i > 0;
        }
      }
    }
  }

  /** Clearing the first `i` lines is clearing the first line and then the
      next `i - 1`. */
  lemma ClearBeforeStep(lines: seq<string>, suffix: string, i: nat)
    requires 1 <= i <= |lines|
    ensures ClearBefore(lines, suffix, i) <==>
            WellFormed(lines[0]) && !IsHit(lines[0], suffix) && ClearBefore(lines[1..], suffix, i - 1)
  {
    if WellFormed(lines[0]) && !IsHit(lines[0], suffix) && ClearBefore(lines[1..], suffix, i - 1) {
      forall j | 1 <= j < i && j < |lines| ensures WellFormed(lines[j]) && !IsHit(lines[j], suffix) {
        assert lines[1..][j - 1] == lines[j];
      }
    }
    if ClearBefore(lines, suffix, i) {
      forall j | 0 <= j < i - 1 && j < |lines[1..]|
        ensures WellFormed(lines[1..][j]) && !IsHit(lines[1..][j], suffix)
      {
        assert lines[1..][j] == lines[j + 1];
      }
    }
  }

  /** The scan reports a breach exactly when a line whose hash part is the
      suffix comes before any line that does not unpack. */
  lemma ScanHitIff(lines: seq<string>, suffix: string)
    ensures ScanLines(lines, suffix).Ok? && ScanLines(lines, suffix).value.score == -100 <==>
            exists i :: 0 <= i < |lines| && IsHit(lines[i], suffix) && ClearBefore(lines, suffix, i)
  {
    if ScanLines(lines, suffix).Ok? && ScanLines(lines, suffix).value.score == -100 {
      ScanOutcome(lines, suffix);
    }
    forall i | 0 <= i < |lines| && IsHit(lines[i], suffix) && ClearBefore(lines, suffix, i)
      ensures ScanLines(lines, suffix).Ok? && ScanLines(lines, suffix).value.score == -100
    {
      ScanHitReached(lines, suffix, i);
    }
  }

  /** A hit with nothing stopping the scan before it is reported. */
  lemma {:induction false} ScanHitReached(lines: seq<string>, suffix: string, i: nat)
    requires i < |lines| && IsHit(lines[i], suffix) && ClearBefore(lines, suffix, i)
    ensures ScanLines(lines, suffix).Ok? && ScanLines(lines, suffix).value.score == -100
  {
    if i > 0 {
      ClearBeforeStep(lines, suffix, i);
      assert lines[1..][i - 1] == lines[i];
      ScanHitReached(lines[1..], suffix, i - 1);
    }
  }

  /** A reported breach quotes the count of the first line that matches:
      a line `suffix:count` of the answer with every line before it
      unpacking and missing the suffix. Any other outcome of the scan is the
      "not found" message. */
  lemma {:induction false} ScanOutcome(lines: seq<string>, suffix: string)
    ensures ScanLines(lines, suffix).Ok? && ScanLines(lines, suffix).value.score == -100 ==>
            exists i :: 0 <= i < |lines| && IsHit(lines[i], suffix) && ClearBefore(lines, suffix, i) &&
              lines[i] == suffix + ":" + SplitOn(lines[i], ':')[1] &&
              ScanLines(lines, suffix).value.feedback == Breached(SplitOn(lines[i], ':')[1])
    ensures ScanLines(lines, suffix).Ok? && ScanLines(lines, suffix).value.score != -100 ==>
            ScanLines(lines, suffix).value == Check(0, NotBreached)
  {
    if lines != [] {
      var fields := SplitOn(lines[0], ':');
      if |fields| == 2 && fields[0] == suffix {
        assert lines[0] == suffix + ":" + fields[1] by {
          JoinSplitOn(lines[0], ':');
          assert JoinWith(fields, [':']) == fields[0] + [':'] + fields[1];
        }
        assert ClearBefore(lines, suffix, 0);
      } else if |fields| == 2 {
        ScanOutcome(lines[1..], suffix);
        var r := ScanLines(lines[1..], suffix);
        if r.Ok? && r.value.score == -100 {
          var i :| 0 <= i < |lines[1..]| && IsHit(lines[1..][i], suffix) && ClearBefore(lines[1..], suffix, i) &&
            lines[1..][i] == suffix + ":" + SplitOn(lines[1..][i], ':')[1] &&
            r.value.feedback == Breached(SplitOn(lines[1..][i], ':')[1]);
          assert lines[1..][i] == lines[i + 1];
          ClearBeforeStep(lines, suffix, i + 1);
        }
      }
    }
  }

  /** The breach check never adds to the score: it is 0, or -100 on a hit. */
  lemma PwnedNeverRewards(digest: string, response: Response)
    requires IsDigest(digest)
    ensures Pwned(digest, response).Ok? ==> Pwned(digest, response).value.score in {0, -100}
    ensures Pwned(digest, response).Ok? ==> Pwned(digest, response).value.feedback != ""
  {
    if response.Received? && response.status == 200 {
      ScanOutcome(SplitLines(response.text), SplitDigest(digest).1);
    }
  }

  /** The service answered with status 200 and the scan of its answer
      meets a matching line before any line that does not unpack. */
  predicate ReportedHit(digest: string, response: Response)
    requires IsDigest(digest)
  {
    response.Received? && response.status == 200 &&
    exists i :: 0 <= i < |SplitLines(response.text)| && IsHit(SplitLines(response.text)[i], SplitDigest(digest).1) &&
      ClearBefore(SplitLines(response.text), SplitDigest(digest).1, i)
  }

  /** A completed breach check scores 0 exactly when it reports no hit, and
      that includes the answers it could not scan. */
  lemma PwnedZeroIff(digest: string, response: Response)
    requires IsDigest(digest)
    ensures Pwned(digest, response).Ok? ==> (Pwned(digest, response).value.score == 0 <==> !ReportedHit(digest, response))
  {
    if response.Received? && response.status == 200 {
      ScanHitIff(SplitLines(response.text), SplitDigest(digest).1);
      PwnedNeverRewards(digest, response);
    }
  }

  /** An answer whose every line has exactly one ':' never makes the check
      raise. */
  lemma WellFormedAnswerNeverRaises(digest: string, response: Response)
    requires IsDigest(digest)
    requires response.Received? ==> forall line :: line in SplitLines(response.text) ==> Occurrences(line, ':') == 1
    ensures Pwned(digest, response).Ok?
  {
    if response.Received? && response.status == 200 {
      var lines := SplitLines(response.text);
      ScanRaisesIff(lines, SplitDigest(digest).1);
      forall i | 0 <= i < |lines| ensures WellFormed(lines[i]) {
        assert lines[i] in lines;
      }
    }
  }

  // ---------------------------------------------------------------------
  // Aggregation and rating

  /** The three checks that need no network, in the order they run. */
  function LocalChecks(password: string, common: set<string>): seq<Check>
  {
    [CheckLength(password),
     Check(VarietyScore(password), VarietyFeedback(password)),
     CheckCommonality(password, common)]
  }

  /** The four checks in the order they run, given the breach check's
      outcome. The ensures only unfolds the list for the proofs that use it. */
  function Checks(password: string, common: set<string>, breach: Check): (cs: seq<Check>)
    ensures |cs| == 4 && cs[3] == breach
  {
    LocalChecks(password, common) + [breach]
  }

  /** The four checks, or the exception that aborts the run. The ensures
      only unfold the match for the proofs that use it. */
  function RunChecks(password: string, common: set<string>, digest: string, response: Response): (r: Result<seq<Check>>)
    requires IsDigest(digest)
    ensures r.Raised? <==> Pwned(digest, response).Raised?
    ensures r.Ok? ==> r.value == Checks(password, common, Pwned(digest, response).value)
  {
    match Pwned(digest, response)
    case Raised(e) => Raised(e)
    case Ok(breach) => Ok(Checks(password, common, breach))
  }

  /** A completed run's total is the four scores added, and it lies
      between -150 and 100. */
  lemma RunTotal(password: string, common: set<string>, digest: string, response: Response)
    requires IsDigest(digest)
    ensures RunChecks(password, common, digest, response).Ok? ==>
            Total(RunChecks(password, common, digest, response).value) ==
              CheckLength(password).score + VarietyScore(password) + CheckCommonality(password, common).score + Pwned(digest, response).value.score
    ensures RunChecks(password, common, digest, response).Ok? ==>
            -150 <= Total(RunChecks(password, common, digest, response).value) <= 100
  {
    if Pwned(digest, response).Ok? {
      var breach := Pwned(digest, response).value;
      PwnedNeverRewards(digest, response);
      ChecksTotal(password, common, breach);
      TotalBounds(password, common, breach);
    }
  }

  /** The sum of the scores, accumulated from the first check. */
  function Total(cs: seq<Check>): int
  {
    if cs == [] then 0 else Total(cs[..|cs| - 1]) + cs[|cs| - 1].score
  }

  /** The non-empty feedback messages, each as a bullet line, in check order. */
  function Bullets(cs: seq<Check>): seq<string>
  {
    if cs == [] then []
    else Bullets(cs[..|cs| - 1]) + (if cs[|cs| - 1].feedback != "" then ["• " + cs[|cs| - 1].feedback] else [])
  }

  datatype Rating = VeryWeak | Weak | Medium | Strong | VeryStrong

  function RatingLabel(r: Rating): string
  {
    match r
    case VeryWeak => "Very Weak"
    case Weak => "Weak"
    case Medium => "Medium"
    case Strong => "Strong"
    case VeryStrong => "Very Strong"
  }

  function Level(r: Rating): nat
  {
    match r
    case VeryWeak => 0
    case Weak => 1
    case Medium => 2
    case Strong => 3
    case VeryStrong => 4
  }

  /** The rating ladder of the command-line report. */
  function Rate(total: int): Rating
  {
    if total < 0 then VeryWeak
    else if 0 <= total < 40 then Weak
    else if 40 <= total < 80 then Medium
    else if 80 <= total < 100 then Strong
    else VeryStrong
  }

  /** The scores at which the rating moves one band up. */
  const RatingCutoffs: seq<int> := [0, 40, 80, 100]

  /** The bands partition the integers: the rating's level is the number of
      cutoffs 0, 40, 80, 100 the total reaches. */
  lemma RateByCutoffs(total: int)
    ensures Level(Rate(total)) == CountAtMost(RatingCutoffs, total)
  {
    CountAtMostFour(0, 40, 80, 100, total);
  }

  lemma RateTop(total: int)
    ensures Rate(total) == VeryStrong <==> total >= 100
  {
  }

  /** A higher total never gets a lower rating. */
  lemma RateMonotone(a: int, b: int)
    requires a <= b
    ensures Level(Rate(a)) <= Level(Rate(b))
  {
    RateByCutoffs(a);
    RateByCutoffs(b);
    CountAtMostMonotone(RatingCutoffs, a, b);
  }

  /** What the command-line report shows: the total, the displayed score
      (never below zero), the rating and the recommendation lines. */
  datatype Assessment = Assessment(total: int, finalScore: int, rating: Rating, recommendations: seq<string>)

  function Max(a: int, b: int): int
  {
    if a < b then b else a
  }

  /** The loop of `assess_password_strength`: adds up the scores and turns
      each non-empty feedback into a bullet line, in check order. */
  method Tally(checks: seq<Check>) returns (totalScore: int, feedbackItems: seq<string>)
    ensures totalScore == Total(checks)
    ensures feedbackItems == Bullets(checks)
  {
    totalScore := 0;
    feedbackItems := [];
    for i := 0 to |checks|
      invariant totalScore == Total(checks[..i])
      invariant feedbackItems == Bullets(checks[..i])
    {
      var c := checks[i];
      assert checks[..i + 1][..i] == checks[..i];
      totalScore := totalScore + c.score;
      if c.feedback != "" {
        feedbackItems := feedbackItems + ["• " + c.feedback];
      }
    }
    assert checks[..|checks|] == checks;
  }

  /** `assess_password_strength`: runs the four checks in order, sums their
      scores, collects their non-empty feedback as bullets and rates the
      total. */
  method AssessPasswordStrength(password: string, common: set<string>, digest: string, response: Response)
    returns (r: Result<Assessment>)
    requires IsDigest(digest)
    ensures match RunChecks(password, common, digest, response)
            case Raised(e) => r == Raised(e)
            case Ok(cs) => r == Ok(Assessment(Total(cs), Max(0, Total(cs)), Rate(Total(cs)), Bullets(cs)))
  {
    var length := CheckLength(password);
    var varietyScore, varietyFeedback := CheckCharacterVariety(password);
    var commonality := CheckCommonality(password, common);
    var breach := CheckPwnedApi(digest, response);
    if breach.Raised? {
      return Raised(breach.error);
    }
    var checks := [length, Check(varietyScore, varietyFeedback), commonality, breach.value];
    assert checks == Checks(password, common, breach.value);
    var totalScore, feedbackItems := Tally(checks);

    var rating: Rating;
    if totalScore < 0 {
      rating := VeryWeak;
    } else if 0 <= totalScore < 40 {
      rating := Weak;
    } else if 40 <= totalScore < 80 {
      rating := Medium;
    } else if 80 <= totalScore < 100 {
      rating := Strong;
    } else {
      rating := VeryStrong;
    }
    return Ok(Assessment(totalScore, Max(0, totalScore), rating, feedbackItems));
  }

  lemma TotalOfFour(cs: seq<Check>)
    requires |cs| == 4
    ensures Total(cs) == cs[0].score + cs[1].score + cs[2].score + cs[3].score
  {
    assert Total(cs[..1]) == cs[0].score by {
      assert cs[..1][..0] == [];
    }
    assert Total(cs[..2]) == Total(cs[..1]) + cs[1].score by {
      assert cs[..2][..1] == cs[..1];
    }
    assert Total(cs[..3]) == Total(cs[..2]) + cs[2].score by {
      assert cs[..3][..2] == cs[..2];
    }
    assert cs[..4] == cs;
  }

  /** The total is the sum of the four checks' scores. */
  lemma ChecksTotal(password: string, common: set<string>, breach: Check)
    ensures Total(Checks(password, common, breach)) ==
      CheckLength(password).score + VarietyScore(password)
      + CheckCommonality(password, common).score + breach.score
  {
    TotalOfFour(Checks(password, common, breach));
  }

  /** With the breach check's score 0 or -100, the total lies between -150
      and 100, so the displayed score lies between 0 and 100. */
  lemma TotalBounds(password: string, common: set<string>, breach: Check)
    requires breach.score in {0, -100}
    ensures -150 <= Total(Checks(password, common, breach)) <= 100
    ensures 0 <= Max(0, Total(Checks(password, common, breach))) <= 100
  {
    ChecksTotal(password, common, breach);
    LengthScoreValues(password);
    VarietyFull(password);
  }

  /** "Very Strong" is reached only with a full score: at least 16
      characters, all four classes, not a common password, and a breach
      check that scores 0. By PwnedZeroIff that score means the breach check
      reported no hit, which includes a service that could not be asked. */
  lemma VeryStrongIff(password: string, common: set<string>, breach: Check)
    requires breach.score <= 0
    ensures Rate(Total(Checks(password, common, breach))) == VeryStrong <==>
            |password| >= 16 && |Present(password)| == 4 && Lower(password) !in common && breach.score == 0
  {
    ChecksTotal(password, common, breach);
    LocalFull(password, common);
    RateTop(Total(Checks(password, common, breach)));
  }

  /** The three local checks score at most 100 together, and exactly 100
      for 16 or more characters, all four classes and a password that is
      not common. */
  lemma LocalFull(password: string, common: set<string>)
    ensures CheckLength(password).score + VarietyScore(password) + CheckCommonality(password, common).score <= 100
    ensures CheckLength(password).score + VarietyScore(password) + CheckCommonality(password, common).score == 100 <==>
            |password| >= 16 && |Present(password)| == 4 && Lower(password) !in common
  {
    LengthFull(password);
    VarietyFull(password);
  }

  lemma {:induction false} BulletsStartWithFirst(cs: seq<Check>)
    requires cs != [] && cs[0].feedback != ""
    ensures Bullets(cs) != [] && Bullets(cs)[0] == "• " + cs[0].feedback
  {
    if |cs| > 1 {
      BulletsStartWithFirst(cs[..|cs| - 1]);
    } else {
      assert cs[..0] == [];
    }
  }

  const ExcellentLine := "• Excellent password! Keep it safe."

  /** The lines echoed to the console for an assessment. */
  function Transcript(a: Assessment): seq<string>
  {
    ["\n--- Password Security Assessment ---",
     "Final Score: " + IntToString(a.finalScore) + "/100",
     "Strength Rating: " + RatingLabel(a.rating),
     "\nRecommendations:"]
    + (if a.recommendations == [] then [ExcellentLine] else a.recommendations)
    + ["------------------------------------"]
  }

  /** The length check always has something to say, so the first
      recommendation is its message and the console shows the
      recommendations themselves, never the "Excellent password!" fallback. */
  lemma ExcellentNeverEchoed(password: string, common: set<string>, breach: Check)
    ensures var cs := Checks(password, common, breach);
            var a := Assessment(Total(cs), Max(0, Total(cs)), Rate(Total(cs)), Bullets(cs));
            && a.recommendations != []
            && a.recommendations[0] == "• " + CheckLength(password).feedback
            && Transcript(a)[4..|Transcript(a)| - 1] == a.recommendations
  {
    LengthScoreValues(password);
    BulletsStartWithFirst(Checks(password, common, breach));
  }
}
