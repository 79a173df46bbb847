/** The web front end: it runs the same four checks as the command-line
    report on a non-empty password, shows breach and common-password
    messages as error boxes and service failures as warning boxes, and
    lists every other message as a recommendation under a rating with a
    progress bar. */
module App {
  import opened Text
  import opened Assessor

  // ---------------------------------------------------------------------
  // Routing of feedback

  /** Where a feedback message ends up on the page. */
  datatype Channel = Hidden | ErrorBox | WarningBox | Recommendation

  const DangerMark := "DANGER"
  const CommonMark := "very common"
  const ApiMark := "API Error"

  /** The routing rule: empty feedback is not shown, a message mentioning a
      breach or a very common password is an error, a service failure is a
      warning, and anything else is a recommendation. */
  function Route(feedback: string): Channel
  {
    if feedback == "" then Hidden
    else if Contains(feedback, DangerMark) || Contains(feedback, CommonMark) then ErrorBox
    else if Contains(feedback, ApiMark) then WarningBox
    else Recommendation
  }

  /** A box shown while the checks run, carrying the bulleted message. */
  datatype Alert = ErrorAlert(text: string) | WarningAlert(text: string)

  /** The boxes shown for one feedback message. */
  function AlertOf(feedback: string): seq<Alert>
  {
    match Route(feedback)
    case ErrorBox => [ErrorAlert("• " + feedback)]
    case WarningBox => [WarningAlert("• " + feedback)]
    case _ => []
  }

  /** The boxes shown for a run of checks, in check order. */
  function Alerts(cs: seq<Check>): seq<Alert>
  {
    if cs == [] then [] else Alerts(cs[..|cs| - 1]) + AlertOf(cs[|cs| - 1].feedback)
  }

  /** The messages kept for the recommendation list, in check order. */
  function Recommendations(cs: seq<Check>): seq<string>
  {
    if cs == [] then []
    else Recommendations(cs[..|cs| - 1]) + (if Route(cs[|cs| - 1].feedback) == Recommendation then [cs[|cs| - 1].feedback] else [])
  }

  /** All feedback messages, in check order. */
  function Feedbacks(cs: seq<Check>): (fs: seq<string>)
    ensures |fs| == |cs|
    ensures forall i :: 0 <= i < |cs| ==> fs[i] == cs[i].feedback
  {
    if cs == [] then [] else Feedbacks(cs[..|cs| - 1]) + [cs[|cs| - 1].feedback]
  }

  /** How many checks have something to say. */
  function Spoken(cs: seq<Check>): (n: nat)
    ensures n <= |cs|
  {
    if cs == [] then 0 else Spoken(cs[..|cs| - 1]) + (if cs[|cs| - 1].feedback != "" then 1 else 0)
  }

  /** Every non-empty message is shown exactly once: as a box or as a
      recommendation; empty ones are shown nowhere. */
  lemma {:induction false} RoutePartition(cs: seq<Check>)
    ensures |Alerts(cs)| + |Recommendations(cs)| == Spoken(cs)
  {
    if cs != [] {
      RoutePartition(cs[..|cs| - 1]);
    }
  }

  /** `a` can be obtained from `b` by deleting elements. */
  predicate IsSubsequence<T(==)>(a: seq<T>, b: seq<T>)
    decreases |b|
  {
    if a == [] then true
    else if b == [] then false
    else if a[|a| - 1] == b[|b| - 1] then IsSubsequence(a[..|a| - 1], b[..|b| - 1])
    else IsSubsequence(a, b[..|b| - 1])
  }

  /** Appending to the longer sequence keeps a subsequence. */
  lemma {:induction false} SubsequenceExtend<T>(a: seq<T>, b: seq<T>, x: T)
    requires IsSubsequence(a, b)
    ensures IsSubsequence(a, b + [x])
    decreases |b|, 1
  {
    assert (b + [x])[..|b|] == b;
    if a != [] && a[|a| - 1] == x {
      SubsequenceDropLast(a, b);
    }
  }

  /** Dropping the last element of a subsequence keeps a subsequence. */
  lemma {:induction false} SubsequenceDropLast<T>(a: seq<T>, b: seq<T>)
    requires a != [] && IsSubsequence(a, b)
    ensures IsSubsequence(a[..|a| - 1], b)
    decreases |b|, 0
  {
    var b' := b[..|b| - 1];
    assert b == b' + [b[|b| - 1]];
    if a[|a| - 1] == b[|b| - 1] {
      SubsequenceExtend(a[..|a| - 1], b', b[|b| - 1]);
    } else {
      SubsequenceDropLast(a, b');
      SubsequenceExtend(a[..|a| - 1], b', b[|b| - 1]);
    }
  }

  /** The recommendations keep the checks' order and invent nothing: they
      are a subsequence of the feedback messages. */
  lemma {:induction false} RecommendationsInOrder(cs: seq<Check>)
    ensures IsSubsequence(Recommendations(cs), Feedbacks(cs))
  {
    if cs != [] {
      var front, f := cs[..|cs| - 1], cs[|cs| - 1].feedback;
      RecommendationsInOrder(front);
      assert Feedbacks(cs) == Feedbacks(front) + [f];
      if Route(f) == Recommendation {
        var r := Recommendations(front) + [f];
        assert r[..|r| - 1] == Recommendations(front);
        assert (Feedbacks(front) + [f])[..|Feedbacks(front)|] == Feedbacks(front);
      } else {
        assert Recommendations(cs) == Recommendations(front);
        SubsequenceExtend(Recommendations(front), Feedbacks(front), f);
      }
    }
  }

  /** Nothing is lost: each check's message ends up where its route says. */
  lemma {:induction false} RoutedWhereSaid(cs: seq<Check>, i: nat)
    requires i < |cs|
    ensures Route(cs[i].feedback) == ErrorBox ==> ErrorAlert("• " + cs[i].feedback) in Alerts(cs)
    ensures Route(cs[i].feedback) == WarningBox ==> WarningAlert("• " + cs[i].feedback) in Alerts(cs)
    ensures Route(cs[i].feedback) == Recommendation ==> cs[i].feedback in Recommendations(cs)
  {
    var front := cs[..|cs| - 1];
    if i < |cs| - 1 {
      RoutedWhereSaid(front, i);
      assert front[i] == cs[i];
    }
  }

  /** Nothing is invented: every box shows the message of some check. */
  lemma {:induction false} AlertsFromChecks(cs: seq<Check>)
    ensures forall a :: a in Alerts(cs) ==> exists i :: 0 <= i < |cs| && AlertOf(cs[i].feedback) == [a]
  {
    if cs != [] {
      var front := cs[..|cs| - 1];
      AlertsFromChecks(front);
      forall a | a in Alerts(cs)
        ensures exists i :: 0 <= i < |cs| && AlertOf(cs[i].feedback) == [a]
      {
        if a in Alerts(front) {
          var i :| 0 <= i < |front| && AlertOf(front[i].feedback) == [a];
          assert cs[i] == front[i];
        } else {
          assert AlertOf(cs[|cs| - 1].feedback) == [a];
        }
      }
    }
  }

  /** Every recommendation is a non-empty message that mentions neither a
      breach, nor a very common password, nor a service failure. */
  lemma {:induction false} RecommendationsAreClean(cs: seq<Check>)
    ensures forall i :: 0 <= i < |Recommendations(cs)| ==>
      var r := Recommendations(cs)[i];
      r != "" && !Contains(r, DangerMark) && !Contains(r, CommonMark) && !Contains(r, ApiMark)
  {
    if cs != [] {
      RecommendationsAreClean(cs[..|cs| - 1]);
    }
  }

  // ---------------------------------------------------------------------
  // Where the assessor's own messages go

  /** Proof aid for the routing lemmas, not part of the program: text with
      no capital E and no 'v' contains none of the three marks, because
      "DANGER" and "API Error" have an E and "very common" has a v. */
  predicate Plain(f: string)
  {
    forall j | 0 <= j < |f| :: f[j] != 'E' && f[j] != 'v'
  }

  /** Proof aid for the routing lemmas, not part of the program: text with
      no capital D and no 'y' mentions neither "DANGER" nor "very common". */
  predicate Quiet(f: string)
  {
    forall j | 0 <= j < |f| :: f[j] != 'D' && f[j] != 'y'
  }

  /** Non-empty plain text is a recommendation. */
  lemma PlainRecommended(f: string)
    requires f != "" && Plain(f)
    ensures Route(f) == Recommendation
  {
    AbsentChar(f, DangerMark, 4);
    AbsentChar(f, CommonMark, 0);
    AbsentChar(f, ApiMark, 4);
  }

  /** Quiet text that starts with "API Error" is a warning. */
  lemma ApiWarned(f: string)
    requires ApiMark <= f && Quiet(f)
    ensures Route(f) == WarningBox
  {
    AbsentChar(f, DangerMark, 0);
    AbsentChar(f, CommonMark, 3);
    PrefixContained(f, ApiMark);
  }

  lemma LengthMessagePlain(f: string)
    requires f in LengthMessages
    ensures Plain(f)
  {
    if f == TooShort {
      TooShortPlain();
    } else if f == LengthOkay {
      LengthOkayPlain();
    } else if f == LengthGood {
      LengthGoodPlain();
    } else {
      LengthExcellentPlain();
    }
  }

  lemma TooShortPlain() ensures Plain(TooShort) { }
  lemma LengthOkayPlain() ensures Plain(LengthOkay) { }
  lemma LengthGoodPlain() ensures Plain(LengthGood) { }
  lemma LengthExcellentPlain() ensures Plain(LengthExcellent) { }

  /** The length message is always a recommendation. */
  lemma LengthRecommended(password: string)
    ensures Route(CheckLength(password).feedback) == Recommendation
  {
    LengthFull(password);
    LengthMessagePlain(CheckLength(password).feedback);
    PlainRecommended(CheckLength(password).feedback);
  }

  lemma HintPlain(k: CharClass)
    ensures Plain(Hint(k))
  {
    match k
    case Lowercase => LowercaseHintPlain();
    case Uppercase => UppercaseHintPlain();
    case Digit => DigitHintPlain();
    case Special => SpecialHintPlain();
  }

  lemma LowercaseHintPlain() ensures Plain(Hint(Lowercase)) { }
  lemma UppercaseHintPlain() ensures Plain(Hint(Uppercase)) { }
  lemma DigitHintPlain() ensures Plain(Hint(Digit)) { }
  lemma SpecialHintPlain() ensures Plain(Hint(Special)) { }

  /** The variety hints are a recommendation, or nothing when all four
      classes occur. */
  lemma VarietyRecommended(password: string)
    ensures VarietyFeedback(password) == "" || Route(VarietyFeedback(password)) == Recommendation
  {
    var ks := Missing(password);
    var hs := Hints(ks);
    forall i | 0 <= i < |hs| ensures 'E' !in hs[i] && 'v' !in hs[i] {
      HintPlain(ks[i]);
    }
    JoinWithAvoids(hs, " ", 'E');
    JoinWithAvoids(hs, " ", 'v');
    if VarietyFeedback(password) != "" {
      PlainRecommended(VarietyFeedback(password));
    }
  }

  /** The common-password penalty is an error box; no penalty shows
      nothing. */
  lemma CommonalityRouted(password: string, common: set<string>)
    ensures Route(CheckCommonality(password, common).feedback) ==
            (if Lower(password) in common then ErrorBox else Hidden)
  {
    if Lower(password) in common {
      InfixContained("This is a ", CommonMark, " password and is extremely insecure.");
    }
  }

  lemma ConnectErrorWarned()
    ensures Route(ConnectError) == WarningBox
  {
    var a, b, c := "API Error", ": Could not connect to the ", "'Have I Been Pwned' service.";
    assert Quiet(a);
    assert Quiet(b);
    assert Quiet(c);
    QuietAppend(a, b);
    QuietAppend(a + b, c);
    ApiWarned(ConnectError);
  }

  lemma StatusErrorWarned(status: int)
    ensures Route(StatusError(status)) == WarningBox
  {
    var head := "API Error" + ": Could not check if " + "password was pwned (Status: ";
    var digits := IntToString(status);
    StatusHeadQuiet();
    QuietAppend(head, digits);
    QuietAppend(head + digits, ").");
    assert StatusError(status) == head + digits + ").";
    ApiWarned(StatusError(status));
  }

  lemma StatusHeadQuiet()
    ensures Quiet("API Error" + ": Could not check if " + "password was pwned (Status: ")
  {
    var a, b, c := "API Error", ": Could not check if ", "password was pwned (Status: ";
    assert Quiet(a);
    assert Quiet(b);
    assert Quiet(c);
    QuietAppend(a, b);
    QuietAppend(a + b, c);
  }

  lemma PlainAppend(a: string, b: string)
    requires Plain(a) && Plain(b)
    ensures Plain(a + b)
  {
  }

  lemma QuietAppend(a: string, b: string)
    requires Quiet(a) && Quiet(b)
    ensures Quiet(a + b)
  {
  }

  lemma BreachedInError(count: string)
    ensures Route(Breached(count)) == ErrorBox
  {
    PrefixContained(Breached(count), DangerMark);
  }

  lemma NotBreachedRecommended()
    ensures Route(NotBreached) == Recommendation
  {
    var a, b, c := "Good news! This ", "password was not found ", "in any known data breaches.";
    assert Plain(a);
    assert Plain(b);
    assert Plain(c);
    PlainAppend(a, b);
    PlainAppend(a + b, c);
    PlainRecommended(NotBreached);
  }

  /** The breach check's message is an error box exactly on a hit, a
      warning box exactly when the service could not be asked, and a
      recommendation ("not found") otherwise. */
  lemma PwnedRouted(digest: string, response: Response)
    requires IsDigest(digest) && Pwned(digest, response).Ok?
    ensures var r := Pwned(digest, response).value;
            Route(r.feedback) ==
              if r.score == -100 then ErrorBox
              else if response.ConnectionFailed? || response.status != 200 then WarningBox
              else Recommendation
  {
    var r := Pwned(digest, response).value;
    if response.ConnectionFailed? {
      ConnectErrorWarned();
    } else if response.status != 200 {
      StatusErrorWarned(response.status);
    } else {
      ScanOutcome(SplitLines(response.text), SplitDigest(digest).1);
      if r.score == -100 {
        var count :| r.feedback == Breached(count);
        BreachedInError(count);
      } else {
        NotBreachedRecommended();
      }
    }
  }

  // ---------------------------------------------------------------------
  // Rating badge and progress bar

  /** The rating label and the progress value the page shows. */
  datatype Gauge = Gauge(badge: string, progress: int)

  /** The page's label for each band of the command-line rating. */
  function Badge(r: Rating): string
  {
    match r
    case VeryWeak => "Very Weak \U{1F44E}"
    case Weak => "Weak \U{1F61F}"
    case Medium => "Medium \U{1F914}"
    case Strong => "Strong \U{1F44D}"
    case VeryStrong => "Very Strong! \U{1F4AA}"
  }

  /** The progress value of each band. */
  function Progress(r: Rating): int
  {
    match r
    case VeryWeak => 10
    case Weak => 30
    case Medium => 60
    case Strong => 90
    case VeryStrong => 100
  }

  /** The page's rating ladder: the badge and progress value of the band
      the command-line report rates the total in. */
  function Ladder(total: int): Gauge
  {
    Gauge(Badge(Rate(total)), Progress(Rate(total)))
  }

  /** The progress value is one of 10, 30, 60, 90, 100. */
  lemma ProgressValues(total: int)
    ensures Ladder(total).progress in {10, 30, 60, 90, 100}
  {
  }

  /** A higher band never shows less progress. */
  lemma ProgressByLevel(a: Rating, b: Rating)
    requires Level(a) <= Level(b)
    ensures Progress(a) <= Progress(b)
  {
  }

  /** A higher total never shows less progress. */
  lemma ProgressMonotone(a: int, b: int)
    requires a <= b
    ensures Ladder(a).progress <= Ladder(b).progress
  {
    RateMonotone(a, b);
    ProgressByLevel(Rate(a), Rate(b));
  }

  // ---------------------------------------------------------------------
  // The page

  /** The four checks the page runs, in order. */
  datatype Checker = ByLength | ByVariety | ByCommonality | ByBreach

  const Checkers: seq<Checker> := [ByLength, ByVariety, ByCommonality, ByBreach]

  /** What calling one checker gives. */
  function Outcome(checker: Checker, password: string, common: set<string>, digest: string, response: Response): Result<Check>
    requires IsDigest(digest)
  {
    match checker
    case ByLength => Ok(CheckLength(password))
    case ByVariety => Ok(Check(VarietyScore(password), VarietyFeedback(password)))
    case ByCommonality => Ok(CheckCommonality(password, common))
    case ByBreach => Pwned(digest, response)
  }

  /** Calls one checker. */
  method Call(checker: Checker, password: string, common: set<string>, digest: string, response: Response)
    returns (r: Result<Check>)
    requires IsDigest(digest)
    ensures r == Outcome(checker, password, common, digest, response)
  {
    match checker
    case ByLength =>
      r := Ok(CheckLength(password));
    case ByVariety =>
      var score, feedback := CheckCharacterVariety(password);
      r := Ok(Check(score, feedback));
    case ByCommonality =>
      r := Ok(CheckCommonality(password, common));
    case ByBreach =>
      r := CheckPwnedApi(digest, response);
  }

  /** The page once all checks have run. */
  datatype Screen = Screen(alerts: seq<Alert>, rating: string, progress: int, info: seq<string>)

  /** What the page shows: nothing for an empty password; the boxes of the
      first three checks and the exception when the breach check raises;
      otherwise the boxes, the rating, the progress and the
      recommendations. */
  datatype Page = NoInput | Crashed(shown: seq<Alert>, error: Crash) | Shown(screen: Screen)

  /** Each recommendation as the page lists it. */
  function Bulleted(items: seq<string>): (lines: seq<string>)
    ensures |lines| == |items|
    ensures forall i :: 0 <= i < |items| ==> lines[i] == "• " + items[i]
  {
    if items == [] then [] else Bulleted(items[..|items| - 1]) + ["• " + items[|items| - 1]]
  }

  /** The page for a password, its digest and the service's answer. */
  function PageFor(password: string, common: set<string>, digest: string, response: Response): Page
    requires IsDigest(digest)
  {
    if password == "" then NoInput
    else match Pwned(digest, response)
      case Raised(e) => Crashed(Alerts(LocalChecks(password, common)), e)
      case Ok(breach) =>
        var cs := Checks(password, common, breach);
        var g := Ladder(Total(cs));
        Shown(Screen(Alerts(cs), g.badge, g.progress, Bulleted(Recommendations(cs))))
  }

  lemma PageOnError(password: string, common: set<string>, digest: string, response: Response)
    requires IsDigest(digest) && password != "" && Pwned(digest, response).Raised?
    ensures PageFor(password, common, digest, response) == Crashed(Alerts(LocalChecks(password, common)), Pwned(digest, response).error)
  {
  }

  lemma PageOnAnswer(password: string, common: set<string>, digest: string, response: Response)
    requires IsDigest(digest) && password != "" && Pwned(digest, response).Ok?
    ensures var cs := Checks(password, common, Pwned(digest, response).value);
            PageFor(password, common, digest, response) ==
              Shown(Screen(Alerts(cs), Ladder(Total(cs)).badge, Ladder(Total(cs)).progress, Bulleted(Recommendations(cs))))
  {
  }

  /** The checks that ran, as the loop of the page sees them. */
  ghost predicate Ran(done: seq<Check>, password: string, common: set<string>, digest: string, response: Response)
    requires IsDigest(digest)
    requires |done| <= |Checkers|
  {
    forall j :: 0 <= j < |done| ==> Outcome(Checkers[j], password, common, digest, response) == Ok(done[j])
  }

  lemma RanStep(done: seq<Check>, c: Check, password: string, common: set<string>, digest: string, response: Response)
    requires IsDigest(digest) && |done| < |Checkers| && Ran(done, password, common, digest, response)
    requires Outcome(Checkers[|done|], password, common, digest, response) == Ok(c)
    ensures Ran(done + [c], password, common, digest, response)
  {
  }

  /** After the three local checks the run is exactly those. */
  lemma RanLocal(done: seq<Check>, password: string, common: set<string>, digest: string, response: Response)
    requires IsDigest(digest) && |done| == 3 && Ran(done, password, common, digest, response)
    ensures done == LocalChecks(password, common)
  {
    assert Outcome(Checkers[0], password, common, digest, response) == Ok(done[0]);
    assert Outcome(Checkers[1], password, common, digest, response) == Ok(done[1]);
    assert Outcome(Checkers[2], password, common, digest, response) == Ok(done[2]);
  }

  /** After all four the run is the checks of the command-line report. */
  lemma RanAll(done: seq<Check>, password: string, common: set<string>, digest: string, response: Response)
    requires IsDigest(digest) && |done| == 4 && Ran(done, password, common, digest, response)
    ensures Pwned(digest, response) == Ok(done[3])
    ensures done == Checks(password, common, done[3])
  {
    RanLocal(done[..3], password, common, digest, response);
    assert Outcome(Checkers[3], password, common, digest, response) == Ok(done[3]);
  }

  /** One more check: the running total, the boxes and the kept messages
      grow by what that check contributes. */
  lemma RunStep(done: seq<Check>, c: Check)
    ensures Total(done + [c]) == Total(done) + c.score
    ensures Alerts(done + [c]) == Alerts(done) + AlertOf(c.feedback)
    ensures Recommendations(done + [c]) == Recommendations(done) + (if Route(c.feedback) == Recommendation then [c.feedback] else [])
  {
    assert (done + [c])[..|done|] == done;
  }

  /** The page's rating cascade: it picks the badge and the progress value
      by the same thresholds as the command-line report. */
  method Gauged(totalScore: int) returns (rating: string, progress: int)
    ensures rating == Badge(Rate(totalScore)) && progress == Progress(Rate(totalScore))
  {
    if totalScore < 0 {
      rating, progress := "Very Weak \U{1F44E}", 10;
    } else if 0 <= totalScore < 40 {
      rating, progress := "Weak \U{1F61F}", 30;
    } else if 40 <= totalScore < 80 {
      rating, progress := "Medium \U{1F914}", 60;
    } else if 80 <= totalScore < 100 {
      rating, progress := "Strong \U{1F44D}", 90;
    } else {
      rating, progress := "Very Strong! \U{1F4AA}", 100;
    }
  }

  /** Shows one feedback message: an error or warning box right away, or a
      place on the list of recommendations for later. */
  method Post(feedback: string, alerts: seq<Alert>, items: seq<string>) returns (alerts': seq<Alert>, items': seq<string>)
    ensures alerts' == alerts + AlertOf(feedback)
    ensures items' == items + (if Route(feedback) == Recommendation then [feedback] else [])
  {
    alerts', items' := alerts, items;
    if feedback != "" {
      if Contains(feedback, DangerMark) || Contains(feedback, CommonMark) {
        alerts' := alerts + [ErrorAlert("• " + feedback)];
      } else if Contains(feedback, ApiMark) {
        alerts' := alerts + [WarningAlert("• " + feedback)];
      } else {
        items' := items + [feedback];
      }
    }
  }

  /** The list of recommendations under the rating, one bulleted line each. */
  method List(items: seq<string>) returns (info: seq<string>)
    ensures info == Bulleted(items)
  {
    info := [];
    for j := 0 to |items|
      invariant info == Bulleted(items[..j])
    {
      assert items[..j + 1][..j] == items[..j];
      info := info + ["• " + items[j]];
    }
    assert items[..|items|] == items;
  }

  /** `main`: on a non-empty password, runs the checks in order, adding up
      the scores and routing each non-empty message as it comes; then
      rates the total and lists the recommendations. */
  method RunPage(password: string, common: set<string>, digest: string, response: Response) returns (page: Page)
    requires IsDigest(digest)
    ensures page == PageFor(password, common, digest, response)
    ensures page == NoInput <==> password == ""
  {
    if password == "" {
      return NoInput;
    }
    var totalScore := 0;
    var alerts: seq<Alert> := [];
    var feedbackItems: seq<string> := [];
    ghost var done: seq<Check> := [];
    for i := 0 to |Checkers|
      invariant |done| == i && Ran(done, password, common, digest, response)
      invariant totalScore == Total(done)
      invariant alerts == Alerts(done)
      invariant feedbackItems == Recommendations(done)
    {
      var r := Call(Checkers[i], password, common, digest, response);
      if r.Raised? {
        assert i == 3;
        RanLocal(done, password, common, digest, response);
        PageOnError(password, common, digest, response);
        return Crashed(alerts, r.error);
      }
      var c := r.value;
      RunStep(done, c);
      totalScore := totalScore + c.score;
      alerts, feedbackItems := Post(c.feedback, alerts, feedbackItems);
      RanStep(done, c, password, common, digest, response);
      done := done + [c];
    }
    RanAll(done, password, common, digest, response);

    var rating, progress := Gauged(totalScore);
    var info := List(feedbackItems);
    PageOnAnswer(password, common, digest, response);
    return Shown(Screen(alerts, rating, progress, info));
  }

  /** The page always has at least one recommendation: the length message
      comes first. */
  lemma PageAlwaysRecommends(password: string, common: set<string>, breach: Check)
    ensures Recommendations(Checks(password, common, breach)) != []
    ensures Recommendations(Checks(password, common, breach))[0] == CheckLength(password).feedback
  {
    LengthRecommended(password);
    RecommendationsStartWith(Checks(password, common, breach));
  }

  lemma {:induction false} RecommendationsStartWith(cs: seq<Check>)
    requires cs != [] && Route(cs[0].feedback) == Recommendation
    ensures Recommendations(cs) != [] && Recommendations(cs)[0] == cs[0].feedback
  {
    if |cs| > 1 {
      RecommendationsStartWith(cs[..|cs| - 1]);
    } else {
      assert cs[..0] == [];
    }
  }
}
