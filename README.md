# Password security assessor, modelled in Dafny

This project models the Automated Password Security Assessor. The
assessor scores a password with four checks, run in a fixed order:

- **length**: 0, 20, 40 or 60 points, for fewer than 8, 8–11, 12–15 and 16 or more characters;
- **character variety**: 10 points for each class present (lowercase, uppercase, digit, other), plus a hint for each missing class;
- **commonality**: −50 when the lower-cased password is on a list of common passwords;
- **breach exposure**: −100 when the Pwned Passwords range service lists the password's SHA-1 suffix under its five-digit prefix (k-anonymity).

The command-line report sums the scores, rates the total on a five-band ladder (Very Weak, Weak, Medium, Strong, Very Strong) and prints the feedback as bullet lines. The web page runs the same checks and routes each message: a breach or common-password message becomes an error box, a service failure becomes a warning box, and every other message becomes a recommendation listed under a rating badge and a progress bar.

There are three modules, one per file:

- `text.dfy` (`Text`): the parts of Python's `str` the program relies on. These are `sep.join`, `split(':')`, `splitlines()`, ASCII `lower()`, the substring test `in`, and decimal rendering of integers.
- `assessor.dfy` (`Assessor`): `assessor.py`. The checks are functions. `check_character_variety`, `check_pwned_api` and `assess_password_strength` are methods whose loops and step-by-step updates are proved against those functions.
- `app.py` is modelled by `app.dfy` (`App`). The routing rule, the ladder and the page are specification functions. `main` is a method whose loop is proved to produce the specified page.

The breach check's inputs are the 40-character upper-case hex digest and the service's answer: either no answer (a `RequestException`) or a status code and a body. The lazy generator over the body's lines is modelled exactly. The scan stops at the first line whose hash part matches. A line that does not split into exactly two fields raises an uncaught unpacking error, but only when the scan reaches it. The model does not require that error away. It is a `Raised` outcome, and both front ends propagate it: the run aborts.

## Model

| member | source | states |
|---|---|---|
| Text.JoinWith | Automated_password_security_assessor/assessor.py:54 | models `sep.join(parts)`; JoinSplitOn and SplitOnJoin make it the inverse of `split`, and HintsJoinEmpty states when the joined hints are empty |
| Text.SplitOn | Automated_password_security_assessor/assessor.py:76 | models `line.split(':')`: one more piece than the line has separators, and no piece contains the separator; JoinSplitOn and SplitOnJoin make it the inverse of joining with ':' |
| Text.SplitLines | Automated_password_security_assessor/assessor.py:76 | models `splitlines()`: no line holds a line boundary, and the empty text has no lines; SplitLinesJoin makes it the inverse of joining with "\n" or "\r\n" |
| Text.Lower | Automated_password_security_assessor/assessor.py:58 | models ASCII `lower()`: same length, each character folded on its own; LowerIsFolded shows the result has no capital and is a fixed point |
| Text.IntToString | Automated_password_security_assessor/assessor.py:74 | models the decimal rendering of the status code: a non-empty string of digits, with a leading '-' exactly for negative numbers; NatToStringValue reads it back |
| Text.Contains | Automated_password_security_assessor/app.py:25-28 | models the substring test `in` used by the routing rule; PrefixContained and InfixContained show a message holding a mark as a part is caught by it |
| Text.JoinSplitOn | Automated_password_security_assessor/assessor.py:76 | joining the pieces of `line.split(':')` with ':' gives the line back |
| Text.SplitOnJoin | Automated_password_security_assessor/assessor.py:76-77 | splitting pieces joined with ':' gives the pieces back when none contains ':' |
| Text.SplitLinesJoin | Automated_password_security_assessor/assessor.py:76 | `splitlines()` of lines joined with "\n", or with the "\r\n" the range service uses, returns those lines, provided none contains a line boundary and the last is non-empty |
| Text.NatToStringValue | Automated_password_security_assessor/assessor.py:74 | the decimal rendering of a status code reads back as the same number |
| Text.LowerIsFolded | Automated_password_security_assessor/assessor.py:58 | a lower-cased password has no capital ASCII letter and lower-casing it again changes nothing |
| Assessor.CheckLength | Automated_password_security_assessor/assessor.py:17-27 | models `check_length`; its bands, messages and bounds are stated by LengthBands, LengthMessageOfScore, LengthFull and LengthScoreValues below |
| Assessor.LengthBands | Automated_password_security_assessor/assessor.py:17-27 | the length score is 20 for each of the thresholds 8, 12 and 16 that the length reaches |
| Assessor.LengthMessageOfScore | Automated_password_security_assessor/assessor.py:17-27 | the length message is the one for the score's band: too short, okay, good or excellent |
| Assessor.LengthScoreMonotone | Automated_password_security_assessor/assessor.py:17-27 | a longer password never gets a lower length score |
| Assessor.LengthFull | Automated_password_security_assessor/assessor.py:17-27 | the length score is at most 60, and it is 60 exactly for 16 or more characters |
| Assessor.LengthScoreValues | Automated_password_security_assessor/assessor.py:17-27 | the length score is one of 0, 20, 40, 60, and the length check always gives feedback |
| Assessor.PresentIffMatches | Automated_password_security_assessor/assessor.py:34-50 | a class counts as present exactly when some character of the password is in it, as the regular-expression search finds |
| Assessor.NonAsciiCountsAsSpecial | Automated_password_security_assessor/assessor.py:44-52 | with `\d` read as the ASCII digits, a non-empty password of only non-ASCII characters has just the "special" class, scores 10 and is told to add lowercase, uppercase and digits |
| Assessor.AbsentMembers | Automated_password_security_assessor/assessor.py:34-52 | a class gets a hint exactly when it was tested and is not present |
| Assessor.MissingInOrder | Automated_password_security_assessor/assessor.py:34-52 | the missing classes are exactly the absent ones, listed in test order: lowercase, uppercase, digit, special |
| Assessor.PresentCount | Automated_password_security_assessor/assessor.py:29-54 | present and missing classes together are all four |
| Assessor.VarietyFull | Automated_password_security_assessor/assessor.py:29-54 | the variety score is a multiple of 10 between 0 and 40, and it is 40 exactly when all four classes occur |
| Assessor.VarietyScoreByMissing | Automated_password_security_assessor/assessor.py:29-54 | the variety score is 10 points for every class that is not missing |
| Assessor.VarietyFeedbackEmpty | Automated_password_security_assessor/assessor.py:54 | the variety feedback is empty exactly when the variety score is full |
| Assessor.HintsJoinEmpty | Automated_password_security_assessor/assessor.py:54 | joining the hints with spaces gives "" exactly when no class is missing |
| Assessor.TestClass | Automated_password_security_assessor/assessor.py:34-52 | one test block extends the running score, hint list and missing list by exactly that class's contribution |
| Assessor.CheckCharacterVariety | Automated_password_security_assessor/assessor.py:29-54 | the step-by-step score and joined hints equal the variety score and feedback of the password |
| Assessor.CheckCommonality | Automated_password_security_assessor/assessor.py:56-60 | the commonality score is never positive, and feedback is given exactly when there is a penalty |
| Assessor.CommonalityMatch | Automated_password_security_assessor/assessor.py:58-59 | the penalty applies exactly when some entry of the list without capital letters equals the password up to ASCII case |
| Assessor.CommonalityIgnoresCase | Automated_password_security_assessor/assessor.py:58 | the commonality outcome is the same for the password and its lower-cased form |
| Assessor.SplitDigest | Automated_password_security_assessor/assessor.py:67-68 | the digest splits into a 5-character prefix and a 35-character suffix that concatenate back to it |
| Assessor.RangeUrl | Automated_password_security_assessor/assessor.py:68-69 | models the query address, the range endpoint followed by the digest's five-character prefix; RangeUrlRevealsOnlyPrefix states that it depends on the prefix alone |
| Assessor.RangeUrlRevealsOnlyPrefix | Automated_password_security_assessor/assessor.py:68-69 | two digests produce the same query address exactly when their five-character prefixes agree |
| Assessor.ScanLines | Automated_password_security_assessor/assessor.py:76-81 | models the lazy loop over the answer's lines; ScanRaisesIff, ScanHitIff and ScanOutcome below state when it raises, when it reports a breach and what it quotes |
| Assessor.Pwned | Automated_password_security_assessor/assessor.py:62-83 | models `check_pwned_api` on a digest and the service's answer; PwnedNeverRewards bounds its score, and the App routing lemmas say where each of its messages is shown |
| Assessor.CheckPwnedApi | Automated_password_security_assessor/assessor.py:62-83 | the line loop with early returns produces the breach-check outcome for the digest and the answer |
| Assessor.ScanRaisesIff | Automated_password_security_assessor/assessor.py:76-77 | the scan raises exactly when a line that does not unpack comes before any matching line |
| Assessor.ScanHitIff | Automated_password_security_assessor/assessor.py:76-79 | a breach is reported exactly when a line whose hash part is the suffix comes before any line that does not unpack |
| Assessor.ScanOutcome | Automated_password_security_assessor/assessor.py:76-81 | a reported breach quotes the count of the first line that matches: a line `suffix:count` of the answer with every line before it unpacking and missing the suffix. Any other completed scan gives score 0 and the "not found" message |
| Assessor.PwnedNeverRewards | Automated_password_security_assessor/assessor.py:62-83 | the breach check scores 0 or −100 and always gives feedback |
| Assessor.PwnedZeroIff | Automated_password_security_assessor/assessor.py:71-83 | a completed breach check scores 0 exactly when it does not report a hit: a connection failure, a status other than 200, and a scan with no matching line all score 0 |
| Assessor.WellFormedAnswerNeverRaises | Automated_password_security_assessor/assessor.py:76-77 | when every line of the answer has exactly one ':', the breach check does not raise |
| Assessor.RunTotal | Automated_password_security_assessor/assessor.py:95-104 | when the run completes, its total is the length, variety, commonality and breach scores added, and it lies between −150 and 100 |
| Assessor.Tally | Automated_password_security_assessor/assessor.py:102-106 | the loop's total is the sum of the scores, and its items are the non-empty messages as bullets in check order |
| Assessor.AssessPasswordStrength | Automated_password_security_assessor/assessor.py:87-130 | the command raises when the breach check raises; otherwise it reports the total, the score clamped at 0, the rating of the total and the bullets |
| Assessor.TotalOfFour | Automated_password_security_assessor/assessor.py:102-104 | the total of four checks is the sum of their four scores |
| Assessor.ChecksTotal | Automated_password_security_assessor/assessor.py:95-104 | the checks run in the order length, variety, commonality, breach, and the total is their four scores added |
| Assessor.TotalBounds | Automated_password_security_assessor/assessor.py:102-104 | the total lies between −150 and 100, so the displayed score lies between 0 and 100 |
| Assessor.Rate | Automated_password_security_assessor/assessor.py:108-118 | models the rating cascade; RateByCutoffs, RateTop and RateMonotone below state its bands |
| Assessor.RateByCutoffs | Automated_password_security_assessor/assessor.py:108-118 | the rating band is the number of cutoffs 0, 40, 80 and 100 that the total reaches, so the bands partition the integers |
| Assessor.RateTop | Automated_password_security_assessor/assessor.py:117-118 | "Very Strong" exactly for totals of 100 or more |
| Assessor.RateMonotone | Automated_password_security_assessor/assessor.py:108-118 | a higher total never gets a lower rating |
| Assessor.VeryStrongIff | Automated_password_security_assessor/assessor.py:17-118 | "Very Strong" exactly when the password has 16+ characters and all four classes, is not common, and the breach check scores 0. By PwnedZeroIff, a score of 0 means no hit was reported, which includes a service that could not be asked |
| Assessor.BulletsStartWithFirst | Automated_password_security_assessor/assessor.py:102-106 | when the first check gives feedback, the first bullet is that feedback |
| Assessor.Transcript | Automated_password_security_assessor/assessor.py:120-130 | models the console report as its lines; ExcellentNeverEchoed states that the fallback line is never printed |
| Assessor.ExcellentNeverEchoed | Automated_password_security_assessor/assessor.py:120-130 | the length message is always the first recommendation, so the console prints the recommendations and never the "Excellent password!" fallback |
| App.Route | Automated_password_security_assessor/app.py:23-30 | models the routing rule: error box for "DANGER" or "very common", warning box for "API Error", otherwise a recommendation; RoutePartition and RoutedWhereSaid state it |
| App.AlertOf | Automated_password_security_assessor/app.py:25-28 | models the box a message adds; AlertsFromChecks and the message routing lemmas state which messages get one |
| App.Ladder | Automated_password_security_assessor/app.py:33-47 | models the page's rating ladder as the badge and progress of the command-line band; ProgressValues and ProgressMonotone state its values and order |
| App.Bulleted | Automated_password_security_assessor/app.py:51-53 | the recommendation list has one line per kept message, each the message behind a bullet, in order |
| App.PageFor | Automated_password_security_assessor/app.py:14-53 | models what the page shows for a password; RunPage is proved to produce it, and PageAlwaysRecommends and the routing lemmas state its contents |
| App.Gauged | Automated_password_security_assessor/app.py:33-47 | the page's rating cascade picks the badge and progress of the band the command-line report rates the total in, so both front ends use the same thresholds |
| App.Call | Automated_password_security_assessor/app.py:19-21 | calling a checker gives that checker's outcome |
| App.Post | Automated_password_security_assessor/app.py:23-30 | one message adds its error or warning box, or joins the recommendations, as the routing rule says; empty feedback adds nothing |
| App.List | Automated_password_security_assessor/app.py:51-53 | the recommendation list shows each kept message as a bullet, in order |
| App.RunPage | Automated_password_security_assessor/app.py:14-53 | there is no page exactly when the password is empty. Otherwise the page has the boxes of the checks in order, the rating and progress for the sum of the four scores, and the bulleted recommendations. A raising breach check aborts after the boxes of the first three checks |
| App.RoutePartition | Automated_password_security_assessor/app.py:23-30 | every non-empty message is shown once, as a box or as a recommendation, and empty ones are not shown |
| App.RoutedWhereSaid | Automated_password_security_assessor/app.py:23-30 | a message routed to an error box, a warning box or the recommendations ends up there |
| App.AlertsFromChecks | Automated_password_security_assessor/app.py:25-28 | every box shows the message of one of the checks |
| App.RecommendationsInOrder | Automated_password_security_assessor/app.py:29-30 | the recommendations are a subsequence of the checks' feedback, in check order |
| App.RecommendationsAreClean | Automated_password_security_assessor/app.py:25-30 | no recommendation is empty or mentions "DANGER", "very common" or "API Error" |
| App.LengthRecommended | Automated_password_security_assessor/app.py:29-30 | the length message is always a recommendation |
| App.VarietyRecommended | Automated_password_security_assessor/app.py:23-30 | the variety hints are a recommendation, or absent when all classes occur |
| App.CommonalityRouted | Automated_password_security_assessor/app.py:23-26 | the common-password message is an error box, and no penalty shows nothing |
| App.ConnectErrorWarned | Automated_password_security_assessor/app.py:27-28 | the connection-failure message is a warning box |
| App.StatusErrorWarned | Automated_password_security_assessor/app.py:27-28 | the bad-status message is a warning box for every status code |
| App.BreachedInError | Automated_password_security_assessor/app.py:25-26 | the breach message is an error box, whatever count it quotes |
| App.NotBreachedRecommended | Automated_password_security_assessor/app.py:29-30 | the "not found" message is a recommendation |
| App.PwnedRouted | Automated_password_security_assessor/app.py:23-30 | the breach check's message is an error box on a hit, a warning box when the service could not be asked, and a recommendation otherwise |
| App.ProgressValues | Automated_password_security_assessor/app.py:33-47 | the progress value is one of 10, 30, 60, 90 and 100 |
| App.ProgressMonotone | Automated_password_security_assessor/app.py:33-47 | a higher total never shows less progress |
| App.PageAlwaysRecommends | Automated_password_security_assessor/app.py:29-30 | the recommendation list is never empty and starts with the length message |

## Left out

- The SHA-1 digest is not modelled. `hashlib.sha1(...).hexdigest().upper()` is an input: any 40-character upper-case hex string.
- The HTTP request is not modelled. `requests.get` is an input: either no answer (the `RequestException` path) or a status code and a body text.
- The status code is an unbounded integer.
- The common-password list is an input set. Reading `common_passwords.txt`, stripping its lines, and the missing-file fallback to an empty set are not modelled.
- Output is not modelled beyond its content. The console lines are modelled as a list of strings. Streamlit's title, text box, widget order and styling are not modelled; the page is modelled as what it shows.
- The page's fixed headings are not modelled: the title, the introductory line, the "Strength Rating: " prefix of the rating heading (app.py:49) and the "Recommendations:" heading (app.py:51). The modelled screen holds the rating text itself, the progress value and the listed recommendations.
- The page shows boxes while the checks are still running. The model records the boxes shown before an aborting breach check, not their timing.
- CheckCommonality: `str.lower()` folds only the ASCII letters here. Python also folds other Unicode letters, so a non-ASCII password may be judged differently.
- PresentIffMatches: `\d` matches only ASCII digits here. Python's `re` also matches other Unicode decimal digits.
- NonAsciiCountsAsSpecial: holds only with `\d` read as the ASCII digits. In Python a Unicode decimal digit such as U+0663 matches `\d`, so a password of such digits has the digit class and not the special class.
- The federated fingerprint-detection project in the same repository is not modelled. It covers TensorFlow training, floating-point weight averaging, image cropping, plotting, data copying and configuration constants, none of which takes part in password scoring.
- The network reconnaissance scanner and the hash cracker in the same repository are separate tools and are not modelled.
