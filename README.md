# A verified model of a Scrum project-management backend

This project models, in Dafny, the core of a Scrum project-management system. The system has two parts.

- A NestJS service layer covers projects and their members, user stories and tasks, sprints, and the Kanban board. It also covers planning-poker estimation, sprint metrics and burndown, PSP (Personal Software Process) metrics, daily scrums, retrospectives and reviews, repositories with GitHub synchronisation, code-refactoring findings and per-project configuration. Accounts, login, password reset and JWT validation are part of it too.
- Two small Python programs classify feature maps with a trained model. One suggests task assignments and the other rates sprint risk. Two export scripts write their training data as CSV.

The model is arranged by source file.

- Each service is a class. Its database tables are `seq` or `map` fields, and a `Valid()` predicate states the table invariants. Each operation is a `modifies this` method. Its `ensures` clauses give the error cases and the new state.
- The decisions inside the operations are pure functions. Examples are access checks, code generation, vote statistics, board grouping, effort and velocity figures, risk and assignment scoring, URL and reference parsing, and CSV formatting. Lemmas state what the source promises about them.
- Loops in the source are `while` loops with invariants. Each is proved equal to the function that specifies it.

Shared modules:
- `Wrappers` holds `Option` and `Result`.
- `Text` holds trimming, splitting and joining, and decimal numerals.
- `Js` and `Json` hold the loosely typed values of the TypeScript and Python sides.
- `Scrum` holds ids, roles, membership and errors.
- `Collections` holds grouping and ordering.

The clock, random or crypto-derived values, hashes, fresh row ids and the trained classifier are parameters of the operations that use them.

## Model

| member | source | states |
|---|---|---|
| `Collections.Count` | src/estimation/estimation.service.ts:310-313 | A value's occurrence count is at most the length, and is zero exactly when the value does not occur |
| `Collections.Distinct` | src/estimation/estimation.service.ts:288 | `[...new Set(xs)]` holds every value of the input once, with no repetition and nothing else, and is no longer than the input |
| `Collections.SingleDistinctValue` | src/estimation/estimation.service.ts:288-289 | There is one distinct value exactly when the input is non-empty and all its values are equal |
| `Collections.DistinctCountsSumToLength` | src/estimation/estimation.service.ts:306-313 | The counts of the distinct values add up to the number of values |
| `Collections.Tally` | src/estimation/estimation.service.ts:310-313 | The counting `reduce` has a key for exactly the values that occur, each mapped to its number of occurrences |
| `Collections.Without` | src/estimation/estimation.service.ts:291 | The filter keeps exactly the values other than the one removed, and is no longer than the input |
| `Collections.IndexOf` | src/stories/stories.service.ts:60-67 | The position of the first occurrence of a value that occurs |
| `Collections.IndexOfDistinct` | src/stories/stories.service.ts:60-67 | Without repetitions, each value is first found at its own position |
| `Collections.DistinctOfDistinct` | src/stories/stories.service.ts:60-67 | A sequence without repetitions passes through the `Set` unchanged |
| `Collections.DistinctSnoc` | src/stories/stories.service.ts:60-67 | Adding a value to the `Set` appends it exactly when it was not there yet, in insertion order |
| `Collections.Keyed` | src/project-config/project-config.service.ts:82-91 | A key's bucket holds exactly the elements with that key |
| `Collections.GroupByExact` | src/project-config/project-config.service.ts:82-91 | The grouping `reduce` lists each key once. It has a bucket for exactly the listed keys, each holding that key's elements in order and never empty. Every element's key is listed |
| `Collections.GroupByKeys` | src/project-config/project-config.service.ts:82-91 | Every listed key has the bucket of that key's elements, every element's key is listed, and no key is listed twice |
| `Collections.GroupBySortedKeys` | src/estimation/estimation.service.ts:647-664 | Grouping rows already ordered by an integer key lists the keys in strictly increasing order |
| `Collections.SortDesc` | src/github-sync/github-sync.service.ts:374 | `orderBy: 'desc'` keeps exactly the same rows, as often as before, largest key first |
| `Collections.Take` | src/github-sync/github-sync.service.ts:375 | `take: n` is the prefix of length n, or the whole sequence when it is shorter |
| `Collections.Newest` | src/github-sync/github-sync.service.ts:374-375 | Descending order plus `take: n`: at most n of the rows, largest key first, all of them when there are at most n. A row left out is never newer than a row kept |
| `Collections.NewestLeavesOlder` | src/github-sync/github-sync.service.ts:374-375 | A row is left out only from a full page of rows at least as new |
| `Collections.Where` | src/github-sync/github-sync.service.ts:356-373 | The `where` filter keeps exactly the rows with the requested value, as a sub-multiset of the table |
| `Collections.FirstWhere` | src/github-sync/github-sync.service.ts:314-339 | `findFirst`: the first position whose row matches, or the end when none matches |
| `Collections.Page` | src/github-sync/github-sync.service.ts:356-377 | A page of matching rows: at most n, newest first, drawn from the matching rows without repetition beyond theirs, and all of them when they fit. A matching row is left out only from a full page of rows at least as new |
| `Text.Trim` | src/auth/auth.service.ts:185 | JavaScript's `trim`: the middle of the input between its leading and trailing whitespace, starting and ending with a non-space character |
| `Text.TrimIdempotent` | src/auth/auth.service.ts:185-190 | Trimming twice is trimming once |
| `Text.TrimEmptyIffAllSpace` | src/auth/auth.service.ts:185-188 | A string trims to empty exactly when it is all whitespace |
| `Text.TrimKeepsOut` | src/stories/stories.service.ts:48-53 | Trimming never introduces a character |
| `Text.PyStrip` | ml/predict_assignment.py:36 | Python's `strip()`: the middle of the input between its leading and trailing Python whitespace, starting and ending with a character that is not Python whitespace |
| `Text.PyStripEmptyIff` | ml/predict_assignment.py:36-37 | `strip()` leaves nothing exactly when the input is all Python whitespace |
| `Text.PyStripIdempotent` | ml/predict_assignment.py:36 | Stripping twice is stripping once |
| `Text.PyStripIgnoresLeadingSpace` | ml/predict_assignment.py:36 | Python whitespace put in front of a string does not change what `strip()` leaves |
| `Text.Split` | src/stories/stories.service.ts:24 | `split` on one character gives at least one piece, and no piece contains the separator |
| `Text.SplitJoin` | src/stories/stories.service.ts:20-53 | Joining pieces free of the separator and splitting the result gives the pieces back |
| `Text.JoinSplit` | src/stories/stories.service.ts:20-53 | Splitting and joining on the same character gives the string back |
| `Text.NoCharInJoin` | scripts/export-risk-data.ts:28-44 | Joining pieces that lack a character, with another separator, gives a string that lacks it |
| `Text.LinesReadBack` | scripts/export-risk-data.ts:28-44 | Lines without a newline, joined by newlines, split back into the same lines |
| `Text.UpperChar` | src/projects/projects.service.ts:77 | ASCII upper-casing keeps letters letters and leaves no lower-case letter |
| `Text.LowerChar` | src/auth/auth.service.ts:191 | ASCII lower-casing keeps letters letters and leaves no upper-case letter |
| `Text.ToUpper` | src/projects/projects.service.ts:88 | Upper-casing the ASCII letters the code generator keeps maps each character and keeps the length |
| `Text.ToLower` | src/auth/auth.service.ts:191 | ASCII lower-casing: maps each character and keeps the length; non-ASCII letters are left alone (listed under Left out) |
| `Text.ToLowerIdempotent` | src/auth/auth.service.ts:191 | Lower-casing twice is lower-casing once |
| `Text.NatToString` | src/stories/stories.service.ts:120 | `toString` of a number is a non-empty string of digits, without a leading zero unless the number is zero |
| `Text.DigitsValueOfNatToString` | src/stories/stories.service.ts:110-120 | `parseInt` reads back the number `toString` wrote |
| `Text.NatToStringInjective` | src/stories/stories.service.ts:120 | Different numbers are written differently |
| `Text.DigitsValueLeadingZeros` | src/stories/stories.service.ts:110-120 | Leading zeros do not change the value `parseInt` reads |
| `Text.Utf16Length` | src/stories/stories.service.ts:63 | JavaScript's `length`: between one and two code units per character |
| `Text.Utf16LengthCounts` | src/stories/stories.service.ts:63 | The UTF-16 length equals the character count exactly when no character is above U+FFFF, and is twice the count exactly when every character is |
| `Text.Utf16LengthAppend` | src/stories/stories.service.ts:63 | UTF-16 lengths add up over concatenation |
| `Text.PadStart` | src/stories/stories.service.ts:120 | `padStart` reaches the width, or keeps a longer input, by putting the fill character before the unchanged input |
| `Text.Words` | src/projects/projects.service.ts:70 | `trim().split(/\s+/)` always gives at least one word |
| `Text.Runs` | src/projects/projects.service.ts:70 | The words of a string are non-empty and hold no whitespace |
| `Text.DigitRunLength` | src/stories/stories.service.ts:110 | The greedy `\d+` match is all digits and stops at the first non-digit |
| `PredictAssignment.FeaturesToRow` | ml/predict_assignment.py:24-33 | A row exists exactly when every numeric column converts with `float()`; it has seven entries in the trained column order, each numeric entry is the converted value (an absent key reads as 0) and the `isBug` entry is 1.0 exactly when the value is truthy |
| `PredictAssignment.AbsentFeatureIsZero` | ml/predict_assignment.py:26-32 | A feature missing from the map contributes 0.0 to the row |
| `PredictAssignment.EmptyFeaturesGiveZeroRow` | ml/predict_assignment.py:24-33 | The empty feature map is a valid request whose row is seven zeros |
| `PredictAssignment.Prediction` | ml/predict_assignment.py:59-62 | The answer object has exactly the keys `label` and `probability`; the probability is passed through and the label is 1 exactly when it is at least 0.5, else 0 |
| `PredictAssignment.BatchRows` | ml/predict_assignment.py:43-46 | The batch has rows exactly when every element is an object whose row can be built; then there is one row per element, in element order |
| `PredictAssignment.Results` | ml/predict_assignment.py:47-53 | One result per row, in row order, each the thresholded prediction for that row's probability |
| `PredictAssignment.Run` | ml/predict_assignment.py:35-62 | The input is stripped with Python's `strip()` and the stripped text is decoded. Input that strips to nothing answers `{"error": "Empty stdin"}`. Stripped text that does not decode, or decodes to something other than an object, raises. Every run that does not raise writes one JSON object, nothing on stderr, exit status 0 |
| `PredictAssignment.BatchWinsAndKeepsOrder` | ml/predict_assignment.py:43-55 | With `featuresList` present the batch branch runs whatever `features` holds; a successful batch is non-empty and answers `{"results": [...]}` with one prediction per input map, in input order |
| `PredictAssignment.SingleAnswerShape` | ml/predict_assignment.py:56-62 | Without `featuresList`, a successful run had an object under `features` and answers exactly `label` and `probability`, label 1 iff the probability reaches 0.5 |
| `PredictAssignment.NeitherKeyCrashes` | ml/predict_assignment.py:56-57 | A payload with neither key raises on `payload["features"]`: no JSON answer is written |
| `PredictAssignment.LeadingWhitespaceIgnored` | ml/predict_assignment.py:36-41 | Python whitespace in front of the request does not change the run, even characters such as form feed or U+00A0 that `json.loads` itself refuses |
| `PredictRisk.Vector` | ml/predict_risk.py:35-53 | The vector exists exactly when every schema key is present and numeric; it then holds the converted values in schema order; otherwise the error is the one for the first bad key (a missing key before a non-numeric one) |
| `PredictRisk.BuildFeatureVector` | ml/predict_risk.py:35-53 | The loop over the six schema keys computes `Vector`; a vector has six entries |
| `PredictRisk.VectorFirstBad` | ml/predict_risk.py:41-49 | The first missing or non-numeric key decides the error, whatever comes after it |
| `PredictRisk.IndexIn` | ml/predict_risk.py:81 | `list.index`: the first position holding the value |
| `PredictRisk.ArgMax` | ml/predict_risk.py:84 | `np.argmax`: a position of a maximal probability, the first such |
| `PredictRisk.Confidence` | ml/predict_risk.py:76-87 | Without `predict_proba` the confidence is 0.8; with it, the probability at the predicted label's class index, or, for a label outside the classes, the largest probability; a computed confidence is one of the probabilities |
| `PredictRisk.Answer` | ml/predict_risk.py:62-92 | A missing `features` property and a non-object `features` raise their own errors, and an invalid vector raises its first bad key's error. A valid vector answers exactly when its confidence can be computed, and the answer is exactly `{"label", "confidence"}`: the model's label for that vector and the confidence of that label |
| `PredictRisk.Run` | ml/predict_risk.py:56-99 | Every run writes one JSON object on stdout. Status 0 exactly when the input is not blank, decodes, and the payload answers; stdout is then that answer and stderr is empty. Otherwise status 1 with the single-key `{"error": msg}` for the failure (blank input, undecodable input, or the answer's error) and `[predict_risk] ERROR: msg` on stderr |
| `ExportAssignmentData.HeaderStartsWithFeatureOrder` | scripts/export-assignment-data.ts:18-28 | The nine-column header starts with the classifier's seven features, in the classifier's order |
| `ExportAssignmentData.LineValues` | scripts/export-assignment-data.ts:32-46 | A line exists exactly when `features` is not null; it has nine values: the six numeric features as read, `isBug` as a 1/0 flag, `assignedToSuggested` as 1 only when the outcome is truthy and says so, and `wasSuccessful` as 1 only for an explicit true |
| `ExportAssignmentData.Line` | scripts/export-assignment-data.ts:36-46 | A line exists exactly when its values do, and is their texts joined by commas |
| `ExportAssignmentData.Export` | scripts/export-assignment-data.ts:30-51 | The loop writes the header line then one line per row, joined by newlines, or stops when a row has null features |
| `ExportAssignmentData.HeaderReadsBack` | scripts/export-assignment-data.ts:30 | The header line splits back into the nine column names and holds no newline |
| `ExportAssignmentData.LineReadsBack` | scripts/export-assignment-data.ts:36-46 | A line of comma- and newline-free fields splits back into its nine fields |
| `ExportAssignmentData.CsvReadsBack` | scripts/export-assignment-data.ts:30-51 | When every field is plain, the file splits into the header plus one line per row, and each line splits into that row's nine fields in header order |
| `ExportRiskData.HeaderIsFeaturesThenLabel` | scripts/export-risk-data.ts:19-27 | The header is the risk model's six feature keys in schema order followed by `riskLevel` |
| `ExportRiskData.OrEmpty` | scripts/export-risk-data.ts:33-35 | `?? ''`: a null figure exports as the empty text, a present one as its number |
| `ExportRiskData.LineValues` | scripts/export-risk-data.ts:31-40 | Seven values: the three nullable figures, the three factor counts (0 when `factors` is falsy or the count is null) and the risk level's name last |
| `ExportRiskData.Export` | scripts/export-risk-data.ts:28-44 | The loop writes the header line then one line per row, joined by newlines |
| `ExportRiskData.NullsAndMissingFactors` | scripts/export-risk-data.ts:31-40 | A row with no figures and no factors exports three empty fields, three zeros and its risk level |
| `ExportRiskData.LineReadsBack` | scripts/export-risk-data.ts:32-40 | A line of plain fields splits back into its seven fields, the risk level last, and holds no newline |
| `ExportRiskData.CsvReadsBack` | scripts/export-risk-data.ts:28-44 | When every field is plain the file splits into the header plus one line per row, each splitting into that row's fields |
| `Scrum.ActiveMembers` | src/sprint/sprint.service.ts:36-38 | The active members are exactly the team's members with `isActive` |
| `Scrum.ActiveMembersCounts` | src/sprint/sprint.service.ts:36-38 | Each active membership row is kept as often as the team holds it, and nothing else is kept |
| `Scrum.FindMember` | src/sprint/sprint.service.ts:47 | `members.find` finds a member of the list with that user id, and finds one exactly when one exists |
| `Scrum.ActiveRole` | src/sprint/sprint.service.ts:47-54 | The caller has a role exactly when the caller is an active member, and the role is that membership's |
| `Scrum.CheckAccess` | src/sprint/sprint.service.ts:46-54 | Forbidden exactly when the caller is neither the owner nor an active member and the project is PRIVATE. Otherwise the answer carries the ownership, the membership and the active role |
| `Scrum.PublicOrInsiderPasses` | src/sprint/sprint.service.ts:50-52 | The owner, every active member and, on a PUBLIC project, everyone pass the access check |
| `Scrum.VerifyAccess` | src/sprint/sprint.service.ts:32-55 | A missing project is NotFound. Otherwise the access check decides, and the answer carries the caller's active role and ownership |
| `Scrum.RoleImpliesAccess` | src/sprint/sprint.service.ts:148-154 | Every role rule (manager, developer, scrum master, each or the owner) admits only callers that the access check admits and that are the owner or an active member |
| `Scrum.RiskName` | scripts/export-risk-data.ts:39 | A risk level is stored and exported as `LOW`, `MEDIUM` or `HIGH` |
| `Scrum.RiskNameInjective` | scripts/export-risk-data.ts:39 | Different risk levels have different names, so the exported label identifies the level |
| `Backlog.FindStory` | src/stories/stories.service.ts:237-239 | Finds a story of the table with that id, and finds one exactly when the table has one |
| `Backlog.FindTask` | src/kanban/kanban.service.ts:242-259 | Finds a task of the table with that id, and finds one exactly when the table has one |
| `Backlog.SprintById` | src/daily-scrum/daily-scrum.service.ts:20-31 | Finds a sprint of the table with that id, and finds one exactly when the table has one |
| `Backlog.SprintAccess` | src/daily-scrum/daily-scrum.service.ts:19-46 | A missing sprint is NotFound. Otherwise access is granted exactly when the sprint's project passes the read-access check, and the answer is that sprint |
| `Backlog.FoundIds` | src/stories/stories.service.ts:310-313 | The ids found are exactly the requested ids that are stories of the project |
| `Backlog.FoundAllIff` | src/stories/stories.service.ts:314-316 | The count check passes exactly when the ids are distinct and every one is a story of the project |
| `Backlog.SprintStories` | src/sprint/metrics/burndown.service.ts:31 | Exactly the stories planned into the sprint |
| `Backlog.SprintStoriesCounts` | src/sprint/metrics/burndown.service.ts:31 | Each story of the sprint is listed as often as the table holds it, and nothing else is listed |
| `Backlog.StoryTasks` | src/sprint/sprint.service.ts:667-668 | Exactly the tasks of the story |
| `Backlog.StoryTasksCounts` | src/sprint/sprint.service.ts:667-668 | Each task of the story is listed as often as the table holds it, and nothing else is listed |
| `Backlog.TasksOf` | src/sprint/sprint.service.ts:330-334 | Exactly the tasks of the listed stories |
| `Backlog.TasksOfCounts` | src/sprint/sprint.service.ts:330-334 | Each task of a listed story is listed as often as the table holds it, and nothing else is listed |
| `Backlog.ProjectStories` | src/stories/stories.service.ts:168-171 | Exactly the stories of the project |
| `Backlog.ProjectStoriesCounts` | src/stories/stories.service.ts:168-171 | Each story of the project is listed as often as the table holds it, and nothing else is listed |
| `Backlog.TotalEffortAppend` | src/sprint/sprint.service.ts:130-131 | The summed effort of two task lists together is the sum of their summed efforts |
| `Backlog.TotalEffortBounds` | src/sprint/sprint.service.ts:130-131 | With non-negative efforts the sum is non-negative and no task's effort exceeds it |
| `Backlog.AllTasks` | src/sprint/metrics/metrics-calculator.service.ts:101 | Exactly the tasks whose story is one of the given stories |
| `JwtStrategy.Sign` | src/auth/auth.service.ts:56-65 | The token's claims carry the user's id as subject, type `access` and the user's current token version |
| `JwtStrategy.Validate` | src/auth/strategies/jwt-strategy.ts:31-68 | In order: a token of another type and an unknown subject are Unauthorized, a token version other than the stored one (both defaulting to 0) is Unauthorized, a disabled or still-locked user is Forbidden; it accepts exactly when none applies and answers the stored user |
| `JwtStrategy.SignedTokenValidity` | src/auth/strategies/jwt-strategy.ts:31-68 | A freshly signed token is accepted exactly while the stored user keeps that token version, is active and is not locked: bumping the version revokes it |
| `ClientIp.ExtractClientIp` | src/auth/auth.controller.ts:83-92 | A non-empty `x-forwarded-for` string gives its first comma-separated hop, trimmed; a non-empty header list gives its first entry; otherwise the socket address |
| `ClientIp.SingleHeaderGivesTrimmedHop` | src/auth/auth.controller.ts:85-87 | The address taken from a single header holds no comma and no surrounding blanks |
| `ClientIp.LaterHopsIgnored` | src/auth/auth.controller.ts:86 | Whatever follows the first comma plays no part |
| `Accounts.SanitizeForgetsOnlyPassword` | src/auth/auth.service.ts:50-54 | The sanitised view drops the password and nothing else: two rows look alike to a client exactly when they differ only in their password |
| `Accounts.NormalizeEmail` | src/auth/auth.service.ts:126 | A trimmed address with its ASCII capitals lower-cased: no longer than the input and free of ASCII upper-case letters (non-ASCII case mapping is listed under Left out) |
| `Accounts.NormalizeEmailIdempotent` | src/auth/auth.service.ts:126 | Normalising a stored address again changes nothing |
| `Accounts.FindById` | src/users/users.service.ts:55-57 | The lookup by id finds a row holding that id, and finds none exactly when no row holds it |
| `Accounts.FindWhere` | src/auth/auth.service.ts:127-129 | The search behind the lookups: the first row satisfying the condition, or none exactly when no row does |
| `Accounts.FindByEmail` | src/auth/auth.service.ts:127-129 | The lookup by e-mail finds a row holding that address, and finds none exactly when no row holds it |
| `Accounts.OtherActiveAdmins` | src/users/users.service.ts:90-92 | The count of active administrators other than the given user is zero exactly when there are none |
| `Auth.LoginAttempt` | src/auth/auth.service.ts:123-174 | Unknown address: Unauthorized with nothing written. Inactive account, then a live lock: Forbidden with nothing written. Wrong password: the failed attempt is written, and the answer is Forbidden when it reaches the limit, Unauthorized below it. Right password: counters reset, `lastLogin` set, and the token and sanitised row of the updated user are returned |
| `Auth.LockedIgnoresPassword` | src/auth/auth.service.ts:134-136 | While an account is locked the answer does not depend on the password or on the comparison, and nothing is written |
| `Auth.ThirdFailureLocks` | src/auth/auth.service.ts:140-160 | From a clean row, the first two wrong passwords do not lock; the third locks the account for 15 minutes |
| `Auth.ExpiredLockRestartsCount` | src/auth/auth.service.ts:141-144 | A wrong password after an expired lock counts as the first attempt again, without a lock |
| `Auth.LoginTokenIsAccepted` | src/auth/auth.service.ts:165-173 | The token a successful login returns is accepted by the JWT strategy against the table the login wrote |
| `Auth.CountRecent` | src/auth/auth.service.ts:487-499 | A request count never exceeds the log size, and is zero exactly when no logged request matches the key within the window |
| `Auth.CountRecentAppend` | src/auth/auth.service.ts:487-499 | Counting over two logs concatenated is the sum of the counts |
| `Auth.RateLimitIsMonotone` | src/auth/auth.service.ts:478-514 | Logging more requests never lifts a rate limit |
| `Auth.StaleRequestsIgnored` | src/auth/auth.service.ts:484-499 | Requests older than the five-minute window do not affect the limit |
| `Auth.ThreeRecentRequestsLimit` | src/auth/auth.service.ts:502-505 | Three requests for one address within five minutes limit that address |
| `Auth.DropUnused` | src/auth/auth.service.ts:432-434 | Deleting a user's unused tokens keeps exactly the other rows, and can spare one id |
| `Auth.IssueToken` | src/auth/auth.service.ts:402-456 | An inactive user is refused unless inactive users are allowed. A recent unused token refuses: it raises only when asked to. Otherwise the user's unused tokens are deleted and the new row is added. That row holds the hash of the raw token, is unused, and expires 30 minutes after now |
| `Auth.NewResetToken` | src/auth/auth.service.ts:428-445 | The created row belongs to the user and holds the SHA-256 of the raw token. It is unused, created now, and expires 30 minutes later. It records who asked and from where |
| `Auth.IssuedTokenValidUntilExpiry` | src/auth/auth.service.ts:317-343 | Take a token issued with a hash new to the table, for a user who is still present and active. Its raw token validates at every instant up to 30 minutes after issue, and reads as expired afterwards |
| `Auth.IssuedTokenIsTheOnlyUnused` | src/auth/auth.service.ts:432-445 | After a token is issued it is the user's only unused token |
| `Auth.FindByHash` | src/auth/auth.service.ts:324-328 | The lookup by token hash finds a row with that hash, and finds none exactly when no row has it |
| `Auth.CheckResetToken` | src/auth/auth.service.ts:317-343 | An empty token is "required"; a token is valid exactly when its hash is stored, unused and unexpired and its user exists and is active; "used" only for a stored token that was used |
| `Auth.AfterReset` | src/auth/auth.service.ts:365-374 | The reset writes the new hash, clears the failed attempts and the lock, and bumps `tokenVersion`, keeping identity and rights |
| `Auth.ResetTables` | src/auth/auth.service.ts:345-389 | For a non-empty token, a reset succeeds exactly on a valid token and otherwise is BadRequest. On success the user row is reset, the token is marked used and the user's other unused tokens are deleted |
| `Auth.ResetTokenIsSingleUse` | src/auth/auth.service.ts:375-378 | After a reset, the same token reads as "used" from then on |
| `Auth.ResetInvalidatesEarlierTokens` | src/auth/auth.service.ts:372 | After a reset, every access token signed for the user before it is refused by the JWT strategy |
| `Auth.Registered` | src/auth/auth.service.ts:68-83 | The self-signup row: normalised e-mail, hashed password, always active and never an administrator, with no failed attempts, no lock and token version 0 |
| `Auth.RegisteredTokenIsAccepted` | src/auth/auth.service.ts:84 | The token a registration hands back is accepted against the resulting table, which keeps accounts unique |
| `Auth.UniqueAfterIssue` | src/auth/auth.service.ts:432-445 | Issuing a token with a fresh id and hash keeps token ids and hashes unique |
| `Auth.UniqueAfterUse` | src/auth/auth.service.ts:375-385 | Marking a token used and deleting the other unused ones keeps the table unique |
| `Auth.DropUnusedKeepsUnique` | src/auth/auth.service.ts:432-434 | Deleting tokens keeps the table unique |
| `Auth.AuthService.Register` | src/auth/auth.service.ts:68-94 | A clash on e-mail or username is a Conflict with nothing written. Otherwise the row is appended and its token and sanitised view returned |
| `Auth.AuthService.AdminCreateUser` | src/auth/auth.service.ts:96-120 | The same as sign-up, with activity and administrator rights as requested and no token |
| `Auth.AuthService.Login` | src/auth/auth.service.ts:123-174 | Answers what the login attempt answers, and writes back exactly the row it produced |
| `Auth.AuthService.RequestPasswordReset` | src/auth/auth.service.ts:177-238 | Always the generic message; the raw token is echoed only outside production. A non-blank address is logged. A known, active, non-limited user is issued a token exactly when issuing succeeds: the table becomes the issued table, and the raw token is echoed outside production. In every other case the token table is unchanged and no token is echoed |
| `Auth.AuthService.RequestPasswordResetForUser` | src/auth/auth.service.ts:240-315 | An unknown user is NotFound. An inactive one is BadRequest unless allowed, with nothing logged. Otherwise the request is logged. A rate limit, or a recent unused token, is TooManyRequests. Otherwise the token is issued, recording the administrator who asked, and the confirmation is returned, with the preview token outside production |
| `Auth.AuthService.ValidateResetToken` | src/auth/auth.service.ts:317-343 | The answer is the token check on the current tables |
| `Auth.AuthService.ResetPassword` | src/auth/auth.service.ts:345-389 | On success the tables become the reset tables; on failure nothing changes and the failure is returned |
| `Auth.AuthService.Me` | src/auth/auth.service.ts:517-523 | The caller's sanitised row, or NotFound |
| `Users.NewUser` | src/users/users.service.ts:25-37 | The created row: normalised e-mail, hashed password, active and non-administrator unless requested otherwise, no failed attempts, no lock, token version 0 |
| `Users.Updated` | src/users/users.service.ts:68-84 | Given fields overwrite. A given e-mail is normalised. A new password is hashed, clears the lock counters, bumps `tokenVersion` and stamps the change. Reactivation clears the lock counters. Fields left out keep their value |
| `Users.UpdateTable` | src/users/users.service.ts:64-115 | Unknown id: NotFound. On success exactly that row is replaced by its update |
| `Users.RemoveFromTable` | src/users/users.service.ts:117-135 | Unknown id: NotFound. On success exactly that row is removed |
| `Users.UpdateRefusesLastAdmin` | src/users/users.service.ts:86-98 | Demoting or deactivating an administrator is Forbidden exactly when no other active administrator exists |
| `Users.UpdateKeepsAnAdmin` | src/users/users.service.ts:86-98 | An update that succeeds never leaves the system without an active administrator |
| `Users.RemoveKeepsAnAdmin` | src/users/users.service.ts:121-131 | A deletion that succeeds never leaves the system without an active administrator |
| `Users.UpdateKeepsAccountsUnique` | src/users/users.service.ts:100-114 | An update that succeeds keeps ids, e-mails and usernames unique |
| `Users.RemoveKeepsAccountsUnique` | src/users/users.service.ts:117-135 | A deletion that succeeds keeps ids, e-mails and usernames unique |
| `Users.UsersService.Create` | src/users/users.service.ts:25-47 | A clash is a Conflict with nothing written; otherwise the row is appended and returned sanitised |
| `Users.UsersService.FindAll` | src/users/users.service.ts:49-52 | Every row, sanitised, in table order |
| `Users.UsersService.FindOne` | src/users/users.service.ts:54-62 | The sanitised row with that id, or NotFound |
| `Users.UsersService.Update` | src/users/users.service.ts:64-115 | The table becomes the updated table and the row is returned sanitised; on failure nothing changes |
| `Users.UsersService.Remove` | src/users/users.service.ts:117-135 | The table loses the row, which is returned sanitised; on failure nothing changes |
| `Auth.FailedAttempt` | src/auth/auth.service.ts:138-160 | A wrong password changes only the attempt count and the lock. The count restarts at one after an expired lock and otherwise grows by one. The account is locked exactly when the count reaches three, and then for 15 minutes from now |
| `Auth.SuccessfulLogin` | src/auth/auth.service.ts:165-168 | A successful login clears the count and the lock and stamps `lastLogin`, changing nothing else |
| `Auth.IsRateLimited` | src/auth/auth.service.ts:478-514 | A limit needs at least three logged requests. Without an IP and a user, the limit is exactly three recent requests for the address |
| `Projects.FirstLetter` | src/projects/projects.service.ts:75 | A word has no first letter exactly when it holds no ASCII letter; otherwise the answer is an ASCII letter of the word |
| `Projects.WordInitials` | src/projects/projects.service.ts:74-78 | At most one capital per word, all of them capitals; empty exactly when no word holds a letter |
| `Projects.WordInitialsAppend` | src/projects/projects.service.ts:74-78 | The initials of two word lists concatenated are the two lists' initials concatenated |
| `Projects.Letters` | src/projects/projects.service.ts:87 | Stripping the non-letters leaves only ASCII letters, and leaves nothing exactly when the name has no letter |
| `Projects.Take` | src/projects/projects.service.ts:88 | `slice(0, n)`: the first n characters, or the whole string when it is shorter |
| `Projects.Initials` | src/projects/projects.service.ts:70-89 | The initials are one to four characters long |
| `Projects.InitialsAreCapitals` | src/projects/projects.service.ts:77-88 | The initials are upper-case ASCII letters |
| `Projects.UpperLettersAreCapitals` | src/projects/projects.service.ts:88 | Upper-casing a string of ASCII letters yields capitals |
| `Projects.LetterInSomeRun` | src/projects/projects.service.ts:70 | A letter of the name lies in some whitespace-separated word |
| `Projects.NoInitialsMeansPrj` | src/projects/projects.service.ts:84-89 | When no word yields an initial, the name has no letter at all and the initials are `PRJ` |
| `Projects.SuffixedCodeInjective` | src/projects/projects.service.ts:91-111 | Different counters give different codes, and no suffixed code equals the base code |
| `Projects.CollectInitials` | src/projects/projects.service.ts:72-82 | The loop collects the first four word initials, stopping once it has four |
| `Projects.GenerateProjectCode` | src/projects/projects.service.ts:68-115 | The code is not taken. It is `INITIALS-YEAR` when that is free, and otherwise `INITIALS-YEAR-k` for the smallest k ≥ 1 whose code is free |
| `Projects.NextFreeCode` | src/projects/projects.service.ts:100-114 | The counter loop ends on the first free suffixed code, every smaller suffix being taken |
| `Projects.NormalizeOptional` | src/projects/projects.service.ts:117-123 | Absent, or blank after trimming, gives null; otherwise the trimmed, non-empty text |
| `Projects.NormalizeOptionalIdempotent` | src/projects/projects.service.ts:117-123 | Normalising twice is normalising once |
| `Projects.ScheduleCheck` | src/projects/projects.service.ts:228-234 | BadRequest exactly when an end date is given and is not after the start date |
| `Projects.AccessImpliesRead` | src/projects/projects.service.ts:365-369 | Whoever passes the shared project access check may also read the project |
| `Projects.SetRole` | src/projects/projects.service.ts:150 | `assignments.set`: an existing entry for the user is overwritten in place, otherwise one is appended; users stay distinct |
| `Projects.SetRoleKeys` | src/projects/projects.service.ts:150 | After setting, the users are the old ones plus the given one, who has the given role, and every other entry is kept |
| `Projects.CollectStep` | src/projects/projects.service.ts:136-159 | A step fails only with BadRequest (blank id) or Conflict (duplicate id, second product owner) |
| `Projects.CollectFrom` | src/projects/projects.service.ts:136-160 | Collecting from a position fails only with BadRequest or Conflict |
| `Projects.Collect` | src/projects/projects.service.ts:133-160 | A successful pass records every entry under its trimmed id, with the requested owner |
| `Projects.CollectStepFacts` | src/projects/projects.service.ts:136-159 | One accepted entry extends the collected state correctly |
| `Projects.CollectFromFacts` | src/projects/projects.service.ts:136-160 | Accepted entries extend the collected state up to the end of the list |
| `Projects.CollectAcceptsGoodRequests` | src/projects/projects.service.ts:136-160 | A list that collects has no blank id, no duplicate and at most one product owner |
| `Projects.CollectRefusesOnlyBadRequests` | src/projects/projects.service.ts:136-160 | A list is refused only when it has a blank id, a duplicate or two product owners |
| `Projects.RefusedFromIsBad` | src/projects/projects.service.ts:136-160 | A refusal part-way through means the whole list is bad |
| `Projects.BadPrefixIsBad` | src/projects/projects.service.ts:136-160 | A bad prefix makes the whole list bad |
| `Projects.RefusedEntryIsBad` | src/projects/projects.service.ts:138-157 | The entry a step refuses makes the list bad |
| `Projects.CountRole` | src/projects/projects.service.ts:177-179 | The role count is at least one when an entry has the role, and at least two when two do |
| `Projects.Settle` | src/projects/projects.service.ts:162-226 | The owner is the requested or the current one. When the owner may not change, a different requested owner is refused. The owner is set to PRODUCT_OWNER. At most one SCRUM_MASTER. Every member exists, is active and is not locked |
| `Projects.TeamAssignments` | src/projects/projects.service.ts:125-226 | A built team has distinct users and includes its owner; without an owner change the owner is the current one |
| `Projects.TeamAssignmentsWellFormed` | src/projects/projects.service.ts:125-226 | A built team has exactly one PRODUCT_OWNER, its owner. It lists the owner and every requested user with the requested role, except the owner's entry, and nobody else. With an owner change allowed, a requested PRODUCT_OWNER becomes the owner, and without one the owner stays |
| `Projects.SettledTeamIsWellFormed` | src/projects/projects.service.ts:162-226 | Settling a correctly collected list yields a well-formed team |
| `Projects.TeamAssignmentsRefuses` | src/projects/projects.service.ts:136-168 | A blank id, a duplicate or two product owners refuse the list, and so does, when the owner may not change, a product owner other than the current one |
| `Projects.TeamFacts` | src/projects/projects.service.ts:162-220 | The facts behind a well-formed team: the owner is the only PRODUCT_OWNER and the users are the owner and the requested ones |
| `Projects.CollectMembers` | src/projects/projects.service.ts:133-160 | The loop over the request computes the collected state or the first refusal |
| `Projects.SettleTeam` | src/projects/projects.service.ts:162-226 | The owner, role-count and eligibility checks compute the settled team or the refusal |
| `Projects.BuildTeamAssignments` | src/projects/projects.service.ts:125-226 | `buildTeamAssignments` computes the team assignments or the refusal |
| `Projects.Upsert` | src/projects/projects.service.ts:508-525 | Upserting a member row makes it active with the given role and keeps the other users' rows |
| `Projects.UpsertAll` | src/projects/projects.service.ts:507-526 | Upserting every assignment keeps member rows distinct per user |
| `Projects.KeptRows` | src/projects/projects.service.ts:500-505 | `deleteMany notIn`: keeps exactly the rows whose user is in the team |
| `Projects.ReplaceTeam` | src/projects/projects.service.ts:495-527 | Replacing the member rows keeps them distinct per user |
| `Projects.UpsertAllPending` | src/projects/projects.service.ts:507-526 | After the upserts every team entry has its active row, and every row belongs to the team or to a pending user |
| `Projects.UpsertStep` | src/projects/projects.service.ts:508-525 | One upsert preserves that invariant |
| `Projects.ReplaceTeamIsTheTeam` | src/projects/projects.service.ts:495-527 | After the replacement the member rows are exactly the team: each assignment active with its role, and no one else |
| `Projects.ReplaceMembers` | src/projects/projects.service.ts:495-527 | The delete-then-upsert loop computes the replacement |
| `Projects.UpdatedRow` | src/projects/projects.service.ts:434-467 | An update never changes the id, the code, the owner (set separately) or the archive date |
| `Projects.UpdateCheck` | src/projects/projects.service.ts:397-432 | The update passes exactly when the caller is an administrator or the owner, and the schedule is valid. A team list further requires the owner. A non-zero sprint duration must be 1..4. Anyone else is Forbidden |
| `Projects.NewRow` | src/projects/projects.service.ts:254-305 | The created row: trimmed name, visibility PRIVATE, status PLANNING and the default sprint duration unless given, a normalised definition of done, the creator as owner, not archived |
| `Projects.ProjectsService.Create` | src/projects/projects.service.ts:236-326 | An unknown creator is NotFound, an inactive one Forbidden, and a taken name a Conflict. Then an invalid schedule, and then a failing team check, return that check's error. Nothing is written on failure. Creation succeeds exactly when all of these pass. The code is then the base code when free, else the suffixed code with the least free counter. The row and its team (the creator as PRODUCT_OWNER) are stored |
| `Projects.ProjectsService.FindAll` | src/projects/projects.service.ts:328-347 | The projects listed are exactly those the caller may read |
| `Projects.ProjectsService.FindOne` | src/projects/projects.service.ts:349-376 | Unknown id: NotFound. Readable: the row. Otherwise Forbidden |
| `Projects.ProjectsService.Update` | src/projects/projects.service.ts:378-536 | Unknown id: NotFound. A failed check returns its failure with nothing written. A new name that another project already holds violates the unique `name` column: Conflict, with nothing written. Otherwise the row is updated, and with a team list the owner may move and the member rows are replaced by the team. Project names stay unique |
| `Projects.ProjectsService.Write` | src/projects/projects.service.ts:486-491 | The transaction writes the project row and its member rows; nothing else changes, and ids and names stay unique |
| `Projects.ProjectsService.Remove` | src/projects/projects.service.ts:690-723 | Unknown id: NotFound. Neither administrator nor owner: Forbidden. Otherwise the project is archived at `now` and nothing else changes |
| `Projects.ProjectsService.FindUserProjects` | src/projects/projects.service.ts:725-733 | Lists exactly the projects the user owns or has a member row in, active or not |
| `Projects.NextOwner` | src/projects/projects.service.ts:162-173 | Without permission to change the owner, the current owner stays. With it, the named Product Owner takes over, or the current owner stays when none is named |
| `Estimation.DefaultSequence` | src/estimation/estimation.service.ts:17-28 | Every default deck has at least seven distinct cards and ends with `?`, which appears only there; any method without a deck of its own gets the Fibonacci deck |
| `Estimation.NewSession` | src/estimation/estimation.service.ts:72-169 | A caller who is neither owner nor active member is Forbidden. The session is created exactly when the caller is the owner or a SCRUM_MASTER and the story belongs to the project. It starts as a DRAFT, unrevealed, moderated by the caller, with the custom sequence when one is given and the method's default deck otherwise |
| `Estimation.CastVote` | src/estimation/estimation.service.ts:171-247 | A CLOSED session refuses with BadRequest. A vote is accepted exactly when the session is open, the voter is the owner or an active member, the value is in the sequence and the voter has not voted in that round. The first vote moves a DRAFT to ACTIVE and stamps the start |
| `Estimation.VoteActivatesDraft` | src/estimation/estimation.service.ts:228-236 | After an accepted vote the session is ACTIVE, and an ACTIVE session is left unchanged |
| `Estimation.RoundValues` | src/estimation/estimation.service.ts:261-287 | The values of a round are exactly the values of that session's votes in that round |
| `Estimation.RoundStatistics` | src/estimation/estimation.service.ts:286-314 | Total votes is the vote count, and there are never more unique values than votes. Consensus: all votes equal. Numeric consensus: the non-`?` votes are non-empty and all equal. The distribution counts each value voted and only those |
| `Estimation.DistributionSumsToTotal` | src/estimation/estimation.service.ts:286-314 | The distribution's counts sum to the total, and its keys are the unique values |
| `Estimation.ConsensusIsNumericUnlessUnknown` | src/estimation/estimation.service.ts:289-292 | A consensus on a card other than `?` is also a numeric consensus |
| `Estimation.Reveal` | src/estimation/estimation.service.ts:249-317 | Revealing a round without votes is BadRequest; otherwise the session is marked revealed and the round's statistics returned |
| `Estimation.MaxRound` | src/estimation/estimation.service.ts:335-339 | The highest round voted in the session, or none exactly when the session has no vote |
| `Estimation.ExpectedRound` | src/estimation/estimation.service.ts:340 | With no votes the next round is 2. Otherwise it is one more than the highest round, which is above every round voted |
| `Estimation.NewRound` | src/estimation/estimation.service.ts:319-364 | An unrevealed session refuses. A new round starts exactly when the session is revealed and the number is the expected one, and then it hides the votes and moves to that round |
| `Estimation.Finalize` | src/estimation/estimation.service.ts:366-449 | Finalising succeeds exactly when the session is not CLOSED and the estimate is a card of the sequence; it closes the session with the estimate and the completion time |
| `Estimation.ClosedIsFinal` | src/estimation/estimation.service.ts:185-187 | A CLOSED session accepts neither votes nor another finalisation |
| `Estimation.VisibleVotes` | src/estimation/estimation.service.ts:451-572 | Before the reveal no vote is shown. After it, exactly the current round's votes of the session are shown |
| `Estimation.RoundVotes` | src/estimation/estimation.service.ts:261-276 | Exactly the votes of the session in that round |
| `Estimation.EstimationService.ModeratorCheck` | src/estimation/estimation.service.ts:53-65 | Passes exactly when the session exists and the caller is its moderator |
| `Estimation.EstimationService.CreateSession` | src/estimation/estimation.service.ts:72-169 | Answers what session creation decides and stores the session only on success |
| `Estimation.EstimationService.SubmitVote` | src/estimation/estimation.service.ts:171-247 | Unknown session: NotFound. A refused vote changes nothing. An accepted vote is appended and the session takes its new status |
| `Estimation.EstimationService.RevealVotes` | src/estimation/estimation.service.ts:249-317 | Only the moderator may reveal. A round without votes changes nothing. Otherwise the session is marked revealed and the statistics returned |
| `Estimation.EstimationService.StartNewRound` | src/estimation/estimation.service.ts:319-364 | Only the moderator may start a round; the session changes only when the round is accepted |
| `Estimation.EstimationService.FinalizeEstimation` | src/estimation/estimation.service.ts:366-449 | Only the moderator may finalise. A refusal or a missing story changes nothing. Otherwise the session closes and the story's `estimateHours` becomes the given hours |
| `Estimation.EstimationService.SessionVotes` | src/estimation/estimation.service.ts:451-572 | Unknown session: NotFound. Outsiders are Forbidden. Members see the visible votes and whether they voted in the current round |
| `Estimation.SessionVoteRows` | src/estimation/estimation.service.ts:631-632 | Exactly the votes of the session |
| `Estimation.VoteValues` | src/estimation/estimation.service.ts:665 | The cards of the votes, position by position |
| `Estimation.HistoryRounds` | src/estimation/estimation.service.ts:647-681 | One entry per round key, and each entry's vote total is the number of its votes |
| `Estimation.HistoryRoundsIncrease` | src/estimation/estimation.service.ts:631-664 | The history lists rounds in strictly increasing round order, so no round appears twice |
| `Estimation.HistoryRoundsExact` | src/estimation/estimation.service.ts:647-667 | Each entry is non-empty and holds exactly the session's votes of its round |
| `Estimation.HistoryRoundsComplete` | src/estimation/estimation.service.ts:647-664 | Every round in which the session has a vote has an entry |
| `Estimation.VotesConsensus` | src/estimation/estimation.service.ts:665-677 | A list of votes shows consensus exactly when it is non-empty and all its cards are equal. Its distribution's counts sum to the number of votes |
| `Estimation.HistoryConsensus` | src/estimation/estimation.service.ts:670-673 | A history round shows consensus exactly when all its cards are equal |
| `Estimation.EstimationService.MemberCheck` | src/estimation/estimation.service.ts:30-51 | Passes exactly when the project exists and the caller owns it or is an active member. Otherwise it answers Forbidden |
| `Estimation.EstimationService.ListProjectSessions` | src/estimation/estimation.service.ts:574-616 | Outsiders are Forbidden. A member gets exactly the project's sessions, each with the number of votes cast in it |
| `Estimation.EstimationService.GetVotingHistory` | src/estimation/estimation.service.ts:618-689 | Unknown session: NotFound. Outsiders: Forbidden. A member gets the session's status and its rounds, with the number of rounds |
| `Stories.Trims` | src/stories/stories.service.ts:51 | Trimming each item keeps the item count |
| `Stories.TrimsAt` | src/stories/stories.service.ts:51 | Item k of the trimmed list is item k trimmed |
| `Stories.TrimsSnoc` | src/stories/stories.service.ts:51 | Trimming a list with one more item appends that item trimmed |
| `Stories.TrimsAreTrimmed` | src/stories/stories.service.ts:51 | Every trimmed item is its own trim |
| `Stories.TrimmedItems` | src/stories/stories.service.ts:50-52 | The kept items are exactly the non-empty trimmed ones, never more than the input |
| `Stories.TrimmedItemsOfTrimmed` | src/stories/stories.service.ts:50-52 | A list of non-empty trimmed items is kept as it is |
| `Stories.SerializeAcceptance` | src/stories/stories.service.ts:22-26 | A story without stored criteria serialises to the empty list |
| `Stories.JoinNonEmpty` | src/stories/stories.service.ts:53 | Joining a list whose first item is non-empty gives a non-empty text |
| `Stories.NormalizeAcceptanceEmptyIff` | src/stories/stories.service.ts:182-187 | The stored criteria are empty, and creation refused, exactly when every item is blank |
| `Stories.AcceptanceRoundTrip` | src/stories/stories.service.ts:22-26 | When no item holds a newline, serialising the stored criteria gives back exactly the trimmed non-empty items, in order |
| `Stories.ItemsLackNewline` | src/stories/stories.service.ts:50-52 | Kept items hold no newline when the input items hold none |
| `Stories.ItemsAreTrimmed` | src/stories/stories.service.ts:50-52 | Every kept item is non-empty and its own trim |
| `Stories.TagCandidates` | src/stories/stories.service.ts:61-66 | The candidates are exactly the trimmed tags whose UTF-16 length is 1 to 40 |
| `Stories.NormalizedTags` | src/stories/stories.service.ts:56-68 | The normalised tags have no duplicates and are exactly the trimmed tags whose UTF-16 length is 1 to 40 |
| `Stories.NormalizeTags` | src/stories/stories.service.ts:56-68 | The loop computes the normalised tags: first occurrences, in order, with the length measured in UTF-16 code units |
| `Stories.NormalizeStep` | src/stories/stories.service.ts:61-66 | One step of the loop adds the trimmed tag when it is kept and new, and nothing otherwise |
| `Stories.TagCandidatesSnoc` | src/stories/stories.service.ts:61-66 | One more tag adds its trimmed form to the candidates exactly when it is kept |
| `Stories.BmpTagLimit` | src/stories/stories.service.ts:63 | For a tag with no character above U+FFFF, the limit is 1 to 40 characters, in both directions |
| `Stories.AstralTagLimit` | src/stories/stories.service.ts:63 | For a tag made only of characters above U+FFFF, such as emoji, the limit is 1 to 20 characters, in both directions: 21 emoji are 42 code units and are dropped |
| `Stories.CandidatesOfKept` | src/stories/stories.service.ts:61-66 | A list of already trimmed, kept tags is its own candidate list |
| `Stories.AllKeptSnoc` | src/stories/stories.service.ts:61-66 | The last tag of a kept, trimmed list is kept and trimmed, and so is the rest of the list |
| `Stories.KeptCandidateSnoc` | src/stories/stories.service.ts:61-66 | Appending a kept, trimmed tag to a list that is its own candidate list keeps that property |
| `Stories.NormalizedTagsIdempotent` | src/stories/stories.service.ts:56-68 | Normalising tags twice is normalising once |
| `Stories.TagChanges` | src/stories/stories.service.ts:137-164 | Removing the first set and adding the second leaves exactly the requested tags. Only current tags are removed, only new tags are added, and no requested tag is removed |
| `Stories.UsDigits` | src/stories/stories.service.ts:111 | The digits after the first `US-` followed by a digit. There is an answer exactly when the code holds such a match, and it is a non-empty run of digits |
| `Stories.UsAtShift` | src/stories/stories.service.ts:111 | A match is at the first position or in the rest of the code |
| `Stories.UsNumber` | src/stories/stories.service.ts:111-113 | A code has a number exactly when it matches `US-(\d+)` |
| `Stories.MaxUsNumber` | src/stories/stories.service.ts:109-118 | The maximum is at least every number found, and is 0 or one of them |
| `Stories.GenerateCode` | src/stories/stories.service.ts:101-121 | The loop yields the code of one more than the maximum number |
| `Stories.PadIsZeros` | src/stories/stories.service.ts:120 | `padStart(3, '0')` only prepends zeros |
| `Stories.UsDigitsOfCode` | src/stories/stories.service.ts:111-120 | A generated code matches with exactly its digits |
| `Stories.CodeReadsBack` | src/stories/stories.service.ts:111-120 | The number read back from the code of n is n |
| `Stories.FreshAbove` | src/stories/stories.service.ts:109-120 | The code of one more than a bound on every number is not among the codes |
| `Stories.ProjectCodes` | src/stories/stories.service.ts:105-108 | The codes read are exactly the codes of the project's stories |
| `Stories.NextRank` | src/stories/stories.service.ts:192-196 | The next rank is above every rank of the project, 1 for a project without stories, and otherwise one more than some story's rank |
| `Stories.SetRank` | src/stories/stories.service.ts:322-328 | One update gives the story with that id the rank as priority and order rank and leaves the other rows alone |
| `Stories.RankStep` | src/stories/stories.service.ts:319-329 | One iteration of the loop ranks the next listed story |
| `Stories.ReorderDone` | src/stories/stories.service.ts:319-330 | After the loop, the story at position i of the list has priority and order rank i+1, and the rest are unchanged |
| `Stories.NextCodeIsFresh` | src/stories/stories.service.ts:101-121 | The generated code is not used by any story of the project |
| `Stories.Draft` | src/stories/stories.service.ts:190-213 | The created row has the next code and the next rank of the project and the normalised criteria. The request's fields are copied, and the defaults are business value 0, estimate 0 and status BACKLOG |
| `Stories.StoryAt` | src/stories/stories.service.ts:237-239 | The position of the story with that id in that project, and none exactly when there is no such story |
| `Stories.Edited` | src/stories/stories.service.ts:244-281 | Given fields replace the stored ones, the criteria in normalised form. Id, project, code, order rank and sprint never change |
| `Stories.StoriesService.OwnerCheck` | src/stories/stories.service.ts:70-83 | Passes exactly when the project exists and the caller owns it; a missing project is NotFound |
| `Stories.StoriesService.Create` | src/stories/stories.service.ts:176-228 | Succeeds exactly for the owner with non-blank criteria. On success the draft row is appended and the normalised tags recorded; otherwise nothing changes |
| `Stories.StoriesService.Update` | src/stories/stories.service.ts:230-302 | Only the owner, only a story of the project, and never blank criteria; otherwise nothing changes. On success the row is edited in place and a given tag list replaces the tags |
| `Stories.StoriesService.UpdateTags` | src/stories/stories.service.ts:137-164 | The story's tags become exactly the requested set |
| `Stories.StoriesService.Reorder` | src/stories/stories.service.ts:304-333 | Succeeds exactly for the owner with a list of distinct stories of the project. On success the story at position i has priority and order rank i+1 and every other row is unchanged; otherwise nothing changes |
| `Stories.StoriesService.MemberCheck` | src/stories/stories.service.ts:85-99 | Passes exactly when the project exists and the caller owns it or is an active member. Otherwise it answers Forbidden, even for a missing project |
| `Stories.StoriesService.FindAll` | src/stories/stories.service.ts:166-174 | Outsiders are Forbidden. A member gets exactly the project's stories |
| `Sprints.FindSprint` | src/sprint/sprint.service.ts:214-220 | Finds a sprint with that id in that project, and finds one exactly when the table has one |
| `Sprints.SprintIds` | src/sprint/sprint.service.ts:680-682 | The ids of the sprint rows, position by position |
| `Sprints.ActiveCount` | src/sprint/sprint.service.ts:677-688 | Counts no more than the rows. It is zero exactly when none of the project's sprints is IN_PROGRESS |
| `Sprints.SetSprintStatus` | src/sprint/sprint.service.ts:692-696 | The sprint with that id takes the new status. Every other row is unchanged, and no row is added or lost |
| `Sprints.MoveStories` | src/sprint/sprint.service.ts:273-281 | The listed stories take the new sprint, or none. Every other story is unchanged |
| `Sprints.DropTasksOf` | src/sprint/sprint.service.ts:331-335 | Keeps exactly the tasks whose story is not listed |
| `Sprints.StoryTasksAppend` | src/sprint/sprint.service.ts:284-290 | The tasks of a story in two tables together are its tasks in the first followed by its tasks in the second |
| `Sprints.TaskCode` | src/sprint/sprint.service.ts:293 | A task code starts with `T-`, then the story code and a dash, then the number |
| `Sprints.TaskCodeInjective` | src/sprint/sprint.service.ts:398 | Two task numbers that give the same code for one story are equal |
| `Sprints.TaskDescription` | src/sprint/sprint.service.ts:300 | A non-empty story description is used as is; otherwise `Implementar: ` followed by the story's iWant |
| `Sprints.AutoTask` | src/sprint/sprint.service.ts:295-304 | The automatic task belongs to the story and is numbered 1. It is TODO, unassigned, and takes the story's title, its estimate as effort, and the default description |
| `Sprints.OwnTask` | src/sprint/sprint.service.ts:284-305 | At most one task is created for a story: the automatic one, exactly when the story is listed, belongs to the project and has no task yet |
| `Sprints.StoryTasksOfOwn` | src/sprint/sprint.service.ts:284-305 | The task created for a story belongs to that story and to no other |
| `Sprints.AutoTasksAvoid` | src/sprint/sprint.service.ts:284-305 | A story that is not in the loop gets no created task |
| `Sprints.AutoTasksOfLast` | src/sprint/sprint.service.ts:284-305 | The last story of the loop gets exactly its own created task |
| `Sprints.AutoTasksOfStory` | src/sprint/sprint.service.ts:284-305 | Each story of the loop gets exactly its own created task, whatever its position |
| `Sprints.AddedStoryGetsOneTask` | src/sprint/sprint.service.ts:283-305 | After adding stories to a sprint, a story that had no task has exactly one: numbered 1, TODO, with the story's estimate as effort. A story that had tasks keeps exactly those tasks |
| `Sprints.CreateSprintCheck` | src/sprint/sprint.service.ts:148-172 | Creation passes exactly when the project exists and the caller is owner, SCRUM_MASTER or PRODUCT_OWNER, the number is free in the project and the duration is 1 to 4 weeks. A non-manager is Forbidden |
| `Sprints.PlannedSprintCheck` | src/sprint/sprint.service.ts:207-224 | Passes exactly when the role rule holds, the sprint is in the project and the sprint is PLANNED. Manager rule: owner, SCRUM_MASTER or PRODUCT_OWNER. Developer rule: owner or DEVELOPER. The answer is that sprint. A sprint that is not PLANNED is refused |
| `Sprints.FindSprintStory` | src/sprint/sprint.service.ts:381-394 | Finds the story with that id in that project and sprint, and finds one exactly when the table has one |
| `Sprints.FindSprintTask` | src/sprint/sprint.service.ts:476-487 | Finds the task with that id whose story is in the sprint, and finds one exactly when the table has one |
| `Sprints.CreateTaskCheck` | src/sprint/sprint.service.ts:353-413 | Creation passes exactly when the developer rule and the PLANNED sprint pass, the story is in the sprint, and any assignee is the owner or an active member. The answer is that story |
| `Sprints.UpdateTaskCheck` | src/sprint/sprint.service.ts:449-503 | Editing passes exactly when the developer rule and the PLANNED sprint pass, the task is in the sprint, and any assignee is the owner or an active member |
| `Sprints.DeleteTaskCheck` | src/sprint/sprint.service.ts:585-623 | Deleting passes exactly when the developer rule and the PLANNED sprint pass and the task is in the sprint |
| `Sprints.OnlyPlannedSprintsChange` | src/sprint/sprint.service.ts:222-224 | A sprint that is not PLANNED can be neither edited nor have tasks created, edited or deleted in it |
| `Sprints.Untasked` | src/sprint/sprint.service.ts:668 | Exactly the stories that have no task |
| `Sprints.StartCheck` | src/sprint/sprint.service.ts:635-689 | Starting passes exactly when all of these hold: the caller is owner or SCRUM_MASTER; the sprint is in the project and PLANNED; it has at least one story; each of its stories has a task; no sprint of the project is under way |
| `Sprints.StartStories` | src/sprint/sprint.service.ts:708-712 | The sprint's stories become IN_PROGRESS and every other story is unchanged |
| `Sprints.SprintStoryIds` | src/sprint/sprint.service.ts:708 | Exactly the ids of the stories in the sprint |
| `Sprints.ResetTasks` | src/sprint/sprint.service.ts:699-705 | The tasks of the listed stories go back to TODO and every other task is unchanged |
| `Sprints.StartKeepsOneActive` | src/sprint/sprint.service.ts:677-696 | Starting a sprint when none of the project's sprints is under way leaves exactly one under way, and no project with two |
| `Sprints.ActiveCountSingle` | src/sprint/sprint.service.ts:677-682 | A project with exactly one sprint under way counts one |
| `Sprints.NewSprint` | src/sprint/sprint.service.ts:174-187 | The new sprint is PLANNED, without velocity, and carries the request's number, name, goal, dates, duration and capacity |
| `Sprints.EditSprint` | src/sprint/sprint.service.ts:226-238 | An edit keeps the id, project, number, status and velocity. Each field given in the request replaces the stored one |
| `Sprints.EditSprints` | src/sprint/sprint.service.ts:235-238 | Only the row with that id is edited |
| `Sprints.NewTask` | src/sprint/sprint.service.ts:396-419 | A new task is TODO, never reopened, neither started nor completed. Its number follows the story's task count, and it carries the request's fields |
| `Sprints.NextTaskCodeIsFresh` | src/sprint/sprint.service.ts:396-398 | When a story's tasks are numbered 1 to n in order, the next code is not used by any of them |
| `Sprints.EditTask` | src/sprint/sprint.service.ts:505-507 | An edit keeps the id, story, code, status, reopen count, timestamps and bug flag. Each field given in the request replaces the stored one |
| `Sprints.EditTasks` | src/sprint/sprint.service.ts:505-507 | Only the row with that id is edited |
| `Sprints.DropTask` | src/sprint/sprint.service.ts:625-627 | Keeps exactly the tasks with another id |
| `Sprints.AddStoriesCheck` | src/sprint/sprint.service.ts:244-270 | Adding passes exactly when the caller has access, the sprint is in the project, and every listed id is a distinct story of the project |
| `Sprints.RemoveStoriesCheck` | src/sprint/sprint.service.ts:314-328 | Removing passes exactly when the caller has access and the sprint is in the project |
| `Sprints.RemovedStoriesAreBare` | src/sprint/sprint.service.ts:330-345 | After removal a listed story has no task left and no sprint. An unlisted story keeps its tasks |
| `Sprints.DropTasksOfStory` | src/sprint/sprint.service.ts:331-335 | Dropping the tasks of the listed stories empties exactly those stories' task lists |
| `Sprints.SprintKeysKept` | src/sprint/sprint.service.ts:235-238 | Rewriting rows without changing id, project or number keeps both unique keys |
| `Sprints.AppendPlannedSprint` | src/sprint/sprint.service.ts:156-187 | Appending a PLANNED sprint with a fresh id and a free number keeps the unique keys and the one-sprint-under-way rule |
| `Sprints.ProjectSprints` | src/sprint/sprint.service.ts:63-86 | Exactly the project's sprints |
| `Sprints.SprintService.constructor` | src/sprint/sprint.service.ts:19 | Starts with the given projects and stories and no sprints or tasks |
| `Sprints.SprintService.AddStories` | src/sprint/sprint.service.ts:244-309 | A refusal changes nothing and reports the check's failure. On success the stories move to the sprint and the missing tasks are appended; projects and sprints do not change |
| `Sprints.SprintService.CreateSprint` | src/sprint/sprint.service.ts:143-196 | A refusal changes nothing. Otherwise the PLANNED sprint is appended, and the listed stories are added to it |
| `Sprints.SprintService.UpdateSprint` | src/sprint/sprint.service.ts:201-239 | Only a PLANNED sprint that the caller may manage is edited; a refusal changes nothing |
| `Sprints.SprintService.RemoveStories` | src/sprint/sprint.service.ts:314-348 | A refusal changes nothing. Otherwise the listed stories lose their tasks and their sprint |
| `Sprints.SprintService.CreateTask` | src/sprint/sprint.service.ts:353-446 | A refusal changes nothing. Otherwise the new task, numbered after the story's tasks, is appended |
| `Sprints.SprintService.UpdateTask` | src/sprint/sprint.service.ts:449-530 | A refusal changes nothing. Otherwise the task is edited |
| `Sprints.SprintService.DeleteTask` | src/sprint/sprint.service.ts:585-630 | A refusal changes nothing. Otherwise the task is removed |
| `Sprints.SprintService.StartSprint` | src/sprint/sprint.service.ts:635-720 | A refusal changes nothing. Otherwise the sprint is IN_PROGRESS, its stories are IN_PROGRESS and their tasks TODO, and it is the project's only sprint under way |
| `Sprints.SprintService.GetProjectSprints` | src/sprint/sprint.service.ts:60-89 | A refused caller gets the access failure. Otherwise the answer is exactly the project's sprints |
| `Sprints.SprintService.GetAvailableStories` | src/sprint/sprint.service.ts:723-745 | A refused caller gets the access failure. Otherwise the answer is every story of the project, whatever its sprint or estimate |
| `Sprints.SprintService.GetSprintById` | src/sprint/sprint.service.ts:94-138 | A refused caller gets the access failure, and a sprint outside the project is NotFound. Otherwise the answer is the sprint with exactly its stories, their tasks, and the sum of those tasks' effort |
| `Sprints.CreateMissingTasks` | src/sprint/sprint.service.ts:284-305 | The loop creates exactly the automatic tasks of the stories that have none |
| `Sprints.AddStep` | src/sprint/sprint.service.ts:284-305 | At each step of the loop the current story still has exactly the tasks it had before the loop, and the step adds only its own task |
| `Kanban.BoardTasks` | src/kanban/kanban.service.ts:58-88 | Exactly the tasks whose story is in the sprint and whose status is a board column (not CANCELLED) |
| `Kanban.WithStatus` | src/kanban/kanban.service.ts:91-96 | Exactly the tasks with that status |
| `Kanban.GroupPartitions` | src/kanban/kanban.service.ts:91-96 | When every task is in a board column, the four columns together hold exactly the tasks: none lost, none doubled |
| `Kanban.BagCons` | src/kanban/kanban.service.ts:91-96 | A list's bag is its first element plus the bag of the rest |
| `Kanban.GroupCons` | src/kanban/kanban.service.ts:91-96 | Grouping a list puts its first task in its column and groups the rest |
| `Kanban.WithStatusCons` | src/kanban/kanban.service.ts:91-96 | Filtering by status keeps the first task exactly when it has that status |
| `Kanban.BoardColumns` | src/kanban/kanban.service.ts:58-96 | The board's columns hold exactly the sprint's board tasks, and never a CANCELLED one |
| `Kanban.ActiveSprint` | src/kanban/kanban.service.ts:45-55 | Finds a sprint under way exactly when the project has one; it is the latest to start |
| `Kanban.ActiveSprintIsTheRunningOne` | src/kanban/kanban.service.ts:45-55 | While at most one sprint per project is under way, the board shows that sprint |
| `Kanban.GetBoard` | src/kanban/kanban.service.ts:19-125 | A board is given exactly when the caller has access and a sprint is under way. It shows that sprint, the active members, and columns holding exactly the sprint's board tasks |
| `Kanban.GetBoardBySprint` | src/kanban/kanban.service.ts:127-233 | A board is given exactly when the caller has access and the sprint is in the project. It shows that sprint, the active members, and columns holding exactly its board tasks |
| `Kanban.TaskInProject` | src/kanban/kanban.service.ts:242-259 | Finds the task and its story exactly when the task exists and its story is in the project; otherwise NotFound |
| `Kanban.MoveCheck` | src/kanban/kanban.service.ts:242-285 | A move passes exactly when the task is in the project and the caller is owner or active member. A move to TESTING or DONE also needs an assignee, stored or given, and acceptance criteria on the story. An outsider is Forbidden |
| `Kanban.Moved` | src/kanban/kanban.service.ts:287-323 | A move keeps the task's identity and content and takes the new status. A missing `assignedToId` keeps the assignee, an explicit `null` clears it, and an id replaces it. Leaving DONE counts one more reopening. The start stamp is set once, on the first TODO to IN_PROGRESS move, and the completion stamp changes only on entering or leaving DONE |
| `Kanban.GivenAssignee` | src/kanban/kanban.service.ts:270-273 | The guard sees an assignee in the request only when the request names one; `null` and a missing field give none |
| `Kanban.UnassignedCompletionSkipsPsp` | src/kanban/kanban.service.ts:273-296 | Completing an assigned task with `assignedToId: null` passes the guard, stores a DONE task with no assignee, and recalculates no PSP row |
| `Kanban.MovedKeepsCompletion` | src/kanban/kanban.service.ts:299-307 | A task is DONE exactly when it has a completion stamp, before and after any move. A task entering DONE is stamped now, and one already DONE keeps its stamp |
| `Kanban.MovedKeepsStampsOrdered` | src/kanban/kanban.service.ts:299-321 | No stamp lies in the future after a move |
| `Kanban.MovedInPlace` | src/kanban/kanban.service.ts:287-323 | Moving a task to its own status without a new assignee leaves it unchanged |
| `Kanban.ReopenThenComplete` | src/kanban/kanban.service.ts:299-321 | Reopening a DONE task and completing it again counts one reopening and stamps the second completion |
| `Kanban.ReplaceTask` | src/kanban/kanban.service.ts:315-318 | Only the row with the task's id is replaced |
| `Kanban.ReplaceTaskKeepsIds` | src/kanban/kanban.service.ts:315-318 | Replacing a row keeps the table's ids |
| `Kanban.CountDoneReplace` | src/kanban/kanban.service.ts:315-318 | Replacing a task changes the number of DONE tasks by exactly the change in that task's status |
| `Kanban.MoveLog` | src/kanban/kanban.service.ts:345-354 | The move's log entry names the task, the user, the action `moved` and both statuses |
| `Kanban.AssignLog` | src/kanban/kanban.service.ts:558-567 | The assignment's log entry names the task, the user and the action `assigned`, without statuses |
| `Kanban.PspAfter` | src/kanban/kanban.service.ts:357-368 | A move that completes or reopens an assigned task of a sprint story upserts that developer's recomputed PSP row; any other move leaves the PSP table alone. Keys stay unique |
| `Kanban.AssignCheck` | src/kanban/kanban.service.ts:487-529 | An assignment passes exactly when the task is in the project, the caller is owner or active member, and any assignee is owner or active member |
| `Kanban.ActivityOf` | src/kanban/kanban.service.ts:464-479 | Exactly the task's log entries |
| `Kanban.NewestActivityFirst` | src/kanban/kanban.service.ts:478 | A new entry comes first in the task's history |
| `Kanban.TaskActivity` | src/kanban/kanban.service.ts:435-486 | The history is given exactly when the task is in the project and the caller may read it (owner, active member, or any caller of a public project); it is the task's log entries |
| `Kanban.KanbanService.constructor` | src/kanban/kanban.service.ts:13 | Starts with the given tables, no log entries and no PSP rows |
| `Kanban.KanbanService.UpdateTaskStatus` | src/kanban/kanban.service.ts:235-375 | A refusal changes nothing. Otherwise the task row is replaced by the moved task and a `moved` entry is logged. The PSP table is updated as the move demands |
| `Kanban.KanbanService.AssignTask` | src/kanban/kanban.service.ts:487-571 | A refusal changes nothing. Otherwise the task takes the assignee and an `assigned` entry is logged; PSP rows are untouched |
| `Kanban.Group` | src/kanban/kanban.service.ts:91-96 | Each column holds exactly the board tasks of its status |
| `SprintMetrics.Round2Close` | src/sprint/metrics/metrics-calculator.service.ts:74 | Two-decimal rounding moves a value by at most half a cent and keeps a whole number of cents unchanged |
| `SprintMetrics.Round2Monotone` | src/sprint/metrics/metrics-calculator.service.ts:74 | Two-decimal rounding keeps the order of values |
| `SprintMetrics.Percent` | src/sprint/metrics/metrics-calculator.service.ts:67 | The percentage is 0 when the whole is not positive, between 0 and 100 for a part within the whole, and 100 for the whole itself |
| `SprintMetrics.PercentBounds` | src/sprint/metrics/metrics-calculator.service.ts:67-74 | A rounded share of a positive whole lies between 0 and 100, and the whole itself is exactly 100 |
| `SprintMetrics.PercentMonotone` | src/sprint/metrics/metrics-calculator.service.ts:67-74 | A larger part never gives a smaller percentage |
| `SprintMetrics.EffortWithAppend` | src/sprint/metrics/metrics-calculator.service.ts:53-64 | The effort with a status of two task lists together is the sum over each |
| `SprintMetrics.StoryEffortIsFlat` | src/sprint/metrics/metrics-calculator.service.ts:53-64 | Summing the effort with a status story by story gives the same as summing it over all the sprint's tasks |
| `SprintMetrics.DoneEffortAgrees` | src/sprint/metrics/metrics-calculator.service.ts:53-57 | The calculator's completed effort is the PSP module's DONE effort |
| `SprintMetrics.EffortMetrics` | src/sprint/metrics/metrics-calculator.service.ts:44-76 | Completed effort is the DONE tasks' effort and in-progress effort the IN_PROGRESS tasks' effort. Completed plus remaining is the commitment. The percentage is completed over committed, and 0 when nothing is committed |
| `SprintMetrics.CountStories` | src/sprint/metrics/metrics-calculator.service.ts:80-85 | Counts no more than the stories |
| `SprintMetrics.CountTasks` | src/sprint/metrics/metrics-calculator.service.ts:104-108 | Counts no more than the tasks |
| `SprintMetrics.CountStoriesByStatus` | src/sprint/metrics/metrics-calculator.service.ts:78-98 | The six status counts add up to the total, which is the number of stories. The percentage is the DONE share, between 0 and 100 |
| `SprintMetrics.StoryCountsCover` | src/sprint/metrics/metrics-calculator.service.ts:80-85 | Every story has exactly one of the six statuses |
| `SprintMetrics.CountTasksByStatus` | src/sprint/metrics/metrics-calculator.service.ts:100-121 | The five status counts add up to the total, which is the number of the sprint's tasks. DONE is the PSP count of DONE tasks. The percentage lies between 0 and 100 |
| `SprintMetrics.TaskCountsCover` | src/sprint/metrics/metrics-calculator.service.ts:104-108 | Every task has exactly one of the five statuses |
| `SprintMetrics.DoneCountAgrees` | src/sprint/metrics/metrics-calculator.service.ts:107 | The calculator's DONE count is the PSP module's DONE count |
| `SprintMetrics.CeilDiv` | src/sprint/metrics/metrics-calculator.service.ts:128-130 | `Math.ceil(a / d)` is the least q with a at most q times d |
| `SprintMetrics.CeilDivAdd` | src/sprint/metrics/metrics-calculator.service.ts:128-141 | The ceiling of a sum is at most the sum of the ceilings, and that sum is at most one more |
| `SprintMetrics.MulLess` | src/sprint/metrics/metrics-calculator.service.ts:128-141 | With a positive factor, a smaller product means a smaller multiplicand |
| `SprintMetrics.TimelineMetrics` | src/sprint/metrics/metrics-calculator.service.ts:123-154 | Total days is the sprint length rounded up to whole days. Elapsed days are 0 before the start and otherwise the time since the start rounded up. Remaining days are 0 after the end and otherwise the time left rounded up. The percentage of time elapsed is elapsed over total |
| `SprintMetrics.DaysCoverSprint` | src/sprint/metrics/metrics-calculator.service.ts:128-141 | During the sprint, elapsed plus remaining days cover the total, with at most one day counted twice |
| `SprintMetrics.ProjectionOf` | src/sprint/metrics/metrics-calculator.service.ts:164-169 | DELAYED exactly when actual velocity is below 80% of plan. For a non-negative plan: AT_RISK exactly when it is from 80% to below 90%, and ON_TIME exactly when it is at least 90%. A negative plan is never AT_RISK |
| `SprintMetrics.PerDay` | src/sprint/metrics/metrics-calculator.service.ts:160-162 | A per-day rate over no days is 0 |
| `SprintMetrics.VelocityMetrics` | src/sprint/metrics/metrics-calculator.service.ts:156-177 | Planned, actual and needed velocity are the committed, completed and remaining effort per total, elapsed and remaining day, rounded. The projection compares the unrounded rates |
| `SprintMetrics.MoreDoneStaysOnTrack` | src/sprint/metrics/metrics-calculator.service.ts:179-184 | Completing more effort never takes an on-track sprint off track |
| `SprintMetrics.OnTrackExtremes` | src/sprint/metrics/metrics-calculator.service.ts:179-184 | A fully completed commitment is on track unless over 111% of the time has passed. With nothing committed, a sprint is on track only while no time has elapsed |
| `SprintMetrics.CalculateSprintMetrics` | src/sprint/metrics/metrics-calculator.service.ts:8-42 | Fails exactly when the sprint does not exist. Otherwise it reports the effort, counts, timeline and on-track verdict of the sprint's stories and their tasks |
| `SprintMetrics.IdealLine` | src/sprint/metrics/metrics-calculator.service.ts:186-195 | The ideal line has one point per day from 0 to the total, each the commitment less the daily decrement times the day, rounded and floored at 0 |
| `SprintMetrics.GenerateIdealLine` | src/sprint/metrics/metrics-calculator.service.ts:186-195 | The loop builds exactly the ideal line |
| `SprintMetrics.IdealLineShape` | src/sprint/metrics/metrics-calculator.service.ts:186-195 | For a positive length and a non-negative commitment, the line starts at the rounded commitment and ends at 0. It never goes below 0 and never rises |
| `SprintMetrics.IdealPointDecreases` | src/sprint/metrics/metrics-calculator.service.ts:190-193 | A later day's ideal point is never above an earlier one's |
| `SprintMetrics.Round2` | src/sprint/metrics/metrics-calculator.service.ts:74 | The rounded value is a whole number of cents |
| `Burndown.Midnight` | src/sprint/metrics/burndown.service.ts:36-37 | Midnight is the start of the day holding the instant: at or before it, less than a day before, and on a day boundary |
| `Burndown.MidnightOfMidnight` | src/sprint/metrics/burndown.service.ts:39-43 | Normalising an already normalised date changes nothing |
| `Burndown.SnapshotsOfAppend` | src/sprint/metrics/burndown.service.ts:45-48 | A stored row joins the sprint's snapshots, at the end, exactly when it belongs to the sprint |
| `Burndown.SnapshotsOf` | src/sprint/metrics/burndown.service.ts:256-261 | Exactly the sprint's snapshots |
| `Burndown.FindSnapshot` | src/sprint/metrics/burndown.service.ts:188-195 | Finds the sprint's snapshot for the day exactly when one is stored |
| `Burndown.Recorded` | src/sprint/metrics/burndown.service.ts:211-222 | A snapshot of consistent metrics has remaining plus completed effort equal to the commitment, and no more completed stories or tasks than in total |
| `Burndown.PutSpec` | src/sprint/metrics/burndown.service.ts:188-223 | Storing a snapshot keeps one row per sprint and day. The row for its day is the new one, with the stored id when it updates. Rows of other days or sprints stay, and the table grows only when the day had no row |
| `Burndown.PutTwiceOneRow` | src/sprint/metrics/burndown.service.ts:188-223 | Snapshotting the same sprint twice on one day leaves one row for that day |
| `Burndown.OnDay` | src/sprint/metrics/burndown.service.ts:149-153 | Finds a snapshot of that day exactly when one exists |
| `Burndown.KnownBeforeFirstSnapshot` | src/sprint/metrics/burndown.service.ts:143-160 | Before the first day with a snapshot, the actual line holds the initial effort |
| `Burndown.KnownCarriesForward` | src/sprint/metrics/burndown.service.ts:143-160 | A day without a snapshot carries the remaining effort of the last earlier day that had one |
| `Burndown.ActualLine` | src/sprint/metrics/burndown.service.ts:136-167 | The actual line has one point per date. Its last point is the current remaining effort, and every earlier point is the last known remaining effort |
| `Burndown.GenerateActualLineWithDates` | src/sprint/metrics/burndown.service.ts:136-167 | The loop builds exactly the actual line |
| `Burndown.Dates` | src/sprint/metrics/burndown.service.ts:106-111 | One date per day from the start to the total, one day apart |
| `Burndown.ChartDaysElapsed` | src/sprint/metrics/burndown.service.ts:98-104 | The chart's elapsed days are never negative and never exceed the total |
| `Burndown.GenerateChartData` | src/sprint/metrics/burndown.service.ts:88-134 | The chart carries the total days, the dates, the ideal line (none for a zero-length sprint), the actual line from the snapshots, the commitment and the elapsed days |
| `Burndown.ChartShape` | src/sprint/metrics/burndown.service.ts:106-124 | For a positive length, dates, ideal line and actual line have the same length, one more than the days. The dates start at the sprint start and are one day apart |
| `Burndown.Snapshotted` | src/sprint/metrics/burndown.service.ts:169-224 | Fails with NotFound exactly when the sprint does not exist. Otherwise the day's snapshot of the sprint's metrics is stored, keys stay unique and other rows stay |
| `Burndown.RunningSprintIds` | src/sprint/metrics/burndown.service.ts:227-230 | Exactly the ids of the sprints under way |
| `Burndown.SnapshotAll` | src/sprint/metrics/burndown.service.ts:232-246 | The loop stores today's snapshot for every listed sprint that exists and counts those sprints. Rows of other days stay, and keys stay unique |
| `Burndown.SweptStep` | src/sprint/metrics/burndown.service.ts:232-246 | One round of the snapshot loop keeps the loop state. Keys stay unique and dates stay midnights. The count grows exactly when the id names a sprint. Earlier sprints keep their snapshot for today, and rows of other days are never lost |
| `Burndown.KeptSnapshots` | src/sprint/metrics/burndown.service.ts:235-245 | A later snapshot in the loop keeps the earlier sprints' snapshots of the day |
| `Burndown.KeptSnapshot` | src/sprint/metrics/burndown.service.ts:235-245 | Snapshotting one sprint keeps another sprint's row for the day |
| `Burndown.FoundAll` | src/sprint/metrics/burndown.service.ts:235-245 | When every listed sprint exists, all of them are counted |
| `Burndown.BurndownService.constructor` | src/sprint/metrics/burndown.service.ts:10-12 | Starts with the given tables and no snapshots |
| `Burndown.BurndownService.CreateSnapshot` | src/sprint/metrics/burndown.service.ts:169-224 | Unknown sprint: nothing changes. Otherwise the snapshot for the given day, or today, holds the sprint's current metrics and is stored in place of any earlier one for that day |
| `Burndown.BurndownService.UpdateSnapshotOnChange` | src/sprint/metrics/burndown.service.ts:249-254 | Fails exactly when the sprint does not exist, and then nothing changes. Otherwise today's snapshot holds the sprint's current metrics, and is stored in place of any earlier one for today |
| `Burndown.BurndownService.GetBurndownChart` | src/sprint/metrics/burndown.service.ts:14-86 | Unknown sprint: nothing changes. A sprint under way has today's snapshot afterwards, added only when missing; other sprints leave the table alone. The answer carries the sprint and its metrics. Its daily snapshots are exactly the sprint's stored snapshots. Its chart is the generated chart: the sprint's days and total, the ideal line, days elapsed, and an actual line that follows the snapshots |
| `Burndown.BurndownService.CreateDailySnapshotsForActiveSprints` | src/sprint/metrics/burndown.service.ts:226-247 | Every sprint under way has today's snapshot afterwards, and the count is the number of such sprints. Rows of other days stay |
| `Burndown.RunningSprintsExist` | src/sprint/metrics/burndown.service.ts:227-238 | Every running sprint id names an existing sprint, so none of their snapshots fails |
| `Burndown.DayOfStoredSnapshot` | src/sprint/metrics/burndown.service.ts:188-195 | A stored snapshot is found under its own sprint and day |
| `Burndown.Put` | src/sprint/metrics/burndown.service.ts:188-223 | Storing a snapshot adds a row only for a new (sprint, day). Existing rows keep their key and id, and rows of other keys are left as they were |
| `Psp.DeveloperTasks` | src/psp-metrics/psp-metrics.service.ts:44-51 | Exactly the tasks assigned to the developer whose story is in the sprint |
| `Psp.CountDone` | src/psp-metrics/psp-metrics.service.ts:53 | Counts no more than the tasks, and is zero exactly when none is DONE |
| `Psp.CountDoneBugs` | src/psp-metrics/psp-metrics.service.ts:55 | Defects fixed never exceed the tasks completed |
| `Psp.SumReopened` | src/psp-metrics/psp-metrics.service.ts:54 | The reopen total is positive exactly when some task was reopened |
| `Psp.DoneEffort` | src/psp-metrics/psp-metrics.service.ts:56-58 | With non-negative efforts the completed effort is non-negative, and it is zero when no task is DONE |
| `Psp.TimedTasks` | src/psp-metrics/psp-metrics.service.ts:61 | Exactly the tasks with both a start and a completion stamp |
| `Psp.SumHoursBounds` | src/psp-metrics/psp-metrics.service.ts:64-69 | When every timed task took between lo and hi hours, the summed hours lie between n times lo and n times hi |
| `Psp.AvgTimePerTask` | src/psp-metrics/psp-metrics.service.ts:61-71 | There is no average exactly when no task has both stamps |
| `Psp.AvgWithinBounds` | src/psp-metrics/psp-metrics.service.ts:61-71 | The average time lies between the least and the greatest task time |
| `Psp.MeanWithin` | src/psp-metrics/psp-metrics.service.ts:62-71 | The mean of timed tasks lies within the bounds of their times |
| `Psp.TimedWithin` | src/psp-metrics/psp-metrics.service.ts:61 | The timed tasks keep the bounds of all the tasks |
| `Psp.Measure` | src/psp-metrics/psp-metrics.service.ts:53-100 | The row belongs to the sprint and developer and is stamped now. Defects fixed never exceed completed tasks, which never exceed the developer's tasks. Effort is non-negative for non-negative inputs, and the average is missing exactly when no task is timed |
| `Psp.UpsertSpec` | src/psp-metrics/psp-metrics.service.ts:73-100 | The upsert keeps one row per sprint and user, and that row is the new one. Rows with other keys stay and no others appear; the table grows by at most one |
| `Psp.UpsertIdempotent` | src/psp-metrics/psp-metrics.service.ts:73-100 | Upserting the same row twice is the same as once |
| `Psp.UpsertAllKeepsKeys` | src/psp-metrics/psp-metrics.service.ts:183-193 | A run of upserts keeps one row per sprint and user |
| `Psp.Developers` | src/psp-metrics/psp-metrics.service.ts:155-157 | Exactly the active DEVELOPER members |
| `Psp.RecalcCheckAsWritten` | src/psp-metrics/psp-metrics.service.ts:166-179 | Any refusal of the recalculation check as written is Forbidden |
| `Psp.RecalcAsWrittenOnlyOwner` | src/psp-metrics/psp-metrics.service.ts:155-179 | As written, only the owner passes the recalculation check, because members are loaded as developers only |
| `Psp.ScrumMasterRefusedAsWritten` | src/psp-metrics/psp-metrics.service.ts:155-179 | An active SCRUM_MASTER is refused by the check as written, though the check is meant to admit them |
| `Psp.RecalcCheck` | src/psp-metrics/psp-metrics.service.ts:174-179 | Corrected check: passes exactly for the owner or an active SCRUM_MASTER; a refusal is Forbidden |
| `Psp.RecalcCheckExtendsAsWritten` | src/psp-metrics/psp-metrics.service.ts:166-179 | The corrected check admits everyone the written one does, and only adds active SCRUM_MASTERs |
| `Psp.PspService.constructor` | src/psp-metrics/psp-metrics.service.ts:10 | Starts with the given tables and no PSP rows |
| `Psp.PspService.SprintAccess` | src/psp-metrics/psp-metrics.service.ts:20-41 | Passes exactly when the sprint exists and the caller has access to its project; the answer is the sprint |
| `Psp.PspService.CalculateDeveloperMetrics` | src/psp-metrics/psp-metrics.service.ts:15-100 | A refusal changes nothing. Otherwise the developer's row is measured from their sprint tasks and upserted |
| `Psp.PspService.GetSprintMetrics` | src/psp-metrics/psp-metrics.service.ts:105-145 | Refused exactly when the sprint is missing or the caller has no access. Otherwise exactly the sprint's rows |
| `Psp.PspService.RecalculateSprintMetrics` | src/psp-metrics/psp-metrics.service.ts:150-197 | Unknown sprint: NotFound. It succeeds exactly when the corrected check passes, and then every active developer gets a fresh row, upserted in turn |
| `Psp.RecalculateRows` | src/psp-metrics/psp-metrics.service.ts:183-193 | The loop measures each developer in turn and upserts the rows one by one, keeping keys unique |
| `Psp.DevRows` | src/psp-metrics/psp-metrics.service.ts:183-193 | One row per developer, in order |
| `Psp.RecalcAllowsAccess` | src/psp-metrics/psp-metrics.service.ts:166-172 | Whoever passes the corrected check also passes the access check |
| `Psp.UpsertAllSnoc` | src/psp-metrics/psp-metrics.service.ts:183-193 | Upserting one more row after a run is the run followed by that upsert |
| `Psp.Upsert` | src/psp-metrics/psp-metrics.service.ts:73-100 | The upsert adds a row only for a new (sprint, user) key, and leaves the rows of other keys where they were |
| `MlPredictions.Count` | src/ml-predictions/ml-predictions.service.ts:80-124 | A task count never exceeds the number of tasks |
| `MlPredictions.CountWeaker` | src/ml-predictions/ml-predictions.service.ts:89-124 | A filter that accepts fewer tasks never counts more, so similar work never exceeds completed work |
| `MlPredictions.TagValues` | src/ml-predictions/ml-predictions.service.ts:88 | Exactly the values of the story's tags |
| `MlPredictions.ReopenRate` | src/ml-predictions/ml-predictions.service.ts:126 | The rate is 0 without completed work and never negative. It is at most 1 when the reopened count does not exceed the completed count |
| `MlPredictions.QualityBelowZeroAsWritten` | src/ml-predictions/ml-predictions.service.ts:104-149 | Counted as written, a developer with one DONE task and two reopened tasks still in progress gets a quality score of -1 |
| `MlPredictions.Stats` | src/ml-predictions/ml-predictions.service.ts:77-136 | Corrected statistics: similar and reopened work never exceed completed work, and the reopen rate lies in 0..1 (0 without completed work) |
| `MlPredictions.Share` | src/ml-predictions/ml-predictions.service.ts:146-148 | The maximum being 0 gives the default; otherwise a count no larger than the maximum gives a share in 0..1 |
| `MlPredictions.FactorsOf` | src/ml-predictions/ml-predictions.service.ts:142-149 | The fall-backs are 1.0 for load, 0.5 for similarity and 0.3 for experience; quality is one minus the reopen rate. For counts within the maxima, every factor lies in 0..1 |
| `MlPredictions.TotalScore` | src/ml-predictions/ml-predictions.service.ts:151-156 | Weighting factors that lie in 0..1 gives a score in 0..1 |
| `MlPredictions.LighterLoadScoresHigher` | src/ml-predictions/ml-predictions.service.ts:146-156 | Of two developers who differ only in load, the one with fewer active tasks scores strictly higher |
| `MlPredictions.MaxBy` | src/ml-predictions/ml-predictions.service.ts:142-144 | The team maximum bounds every developer's count and is reached by one of them |
| `MlPredictions.MaximaOf` | src/ml-predictions/ml-predictions.service.ts:142-144 | The three maxima bound every developer's counts |
| `MlPredictions.ScoreWith` | src/ml-predictions/ml-predictions.service.ts:140-167 | The scored developer keeps its statistics, and the score is the weighted factors. It lies in 0..1 within the maxima |
| `MlPredictions.ScoreAll` | src/ml-predictions/ml-predictions.service.ts:140-168 | One scored entry per developer, in order, each with a score in 0..1 |
| `MlPredictions.AllStats` | src/ml-predictions/ml-predictions.service.ts:76-137 | One statistics entry per developer, in member order, each with a reopen rate in 0..1 |
| `MlPredictions.Scoreboard` | src/ml-predictions/ml-predictions.service.ts:76-168 | One scored entry per developer, in member order, each with a score in 0..1 |
| `MlPredictions.Best` | src/ml-predictions/ml-predictions.service.ts:171-172 | None exactly for an empty board. Otherwise the entry first reached with the highest score, as a stable descending sort leaves it |
| `MlPredictions.Suggest` | src/ml-predictions/ml-predictions.service.ts:70-172 | No suggestion exactly when there are no developers. Otherwise the best of the scoreboard: one of the developers, with a score in 0..1 |
| `MlPredictions.TeamCapacity` | src/ml-predictions/ml-predictions.service.ts:234 | A set, non-zero capacity is used; otherwise 40 hours per active member |
| `MlPredictions.UnassignedShare` | src/ml-predictions/ml-predictions.service.ts:236-237 | The share lies in 0..1, and is 0 without tasks or when every task is assigned |
| `MlPredictions.CountNone` | src/ml-predictions/ml-predictions.service.ts:236 | A filter that accepts no task counts zero |
| `MlPredictions.CompletedVelocities` | src/ml-predictions/ml-predictions.service.ts:240-249 | Empty exactly when the project has no COMPLETED sprint |
| `MlPredictions.HistoricalVelocity` | src/ml-predictions/ml-predictions.service.ts:251-255 | Missing exactly when the project has no COMPLETED sprint |
| `MlPredictions.FirstThree` | src/ml-predictions/ml-predictions.service.ts:248 | At most three velocities, a prefix of the list, and empty only for an empty list |
| `MlPredictions.MeanWithin` | src/ml-predictions/ml-predictions.service.ts:251-255 | A mean lies between the bounds of what it averages |
| `MlPredictions.SumWithin` | src/ml-predictions/ml-predictions.service.ts:253 | A sum of n values within lo..hi lies within n times lo and n times hi |
| `MlPredictions.HistoricalVelocityWithin` | src/ml-predictions/ml-predictions.service.ts:240-255 | The historical velocity lies between the lowest and the highest completed-sprint velocity |
| `MlPredictions.RiskOf` | src/ml-predictions/ml-predictions.service.ts:258-266 | HIGH exactly above 120% of capacity; MEDIUM exactly when not HIGH but above capacity or with over 30% unassigned. Confidence is 0.9, 0.8 or 0.7 for HIGH, MEDIUM and LOW |
| `MlPredictions.RiskMonotone` | src/ml-predictions/ml-predictions.service.ts:258-266 | More committed effort or a larger unassigned share never lowers the risk level or its confidence |
| `MlPredictions.TrainingRow` | src/ml-predictions/ml-predictions.service.ts:383-406 | The row carries the project, story and data type; a task id only when one was given and non-empty. A sprint other than the project id is the sprint of the named story |
| `MlPredictions.AssignmentRow` | src/ml-predictions/ml-predictions.service.ts:200 | For a stored story, the training row is recorded against that story's project and story |
| `MlPredictions.VelocityRowAsWritten` | src/ml-predictions/ml-predictions.service.ts:289 | As written, the risk prediction's training row files the sprint id as a story id and records the project id as the sprint |
| `MlPredictions.VelocityRow` | src/ml-predictions/ml-predictions.service.ts:289 | Corrected: the training row of a risk prediction records the sprint itself and no story or task |
| `MlPredictions.AssignmentOutcome` | src/ml-predictions/ml-predictions.service.ts:42-203 | Corrected (see ## Findings): the quality score counts reopened tasks among the completed ones. An unknown story is NotFound. It succeeds exactly when the story exists and the caller has access; there is no suggestion exactly when the project has no active developer. A suggestion is fresh, unaccepted and stamped now |
| `MlPredictions.SuggestionIsBest` | src/ml-predictions/ml-predictions.service.ts:170-186 | The stored suggestion names the best-scored active DEVELOPER, with that score as confidence in 0..1 |
| `MlPredictions.RiskOutcome` | src/ml-predictions/ml-predictions.service.ts:208-292 | An unknown sprint is NotFound. It succeeds exactly when the sprint exists and the caller has access. The prediction carries the committed effort of the sprint's tasks, the capacity, the unassigned count and share, the risk rule's level and confidence, and the historical velocity |
| `MlPredictions.SuggestionsOf` | src/ml-predictions/ml-predictions.service.ts:310-329 | Exactly the stored suggestions for the story |
| `MlPredictions.PredictionsOf` | src/ml-predictions/ml-predictions.service.ts:346-350 | Exactly the stored predictions for the sprint |
| `MlPredictions.NewestSuggestionFirst` | src/ml-predictions/ml-predictions.service.ts:328 | After a suggestion is stored, it is the first one listed for its story |
| `MlPredictions.FindSuggestion` | src/ml-predictions/ml-predictions.service.ts:357-364 | Found exactly when some stored suggestion has the id, and it is that suggestion |
| `MlPredictions.AppendFresh` | src/ml-predictions/ml-predictions.service.ts:179-193 | Appending a suggestion with a fresh id keeps ids unique |
| `MlPredictions.MlPredictionsService.constructor` | src/ml-predictions/ml-predictions.service.ts:11 | Starts with the given tables and no suggestions, predictions or training rows |
| `MlPredictions.MlPredictionsService.GenerateAssignmentSuggestion` | src/ml-predictions/ml-predictions.service.ts:42-203 | Corrected (see ## Findings): built on the corrected reopen rate. The answer is the assignment outcome. A suggestion is appended with its training row; otherwise neither table changes. Predictions never change |
| `MlPredictions.MlPredictionsService.RecordSuggestion` | src/ml-predictions/ml-predictions.service.ts:179-200 | The suggestion, whose id is fresh, is appended and ids stay unique. Its training row is appended. Predictions do not change |
| `MlPredictions.MlPredictionsService.GenerateRiskPrediction` | src/ml-predictions/ml-predictions.service.ts:208-292 | Corrected (see ## Findings): the training row records the sprint id as its sprint and no story. The answer is the risk outcome. On success the prediction and the sprint's training row are appended; a refusal changes nothing |
| `MlPredictions.MlPredictionsService.GetStorySuggestions` | src/ml-predictions/ml-predictions.service.ts:297-330 | Succeeds exactly when the story exists and the caller has access, and gives exactly that story's suggestions, newest first |
| `MlPredictions.MlPredictionsService.GetSprintRiskPredictions` | src/ml-predictions/ml-predictions.service.ts:335-351 | Succeeds exactly when the sprint exists and the caller has access, and gives at most ten of that sprint's predictions, newest first |
| `MlPredictions.MlPredictionsService.AcceptSuggestion` | src/ml-predictions/ml-predictions.service.ts:356-378 | An unknown suggestion is NotFound. It succeeds exactly when the suggestion's story is stored and the caller has access. Then only that suggestion changes: it is marked accepted by the caller. A refusal changes nothing |
| `Repositories.FindRepository` | src/repositories/repositories.service.ts:128-133 | Found exactly when a row has the id and belongs to the project, and it is that row |
| `Repositories.WithFlag` | src/repositories/repositories.service.ts:110-113 | Exactly the project's repositories whose primary flag has the given value |
| `Repositories.OfProject` | src/repositories/repositories.service.ts:110-111 | Exactly the project's repositories |
| `Repositories.ListingIsOrdered` | src/repositories/repositories.service.ts:110-113 | The listing holds exactly the project's repositories, with multiplicity, and no secondary repository precedes a primary one |
| `Repositories.PrimarySetKeeps` | src/repositories/repositories.service.ts:272-287 | Setting the primary keeps the table's keys valid; within the project, exactly the chosen repository is primary, and nothing but primary flags changes |
| `Repositories.PrimaryListedFirst` | src/repositories/repositories.service.ts:110-113 | When the project has a primary repository, the listing starts with a primary one |
| `Repositories.UnsetPrimaries` | src/repositories/repositories.service.ts:79-87 | Rows of the project other than the excepted one lose their primary flag; all other rows are unchanged |
| `Repositories.NewRepository` | src/repositories/repositories.service.ts:91-99 | The new row has the given id, project, name and URL. The main branch is the given one, or "main" when it is missing or empty. It is primary exactly when asked to be, and starts with sync enabled and never synced |
| `Repositories.Apply` | src/repositories/repositories.service.ts:203-206 | Each given field replaces the stored one and absent fields are kept; id, project, sync flag and sync time never change |
| `Repositories.EditRow` | src/repositories/repositories.service.ts:203-206 | Only the row with the id is updated; every other row is unchanged |
| `Repositories.DropRepository` | src/repositories/repositories.service.ts:238-240 | Exactly the rows with another id remain |
| `Repositories.EditorCheck` | src/repositories/repositories.service.ts:18-45 | Passes exactly when the project exists and the caller is owner, SCRUM_MASTER or PRODUCT_OWNER. A missing project is NotFound; otherwise a refusal is Forbidden |
| `Repositories.CreateCheck` | src/repositories/repositories.service.ts:55-75 | Passes exactly when the caller may edit and the URL is not used in the project; a used URL is BadRequest |
| `Repositories.TargetCheck` | src/repositories/repositories.service.ts:219-236 | Passes exactly when the caller may edit and the repository is in the project, which it hands back; a missing repository is NotFound |
| `Repositories.UpdateCheck` | src/repositories/repositories.service.ts:151-186 | Passes exactly when the target check passes and any new, non-empty, changed URL is free in the project |
| `Repositories.UnsetPrimariesKeeps` | src/repositories/repositories.service.ts:79-87 | Clearing primary flags keeps the table's keys valid and changes nothing but primary flags |
| `Repositories.CreatedKeeps` | src/repositories/repositories.service.ts:77-99 | Creating a repository with a fresh id and URL keeps the keys valid; a new primary is the only primary of its project |
| `Repositories.PrimarySetRows` | src/repositories/repositories.service.ts:272-287 | Row by row: within the project the primary flag is set exactly for the chosen id; other projects' rows are unchanged |
| `Repositories.UpdateKeeps` | src/repositories/repositories.service.ts:188-206 | An update the key accepts keeps the table valid, and promoting a repository makes it the only primary of its project |
| `Repositories.EditShape` | src/repositories/repositories.service.ts:188-206 | The edited table differs from the old one only at the updated row and in cleared primary flags |
| `Repositories.ShapedKeys` | src/repositories/repositories.service.ts:170-206 | An update that passes the URL checks keeps ids and URLs unique |
| `Repositories.ShapedPrimary` | src/repositories/repositories.service.ts:188-206 | An update keeps at most one primary per project; promoting makes the updated repository the only primary |
| `Repositories.ConsValid` | src/repositories/repositories.service.ts:64-99 | A row whose id, URL and primary flag clash with no other row can head a valid table |
| `Repositories.DropKeeps` | src/repositories/repositories.service.ts:238-240 | Deleting keeps the table valid |
| `Repositories.RepositoryService.constructor` | src/repositories/repositories.service.ts:13 | Starts with the given projects and a valid repository table |
| `Repositories.RepositoryService.CreateRepository` | src/repositories/repositories.service.ts:50-102 | Refused exactly when the create check fails, with its error and nothing changed. Otherwise the new row is added, after clearing the project's primaries when it is primary, and the table stays valid |
| `Repositories.RepositoryService.GetProjectRepositories` | src/repositories/repositories.service.ts:107-116 | Refused exactly when access is refused. Otherwise exactly the project's repositories, primaries first |
| `Repositories.RepositoryService.GetRepositoryById` | src/repositories/repositories.service.ts:121-140 | Succeeds exactly when access passes and the repository is in the project, and gives that repository |
| `Repositories.RepositoryService.UpdateRepository` | src/repositories/repositories.service.ts:145-209 | Succeeds exactly when the checks pass and the key accepts the write; a failed check changes nothing. On success the row is updated, after clearing other primaries when it is promoted, and the table stays valid |
| `Repositories.RepositoryService.DeleteRepository` | src/repositories/repositories.service.ts:214-243 | Refused exactly when the target check fails, changing nothing. Otherwise the row is removed and the table stays valid |
| `Repositories.RepositoryService.SetPrimaryRepository` | src/repositories/repositories.service.ts:248-290 | Refused exactly when the target check fails, changing nothing. Otherwise the chosen repository is the project's only primary |
| `Repositories.Listing` | src/repositories/repositories.service.ts:110-113 | The listing holds exactly the project's repositories |
| `GitHubSync.SegmentLength` | src/github-sync/github-sync.service.ts:90 | The segment `[^/]+` takes is slash-free and stops at the first slash or the end |
| `GitHubSync.UrlMatchAt` | src/github-sync/github-sync.service.ts:90 | A match at a position yields a non-empty, slash-free owner and repository name |
| `GitHubSync.Segments` | src/github-sync/github-sync.service.ts:90 | The two captured segments are non-empty and slash-free |
| `GitHubSync.ParseRepoUrl` | src/github-sync/github-sync.service.ts:90-95 | The leftmost match of the URL pattern yields a non-empty, slash-free owner and repository name |
| `GitHubSync.ParseSkips` | src/github-sync/github-sync.service.ts:90 | A stretch without the letter g cannot hold a match, so the search may start after it |
| `GitHubSync.FormUrlParses` | src/github-sync/github-sync.service.ts:90-95 | A URL of the form https://github.com/owner/name, with or without a trailing slash, parses back to that owner and name |
| `GitHubSync.SchemeSkipped` | src/github-sync/github-sync.service.ts:90 | A prefix without the letter g is skipped by the search |
| `GitHubSync.MatchAfterHost` | src/github-sync/github-sync.service.ts:90 | After the host, the pattern captures the owner and the name |
| `GitHubSync.SegmentsOf` | src/github-sync/github-sync.service.ts:90 | A slash-free owner, a slash, a slash-free name and then a slash or the end are captured as the owner and the name |
| `GitHubSync.OwnerSegment` | src/github-sync/github-sync.service.ts:90 | A slash-free owner followed by a slash is the first segment, and the rest of the path follows it |
| `GitHubSync.OwnSegment` | src/github-sync/github-sync.service.ts:90 | A slash-free segment followed by a slash or the end is taken whole |
| `GitHubSync.DigitsThenBoundary` | src/github-sync/github-sync.service.ts:437-438 | A captured number is a non-empty run of digits |
| `GitHubSync.StoryRefAt` | src/github-sync/github-sync.service.ts:437 | A story reference (US, HU or STORY, any case, then - or _) captures a non-empty run of digits |
| `GitHubSync.HashRefAt` | src/github-sync/github-sync.service.ts:438 | A hash reference captures a non-empty run of digits |
| `GitHubSync.TaskRefAt` | src/github-sync/github-sync.service.ts:469 | A task reference (T or TASK, any case) captures one or two non-empty digit runs |
| `GitHubSync.TaskNumbers` | src/github-sync/github-sync.service.ts:469 | The numbers after the keyword are one or two non-empty digit runs |
| `GitHubSync.FirstStoryRef` | src/github-sync/github-sync.service.ts:437-442 | The leftmost story reference's number is a non-empty run of digits |
| `GitHubSync.FirstHashRef` | src/github-sync/github-sync.service.ts:438-442 | The leftmost hash reference's number is a non-empty run of digits |
| `GitHubSync.FirstTaskRef` | src/github-sync/github-sync.service.ts:469-473 | The leftmost task reference's first number is a non-empty run of digits |
| `GitHubSync.TaskKey` | src/github-sync/github-sync.service.ts:475 | One number is the key itself; two numbers are joined by a dash |
| `GitHubSync.TwoNumberTaskRef` | src/github-sync/github-sync.service.ts:469-475 | A message starting T-a-b or TASK_a_b (any separators, any case) yields the key a-b |
| `GitHubSync.TaskKeywordHead` | src/github-sync/github-sync.service.ts:469 | After a task keyword and a separator, the reference is read from the numbers that follow |
| `GitHubSync.NumbersAfter` | src/github-sync/github-sync.service.ts:469 | Two digit runs joined by a separator and ending at a word boundary give both numbers |
| `Text.DigitRunOf` | src/github-sync/github-sync.service.ts:437-469 | The digit run stops where the digits stop |
| `GitHubSync.StoryWithKey` | src/github-sync/github-sync.service.ts:447-454 | None exactly when no story of the project has a code containing the key. Otherwise the first such story, in table order |
| `GitHubSync.FirstStoryWithKey` | src/github-sync/github-sync.service.ts:447-454 | The first story that matches is the one found |
| `GitHubSync.TaskWithKey` | src/github-sync/github-sync.service.ts:478-487 | None exactly when no task of the project has a code containing the key. Otherwise the first such task |
| `GitHubSync.LinkedStoryAsWritten` | src/github-sync/github-sync.service.ts:435-461 | As written, any story found belongs to the project |
| `GitHubSync.HashIgnoresNumberAsWritten` | src/github-sync/github-sync.service.ts:438-454 | As written, a hash reference searches with an undefined key, so it links the project's first story whatever the number |
| `GitHubSync.HashLinksWrongStoryAsWritten` | src/github-sync/github-sync.service.ts:438-454 | As written, "fix#7" links US-001, whose code does not contain 7 |
| `GitHubSync.HashLinksNumberedStory` | src/github-sync/github-sync.service.ts:438-454 | Corrected, "fix#7" links US-007 |
| `GitHubSync.SevenFindsUS007` | src/github-sync/github-sync.service.ts:447-454 | The key 7 finds US-007 |
| `GitHubSync.US001LacksSeven` | src/github-sync/github-sync.service.ts:451 | The code US-001 does not contain 7 |
| `GitHubSync.FixRefs` | src/github-sync/github-sync.service.ts:437-438 | "fix#7" holds no story reference and the hash reference 7 |
| `GitHubSync.FixHashRef` | src/github-sync/github-sync.service.ts:438 | "fix#7" holds the hash reference 7 |
| `GitHubSync.NoStoryRef` | src/github-sync/github-sync.service.ts:437 | Text without story keyword letters holds no story reference |
| `GitHubSync.LinkedStory` | src/github-sync/github-sync.service.ts:435-461 | Corrected: a linked story is in the project and its code contains the number of the story or hash reference. None means no story of the project contains either number |
| `GitHubSync.LinkedTask` | src/github-sync/github-sync.service.ts:467-494 | A linked task is in the project and its code contains the reference's key; without a task reference, nothing is linked |
| `GitHubSync.LinksOf` | src/github-sync/github-sync.service.ts:112-113 | Corrected (see ## Findings): `#n` links the first project story whose code contains n. The links of a text are the ids of its linked story and task, each missing exactly when nothing is linked |
| `GitHubStore.ShortSha` | src/github-sync/github-sync.service.ts:133 | The first seven characters of the sha, or all of a shorter sha |
| `GitHubStore.NewCommit` | src/github-sync/github-sync.service.ts:130-141 | The created row mirrors the fetched commit, its branch and links, and has the given id, short sha, commit time and URL |
| `GitHubStore.UpsertCommit` | src/github-sync/github-sync.service.ts:115-143 | An existing (repository, sha) row is updated in place; otherwise a new row is appended. Every old row keeps its identity, other rows are unchanged, and afterwards a row mirrors the fetched commit |
| `GitHubStore.MessageLinks` | src/github-sync/github-sync.service.ts:110-113 | One set of links per message, in order |
| `GitHubStore.SavedCommitsStep` | src/github-sync/github-sync.service.ts:110-144 | Saving one more commit is the upsert of that commit after the earlier ones |
| `GitHubStore.SavedCommitsKeep` | src/github-sync/github-sync.service.ts:110-144 | Saving grows the table by at most the number fetched; old rows keep their identity, other repositories' rows are unchanged and new rows belong to the repository |
| `GitHubStore.SavedCommitIds` | src/github-sync/github-sync.service.ts:110-144 | New rows take their ids from the given fresh ids |
| `GitHubStore.SavedCommitsUnique` | src/github-sync/github-sync.service.ts:110-144 | Saving keeps (repository, sha) keys and ids unique |
| `GitHubStore.NextCommitIdFresh` | src/github-sync/github-sync.service.ts:110-144 | The next fresh id is unused by the rows saved so far |
| `GitHubStore.UpsertCommitUnique` | src/github-sync/github-sync.service.ts:115-143 | One upsert keeps keys and ids unique |
| `GitHubStore.UpsertStoresCommit` | src/github-sync/github-sync.service.ts:115-143 | After an upsert, the fetched commit is stored for the repository |
| `GitHubStore.UpsertKeepsCommit` | src/github-sync/github-sync.service.ts:115-143 | An upsert never loses a commit already stored for the repository |
| `GitHubStore.SavedCommitsStored` | src/github-sync/github-sync.service.ts:110-144 | After saving, every fetched commit is stored for the repository |
| `GitHubStore.UpsertCommitTwice` | src/github-sync/github-sync.service.ts:115-143 | Upserting the same commit again changes nothing |
| `GitHubStore.NewPull` | src/github-sync/github-sync.service.ts:179-192 | The created row mirrors the fetched pull request and has its author, branches, URL and creation time |
| `GitHubStore.UpsertPull` | src/github-sync/github-sync.service.ts:165-193 | An existing (repository, number) row is updated in place; otherwise a new row is appended. Every old row keeps its identity, other rows are unchanged, and a row mirrors the fetched pull request |
| `GitHubStore.SavedPullsStep` | src/github-sync/github-sync.service.ts:160-194 | Saving one more pull request is the upsert after the earlier ones |
| `GitHubStore.SavedPullsKeep` | src/github-sync/github-sync.service.ts:160-194 | Saving grows the table by at most the number fetched; old rows keep their identity and new rows belong to the repository |
| `GitHubStore.SavedPullIds` | src/github-sync/github-sync.service.ts:160-194 | New rows take their ids from the given fresh ids |
| `GitHubStore.NextPullIdFresh` | src/github-sync/github-sync.service.ts:160-194 | The next fresh id is unused by the rows saved so far |
| `GitHubStore.UpsertPullUnique` | src/github-sync/github-sync.service.ts:165-193 | One upsert keeps keys and ids unique |
| `GitHubStore.SavedPullsUnique` | src/github-sync/github-sync.service.ts:160-194 | Saving keeps (repository, number) keys and ids unique |
| `GitHubStore.SavedPullsStored` | src/github-sync/github-sync.service.ts:160-194 | After saving, every fetched pull request is stored for the repository |
| `GitHubStore.RepositoryById` | src/github-sync/github-sync.service.ts:19-21 | Found exactly when a row has the id, and it is that row |
| `GitHubStore.RepositoryAccess` | src/github-sync/github-sync.service.ts:18-45 | An unknown repository is NotFound. Otherwise it passes exactly when the caller has access to its project, and hands back the repository |
| `GitHubStore.SyncCheck` | src/github-sync/github-sync.service.ts:56-70 | Passes exactly when the repository exists, the caller is owner, SCRUM_MASTER or PRODUCT_OWNER, and sync is enabled; NotFound, Forbidden and BadRequest otherwise |
| `GitHubStore.TargetBranch` | src/github-sync/github-sync.service.ts:96 | The given non-empty branch, otherwise the main branch |
| `GitHubStore.MarkSynced` | src/github-sync/github-sync.service.ts:197-200 | Only the synced repository's last sync time changes, to now |
| `GitHubStore.MarkSyncedKeeps` | src/github-sync/github-sync.service.ts:197-200 | Marking a sync keeps the repository table valid and changes only that repository's sync time |
| `GitHubStore.LinkCheck` | src/github-sync/github-sync.service.ts:297-339 | It succeeds exactly on the first commit with the id, when that commit's repository exists and any given story or task belongs to its project. An unknown commit is NotFound; other refusals are BadRequest |
| `GitHubStore.Given` | src/github-sync/github-sync.service.ts:313-345 | An id counts exactly when present and non-empty |
| `GitHubStore.GitHubSyncService.constructor` | src/github-sync/github-sync.service.ts:13 | Starts with the given tables and no commits, pull requests or sync logs |
| `GitHubStore.GitHubSyncService.SyncRepository` | src/github-sync/github-sync.service.ts:50-212 | Corrected (see ## Findings): links are taken with the corrected `#n` lookup. Refused exactly when the sync check fails, with its error and nothing changed. Otherwise a log is appended; it is SUCCESS exactly when the URL parses and both fetches succeed. The commits fetched are saved when the URL parses and the commit fetch succeeds. On success the pull requests are saved and the repository is stamped. Each error is logged with its message |
| `GitHubStore.GitHubSyncService.GetRepositoryCommits` | src/github-sync/github-sync.service.ts:353-377 | Refused exactly when access is refused. Otherwise at most 100 of the repository's commits, newest first, each as often as stored at most; any commit left out is no newer than all 100 listed |
| `GitHubStore.GitHubSyncService.GetRepositoryPullRequests` | src/github-sync/github-sync.service.ts:382-406 | Refused exactly when access is refused. Otherwise at most 50 of the repository's pull requests, newest first, each as often as stored at most; any left out is no newer than all 50 listed |
| `GitHubStore.GitHubSyncService.GetSyncLogs` | src/github-sync/github-sync.service.ts:411-429 | Refused exactly when access is refused. Otherwise at most 20 of the repository's logs, newest first, each as often as stored at most; any left out is no newer than all 20 listed |
| `GitHubStore.GitHubSyncService.GetStoryGitHubActivity` | src/github-sync/github-sync.service.ts:500-584 | An unknown story is NotFound. It succeeds exactly when the caller has access, with the story code and exactly the commits and pull requests linked to the story, newest first |
| `GitHubStore.GitHubSyncService.GetTaskGitHubActivity` | src/github-sync/github-sync.service.ts:589-667 | An unknown task is NotFound. It succeeds exactly when its story is stored and the caller has access, with the task code and exactly the commits and pull requests linked to the task, newest first |
| `GitHubStore.GitHubSyncService.LinkCommit` | src/github-sync/github-sync.service.ts:291-348 | Refused exactly when the link check fails, changing nothing. Otherwise only that commit changes: its links become the given ids, or none |
| `GitHubStore.UpsertCommits` | src/github-sync/github-sync.service.ts:110-144 | The loop saves exactly what the saved-commits function describes |
| `GitHubStore.UpsertPulls` | src/github-sync/github-sync.service.ts:160-194 | The loop saves exactly what the saved-pulls function describes |
| `GitHubStore.Messages` | src/github-sync/github-sync.service.ts:112 | The fetched commits' messages, in order |
| `GitHubStore.Titles` | src/github-sync/github-sync.service.ts:162 | The fetched pull requests' titles, in order |
| `GitHubStore.SavedCommits` | src/github-sync/github-sync.service.ts:110-144 | Saving fetched commits never removes a row and adds at most one row per commit |
| `GitHubStore.SavedPulls` | src/github-sync/github-sync.service.ts:160-194 | Saving fetched pull requests never removes a row and adds at most one row per pull request |
| `DailyScrum.RecordCheck` | src/daily-scrum/daily-scrum.service.ts:56-77 | Passes exactly when the sprint exists, the caller is its project's owner or an active member, and the date lies within the sprint; a non-member is Forbidden and a date outside the sprint is BadRequest |
| `DailyScrum.FindDaily` | src/daily-scrum/daily-scrum.service.ts:80-88 | Found exactly when a row has that sprint, user and date, and it is that row |
| `DailyScrum.DailyById` | src/daily-scrum/daily-scrum.service.ts:156-193 | Found exactly when a row has the id, and it is that row |
| `DailyScrum.UpsertCheck` | src/daily-scrum/daily-scrum.service.ts:79-114 | An existing entry may be rewritten only when its date is today, else BadRequest, and keeps its id. A new entry is refused as Conflict when one already exists for that midnight; otherwise it takes the fresh id, is stamped now and carries the impediments. Either way the row has the sprint, the user and the given answers, and it fits the table |
| `DailyScrum.UpdateCheck` | src/daily-scrum/daily-scrum.service.ts:222-243 | Passes exactly when the entry exists, belongs to the caller and is dated today; a missing entry is NotFound and another user's is Forbidden |
| `DailyScrum.ReplaceDaily` | src/daily-scrum/daily-scrum.service.ts:103-106 | Only the row with the same id is replaced |
| `DailyScrum.UpsertedKeeps` | src/daily-scrum/daily-scrum.service.ts:101-114 | Saving a fitting row keeps the table valid: the row is present, other rows remain, no other row has its key, and the table grows only for a new id |
| `DailyScrum.LinkedStories` | src/daily-scrum/daily-scrum.service.ts:209 | Exactly the stories linked to the entry |
| `DailyScrum.DropLinks` | src/daily-scrum/daily-scrum.service.ts:133-135 | Exactly the links of other entries remain |
| `DailyScrum.NewLinks` | src/daily-scrum/daily-scrum.service.ts:138-143 | One link per requested story, in order |
| `DailyScrum.LinkedStoriesAppend` | src/daily-scrum/daily-scrum.service.ts:138-143 | The stories linked in two link lists are those of the first followed by those of the second |
| `DailyScrum.DroppedStories` | src/daily-scrum/daily-scrum.service.ts:133-135 | After dropping, the entry has no linked stories and other entries keep theirs |
| `DailyScrum.NewLinkStories` | src/daily-scrum/daily-scrum.service.ts:138-143 | The new links give the entry exactly the requested stories, and no other entry any |
| `DailyScrum.RelinkedStories` | src/daily-scrum/daily-scrum.service.ts:132-143 | After relinking, the entry's stories are exactly the requested ones; other entries keep theirs |
| `DailyScrum.RelinkedOwn` | src/daily-scrum/daily-scrum.service.ts:132-143 | After relinking, the entry's stories are exactly the requested ones |
| `DailyScrum.RelinkedOther` | src/daily-scrum/daily-scrum.service.ts:132-143 | Relinking one entry leaves every other entry's stories unchanged |
| `DailyScrum.DropLinksUnique` | src/daily-scrum/daily-scrum.service.ts:133-135 | Dropping links keeps the link table free of duplicates |
| `DailyScrum.RelinkedUnique` | src/daily-scrum/daily-scrum.service.ts:132-143 | Relinking with distinct stories keeps the link table free of duplicates |
| `DailyScrum.SprintFoundIds` | src/daily-scrum/daily-scrum.service.ts:119-124 | Exactly the requested ids of stories in the sprint |
| `DailyScrum.StoriesAcceptedIff` | src/daily-scrum/daily-scrum.service.ts:119-130 | The story check passes exactly when the requested ids are distinct and each names a story in the sprint |
| `DailyScrum.NothingRequestedAccepted` | src/daily-scrum/daily-scrum.service.ts:282-286 | An empty request passes the story check, so it removes every link |
| `DailyScrum.Selected` | src/daily-scrum/daily-scrum.service.ts:306-316 | Exactly the sprint's entries matching the optional date and member filters |
| `DailyScrum.SprintDailies` | src/daily-scrum/daily-scrum.service.ts:304-350 | Exactly the sprint's entries matching the filters, latest date first |
| `DailyScrum.Impediments` | src/daily-scrum/daily-scrum.service.ts:384-390 | At most one impediment per entry |
| `DailyScrum.ImpedimentsExact` | src/daily-scrum/daily-scrum.service.ts:384-390 | Every entry with an impediment contributes it, and every impediment comes from such an entry |
| `DailyScrum.ImpedimentsAppend` | src/daily-scrum/daily-scrum.service.ts:384-390 | The impediments of two runs of entries are those of the first followed by those of the second |
| `DailyScrum.History` | src/daily-scrum/daily-scrum.service.ts:414-441 | One report per distinct date, in first-seen order. Each holds exactly the non-empty entries of its date and their impediments; no date appears twice and every entry's date has a report |
| `DailyScrum.HistoryPlacesEachEntry` | src/daily-scrum/daily-scrum.service.ts:414-441 | An entry is in a report exactly when the report's date is the entry's date |
| `DailyScrum.DailyScrumService.constructor` | src/daily-scrum/daily-scrum.service.ts:14 | Starts with the given tables, which are valid |
| `DailyScrum.DailyScrumService.GetDailyScrumById` | src/daily-scrum/daily-scrum.service.ts:152-212 | An unknown entry is NotFound. It succeeds exactly when the caller has access to its sprint, and gives the entry with its linked stories |
| `DailyScrum.DailyScrumService.CreateOrUpdateDailyScrum` | src/daily-scrum/daily-scrum.service.ts:52-147 | A failed sprint or upsert check changes nothing and returns its error. Otherwise the entry is saved. Without stories, links stay. Stories not all in the sprint give BadRequest after the save. Otherwise the entry is relinked to exactly those stories |
| `DailyScrum.DailyScrumService.UpdateDailyScrum` | src/daily-scrum/daily-scrum.service.ts:217-291 | A failed check changes nothing and returns its error. Otherwise the entry is saved with the edits. Links are kept when no list is given, refused as BadRequest when a story is not in the sprint, and replaced by the list otherwise. The answer then depends on sprint access |
| `DailyScrum.DailyScrumService.GetSprintDailies` | src/daily-scrum/daily-scrum.service.ts:296-366 | Refused exactly when sprint access is refused, with its error. Otherwise exactly the filtered entries, latest first |
| `DailyScrum.DailyScrumService.GetConsolidatedDaily` | src/daily-scrum/daily-scrum.service.ts:372-400 | Refused exactly when sprint access is refused. Otherwise the sprint's name and number, the day's entries and their impediments |
| `DailyScrum.DailyScrumService.GetDailyHistory` | src/daily-scrum/daily-scrum.service.ts:405-442 | Refused exactly when sprint access is refused. Otherwise the sprint's entries grouped by date |
| `DailyScrum.NewDaily` | src/daily-scrum/daily-scrum.service.ts:90-113 | A new entry belongs to the caller and the sprint, carries the answers given, and is dated at the start of the day of the requested date |
| `DailyScrum.Upserted` | src/daily-scrum/daily-scrum.service.ts:101-113 | Saving an entry adds a row only for a new id, stores the entry, and leaves the rows with other ids where they were |
| `CodeRefactoring.SuggestionById` | src/code-refactoring/code-refactoring.service.ts:299-316 | Found exactly when a row has the id, and it is that row |
| `CodeRefactoring.RepositoryAccess` | src/code-refactoring/code-refactoring.service.ts:142-167 | An unknown repository is NotFound. Otherwise it passes exactly when the caller has access to the repository's project, with that access |
| `CodeRefactoring.UpdateCheck` | src/code-refactoring/code-refactoring.service.ts:299-328 | An unknown suggestion is NotFound. It passes exactly when the caller has access and is the owner or an active DEVELOPER, and hands back the suggestion |
| `CodeRefactoring.ManagersOnlyRead` | src/code-refactoring/code-refactoring.service.ts:318-328 | An active SCRUM_MASTER or PRODUCT_OWNER who is not the owner can read the repository but is Forbidden to change a suggestion |
| `CodeRefactoring.BatchSprint` | src/code-refactoring/code-refactoring.service.ts:200 | The import's sprint when given and non-empty; an absent or empty import sprint falls back to the finding's own sprint |
| `CodeRefactoring.ReplaceSuggestion` | src/code-refactoring/code-refactoring.service.ts:336-338 | Only the row with the id is updated; every other row is unchanged |
| `CodeRefactoring.AppliedKeeps` | src/code-refactoring/code-refactoring.service.ts:330-334 | The status becomes the given one, or stays. A RESOLVED row always names who resolved it and when. Nothing but status and resolution fields changes |
| `CodeRefactoring.SearchedLine` | src/code-refactoring/code-refactoring.service.ts:189 | The exact lookup searches the line as given. As written, a line 0 is searched as "no line", as is a missing one |
| `CodeRefactoring.Imported` | src/code-refactoring/code-refactoring.service.ts:183-214 | The import creates at most one row per finding |
| `CodeRefactoring.ImportBatch` | src/code-refactoring/code-refactoring.service.ts:181-214 | The loop creates exactly the rows the import function describes |
| `CodeRefactoring.ImportedRows` | src/code-refactoring/code-refactoring.service.ts:183-214 | Each created row is the new suggestion built from one of the findings, with its position's id and the batch sprint |
| `CodeRefactoring.ImportedCovers` | src/code-refactoring/code-refactoring.service.ts:183-214 | After an import, every finding of the batch is open in the table |
| `CodeRefactoring.OpenInLonger` | src/code-refactoring/code-refactoring.service.ts:185-193 | A finding open in a table stays open when rows are appended |
| `CodeRefactoring.NothingNewImportsNothing` | src/code-refactoring/code-refactoring.service.ts:185-195 | When every finding is already open, the import creates nothing |
| `CodeRefactoring.ReimportIsIdempotent` | src/code-refactoring/code-refactoring.service.ts:183-214 | Corrected lookup: importing the same batch again creates nothing |
| `CodeRefactoring.LineZeroImportedTwiceAsWritten` | src/code-refactoring/code-refactoring.service.ts:185-213 | As written, a finding on line 0 is imported again on every import, because it is stored with line 0 and looked up with no line |
| `CodeRefactoring.PendingOf` | src/code-refactoring/code-refactoring.service.ts:381-385 | Exactly the sprint's PENDING suggestions |
| `CodeRefactoring.CountStatus` | src/code-refactoring/code-refactoring.service.ts:428-442 | A count never exceeds the number of rows |
| `CodeRefactoring.CountSeverity` | src/code-refactoring/code-refactoring.service.ts:445-455 | A count never exceeds the number of rows |
| `CodeRefactoring.Percentage` | src/code-refactoring/code-refactoring.service.ts:463 | 0 without suggestions. A part of the total lies in 0..100, and is 100 exactly when all are resolved |
| `CodeRefactoring.SummaryPartitions` | src/code-refactoring/code-refactoring.service.ts:428-465 | Resolved, pending and ignored add up to the total, as do the three severities; the percentage lies in 0..100 |
| `CodeRefactoring.StatusPartition` | src/code-refactoring/code-refactoring.service.ts:428-442 | The three statuses partition the sprint's suggestions |
| `CodeRefactoring.SeverityPartition` | src/code-refactoring/code-refactoring.service.ts:445-455 | The three severities partition the sprint's suggestions |
| `CodeRefactoring.CodeRefactoringService.constructor` | src/code-refactoring/code-refactoring.service.ts:14 | Starts with the given tables, which are valid |
| `CodeRefactoring.CodeRefactoringService.ImportRefactoringSuggestions` | src/code-refactoring/code-refactoring.service.ts:173-223 | Corrected (see ## Findings): the duplicate lookup compares the stored line, including line 0. Refused exactly when access is refused, changing nothing. Otherwise the created rows are appended. Imported plus duplicates is the total, and afterwards every finding is open |
| `CodeRefactoring.CodeRefactoringService.CreateRefactoringSuggestion` | src/code-refactoring/code-refactoring.service.ts:228-259 | Refused exactly when access is refused, changing nothing. Otherwise the new suggestion is appended |
| `CodeRefactoring.CodeRefactoringService.GetRepositorySuggestions` | src/code-refactoring/code-refactoring.service.ts:264-288 | Refused exactly when access is refused. Otherwise exactly the repository's suggestions |
| `CodeRefactoring.CodeRefactoringService.UpdateRefactoringSuggestion` | src/code-refactoring/code-refactoring.service.ts:294-352 | Succeeds exactly when the update check passes; a refusal changes nothing. Otherwise only that row is updated. Resolving records the caller and now |
| `CodeRefactoring.CodeRefactoringService.GetSprintPendingSuggestions` | src/code-refactoring/code-refactoring.service.ts:357-397 | Refused exactly when sprint access is refused. Otherwise exactly the sprint's PENDING suggestions |
| `CodeRefactoring.CodeRefactoringService.GetSprintRefactoringSummary` | src/code-refactoring/code-refactoring.service.ts:403-466 | Refused exactly when sprint access is refused. Otherwise the sprint's summary, whose statuses add up to the total, with a percentage in 0..100 |
| `CodeRefactoring.OfRepository` | src/code-refactoring/code-refactoring.service.ts:267-268 | Exactly the repository's suggestions |
| `CodeRefactoring.ImportKeeps` | src/code-refactoring/code-refactoring.service.ts:183-214 | Appending the imported rows keeps the table valid |
| `CodeRefactoring.ImportedIdsAscend` | src/code-refactoring/code-refactoring.service.ts:183-214 | The imported rows have distinct ids |
| `CodeRefactoring.NewSuggestion` | src/code-refactoring/code-refactoring.service.ts:235-241 | A new suggestion is PENDING and unresolved, in the given repository and sprint, with the finding as reported |
| `CodeRefactoring.Applied` | src/code-refactoring/code-refactoring.service.ts:326-338 | A status change changes only the status and the resolution stamps. The status becomes the given one, or stays. A resolution stamps the resolver and the time; any other change keeps the stamps |
| `ProjectConfig.OfProject` | src/project-config/project-config.service.ts:76-79 | Exactly the project's settings |
| `ProjectConfig.InCategory` | src/project-config/project-config.service.ts:110-113 | Exactly the project's settings in the category |
| `ProjectConfig.ConfigById` | src/project-config/project-config.service.ts:185-187 | Found exactly when a row has the id, and it is that row |
| `ProjectConfig.WriteCheck` | src/project-config/project-config.service.ts:45-68 | Passes exactly when the caller is the project's owner or an active SCRUM_MASTER; a refusal is Forbidden |
| `ProjectConfig.WriterMayRead` | src/project-config/project-config.service.ts:18-68 | Whoever may write the settings may also read them |
| `ProjectConfig.TargetCheck` | src/project-config/project-config.service.ts:183-197 | Passes exactly when the caller may write and the setting exists in the project and is not a system setting, which it hands back. A non-writer is Forbidden, a missing or foreign setting NotFound, and a system setting Forbidden |
| `ProjectConfig.NewConfigs` | src/project-config/project-config.service.ts:160-169 | One new setting per entry, in order, with its position's id |
| `ProjectConfig.EditedKeeps` | src/project-config/project-config.service.ts:199-202 | An edit changes only value and description; an empty edit changes nothing, and editing twice is editing once |
| `ProjectConfig.ReplaceConfig` | src/project-config/project-config.service.ts:199-202 | Only the row with the id is edited; every other row is unchanged |
| `ProjectConfig.DropConfig` | src/project-config/project-config.service.ts:225-227 | Exactly the rows with another id remain |
| `ProjectConfig.WritesSpareSystemSettings` | src/project-config/project-config.service.ts:193-227 | A write that passes its checks keeps every system setting, both on update and on delete |
| `ProjectConfig.Sprint0Shape` | src/project-config/project-config.service.ts:250-356 | The Sprint 0 defaults are fourteen settings: four definition_of_done, three development_patterns, four tech_infrastructure and three initial_models, none flagged as system |
| `ProjectConfig.Sprint0Keys` | src/project-config/project-config.service.ts:250-356 | The Sprint 0 defaults have distinct keys |
| `ProjectConfig.KeyNamesDistinct` | src/project-config/project-config.service.ts:250-356 | The fourteen key names are distinct |
| `ProjectConfig.ProjectConfigService.constructor` | src/project-config/project-config.service.ts:13 | Starts with the given projects and settings, whose ids are unique |
| `ProjectConfig.ProjectConfigService.GetProjectConfigs` | src/project-config/project-config.service.ts:73-98 | Refused exactly when access is refused, with its error. Otherwise all the project's settings, grouped by category: the categories are distinct, each group is exactly its category's settings and is non-empty, and every setting's category has a group |
| `ProjectConfig.ProjectConfigService.GetConfigsByCategory` | src/project-config/project-config.service.ts:103-114 | Refused exactly when access is refused. Otherwise exactly the project's settings in the category |
| `ProjectConfig.ProjectConfigService.CreateConfig` | src/project-config/project-config.service.ts:119-147 | Succeeds exactly when the caller may write and the key is free in the category. A non-writer is Forbidden and a used key is BadRequest; a refusal changes nothing. Otherwise the new setting is appended |
| `ProjectConfig.ProjectConfigService.BatchCreateConfigs` | src/project-config/project-config.service.ts:152-172 | Succeeds exactly when the caller may write; a refusal is Forbidden and changes nothing. Otherwise all the new settings are appended, in order |
| `ProjectConfig.ProjectConfigService.UpdateConfig` | src/project-config/project-config.service.ts:177-203 | Succeeds exactly when the target check passes; a refusal changes nothing. Otherwise only that setting is edited |
| `ProjectConfig.ProjectConfigService.DeleteConfig` | src/project-config/project-config.service.ts:208-230 | Succeeds exactly when the target check passes; a refusal changes nothing. Otherwise that setting is gone |
| `ProjectConfig.ProjectConfigService.InitializeSprint0` | src/project-config/project-config.service.ts:235-374 | Succeeds exactly when the caller may write and the project has no settings. A non-writer is Forbidden and a project with settings is BadRequest; a refusal changes nothing. Otherwise the fourteen defaults are appended and counted |
| `ProjectConfig.AppendFreshKeeps` | src/project-config/project-config.service.ts:141-169 | Appending rows with fresh ids keeps ids unique |
| `ProjectConfig.DropKeeps` | src/project-config/project-config.service.ts:225-227 | Deleting keeps ids unique |
| `ProjectConfig.NewConfig` | src/project-config/project-config.service.ts:141-146 | A new setting holds the project and the given key, value and category. It is a system setting exactly when the request says true |
| `SprintRetrospective.RetrospectiveOf` | src/sprint-retrospective/sprint-retrospective.service.ts:146-147 | Found exactly when a retrospective has the sprint, and it is that one |
| `SprintRetrospective.RetrospectiveById` | src/sprint-retrospective/sprint-retrospective.service.ts:242-251 | Found exactly when a retrospective has the id, and it is that one |
| `SprintRetrospective.ActionById` | src/sprint-retrospective/sprint-retrospective.service.ts:242-255 | Found exactly when an action has the id, and it is that action |
| `SprintRetrospective.ActionsOf` | src/sprint-retrospective/sprint-retrospective.service.ts:166-168 | Exactly the retrospective's improvement actions |
| `SprintRetrospective.ActionsOfAppend` | src/sprint-retrospective/sprint-retrospective.service.ts:125-133 | The actions of two runs of rows are those of the first followed by those of the second |
| `SprintRetrospective.NoActionsOf` | src/sprint-retrospective/sprint-retrospective.service.ts:166-168 | Rows of other retrospectives contribute no actions |
| `SprintRetrospective.ScrumMasterCheck` | src/sprint-retrospective/sprint-retrospective.service.ts:56-66 | Passes exactly when sprint access passes and the caller is the owner or an active SCRUM_MASTER, with the sprint. An access error is kept; a refusal after access is Forbidden |
| `SprintRetrospective.CreateCheck` | src/sprint-retrospective/sprint-retrospective.service.ts:56-94 | Passes exactly when the Scrum Master check passes, the sprint is IN_PROGRESS or COMPLETED, it has no retrospective and at least one action is submitted. Its errors are kept; later refusals are BadRequest |
| `SprintRetrospective.NewActions` | src/sprint-retrospective/sprint-retrospective.service.ts:126-133 | One PENDING action per submitted one, in order, with its description, responsible and due date, created now and not completed |
| `SprintRetrospective.NewActionsOf` | src/sprint-retrospective/sprint-retrospective.service.ts:126-133 | The new actions are exactly the new retrospective's actions |
| `SprintRetrospective.AllKeyed` | src/sprint-retrospective/sprint-retrospective.service.ts:166-168 | Rows all of one retrospective are its actions, in order |
| `SprintRetrospective.ReplaceRetrospective` | src/sprint-retrospective/sprint-retrospective.service.ts:206-209 | Only the retrospective with the id is edited |
| `SprintRetrospective.DropActions` | src/sprint-retrospective/sprint-retrospective.service.ts:214-216 | Exactly the actions of other retrospectives remain |
| `SprintRetrospective.DropActionsOthers` | src/sprint-retrospective/sprint-retrospective.service.ts:214-216 | Dropping one retrospective's actions leaves every other retrospective's actions unchanged |
| `SprintRetrospective.ReplacedActions` | src/sprint-retrospective/sprint-retrospective.service.ts:212-229 | After replacement, the retrospective's actions are exactly the new ones; others keep theirs |
| `SprintRetrospective.FreshKeepsUnique` | src/sprint-retrospective/sprint-retrospective.service.ts:126-133 | Appending actions with fresh ids keeps ids unique |
| `SprintRetrospective.EditedAction` | src/sprint-retrospective/sprint-retrospective.service.ts:260-271 | Id, retrospective and creation time never change. The status becomes the given one or stays. Completing it stamps now; otherwise the completion time stays |
| `SprintRetrospective.ReplaceAction` | src/sprint-retrospective/sprint-retrospective.service.ts:268-271 | Only the action with the id is edited |
| `SprintRetrospective.ActionLeTotal` | src/sprint-retrospective/sprint-retrospective.service.ts:326 | The (due date, creation) order relates any two actions |
| `SprintRetrospective.InsertAction` | src/sprint-retrospective/sprint-retrospective.service.ts:326 | Insertion adds exactly the one action |
| `SprintRetrospective.InsertActionSorted` | src/sprint-retrospective/sprint-retrospective.service.ts:326 | Inserting into a sorted list keeps it sorted |
| `SprintRetrospective.HeadPrecedesInserted` | src/sprint-retrospective/sprint-retrospective.service.ts:326 | The head of a sorted list precedes everything after an insertion behind it |
| `SprintRetrospective.ConsSorted` | src/sprint-retrospective/sprint-retrospective.service.ts:326 | An action that precedes a sorted list can head it |
| `SprintRetrospective.SortActions` | src/sprint-retrospective/sprint-retrospective.service.ts:326 | A permutation of the actions, sorted by due date then creation |
| `SprintRetrospective.ActiveOf` | src/sprint-retrospective/sprint-retrospective.service.ts:302-312 | Exactly the PENDING or IN_PROGRESS actions whose retrospective's sprint is in the project |
| `SprintRetrospective.SprintRetrospectiveService.constructor` | src/sprint-retrospective/sprint-retrospective.service.ts:14 | Starts with the given tables, which are valid |
| `SprintRetrospective.SprintRetrospectiveService.GetSprintRetrospective` | src/sprint-retrospective/sprint-retrospective.service.ts:143-177 | An access error is returned as is. It succeeds exactly when the sprint has a retrospective, otherwise NotFound, and gives it with its actions |
| `SprintRetrospective.SprintRetrospectiveService.CreateSprintRetrospective` | src/sprint-retrospective/sprint-retrospective.service.ts:51-138 | Refused exactly when the create check fails, with its error and nothing changed. Otherwise the retrospective and its non-empty actions are appended and returned |
| `SprintRetrospective.SprintRetrospectiveService.UpdateSprintRetrospective` | src/sprint-retrospective/sprint-retrospective.service.ts:182-232 | A failed Scrum Master check changes nothing; a sprint without a retrospective is NotFound. Otherwise the retrospective is edited. Without an action list the actions stay; with one, they are replaced by exactly the new list |
| `SprintRetrospective.SprintRetrospectiveService.UpdateImprovementAction` | src/sprint-retrospective/sprint-retrospective.service.ts:237-274 | An unknown action is NotFound. It succeeds exactly when the caller has access to its retrospective's sprint. Then only that action is edited; a refusal changes nothing |
| `SprintRetrospective.SprintRetrospectiveService.GetActiveImprovementActions` | src/sprint-retrospective/sprint-retrospective.service.ts:279-330 | Refused exactly when access is refused. Otherwise exactly the project's active actions, sorted by due date then creation |
| `SprintRetrospective.CreatedKeeps` | src/sprint-retrospective/sprint-retrospective.service.ts:97-133 | Creating a retrospective for a sprint without one, with fresh action ids, keeps both tables valid |
| `SprintRetrospective.ReplaceRetrospectiveKeeps` | src/sprint-retrospective/sprint-retrospective.service.ts:206-209 | Editing a retrospective keeps both tables valid |
| `SprintRetrospective.ReplacedKeeps` | src/sprint-retrospective/sprint-retrospective.service.ts:212-229 | Replacing a retrospective's actions keeps the action table valid |
| `SprintRetrospective.DropActionsKeeps` | src/sprint-retrospective/sprint-retrospective.service.ts:214-216 | Dropping actions keeps the action table valid |
| `SprintRetrospective.ReplaceActionKeeps` | src/sprint-retrospective/sprint-retrospective.service.ts:268-271 | Editing an action keeps the action table valid |
| `SprintReview.ReviewOf` | src/sprint-review/sprint-review.service.ts:72-74 | Found exactly when a review has the sprint, and it is that review |
| `SprintReview.ManagerCheck` | src/sprint-review/sprint-review.service.ts:55-62 | Passes exactly when sprint access passes and the caller is the owner, an active SCRUM_MASTER or an active PRODUCT_OWNER, with the sprint. An access error is kept; a refusal after access is Forbidden |
| `SprintReview.CreateCheck` | src/sprint-review/sprint-review.service.ts:55-78 | Passes exactly when the manager check passes, the sprint is IN_PROGRESS or COMPLETED and it has no review. Its errors are kept; later refusals are BadRequest |
| `SprintReview.EditedKeepsIdentity` | src/sprint-review/sprint-review.service.ts:173-180 | An edit keeps the id, the sprint and the author; an empty edit changes nothing |
| `SprintReview.EditedIdempotent` | src/sprint-review/sprint-review.service.ts:173-180 | Applying the same edit twice is applying it once |
| `SprintReview.ReplaceReview` | src/sprint-review/sprint-review.service.ts:178-180 | Only the sprint's review is edited |
| `SprintReview.CreatedKeeps` | src/sprint-review/sprint-review.service.ts:72-88 | Adding a review with a fresh id to a sprint without one keeps one review per sprint, and it is the sprint's review |
| `SprintReview.ReviewOfPrefix` | src/sprint-review/sprint-review.service.ts:72-88 | A review appended for a sprint without one is what the lookup finds |
| `SprintReview.ReplaceKeeps` | src/sprint-review/sprint-review.service.ts:178-180 | Editing keeps one review per sprint and unique ids |
| `SprintReview.SprintReviewService.constructor` | src/sprint-review/sprint-review.service.ts:13 | Starts with the given tables, which are valid |
| `SprintReview.SprintReviewService.CreateSprintReview` | src/sprint-review/sprint-review.service.ts:50-111 | Refused exactly when the create check fails, with its error and nothing changed. Otherwise the new review, written by the caller, is appended and becomes the sprint's review |
| `SprintReview.SprintReviewService.GetSprintReview` | src/sprint-review/sprint-review.service.ts:116-147 | An access error is returned as is. It succeeds exactly when the sprint has a review, otherwise NotFound, and gives that review |
| `SprintReview.SprintReviewService.UpdateSprintReview` | src/sprint-review/sprint-review.service.ts:152-203 | A failed manager check changes nothing; a sprint without a review is NotFound. Otherwise only the sprint's review is edited and returned |
| `ExportAssignmentData.Fields` | scripts/export-assignment-data.ts:36-46 | A line's fields are nine texts, one per header column |
| `ExportAssignmentData.DataLines` | scripts/export-assignment-data.ts:32-49 | The data lines exist exactly when every row has a line; then one line per row, in row order |
| `ExportAssignmentData.DataLinesAre` | scripts/export-assignment-data.ts:32-49 | Lines built one per row, in order, are the data lines |
| `ExportAssignmentData.DataLineReadsBack` | scripts/export-assignment-data.ts:36-46 | Each data line of a plain row splits back into that row's fields and holds no newline |
| `ExportRiskData.Fields` | scripts/export-risk-data.ts:31-40 | A line's fields are seven texts, one per header column |
| `ExportRiskData.HeaderHasNoNewline` | scripts/export-risk-data.ts:28 | The header line holds no newline |
| `ExportRiskData.FileReadsBack` | scripts/export-risk-data.ts:28-44 | A file with a newline-free first line and plain rows splits back into that line followed by each row's fields |
| `ExportRiskData.DataReadsBack` | scripts/export-risk-data.ts:31-40 | Each data line of a plain row splits back into that row's fields and holds no newline |
| `Estimation.OrderedByRound` | src/estimation/estimation.service.ts:632-645 | Ordering the session's votes by round keeps exactly the same votes, with rounds never decreasing |
| `Estimation.EstimationService.constructor` | src/estimation/estimation.service.ts:13 | Starts with empty tables |
| `Auth.AuthService.constructor` | src/auth/auth.service.ts:43 | Starts with the given accounts, reset tokens and requests, with unique accounts and tokens |
| `Stories.StoriesService.constructor` | src/stories/stories.service.ts:19 | Starts with the given projects and no stories or tags |
| `Users.UsersService.constructor` | src/users/users.service.ts:17 | Starts with the given accounts, which are unique |
| `Projects.ProjectsService.constructor` | src/projects/projects.service.ts:59 | Starts with the given accounts and no projects or members |
| `Projects.ProjectsService.Insert` | src/projects/projects.service.ts:287-314 | The transaction adds the project row and its member rows; nothing else changes and the tables stay valid |

## Left out

- HTTP wiring is not modelled: controllers, modules, guards, DTO validation decorators and status codes. Errors are `Failure` variants. The one controller function modelled is the client-address extraction in `src/auth/auth.controller.ts`. The copy in `src/users/users.controller.ts` has the same text and is not modelled separately.
- Database transactions are modelled as sequential updates of the class fields. Their atomicity, concurrency and isolation are not modelled.
- Prisma column defaults and generated timestamps are not modelled. Fresh ids and `now` are parameters.
- The database's result ordering is not modelled, except where it is part of a modelled contract. The reads below return rows in table order: the `orderBy` clauses on sprints, stories, tasks, configurations and refactoring findings; projects by `createdAt` descending (src/projects/projects.service.ts:332,345,731; `findAll` and `findUserProjects` give sets of ids); burndown snapshots by date ascending (src/sprint/metrics/burndown.service.ts:32,259); board tasks by status, then `createdAt`, within a column (src/kanban/kanban.service.ts:87,194); estimation sessions by `createdAt` descending (src/estimation/estimation.service.ts:600); a retrospective's actions by `createdAt` (src/sprint-retrospective/sprint-retrospective.service.ts:167); PSP rows by `calculatedAt` descending (src/psp-metrics/psp-metrics.service.ts:141); the `createdAt` tie-break of daily entries; and the secondary order of repositories after the primary one. The orderings that are modelled: descending commit and pull-request dates; newest-first task activity (src/kanban/kanban.service.ts:478), suggestions and risk predictions; the sprint under way with the latest start (src/kanban/kanban.service.ts:50); the highest estimation round (src/estimation/estimation.service.ts:337) and ascending rounds in the voting history; and active improvement actions by due date, then creation (src/sprint-retrospective/sprint-retrospective.service.ts:326).
- `Estimation.HistoryRounds`: rounds come in ascending round order, but the model ignores the `votedAt` order within a round and the extra `hasNumericConsensus` field of each history entry.
- `SprintReview.SprintReviewService.GetSprintReview`: the contract says the review returned is a stored review of the requested sprint. It does not say it is the first such row (`findUnique` on a unique sprint id).
- Select views of users: which columns `select` returns is not modelled. A user view is the account without its password hash.
- `SprintMetrics.IdealLine` and `SprintMetrics.GenerateIdealLine` require a non-zero day count. With zero days, the source divides by zero in floating point and yields `NaN`/`Infinity` values, which the model does not represent.
- Floating point in general is modelled as exact `real` arithmetic. `Math.round` to two decimals, IEEE-754 rounding, NaN and `float()` string parsing are not modelled. String-to-number coercion on the Python side is a parameter that either yields a number or fails.
- `Text.ToLower`, `Text.LowerChar` and `Accounts.NormalizeEmail` lower-case the ASCII letters A-Z only. JavaScript's `toLowerCase` maps all of Unicode: "É" becomes "é", and U+0130 becomes two characters. So an address with non-ASCII capitals is normalised differently by the source (src/users/users.service.ts:28,71 and src/auth/auth.service.ts:72,98,126,191,262), and the model does not promise the source's result for it. `Text.ToUpper` is applied only to the ASCII letters the project-code generator keeps, where the two agree.
- `Burndown.Midnight`: `setHours(0, 0, 0, 0)` works in the server's local time zone. The model uses day boundaries of a fixed `DayMs` on the millisecond clock, that is, UTC.
- `updateTaskStatus` in `src/sprint/sprint.service.ts` (lines 535-583) is not called by any other service or controller: the Kanban board uses its own `updateTaskStatus`, which is modelled. The sprint-service copy is not modelled.
- `ProjectConfig.ProjectConfigService.BatchCreateConfigs` creates every item with no check of key uniqueness, as the source does. A database-level unique constraint, if the schema has one, is not modelled.
- Mail is not modelled: the mailer service and the password-reset mail. Nor is the construction of the application base URL and the preview URL.
- `inviteMember` (src/projects/projects.service.ts:538-688) is not modelled at all: neither the member row it writes nor the invitation mail it sends. It lies outside the modelled project operations.
- Network calls are parameters: the GitHub commit and pull-request fetches (`fetchGitHubCommits` and `fetchGitHubPullRequests`, with their `since` and branch arguments and access tokens), the GitHub OAuth service, and `refactorCodeWithClaude`. The fetched lists are inputs of `SyncRepository`. The AI refactoring call is not modelled.
- `GitHubStore.GitHubSyncService.SyncRepository` assumes the repository's project exists, as every stored repository does in the model's tables.
- Crypto is modelled as uninterpreted function parameters: bcrypt hashing and comparison, sha256, `randomBytes`, and JWT signing and verification.
- The trained model is an abstract classifier: `joblib.load`, `MODEL.predict`, `MODEL.predict_proba` and numpy are not modelled. The classifier is a parameter that returns a label and probabilities in 0..1. Loading the model at start-up is not modelled, and neither are the reads from stdin and writes to stdout.
- The export scripts' database reads and file writes are not modelled. Only the row formatting and the assembly of the CSV text are.
- JSON object key order is not modelled: JSON objects are maps.
- Not modelled: the PDF chart export, the burndown cron scheduler and the randomised database seeds.
- The sprint-retrospective and sprint-review end-to-end tests expect a retrospective (test/sprint-retrospective/sprint-retrospective.e2e-spec.ts:81-97) and a review (test/sprint-review/sprint-review.e2e-spec.ts:67-78) to be created on a sprint just created, which is PLANNED. The services refuse any sprint that is neither IN_PROGRESS nor COMPLETED with BadRequest (src/sprint-retrospective/sprint-retrospective.service.ts:68-73, src/sprint-review/sprint-review.service.ts:64-69). The model follows the code: `SprintRetrospective.CreateCheck` and `SprintReview.CreateCheck` refuse such a sprint.

## Findings

| source | as written | input that shows it | evidently intended | confidence | as-written member | corrected member |
|---|---|---|---|---|---|---|
| src/code-refactoring/code-refactoring.service.ts:189 | the duplicate lookup uses `lineNumber \|\| null`, so a finding on line 0 is looked up with no line number although it is stored with line 0 | importing a finding with `lineNumber: 0` twice stores it twice | a finding is a duplicate when its stored line equals the imported line, so re-importing a batch creates nothing | not executed | `CodeRefactoring.LineZeroImportedTwiceAsWritten` | `CodeRefactoring.ReimportIsIdempotent` |
| src/psp-metrics/psp-metrics.service.ts:151-179 | the project is loaded with its members filtered to role DEVELOPER, and the check then looks for an active SCRUM_MASTER among them | an active scrum master who is not the owner is refused with Forbidden | the owner or an active scrum master may recalculate a sprint's metrics | not executed | `Psp.ScrumMasterRefusedAsWritten` | `Psp.RecalcCheckExtendsAsWritten` |
| src/ml-predictions/ml-predictions.service.ts:116-126 | `reopenedTasks` counts reopened tasks of any status, while the rate divides by completed (DONE) tasks | one DONE task and two reopened tasks still in progress give a reopen rate of 2 and a quality score of -1 | the rate counts reopened tasks among the completed ones, so it stays in 0..1 | not executed | `MlPredictions.QualityBelowZeroAsWritten` | `MlPredictions.Stats` |
| src/ml-predictions/ml-predictions.service.ts:289 | the risk prediction passes the sprint id to `collectTrainingData` in the story-id position | any sprint id that is not a story id: the row records the project id as its sprint and the sprint id as its story | a VELOCITY row records the sprint's own id and no story | not executed | `MlPredictions.VelocityRowAsWritten` | `MlPredictions.VelocityRow` |
| src/github-sync/github-sync.service.ts:438-454 | for the `#n` pattern the lookup uses `match[2]`, which that pattern does not capture, so the `contains` filter is undefined and ignored | a project with stories US-001 and US-007 and the message "fix#7" links US-001 | `#7` links the first project story whose code contains 7 | not executed | `GitHubSync.HashLinksWrongStoryAsWritten` | `GitHubSync.HashLinksNumberedStory` |
