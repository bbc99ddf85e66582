# gosso-admin: verified core

A Dafny model of the parts of gosso-admin that hold an algorithm or a protocol, with proofs of what
those parts promise. `dafny verify dfyconfig.toml` checks all of it.

## What is modelled

**The CSS cascade gate** (`CssLexer`, `CssTokens`, `CssCascade`, `Clamping`, `CssExcerpts`,
`CssReport`, `CssGuarantees`).
`InspectTopLevelBlocks` is the one-pass loop on its six variables. It is proved to append `Inspect`, a
two-phase specification: every character first gets a lexical kind, token by token, and only then are the
code braces and semicolons outside parentheses walked. On top of it: a clean report means a well-layered
sheet and conversely; clean sheets concatenate; the clamped counters
are exact; and the comment stripper, which does not know about strings, never changes a verdict. The lexical
grammar is the gate's own, not CSS Syntax Level 3 (a newline does not end a string, an unquoted `url(` is
plain code inside parentheses). An empty top-level prelude is not reported, as in the code.

**The seeder** (`Jsonb`, `SeedTables`, `SeedTransaction`, `SeedRows`, `SeedGuarantees`, `SeedRuns`, `SeedConfig`).
`Database` holds the five tables; its methods run the transaction statement by statement, any of which may
fail. `SeedRuns` lets any number of seeders interleave. PostgreSQL is assumed to hand the advisory lock to one
transaction at a time until it ends, and to let a serializable transaction commit only if nothing was
committed since its snapshot. Usernames, role names, client ids and the ids of accounts and roles are
assumed unique at the start, and shown to stay so.

**Step-up** (`Sudo`, `SudoRuns`, `SudoModal`, `SudoFlags`, `SudoLosses`,
`SudoRetries`): the provider, its verification handlers that keep the action they captured,
and the passkey submission that retries itself, under a clock that never goes back and storage that may fail
at any call. Busy verification controls are taken to accept no new submission.

**Sign-in** (`Login`, `LoginRuns`): the page's three handlers, with the session free to change at any moment
and answers arriving in any order. Only `BusyFlagsAreExact` takes busy buttons to be inert.

**Collections** (`Collections`, `Hooks`, `Roles`): the three loading hooks under overlapping requests, the
view a tab chooses, and the roles collected from an account page. The setters between two awaits are one
update, and a tab's effect runs before the next one.

**Certification** (`Sorting`, `Certification`, `CertificationReport`, `CertificationChains`): the checks on the ledger, its entry
and a pull request, and chains of accepted pull requests. History is strict and linear, so the merge base is the
base commit, and the base's ledger and package file can be read. Git lists a file it recognises as moved under
its new name only, and owned paths are plain paths without pathspec magic.

**Pure helpers** (`Text`, `Delimited`, `ClientForm`, `AppPaths`, `Translations`).

Strings are sequences of Unicode characters. The source counts UTF-16 units; that shows only in where an
excerpt of more than 100 characters is cut.

## Where the code does not keep what one would expect

Each of these is a lemma, with the exact condition or a concrete witness.

- Seeding twice with the same configuration changes nothing if and only if the admin client's metadata was an
  object or missing: `||` with an array or a scalar appends again (`SeedGuarantees.SeedTwice`).
- Enforcing the admin permission on permissions stored as an object turns them into an array and loses
  their keys (`SeedGuarantees.PermissionsLostIff`).
- The announced minimum of 12 characters for the admin password is 12 bytes (`SeedConfig.FourCharactersCanPass`).
- A redirect setting made of commas and blanks is stored as JSON null (`SeedConfig.NullIff`).
- A pending step-up request is lost exactly on the events that `SudoLosses.DroppedNextIff` names. One of them is
  a surprise: a verification that succeeds after its request was closed and another one opened runs the old
  action and silently drops the new request (`SudoLosses.LateVerificationIsReachable`).
- The passkey retry repeats without a verification exactly if clearing the window fails while it is open and
  readable (`SudoRetries.RetriesAreVerifiedIff`), and then as often as one likes
  (`SudoRetries.RetrySpinsWhenRemovalFails`).
- A rejection with an empty message shows the empty state without any response
  (`Collections.EmptyWithoutResponseIff`), and a response stays hidden behind the fatal error exactly if an
  overlapping request failed before it and nothing was clear yet (`Collections.ResponseIsHiddenIff`).
- A file moved out of the owned paths is not noticed by the transition rules, only by the comparison with the
  reviewed ref (`CertificationChains.MovedFileEscapesTransition`); prefixes touch more than pathspecs select
  (`CertificationChains.TouchedNotSelectedIff`).
- A locale with the key set of a well-keyed one has its structure exactly if it is well-keyed too
  (`Translations.SameKeysSameShapeIff`); dotted keys, empty keys and empty subtrees break it
  (`Translations.DottedKeyLooksNested`, `Translations.EmptyKeyLooksFlat`, `Translations.EmptySubtreeIsInvisible`).
- Toggling a selected value twice moves it to the end (`ClientForm.ToggleTwiceIff`); `appPath` and `routerPath`
  undo each other except on absolute URLs that look like the base path (`AppPaths.SingleRoundTripIff`).

## Model

| member | source | states |
|---|---|---|
| `CssCascade.InspectTopLevelBlocks` | gosso-admin-frontend/scripts/check-css-cascade.mjs:34-86 | The one-pass loop pushes exactly the failures of the two-phase specification behind those already in the log. |
| `CssCascade.ResumedSplits` | gosso-admin-frontend/scripts/check-css-cascade.mjs:45-56 | Entered in any lexer mode, one turn of the loop consumes the characters the token grammar gives that kind and leaves the mode in which the rest is lexed. |
| `CssGuarantees.CleanIffWellLayered` | gosso-admin-frontend/scripts/check-css-cascade.mjs:42-85 | No failure if and only if braces never close more than was opened and balance, every top-level block and statement is blank or allowed, and only space and closed comments trail. |
| `CssGuarantees.CleanReportIsNeutral` | gosso-admin-frontend/scripts/check-css-cascade.mjs:83-85 | A clean report implies that every comment, string, parenthesis and brace is closed and only trivia trails. |
| `CssGuarantees.CleanPrefixIsInvisible` | gosso-admin-frontend/scripts/check-css-cascade.mjs:34-86 | Behind a clean sheet any text is reported on exactly as if it stood alone. |
| `CssGuarantees.CleanSheetsConcatenate` | gosso-admin-frontend/scripts/check-css-cascade.mjs:34-86 | Any number of clean sheets in front of a text do not show, and their concatenation is clean. |
| `CssGuarantees.BlankIffOnlyTrivia` | gosso-admin-frontend/scripts/check-css-cascade.mjs:24-26 | The string-blind stripper leaves nothing of a slice if and only if the scanner sees only white space and closed comments in it. |
| `CssGuarantees.StringBlindnessIsHarmless` | gosso-admin-frontend/scripts/check-css-cascade.mjs:24-32 | Stripping comments without regard for strings gives the same emptiness, at-rule name and statement verdict as stripping only real comments. |
| `CssGuarantees.UnmatchedBracesAreCounted` | gosso-admin-frontend/scripts/check-css-cascade.mjs:61-76 | Unmatched-brace failures number the largest shortfall of any prefix, and the final depth is openers minus closers plus that number. |
| `CssGuarantees.ParenthesesAreCounted` | gosso-admin-frontend/scripts/check-css-cascade.mjs:57-59 | The same law for the parenthesis counter at every position. |
| `CssReport.ParenDepthIsLargestExcess` | gosso-admin-frontend/scripts/check-css-cascade.mjs:57-59 | At every position the parenthesis depth is the largest number by which `(` exceeds `)` among the code characters read last. |
| `CssReport.BraceDepthIsLargestExcess` | gosso-admin-frontend/scripts/check-css-cascade.mjs:61-76 | The same for opening and closing braces among the marks. |
| `CssReport.MarksAre` | gosso-admin-frontend/scripts/check-css-cascade.mjs:59-77 | The marks are, in order, the braces and semicolons that are code and not inside parentheses, both spelled out on the text. |
| `CssReport.ReportIs` | gosso-admin-frontend/scripts/check-css-cascade.mjs:61-85 | Exactly which failures are reported and with what text: at a top-level mark a block, a statement or a closing brace that is not allowed; at the end the depth that is left and the text that trails. |
| `CssTokens.KindsAreTokens` | gosso-admin-frontend/scripts/check-css-cascade.mjs:45-56 | A text is its first token and the tokens of the rest; the token, its kind and its end are spelled out. |
| `CssTokens.CommentEndsAtFirstCloser` | gosso-admin-frontend/scripts/check-css-cascade.mjs:45-48 | A comment ends with the first closer behind its opener, or runs to the end. |
| `CssTokens.StringEndsAtFirstFreeQuote` | gosso-admin-frontend/scripts/check-css-cascade.mjs:49-54 | A string ends with the first quote of its kind behind an even number of backslashes, or runs to the end. |
| `CssLexer.KindsAppend` | gosso-admin-frontend/scripts/check-css-cascade.mjs:45-56 | A text whose tokens are all closed is lexed the same whatever follows, and what follows is lexed on its own. |
| `CssLexer.SealedBehindCode` | gosso-admin-frontend/scripts/check-css-cascade.mjs:61-81 | Cut behind a code character other than a slash, a text has only closed tokens. |
| `Clamping.ClampedIsSumPlusDeficit` | gosso-admin-frontend/scripts/check-css-cascade.mjs:58-73 | A counter clamped at zero is the plain sum plus the largest shortfall of any prefix. |
| `CssExcerpts.AtRuleNameIsLongest` | gosso-admin-frontend/scripts/check-css-cascade.mjs:27-29 | The at-rule name is the longest prefix made of an at sign and name characters, empty if there is none. |
| `CssExcerpts.ExcerptIsOneLine` | gosso-admin-frontend/scripts/check-css-cascade.mjs:30-32 | An excerpt has at most 100 characters, white space only as single blanks, and loses nothing else unless it is cut. |
| `CssExcerpts.CollapsesRun` | gosso-admin-frontend/scripts/check-css-cascade.mjs:30-32 | A run of white space becomes one blank, and what stands around it is collapsed on its own. |
| `CssExcerpts.AllowedRulesAreNames` | gosso-admin-frontend/scripts/check-css-cascade.mjs:7-29 | Every allowed block at-rule is recognised in front of whatever cannot go on a name. |
| `SeedTransaction.Database.RunSeed` | seed/main.go:235-372 | A run commits the tables of the transaction or leaves them unchanged, and commits exactly if the transaction succeeds and no statement it gets to fails. |
| `SeedTables.StatementsComputeSeed` | seed/main.go:250-367 | Running the statements one after the other computes the transaction as a whole. |
| `SeedGuarantees.SeedEstablishes` | seed/main.go:250-367 | A seed keeps names and ids unique, loses nothing, puts its account in charge of the admin role with the admin permission, and leaves the admin client under the seeded policy. |
| `SeedRows.AdministratorIsInserted` | seed/main.go:250-288 | A new administrator is exactly one active account and one verified primary password credential with the given name and hash; for a known one neither table changes. |
| `SeedRows.RoleIsInserted` | seed/main.go:290-308 | A new admin role is inserted field by field; a known one keeps everything but has the permission put behind its permissions unless they grant it. |
| `SeedRows.LinkIsInserted` | seed/main.go:310-328 | The link between that account and that role is appended unless it is there, and no other. |
| `SeedRows.ClientIsInserted` | seed/main.go:330-367 | A new console client is inserted field by field, public and owned by the administrator; a known one has exactly its policy written again, and no other client changes. |
| `SeedGuarantees.SeedAgain` | seed/main.go:250-367 | On tables that already hold what a seed establishes, only the client policy is written again. |
| `SeedGuarantees.SeedTwice` | seed/main.go:336-367 | A second run of the same configuration always succeeds, and changes nothing if and only if every admin client's metadata was an object or missing. |
| `SeedGuarantees.PermissionsLostIff` | seed/main.go:304-308 | Enforcing the admin permission loses keys if and only if the permissions were a non-empty object without it. |
| `SeedGuarantees.SeedAllEstablishes` | seed/main.go:250-367 | Over any list of runs the tables only grow, stay unique, every seeded account stays in charge, and the client carries the redirect URIs of the last run. |
| `SeedGuarantees.OwnerIsFirstCreator` | seed/main.go:330-367 | Where there was no admin client, it stays with the account of the first run. |
| `SeedRuns.InterleavingIsSequential` | seed/main.go:235-372 | Under any interleaving with failures anywhere, the committed tables are the sequential seed over the committed runs in the order they got the lock. |
| `SeedRuns.InterleavingEstablishes` | seed/main.go:235-372 | So every interleaving keeps uniqueness, loses nothing, leaves every committed account in charge, the last policy in force and the first creator as owner. |
| `SeedConfig.MissingSchemaCapabilities` | seed/main.go:38-49 | The loops, in any map order, return the sorted list of gaps. |
| `SeedConfig.IterationOrderIsInvisible` | seed/main.go:38-49 | The list is the same for every iteration order of the map. |
| `SeedConfig.ReportIsExact` | seed/main.go:38-49 | It is sorted and names exactly the required columns that are not available. |
| `SeedConfig.SchemaIsReadyIff` | seed/main.go:30-49 | Nothing is reported missing if and only if the five tables have every column the statements name. |
| `SeedConfig.ParseRedirectUris` | seed/main.go:126-151 | The text returned: the default, a JSON list as written without blanks around it, an error for a bracketed text that is no list of strings, or the listed URIs printed. |
| `SeedConfig.TextReadsAsValue` | seed/main.go:126-151 | With a printer the parser reads back, the text reads as the stored value in every case, and fails exactly when there is none. |
| `SeedConfig.NullIff` | seed/main.go:138-150 | The stored value is JSON null if and only if the setting is not empty, not bracketed, and holds only blanks and commas. |
| `SeedConfig.ListedUrisAreStored` | seed/main.go:138-150 | A comma-separated list of plain URIs is stored as that list, unless as a whole it starts and ends with brackets. |
| `SeedConfig.WrittenListIsKept` | seed/main.go:131-137 | A setting that decodes to a list of strings, of any length, is returned and stored as written. |
| `SeedConfig.RefusedIff` | seed/main.go:131-137 | A setting is refused if and only if it is bracketed and decodes to no list of strings and nulls. |
| `SeedConfig.PolicyIsTwelveBytes` | seed/main.go:87-110 | A password passes if and only if the environment is one of the six development-like names or it has at least twelve bytes; an unset one never does outside them. |
| `SeedConfig.BytesAreCounted` | seed/main.go:107-109 | What is counted are the bytes of the UTF-8 form, one more per character beyond each of its three limits. |
| `SeedConfig.TwelveCharactersSuffice` | seed/main.go:96-110 | Twelve characters always suffice, and for ASCII they are what is required. |
| `SeedConfig.FourCharactersCanPass` | seed/main.go:107-109 | Four characters of three bytes each pass. |
| `SudoModal.RequestOpensModal` | gosso-admin-frontend/src/components/auth/SudoContext.tsx:50-85 | With the window open a request runs at once and the modal stays as it is; otherwise the modal opens afresh for it. |
| `SudoModal.CloseForgets` | gosso-admin-frontend/src/components/auth/SudoContext.tsx:87-91 | Closing forgets the request, the code and the error, and nothing else; a verification under way goes on. |
| `SudoModal.SubmitStartsVerification` | gosso-admin-frontend/src/components/auth/SudoContext.tsx:99-123 | A code of white space is refused with a notice; any other one, and a passkey, starts a verification for the request pending at that moment. |
| `SudoModal.GraceIsFiveMinutes` | gosso-admin-frontend/src/components/auth/SudoContext.tsx:50-72 | A success whose deadline can be stored opens the window for five minutes and not a moment longer. |
| `SudoModal.LostDeadline` | gosso-admin-frontend/src/components/auth/SudoContext.tsx:67-97 | A success whose deadline cannot be stored leaves the window as it was, but its captured action still runs. |
| `SudoModal.RefusalIsFinal` | gosso-admin-frontend/src/pages/account-settings/PasskeysPanel.tsx:66-75 | A refused attempt is over and clears the window it relied on, unless that fails. |
| `SudoModal.RefusalIsAwaited` | gosso-admin-frontend/src/pages/account-settings/PasskeysPanel.tsx:60-83 | Who awaited a refused attempt awaits the one that follows it at once, and nothing new if the request has to wait; that happens at once exactly if the window could not be cleared and is open. |
| `SudoModal.HandlerEnds` | gosso-admin-frontend/src/components/auth/SudoContext.tsx:111-132 | When a handler is over its own flag is cleared, its error shown if it has one, and the rest is kept. |
| `SudoRuns.EveryActionIsCovered` | gosso-admin-frontend/src/components/auth/SudoContext.tsx:50-132 | In every run each action starts less than five minutes behind a successful verification, whatever storage does. |
| `SudoRuns.NoRequestRunsTwice` | gosso-admin-frontend/src/components/auth/SudoContext.tsx:74-132 | No request's action runs twice, whatever closes, new requests and late verifications come in between. |
| `SudoFlags.FlagsAreExact` | gosso-admin-frontend/src/components/auth/SudoContext.tsx:99-132 | In every run each busy flag is set if and only if its own handler is under way. |
| `SudoFlags.FailureCanBeRepeated` | gosso-admin-frontend/src/components/auth/SudoContext.tsx:111-116 | A failed verification shows its message and leaves a pending request that can be verified again. |
| `SudoRuns.DriveAll` | gosso-admin-frontend/src/components/auth/SudoContext.tsx:44-132 | The provider, driven through any list of events, is always in the state the run says. |
| `SudoLosses.DroppedNextIff` | gosso-admin-frontend/src/components/auth/SudoContext.tsx:74-132 | In every reachable state an event loses a request that may still run exactly if it closes the modal or makes another request wait while no verification holds it, is the success of a verification that holds another, or the failure of the one that holds it when it is not pending. |
| `SudoLosses.LostIff` | gosso-admin-frontend/src/components/auth/SudoContext.tsx:74-132 | Over any run a request is lost if and only if one of these events lost it. |
| `SudoLosses.LateVerificationLosesNewRequest` | gosso-admin-frontend/src/components/auth/SudoContext.tsx:93-97 | If another request is pending when a verification succeeds, the captured action runs and the pending request never does. |
| `SudoLosses.LateVerificationIsReachable` | gosso-admin-frontend/src/components/auth/SudoContext.tsx:74-132 | Asking, starting a passkey verification, closing and asking again from a fresh page gets there. |
| `SudoRetries.RetriesAreVerifiedIff` | gosso-admin-frontend/src/pages/account-settings/PasskeysPanel.tsx:60-83 | In every run the window lets only first attempts of a submission through if and only if no refused attempt fails to clear a window that is still open. |
| `SudoRetries.AtMostOneAttemptMoreThanVerifications` | gosso-admin-frontend/src/pages/account-settings/PasskeysPanel.tsx:60-83 | In such a run a passkey submission is attempted at most once more than verifications succeed. |
| `SudoRetries.AttemptsShareVerifications` | gosso-admin-frontend/src/pages/account-settings/PasskeysPanel.tsx:60-83 | In such a run all attempts together are at most submissions plus successful verifications. |
| `SudoRetries.RetrySpinsWhenRemovalFails` | gosso-admin-frontend/src/pages/account-settings/PasskeysPanel.tsx:68-74 | If removal fails inside the window, any number of attempts follow each other without a verification. |
| `LoginRuns.DriveAll` | gosso-admin-frontend/src/pages/Login.tsx:63-178 | The page, driven through any list of events, is always in the state the run says, and its redirects are earned. |
| `Login.LoginPage.Resume` | gosso-admin-frontend/src/pages/Login.tsx:102-175 | What each answer does: error, second factor with its token, refusal of a bare password under strong authentication, or the redirect. |
| `LoginRuns.StrongRedirectsNeedAStrongStep` | gosso-admin-frontend/src/pages/Login.tsx:63-178 | With reason=mfa, in every run each redirect follows the success of its own passkey or code step, never a password alone. |
| `LoginRuns.RunIsEarned` | gosso-admin-frontend/src/pages/Login.tsx:95-175 | In every run, strong or not, each redirect is earned by one successful request of its own, for a password one that asked for no second factor. |
| `LoginRuns.CodesUseTheLatestToken` | gosso-admin-frontend/src/pages/Login.tsx:66-165 | A call steps up if and only if, when it is sent, the page is strong and the account signed in is the one its address names, if any; otherwise a code is only checked with the token of the latest password step that demanded one. |
| `LoginRuns.SubmissionsSend` | gosso-admin-frontend/src/pages/Login.tsx:95-165 | What every submission sends, under the session of the moment, in every state that is not busy. |
| `LoginRuns.SubmissionsReport` | gosso-admin-frontend/src/pages/Login.tsx:95-165 | A submission that is not sent says why; one that is clears the last error and sets its own busy flag. |
| `LoginRuns.AnswersAreShown` | gosso-admin-frontend/src/pages/Login.tsx:130-175 | What every answer leaves on the page and whether it redirects. |
| `LoginRuns.AnswersKeepTheRest` | gosso-admin-frontend/src/pages/Login.tsx:95-175 | An answer touches neither what was typed, nor the session, nor the other requests. |
| `LoginRuns.RedirectsEnd` | gosso-admin-frontend/src/pages/Login.tsx:87-119 | A redirect that fails is reported; one that succeeds leaves the page as it is. |
| `LoginRuns.BackLeavesCodeForm` | gosso-admin-frontend/src/pages/Login.tsx:174-178 | Going back shows the password form and drops the code and the error. |
| `LoginRuns.TypingIsKept` | gosso-admin-frontend/src/pages/Login.tsx:19-30 | What is typed and the session are taken over at any time and change nothing else. |
| `LoginRuns.OpensBlank` | gosso-admin-frontend/src/pages/Login.tsx:19-30 | A page opens with nothing typed, so only a passkey can be sent. |
| `LoginRuns.LatestDemandIsLast` | gosso-admin-frontend/src/pages/Login.tsx:132-137 | The latest demand is the answer of a password step behind which no other demand comes. |
| `LoginRuns.BusyFlagsAreExact` | gosso-admin-frontend/src/pages/Login.tsx:102-178 | If busy buttons are inert, each busy flag is set exactly while its one handler is under way. |
| `Collections.RunsAreConsistent` | gosso-admin-frontend/src/features/audit/useAuditLogs.ts:26-49 | What every run of overlapping requests keeps about data, flags, responses and rejections. |
| `Collections.LoadingExcludesError` | gosso-admin-frontend/src/features/audit/useAuditLogs.ts:28-46 | While loading there is no error, and the data is the initial one or one single response. |
| `Collections.EmptyWithoutResponseIff` | gosso-admin-frontend/src/pages/system-management/AuditLogsTab.tsx:45-131 | Before any response the empty state shows if and only if some rejection had an empty message, and the table never does. |
| `Collections.EmptyNeedsResponse` | gosso-admin-frontend/src/pages/system-management/AuditLogsTab.tsx:106-131 | If every rejection carries a message, the empty state and the table need a response. |
| `Collections.ResolvedForGood` | gosso-admin-frontend/src/pages/system-management/AuditLogsTab.tsx:45-52 | Once a load has settled, the skeleton and the fatal error never come back. |
| `Collections.HasResolvedIff` | gosso-admin-frontend/src/pages/system-management/AuditLogsTab.tsx:45-49 | In every run the tab has resolved if and only if at some moment nothing was loading and no error was shown. |
| `Collections.ResponseIsHiddenIff` | gosso-admin-frontend/src/pages/system-management/AuditLogsTab.tsx:47-131 | The moment a response arrives the fatal error hides it if and only if a request failed with a message since the last one was sent and no moment before was clear; otherwise the view is that of the response. |
| `Collections.ResponseBehindFailureIsHidden` | gosso-admin-frontend/src/pages/system-management/AuditLogsTab.tsx:47-52 | From the start, two overlapping requests, the first failing and the second answered, leave the fatal error in view of the answer. |
| `Hooks.DriveAudit` | gosso-admin-frontend/src/features/audit/useAuditLogs.ts:16-70 | The hook, driven through any list of filter changes, searches, answers and failures, is always in the state the run says. |
| `Hooks.AuditIsCollection` | gosso-admin-frontend/src/features/audit/useAuditLogs.ts:26-70 | That run is a run of overlapping requests, so all that is shown of collections holds of it. |
| `Hooks.AuditShowsLastAnswer` | gosso-admin-frontend/src/features/audit/useAuditLogs.ts:31-39 | In every run what is shown is the last answer to arrive, under the page its own query asked for, and no query is answered twice. |
| `Hooks.FiltersAreSent` | gosso-admin-frontend/src/features/audit/useAuditLogs.ts:31-70 | A search or a page change under a filter that is set asks for exactly that text, and under an empty one for nothing. |
| `Hooks.FiltersAreLastTyped` | gosso-admin-frontend/src/features/audit/useAuditLogs.ts:23-63 | The filters hold what was last typed into them since they were cleared. |
| `Hooks.AuditLogs.ClearFilters` | gosso-admin-frontend/src/features/audit/useAuditLogs.ts:59-63 | Clearing empties the filters and asks for the first page without them. |
| `Hooks.DriveUsers` | gosso-admin-frontend/src/features/users/useAdminUsers.ts:19-34 | The hook, driven through any list of requests, responses and rejections, is always in the state the run says, with the roles of its accounts. |
| `Hooks.RolesFollowAccounts` | gosso-admin-frontend/src/features/users/useAdminUsers.ts:19-34 | In every reachable state, whatever the responses hold, the roles are the collection of the current accounts. |
| `Hooks.DriveClients` | gosso-admin-frontend/src/features/clients/useClients.ts:11-23 | The hook, driven through any list of requests, responses and rejections, is always in the state the run says. |
| `Roles.CollectRolesFromAccounts` | gosso-admin-frontend/src/features/users/roles.ts:7-15 | The nested loops over the map list each role id once, in first-seen order, with its last-seen role. |
| `Roles.OfferedIff` | gosso-admin-frontend/src/features/users/roles.ts:7-15 | An id is offered if and only if some account has a role with it. |
| `Certification.Certify` | gosso-admin-frontend/scripts/check-showcase-parity-certification.mjs:71-254 | The script succeeds if and only if the ledger, the one entry it holds and, where there is a base, the pull request each pass on their own. |
| `Certification.SameStringsIff` | gosso-admin-frontend/scripts/check-showcase-parity-certification.mjs:53-59 | The lists compare alike if and only if they are equal as sets, a missing list being empty. |
| `Certification.Report.CheckLedger` | gosso-admin-frontend/scripts/check-showcase-parity-certification.mjs:71-81 | The checks on the ledger push, in order, exactly the failures whose conditions hold, and return the first entry with the expected id. |
| `Certification.LedgerPassesIff` | gosso-admin-frontend/scripts/check-showcase-parity-certification.mjs:71-81 | The ledger passes if and only if version and policy are as expected and it holds exactly one entry, with the expected id, which is then the one checked. |
| `Certification.Report.CheckEntry` | gosso-admin-frontend/scripts/check-showcase-parity-certification.mjs:82-188 | The checks on the entry push, in order, exactly the failures whose conditions hold. |
| `Certification.VerifiedPassesIff` | gosso-admin-frontend/scripts/check-showcase-parity-certification.mjs:82-188 | With strict history a verified entry passes if and only if its record is in good standing, git could compare, everything it owns is as in the reviewed commit, and a canonical repository at hand agrees. |
| `Certification.VerifiedChecks` | gosso-admin-frontend/scripts/check-showcase-parity-certification.mjs:93-188 | Strict or not, a verified entry passes if and only if all its fields are filled, its runs and artifacts suffice, and nothing changed here or upstream as far as is known. |
| `Certification.UnverifiedPassesIff` | gosso-admin-frontend/scripts/check-showcase-parity-certification.mjs:82-91 | An entry that is not verified passes if and only if its status is one of the two others, its method manual-first and its ids the expected ones. |
| `Certification.Report.CheckTransition` | gosso-admin-frontend/scripts/check-showcase-parity-certification.mjs:191-247 | The checks on a pull request push, in order, exactly the failures whose conditions hold. |
| `Certification.TransitionPassesIff` | gosso-admin-frontend/scripts/check-showcase-parity-certification.mjs:206-246 | Between verified entries a pull request passes if and only if its changes are known, touching or upgrading comes with a new ref and new evidence, and an upgrade with the recorded version. |
| `Certification.DemotionPassesIff` | gosso-admin-frontend/scripts/check-showcase-parity-certification.mjs:191-246 | Unless both entries are verified, a pull request passes if and only if its changes are known or history need not be strict. |
| `CertificationReport.LedgerFailuresAre` | gosso-admin-frontend/scripts/check-showcase-parity-certification.mjs:71-79 | Exactly which failures of the ledger are reported. |
| `CertificationReport.EntryFailuresAre` | gosso-admin-frontend/scripts/check-showcase-parity-certification.mjs:82-188 | Exactly which failures of an entry are reported, each with its condition; beyond its head only a verified one is looked at. |
| `CertificationReport.TransitionFailuresAre` | gosso-admin-frontend/scripts/check-showcase-parity-certification.mjs:191-247 | Exactly which failures of a pull request are reported, each with its condition. |
| `CertificationChains.EveryTouchIsRecertified` | gosso-admin-frontend/scripts/check-showcase-parity-certification.mjs:216-245 | In a chain each touching or upgrading step changes both the ref and the evidence, and what it leaves is fresh against the new ref. |
| `CertificationChains.SameRefTouchesNothing` | gosso-admin-frontend/scripts/check-showcase-parity-certification.mjs:61-65 | While the reviewed ref stays, no step touches a path owned by the entry before it, and the interface package stays. |
| `CertificationChains.SameRefKeepsOwned` | gosso-admin-frontend/scripts/check-showcase-parity-certification.mjs:191-223 | Along such a stretch a file every entry owns has the same content at both ends if and only if it did not disappear. |
| `CertificationChains.SameRefSameContent` | gosso-admin-frontend/scripts/check-showcase-parity-certification.mjs:135-152 | Any two accepted commits with the same reviewed ref agree on every path both entries select, deletions included. |
| `CertificationChains.TouchedNotSelectedIff` | gosso-admin-frontend/scripts/check-showcase-parity-certification.mjs:61-65 | Exactly which paths the prefix test counts that git does not select. |
| `CertificationChains.SelectedIsTouched` | gosso-admin-frontend/scripts/check-showcase-parity-certification.mjs:61-65 | With something owned, every path git selects is also touched. |
| `CertificationChains.MovedFileEscapesTransition` | gosso-admin-frontend/scripts/check-showcase-parity-certification.mjs:193-214 | A file moved out of the owned paths passes the transition rules with an untouched entry, and fails the comparison with the reviewed ref. |
| `Translations.FlattenTranslations` | gosso-admin-frontend/src/i18n/localization.test.ts:9-19 | The recursion over a shared set adds exactly the flattened paths to it. |
| `Translations.FlattenIsDotted` | gosso-admin-frontend/src/i18n/localization.test.ts:9-19 | For every tree the flattened set holds exactly the dotted key paths to leaves, without the empty keys in front. |
| `Translations.AlignedIffSameShape` | gosso-admin-frontend/src/i18n/localization.test.ts:42-48 | For non-empty dot-free keys and no empty subtrees, equal key sets mean the same keys at every level, and conversely. |
| `Translations.SameKeysSameShapeIff` | gosso-admin-frontend/src/i18n/localization.test.ts:42-48 | Against a well-keyed locale with the same key set, another one has the same structure if and only if it has no empty or dotted key and no empty subtree either. |
| `Translations.EmptySubtreeIsInvisible` | gosso-admin-frontend/src/i18n/localization.test.ts:9-19 | An empty subtree leaves no trace in the key set. |
| `Translations.DottedKeyLooksNested` | gosso-admin-frontend/src/i18n/localization.test.ts:11-16 | A dotted key flattens like nesting. |
| `Translations.EmptyKeyLooksFlat` | gosso-admin-frontend/src/i18n/localization.test.ts:11-16 | An empty key leaves its level out. |
| `Delimited.FieldsOfJoin` | gosso-admin-frontend/src/features/clients/clientForm.ts:26-39 | Splitting a joined list equals splitting its entries one after the other, for every list of strings. |
| `Delimited.RoundTripIff` | gosso-admin-frontend/src/features/clients/clientForm.ts:26-39 | A list survives joining and splitting if and only if its entries are trimmed, comma-free and not empty. |
| `ClientForm.SavedFormIsFixed` | gosso-admin-frontend/src/features/clients/clientForm.ts:33-57 | Saving, reopening and saving a form again sends the same payload. |
| `ClientForm.PayloadSendsFields` | gosso-admin-frontend/src/features/clients/clientForm.ts:46-57 | Every list typed into a field is sent, entry by entry, in the field it belongs to; texts are trimmed and the rest is kept. |
| `ClientForm.ReopenedIs` | gosso-admin-frontend/src/features/clients/clientForm.ts:33-57 | What opening and saving makes of any client: texts trimmed, lists read entry by entry, missing lists empty, the rest kept. |
| `ClientForm.UntouchedClientIsKeptIff` | gosso-admin-frontend/src/features/clients/clientForm.ts:33-57 | Opening and saving a client untouched keeps it if and only if its texts are trimmed, its URIs plain and both optional lists present. |
| `ClientForm.ToggleTwiceIff` | gosso-admin-frontend/src/features/clients/clientForm.ts:59-69 | Toggling twice restores the form if and only if the value was absent, or stood once, at the end. |
| `AppPaths.NormalizeIsNormal` | gosso-admin-frontend/src/config/appPaths.ts:1-5 | The base path is empty, or starts with a slash and does not end with one. |
| `AppPaths.NormalizeIsLongestPrefix` | gosso-admin-frontend/src/config/appPaths.ts:1-5 | The result is the rooted value without exactly its trailing slashes. |
| `AppPaths.NormalizeFixedIff` | gosso-admin-frontend/src/config/appPaths.ts:1-5 | Normalizing changes nothing if and only if the path is normal, so it is idempotent. |
| `AppPaths.AppPathTimesPrefixes` | gosso-admin-frontend/src/config/appPaths.ts:10-16 | Applied n times, the base path stands n times in front. |
| `AppPaths.AbsoluteIff` | gosso-admin-frontend/src/config/appPaths.ts:11 | A path is absolute if and only if it starts with http:// or https:// in any letter case. |
| `AppPaths.RoundTrip` | gosso-admin-frontend/src/config/appPaths.ts:10-24 | Stripping as often as was prefixed gives the path back with a leading slash. |
| `AppPaths.SingleRoundTripIff` | gosso-admin-frontend/src/config/appPaths.ts:10-24 | One round trip gives the path back with a leading slash, except for absolute URLs that look like the base path. |

## Left out

- Rendering, styling, translations, theme and router wiring, and the React, i18next and `@gouno/ui` internals.
- `@gosso/client`: its calls are any success or failure; that the server enforces a step-up window is outside the model.
- The regular-expression checks around the cascade scanner (imports, `!important`, colours, primitive selectors) and the file walk.
- The seeder's environment, secret files, connection retries, Argon2 and real SQL; a hash is an opaque value, a decoder of JSON lists a parameter.
- Constraint errors of the database other than a clash of generated ids, and statement failures, which may happen anywhere.
- `CssExcerpts.ExcerptIsOneLine`: counts Unicode characters, not UTF-16 units, because strings are modelled as sequences of characters; an excerpt of more than 100 units with characters outside the basic plane is cut elsewhere in the source.
- Which overlapping request wins in the hooks: the code does not promise it.
- The paging state of useAdminUsers, and the fallback messages of the hooks.
- The success message, modal and name field of the passkey panel, and its other operations.
- The `useSudo` fallback without a provider.
- The branding effect and account switch of the sign-in page, and where a redirect goes; letter-case folding is a parameter.
- Reading the certification script's files and running git: a missing or malformed file stops the script, and what git answers and the review document says are parameters.
- The order of keys in printed JSON: two entries that differ only in it count as equal.
- `check-ui-contracts.mjs`, `check-action-grammar-contracts.mjs`, shell scripts, Nginx and Compose files, and the Playwright suites.
