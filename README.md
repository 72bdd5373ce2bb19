# Lingua Formula frontend logic in Dafny

Lingua Formula is a Next.js frontend for a formula and terminology database with courses, self-testing quizzes and an admin area. Almost all of it renders pages and calls a REST backend. This project models the logic inside those pages that can be stated exactly, one Dafny module per source file:

- quiz grading, quiz navigation and the segment-label list of the self-testing page (`SelfTesting`);
- the discipline filter of the formulas and terms pages: the URL parser and writer, the toggles, the expanded parents, the parent/child split and the API query (`DisciplineFilter`);
- the term table's filter and `capitalizeSentences` (`Terms`);
- the admin page's rights toggle and redirects (`Admin`);
- the auth provider's user, loading and session marker (`Auth`);
- the token store and `authFetch` (`AuthClient`);
- the navigation overlay (`Navigation`);
- the form handlers of the courses wizard, create-application, reset-password, forgot-password and register pages (`Courses`, `CreateApplication`, `ResetPassword`, `ForgotPassword`, `RegisterPage`);
- the search and tables pages (`TablesSearch`, `Tables`);
- the forgot-password proxy route (`ForgotPasswordRoute`);
- the sign-out banner (`SignOutMessage`), the MathJax wrapper (`ClientMathJax`), the high-contrast setting (`Accessibility`) and `next.config.ts` (`NextConfig`).

Shared modules give the JavaScript semantics these rely on:

- `Wrappers`: `Option`, and the truthiness behind `a || b`.
- `JsStrings`: `trim` with JavaScript's white-space set, ASCII `toLowerCase`/`toUpperCase`, `includes`, `length` in UTF-16 units, `parseInt`, the decimal rendering of integers, and `split`/`join`.
- `UrlParams`: `URLSearchParams` as a list of name/value pairs.
- `Seqs`: subsequences, first occurrences and `filter`.

Every network answer, storage read and timer is an input to the model. A request's possible answers are a datatype, and each handler takes the answer as a parameter. Storage is an optional entry held in a field. Time is a millisecond counter advanced by `Tick`.

Where the source changes state step by step, the model is a class whose methods say, in `ensures`, what the new state is; pure helpers are functions with their own contracts and lemmas beside them.

## Model

| member | source | states |
|---|---|---|
| SelfTesting.FindById | src/app/self-testing/page.tsx:141 | the answer found has the selected id and is one of the answers; none is found exactly when no answer has that id (a null selection matches none) |
| SelfTesting.FindByIdIsFirst | src/app/self-testing/page.tsx:141 | the answer found is the first one with the selected id, as `find` returns |
| SelfTesting.FindCorrect | src/app/self-testing/page.tsx:143 | the answer found is marked correct; none is found exactly when no answer is |
| SelfTesting.FindCorrectIsFirst | src/app/self-testing/page.tsx:143 | the answer found is the first one marked correct, so with several correct answers the earliest decides the grade and the message (lines 143, 152 and 169) |
| SelfTesting.ChoiceGrading | src/app/self-testing/page.tsx:140-147 | with unique answer ids, a multiple-choice or true/false question is graded correct exactly when the selected answer exists and is marked correct; no matching answer gives 'Please select an answer.' |
| SelfTesting.WordProblemRefusals | src/app/self-testing/page.tsx:149-153 | a blank typed answer gives 'Please enter an answer.'; a question with no correct answer gives 'No correct answer defined.' |
| SelfTesting.WordProblemText | src/app/self-testing/page.tsx:154-158 | without a numeric answer, a word problem is correct exactly when the lowercased trimmed input equals the lowercased stored text |
| SelfTesting.StoredTextNotTrimmed | src/app/self-testing/page.tsx:158 | the stored text is not trimmed: a stored ' 42' is not matched by a typed '42' |
| SelfTesting.FailingPartsMembers | src/app/self-testing/page.tsx:164-184 | the failing parts are exactly the parts that have a correct answer and do not match it, kept in part order |
| SelfTesting.MultipartFeedbackCorrect | src/app/self-testing/page.tsx:164-184 | the multipart grade is a pass exactly when no part with a correct answer fails |
| SelfTesting.MultipartAllParts | src/app/self-testing/page.tsx:164-184 | checkAnswer on a multipart question is correct exactly when every part that has a correct answer matches it |
| SelfTesting.MultipartNothingToGrade | src/app/self-testing/page.tsx:168-169 | a multipart question none of whose parts has a correct answer is graded 'Correct!' |
| SelfTesting.GradeMultipart | src/app/self-testing/page.tsx:164-184 | the loop's flag is true exactly when no part fails; its messages are one 'Part (label)' line per failing part, in part order; together they give the multipart feedback |
| SelfTesting.Insert | src/app/self-testing/page.tsx:81 | inserting into a strictly sorted list keeps it strictly sorted and adds exactly the new label |
| SelfTesting.StrLessTransitive | src/app/self-testing/page.tsx:81 | the order used for sorting labels is transitive |
| SelfTesting.StrLessTotal | src/app/self-testing/page.tsx:81 | any two different labels are ordered one way or the other |
| SelfTesting.SortedUnique | src/app/self-testing/page.tsx:75-81 | two strictly sorted lists holding the same labels are equal, so the label list is determined by its contents |
| SelfTesting.SegmentLabels | src/app/self-testing/page.tsx:75-81 | the label list is strictly sorted (so free of duplicates) and holds exactly the non-empty trimmed segment labels of the formulas |
| SelfTesting.QuizQuery | src/app/self-testing/page.tsx:98-104 | the query is exactly the 'segment_type' pair when the type is chapter, module or examination, followed by the trimmed 'segment_label' pair when the label is non-blank, and nothing else |
| SelfTesting.QuizQueryExample | src/app/self-testing/page.tsx:98-104 | type 'chapter' with label ' Ch 1 ' sends the type pair first, then the label 'Ch 1' |
| SelfTesting.QuestionsPath | src/app/self-testing/page.tsx:105-107 | with neither parameter the path is the bare '/api/courses/<id>/questions', with no '?'; otherwise that path, a '?' and the serialized query |
| SelfTesting.ApplyQuestions | src/app/self-testing/page.tsx:109-122 | a reported error or a thrown request leaves an error and an empty list and keeps the course; otherwise the list (or none), the course name (or '') and a truthy course code replace them |
| SelfTesting.QuizPage.SetCurrentIndex | src/app/self-testing/page.tsx:86-92 | a change of index clears the selected answer, the typed answers, `submitted` and the feedback; setting the same index changes nothing |
| SelfTesting.QuizPage.NextQuestion | src/app/self-testing/page.tsx:136 | offered only while `currentIndex < questions.length - 1`; moves to the next question with a cleared answer state |
| SelfTesting.QuizPage.ResetQuiz | src/app/self-testing/page.tsx:126-133 | back to course selection: no questions, index 0, no course name, code or error, no fetch attempted; the answer state is cleared only if the index moved |
| SelfTesting.QuizPage.Submit | src/app/self-testing/page.tsx:189-193 | the feedback is checkAnswer's grade of the current question and the answer is marked submitted |
| SelfTesting.QuizPage.StartQuiz | src/app/self-testing/page.tsx:94-124 | without a course nothing happens and nothing is requested; otherwise the questions path is requested, the fetch marked attempted, loading ends off and the answer is applied as ApplyQuestions says |
| DisciplineFilter.Dedup | src/app/formulas/page.tsx:72 | `new Set(...)` keeps each value once and loses none, as a subsequence of the input ordered by first occurrence |
| DisciplineFilter.ParsedNumbersMembers | src/app/formulas/page.tsx:72 | a number is kept exactly when some comma-separated piece parses to it; pieces that are not numbers are dropped |
| DisciplineFilter.InitialDisciplines | src/app/formulas/page.tsx:69-75 | the initial selection holds exactly the integers parsed from the 'disciplines' parameter, without duplicates, and is empty when the parameter is absent or empty |
| DisciplineFilter.InitialIncludeChildren | src/app/formulas/page.tsx:77-80 | include-children is off exactly when the parameter is present and is exactly 'false' |
| DisciplineFilter.PageUrl | src/app/formulas/page.tsx:231-237 | the page URL is the bare path when nothing is selected and include-children is on, otherwise the path, '?' and the written parameters |
| DisciplineFilter.UrlRoundTrip | src/app/formulas/page.tsx:69-80 | parsing the written parameters gives back the same selection, in the same order, and the same flag |
| DisciplineFilter.Remove | src/app/formulas/page.tsx:252 | deleting an id removes exactly that id and keeps the others in order |
| DisciplineFilter.Toggled | src/app/formulas/page.tsx:248-258 | toggling flips the membership of exactly the given id and keeps the selection free of duplicates |
| DisciplineFilter.ToggleTwice | src/app/formulas/page.tsx:248-258 | toggling the same id twice gives back the same set, and the same sequence when the id was absent |
| DisciplineFilter.ToggleTwiceMovesLast | src/app/formulas/page.tsx:248-258 | a present id toggled off and on again moves to the end of the insertion order |
| DisciplineFilter.ToggledSet | src/app/formulas/page.tsx:260-270 | toggling a parent's expansion flips the membership of exactly that id |
| DisciplineFilter.ToggledSetTwice | src/app/formulas/page.tsx:260-270 | toggling an expansion twice restores the set |
| DisciplineFilter.ChildrenOf | src/app/formulas/page.tsx:280-282 | getChildren(p) holds exactly the children whose parent_id is p, in list order |
| DisciplineFilter.ParentChildPartition | src/app/formulas/page.tsx:277-278 | every discipline is a parent or a child and never both; the two lists add up to the whole |
| DisciplineFilter.ParentsToExpandExactly | src/app/formulas/page.tsx:129-134 | the parents to expand are exactly the parent ids of children whose id is selected in the URL |
| DisciplineFilter.ApiParams | src/app/formulas/page.tsx:166-172 | one 'discipline_id' per selected id, in order, each parsing back to the id; 'include_children' follows only for a non-empty selection |
| DisciplineFilter.FilterPage.constructor | src/app/formulas/page.tsx:82-85 | the state starts from the URL's selection and flag, with nothing expanded |
| DisciplineFilter.FilterPage.FinishMount | src/app/formulas/page.tsx:221 | after the mount effect, the URL writer is active |
| DisciplineFilter.FilterPage.ToggleDiscipline | src/app/formulas/page.tsx:248-258 | the selection becomes the toggled selection and stays free of duplicates |
| DisciplineFilter.FilterPage.ToggleParentExpansion | src/app/formulas/page.tsx:260-270 | the expanded set becomes the toggled set |
| DisciplineFilter.FilterPage.SetIncludeChildren | src/app/formulas/page.tsx:84 | the include-children flag becomes the given value |
| DisciplineFilter.FilterPage.ClearFilters | src/app/formulas/page.tsx:272-274 | the selection becomes empty; include-children is outside the method's frame, so it is unchanged |
| DisciplineFilter.FilterPage.ExpandSelectedParents | src/app/formulas/page.tsx:125-142 | the expanded set grows by exactly the parents of the URL's selected children; nothing already expanded is collapsed |
| DisciplineFilter.FilterPage.UrlUpdate | src/app/formulas/page.tsx:226-246 | nothing on initial mount; afterwards a replacement with the page URL exactly when it differs from the current URL |
| Terms.SkipWhitespace | src/app/terms/page.tsx:11 | the `\s*` of the pattern: the run skipped is all white space and stops at the end or at a non-white-space character |
| Terms.ReplaceFromSpec | src/app/terms/page.tsx:11 | the left-to-right regular-expression scan leaves at each position the character with a lowercase letter uppercased exactly when it follows a sentence end and white space |
| Terms.CapitalizeSentences | src/app/terms/page.tsx:7-10 | blank input comes back unchanged; otherwise the result has the length of the trimmed text |
| Terms.CapitalizeSentencesSpec | src/app/terms/page.tsx:7-11 | position by position: the first character of the trimmed text uppercased, every lowercase letter after '.', '!' or '?' and white space uppercased, everything else kept |
| Terms.CapitalizeSentencesKeepsText | src/app/terms/page.tsx:7-11 | the output equals the trimmed input up to letter case |
| Terms.CapitalizeSentencesUppercases | src/app/terms/page.tsx:10-11 | a lowercase first letter, and every lowercase letter after a sentence end, come out uppercase |
| Terms.FilteredTerms | src/app/terms/page.tsx:179-188 | the filtered list is an order-preserving subsequence of the terms, so never longer |
| Terms.BlankQueriesShowAll | src/app/terms/page.tsx:180-182 | two queries that are blank after trimming show the full list |
| Terms.FilteredTermsMembers | src/app/terms/page.tsx:183-187 | otherwise a term is shown exactly when its lowercased name contains the name query and its lowercased definition the definition query |
| Terms.NarrowerNameQueryShowsFewer | src/app/terms/page.tsx:183-187 | extending the name query to a string containing the old one never shows more terms |
| Terms.NarrowerDefinitionQueryShowsFewer | src/app/terms/page.tsx:183-187 | the same for the definition query |
| Admin.AdminCount | src/app/admin/page.tsx:55 | the admin count is at most the number of rows, and zero exactly when no row is an admin |
| Admin.GuardMatchesButton | src/app/admin/page.tsx:121 | the button's `cannotRevokeSelf` and the guard in toggleAdmin refuse the same rows |
| Admin.SetAdminFlag | src/app/admin/page.tsx:72-74 | the row update keeps the length and changes only rows with the given id, and only their flag |
| Admin.SetAdminFlagOneRow | src/app/admin/page.tsx:72-74 | with unique ids only the target row's flag changes; the other rows and the order stay |
| Admin.SetAdminFlagAbsent | src/app/admin/page.tsx:72-74 | an update of an id no row has leaves the list as it is |
| Admin.SetAdminFlagCount | src/app/admin/page.tsx:72-74 | the update moves the admin count by exactly the change of the target row |
| Admin.NoToggleLeavesZeroAdmins | src/app/admin/page.tsx:55-58 | if the current user is a listed admin, no toggle the guard lets through leaves the list without an admin |
| Admin.AdminRedirect | src/app/admin/page.tsx:38-47 | once auth has loaded, no user goes to '/sign-in' and a non-admin goes to '/'; an admin stays |
| Admin.AdminPage.FetchUsers | src/app/admin/page.tsx:23-36 | only for an admin: the list (or none) or the error is set, and loading ends off |
| Admin.AdminPage.StartToggle | src/app/admin/page.tsx:53-61 | a request goes out exactly when no update is in flight and the guard allows it; it carries the flipped flag, clears the error and marks the row as updating |
| Admin.AdminPage.FinishToggle | src/app/admin/page.tsx:62-78 | success flips the row's flag; a non-OK answer keeps the list and sets the server's error or 'Update failed'; the marker is always cleared; auth is refetched only for the user's own row |
| Auth.SignInReply | src/context/AuthContext.tsx:75-95 | success exactly for an OK answer with a body; a non-OK answer gives the server's error or the fallback; a thrown request or unparseable body gives the generic message; it never rejects |
| Auth.UpdateReply | src/context/AuthContext.tsx:125-135 | a thrown request or unparseable body rejects; a non-OK answer gives the server's error or 'Update failed'; success exactly for an OK answer with a body |
| Auth.RegisterRequest | src/context/AuthContext.tsx:97-103 | an empty or missing display name is sent as undefined; a non-empty one as it is |
| Auth.AuthProvider.constructor | src/context/AuthContext.tsx:40-41 | no user and loading at the start |
| Auth.AuthProvider.SetSessionMarker | src/context/AuthContext.tsx:31-33 | with a window the marker is set, so a session is seen; without one nothing changes |
| Auth.AuthProvider.ClearSessionMarker | src/context/AuthContext.tsx:35-37 | afterwards no session is seen; without a window nothing changes |
| Auth.AuthProvider.Refetch | src/context/AuthContext.tsx:43-69 | loading ends off on every branch; the user is /me's user or none; a session is seen exactly when there is a window and a user; a logout is posted exactly when /me answered with no user |
| Auth.AuthProvider.SignIn | src/context/AuthContext.tsx:75-95 | on success the answer's user is taken and the marker set; otherwise user and marker are unchanged |
| Auth.AuthProvider.Login | src/context/AuthContext.tsx:75-95 | SignIn with the fallback 'Login failed' |
| Auth.AuthProvider.Register | src/context/AuthContext.tsx:97-117 | SignIn with the fallback 'Registration failed' |
| Auth.AuthProvider.Logout | src/context/AuthContext.tsx:119-123 | the marker is cleared before the request; the user becomes none only once the request resolves |
| Auth.AuthProvider.UpdateProfile | src/context/AuthContext.tsx:125-135 | only an OK answer carrying a user replaces the user; the marker and loading are untouched |
| Auth.LoginRegisterAgree | src/context/AuthContext.tsx:75-117 | login and register reply alike except for the fallback of a non-OK answer |
| Auth.SignInErrorNonEmpty | src/context/AuthContext.tsx:87-94 | a failed sign-in never reports an empty message |
| AuthClient.NormalizeValue | src/lib/authClient.ts:24-25 | a header value loses its leading and trailing HTTP white space; the result neither starts nor ends with it, and a value without it is unchanged |
| AuthClient.NormalizeValuePadded | src/lib/authClient.ts:24-25 | any value padded with HTTP white space on either side normalises to the value itself |
| AuthClient.HeadersFrom | src/lib/authClient.ts:24 | the caller's headers are kept in order, with names lower-cased and values normalised, as a Headers object stores them |
| AuthClient.AuthorizedHeaders | src/lib/authClient.ts:23-25 | with a stored token the Authorization header is the normalised 'Bearer ' plus the token; without one the caller's headers are all there is |
| AuthClient.BearerOfPlainToken | src/lib/authClient.ts:25 | a token that does not end in white space is sent exactly as 'Bearer ' plus the token |
| AuthClient.AuthorizedHeadersKeepOthers | src/lib/authClient.ts:24-25 | every header other than Authorization keeps the caller's value |
| AuthClient.ApiBase | src/lib/authClient.ts:6 | the API base is the configured URL, or '' when it is unset or empty |
| AuthClient.TokenStore.StoredToken | src/lib/authClient.ts:9-12 | without a window no token is read; with one, the stored entry |
| AuthClient.TokenStore.SetStoredToken | src/lib/authClient.ts:14-16 | with a window the token is read back afterwards; without one nothing changes |
| AuthClient.TokenStore.ClearStoredToken | src/lib/authClient.ts:18-20 | afterwards no token is read back; without a window nothing changes |
| AuthClient.TokenStore.AuthFetch | src/lib/authClient.ts:22-31 | the URL is the API base plus the path, credentials are always 'include', and the (normalised) bearer header is set exactly when a token is stored |
| AuthClient.NoWindowNoBearer | src/lib/authClient.ts:10 | without a window no request carries a bearer token |
| Navigation.InternalLinkShape | src/context/NavigationContext.tsx:47-53 | a click starts a navigation exactly for an anchor whose href starts with '/' but not '//' and whose target is not '_blank' |
| Navigation.NavigationState.constructor | src/context/NavigationContext.tsx:65-66 | no navigation and no timer at the start |
| Navigation.NavigationState.StartNavigation | src/context/NavigationContext.tsx:76-83 | the overlay is shown and exactly one timer is pending, due a full 8000 ms from now |
| Navigation.NavigationState.EndNavigation | src/context/NavigationContext.tsx:68-74 | the timer is cancelled and the overlay hidden, whatever the state before, so a second call changes nothing |
| Navigation.NavigationState.PathnameChanged | src/context/NavigationContext.tsx:42-44 | every pathname change ends the navigation |
| Navigation.NavigationState.Click | src/context/NavigationContext.tsx:46-56 | an internal link click starts a navigation; any other click changes nothing |
| Navigation.NavigationState.Tick | src/context/NavigationContext.tsx:79-82 | when the pending timer falls due the overlay is hidden and the timer cleared; otherwise nothing changes |
| Navigation.StartThenWait | src/context/NavigationContext.tsx:62-83 | 8000 ms after a start with no other event the overlay is gone |
| Courses.TrimmedOrAbsent | src/app/courses/page.tsx:117-118 | `s.trim() \|\| undefined`: absent exactly for blank input, otherwise trimmed and non-empty |
| Courses.InstitutionRequest | src/app/courses/page.tsx:115-119 | the institution name is sent trimmed, and a blank country or region is left out |
| Courses.CourseInstitution | src/app/courses/page.tsx:158-163 | the course's institution is the selection exactly when the choice is existing or new and a selection exists |
| Courses.CourseRequest | src/app/courses/page.tsx:150-171 | no request for a blank name; otherwise the name is trimmed, a blank code omitted, and the course is 'personal' exactly when it has no institution, else 'academic' |
| Courses.PersonalChoiceIsPersonal | src/app/courses/page.tsx:158-171 | choosing 'personal' makes a personal course whatever was selected before |
| Courses.CoursesPage.OpenAddCourse | src/app/courses/page.tsx:81-94 | the dialog opens at step 1 with 'existing' chosen, nothing selected and every field and error empty |
| Courses.CoursesPage.GoToStep2 | src/app/courses/page.tsx:138-141 | step 2 with the create error cleared; only the dialog may change, so the lists, flags and visibility are kept |
| Courses.CoursesPage.BackToStep1 | src/app/courses/page.tsx:143-146 | step 1 with the create error cleared; only the dialog may change, so the lists, flags and visibility are kept |
| Courses.CoursesPage.CloseAddCourse | src/app/courses/page.tsx:96-105 | the dialog closes at step 1 with the institution form hidden; the course list is reloaded, or kept when the reload fails; loading ends off |
| Courses.CoursesPage.AddInstitution | src/app/courses/page.tsx:107-136 | success appends the institution with missing fields as null, selects it and hides and clears the form; a non-OK answer sets the error and keeps the list; submitting ends off; the course list, its loading flag and the create flag are untouched |
| Courses.CoursesPage.CreateCourse | src/app/courses/page.tsx:148-183 | a blank name gives 'Course name is required.' and no request; otherwise the payload is CourseRequest's, submitting ends off, success closes the dialog and reloads the course list (kept when the reload throws) with loading off; a failure sets the server's error or the default and keeps the list and its loading flag; the institutions and the add-institution flag are untouched |
| CreateApplication.Payload | src/app/applications/create/page.tsx:41-44 | title and problem text are sent trimmed; a blank subject area and an empty difficulty level become null |
| CreateApplication.FailureMessage | src/app/applications/create/page.tsx:49-57 | a non-OK answer reads 'HTTP error! Status: n'; a thrown error its message, or 'An error occurred' |
| CreateApplication.CreateApplicationForm.Submit | src/app/applications/create/page.tsx:19-61 | a blank title or problem text is refused before any request; a missing API URL gives 'API URL is not set'; success navigates to '/applications'; loading ends off after every validated attempt |
| CreateApplication.PayloadNeverBlank | src/app/applications/create/page.tsx:22-25 | a payload that passed validation never has an empty title or problem text |
| ResetPassword.Validate | src/app/reset-password/page.tsx:26-33 | mismatched passwords are reported first; matching ones shorter than 8 UTF-16 units (`.length`) give the length error; the form passes exactly when both checks pass |
| JsStrings.Utf16Length | src/app/reset-password/page.tsx:30 | `.length` counts UTF-16 units: between the number of characters and twice that, and exactly the number of characters when all are in the Basic Multilingual Plane |
| ResetPassword.FourAstralCharactersAccepted | src/app/reset-password/page.tsx:30 | four characters outside the Basic Multilingual Plane are eight UTF-16 units, so they pass the length check |
| ResetPassword.MismatchReportedFirst | src/app/reset-password/page.tsx:26-33 | a mismatch is reported even when the password is also too short |
| ResetPassword.ResetPasswordForm.constructor | src/app/reset-password/page.tsx:11-17 | the token is the link's token, or '' when it has none |
| ResetPassword.ResetPasswordForm.TokenChecked | src/app/reset-password/page.tsx:19-21 | a missing token sets the missing-link error |
| ResetPassword.ResetPasswordForm.Submit | src/app/reset-password/page.tsx:23-53 | no request unless both checks pass; success needs the OK status and `data.ok` and yields the '/sign-in' redirect, which the page performs 2000 ms later; otherwise the server's error or the default, or the generic error for a thrown request; submitting ends off |
| ForgotPassword.NormalizedEmail | src/app/forgot-password/page.tsx:23 | the email is sent trimmed and lowercased: empty exactly for blank input, and without uppercase letters |
| ForgotPassword.NormalizedEmailIdempotent | src/app/forgot-password/page.tsx:23 | normalising twice is normalising once |
| ForgotPassword.ForgotPasswordForm.Submit | src/app/forgot-password/page.tsx:14-37 | success needs the OK status and `data.ok`, shows the message or the default and clears the email; otherwise the server's error or the generic one; submitting ends off |
| RegisterPage.RegisterRedirect | src/app/register/page.tsx:18-22 | the page redirects to '/' exactly when a user is set and no error is shown |
| RegisterPage.RegisterForm.Submit | src/app/register/page.tsx:24-40 | a password shorter than 8 UTF-16 units (`.length`) sets the error and register is not called; otherwise register is called with an empty display name as undefined and its error is shown verbatim; a successful registration writes the session marker when there is a window, and a failed one leaves the user and the marker; submitting ends off |
| TablesSearch.ScoreColor | src/app/tables/search/page.tsx:127-131 | green exactly from 10, amber exactly from 5 below 10, red exactly below 5 |
| TablesSearch.ScoreColorMonotone | src/app/tables/search/page.tsx:127-131 | a higher score never gets a worse colour |
| TablesSearch.FormulaSearchUrl | src/app/tables/search/page.tsx:81-84 | 'q' is sent only for a non-empty query; the '?' is always there |
| TablesSearch.SearchError | src/app/tables/search/page.tsx:85-90 | a non-OK answer reads 'HTTP error! Status: n'; a thrown error its message, or 'Unknown error' |
| TablesSearch.SearchPage.FormulaSearch | src/app/tables/search/page.tsx:76-94 | success replaces the formulas and empties the problem matches; failure keeps both lists and sets the error; at most one list is non-empty; loading ends off |
| TablesSearch.SearchPage.MatchProblem | src/app/tables/search/page.tsx:96-125 | a blank description sets 'Please enter a problem description' and sends nothing; otherwise the untrimmed text is posted, success replaces the matches and empties the formulas, and loading ends off |
| Tables.DifficultyColor | src/app/tables/page.tsx:116-123 | beginner, intermediate and advanced map to their colours in any letter case; anything else or nothing gives '#6c757d' |
| Tables.DifficultyColorIgnoresCase | src/app/tables/page.tsx:117 | lowercasing the level first never changes the colour |
| Tables.FormatDate | src/app/tables/page.tsx:111-114 | a null or empty date reads 'Unknown'; any other is handed to the locale formatter |
| Tables.TableEndpoint | src/app/tables/page.tsx:82-92 | 'formulas' fetches the formulas endpoint, 'applications' the applications endpoint, anything else nothing |
| Tables.LoadError | src/app/tables/page.tsx:84-95 | a non-OK answer reads 'HTTP error! Status: n'; a thrown error its message, or 'Unknown error' |
| Tables.TablesPage.LoadData | src/app/tables/page.tsx:77-98 | the error is cleared first and loading ends off; only the active table's list can change: the rows on success, the error otherwise |
| Tables.TablesPage.LoadFormulaDetails | src/app/tables/page.tsx:100-109 | success selects the formula; failure sets the error; loading is not touched |
| ForgotPasswordRoute.BackendUrl | src/app/api/auth/forgot-password/route.ts:9 | the API URL with one trailing '/' dropped, then '/api/auth/forgot-password' |
| ForgotPasswordRoute.Respond | src/app/api/auth/forgot-password/route.ts:33-36 | `NextResponse.json` with a status outside 200-599 or a null-body status (204, 205, 304) throws, and the outer catch answers 502 'Could not reach backend: ' plus the error's message; any other status is kept with its body |
| ForgotPasswordRoute.BackendReply | src/app/api/auth/forgot-password/route.ts:23-36 | an empty body becomes {} with the backend's status; JSON passes through; non-JSON gives 502 for an OK status, else the backend's status with 'Backend returned n'; whenever the status to answer with is one `NextResponse.json` refuses, 502 with 'Could not reach backend: ' and the thrown message |
| ForgotPasswordRoute.Post | src/app/api/auth/forgot-password/route.ts:5-38 | no API URL gives 500; an unparseable request body 400; an unreachable backend 502 with 'Could not reach backend: ' and the reason; otherwise the backend's reply |
| ForgotPasswordRoute.PostStatuses | src/app/api/auth/forgot-password/route.ts:5-38 | every answer carries 500, 400, 502 or the backend's own status |
| ForgotPasswordRoute.PostPassesOkJson | src/app/api/auth/forgot-password/route.ts:33 | an OK JSON answer of the backend with a status that allows a body is passed on unchanged |
| ForgotPasswordRoute.NullBodyStatusBecomes502 | src/app/api/auth/forgot-password/route.ts:26-36 | a backend 204, 205 or 304 reaches the client as 502: with the thrown message, or the invalid-response error for a 204 or 205 with text that is not JSON |
| SignOutMessage.SignedOut | src/app/components/SignOutMessage.tsx:13 | the banner is triggered exactly when 'signedOut' is '1' |
| SignOutMessage.CleanedPath | src/app/components/SignOutMessage.tsx:15-17 | the rebuilt query has no 'signedOut'; the path is the bare pathname when nothing remains, else pathname '?' query |
| SignOutMessage.CleanedPathKeepsOthers | src/app/components/SignOutMessage.tsx:15-16 | every other parameter keeps its value |
| SignOutMessage.CleanedParamsStayClean | src/app/components/SignOutMessage.tsx:13-17 | cleaning is idempotent and the cleaned URL does not trigger the banner again |
| SignOutMessage.Banner.ParamsChanged | src/app/components/SignOutMessage.tsx:12-20 | a signed-out URL shows the banner, starts the 3000 ms timer if it was hidden, and replaces the URL with the cleaned path; any other URL changes nothing |
| SignOutMessage.Banner.Tick | src/app/components/SignOutMessage.tsx:22-28 | the banner hides when its timer falls due; otherwise nothing changes |
| ClientMathJax.StripAsWritten | src/components/ClientMathJax.tsx:18 | the regex as written: the output has no ']' and no ')', is a subsequence of the input, and equals input that has no bracket |
| ClientMathJax.AsWrittenKeepsBackslash | src/components/ClientMathJax.tsx:18 | as written, `\[x\]` becomes `x\` |
| ClientMathJax.AsWrittenDropsParen | src/components/ClientMathJax.tsx:18 | as written, `f(x)` becomes `f(x` |
| ClientMathJax.StripDelimiters | src/components/ClientMathJax.tsx:18 | the corrected strip removes the four TeX delimiters only: a subsequence of the input, and the input itself when it has no delimiter |
| ClientMathJax.StripWrappedFormula | src/components/ClientMathJax.tsx:18 | corrected, a formula wrapped in `\(` and `\)` comes out as its body |
| ClientMathJax.CorrectedOnCounterexamples | src/components/ClientMathJax.tsx:18 | corrected, `\[x\]` becomes `x` and `f(x)` stays `f(x)` |
| ClientMathJax.Rendered | src/components/ClientMathJax.tsx:17-21 | as written: before mount the text with no ']' and no ')' left, a subsequence of the input, and unchanged when it has no bracket; after mount the children unchanged |
| ClientMathJax.RenderedCorrected | src/components/ClientMathJax.tsx:17-21 | corrected: before mount a subsequence of the input, unchanged when it has no delimiter (brackets of its own kept); after mount the children unchanged |
| Accessibility.Decode | src/context/AccessibilityContext.tsx:26 | the stored value means on exactly when it is '1' |
| Accessibility.Encode | src/context/AccessibilityContext.tsx:32 | the stored value is '1' or '0' |
| Accessibility.DecodeEncode | src/context/AccessibilityContext.tsx:26-32 | decoding what was stored gives back the setting |
| Accessibility.EncodeDecode | src/context/AccessibilityContext.tsx:26-32 | a stored '1' or '0' is written back the same |
| Accessibility.AccessibilitySettings.constructor | src/context/AccessibilityContext.tsx:21-22 | high contrast starts off and not mounted |
| Accessibility.AccessibilitySettings.Mount | src/context/AccessibilityContext.tsx:24-28 | with a window the stored value is read and the class follows it once mounted; without one nothing changes |
| Accessibility.AccessibilitySettings.SetHighContrast | src/context/AccessibilityContext.tsx:30-39 | with a window the value is stored and read back as set, and the class follows it once mounted; without one nothing changes |
| NextConfig.ReactStrictMode | next.config.ts:5 | strict mode is off exactly when NODE_ENV is 'development' |
| NextConfig.Rewrites | next.config.ts:6-11 | no rewrites without an API URL; otherwise exactly two rules, each sending its path to the base plus the same path |
| NextConfig.RewritesIgnoreTrailingSlash | next.config.ts:9 | one trailing '/' on the API URL makes no difference |

## Left out

- Rendering, styling and MathJax typesetting, including the delayed typesetting on the formulas page and its error boundary: these are UI.
- The fetch calls, JSON parsing, `sessionStorage`, `localStorage` and `document`: each answer or stored entry is an input of the method that uses it.
- Floating point: `parseFloat` is a parameter `string -> Option<real>`, and the 0.01 tolerance is compared over reals. Scores and dates are reals and opaque strings.
- `localeCompare` with numeric collation, used to sort segment labels, is replaced by code-point lexicographic order. The labels are the same either way, since the `Set` removes duplicates by exact string equality. Only the order can differ: labels that numeric collation ranks differently ('10' before '9' by code point), or ties ('01' and '1', kept in insertion order by the page), may come out in another order in the model.
- `toLocaleDateString` is a parameter of `Tables.FormatDate`.
- Case mapping covers ASCII letters only.
- Percent-encoding by `URLSearchParams` is not modelled: parameters are name/value pairs, and serialisation is taken as lossless.
- `Headers` objects that combine repeated names are not modelled. `AuthClient.HeadersFrom` keeps one pair per entry given. Header names and values are not validated, so the TypeError a `Headers` object throws for an invalid one is not modelled either.
- DisciplineFilter.ApiUrl: an absolute API URL is assumed. The pages build the request with `new URL(...)`, which throws a TypeError when `NEXT_PUBLIC_API_URL` is unset (the text becomes 'undefined/api/...') or not absolute, so no fetch happens. That throw is not modelled: `ApiUrl` just concatenates, and gives a relative path for an empty base.
- ParseInt: integers are exact, while JavaScript's `parseInt` returns a double. Ids beyond 2^53 that the page would round, and so could merge in its `Set`, stay distinct in the model.
- Effect ordering, async interleaving and the cancellation flags of the pages are not modelled: each handler runs to completion with its answer given.
- The 15 s abort of the proxy route is one way the backend request fails (`Unreachable`). It is not a timer.
- The timers of `Navigation` (8000 ms) and `SignOutMessage` (3000 ms) are a millisecond counter with an explicit `Tick`.
- Every other timer is collapsed into an immediate result. `ResetPassword.ResetPasswordForm.Submit` returns the '/sign-in' redirect that the page schedules 2000 ms later (src/app/reset-password/page.tsx:44). `DisciplineFilter.FilterPage.UrlUpdate` returns the URL replacement that the formulas and terms pages defer with a 0 ms timer (src/app/formulas/page.tsx:241-243, src/app/terms/page.tsx:151).
- The JWT is never stored by the auth provider, so login does not touch `AuthClient.TokenStore`.
- A `/me` answer whose body is `null` is not distinguished from one that throws.
- JSON values that the proxy route passes through are of an abstract type with the parser passed in.
- The courses page's fetch of the course list once a user is known (src/app/courses/page.tsx:53-68) is not modelled, and neither is the `coursesError` it sets from `data.error` or from a throw ('Failed to load courses.'). The model's course list changes only through the reload in `CloseAddCourse`.
- The institution list fetch that runs while the dialog is open at step 1 with 'existing' chosen (src/app/courses/page.tsx:70-79) is not modelled.
- The quiz page's course list fetch and the course selection inputs are not modelled: the selection is the `selectedCourseId`, `segmentType` and `segmentLabel` fields.
- The terms page repeats the formulas page's filter code; `DisciplineFilter` models both, with the page path and endpoint as parameters, and cites the formulas page.
- `Courses.CoursesPage` groups the dialog's fields into the `Dialog` record and `SelfTesting.QuizPage` groups the answer state into `AnswerState`: each is written as a whole, field by field in the source.
- The sign-in and account pages, the home page, layouts, navigation bars and the password input have no logic of their own.

## Findings

| source | as written | input that shows it | evidently intended | confidence | as-written member | corrected member |
|---|---|---|---|---|---|---|
| src/components/ClientMathJax.tsx:18 | `/\\\[\|\]\|\\\(\|\)/g` removes `\[` and `\(` but a bare `]` and `)`, so the backslash of `\]` survives | `\[x\]` gives `x\` | remove the four delimiters `\[`, `\]`, `\(`, `\)`, giving `x` | not executed | ClientMathJax.AsWrittenKeepsBackslash | ClientMathJax.StripWrappedFormula |
| src/components/ClientMathJax.tsx:18 | the same pattern removes every `)` and `]`, including ones in the formula | `f(x)` gives `f(x` | leave brackets that are not part of a delimiter, giving `f(x)` | not executed | ClientMathJax.AsWrittenDropsParen | ClientMathJax.RenderedCorrected |
