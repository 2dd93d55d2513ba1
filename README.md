# Ask–answer–review loop: the answer parser, the question store and the settings hooks

This project models the logic of a small question-and-answer web application. Users ask support
questions, get back a canned, structured answer, browse and search earlier questions page by page,
and look up accounts to switch their Conversive and message-blocking settings.

The project has these modules:

- `StructuredAnswer` (`structured_answer.dfy`) models the parser that turns an answer into titled
  sections, and the icon chosen for each section title.
  - The answer is written in a small Markdown-like dialect: numbered bold headings
    `N. **Title**`, titled dash bullets `- **Title**:`, plain dash bullets, and plain text.
  - `ParseAnswerIntoSections` is the parser as the application runs it. It makes one pass over
    the non-blank lines and keeps three accumulators: the open section, the open bullet list,
    and the open nested list.
  - The source appends each bullet list to the open section. It then keeps adding points to that
    list through a second reference. The model makes this aliasing explicit: the open list is an
    index into the open section's body.
  - `Parse` is a reference definition without accumulators: the open bullet list is the last
    bullet node of the open section. The method is proved equal to `Parse`, and the parser's
    promises are proved about `Parse`.
  - The regular expressions are hand-written matchers over characters. The heading,
    titled-bullet and nested-bullet matchers are each proved sound and complete for the line
    shape they accept. The `^\s*-\s+` removal is proved to strip exactly such a prefix, and
    to leave a line without one unchanged.
- `QuestionService` (`question_service.dfy`) models the question store:
  - a class with the store's fields, and its actions: search, change page, look up by id, and
    append a generated answer;
  - the pure filter, lookup and page arithmetic behind those actions.
- `QuestionPagination` (`question_pagination.dfy`) models the pagination bar: the window of
  page links, the previous and next targets, and the ellipsis with the last-page link.
  `PaginationControls` is the bar as the component draws it. `PaginationControlsCorrected` is
  the same bar with the condition for the last-page link corrected (see "## Findings").
- `AccountCheck` (`account_check.dfy`) models what both settings hooks share: the mock back
  end's "an account exists when its id ends in an even digit" rule, and the notices the hooks raise.
- `ConversiveSettings` (`conversive_settings.dfy`) and `AccountSettings` (`account_status.dfy`)
  model the two settings hooks as classes whose methods update the hook state.
  - The pure updaters are functions: the per-feature toggle, the 0/1 request encoding and the
    single-setting update.
- `JsString` (`js_string.dfy`) models the JavaScript string operations the code relies on:
  - `trim` and the white-space class `\s`, using the full ECMAScript white-space and
    line-terminator set;
  - `split("\n")` and `join("\n")`;
  - ASCII `toLowerCase`;
  - `includes`;
  - decimal `toString`.
- `Wrappers` (`wrappers.dfy`) holds the `Option` and `Result` datatypes.

Random values, clock readings and the numeric value of `parseInt` are not computed by the model.
They are parameters of the operations that use them:

- `coin…` booleans stand for `Math.random() > 0.5`;
- `timestamp` stands for `new Date().toISOString()`;
- `parsedAccountId` stands for `parseInt(accountId)`.

A heading whose bold part is only white space yields a section with an empty title: `1. ** **`
becomes a section titled `""`. The model keeps this, and the second `ensures` of `ClassifyHeader`
states it.

## Model

| member | source | states |
|---|---|---|
| StructuredAnswer.SectionIcon | src/components/StructuredAnswer.tsx:14-29 | each of the five known titles, compared after lower-casing, gets its own icon; every other title gets the chevron (iff per icon) |
| StructuredAnswer.SectionIconIgnoresCase | src/components/StructuredAnswer.tsx:15 | the icon does not depend on the case of the title |
| StructuredAnswer.MatchHeader | src/components/StructuredAnswer.tsx:107 | a line the heading pattern accepts starts with a digit, and the captured title is non-empty |
| StructuredAnswer.HeaderMatchComplete | src/components/StructuredAnswer.tsx:107 | every line `digits . white-space **title** rest` with a star-free title is accepted by the heading matcher, capturing that title |
| StructuredAnswer.HeaderMatchSound | src/components/StructuredAnswer.tsx:107-111 | every line the heading matcher accepts has that shape, with the captured title |
| StructuredAnswer.TitledBulletMatchComplete | src/components/StructuredAnswer.tsx:117-119 | every line `white-space - white-space **title**: rest` is accepted by the titled-bullet matcher, capturing the title (the rest is discarded) |
| StructuredAnswer.TitledBulletMatchSound | src/components/StructuredAnswer.tsx:117-119 | every line the titled-bullet matcher accepts has that shape |
| StructuredAnswer.MatchTitledBullet | src/components/StructuredAnswer.tsx:117 | the captured title of a titled bullet is non-empty |
| StructuredAnswer.MatchNestedBullet | src/components/StructuredAnswer.tsx:126 | a line the nested-bullet pattern accepts starts with white space, and the captured title is non-empty |
| StructuredAnswer.NestedBulletMatchComplete | src/components/StructuredAnswer.tsx:126-128 | every line `white-space - white-space **title**: rest` with at least one leading white-space character is accepted by the nested-bullet matcher, capturing the title |
| StructuredAnswer.NestedBulletMatchSound | src/components/StructuredAnswer.tsx:126-128 | every line the nested-bullet matcher accepts has that shape, with at least one leading white-space character |
| StructuredAnswer.NestedBranchUnreachable | src/components/StructuredAnswer.tsx:117-132 | every line the nested-bullet pattern accepts is accepted first, with the same title, by the titled-bullet pattern, so the nested branch never runs |
| StructuredAnswer.Classify | src/components/StructuredAnswer.tsx:107-147 | the texts a line's kind carries are trimmed; a plain line carries the empty text exactly when it is blank |
| StructuredAnswer.StripDashPrefix | src/components/StructuredAnswer.tsx:135 | the result is a suffix of the line: the replace only ever removes a prefix |
| StructuredAnswer.StripDashPrefixSound | src/components/StructuredAnswer.tsx:135 | whenever the replace changes the line, what it removed is white space, a dash and at least one white-space character, and no white space is left at the start (when nothing is removed: `StripDashWithoutGap`) |
| StructuredAnswer.StripDashWithoutGap | src/components/StructuredAnswer.tsx:135 | a dash not followed by white space, as in `-x`, is not removed: the line is unchanged |
| StructuredAnswer.LastBullet | src/components/StructuredAnswer.tsx:120-121 | the index of the last bullet node of a body: it is a bullet, and no later node is one |
| StructuredAnswer.LastBulletAppend | src/components/StructuredAnswer.tsx:120-121 | appending a bullet makes it the open bullet list; appending any other node leaves the open list alone |
| StructuredAnswer.AddPoint | src/components/StructuredAnswer.tsx:136-139 | a point is appended to the points of the aliased list node and nothing else in the body changes |
| StructuredAnswer.Step | src/components/StructuredAnswer.tsx:105-153 | one line never retracts an emitted section and emits at most one; a section is open afterwards unless none was and the line is neither a heading nor plain text |
| StructuredAnswer.NonBlankLines | src/components/StructuredAnswer.tsx:99 | the filter never returns more lines than it is given; its value, order and repetitions included, is pinned down by `NonBlankLinesSingle` and `NonBlankLinesAppend` |
| StructuredAnswer.NonBlankLinesSingle | src/components/StructuredAnswer.tsx:99 | a single line is kept exactly when it is not all white space |
| StructuredAnswer.NonBlankLinesAppend | src/components/StructuredAnswer.tsx:99 | filtering a concatenation is concatenating the filtered parts, so the kept lines stay in order with their repetitions |
| StructuredAnswer.NonBlankLinesKeepsAll | src/components/StructuredAnswer.tsx:99 | lines none of which is blank all pass the filter unchanged |
| StructuredAnswer.NonBlankLinesOfBlank | src/components/StructuredAnswer.tsx:99 | lines all of which are white space are all dropped |
| StructuredAnswer.NonBlankLinesMembers | src/components/StructuredAnswer.tsx:99 | the filter keeps exactly the lines that are not blank: every line it keeps is an input line that is not blank, and every such input line is kept |
| StructuredAnswer.ParseLine | src/components/StructuredAnswer.tsx:105-153 | one loop iteration over the three accumulators has the effect of `Step` on the reference state, and keeps the open bullet index equal to the last bullet of the open section |
| StructuredAnswer.ParseAnswerIntoSections | src/components/StructuredAnswer.tsx:93-161 | the one-pass parser with its accumulators returns exactly the sections of the reference definition `Parse` |
| StructuredAnswer.Parse | src/components/StructuredAnswer.tsx:93-96 | an empty or all-white-space answer has no sections |
| StructuredAnswer.EarlyReturnIsRedundant | src/components/StructuredAnswer.tsx:94-96 | a blank answer yields no sections, and the early return is redundant: the general path gives the same result |
| StructuredAnswer.BlankLineIgnored | src/components/StructuredAnswer.tsx:99 | inserting a blank line anywhere among an answer's lines leaves its sections unchanged |
| StructuredAnswer.SectionTitles | src/components/StructuredAnswer.tsx:107-158 | the section titles are "Information" when plain text precedes the first heading, then the heading titles in order; so the section count is the heading count, plus one in that case |
| StructuredAnswer.ParseWellFormed | src/components/StructuredAnswer.tsx:107-152 | every section has a trimmed title, and a body of trimmed texts and titled bullet lists of trimmed points; no nested node is ever produced |
| StructuredAnswer.StepWellFormed | src/components/StructuredAnswer.tsx:107-152 | one line keeps the parse state well formed |
| StructuredAnswer.BlankLineKind | src/components/StructuredAnswer.tsx:99 | a white-space line is classified as a plain line with no text |
| StructuredAnswer.ClassifyHeader | src/components/StructuredAnswer.tsx:107-111 | every line `digits. white-space **title** rest` is a heading titled with the trimmed bold text; a bold text of white space gives the empty title |
| StructuredAnswer.NoHeaderWithoutDigit | src/components/StructuredAnswer.tsx:107 | a line that does not start with a digit never matches the heading pattern |
| StructuredAnswer.ClassifyTitledBullet | src/components/StructuredAnswer.tsx:117-126 | every line `white-space - white-space **title**: rest`, indented or not, is a titled bullet carrying the trimmed title, never a heading, so the indented form is not a nested list |
| StructuredAnswer.StripDashPrefixOf | src/components/StructuredAnswer.tsx:135 | removing `^\s*-\s+` from white space, a dash, white space and a text that does not start with white space leaves exactly that text |
| StructuredAnswer.ClassifyDashLine | src/components/StructuredAnswer.tsx:134-135 | a dash line that is not a titled bullet is a plain bullet carrying its text trimmed, without the dash and the white space before and after it |
| StructuredAnswer.TitledBulletStartsWithDash | src/components/StructuredAnswer.tsx:117 | a line the titled-bullet pattern accepts starts with a dash once trimmed |
| StructuredAnswer.ClassifyPlain | src/components/StructuredAnswer.tsx:145-150 | a line that does not start with a digit and does not start with a dash once trimmed is plain text carrying the whole line trimmed |
| StructuredAnswer.BulletAfterText | src/components/StructuredAnswer.tsx:136-147 | a dash line after heading, titled bullet and text lines goes into the bullet list, even with the text node after it |
| StructuredAnswer.OrphanBullets | src/components/StructuredAnswer.tsx:117-143 | titled and plain bullets before any section are dropped |
| StructuredAnswer.InformationSection | src/components/StructuredAnswer.tsx:145-151 | text before the first heading opens an "Information" section holding it, which the heading closes |
| StructuredAnswer.ParseOfNonBlankLines | src/components/StructuredAnswer.tsx:99-158 | the sections of an answer with no blank line are the run of the reference definition over its lines' kinds |
| StructuredAnswer.RunByKinds | src/components/StructuredAnswer.tsx:105-153 | running over lines is running over their kinds |
| JsString.Trim | src/components/StructuredAnswer.tsx:94 | the result has no white space at either end and is empty exactly when the input is all white space |
| JsString.TrimIsPadded | src/components/StructuredAnswer.tsx:94 | the result sits in the input with only white space before and after it |
| JsString.TrimOfPadded | src/components/StructuredAnswer.tsx:147 | trimming removes exactly the white-space padding around a trimmed core |
| JsString.SplitLines | src/components/StructuredAnswer.tsx:99 | at least one line, none containing a line feed |
| JsString.JoinSplitLines | src/components/StructuredAnswer.tsx:99 | joining the split lines with line feeds gives back the text |
| JsString.SplitJoinLines | src/components/StructuredAnswer.tsx:99 | splitting joined line-feed-free lines gives back the lines |
| JsString.Lower | src/services/questionService.ts:64 | same length, each character lower-cased (ASCII) |
| JsString.IncludesIff | src/services/questionService.ts:64 | `includes` is true exactly when the needle occurs at some offset of the text |
| JsString.NatToString | src/services/questionService.ts:90 | a non-empty string of decimal digits without a leading zero |
| JsString.NatToStringRoundTrip | src/services/questionService.ts:90 | the decimal value of the rendering is the number |
| JsString.NatToStringInjective | src/services/questionService.ts:90 | distinct numbers render as distinct ids |
| QuestionService.InitialQuestions | src/services/questionService.ts:18-40 | the store starts with three questions |
| QuestionService.InitialIdsSequential | src/services/questionService.ts:18-40 | the seed questions carry the ids "1", "2", "3" in order |
| QuestionService.GeneratedAnswer | src/services/questionService.ts:92 | the canned answer starts with `### Response Structure for ` followed by the question text |
| QuestionService.FilterQuestions | src/services/questionService.ts:64 | the result is an order-preserving subsequence of the questions and holds exactly those whose lower-cased text contains the lower-cased term |
| QuestionService.FilterAppend | src/services/questionService.ts:64 | filtering distributes over concatenation |
| QuestionService.FilterCons | src/services/questionService.ts:64 | a first question is kept exactly when it matches, ahead of the filtered rest |
| QuestionService.SearchResults | src/services/questionService.ts:63-65 | the empty term gives all questions; any other term gives the matching ones, in order |
| QuestionService.EmptyTermFilterIsIdentity | src/services/questionService.ts:63-65 | the filter with the empty term keeps every question |
| QuestionService.SearchResultsIsFilter | src/services/questionService.ts:63-65 | the special case for the empty term agrees with the filter |
| QuestionService.FindById | src/services/questionService.ts:78-80 | nothing exactly when no question has the id; otherwise the first question with it |
| QuestionService.FindFirst | src/services/questionService.ts:78-80 | a question whose id no earlier question carries is the one found |
| QuestionService.FindSequentialId | src/services/questionService.ts:78-80 | with sequential ids, id `k` finds the k-th question |
| QuestionService.FindIdPastEnd | src/services/questionService.ts:90 | with sequential ids, the next id (or any later one) is not yet taken |
| QuestionService.JsSlice | src/services/questionService.ts:111 | never longer than the list; for in-range non-negative bounds it is that sub-list |
| QuestionService.CeilDiv | src/services/questionService.ts:112 | the least page count whose pages cover the list |
| QuestionService.PaginationData | src/services/questionService.ts:106-120 | at most `n` questions per page; page `p >= 1` is positions `[(p-1)n, pn)` cut at the end; page 0 is empty; the page count is the least that covers the list |
| QuestionService.PagesUpToPrefix | src/services/questionService.ts:109-111 | pages 1 to k, read in order, are the first `kn` questions |
| QuestionService.PagesPartition | src/services/questionService.ts:109-112 | pages 1 to totalPages, read in order, are exactly the filtered list |
| QuestionService.QuestionStore.constructor | src/services/questionService.ts:54-59 | the seed questions, all shown, no term, page 1 |
| QuestionService.QuestionStore.SetSearchTerm | src/services/questionService.ts:61-72 | stores the term, shows its search results, resets to page 1, leaves the questions alone |
| QuestionService.QuestionStore.SetCurrentPage | src/services/questionService.ts:74-76 | only the page changes |
| QuestionService.QuestionStore.GetQuestion | src/services/questionService.ts:78-80 | a found question is one of the store's with that id; nothing is found exactly when none has it |
| QuestionService.QuestionStore.GenerateAnswer | src/services/questionService.ts:82-102 | appends exactly one answered question with the next sequential id, the question text, the canned answer and the given timestamp; shows the full list; keeps the term and page; the new id was free before and now finds the new question |
| QuestionService.QuestionStore.GetPaginationData | src/services/questionService.ts:106-120 | the page count and the current page's questions for the store's state |
| QuestionPagination.PreviousTarget | src/components/QuestionPagination.tsx:29 | one page back, and page 1 from page 1 or below |
| QuestionPagination.NextTarget | src/components/QuestionPagination.tsx:68 | one page on, and the last page from the last page or beyond |
| QuestionPagination.TargetsInRange | src/components/QuestionPagination.tsx:29-68 | both targets stay within `[1, totalPages]` when the current page does |
| QuestionPagination.Candidate | src/components/QuestionPagination.tsx:34-39 | slot `i` proposes a page no lower than `i + 1` |
| QuestionPagination.Window | src/components/QuestionPagination.tsx:34-39 | at most one page per slot, every one of them within `[1, totalPages]` |
| QuestionPagination.ShownPages | src/components/QuestionPagination.tsx:34-39 | at most `min(totalPages, 5)` links, strictly increasing, all within `[1, totalPages]` |
| QuestionPagination.WindowIsRange | src/components/QuestionPagination.tsx:34-39 | the slots propose consecutive pages from the first slot's page, cut at the last page |
| QuestionPagination.ShownPagesRange | src/components/QuestionPagination.tsx:34-39 | the window is `currentPage-3 .. currentPage+1` when the current page is past 3 and there are more than five pages, otherwise `1 .. min(totalPages, 5)`, cut at the last page |
| QuestionPagination.CurrentPageShown | src/components/QuestionPagination.tsx:34-44 | the current page is always in the window when `1 <= currentPage <= totalPages` |
| QuestionPagination.AllPagesShownWhenFew | src/components/QuestionPagination.tsx:34-39 | with at most five pages, every page is linked |
| QuestionPagination.LastPageLinkAsWritten | src/components/QuestionPagination.tsx:53 | the condition as written implies the corrected one, and differs from it exactly when there are more than five pages and the current page is two before the last |
| QuestionPagination.LastPageLink | src/components/QuestionPagination.tsx:53 | the corrected condition never holds with five pages or fewer, nor on the last two pages |
| QuestionPagination.LastPageUnreachableAsWritten | src/components/QuestionPagination.tsx:53 | as written, 6 pages with current page 4 show neither page 6 in the window nor the last-page link |
| QuestionPagination.LastPageMissingAsWritten | src/components/QuestionPagination.tsx:53 | as written, the last page is left without a link exactly when the current page is two before it and past 3 |
| QuestionPagination.LastPageShownIff | src/components/QuestionPagination.tsx:53-64 | with the corrected condition, the last page is in the window exactly when the ellipsis and last-page link are not shown |
| QuestionPagination.Links | src/components/QuestionPagination.tsx:42-44 | one link per page in order, active exactly for the current page |
| QuestionPagination.Bar | src/components/QuestionPagination.tsx:20-69 | no bar exactly for at most one page; previous is disabled exactly on page 1 and next exactly on the last page; at most five links; in-range targets; the ellipsis and an extra link to the last page exactly when asked for |
| QuestionPagination.PaginationControls | src/components/QuestionPagination.tsx:20-69 | the bar as drawn: no bar exactly for at most one page; the ellipsis and the last-page link exactly when `totalPages > 5 && currentPage < totalPages - 2` |
| QuestionPagination.PaginationControlsCorrected | src/components/QuestionPagination.tsx:20-69 | the same bar with the ellipsis and the last-page link exactly under the corrected condition |
| QuestionPagination.BarLinksCurrent | src/components/QuestionPagination.tsx:34-44 | the current page has exactly one link, which is active, and no other link is active |
| QuestionPagination.BarLinksPage | src/components/QuestionPagination.tsx:34-44 | the last page has a link in the window exactly when it is in the window |
| QuestionPagination.ControlsAsWritten | src/components/QuestionPagination.tsx:34-64 | the bar as drawn links the current page once and active; the last page gets no link at all exactly when the current page is two before it and past 3 |
| QuestionPagination.ControlsLinkCurrentAndLast | src/components/QuestionPagination.tsx:34-64 | with the corrected condition, the current page has an active link and no other page's link is active; the last page is linked either in the window or after the ellipsis, never both |
| AccountCheck.LastDigit | src/hooks/useConversiveSettings.ts:202 | a value exactly when the id ends in a decimal digit, and then that digit's value; NaN for the empty id |
| AccountCheck.AccountExists | src/hooks/useConversiveSettings.ts:202-203 | an existing account has an id ending in a decimal digit |
| AccountCheck.AccountExistsIffEvenLastChar | src/hooks/useConversiveSettings.ts:202-203 | an account exists exactly when its id ends in 0, 2, 4, 6 or 8 |
| AccountCheck.AccountExistsLastCharOnly | src/hooks/useAccountStatus.ts:117-118 | only the last character of the id matters |
| AccountCheck.TrailingSpaceNeverFound | src/hooks/useAccountStatus.ts:15-29 | an id that is not all white space followed by a white-space character passes the trimmed blank-id guard (its trimmed form is not empty) and is never found (the untrimmed check is in `AccountStatusHook.CheckAccountStatus`) |
| AccountCheck.BoolText | src/hooks/useConversiveSettings.ts:222 | "true" exactly for true, otherwise "false" |
| AccountCheck.EnabledText | src/hooks/useConversiveSettings.ts:86 | "enabled" exactly for true |
| ConversiveSettings.MockCheckConversiveStatus | src/hooks/useConversiveSettings.ts:199-209 | exists by the even-last-digit rule; a missing account's integration is off; an existing one's is the random coin |
| ConversiveSettings.MockSaveIntegrationSetting | src/hooks/useConversiveSettings.ts:211-224 | fails, with "Invalid account ID", exactly for the empty id |
| ConversiveSettings.MockFetchBetaFeatures | src/hooks/useConversiveSettings.ts:226-243 | features 37 and 39, in that order, each enabled by its own coin |
| ConversiveSettings.WithIntegration | src/hooks/useConversiveSettings.ts:66-72 | a missing status stays missing; otherwise only the integration switch changes, to the value |
| ConversiveSettings.SetFeatureEnabled | src/hooks/useConversiveSettings.ts:133-141 | same length and order; features with the id get the value; the others are unchanged |
| ConversiveSettings.SetFeatureEnabledIdempotent | src/hooks/useConversiveSettings.ts:133-141 | switching twice to the same value is switching once |
| ConversiveSettings.SetFeatureEnabledCommutes | src/hooks/useConversiveSettings.ts:133-141 | switching two different features commutes |
| ConversiveSettings.SetAbsentFeature | src/hooks/useConversiveSettings.ts:133-141 | an id no feature carries changes nothing |
| ConversiveSettings.FeatureFlag | src/hooks/useConversiveSettings.ts:155 | 1 exactly when enabled is true; 0 otherwise, including when it is absent |
| ConversiveSettings.BuildPayload | src/hooks/useConversiveSettings.ts:150-157 | one entry per feature in order, same feature id, value 1 iff enabled and 0 iff not |
| ConversiveSettings.PayloadAfterToggle | src/hooks/useConversiveSettings.ts:133-157 | after a feature is switched, the save request carries the new value for it |
| ConversiveSettings.ConversiveSettingsHook.constructor | src/hooks/useConversiveSettings.ts:7-14 | an empty, unchecked form |
| ConversiveSettings.ConversiveSettingsHook.SetAccountId | src/hooks/useConversiveSettings.ts:7 | only the id changes |
| ConversiveSettings.ConversiveSettingsHook.SetUsername | src/hooks/useConversiveSettings.ts:8 | only the username changes |
| ConversiveSettings.ConversiveSettingsHook.CheckAccountStatus | src/hooks/useConversiveSettings.ts:17-53 | a blank id raises the error notice and changes no status field; any other id stores the mock's status, marks it checked and reports found exactly when it exists |
| ConversiveSettings.ConversiveSettingsHook.ResetForm | src/hooks/useConversiveSettings.ts:56-62 | clears the id, username, status, checked flag and beta features |
| ConversiveSettings.ConversiveSettingsHook.UpdateIntegrationSetting | src/hooks/useConversiveSettings.ts:65-73 | the status becomes `WithIntegration` of the old one; nothing else changes |
| ConversiveSettings.ConversiveSettingsHook.SaveIntegration | src/hooks/useConversiveSettings.ts:76-98 | no request exactly when the status is unchecked or the id empty; otherwise it sends the stored switch (off without a status) and always reports success |
| ConversiveSettings.ConversiveSettingsHook.FetchBetaFeatures | src/hooks/useConversiveSettings.ts:101-130 | a blank id or username raises an error and loads nothing; otherwise the mock's features are loaded |
| ConversiveSettings.ConversiveSettingsHook.UpdateBetaFeatureSetting | src/hooks/useConversiveSettings.ts:133-141 | the features become `SetFeatureEnabled` of the old ones; nothing else changes |
| ConversiveSettings.ConversiveSettingsHook.SaveBetaFeatures | src/hooks/useConversiveSettings.ts:144-175 | no request exactly when the id or username is empty; otherwise it sends `BuildPayload` of the current features |
| AccountSettings.SettingName | src/hooks/useAccountStatus.ts:61 | "blockUrlInMessage" exactly for URL blocking |
| AccountSettings.SettingLabel | src/hooks/useAccountStatus.ts:68 | "URL blocking" exactly for URL blocking |
| AccountSettings.MockCheckAccountStatus | src/hooks/useAccountStatus.ts:111-127 | exists by the even-last-digit rule; a missing account has both settings off; an existing one's settings are the coins |
| AccountSettings.MockUpdateBlockSetting | src/hooks/useAccountStatus.ts:129-146 | fails, with "Invalid account ID", exactly for the empty id |
| AccountSettings.WithSetting | src/hooks/useAccountStatus.ts:73-79 | a missing status stays missing; otherwise the named setting takes the value and every other field is unchanged |
| AccountSettings.WithSettingCommutes | src/hooks/useAccountStatus.ts:73-79 | updates of the two settings commute |
| AccountSettings.AccountStatusHook.constructor | src/hooks/useAccountStatus.ts:7-11 | an empty, unchecked form |
| AccountSettings.AccountStatusHook.SetAccountId | src/hooks/useAccountStatus.ts:7 | only the id changes |
| AccountSettings.AccountStatusHook.CheckAccountStatus | src/hooks/useAccountStatus.ts:14-51 | a blank id raises the error notice and changes no status field; any other id stores the mock's status, marks it checked and reports found exactly when it exists |
| AccountSettings.AccountStatusHook.ResetForm | src/hooks/useAccountStatus.ts:54-58 | clears the id and status and unsets the checked flag |
| AccountSettings.AccountStatusHook.UpdateBlockSetting | src/hooks/useAccountStatus.ts:61-95 | no-op exactly when the status is unchecked or the id empty; otherwise only the named setting changes, a missing status stays missing, and success is always reported |

## Left out

- I/O is not modelled: rendering, the accordion and collapsible markup, the toast plumbing, `console.log` and the `setTimeout` delays. Each asynchronous action is one atomic step. The busy flags (`isChecking`, `isUpdating`, `isLoadingBetaFeatures`) are set and then cleared within that step.
- React and zustand state wiring is not modelled. Store and hook state are class fields, and each setter is a plain assignment. Stale closures and interleaved actions are not modelled.
- Random values, clock readings and `parseInt` are parameters, not computations:
  - `Math.random() > 0.5` is a boolean parameter;
  - `new Date().toISOString()` is the `timestamp` parameter of `GenerateAnswer`;
  - the numeric value of `parseInt(accountId)` in the save request is the `parsedAccountId` parameter of `SaveBetaFeatures`. NaN is not represented.
- JsString.Lower: lower-cases ASCII letters only. JavaScript's `toLowerCase` also maps the other Unicode letters.
- StructuredAnswer.ParseAnswerIntoSections: a null or undefined answer is not modelled; the answer is always a string.
- StructuredAnswer.ParseLine: has no nested-bullet branch. `NestedBranchUnreachable` proves that branch is never taken. The `Nested` node kind is kept in the data model, and `ParseWellFormed` shows it never occurs.
- QuestionService.JsSlice: the contract states only the non-negative, in-range case. The body follows JavaScript's rules for negative and out-of-range indexes, but nothing about those rules is proved.
- QuestionService.PaginationData: nothing is proved about pages below 0. JavaScript's negative slice indexes apply there.
- QuestionService.QuestionStore.GenerateAnswer: the returned promise is not modelled; the method returns the new question directly.
- The `feedback` field of a question is carried, but no operation of the core changes it. The chat page that edits it is outside the core.
- src/types/account.ts is not part of this model. The shape of an account status is taken from what `mockCheckAccountStatus` returns.
- Failure branches that cannot occur are not modelled:
  - the error branches of `checkAccountStatus`: the mock checks never fail;
  - the error branches of `saveIntegration` and `updateBlockSetting`: their guards exclude the empty id, the only input on which the mock fails (asserted in the methods);
  - the error branch of `saveBetaFeatures`: its mock never fails.

## Findings

| source | as written | input that shows it | evidently intended | confidence | as-written member | corrected member |
|---|---|---|---|---|---|---|
| src/components/QuestionPagination.tsx:53 | the ellipsis and the last-page link appear only when `totalPages > 5 && currentPage < totalPages - 2` | 6 pages, current page 4: the window is pages 1–5, and `4 < 4` is false, so page 6 has no link (the only way there is the next button) | the last page is always reachable by a link: show the link when `currentPage < totalPages - 1`, which holds exactly when the last page is not in the window | not executed | QuestionPagination.ControlsAsWritten | QuestionPagination.ControlsLinkCurrentAndLast |

`PaginationControls` draws the bar with the condition as written, `LastPageLinkAsWritten`. `PaginationControlsCorrected` draws it with the corrected condition, `LastPageLink`. `LastPageMissingAsWritten` and `LastPageUnreachableAsWritten` state the gap on the conditions alone. `LastPageShownIff` proves that the corrected condition holds exactly when the last page is outside the window.
