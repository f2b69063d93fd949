# Feedback wall view model, in Dafny

The feedback wall is a React front end over a hosted Postgres database. Users
post feedback, vote each entry up or down, and see the entries ranked by net
votes, with a "Top 5" bar chart beside them. Almost all of the repository is
markup. This project models the logic the components hold, one Dafny module
per component:

- `FeedbackList` (`feedback_list.dfy`) and `Ranking` (`ranking.dfy`) model one
  refresh of the list. The signed-in user's votes are folded into a map by a
  loop, then left-joined onto the aggregated rows (no entry gives `None`). The
  result is sorted in place by net votes, then newest first, and published.
  The model proves the refresh against a specification: the published list is
  ranked and is a permutation of the annotated rows. A separate lemma shows
  that any two rankings of the same rows agree key by key.
- `VoteButton` (`vote_button.dfy`) and `VoteStore` (`vote_store.dfy`) model a
  click. The `votes` table is a map from (feedback id, user id) to a polarity.
  A click deletes, updates or inserts, brackets the call with `isVoting`, and
  then signals the parent unless the call threw.
- `FeedbackForm` (`feedback_form.dfy`) models a submit. It checks sign-in,
  then a non-blank trimmed title, then a configured client. It builds the
  insert payload and updates the form state on success and on error.
- `VoteChart` (`vote_chart.dfy`) models the chart. It maps rows to bars (an
  abridged axis name, a height clamped at zero), picks colours round-robin
  and chooses what to render. It also models how a refresh updates its state.
- `FeedbackCard` (`feedback_card.dfy`) models the relative-age label and the
  sign of a vote count.
- `Types` (`types.dfy`) holds the row shapes of `src/types/database.ts`.
  `JsText` (`js_text.dfy`) holds the JavaScript string operations used above:
  `trim` and its whitespace set, `substring`, and decimal text.

Backend reads are parameters of type `Fetch<T>` = `Rows(rows)` | `Null` |
`Error(message)`. How a store call ended (done, returned an error, or threw) is a `CallOutcome`
or `InsertOutcome` parameter.
The signed-in user is an `Option<string>` id. "A client exists" is a boolean
`configured`, which is `isConfigured` in the source. Timestamps are integer
milliseconds.

Three behaviours of the code are easy to miss, and the model keeps them:

- When the aggregated read fails, the code keeps the previous list on screen
  and only clears `loading`. It does not empty the list.
- After a vote write, the button calls `onVoteChange`, which refetches at
  once. The view does not wait for a change notification.
- A vote write's returned error is not inspected: `onVoteChange` still runs.
  Only a thrown exception skips it, and that exception is only logged. No
  error reaches the user.

## Model

| member | source | states |
|---|---|---|
| `Types.VoteTypeRoundTrip` | src/types/database.ts:1 | the `vote_type` enum has exactly the two spellings "up" and "down", and each reads back as its polarity |
| `Types.ParseVoteType` | src/types/database.ts:1 | a string is accepted as a polarity exactly when it is "up" or "down" |
| `Types.TotalsAndVoteDetermine` | src/types/database.ts:11-16 | a `FeedbackWithVotes` is exactly its view row plus `user_vote`: two are equal exactly when their rows and their user votes are |
| `VoteStore.GetUserVote` | src/types/database.ts:125-131 | `get_user_vote` gives the stored polarity of the (feedback, user) pair, or null when the pair has no vote |
| `VoteStore.Deleted` | src/components/VoteButton.tsx:40-44 | delete filtered by feedback and user removes that pair's vote and keeps every other pair |
| `VoteStore.Updated` | src/components/VoteButton.tsx:46-50 | update filtered by feedback and user sets that pair's polarity if it has a vote, matches nothing otherwise, and keeps every other pair |
| `VoteStore.VoteTable.Delete` | src/components/VoteButton.tsx:40-44 | the table becomes `Deleted` of the old table |
| `VoteStore.VoteTable.Update` | src/components/VoteButton.tsx:46-50 | the table becomes `Updated` of the old table |
| `VoteStore.Inserted` | src/types/database.ts:77-83 | an insert needs feedback, user and polarity; it adds the pair, or is refused and keeps the old vote when the pair already has one; other pairs are kept |
| `VoteStore.VoteTable.Insert` | src/components/VoteButton.tsx:52-58 | the insert reports acceptance exactly when the pair had no vote, and the table becomes `Inserted` of the old table |
| `VoteButton.AtMostOneActive` | src/components/VoteButton.tsx:26 | of a card's two buttons at most one is active, and one is active exactly when the user has a vote |
| `VoteButton.IsActive` | src/components/VoteButton.tsx:26 | a button is active only when the user has a vote, and never when that vote has the other polarity |
| `VoteButton.Decide` | src/components/VoteButton.tsx:26-58 | a click deletes exactly when the button is active (`currentUserVote === voteType`), updates to the clicked polarity when another vote exists, and inserts the clicked polarity when there is none |
| `VoteButton.Apply` | src/components/VoteButton.tsx:39-58 | a delete leaves the pair without a vote; an update changes the pair's polarity only if it has a vote; an insert gives the pair the new polarity only if it has none; every other pair keeps its vote |
| `VoteButton.ClickToggles` | src/components/VoteButton.tsx:39-58 | with the displayed vote equal to the stored one, a click leaves the pair without a vote when the clicked polarity was stored, with the clicked polarity otherwise, and no other pair changes |
| `VoteButton.ClickTwiceRestores` | src/components/VoteButton.tsx:39-58 | two clicks on the same button restore the table when the pair started with no vote or with that button's polarity |
| `VoteButton.UpThenDownSwitches` | src/components/VoteButton.tsx:39-58 | from no vote, up then down leaves exactly one vote for the pair, a down vote, and nothing else changed |
| `VoteButton.VoteButtonState.HandleVote` | src/components/VoteButton.tsx:28-66 | without a user only the sign-in prompt is requested and nothing is written; without a client nothing happens; otherwise the decided write takes effect when the call completes, not when the store returns an error, and either way when it threw after reaching the store; `onVoteChange` follows every return, error values included, and only a throw skips it; `isVoting` is false afterwards |
| `VoteButton.VoteButtonState.Perform` | src/components/VoteButton.tsx:38-63 | the write runs only while `isVoting` holds; the table becomes the decided operation applied exactly when the write took effect, and stays as it was otherwise; `onVoteChange` follows unless the call threw |
| `JsText.TrimIsCore` | src/components/FeedbackForm.tsx:26-43 | `trim` returns a contiguous piece of the input whose removed margins are all JavaScript whitespace, and which starts and ends with a non-whitespace character when not empty |
| `JsText.TrimMargins` | src/components/FeedbackForm.tsx:26 | `trim` keeps one contiguous piece of the input, and both cut-off margins are all whitespace |
| `JsText.TrimEmptyIffBlank` | src/components/FeedbackForm.tsx:26 | a string trims to empty exactly when every character is whitespace |
| `JsText.TrimIdempotent` | src/components/FeedbackForm.tsx:42-43 | trimming a trimmed string changes nothing |
| `JsText.DecimalRoundTrip` | src/components/FeedbackCard.tsx:22-24 | the decimal text a template literal gives a count reads back as that count |
| `FeedbackForm.CheckSubmit` | src/components/FeedbackForm.tsx:21-34 | the checks run in order: no user first, then a blank title ("Title is required"), then no client ("Supabase not configured"); only the first failing one counts |
| `FeedbackForm.OptionalText` | src/components/FeedbackForm.tsx:43 | the description is sent as null exactly when it is blank, and otherwise as its non-empty trimmed text |
| `FeedbackForm.PayloadIsClean` | src/components/FeedbackForm.tsx:39-45 | after the checks pass, the inserted row has a non-empty title trimmed at both ends, a trimmed non-empty description or null, `created_by` the user, and no id or date of its own |
| `FeedbackForm.EnabledButtonPassesChecks` | src/components/FeedbackForm.tsx:130 | the submit button is disabled exactly as the handler would refuse: an enabled button with a signed-in user passes every check, and a failed title or client check comes with a disabled button |
| `FeedbackForm.SubmitDisabled` | src/components/FeedbackForm.tsx:130 | the button is disabled exactly while submitting, for a title made only of whitespace, or without a client |
| `FeedbackForm.FeedbackFormState.HandleSubmit` | src/components/FeedbackForm.tsx:18-57 | without a user only the sign-in prompt is requested and `error` is untouched; a blank title or missing client sets that check's message, inserts nothing and changes nothing else; otherwise the trimmed payload is requested and the form ends as `AfterInsert` says for the insert's outcome |
| `FeedbackForm.FeedbackFormState.Submit` | src/components/FeedbackForm.tsx:36-56 | past the checks: the given row is requested and the form ends as `AfterInsert` says for the insert's outcome |
| `FeedbackForm.AfterInsert` | src/components/FeedbackForm.tsx:36-56 | after a successful insert the inputs are cleared, the error is empty and the success message shows; after a returned error its message shows and the inputs and success flag are kept; both stop submitting; an insert that throws leaves the form submitting, the error cleared and the inputs kept |
| `FeedbackForm.FeedbackFormState.SetTitle` | src/components/FeedbackForm.tsx:86 | typing changes only the title |
| `FeedbackForm.FeedbackFormState.SetDescription` | src/components/FeedbackForm.tsx:101 | typing changes only the description |
| `FeedbackForm.FeedbackFormState.SuccessElapsed` | src/components/FeedbackForm.tsx:53 | the timer hides the success message and changes nothing else |
| `VoteChart.AxisName` | src/components/VoteChart.tsx:196 | a title of at most 12 characters is the axis name; a longer one becomes its first 12 characters and "...", so a name has at most 15 characters |
| `VoteChart.BarHeight` | src/components/VoteChart.tsx:198 | a bar's height is never negative, equals the net count when that is not negative, and is 0 otherwise |
| `VoteChart.ToChartItem` | src/components/VoteChart.tsx:195-201 | a bar keeps its row's full title and both tallies, has a height that is never negative and equals the count when that is not negative, and an axis label of at most 15 characters |
| `VoteChart.ChartData` | src/components/VoteChart.tsx:195-201 | one bar per row, in row order |
| `VoteChart.ChartDataFaithful` | src/components/VoteChart.tsx:195-201 | the bars keep the rows' number and order; each bar's full title, upvotes and downvotes are its row's |
| `VoteChart.BarColorsCycle` | src/components/VoteChart.tsx:250-251 | bar colours repeat every five bars, and the five bars of a top-five chart get five different colours |
| `VoteChart.BarColor` | src/components/VoteChart.tsx:251 | every bar gets one of the five palette colours |
| `VoteChart.TooltipPrefix` | src/components/VoteChart.tsx:41-42 | the tooltip's sign is `+` exactly for a height of zero or more, and nothing otherwise |
| `VoteChart.TooltipTone` | src/components/VoteChart.tsx:41 | the tooltip's count is green exactly for a height of zero or more, and red otherwise |
| `VoteChart.TooltipAlwaysPositive` | src/components/VoteChart.tsx:41-42 | because heights are clamped, every tooltip shows the `+` sign in green |
| `VoteChart.Render` | src/components/VoteChart.tsx:182-193 | nothing is shown without a client or while loading; "No feedback yet" is shown for no rows; otherwise at least one bar, built from the rows |
| `VoteChart.VoteChartState.FetchTopFeedback` | src/components/VoteChart.tsx:72-99 | `loading` always ends; without a client nothing else changes; a failed read keeps the previous rows, a successful one replaces them (with no rows for null data); the update indicator is raised when asked |
| `VoteChart.VoteChartState.UpdateIndicatorElapsed` | src/components/VoteChart.tsx:96-98 | the indicator timer only lowers `isUpdating` |
| `FeedbackCard.FormatDate` | src/components/FeedbackCard.tsx:13-26 | an age under a minute, including a negative one, is "just now"; from 1 to 59 whole minutes it is minutes ago; from 1 to 23 whole hours it is hours ago; from 1 to 6 whole days it is days ago; from 7 days on it falls back to the date |
| `FeedbackCard.LabelReadsBack` | src/components/FeedbackCard.tsx:21-25 | the label is "just now", or the count in decimal followed by "m ago", "h ago" or "d ago", or the locale date |
| `FeedbackCard.VoteTone` | src/components/FeedbackCard.tsx:28-38 | the badge and text colour are positive, negative or neutral exactly by the sign of `vote_count` |
| `FeedbackCard.CountPrefix` | src/components/FeedbackCard.tsx:63 | the count is prefixed with `+` exactly when it is positive |
| `Ranking.Compare` | src/components/FeedbackList.tsx:59-64 | the comparator keeps `a` first exactly when `a` may stand before `b`, and is zero exactly when both keys tie |
| `Ranking.CompareSign` | src/components/FeedbackList.tsx:59-64 | the comparator is antisymmetric; it is zero exactly on a tie of both keys, and it keeps `a` first exactly when `a` has more votes, or as many and is no older |
| `Ranking.PrecedesIsTotalPreorder` | src/components/FeedbackList.tsx:59-64 | the order is reflexive, total and transitive, and its ties are exactly equal keys, so it is a valid sort comparator |
| `Ranking.RankedOrder` | src/components/FeedbackList.tsx:59-64 | in a ranked list `vote_count` never increases; among equal counts `created_at` never increases; with different counts it strictly decreases |
| `Ranking.RankingKeysUnique` | src/components/FeedbackList.tsx:59-64 | any two rankings of the same entries agree on both keys at every position, so repeated refreshes of unchanged data order the entries the same way up to exact ties |
| `Ranking.RankingUniqueWithoutTies` | src/components/FeedbackList.tsx:59-64 | when no two entries tie on both keys, there is only one ranking |
| `Ranking.ThreeItemScenario` | src/components/FeedbackList.tsx:59-64 | A (3 votes, older), B (3 votes, newer) and C (5 votes) always rank as [C, B, A] |
| `Ranking.SortInPlace` | src/components/FeedbackList.tsx:59-64 | sorting in place leaves the array ranked and a permutation of what it held |
| `Ranking.InsertInto` | src/components/FeedbackList.tsx:59-64 | one pass of the sort extends a ranked prefix by one entry and keeps the array a permutation of what it held |
| `FeedbackList.VotesByFeedbackLastWins` | src/components/FeedbackList.tsx:45-48 | the reduce's map holds exactly the feedback ids of the vote rows, each with the polarity of the last row naming it |
| `FeedbackList.VotesByFeedbackDistinct` | src/components/FeedbackList.tsx:44-49 | with distinct feedback ids, an id is in the map exactly when some row names it, and then it holds that row's polarity |
| `FeedbackList.BuildUserVotesMap` | src/components/FeedbackList.tsx:45-48 | the loop that writes each row into the accumulator builds that map |
| `FeedbackList.Annotate` | src/components/FeedbackList.tsx:53-56 | annotating keeps every field and total of the row and sets `user_vote` to the map's polarity for its id, or null when the id is not in the map |
| `FeedbackList.Merge` | src/components/FeedbackList.tsx:53-56 | the join keeps the number and order of the rows and annotates each one |
| `FeedbackList.MergeMember` | src/components/FeedbackList.tsx:53-66 | every entry of the sorted list is one of the rows with its own annotation |
| `FeedbackList.AnonymousListUnannotated` | src/components/FeedbackList.tsx:36-56 | signed out, every published entry has no user vote, whatever votes exist |
| `FeedbackList.UserVotesFailureDegrades` | src/components/FeedbackList.tsx:39-66 | a failed or null read of the user's votes is not fatal: all rows are published, none annotated |
| `FeedbackList.SignedInListAnnotated` | src/components/FeedbackList.tsx:44-56 | signed in, with one vote row per feedback, an entry shows the user's vote exactly when a row names it, with that row's polarity, and keeps its row's totals |
| `FeedbackList.Render` | src/components/FeedbackList.tsx:116-170 | the configuration warning comes first, then the loading skeleton, then "No feedback yet", then the cards |
| `FeedbackList.FeedbackListState.FetchFeedback` | src/components/FeedbackList.tsx:17-68 | `loading` always ends; without a client or on a failed aggregated read the previous list stays; otherwise the list becomes a ranking of the rows (none for null data) annotated with the user's votes |

## Left out

- Realtime subscriptions, channel removal on unmount and the 3-second polling
  interval. This is async and timer plumbing. 
  A refresh is an explicit method call, given what its reads return.
- The database: the `feedback_with_votes` aggregation, server-side ordering
  and `.limit(5)` are not part of this model. Rows and their totals are
  inputs. So net counts are not tied to the stored votes, and the net-count
  forms of the toggle and switch laws are stated on the votes table instead.
- Date parsing, `Date.now` and `toLocaleDateString`. These are foreign calls.
  Times are integer milliseconds, and the locale date is a string passed in.
  `FeedbackCard.FormatDate` does not model an unparseable date string.
- JavaScript string lengths count UTF-16 code units, but `AxisName` counts
  characters here. The two agree for text in the Basic Multilingual Plane.
- The user-vote map is keyed by opaque ids. Inherited keys of a plain
  JavaScript object (`constructor`, `__proto__`) are not modelled.
- `SortInPlace` stands for the engine's `Array.prototype.sort`. Its contract
  (ranked, and a permutation) is what any correct engine sort gives. It does
  not promise a particular order among entries that tie on both keys. The
  engine's sort is stable, so such ties keep the order the query returned, but
  the query (src/components/FeedbackList.tsx:24-27) orders by `vote_count`
  alone and leaves the order of exact ties unspecified, so stability fixes
  nothing further.
- Sign-in, sign-out and the auth modal, the page layout, the tab selector,
  the user menu, styling, icons and the chart library are not part of this
  model. They are markup or calls into the auth SDK.
- `FeedbackForm.FeedbackFormState.HandleSubmit`: the insert's outcome is
  passed in, so the contract shows the state after the call and not the
  `isSubmitting` flag raised while the request is in flight (an insert that
  throws is the one outcome that leaves it raised). The browser's `maxLength`
  limits on the inputs are not modelled.
