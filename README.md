# Q-Poll tally bookkeeping in Dafny

This project models how Q-Poll keeps its vote tallies. A poll holds options,
each with a vote counter, plus a `totalVotes` aggregate, an `active` flag and
a `voters` list. The code changes those tallies in three places:

- **`POST /api/polls/:id/vote` in `server/server.js`.** It checks, in this
  order, that the poll exists, that the voter is not listed yet and that the
  option exists. It then raises the option's count and `totalVotes` in place,
  appends the voter and saves.
- **`POST /:id/vote` in `server/routes/polls.js`.** It has no voter check. It
  raises the option's count, one of its sentiment counters and `totalVotes`,
  saves, and broadcasts a `voteUpdate` event. The same router's `DELETE /:id`
  is modelled too.
- **`handleVote` on the browser's poll page (`ViewPoll.js`).** It resolves a
  voter identifier, creating a persistent guest id when it has to. It refuses
  a listed voter, counts the vote on a copy of the poll and writes the copy
  back into the poll list kept in local storage.

Around those handlers the model also covers:

- the Mongo `Poll` schema, with its required fields and defaults;
- the creation form, with its option editing and the poll record built on
  submit;
- the dashboard's figures.

Each source file has one module:

| module | file | form |
|---|---|---|
| `JsValues` | (shared) | JavaScript values the code relies on: `undefined`, truthiness, the zero-for-missing default, `String(n)` |
| `PollSchema` | `server/models/Poll.js` | datatypes; `new Poll(body)` as `BuildPoll`; the stored collection as class `PollCollection` |
| `ServerVote` | `server/server.js` | the handler as method `CastVote` on the collection, proved against `VoteOutcome` |
| `PollsRoute` | `server/routes/polls.js` | methods `Vote` and `Delete` on the collection, proved against `RouteVoteOutcome` and `DeleteOutcome` |
| `StoredPolls` | (shared by the pages) | the records kept in local storage; class `BrowserStorage` |
| `ViewPoll` | `client/src/pages/ViewPoll.js` | class `ViewPollPage` with `Load` and `HandleVote`, proved against `HandleVoteOutcome` |
| `CreatePoll` | `client/src/pages/CreatePoll.js` | pure functions over the form |
| `Dashboard` | `client/src/pages/Dashboard.js` | pure functions over the poll list |

Each state-changing handler is a method whose `ensures` equates its response
and new state with a pure outcome function of the old state. The properties
(rejections change nothing, the tally invariants are kept or broken, a second
vote is refused) are lemmas about those outcome functions.

The tally invariants are:

- `PollSchema.TalliesConsistent`: `totalVotes == Σ votes` and
  `totalVotes == |voters|`;
- `StoredPolls.ClientTalliesConsistent`: the same, with `|| 0` and `|| []`
  defaults.

Stored data need not satisfy them; the seed data, for one, does not. So the
model proves that votes *preserve* them, or shows how a vote breaks them.

The three handlers differ, and the model exposes each difference instead of
smoothing it over:

- None of the three reads `active`.
- The router never records voters, so a poll with `totalVotes == |voters|`
  loses that agreement on its first vote.
- The router's option lookup uses mongoose's `options.id(...)`, which matches
  the subdocument `_id` (`OptionDoc.oid`), not the schema's `id` field.
- The option schema has no `sentiments` path. On a document the schema built,
  the router therefore fails with a TypeError, answers 400 and saves nothing.
- The client counts a vote for every option whose id equals the selection:
  none, one, or several.

The code has no rejection of votes on inactive polls (no `PollClosed`
answer) and no all-or-nothing update; the model follows the code:

- `ServerVote.ClosedPollAcceptsVote` shows a closed poll taking a vote.
- `PollsRoute.Vote` models the route answering 400 after its increments have
  been saved, when no Socket.IO server is registered.

## Model

| member | source | states |
|---|---|---|
| `JsValues.DecimalString` | client/src/pages/CreatePoll.js:39 | `String(n)` for n ≥ 0 is a non-empty string of decimal digits that spells n back (`DigitsValue`, most significant digit first), one digit long exactly when n < 10 |
| `JsValues.DecimalStringInjective` | client/src/pages/CreatePoll.js:39 | two numbers with the same decimal string are equal, so counter-issued ids never collide; it follows from the digits spelling the number |
| `PollSchema.Num.Plus1` | server/routes/polls.js:73 | `+= 1` on a counter keeps a number a number (one larger) and turns `undefined`/NaN into NaN |
| `PollSchema.MissingOptionPaths` | server/models/Poll.js:3-11 | the reported option paths are empty exactly when every option has a non-empty `id` and `text`; each missing field is reported as `options.<i>.id` / `options.<i>.text`, and every reported path names a field that is missing (`NamesMissingField`) |
| `PollSchema.MissingFieldPaths` | server/models/Poll.js:3-11 | the paths reported for one option: none exactly when it is valid, its missing `id` and `text` each named, and nothing it has |
| `PollSchema.FailingPaths` | server/models/Poll.js:18-52 | the error's path set: empty exactly when the body is valid, holding each top-level required path exactly when it is missing, and otherwise exactly the option paths of `MissingOptionPaths` |
| `PollSchema.SeparatePaths` | server/models/Poll.js:4-11 | option paths, which all start with `options.`, never coincide with the three top-level required paths |
| `PollSchema.BuildOption` | server/models/Poll.js:3-16 | an option keeps its `id` and `text`, `votes` defaults to 0, and it has no `sentiments` |
| `PollSchema.BuildOptions` | server/models/Poll.js:36 | the options array is built position by position from the body's options |
| `PollSchema.BuildPoll` | server/models/Poll.js:18-52 | validation succeeds exactly when `title`, `creator.name`, `creator.id` and every option's `id`/`text` are present; on failure each missing top-level path is named, and the remaining paths are exactly the missing option fields; on success the document carries the body's values with defaults `voters` [], `totalVotes` 0, `active` true, `createdAt` now |
| `PollSchema.SumVotesReplace` | server/server.js:67 | replacing one option changes Σ votes by exactly that option's change in count |
| `PollSchema.SumVotesOfFreshOptions` | server/models/Poll.js:12-15 | options built without counts sum to 0 votes |
| `PollSchema.FreshPollConsistent` | server/models/Poll.js:36-43 | a poll built from a body with no counts and no voters satisfies both tally invariants and has no duplicate voter |
| `PollSchema.IndexOfPoll` | server/server.js:52 | `findById`: the first document with that `_id`, or none exactly when no document has it |
| `PollSchema.PollCollection.constructor` | server/server.js:52 | the collection holds the given documents |
| `PollSchema.PollCollection.Save` | server/server.js:70 | `save()` replaces the loaded document and nothing else |
| `PollSchema.PollCollection.Remove` | server/routes/polls.js:129 | `remove()` takes out exactly the loaded document and keeps the others in order |
| `ServerVote.Message` | server/server.js:55-64 | the 400 answer carries exactly "Already voted"; "Poll not found" is sent exactly for an unknown poll and "Option not found" exactly for an unknown option |
| `ServerVote.MessagesDistinguishRejections` | server/server.js:55-64 | different rejections carry different messages |
| `ServerVote.Status` | server/server.js:54-72 | 200 exactly on success, 400 exactly on "Already voted", 404 exactly on an unknown poll or option |
| `ServerVote.FindOption` | server/server.js:62 | `find` on the option's `id` field: the first match, or none exactly when no option matches |
| `ServerVote.RecordVote` | server/server.js:67-69 | the chosen option gains exactly one vote, every other option is unchanged, `totalVotes` gains one, the voter is appended, no other field changes |
| `ServerVote.VoteOutcome` | server/server.js:49-76 | unknown poll → 404 and no change; listed voter → 400 and no change; unknown option → 404 and no change; otherwise the first poll with that id is replaced by its recorded copy |
| `ServerVote.CastVote` | server/server.js:49-76 | the in-place handler answers and leaves the collection exactly as `VoteOutcome` says |
| `ServerVote.RejectionChangesNothing` | server/server.js:54-65 | every rejected request leaves the collection as it was |
| `ServerVote.RepeatVoterRejectedBeforeOptionCheck` | server/server.js:58-65 | a listed voter gets "Already voted" whatever option they name, including an unknown one |
| `ServerVote.VoteTouchesOnlyItsPoll` | server/server.js:52-70 | the collection keeps its length and every poll with another id |
| `ServerVote.RecordVoteKeepsTallies` | server/server.js:67-69 | the three increments keep `totalVotes == Σ votes` and `totalVotes` equal to the number of voters |
| `ServerVote.VoteKeepsTallies` | server/server.js:49-76 | after any request, every poll that satisfied the tally invariants still does |
| `ServerVote.VoteKeepsVotersUnique` | server/server.js:58-60 | after any request, no duplicate-free voter list has gained a duplicate |
| `ServerVote.ClosedPollAcceptsVote` | server/server.js:49-70 | a poll with `active == false` still accepts a vote and stays inactive |
| `ServerVote.SecondVoteRefused` | server/server.js:58-60 | after an accepted vote, the same voter's next request on that poll is refused, whatever option it names |
| `PollsRoute.VoteStatus` | server/routes/polls.js:62-91 | 200 exactly when recorded, 400 exactly on a caught error, 404 exactly on an unknown poll or option |
| `PollsRoute.FindSubdocument` | server/routes/polls.js:66 | `options.id(x)` matches the subdocument `_id`: the first match, or none exactly when none matches |
| `PollsRoute.BumpSentiment` | server/routes/polls.js:73 | `sentiments[key] += 1`: other counters are unchanged, a numeric counter gains one, NaN stays NaN (the counter is `+= 1`'d whatever it holds), a missing counter becomes NaN |
| `PollsRoute.RouteRecord` | server/routes/polls.js:72-74 | the option gains one vote and one on the named sentiment, other options are unchanged, `totalVotes` gains one, voters and every other field stay the same |
| `PollsRoute.RouteVoteOutcome` | server/routes/polls.js:57-92 | unknown poll or option → 404 and no change; an option without `sentiments` → 400 with the TypeError message and no change; otherwise the update is stored, and the answer is `Recorded` carrying the `voteUpdate` payload emitted to the poll's room (post-update votes, sentiments, `totalVotes`; the HTTP body itself is the fixed success message), or 400 when no Socket.IO server is registered |
| `PollsRoute.Vote` | server/routes/polls.js:57-92 | the in-place route answers and leaves the collection exactly as `RouteVoteOutcome` says |
| `PollsRoute.DeleteStatus` | server/routes/polls.js:123-130 | 404 exactly when not found, 200 exactly when deleted |
| `PollsRoute.DeleteOutcome` | server/routes/polls.js:121-134 | 404 exactly when no poll has the id, and then nothing changes; otherwise exactly one poll with that id is removed |
| `PollsRoute.Delete` | server/routes/polls.js:121-134 | the in-place route answers and leaves the collection exactly as `DeleteOutcome` says |
| `PollsRoute.AcceptedVoteIncrements` | server/routes/polls.js:72-74 | an accepted vote raises the option's votes, `totalVotes` and a numeric sentiment counter by exactly one and leaves voters alone |
| `PollsRoute.RouteVoteBreaksVoterCount` | server/routes/polls.js:72-77 | a stored route vote keeps `totalVotes == Σ votes` but leaves `totalVotes` one more than the number of voters, so a consistent poll becomes inconsistent |
| `PollsRoute.SchemaDocumentRejectsRouteVote` | server/routes/polls.js:73 | on a poll whose options have no `sentiments` (all schema-built ones), every vote fails and nothing is stored |
| `PollsRoute.RouteVoteStep` | server/routes/polls.js:72-77 | one route vote on a reachable option advances its votes and `totalVotes` by one, keeps voters and `active`, and keeps the option reachable |
| `PollsRoute.AdvancedTrans` | server/routes/polls.js:57-77 | advancing by m and then by n advances by m + n |
| `PollsRoute.RepeatedVotesAllCount` | server/routes/polls.js:57-77 | over any run of n identical requests, the option's votes and `totalVotes` rise by n; the voter list and `active` are never consulted or changed |
| `StoredPolls.OptionIds` | client/src/pages/ViewPoll.js:92 | the option ids, position by position |
| `StoredPolls.FindPollIndex` | client/src/pages/ViewPoll.js:64 | `findIndex` on `id`: the first match, or none exactly when no poll has that id |
| `StoredPolls.BrowserStorage.constructor` | client/src/pages/ViewPoll.js:63 | storage holds the given poll list and guest id |
| `ViewPoll.StoredVoterId` | client/src/pages/ViewPoll.js:48 | the load-time identifier is non-empty exactly when the user has an email or id or a guest id is stored, and then it is the identifier a vote would use |
| `ViewPoll.HasVoted` | client/src/pages/ViewPoll.js:48-49 | `hasVoted` is true exactly when the load-time identifier exists and is in the voter list |
| `ViewPoll.ResolveVoterId` | client/src/pages/ViewPoll.js:72-80 | the identifier is the email, else the id, else the stored guest id, else a new `guest_<now>` that is also stored; it is never empty |
| `ViewPoll.GetOrCreateVoterId` | client/src/pages/ViewPoll.js:72-80 | the in-place lookup returns and stores exactly what `ResolveVoterId` says |
| `ViewPoll.GuestIdIsReused` | client/src/pages/ViewPoll.js:75-79 | resolving again, at any later time, returns the same identifier and stores nothing new |
| `ViewPoll.HasVotedMatchesVoteCheck` | client/src/pages/ViewPoll.js:48-49 | when no guest id has to be created, `hasVoted` agrees exactly with the submit-time duplicate check |
| `ViewPoll.CountMatching` | client/src/pages/ViewPoll.js:90-93 | the number of options matching the selection is zero exactly when the selection names no option |
| `ViewPoll.VoteOnOptions` | client/src/pages/ViewPoll.js:90-93 | length, order, ids, texts and sentiments are kept; a matching option gets its count (missing read as 0) plus one, every other one its count with missing read as 0 |
| `ViewPoll.VoteOnOptionsSum` | client/src/pages/ViewPoll.js:90-93 | the option sum rises by the number of matching options |
| `ViewPoll.DistinctIdsMatchOnce` | client/src/pages/ViewPoll.js:90-93 | with distinct ids, a selection naming an option matches exactly one |
| `ViewPoll.ApplyVote` | client/src/pages/ViewPoll.js:89-97 | the copy has the mapped options, `totalVotes` (missing read as 0) plus one, the voter list (missing read as empty) plus the voter, and every other field unchanged |
| `ViewPoll.ApplyVoteTallies` | client/src/pages/ViewPoll.js:89-97 | the option sum rises by the number of matches; `totalVotes` and the voter list rise by one each |
| `ViewPoll.ApplyVoteKeepsTalliesIffOneMatch` | client/src/pages/ViewPoll.js:89-97 | a consistent poll stays consistent if and only if exactly one option matches the selection |
| `ViewPoll.UnmatchedSelectionStillCounted` | client/src/pages/ViewPoll.js:90-97 | a selection naming no option still raises `totalVotes` and lists the voter while no option count moves |
| `ViewPoll.HandleVoteOutcome` | client/src/pages/ViewPoll.js:55-101 | empty selection and unknown poll → rejected with storage unchanged; listed voter → rejected, only a new guest id stored; otherwise the first poll with the id is replaced by its updated copy |
| `ViewPoll.ErrorText` | client/src/pages/ViewPoll.js:58-84 | every rejection sets a non-empty message, and "Poll not found", which switches the page to its not-found screen (line 115), is set exactly for a missing poll; "Please select an option" exactly for an empty selection; "You have already voted in this poll" exactly for a listed voter |
| `ViewPoll.ErrorTextsDistinct` | client/src/pages/ViewPoll.js:58-84 | different rejections show different messages |
| `ViewPoll.RejectedVoteLeavesPolls` | client/src/pages/ViewPoll.js:57-86 | every rejection leaves the stored poll list unchanged |
| `ViewPoll.AcceptedVoteReplacesOnlyFirstMatch` | client/src/pages/ViewPoll.js:64-100 | the list keeps its length and every entry but the first poll with the id, later duplicates included |
| `ViewPoll.AcceptedVoteKeepsVotersUnique` | client/src/pages/ViewPoll.js:83-97 | an accepted vote keeps a duplicate-free voter list duplicate-free |
| `ViewPoll.SecondVoteRefused` | client/src/pages/ViewPoll.js:72-86 | after an accepted vote, the same visitor's next non-empty vote on that poll is refused as a duplicate |
| `ViewPoll.ViewPollPage.constructor` | client/src/pages/ViewPoll.js:33-37 | the page starts with no poll, no error, no success and `hasVoted` false |
| `ViewPoll.ViewPollPage.Load` | client/src/pages/ViewPoll.js:40-53 | a found poll is shown with its `hasVoted` flag; otherwise the error is "Poll not found" |
| `ViewPoll.ViewPollPage.HandleVote` | client/src/pages/ViewPoll.js:55-107 | storage changes exactly as `HandleVoteOutcome` says; a rejection sets its message and nothing else; acceptance shows the copy, sets `hasVoted` and success and clears the error |
| `CreatePoll.FormIds` | client/src/pages/CreatePoll.js:39 | the form's option ids, position by position |
| `CreatePoll.InitialForm` | client/src/pages/CreatePoll.js:21-25 | empty title and description, two empty options with ids "1" and "2", distinct |
| `CreatePoll.HandleOptionChange` | client/src/pages/CreatePoll.js:27-34 | only the text of options with the id changes; length, ids and order are kept |
| `CreatePoll.AddOption` | client/src/pages/CreatePoll.js:36-41 | exactly one empty option is appended, with id `String(length + 1)`; the rest is kept |
| `CreatePoll.WithoutId` | client/src/pages/CreatePoll.js:47 | the filter keeps exactly the options with another id and never grows the list |
| `CreatePoll.WithoutIdCounts` | client/src/pages/CreatePoll.js:47 | every option with another id is kept as often as it occurs, every option with the id is dropped |
| `CreatePoll.WithoutIdAppend` | client/src/pages/CreatePoll.js:47 | the filter keeps the order: it filters each part of a concatenation and joins the results in order |
| `CreatePoll.RemoveOption` | client/src/pages/CreatePoll.js:43-50 | at most two options: unchanged; otherwise every option with the id is removed |
| `CreatePoll.WithoutIdDropsAtMostOne` | client/src/pages/CreatePoll.js:47 | with distinct ids the filter drops at most one option |
| `CreatePoll.WithoutIdKeepsDistinct` | client/src/pages/CreatePoll.js:47 | the filter keeps distinct ids distinct |
| `CreatePoll.WithoutIdKeepsAllOthers` | client/src/pages/CreatePoll.js:47 | filtering an id that is not there changes nothing |
| `CreatePoll.RemoveKeepsTwoWhenIdsDistinct` | client/src/pages/CreatePoll.js:43-50 | with distinct ids, removal keeps at least two options and the ids distinct |
| `CreatePoll.CreatorFor` | client/src/pages/CreatePoll.js:68-72 | the creator's id, name and email default to "guest", "Guest User" and "guest@example.com" when missing or empty |
| `CreatePoll.NewOption` | client/src/pages/CreatePoll.js:63-67 | an option of a new poll keeps the form's id and text, with votes 0 and zeroed positive, neutral and negative counters |
| `CreatePoll.NewPoll` | client/src/pages/CreatePoll.js:56-77 | the id is `String(now)`, options keep id and text with 0 votes and zero sentiments, `totalVotes` 0, `active` true, voters empty |
| `CreatePoll.Submit` | client/src/pages/CreatePoll.js:80-83 | the new poll comes first and the existing polls follow in order |
| `CreatePoll.ZeroVotesSum` | client/src/pages/CreatePoll.js:63-67 | options with 0 votes each sum to 0 |
| `CreatePoll.NewPollConsistent` | client/src/pages/CreatePoll.js:59-77 | a new poll satisfies both tally invariants and has no voters |
| `CreatePoll.RemoveThenAddRepeatsId` | client/src/pages/CreatePoll.js:36-50 | add, remove "1", add gives the ids "2", "3", "3" |
| `CreatePoll.RepeatedIdLetsRemovalDropBelowTwo` | client/src/pages/CreatePoll.js:43-50 | with the repeated id, removing "3" leaves a single option |
| `CreatePoll.FilledFormKeepsRepeatedId` | client/src/pages/CreatePoll.js:27-50 | filling in that form's title and option texts keeps the ids "2", "3", "3"; typing into either option "3" sets both texts |
| `CreatePoll.RepeatedIdBreaksTallies` | client/src/pages/CreatePoll.js:36-41 | any form whose option ids are "2", "3", "3", whatever its title, description and texts, gives a poll that is consistent, but a vote for "3" breaks `totalVotes == Σ votes` |
| `CreatePoll.InitialNumberedForm` | client/src/pages/CreatePoll.js:21-25 | the initial form with an id counter is well numbered |
| `CreatePoll.AddNumberedOption` | client/src/pages/CreatePoll.js:36-41 | adding with the counter's id keeps every id issued and distinct and at least two options |
| `CreatePoll.RemoveNumberedOption` | client/src/pages/CreatePoll.js:43-50 | removal keeps the form well numbered and equals `removeOption` |
| `CreatePoll.ChangeNumberedOption` | client/src/pages/CreatePoll.js:27-34 | editing keeps the form well numbered and equals `handleOptionChange` |
| `CreatePoll.NumberedFormVotesCountOnce` | client/src/pages/CreatePoll.js:59-67 | a poll submitted from a well-numbered form stays consistent through a vote naming one of its options |
| `Dashboard.CreatedBy` | client/src/pages/Dashboard.js:56 | `creator.email === user?.email`: true exactly when a user is signed in and their email equals the creator's |
| `Dashboard.CreatedPolls` | client/src/pages/Dashboard.js:56 | only polls whose creator email equals the user's are kept, and the list never grows |
| `Dashboard.CreatedPollsCounts` | client/src/pages/Dashboard.js:56 | each of the user's polls is kept as often as it is stored, every other poll is dropped |
| `Dashboard.CreatedPollsOfConcat` | client/src/pages/Dashboard.js:56 | the filter keeps the stored order: it filters each part of a concatenation and joins the results in order, and keeps a single poll exactly when the user created it |
| `Dashboard.SumTotalVotes` | client/src/pages/Dashboard.js:65 | a single poll contributes its `totalVotes` with missing read as 0 (with `CreatedPollsAppend`, the sum over any list) |
| `Dashboard.CountActive` | client/src/pages/Dashboard.js:66 | a single poll counts 1 exactly when `active` is true (with `CreatedPollsAppend`, any list counts its active polls), and the count is at most the number of polls |
| `Dashboard.Stats` | client/src/pages/Dashboard.js:56-68 | `totalCreated` is the number of created polls, `totalVotes` their `totalVotes` sum with missing read as 0, `activePolls` ≤ `totalCreated` counts the active ones, `totalParticipated` is 0 |
| `Dashboard.SignedOutStatsAreZero` | client/src/pages/Dashboard.js:56-68 | signed out, nothing is created by the user and every figure is 0 |
| `Dashboard.SubmitAddsToCreatorStats` | client/src/pages/Dashboard.js:64-66 | submitting a poll while signed in with an email adds one created and one active poll and no votes |
| `Dashboard.CreatedPollsAppend` | client/src/pages/Dashboard.js:65-66 | the vote sum and the active count distribute over concatenation |
| `Dashboard.OneMoreVoteOnDashboard` | client/src/pages/Dashboard.js:65 | one more vote on a poll raises the vote figure by one exactly when the user created it; counts stay |
| `Dashboard.AcceptedVoteOnDashboard` | client/src/pages/Dashboard.js:65 | an accepted page vote raises the creator's dashboard vote total by one and changes no other figure |

## Left out

- Mongoose's CastError for a malformed `_id`, and failures of `findById`, `save` or `remove`. They are answered 500 by server/server.js:73-75 and server/routes/polls.js:131-133, and 400 by the vote route's catch at server/routes/polls.js:89-91. The database is a sequence of documents that always answers.
- Request bodies whose `optionId` or `voterId` is missing or not a string. Both handlers take them from `req.body` unchecked; the model takes them as strings, so a missing `voterId` that server/server.js:58 lets through and server/server.js:69 pushes as `undefined` is not represented. Likewise `options.id(x)` casts its argument to an ObjectId; the model compares it with `oid` as plain string equality.
- Stored polls whose creator has no `email` field. The model's creator always has one (the creation form always sets it), so the `undefined === undefined` match that Dashboard.js:56 would make for a user without an email is not represented.
- The HTTP body `{ message: 'Vote recorded successfully' }` of the vote route (server/routes/polls.js:88); the model returns the emitted payload in its place.
- The create routes (server/server.js:18-26, server/routes/polls.js:5-17) and the list/results routes. Only the validation that `new Poll(body)` performs is modelled, as `BuildPoll`.
- Generated `_id`s, `Date.now()` and `new Date().toISOString()`. They are parameters (`pid`, `oids`, `now`, `createdAt`).
- `localStorage` access and JSON parsing/serialising. `BrowserStorage` holds the parsed values; a missing `polls` key reads as the empty list.
- The `setTimeout` that clears the success flag three seconds after a vote (client/src/pages/ViewPoll.js:110-112). It is a clock callback.
- Socket.IO delivery. `RouteVoteOutcome` returns the payload it would emit; a missing `io` server is the flag `ioRegistered`.
- Concurrency. Each request is one sequential step, so the read-check-write race between concurrent votes is not represented.
- Percentages, charts and all rendering.
- The seed data. The tally invariants are proved to be preserved, not assumed of stored polls.
- Property names that objects inherit, such as `toString`, in the `sentiments[sentiment]` lookup. A sentiment missing from the request body arrives as the key "undefined", which the model takes as an ordinary string.
- Assigning `poll.lastActive` (server/routes/polls.js:75). The path is not in the schema, so nothing is stored.
- Whether server/routes/polls.js is mounted by the server. server/index.js is not part of this model; both vote handlers are modelled as written.
- The `required` attribute on the title and option text fields (client/src/pages/CreatePoll.js:128, 161). The browser refuses to submit a form with one of them empty; `Submit` and `NewPoll` accept any form. `CreatePoll.FilledFormKeepsRepeatedId` shows that the repeated-id form can be filled in and submitted.
- JavaScript numbers are IEEE doubles. The counters `votes` and `totalVotes` (server/server.js:67-68, server/routes/polls.js:72-74) and `(x || 0) + 1` on the page (client/src/pages/ViewPoll.js:91-94) are exact only up to 2^53; the model uses unbounded integers, so what happens to a counter beyond 2^53 is not represented.
- PollsRoute.RepeatedVotesAllCount: stated over an explicit run of states, each the outcome of the identical request on the previous one, rather than over an n-fold iterate.
- PollsRoute.SchemaDocumentRejectsRouteVote: the model lets an option carry sentiment counters so that the route's update can be stated. A document built by the schema never has them.

## Findings

| source | as written | input that shows it | evidently intended | confidence | as-written member | corrected member |
|---|---|---|---|---|---|---|
| client/src/pages/CreatePoll.js:36-41 | a new option's id is `String(options.length + 1)`, which can equal an id still in the list after a removal | start form, add option, remove "1", add option: ids "2", "3", "3", which stay so once the title and texts are filled in; then removing "3" leaves one option, and a vote for "3" counts twice in the options but once in `totalVotes` | option ids are never repeated, e.g. issued from a counter that only grows | high, not executed | `CreatePoll.RemoveThenAddRepeatsId` | `CreatePoll.AddNumberedOption` |
