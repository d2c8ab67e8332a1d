# Fan Hub backend — a verified model of the request handlers

The Fan Hub backend is an Express application over a MongoDB store. It stores five kinds of
record: outfits, votes, fans, questions and wallpapers. Fans vote for outfits with one of three
reactions. Each vote bumps the outfit's cached counter and gives an identified fan ten points.
At 100 points a fan becomes a "top fan". Outfits are listed by ranking, with each outfit's share
of all votes. Fans keep profiles that can be listed, updated and ranked on a leaderboard. Fans
submit questions, and an administrator answers them. Wallpapers are listed and their downloads
are counted. A last pair of middleware turns uncaught errors into JSON replies and answers
unknown routes with 404.

This project models those handlers and the schemas behind them in Dafny, and proves what they
promise.

## How the model is built

- **Documents** (`documents.dfy`). A document is a `Doc(id, body)`. A collection is the
  sequence of its documents in insertion order. Ids are numbers handed out by a single counter,
  so `findById` is `IndexOf`.
- **Schemas** (`vote_model.dfy`, `outfit_model.dfy`, `fan_model.dfy`, `question_model.dfy`,
  `wallpaper_model.dfy`). Each record is a datatype. Each schema's defaults and validators
  become a constructor function `NewX` that returns `None` when validation fails. The unique
  indexes become predicates on a collection: the (outfitId, fanId) index on votes, the unique
  username, and the sparse unique email.
- **The store** (`store.dfy`). The store is the class `Store.Db`, with one `seq` field per
  collection and the id counter. `Db.Valid()` is the invariant every handler keeps:
  - ids are distinct and allocated;
  - every record passes its schema;
  - the unique indexes hold;
  - every vote names a stored outfit;
  - each outfit's cached `votes` counter equals the number of its Vote records;
  - every fan with 100 points or more is flagged as a top fan.
  The invariant holds for stores built through the modelled handlers. Data written into the
  database by other means, such as the seed script, is not part of this model (see "Left out").
- **Handlers** (`vote_routes.dfy`, `outfit_routes.dfy`, `fan_routes.dfy`, `question_routes.dfy`,
  `wallpaper_routes.dfy`).
  - A handler that writes is a method on `Db`, with `modifies db`. It states every
    collection's new value and every reply.
  - A handler that only reads is a function of the collections.
  - Each reply is an `Http.Response`: `Ok(status, data)` or `Fail(status, error)`.
  - A handler's `catch` block becomes the `Fail(500, …)` branch, taken whenever the store would
    throw. That happens when a schema validator or unique index refuses a save, or when `.skip`
    gets a negative number.
- **Listing** (`listing.dfy`). This module holds what the list endpoints share:
  - The store's `.sort(...)` is one stable sort, `SortBy`, over lexicographic integer keys.
  - Each named sort mode is a key function, proved equivalent to an order stated directly on
    the record's fields. Missing fields sort as MongoDB sorts them: lowest.
  - `.skip(n).limit(m)` is `Window`. A limit of 0 means no limit, and a negative limit counts as
    its absolute value.
  - `Math.ceil(total / limit)` is `PageCount`. It is `None` for a zero limit, which JSON
    renders as null.
  - `Math.round(v / t * 100)` is `RoundPercent`.
- **Text** (`text.dfy`) models `trim`, `includes`, and JavaScript string length in UTF-16 code
  units.
- **Errors** (`server_errors.dfy`) models the global error handler and the 404 handler.

The clock is a parameter: `now` is the time a handler runs. For the vote statistics,
`startOfDay` is the local midnight the handler computes.

### Behaviour of the code worth knowing

- Question submissions have no quota: every non-blank submission that passes the schema is
  stored, and no route answers 429.
- A vote reads only the `reaction` field of the request body; there is no other name for it.
- The duplicate-vote check in backend/routes/votes.js runs only when a `fanId` is given. The
  unique (outfitId, fanId) index also covers anonymous votes, so a second anonymous vote on the
  same outfit passes the check and then fails at the save, with 500.

## Model

| member | source | states |
|---|---|---|
| VoteModel.ParseReaction | backend/models/Vote.js:13-17 | A string is accepted as a reaction exactly when it is one of the three enum emoji, and the reaction found shows as that emoji. |
| VoteModel.ParseSymbol | backend/models/Vote.js:13-17 | Every reaction survives the round trip through its emoji. |
| VoteModel.NewVote | backend/models/Vote.js:3-22 | A new vote exists exactly when the reaction is absent or in the enum. It keeps the given outfit and fan. Its reaction defaults to the heart, and its createdAt defaults to now. |
| VoteModel.PairsUniqueAppend | backend/models/Vote.js:24-25 | Inserting a vote whose (outfitId, fanId) pair is free keeps the unique index satisfied. |
| VoteModel.VotesNewestFirst | backend/routes/votes.js:86-88 | `find({outfitId}).sort({createdAt: -1})` returns exactly that outfit's votes, each of them, once each (as a multiset), newest first. |
| VoteRoutes.Counted | backend/routes/votes.js:42-43 | The outfit's counter rises by exactly one; nothing else changes except updatedAt. |
| VoteRoutes.AwardVote | backend/routes/votes.js:46-56 | The fan gains exactly 10 points. The top-fan flag is set at 100 points or more, is never cleared, and is raised only at 100 points. No other profile field changes except updatedAt. |
| VoteRoutes.Rewarded | backend/routes/votes.js:46-56 | An identified fan that is found gets the profile AwardVote gives: 10 more points, the top-fan flag at 100, updatedAt now. Only that fan changes. Ids and emails are kept. An anonymous vote or an unknown fan changes no fan. |
| VoteRoutes.RewardedValid | backend/routes/votes.js:46-56 | Awarding points keeps the fans' ids, unique indexes and top-fan rule. |
| VoteRoutes.VoteKeepsConsistent | backend/routes/votes.js:33-56 | Inserting the vote, bumping the outfit's counter and awarding the fan takes a valid store to a valid store. |
| VoteRoutes.VoteStoredKeepsConsistent | backend/routes/votes.js:33-43 | Inserting the vote and bumping its outfit's counter, before any fan is touched, already takes a valid store to a valid store. |
| VoteRoutes.CountedKeepsValid | backend/routes/votes.js:42-43 | Bumping one outfit's counter leaves every outfit within the schema's bounds. |
| VoteRoutes.RecordVote | backend/routes/votes.js:33-56 | The three writes of a vote, in source order: the vote gets the next id, only outfit k gets its counter bumped and its timestamp set, the voting fan (if any) is rewarded, and the other collections stay as they were; the store stays valid. |
| VoteRoutes.CastVote | backend/routes/votes.js:8-81 | A duplicate (outfit, fan) pair gives 400, checked before the outfit. A missing outfit gives 404. A refused save gives 500. Each of these changes nothing. Otherwise exactly one vote is appended, only that outfit's counter rises by one, and the fan is rewarded. The reply carries the new counter and its rounded share of all Vote records. Ok holds iff none of the failures apply. |
| VoteRoutes.OutfitVotes | backend/routes/votes.js:84-102 | The reply lists the outfit's votes newest first, and `total` equals the number of that outfit's Vote records. |
| VoteRoutes.TallyCounts | backend/routes/votes.js:90-93 | A reaction is in the tally iff some listed vote carries it, and its count is the number of listed votes that carry it. |
| VoteRoutes.CountPositive | backend/routes/votes.js:90-93 | A count is positive iff some element satisfies the filter. |
| VoteRoutes.ReactionCountsSum | backend/routes/votes.js:90-93 | Every vote carries exactly one of the three reactions, so the three counts add up to the number of votes. |
| VoteRoutes.TallySumsToTotal | backend/routes/votes.js:90-100 | The tallies of the three reactions add up to `total`. |
| VoteRoutes.VoteStats | backend/routes/votes.js:113-135 | totalVotes is the number of Vote records. todayVotes counts those cast since the start of the day and never exceeds the total. There are min(5, outfits) top outfits, by votes descending. Entry i is, as the reply shows it, the outfit at position i of the outfits sorted by votes descending, so the list is the head of that sorted permutation of the outfits. |
| VoteRoutes.TopOutfitsAreTop | backend/routes/votes.js:123-126 | No outfit left out of the top five has more votes than any outfit in it. |
| OutfitModel.NewOutfit | backend/models/Outfit.js:3-18 | A new outfit exists iff title and imageUrl are both present and non-empty. It carries them, starts with 0 votes, and both timestamps are now. |
| OutfitRoutes.RankingOrder | backend/routes/outfits.js:9 | The ranking key puts a before b iff a has more votes, or as many votes and is at least as new. |
| OutfitRoutes.ListOutfits | backend/routes/outfits.js:7-28 | `total` equals the number of lines, which equals the number of outfits. Rankings are 1..n in list order. Comments are empty. Each line is a stored outfit with its counter's rounded share of all Vote records. Votes never increase down the list. |
| OutfitRoutes.EveryOutfitListed | backend/routes/outfits.js:9-22 | Every stored outfit has a line in the list. |
| OutfitRoutes.ListTiesNewestFirst | backend/routes/outfits.js:9 | Lines i and j of the reply show the outfits at positions i and j of the ranking order. Among outfits with equal votes, the newer is ranked first. |
| OutfitRoutes.ListPercentagesAtMost100 | backend/routes/outfits.js:12-19 | In a valid store no outfit's percentage exceeds 100. |
| OutfitRoutes.FanName | backend/routes/outfits.js:59 | The name is never empty. It is the voting fan's username when the fan is found and has one, and 'Fan Anónimo' for an anonymous vote or an unknown fan. |
| OutfitRoutes.FanNameKnown | backend/routes/outfits.js:59 | In a valid store, every stored fan is shown by username. |
| OutfitRoutes.GetOutfit | backend/routes/outfits.js:39-75 | An unknown id gives 404, and only an unknown id does. Otherwise the reply gives the outfit's fields and its rounded share of all votes. It has one comment per Vote record of that outfit, newest first, each showing the reaction and the fan's name. |
| OutfitRoutes.DetailAgreesWithList | backend/routes/outfits.js:19-63 | In a valid store an outfit's page shows as many comments as its counter says, and the same percentage as its line in the ranked list. |
| OutfitRoutes.AddOutfitKeepsConsistent | backend/routes/outfits.js:90-95 | A new outfit with no votes, added under the next id, keeps the store valid. |
| OutfitRoutes.CreateOutfit | backend/routes/outfits.js:86-109 | An outfit the schema rejects gives 500 and changes nothing. Otherwise exactly the new outfit is appended and answered with 201. |
| FanModel.NewFan | backend/models/Fan.js:3-24 | A new fan exists iff the username is not empty. It keeps the username and email, and starts with 0 points and not a top fan. |
| FanModel.CollectionValidAppend | backend/models/Fan.js:4-13 | Adding a fan whose username is free, and whose email (if any) is free, keeps both unique indexes. |
| FanModel.CollectionValidReplace | backend/models/Fan.js:4-13 | Changing a fan in place without touching its username or email keeps both unique indexes. |
| FanRoutes.ModeOf | backend/routes/fans.js:12-24 | 'points', 'level' and 'oldest' select their modes exactly. Anything else, or nothing, selects 'recent'. |
| FanRoutes.DescOrder | backend/routes/fans.js:14-23 | The descending-field key puts a before b iff b is missing or a's value is not smaller. Two keys are equal iff the values are. |
| FanRoutes.AscOrder | backend/routes/fans.js:20 | The ascending-field key puts a before b iff a is missing or a's value is not larger. |
| FanRoutes.ModeKeyOrder | backend/routes/fans.js:12-24 | For each mode, the sort key orders two fans exactly as that mode's `Before` states on their fields. |
| FanRoutes.WindowBefore | backend/routes/fans.js:12-30 | Any two fans of a page, taken from the sorted collection, come in the order the sort mode states. |
| FanRoutes.ListFans | backend/routes/fans.js:6-51 | A negative skip gives 500, and only a negative skip does. Otherwise: page and limit echo the query, with defaults 1 and 20; total is the number of fans; pages is ceil(total/limit); fan i of the page is, without email, fan i of the window from (page-1)·limit, at most limit long, over the fans sorted by the mode; so the page holds stored fans in the mode's order. |
| FanRoutes.FansShown | backend/routes/fans.js:26-30 | Entry i is fan i of the window from skip over the fans sorted by the mode, without email; so each entry is a stored fan, and the entries follow the mode's order. |
| FanRoutes.ListFansPageIsSlice | backend/routes/fans.js:9-30 | A full page, with skip = (page-1)·limit, holds exactly limit fans: fan i is the fan at position skip + i of the sorted collection. |
| FanRoutes.ListFansDefaultShowsAll | backend/routes/fans.js:8-30 | With no page and no limit in the query, a collection of at most 20 fans is listed in full. |
| FanRoutes.GetFan | backend/routes/fans.js:94-117 | An unknown id gives 404, and only an unknown id does. Otherwise the reply is the stored profile, without email. |
| FanRoutes.AddFanKeepsConsistent | backend/routes/fans.js:144-152 | A valid new fan with a free username and email, added under the next id, keeps the store valid. |
| FanRoutes.CreateFan | backend/routes/fans.js:120-170 | A taken username gives 400, checked first. A taken non-empty email gives 400. A schema or email-index refusal gives 500. Every failure changes nothing. Ok holds iff the username and email are free and the schema accepts the fan. Then exactly that fan is appended, and the reply shows it without email. |
| FanRoutes.ApplyUpdate | backend/routes/fans.js:185-192 | A defined bio or location replaces the old one. socialMedia and preferences are shallow-merged: keys from both, the new values win. lastActive and updatedAt become now. Every other field is unchanged. |
| FanRoutes.EmptyUpdateTouchesOnly | backend/routes/fans.js:185-192 | An update that sets nothing only refreshes lastActive and updatedAt. |
| FanRoutes.UpdateIdempotent | backend/routes/fans.js:185-192 | Applying the same update twice gives what applying it once gives. |
| FanRoutes.WithProfile | backend/routes/fans.js:185-192 | Only the profile at the given position is replaced. That fan's id and email, and every other fan, are kept. |
| FanRoutes.ReplaceProfileKeepsConsistent | backend/routes/fans.js:185-192 | Replacing a profile while keeping its username, points and top-fan flag keeps the store valid. |
| FanRoutes.UpdateFan | backend/routes/fans.js:173-210 | An unknown id gives 404 and changes nothing. Otherwise only that fan's profile changes, exactly as ApplyUpdate says, and the reply shows it without email. |
| FanRoutes.RecordActivity | backend/routes/fans.js:213-237 | An unknown id gives 404 and changes nothing. Otherwise only that fan's lastActive and updatedAt become now. |
| FanRoutes.DaysSince | backend/routes/fans.js:255 | The result is the whole number of days elapsed since joining, rounded down, and absent iff the join date is missing. |
| FanRoutes.GetFanStats | backend/routes/fans.js:240-270 | An unknown id gives 404. A fan without a badge list gives 500. Otherwise the reply holds the number of badges, the stored level, points, stats and VIP flag, and the days since joining. |
| FanRoutes.Leaderboard | backend/routes/fans.js:273-294 | The board holds min(fans, limit) entries; the limit defaults to 50, and a limit of 0 means all fans. Each entry is a stored fan, ordered by points descending and then level descending. |
| FanRoutes.LeaderboardEntries | backend/routes/fans.js:277-280 | Entry i of the board is the i-th fan of the collection sorted by points and then level. |
| FanRoutes.LeaderboardIsTop | backend/routes/fans.js:277-280 | No fan left off the board has more points than any fan on it. |
| QuestionModel.NewQuestion | backend/models/Question.js:3-20 | A new question exists iff the name and text are non-empty and the text is at most 500 UTF-16 units long. It is unanswered and its createdAt is now. |
| QuestionModel.AstralTextHalfLimit | backend/models/Question.js:11 | A text made only of characters outside the basic plane, such as emoji, is accepted iff it has at most 250 of them. |
| QuestionRoutes.AnsweredPendingOverlap | backend/routes/questions.js:115-121 | Every question is answered (the filter of line 11) or pending, and it is both iff its answer is the empty string. |
| QuestionRoutes.Format | backend/routes/questions.js:19-28 | The kind is 'video' iff the answer contains "http", and 'text' otherwise. A video shows the answer as its thumbnail and lasts '4:32'. A text has neither. id, question, answer and timestamp are copied. |
| QuestionRoutes.AnsweredPage | backend/routes/questions.js:11-14 | Every question on a page of answered questions is a stored question that is answered, and the page is newest first. |
| QuestionRoutes.AnsweredShown | backend/routes/questions.js:11-28 | Entry i is the formatted answered question at position i of the skip/limit window over the answered questions sorted newest first; every one is a stored question; the page is newest first. |
| QuestionRoutes.AnsweredShownFull | backend/routes/questions.js:11-14 | When skip + limit does not pass the number of answered questions, the page holds exactly limit entries. |
| QuestionRoutes.AnsweredShownIsSlice | backend/routes/questions.js:11-14 | On such a full page, entry i is the formatted answered question at position skip + i of the newest-first order. |
| QuestionRoutes.ListAnswered | backend/routes/questions.js:6-47 | A negative skip gives 500, and only a negative skip does. Otherwise: page and limit echo the query, with defaults 1 and 20; total counts the answered questions; pages is ceil(total/limit); the page is exactly AnsweredShown at skip (page-1)·limit, and holds at most limit questions. |
| QuestionRoutes.ListPending | backend/routes/questions.js:113-127 | The list holds exactly the questions with a missing, null or empty answer, each of them, newest first. |
| QuestionRoutes.NameStored | backend/routes/questions.js:52-63 | The stored name is the trimmed given name, or 'Fan Anónimo' when none is given. |
| QuestionRoutes.AnonymousFanTrimmed | backend/routes/questions.js:52 | The default name 'Fan Anónimo' has no white space at either end, so trimming leaves it unchanged. |
| QuestionRoutes.NameStoredIsTrimmed | backend/routes/questions.js:52-63 | Trimming the default name leaves it unchanged, so the stored name is always the trim of the name after the default. |
| QuestionRoutes.BlankIsAllSpace | backend/routes/questions.js:54 | The 400 guard fires iff the question is missing or all white space. |
| QuestionRoutes.AddQuestionKeepsConsistent | backend/routes/questions.js:61-66 | A valid question, added under the next id, keeps the store valid. |
| QuestionRoutes.Save | backend/routes/questions.js:61-66 | Saving an accepted question stores it under the next id at the end of the collection, changes nothing else and keeps the store valid. |
| QuestionRoutes.Submit | backend/routes/questions.js:50-80 | A blank question gives 400 and stores nothing. A question the schema refuses (empty trimmed name, or text over 500) gives 500 and stores nothing. Ok holds iff neither applies. Then exactly one unanswered question is appended, with the trimmed text and name. |
| QuestionRoutes.SubmittedWithinLimit | backend/models/Question.js:3-12 | A non-blank question is stored iff the name it is stored under (the trimmed given name, or 'Fan Anónimo') is non-empty and its trimmed text is at most 500 UTF-16 units long; an anonymous one iff the text fits. |
| QuestionRoutes.AnswerQuestion | backend/routes/questions.js:83-110 | An unknown id gives 404 and changes nothing. Otherwise only that question's answer is replaced; an absent answer removes it. |
| WallpaperModel.NewWallpaper | backend/models/Wallpaper.js:3-18 | A new wallpaper exists iff title and imageUrl are both present and non-empty. It carries them, starts with 0 downloads, and both timestamps are now. |
| WallpaperRoutes.ModeOf | backend/routes/wallpapers.js:12-21 | 'popular' and 'oldest' select their modes exactly. Anything else, or nothing, selects 'newest'. |
| WallpaperRoutes.ModeKeyOrder | backend/routes/wallpapers.js:12-21 | For each mode, the sort key orders two wallpapers exactly as that mode's `Before` states: downloads descending, createdAt ascending, or createdAt descending. |
| WallpaperRoutes.WindowBefore | backend/routes/wallpapers.js:12-26 | Any two wallpapers of a page, taken from the sorted collection, come in the order the sort mode states. |
| WallpaperRoutes.Cards | backend/routes/wallpapers.js:23-37 | The window has the length skip and limit allow, and is empty when skip is past the end. Each card is a stored wallpaper, in category 'lifestyle'. In 'popular' mode, downloads never increase down the page. |
| WallpaperRoutes.ListWallpapers | backend/routes/wallpapers.js:6-56 | A negative skip gives 500, and only a negative skip does. Otherwise: page and limit echo the query, with defaults 1 and 12; total is the number of wallpapers; pages is ceil(total/limit); the data is the window at (page-1)·limit. |
| WallpaperRoutes.CardsInOrder | backend/routes/wallpapers.js:12-26 | In every mode, the cards of a page are consecutive elements of the sorted collection, in the order the mode states. |
| WallpaperRoutes.CardAt | backend/routes/wallpapers.js:23-26 | Card i of a page is the card of the wallpaper at position skip + i of the collection sorted by the mode. |
| WallpaperRoutes.PopularWallpapers | backend/routes/wallpapers.js:118-147 | The list holds min(wallpapers, limit) stored wallpapers, with limit 20 by default, most downloaded first. Entry i is the card of the wallpaper at position i of the collection sorted by downloads descending. |
| WallpaperRoutes.PopularFirstIsMost | backend/routes/wallpapers.js:123-125 | The first popular wallpaper has at least as many downloads as any stored wallpaper. |
| WallpaperRoutes.PopularIsFirstPage | backend/routes/wallpapers.js:123-125 | The popular list is the first page of the list sorted by 'popular', with the same limit. |
| WallpaperRoutes.Counted | backend/routes/wallpapers.js:71-72 | The download counter rises by exactly one; nothing else changes except updatedAt. |
| WallpaperRoutes.Download | backend/routes/wallpapers.js:58-90 | An unknown id gives 404 and changes nothing. Otherwise only that wallpaper's counter rises by one, and the reply carries the new count and the image. |
| WallpaperRoutes.DownloadSumAfterCount | backend/routes/wallpapers.js:71 | Counting one download raises the total of all download counters by exactly one. |
| WallpaperRoutes.CreateWallpaper | backend/routes/wallpapers.js:92-116 | A wallpaper the schema rejects gives 500 and changes nothing. Otherwise exactly the new wallpaper is appended and answered with 201. |
| ServerErrors.DuplicateMessage | backend/server.js:112-115 | The message names the duplicated field at its place in the template. |
| ServerErrors.Translate | backend/server.js:92-124 | The status is 400 iff the error is a ValidationError, a CastError or duplicate key 11000; otherwise it is 500. The first matching rule decides the reply. details appear only for a validation error. A 500 says 'Internal Server Error', and carries the error's own message only in development, 'Something went wrong' otherwise. |
| ServerErrors.NoLeakOutsideDevelopment | backend/server.js:122 | Outside development the reply does not depend on the error's message. |
| ServerErrors.FirstRuleWins | backend/server.js:95-117 | A validation error that also carries code 11000 is still reported as a validation error, with its field messages. |
| ServerErrors.RouteNotFound | backend/server.js:127-133 | An unknown route gives 404 'Route not found', and the reply echoes the requested path. |
| StoreFacts.CountersAfterVote | backend/routes/votes.js:39-43 | Recording a vote and bumping its outfit's counter keeps every cached counter equal to its Vote record count. |
| StoreFacts.ReferencesAfterVote | backend/routes/votes.js:24-39 | A vote recorded for a found outfit keeps every vote pointing at a stored outfit. |
| StoreFacts.CountersSumToVotes | backend/routes/outfits.js:12-19 | In a valid store the outfits' counters add up to the number of Vote records, so the percentages share out one whole. |
| StoreFacts.RecordSumIsTotal | backend/routes/outfits.js:12-19 | When every vote names a stored outfit, the per-outfit record counts add up to all the votes. |
| Listing.KeyLeTotal | backend/routes/fans.js:26-28 | Any two sort keys are comparable, so every sort order is total. |
| Listing.KeyLeTrans | backend/routes/fans.js:26-28 | The key order is transitive. |
| Listing.KeyLeAntisymmetric | backend/routes/fans.js:26-28 | Two keys that are each at most the other are equal. |
| Listing.SortBy | backend/routes/outfits.js:9 | The sort returns a permutation of its input: the same length and the same multiset. |
| Listing.SortBySorted | backend/routes/outfits.js:9 | The sort's output is in key order. |
| Listing.SortedPair | backend/routes/outfits.js:9 | For any positions i < j of the sorted output, element i's key is at most element j's. |
| Listing.SortByKeeps | backend/routes/outfits.js:9 | Every input element appears in the sorted output. |
| Listing.SortByDrawsFrom | backend/routes/outfits.js:9 | Every element of the sorted output comes from the input. |
| Listing.Window | backend/routes/fans.js:29-30 | `.skip(s).limit(l)` returns the elements from position s on, at most |l| of them (all for l = 0), in order. It is empty when s is past the end. |
| Listing.WindowInOrder | backend/routes/fans.js:26-30 | Any two elements of a skip/limit window over the sorted output are in key order. |
| Listing.WindowDrawsFrom | backend/routes/fans.js:26-30 | Every element of a skip/limit window over the sorted output is an element of the unsorted input. |
| Listing.WindowIsSlice | backend/routes/fans.js:9-30 | For page ≥ 1 and limit ≥ 1, page `page` is the slice from (page-1)·limit to page·limit. |
| Listing.PageCount | backend/routes/fans.js:41 | For a positive limit, the page count is the least number of pages that holds all the documents. For a negative limit it is the ceiling of the negative quotient. For a zero limit it is absent. |
| Listing.RoundPercent | backend/routes/outfits.js:19 | The result is the nearest whole percentage, with halves rounded up, and 0 when there are no votes. |
| Listing.PercentAtMost100 | backend/routes/outfits.js:19 | A counter that does not exceed the total gives at most 100. |
| Listing.Where | backend/routes/questions.js:11 | A filter keeps exactly the elements that pass it, and its length is their count. |
| Listing.SortedWhere | backend/routes/questions.js:11-12 | Sorting the filtered elements keeps exactly the elements that pass the filter. |
| Listing.CountByCounts | backend/routes/votes.js:90-93 | The tally holds exactly the keys that occur, each with its number of occurrences. |
| Listing.CountNone | backend/routes/votes.js:86 | Nothing is counted when no element passes the filter. |
| Documents.IndexOf | backend/routes/outfits.js:41 | findById returns the first position holding the id, or none iff no document has it. |
| Documents.IndexOfAllocated | backend/routes/outfits.js:41 | With distinct ids, findById finds exactly the document at its position. |
| Documents.IndexOfReplace | backend/routes/wallpapers.js:71-72 | Changing a document's body in place moves no id. |
| Text.Trim | backend/routes/questions.js:54-63 | `trim` gives a result that is empty iff the string is all white space, and that otherwise neither starts nor ends with white space. |
| Text.TrimIsInfix | backend/routes/questions.js:62-63 | What `trim` keeps is a contiguous part of the string, starting after the leading white space, with only white space around it. |
| Text.TrimIdempotent | backend/routes/questions.js:62-63 | Trimming twice is trimming once. |
| Text.Contains | backend/routes/questions.js:23 | `includes` holds iff the substring occurs at some position. |
| Text.Utf16Length | backend/models/Question.js:11 | The JavaScript length is between the number of characters and twice it, equals it when every character lies in the basic plane, and is twice it when none does. |
| Text.Utf16LengthChar | backend/models/Question.js:11 | One character counts two code units exactly when it lies outside the basic plane. |
| Text.Utf16LengthAppend | backend/models/Question.js:11 | The length of a concatenation is the sum of the lengths, so together with Utf16LengthChar it fixes the count of every string. |

## Left out

- Concurrency: each request runs to completion before the next. Two requests that interleave
  their awaits (two votes for one outfit, say) are not modelled.
- The clock: `now` and `startOfDay` are parameters. Local time zones are not modelled.
- ObjectIds are abstract numbers, so every id is well formed. A malformed id in a route makes
  the store throw a CastError, which the route's own catch answers with 500. That path is not
  modelled.
- Requests with values of the wrong type are not modelled. For example, `fanName: null` makes
  `trim` throw, and a non-numeric `page` or `limit` gives NaN. Query parameters are modelled as
  integers, or as absent.
- Mongoose strict mode is not modelled. backend/models/Fan.js declares only username, email,
  points and isTopFan, and strict mode would drop the other fields the fan routes read and
  write. The model keeps those fields as optional profile fields, as the routes read and write them.
- Floating point: percentages and page counts are stated with exact integer arithmetic.
  `Math.round` on a float quotient can differ from the exact half-up rounding when the quotient
  lies within rounding error of a half.
- `Math.ceil(total / limit)` for a zero limit is Infinity or NaN. JSON writes either as null,
  which the model writes as `None`.
- Ties beyond the listed sort keys keep insertion order. MongoDB leaves their order unspecified.
- GET /api/fans/top and GET /api/fans/recent are not modelled. They call `Fan.getTopFans` and
  `Fan.getRecentActive`, which backend/models/Fan.js does not define.
- GET /api/fans/stats/summary is not modelled. It averages points with floating point.
- The random `likes` figure of the question list is not modelled. It reads `Math.random`.
- `populate('fanId', 'username')` in GET /api/votes/outfit/:id is not modelled. The replies
  carry the votes' fan ids, not the fans' usernames.
- The `success` flag and the fixed `message` strings of successful replies are not modelled.
- Logging (`console.error`) is not modelled.
- A POST /api/fans body without a username is not modelled. The model takes the username as a
  string, so a missing username behaves as the empty string, which the schema refuses with 500.
- ServerErrors.Translate: a duplicate-key error is taken to carry its key fields as a list. An
  error with code 11000 but no `keyValue` makes `Object.keys` throw inside the handler. That
  case is not modelled.
- Store.Db.Valid: every handler contract assumes each outfit's `votes` counter equals the number
  of its Vote records. backend/seedData.js:29-60 seeds six outfits with counters from 34 to 156
  and no Vote records, so the seeded store is outside the contracts. A store that starts empty
  and changes only through the modelled handlers always satisfies it.
- Server start-up, the database connection, CORS, static files, the health route and the
  shutdown handlers of backend/server.js are not part of this model.
