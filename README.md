# YouTube-Clone-Backend controllers in Dafny

This project models the request handlers of the YouTube-Clone-Backend server. That is the business logic of its Express controllers and of the text-assist service:
- likes and subscriptions (toggle, query and list);
- comments, tweets and playlists (create, update and delete, with id, existence and ownership gates);
- videos (listing query, publish validation, details with like count, update, delete, publish toggle and view count);
- the channel dashboard (totals and a paged video list);
- users (registration, login, the single stored refresh token, refresh, logout, password and account changes, channel profile);
- the grammar-correction handler with its language-model service.

The document database is an in-memory store:
- Video, Comment, Tweet, Playlist and User are maps from id to record.
- Like and Subscription are sets of relation records.

A handler that writes is a method of a store class (`LikeStore`, `SubscriptionStore`, `CommentStore`, `TweetStore`, `PlaylistStore`, `VideoStore`, `UserStore`). It states its whole new state and keeps the store's invariant `Valid()`. A handler that only reads is a function, or a method over collection values.

Every handler returns a `Response`: `Ok(status, data)` or `Err(status, message)`, with the status codes and messages of the code.

Ids are the hexadecimal text of an ObjectId. `isValidObjectId` accepts 24 hexadecimal digits in either case. A query casts a request id to the stored form, which is lower case (`Common.ObjectIdOf`).

Several values are parameters:
- fresh record ids and timestamps;
- issued tokens and the subject of a verified token;
- upload results;
- the outcome of the language-model call (its reply text, or the error it throws) and the JSON parser.

Modules: `Common` (ids, responses, JavaScript truthiness, `trim`, `toLowerCase`, multipart file lookup), `Listing` (listing a set, newest-first sort, skip and limit), `Entities` (the documents), and one module per source file: `LikeController`, `SubscriptionController`, `CommentController`, `TweetController`, `PlaylistController`, `VideoController`, `DashboardController`, `UserController`, `GeminiService`, `AiController`.

Where the code has a defect, the model keeps a member for the code as written, with a lemma that exhibits the defect, and a corrected member that the rest of the model uses (see Findings).

## Model

| member | source | states |
|---|---|---|
| Common.ToLower | src/controllers/user.controller.js:77 | `toLowerCase` keeps the length and lower-cases each letter |
| Common.ObjectIdOfCanonical | src/controllers/like.controller.js:11-17 | casting a request id to an ObjectId is idempotent and keeps a valid id valid |
| Common.TrimStart | src/controllers/comment.controller.js:36 | the leading white space is removed: the result is a suffix that starts with a non-space character |
| Common.TrimEnd | src/controllers/comment.controller.js:36 | the trailing white space is removed: the result is a prefix that ends with a non-space character |
| Common.TrimEmptyIffBlank | src/controllers/comment.controller.js:36 | `s.trim() === ""` holds exactly when every character of `s` is white space |
| Common.BlankTextMeansNoContent | src/controllers/comment.controller.js:36-38 | the text check rejects exactly a missing text or one with no non-space character |
| Common.FirstPath | src/controllers/user.controller.js:55-58 | the guarded lookup: the first uploaded path of a field exactly when the field received a file, never a throw |
| Common.FirstPathReadings | src/controllers/video.controller.js:92-93 | the two readings agree except for the throw, which happens exactly when files are present without the field |
| Listing.Enumerate | src/controllers/comment.controller.js:17 | a query's result lists every matching document exactly once |
| Listing.SortNewestFirst | src/controllers/comment.controller.js:21 | `.sort({ createdAt: -1 })` gives a permutation of the input, newest first |
| Listing.SortedListing | src/controllers/comment.controller.js:17-21 | sorting a listing of a set is still a listing of that set |
| Listing.Window | src/controllers/comment.controller.js:19-20 | `skip(n).limit(m)`: at most `m` items, starting at position `n`, none past the end |
| Listing.WindowSplit | src/controllers/comment.controller.js:19-20 | consecutive pages tile the listing: a window of `a` then one of `b` is the window of `a+b` |
| Listing.WindowOfSorted | src/controllers/comment.controller.js:17-21 | a page of a newest-first listing is newest first, distinct, and drawn from the listing |
| LikeController.Toggled | src/controllers/like.controller.js:17-28 | the pair's like state flips; every record of another pair is untouched; an absent pair gains exactly one new record |
| LikeController.ToggleKeepsOnePerPair | src/controllers/like.controller.js:17-28 | toggling keeps at most one Like per (target, user) pair |
| LikeController.ToggleTwice | src/controllers/like.controller.js:17-30 | two toggles of a pair restore the liked pairs, and restore the store exactly when the pair started unliked |
| LikeController.ToggleMovesVideoCount | src/controllers/like.controller.js:17-28 | a toggle moves the video's like count by exactly one, down if it was liked, up otherwise |
| LikeController.LikeStore.Toggle | src/controllers/like.controller.js:62-69 | the store becomes `Toggled` of the old store; a record is returned exactly when one was created |
| LikeController.LikeStore.ToggleVideoLike | src/controllers/like.controller.js:7-31 | 400 "Invalid video ID" with no change; else the toggle, 200 after removal and 201 after creation |
| LikeController.LikeStore.ToggleCommentLike | src/controllers/like.controller.js:54-71 | 400 "Invalid comment ID" with no change; else the toggle, 200, or 201 with the new Like |
| LikeController.LikeStore.ToggleTweetLike | src/controllers/like.controller.js:73-90 | 400 "Invalid tweet ID" with no change; else the toggle, 200, or 201 with the new Like |
| LikeController.IsVideoLiked | src/controllers/like.controller.js:33-51 | 400 exactly for a malformed id; otherwise always 200, true exactly when a Like for (video, caller) exists |
| LikeController.ToggleFlipsIsVideoLiked | src/controllers/like.controller.js:41-49 | after a toggle, isVideoLiked gives the opposite answer |
| LikeController.GetLikedVideos | src/controllers/like.controller.js:92-145 | one row per video Like of the caller whose video and uploader exist, carrying the stored video and like time, newest like first |
| SubscriptionController.Toggled | src/controllers/subscription.controller.js:19-38 | the pair's subscribed state flips; other records are untouched; an absent pair gains exactly one record |
| SubscriptionController.ToggleTwice | src/controllers/subscription.controller.js:19-38 | two toggles of a pair restore the set of subscribed pairs, and restore the store exactly when the pair started unsubscribed |
| SubscriptionController.ToggleKeepsRules | src/controllers/subscription.controller.js:15-34 | a toggle of a non-self pair keeps at most one record per pair and no self-subscription |
| SubscriptionController.ToggleMovesCounts | src/controllers/subscription.controller.js:19-38 | a toggle moves the channel's subscriber count and the subscriber's subscription count by one, in the same direction |
| SubscriptionController.SelfGuardBypass | src/controllers/subscription.controller.js:15-17 | with the guard as written, an id spelled with upper-case digits passes and creates a self-subscription |
| SubscriptionController.SelfGuardBypassWitness | src/controllers/subscription.controller.js:11-17 | the 24-character id with "A" at position 22 and "0" elsewhere is valid and differs from its cast form |
| SubscriptionController.SubscriptionStore.ToggleSubscription | src/controllers/subscription.controller.js:7-39 | 400 on a malformed id or a self-subscription with no change; else the toggle, 200 or 201 with the record created |
| SubscriptionController.IsChannelFollowed | src/controllers/subscription.controller.js:82-100 | 400 exactly for a malformed id; otherwise always 200, true exactly when a record for (channel, caller) exists |
| SubscriptionController.GetUserChannelSubscribers | src/controllers/subscription.controller.js:41-60 | 400 on a malformed id; 500 when a subscriber is gone; else one distinct row per subscription to the channel with the subscriber's card and subscription count |
| SubscriptionController.GetSubscribedChannels | src/controllers/subscription.controller.js:64-79 | 500 when a channel is gone; else one distinct row per subscription of the caller with the channel's card and subscriber count |
| CommentController.GetVideoComments | src/controllers/comment.controller.js:7-24 | 400 on a malformed id; a negative skip is rejected; else the total counts all the video's comments and the page is the window at `(page-1)*limit` of them newest first, page 1 and limit 10 when absent |
| CommentController.CommentStore.AddComment | src/controllers/comment.controller.js:28-47 | 400 on a malformed id or blank text with no change; else 201 with a new comment owned by the caller with the text as given |
| CommentController.CommentStore.UpdateComment | src/controllers/comment.controller.js:49-75 | 400, then 404, then 403, then 400 on blank text, all without change; else only the content changes |
| CommentController.CommentStore.DeleteComment | src/controllers/comment.controller.js:77-97 | the 400/404/403 gates without change; else exactly that comment is removed |
| CommentController.AddCommentCounts | src/controllers/comment.controller.js:15-44 | adding a comment raises its video's total by one and no other video's |
| CommentController.DeleteCommentCounts | src/controllers/comment.controller.js:15-94 | deleting a comment lowers its video's total by one and no other video's |
| TweetController.GetUserTweets | src/controllers/tweet.controller.js:24-36 | 400 on a malformed id; else each tweet the user owns exactly once, with the owner's card or null |
| TweetController.TweetStore.CreateTweet | src/controllers/tweet.controller.js:7-22 | 400 on missing or empty content (white space passes) with no change; else 201 with a new tweet owned by the caller |
| TweetController.TweetStore.UpdateTweet | src/controllers/tweet.controller.js:38-59 | 400 on a malformed id; 404 for a missing tweet and for someone else's alike, with no change; else `$set` replaces the content, or keeps it when the content is undefined |
| TweetController.TweetStore.DeleteTweet | src/controllers/tweet.controller.js:61-80 | 400; 404 unless the caller owns it, with no change; else exactly that tweet is removed |
| TweetController.CreatedTweetListed | src/controllers/tweet.controller.js:14-31 | a created tweet joins exactly its owner's list and no other user's |
| PlaylistController.PlaylistStore.CreatePlaylist | src/controllers/playlist.controller.js:8-24 | 400 without a name and no change; else 201 with an empty playlist owned by the caller, name and description as supplied |
| PlaylistController.CreatedPlaylistOwned | src/controllers/playlist.controller.js:15-19 | the new playlist joins the caller's playlists and no other user's playlists change |
| VideoController.AllVideosQuery | src/controllers/video.controller.js:10-36 | defaults page 1, limit 10, createdAt; ascending exactly for "asc"; the owner filter exactly for a truthy, valid userId; the title search exactly for a truthy query |
| VideoController.OwnerFilterOnlyWhenValid | src/controllers/video.controller.js:26-28 | a missing or malformed userId lets every video through; a valid one keeps exactly that owner's |
| VideoController.ValidatePublish | src/controllers/video.controller.js:84-101 | proceeds exactly with title, description, a video file and a thumbnail, checked in that order with their 400 messages |
| VideoController.GetVideoById | src/controllers/video.controller.js:123-197 | 400 exactly for a malformed id, 404 when absent; else the stored video, its like count, the uploader card or null, and the caller's like (false without a caller) |
| VideoController.ToggleLikeShowsInDetails | src/controllers/video.controller.js:132-166 | after the viewer toggles a like, getVideoById's like flag flips and its count moves by one the same way |
| VideoController.PublishFlipped | src/controllers/video.controller.js:263 | only isPublished changes, and it is negated |
| VideoController.PublishFlippedTwice | src/controllers/video.controller.js:250-269 | two publish toggles restore the video |
| VideoController.ViewCounted | src/controllers/video.controller.js:281 | `$inc` raises the view count by exactly one, a missing count counting as 0, and changes nothing else |
| VideoController.VideoStore.UpdateVideo | src/controllers/video.controller.js:202-228 | 400, 404 with no change; else `$set` replaces each of title, description and thumbnail that is defined and keeps the others, whoever the caller |
| VideoController.VideoStore.DeleteVideo | src/controllers/video.controller.js:231-247 | 400, 404 with no change; else exactly that video record is removed |
| VideoController.VideoStore.TogglePublishStatus | src/controllers/video.controller.js:250-269 | 400, 404 with no change; else the stored video is replaced by its publish-flipped self |
| VideoController.VideoStore.IncreaseViewCount | src/controllers/video.controller.js:272-290 | 400, 404 with no change; else the count rises by one and the new count is returned |
| DashboardController.SumRemove | src/controllers/dashboard.controller.js:33-36 | a `$sum` does not depend on the order: any element may be taken out first |
| DashboardController.GetChannelStats | src/controllers/dashboard.controller.js:9-47 | 400 on a malformed id; else the channel's subscription count, the likes on its videos, and the sum of its views (missing as 0, 0 without videos) |
| DashboardController.ViewCountRaisesChannelTotal | src/controllers/dashboard.controller.js:28-38 | one increaseViewCount raises the owner's totalViews by exactly one |
| DashboardController.LikesAddUp | src/controllers/dashboard.controller.js:20-26 | the likes on a set of videos with distinct ids number the sum of their like counts |
| DashboardController.TotalLikesIsSumOfCounts | src/controllers/dashboard.controller.js:20-26 | totalLikes equals the sum of the likesCount values getChannelVideos shows over the channel's videos |
| DashboardController.GetChannelVideos | src/controllers/dashboard.controller.js:49-100 | 400; a negative skip or a limit below 1 is rejected; else the window of the channel's videos newest first, each with its like count, page 1 and limit 10 when absent |
| UserController.PublicView | src/controllers/user.controller.js:81-83 | the response keeps id, username and email and drops password and refresh token |
| UserController.SelectionsHide | src/controllers/user.controller.js:276 | `.select("-password")` hides the password and nothing else; `.select("-password -refreshToken")` also hides the session slot |
| UserController.WithSession | src/controllers/user.controller.js:17-18 | only the user's refresh-token slot changes, to the given value |
| UserController.RotationRejectsOldToken | src/controllers/user.controller.js:188-190 | after the slot is rotated, a presented token is accepted exactly when it is the new one |
| UserController.ClearedSessionRejectsAll | src/controllers/user.controller.js:144-154 | after the slot is cleared, no token is accepted for that user |
| UserController.AnyField | src/controllers/user.controller.js:40 | `some(cb)` is true exactly when some call of the callback returns true |
| UserController.BlankCheckNeverFires | src/controllers/user.controller.js:40 | with the braced callback `some` never fires, whatever the fields; a returning callback would fire exactly on a present blank field |
| UserController.DuplicateCheckMissesCase | src/controllers/user.controller.js:44-50 | the check as written lets "Alice" register beside "alice", leaving two users named "alice" |
| UserController.CoverOnlyRegistrationThrowsAsWritten | src/controllers/user.controller.js:52 | as written, a multipart registration carrying only a cover image throws at the avatar lookup, where the guarded lookup finds no avatar |
| UserController.CoverImageAsWritten | src/controllers/user.controller.js:65-74 | reading `url` of the cover upload fails with 500 exactly when there was no cover upload |
| UserController.NoCoverFailsAsWritten | src/controllers/user.controller.js:74 | as written, registration without a cover image fails with 500 instead of storing "" |
| UserController.RefreshReplyAsWritten | src/controllers/user.controller.js:197-203 | destructuring `{ accessToken, newrefreshToken }` from the helper's `{ accessToken, refreshToken }` yields the access token and undefined |
| UserController.RefreshAsWrittenStrandsSession | src/controllers/user.controller.js:197-203 | as written, the refresh cookie becomes "undefined", which the rotated slot refuses, while loginUser's `{ refreshToken }` does receive its token |
| UserController.LogoutUpdate | src/controllers/user.controller.js:144-154 | logout's `$set` can change only the caller's refresh-token slot |
| UserController.LogoutAsWrittenKeepsSession | src/controllers/user.controller.js:144-154 | with `refreshToken: undefined` dropped from `$set`, a token accepted before logout is still accepted after it; `null` would have emptied the slot |
| UserController.GetUserChannelProfileAsWritten | src/controllers/user.controller.js:310-380 | 400 for a blank username, 404 when nobody has it, and otherwise 500: never a profile |
| UserController.GetUserChannelProfile | src/controllers/user.controller.js:310-380 | 400 and 404 as written; else a user with the lower-cased username, its subscriber and subscription counts, and whether the caller subscribes |
| UserController.LoginByUsernameIsUnique | src/controllers/user.controller.js:110-118 | with unique usernames, a login by username finds exactly the user registered under it |
| UserController.UserStore.IssueTokens | src/controllers/user.controller.js:11-25 | 500 "something went wrong" for an absent user; else the slot holds exactly the new refresh token and the pair is returned |
| UserController.UserStore.RegisterUser | src/controllers/user.controller.js:27-93 | 400 on a blank field, 409 on a taken username or email, 400 without an avatar file or when the avatar upload is null, all without change; else 201 with the new user, lower-cased username, cover "" when none; unique logins are kept |
| UserController.UserStore.LoginUser | src/controllers/user.controller.js:95-141 | 400 without username and email, 404 when nobody matches, 401 on a wrong password, all without change; a match with the right password always succeeds, and then the matched user's slot holds exactly the new token |
| UserController.UserStore.LogoutUser | src/controllers/user.controller.js:143-167 | the caller's slot is emptied, so no token is accepted for the caller afterwards; 200 |
| UserController.UserStore.RefreshAccessToken | src/controllers/user.controller.js:169-209 | 401 with no change unless the token is the one stored for its subject (the token library's message when verification fails); else the slot rotates and both tokens are returned |
| UserController.UserStore.ChangeCurrentPassword | src/controllers/user.controller.js:211-228 | 500 when the caller is gone, 400 on a wrong old password, both without change; else only the password changes |
| UserController.UserStore.UpdateAccountDetails | src/controllers/user.controller.js:236-254 | 400 unless fullname and email are both truthy, with no change; else only those two fields of the caller change |
| UserController.UserStore.UpdateUserAvatar | src/controllers/user.controller.js:256-281 | 400 without a file, 500 on a failed upload, 400 without a url, all without change; else only the caller's avatar changes and the user comes back without its password |
| UserController.UserStore.UpdateUserCoverImage | src/controllers/user.controller.js:283-308 | the same gates with its own messages; else only the caller's cover image changes and the user comes back without its password |
| GeminiService.Prompt | src/services/gemini.service.js:26-27 | each input line carries the value when truthy and "EMPTY" otherwise |
| GeminiService.PromptConflatesEmpty | src/services/gemini.service.js:26-27 | the prompt cannot tell a missing or empty title from the literal title "EMPTY" |
| GeminiService.IndexOf | src/services/gemini.service.js:34 | `indexOf`: the first position of the character, or -1 exactly when it is absent |
| GeminiService.LastIndexOf | src/services/gemini.service.js:35 | `lastIndexOf`: the last position of the character, or -1 exactly when it is absent |
| GeminiService.CandidateSpan | src/services/gemini.service.js:34-36 | with a "{" before the last "}", the candidate runs from the first "{" through the last "}" and no "}" follows it |
| GeminiService.NoCloseBraceEmpty | src/services/gemini.service.js:35-36 | without any "}" the candidate is empty |
| GeminiService.CandidateShape | src/services/gemini.service.js:34-36 | whatever the reply, the candidate is empty, a lone "}", or starts with "{" |
| GeminiService.GenerateOrFix | src/services/gemini.service.js:30-44 | a failed model call is thrown on; a candidate that parses is returned unchanged; otherwise the truthy inputs, else "Untitled Video" and "Subscribe, comment, and like!" |
| GeminiService.NoCloseBraceFallsBack | src/services/gemini.service.js:35-44 | a reply without "}" always yields the fallback, and never throws |
| AiController.Property | src/controllers/ai.controller.js:14 | destructuring reads a property exactly when the value is an object that has it |
| AiController.GrammarCorrect | src/controllers/ai.controller.js:7-19 | 200 with no data when both inputs are falsy; else 500 with the error of a failed model call, 500 for a parsed `null`, and otherwise 200 with the service's finalTitle and finalDescription |
| AiController.NothingToProcessIgnoresService | src/controllers/ai.controller.js:10-12 | with nothing to process the answer does not depend on the service's reply or parser |
| AiController.AlwaysOk | src/controllers/ai.controller.js:11-18 | once the model has replied, with a JSON-like parser both paths answer 200; a failed model call answers 500 with its error |
| AiController.FallbackKeepsInputs | src/controllers/ai.controller.js:14-18 | when parsing fails, truthy inputs come back as they were |

## Left out

- Media uploads: the upload service and local file deletion are I/O. Upload results are parameters: a url, or None for a failed upload. publishAVideo is modelled up to its validation; its uploads and record creation are not.
- Tokens and passwords: token signing and verification are parameters (issued tokens, and the verified subject or the library's error message). Password hashing is not modelled: a password check is equality with the stored password. `user.model.js` is not part of this model.
- Authentication middleware: the authenticated caller is a parameter; `auth.middleware.js` is not part of this model.
- Routing and application setup are wiring and are not modelled.
- Concurrency: the handlers run one at a time, so the race between a toggle's lookup and its insert is not modelled.
- getAllVideos: only the query it builds is modelled. The regular-expression title search, the pagination plugin and `parseInt` (NaN, fractions) are not.
- getWatchHistory is not modelled: no modelled handler writes a watch history.
- getCurrentUser is not modelled: it only echoes the caller loaded by the middleware.
- Logging is not modelled.
- Page and limit arrive as integers. String arithmetic, NaN and fractional values are not modelled.
- Response envelope: handlers pass their arguments to the response class in inconsistent orders. The model returns the status and payload each handler means. Errors are likewise modelled as (status, message), as the callers pass them.
- Populated fields: a populated user is its username and avatar. The joins also ask for `fullName`, which user documents do not have.
- The comment listing's populated owner (`name email`) is not represented.
- Dates and the video duration are not modelled. `createdAt` is an integer timestamp.
- Mongoose semantics assumed:
  - version 6 or later, which drops undefined keys from updates; this decides updateTweet, updateVideo and the logout finding;
  - a missing populated document is null;
  - a negative `skip` or a `$limit` below 1 is rejected by the database (reported as 500 with a fixed message);
  - `limit(0)` keeps everything.
- Strings: `toLowerCase` is ASCII only. `isValidObjectId`'s acceptance of 12-character strings is not modelled.
- The JSON parser is a parameter; numbers in parsed JSON are integers.
- LoginUser: a lookup with a missing username or email matches no user by that key. The database's handling of undefined filter values is not modelled. A missing password is not modelled either (the password is a string).
- UserController.UserStore.RegisterUser: which user a taken username or email belongs to is not reported. A lookup failure after creation (500) cannot happen in the model and is not represented.
- UpdateTweet: a JSON `null` content is written by `$set`, but the model's content is a string, so it treats null like an absent content and keeps the stored one.
- UpdateVideo: a JSON `null` title, description or thumbnail is written by `$set`, but these fields are strings in the model, so null is treated like an absent value and the stored one is kept.
- UserController.UserStore.UpdateAccountDetails: a duplicate email rejected by a unique index in the user schema is not modelled, because the schema is not part of this model.
- UserController.UserStore.LoginUser: when several users match (one by username, another by email), the model allows any of them, where the database returns the first in its own order.

## Findings

| source | as written | input that shows it | evidently intended | confidence | as-written member | corrected member |
|---|---|---|---|---|---|---|
| src/controllers/subscription.controller.js:15-17 | compares the request's channel id text with the caller's id text | caller `…a0` toggles channel `…A0` (same ObjectId, upper-case digit) | compare the ObjectId the request denotes, so self-subscription is refused | high; not executed | SubscriptionController.SelfGuardBypass | SubscriptionController.SubscriptionStore.ToggleSubscription |
| src/controllers/video.controller.js:92-93 | `req.files?.videoFile[0]?.path` indexes an undefined field | a multipart request with a thumbnail and no video file | 400 "Video file is required" instead of a 500 throw | high; not executed | Common.FirstPathReadings | VideoController.ValidatePublish |
| src/controllers/user.controller.js:52 | `req.files?.avatar[0]?.path` indexes an undefined field (only the cover lookup at lines 55-58 is guarded) | a multipart registration carrying only a cover image | 400 "Avatar is required" instead of a 500 throw | high; not executed | UserController.CoverOnlyRegistrationThrowsAsWritten | UserController.UserStore.RegisterUser |
| src/controllers/user.controller.js:40 | the `some` callback has a braced body without `return` | a form whose fields are all "   " | 400 "All fields are required" | high; not executed | UserController.BlankCheckNeverFires | UserController.UserStore.RegisterUser |
| src/controllers/user.controller.js:44-50 | the duplicate lookup uses the raw username; the stored one is lower-cased | "Alice" registers while "alice" exists | 409, comparing the lower-cased username | medium (void if the user schema lower-cases query values; the schema is not part of this model); not executed | UserController.DuplicateCheckMissesCase | UserController.UserStore.RegisterUser |
| src/controllers/user.controller.js:74 | reads `url` of the cover upload, which is null without a cover image | any registration without a cover image | store an empty cover image | high; not executed | UserController.NoCoverFailsAsWritten | UserController.UserStore.RegisterUser |
| src/controllers/user.controller.js:197-203 | destructures `newrefreshToken`, which the token helper does not return | any successful refresh | send the rotated refresh token | high; not executed | UserController.RefreshAsWrittenStrandsSession | UserController.UserStore.RefreshAccessToken |
| src/controllers/user.controller.js:144-154 | `$set` of undefined, which Mongoose 6 and later drop | log out, then refresh with the old token | clear the stored refresh token | medium (depends on the Mongoose version); not executed | UserController.LogoutAsWrittenKeepsSession | UserController.UserStore.LogoutUser |
| src/controllers/user.controller.js:326-351 | looks up "Subsciption" and tests `$in` against the missing `$subscribers.subscriber` | any existing username | counts from the subscriptions collection and the caller's membership among the subscribers | high; not executed | UserController.GetUserChannelProfileAsWritten | UserController.GetUserChannelProfile |
