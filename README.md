# Video-sharing backend controllers in Dafny

This project models the request logic of a video-sharing REST backend's controllers:
playlists, likes, subscriptions, videos, tweets, comments and the channel dashboard.
Each MongoDB collection becomes a sequence of documents in natural (insertion) order.
Each collection that handlers update in place belongs to a class: `PlaylistStore`, `LikeStore`, `SubscriptionStore`, `VideoStore`, `TweetStore` and `CommentStore`.
A handler becomes a method on its store, or a function when it only reads.
It answers `Ok(value)` or `Fail(ApiError(code))`, with the codes 400, 403, 404 and 500.
The dashboard is a set of pure functions over the Video, Subscription and Like sequences.

Modules and files:

- `common.dfy` (`Common`): ids, `ApiError` and `Result`, and `isValidObjectId`, which accepts any 12-character string or 24 hexadecimal digits.
  It also holds JavaScript truthiness of an optional request value and the `x || fallback` idiom.
- `seqs.dfy` (`Seqs`): the query primitives.
  These are `findById` (`IndexOf`), `find` with a filter (`Filter`), `deleteOne` on one document (`RemoveAt`), `countDocuments` (`CountWhere`) and `sort({ key: -1 })` (`SortDescending`).
- `jstext.dfy` (`JsText`): the JavaScript semantics the handlers rely on.
  These are case-insensitive substring matching for `$regex` with `$options: "i"`, and `parseInt` with no radix.
- `playlists.dfy`, `likes.dfy`, `subscriptions.dfy`, `videos.dfy`, `tweets.dfy`, `comments.dfy`, `dashboard.dfy`: one module per controller file.

How the environment is represented:

- The authenticated caller (`req.user`) is a parameter `caller`.
- The id a save assigns is a parameter `newId`, which must not be in use.
- The clock is a parameter `now`.
- The Cloudinary upload is a function parameter `upload(path, kind)` that returns the stored URL.
- The comment listing's join reads the User collection, which is passed in as a sequence of `User` documents.
- A request field is `Option<string>`; `None` means the field is absent.
- An uploaded file is `Option<string>` holding the path of the first file sent under that field.

Decisions where the behaviour depends on code that is not part of this model:

- `asyncHandler` in `src/utils/asyncHandler.js:12-16` returns a function that never calls the handler.
  The model describes each handler body as if it were invoked directly.
- The Mongoose version is taken to be 6, the last major version that still provides `Document.remove`.
  - `video.remove()`, `tweet.remove()` and `existingSubscription.remove()` therefore delete the document.
  - An update strips keys whose value is `undefined`, so a field absent from the body of `updatePlaylist` keeps its value.
  - `strictQuery` follows `strict`, so a query filter on a path the schema does not declare is dropped.
- The Like schema is taken to declare `likeableModel` and `likeableId`, since the channel statistics query them.
  If it did not, Mongoose 6 would drop both conditions from the like count, and `totalLikes` would count every like in the collection.
- The schemas are not part of this model.
  - The defaults a new video gets (`isPublished` true, `views` 0) are named constants in `Videos`.
  - Comments are taken to keep `createdAt` and `updatedAt` timestamps.
- Ids are text in the canonical form the driver's cast produces: 24 lower-case hexadecimal digits.
  See "## Left out" for what that assumption hides.
- An error that is not an `ApiError` is reported as 500: a cast error in a query, or an invalid `new ObjectId(...)`.
  The comment controller never checks an id.
  So a malformed comment or video id there fails with 500, where the other controllers answer 400.
  The same holds for a truthy but malformed `userId` in the video listing.

## Model

| member | source | states |
|---|---|---|
| Seqs.IndexOf | src/controllers/playlist.controller.js:68 | `findById` finds the first document with the id, and finds nothing exactly when no document has it |
| Seqs.Filter | src/controllers/playlist.controller.js:43 | `find` with a filter keeps each document the filter accepts, as often as it occurs, and no other document |
| Seqs.RemoveAt | Backend/src/controllers/like.controller.js:22-25 | deleting one document removes exactly that one occurrence and shifts the rest, keeping their order |
| Seqs.SortDescending | src/controllers/tweet.controller.js:40 | `sort({ key: -1 })` returns a permutation of its input ordered by non-increasing key |
| Seqs.CountWhere | src/controllers/dashboard.controller.js:14 | `countDocuments` is at most the collection size, and is zero exactly when no document matches |
| Seqs.CountWhereFilter | src/controllers/dashboard.controller.js:14 | counting the documents a filter matches agrees with the length of the `find` result |
| Seqs.CountWhereRemoveAt | src/controllers/dashboard.controller.js:25 | deleting a document lowers a count by one exactly when that document matched |
| JsText.ContainsIgnoringCase | Backend/src/controllers/video.controller.js:23-24 | the case-insensitive match holds exactly when the lower-cased pattern occurs at some position of the lower-cased text |
| JsText.IsInfixAt | Backend/src/controllers/video.controller.js:23-24 | the substring search succeeds exactly when the pattern occurs at some position of the text |
| JsText.ParseInt | Backend/src/controllers/comment.controller.js:37-38 | `parseInt` of blank text is `NaN`, and only a leading minus sign makes its result negative |
| JsText.ParseIntSkipsSpace | Backend/src/controllers/comment.controller.js:37-38 | a leading white-space character, including the Unicode spaces and line terminators JavaScript trims, does not change the result |
| JsText.ParseIntDecimalPrefix | Backend/src/controllers/comment.controller.js:37-38 | the decimal text of a number followed by text starting with a non-digit reads as that number; after a lone 0 that text must not start with an x, which would switch to hexadecimal |
| JsText.ParseIntDecimal | Backend/src/controllers/comment.controller.js:37-38 | `parseInt` reads the decimal text of every natural number back as that number |
| Playlists.WithVideoAppends | src/controllers/playlist.controller.js:97-98 | adding a video that is not listed appends it at the end, so the list grows by exactly one |
| Playlists.WithVideoIdempotent | src/controllers/playlist.controller.js:97-100 | adding a video already listed changes nothing, so adding twice is adding once, and afterwards the video is listed |
| Playlists.WithVideoDistinct | src/controllers/playlist.controller.js:97-100 | adding never creates a duplicate entry |
| Playlists.WithoutVideo | src/controllers/playlist.controller.js:126 | after removing, no occurrence of the video remains, and every other video keeps its number of occurrences |
| Playlists.WithoutVideoConcat | src/controllers/playlist.controller.js:126 | removing works piece by piece, so the remaining videos keep their relative order |
| Playlists.WithoutVideoAbsent | src/controllers/playlist.controller.js:126 | removing a video that is not listed leaves the list unchanged |
| Playlists.WithoutVideoIdempotent | src/controllers/playlist.controller.js:126 | removing twice is removing once |
| Playlists.WithoutVideoDistinct | src/controllers/playlist.controller.js:126 | removing keeps a duplicate-free list duplicate-free |
| Playlists.WithVideo | src/controllers/playlist.controller.js:97-98 | adding keeps the old list as a prefix, grows it by at most one entry, and lists exactly the old videos and the added one |
| Playlists.Assigned | src/controllers/playlist.controller.js:169-173 | a field absent from the body keeps its value; a value sent is stored, so the result differs from the truthiness fallback only for the empty string |
| Playlists.PlaylistStore.CreatePlaylist | src/controllers/playlist.controller.js:13-24 | a missing or empty name or description gives 400 and no change; otherwise one playlist with those fields, owned by the caller and with no videos, is appended |
| Playlists.PlaylistStore.UserPlaylists | src/controllers/playlist.controller.js:38-50 | a malformed user id gives 400; otherwise 404 exactly when the user owns no playlist; the result is exactly the user's playlists, with their multiplicities, and is non-empty |
| Playlists.PlaylistStore.PlaylistById | src/controllers/playlist.controller.js:63-72 | a malformed id gives 400, then an unknown id 404; on success the playlist has that id |
| Playlists.PlaylistStore.AddVideoToPlaylist | src/controllers/playlist.controller.js:85-100 | either id malformed gives 400 before the lookup, then a missing playlist gives 404, both with no change; otherwise only that playlist's list becomes the list with the video added; ids stay unique and no list gains a duplicate |
| Playlists.PlaylistStore.RemoveVideoFromPlaylist | src/controllers/playlist.controller.js:114-127 | the same guards as adding; otherwise only that playlist's list loses every occurrence of the video; ids stay unique and lists stay duplicate-free |
| Playlists.PlaylistStore.DeletePlaylist | src/controllers/playlist.controller.js:141-150 | a malformed id gives 400 and an unknown one 404, with no change; otherwise exactly that playlist is removed and its id is gone |
| Playlists.PlaylistStore.UpdatePlaylist | src/controllers/playlist.controller.js:164-177 | a malformed id gives 400 and an unknown one 404, with no change; otherwise a name or description present in the body replaces the stored one and an absent one keeps it; there is no ownership check |
| Likes.NewLike | Backend/src/controllers/like.controller.js:29-32 | the saved like matches its own (kind, target, user) triple and no other, and leaves `likeableModel` and `likeableId` unset |
| Likes.WrittenByToggleMatch | Backend/src/controllers/like.controller.js:29-32 | a toggle-shaped like that matches a triple is exactly the document a toggle saves for that triple |
| Likes.FirstMatch | Backend/src/controllers/like.controller.js:15-18 | `findOne` returns the first like matching the triple, and none exactly when no like matches |
| Likes.Toggled | Backend/src/controllers/like.controller.js:20-35 | a toggle deletes one document exactly when the triple already has a like, and otherwise saves one, which the lookup then finds at the end |
| Likes.CountZero | Backend/src/controllers/like.controller.js:15-20 | a triple has no likes exactly when `findOne` finds none |
| Likes.CountConcat | Backend/src/controllers/like.controller.js:15-18 | the number of likes for a triple adds up over the two parts of a collection |
| Likes.ToggleKeepsOthers | Backend/src/controllers/like.controller.js:20-35 | a toggle neither adds nor removes any document that does not match its triple |
| Likes.ToggleCount | Backend/src/controllers/like.controller.js:20-35 | a toggle lowers the triple's count by one when a like existed, and otherwise leaves exactly one |
| Likes.ToggleOtherCounts | Backend/src/controllers/like.controller.js:20-35 | a toggle never raises any other triple's count, and a like leaves every other count as it was |
| Likes.TogglePreservesAtMostOne | Backend/src/controllers/like.controller.js:20-35 | sequential toggles keep at most one like per (kind, target, user) |
| Likes.TogglePreservesWrittenByToggle | Backend/src/controllers/like.controller.js:29-32 | toggles only ever save toggle-shaped documents |
| Likes.ToggleFlipsLiked | Backend/src/controllers/like.controller.js:20-35 | with at most one like for the triple, each toggle flips whether the triple is liked |
| Likes.ToggleTwiceCount | Backend/src/controllers/like.controller.js:20-35 | when the triple has at most one like, as on every collection the toggles write, two toggles give it back its original count |
| Likes.ToggleTwiceFromUnliked | Backend/src/controllers/like.controller.js:20-35 | liking then unliking restores the collection exactly |
| Likes.ToggleTwiceFromLiked | Backend/src/controllers/like.controller.js:20-35 | unliking then liking restores the collection as a multiset, when every like is toggle-shaped; the re-created like goes to the end |
| Likes.LikeStore.ToggleLike | Backend/src/controllers/like.controller.js:8-36 | a malformed id gives 400 and no change; otherwise the collection becomes the toggled one, and `liked` is true exactly when no like existed before |
| Likes.LikeStore.ToggleVideoLike | Backend/src/controllers/like.controller.js:39-50 | the helper with the fixed kind `video`; the response's `liked` is the helper's |
| Likes.LikeStore.ToggleCommentLike | Backend/src/controllers/like.controller.js:53-64 | the helper with the fixed kind `comment` |
| Likes.LikeStore.ToggleTweetLike | Backend/src/controllers/like.controller.js:67-78 | the helper with the fixed kind `tweet` |
| Likes.LikeStore.LikedVideos | Backend/src/controllers/like.controller.js:84 | every like the caller made, of any kind and with its multiplicity, and no other like |
| Likes.ToggleTwiceAlternates | Backend/src/controllers/like.controller.js:20-35 | two toggles in a row answer `liked` true then false or false then true; starting unliked, the collection is restored |
| Subscriptions.ToggleCounts | src/controllers/subscription.controller.js:24-50 | a toggle removes one copy of an existing pair or saves the pair once, and leaves every other pair's count alone |
| Subscriptions.TogglePreservesDistinct | src/controllers/subscription.controller.js:24-43 | sequential toggles keep at most one record per (subscriber, channel) |
| Subscriptions.ToggleTwiceFromUnsubscribed | src/controllers/subscription.controller.js:24-43 | subscribing then unsubscribing restores the collection exactly |
| Subscriptions.ToggleTwiceFromSubscribed | src/controllers/subscription.controller.js:24-43 | unsubscribing then subscribing again restores the collection as a multiset |
| Subscriptions.SubscribersOf | src/controllers/subscription.controller.js:63-69 | one subscriber entry per subscription to the channel |
| Subscriptions.ChannelsOf | src/controllers/subscription.controller.js:83-89 | one channel entry per subscription the subscriber holds |
| Subscriptions.Toggled | src/controllers/subscription.controller.js:24-43 | a toggle deletes one document exactly when the pair exists, and otherwise saves the pair, which is then present; no other pair appears or disappears |
| Subscriptions.SubscriptionStore.ToggleSubscription | src/controllers/subscription.controller.js:9-51 | a malformed channel id gives 400, then subscribing to oneself gives 400, both with no change; otherwise an existing pair is removed (`Unsubscribed`) or the pair is saved (`Subscribed`); no self-subscription and no duplicate pair ever appears |
| Subscriptions.SubscriptionStore.ChannelSubscribers | src/controllers/subscription.controller.js:58-69 | a malformed id gives 400; otherwise one subscriber per subscription to the channel |
| Subscriptions.SubscriptionStore.SubscribedChannels | src/controllers/subscription.controller.js:78-89 | a malformed id gives 400; otherwise one channel per subscription held |
| Subscriptions.ToggleTwiceAlternates | src/controllers/subscription.controller.js:24-50 | two toggles answer `Subscribed` and `Unsubscribed` in either order; they always restore the collection as a multiset, and restore the exact sequence when it starts unsubscribed |
| Videos.BuildFilter | Backend/src/controllers/video.controller.js:20-29 | the text filter is set exactly when `query` is truthy, and the owner filter exactly when `userId` is truthy, each with the request's value |
| Videos.Passes | Backend/src/controllers/video.controller.js:20-29 | an empty filter passes every video; a video passes only if the owner condition, when present, names its owner and the text condition, when present, occurs, ignoring case, in its title or its description; a video fails only by failing a condition that is present |
| Videos.ListingFilterIff | Backend/src/controllers/video.controller.js:20-29 | a video is listed exactly when no query was given or its title or description contains the query ignoring case, and no user was given or the user owns it |
| Videos.BuildOptions | Backend/src/controllers/video.controller.js:11-35 | page 1, limit 10 and `createdAt` are the defaults; the sort order is -1 exactly when `sortType` is absent or `"desc"`, and 1 otherwise |
| Videos.Edited | Backend/src/controllers/video.controller.js:116-122 | an update takes a truthy title or description and otherwise keeps the old one; the thumbnail becomes exactly the uploaded file when one is sent and stays otherwise; the id, owner, video file, duration, counters and publish flag never change |
| Videos.EditedTwice | Backend/src/controllers/video.controller.js:116-122 | sending the same update twice gives the same document as sending it once |
| Videos.VideoStore.AllVideos | Backend/src/controllers/video.controller.js:10-37 | a truthy malformed `userId` fails with 500; otherwise the result holds exactly the videos the filter passes, with their multiplicities, and the options built from the request |
| Videos.VideoStore.PublishAVideo | Backend/src/controllers/video.controller.js:46-67 | a missing video file or thumbnail gives 400 with nothing uploaded or saved; otherwise both are uploaded and one video owned by the caller, with the default flag and views, is appended |
| Videos.VideoStore.VideoById | Backend/src/controllers/video.controller.js:80-88 | a malformed id gives 400, then an unknown id 404; on success the video has that id |
| Videos.VideoStore.UpdateVideo | Backend/src/controllers/video.controller.js:101-124 | 400, then 404, then 403 for a non-owner, each with no change; otherwise only that video is edited; no video's owner ever changes |
| Videos.VideoStore.DeleteVideo | Backend/src/controllers/video.controller.js:137-151 | 400, then 404, then 403, each with no change; otherwise exactly that video is removed and its id is gone |
| Videos.VideoStore.TogglePublishStatus | Backend/src/controllers/video.controller.js:163-176 | 400, then 404, with no change; otherwise only that video's `isPublished` flips; there is no ownership check |
| Videos.TogglePublishTwice | Backend/src/controllers/video.controller.js:174 | two toggles by anyone restore the collection, and the second answer's flag is the opposite of the first |
| Tweets.TweetsOf | src/controllers/tweet.controller.js:40 | exactly the user's tweets, with their multiplicities, newest first |
| Tweets.TweetStore.CreateTweet | src/controllers/tweet.controller.js:13-22 | empty or missing content gives 400 and no change; otherwise one tweet with that content, owned by the caller, is appended |
| Tweets.TweetStore.UserTweets | src/controllers/tweet.controller.js:35-40 | a malformed user id gives 400; otherwise exactly the user's tweets, newest first |
| Tweets.TweetStore.UpdateTweet | src/controllers/tweet.controller.js:53-71 | 400, then 404, then 403 for a non-owner, each with no change; otherwise only that tweet's content becomes the new content when it is truthy and keeps the old one otherwise |
| Tweets.TweetStore.DeleteTweet | src/controllers/tweet.controller.js:84-100 | 400, then 404, then 403, each with no change; otherwise exactly that tweet is removed and its id is gone |
| Comments.Lookup | Backend/src/controllers/comment.controller.js:15-20 | `$lookup` yields exactly the users whose id is the comment's owner |
| Comments.LookupAtMostOne | Backend/src/controllers/comment.controller.js:15-20 | with unique user ids a comment's lookup matches at most one user |
| Comments.Unwind | Backend/src/controllers/comment.controller.js:22-32 | unwinding a comment's lookup gives one projected row per matched user, in order |
| Comments.ProjectDetermines | Backend/src/controllers/comment.controller.js:23-32 | the projected row carries the comment's id and creation time, and two equal rows come from the same comment id and the same owner |
| Comments.UnwindRows | Backend/src/controllers/comment.controller.js:15-32 | the rows of one comment are exactly its projections with each user who owns it |
| Comments.JoinOwners | Backend/src/controllers/comment.controller.js:14-32 | across a run of comments, a row exists exactly for a comment together with a user who owns it |
| Comments.JoinOwnersOnce | Backend/src/controllers/comment.controller.js:14-32 | with distinct comment ids and unique user ids the join yields each row at most once |
| Comments.VideoCommentRows | Backend/src/controllers/comment.controller.js:12-34 | the pipeline's rows are exactly the projections of the video's comments joined with their owners, ordered by `createdAt` descending; with distinct comment ids and unique user ids each appears exactly once |
| Comments.UnownedCommentDropped | Backend/src/controllers/comment.controller.js:15-22 | the inner join drops a comment whose owner is not a user: no listed row carries its id |
| Comments.PageOption | Backend/src/controllers/comment.controller.js:10-39 | an absent page or limit is the default number (1 or 10); a given one is its `parseInt` |
| Comments.PageOptionDecimal | Backend/src/controllers/comment.controller.js:36-39 | a page or limit sent as the decimal text of a number is read back as that number |
| Comments.Revised | Backend/src/controllers/comment.controller.js:83-84 | an update keeps the id, video, owner and creation time; empty or missing content leaves the document as it was; truthy content becomes the text; `updatedAt` moves to `now` exactly when the text changed |
| Comments.RevisedTwice | Backend/src/controllers/comment.controller.js:83-84 | sending the same update again at any later time changes nothing more, so `updatedAt` does not move again |
| Comments.CommentStore.VideoComments | Backend/src/controllers/comment.controller.js:8-41 | a malformed video id fails with 500; otherwise the rows are exactly the joined comments of the video, newest first, each exactly once when user ids are unique, with the parsed paging options |
| Comments.CommentStore.AddComment | Backend/src/controllers/comment.controller.js:53-61 | empty or missing content gives 400, then a malformed video id 500, both with no change; otherwise one comment on that video, owned by the caller, is appended |
| Comments.CommentStore.UpdateComment | Backend/src/controllers/comment.controller.js:73-84 | a malformed id fails with 500, then 404, then 403 for a non-owner, each with no change; otherwise only that comment is revised |
| Comments.CommentStore.DeleteComment | Backend/src/controllers/comment.controller.js:95-105 | the same guards; otherwise exactly that comment is removed and its id is gone |
| Dashboard.TotalVideos | src/controllers/dashboard.controller.js:14 | the number of videos the user owns, the length of the user's video list; zero exactly when the user owns none |
| Dashboard.ViewsOwnedBy | src/controllers/dashboard.controller.js:15-23 | the sum of views over the user's videos is at least the views of each of them |
| Dashboard.ViewsOwnedByNone | src/controllers/dashboard.controller.js:15-23 | with no video of the user the views add up to zero |
| Dashboard.TotalViews | src/controllers/dashboard.controller.js:15-31 | the fallback to 0 always agrees with the sum of `views` over the user's videos, and gives 0 for a user without videos |
| Dashboard.TotalViewsAppend | src/controllers/dashboard.controller.js:15-23 | one more saved video adds its views to its owner's total and nothing to anyone else's |
| Dashboard.TotalSubscribers | src/controllers/dashboard.controller.js:25 | as many as the channel's subscriber list has entries |
| Dashboard.TotalSubscribersToggle | src/controllers/dashboard.controller.js:25 | a toggle towards the channel moves the count down by one when it unsubscribes and up by one when it subscribes; a toggle towards another channel leaves it alone |
| Dashboard.TotalLikes | src/controllers/dashboard.controller.js:27 | as written: the number of likes with `likeableModel` `"Video"` and `likeableId` among the user's video ids, the length of their filtered list; zero exactly when no like has that shape |
| Dashboard.StatsIgnoreToggledLikes | src/controllers/dashboard.controller.js:27 | on a Like collection built by the like toggles, `totalLikes` is always 0 |
| Dashboard.StatsMissToggledVideoLike | src/controllers/dashboard.controller.js:27 | after one video like on a channel's video, `totalLikes` is 0 while the corrected count is 1 |
| Dashboard.TotalVideoLikes | src/controllers/dashboard.controller.js:27 | corrected: the number of likes whose `video` field names one of the user's videos, the length of their filtered list; zero exactly when there is none |
| Dashboard.VideoLikeToggleCounted | src/controllers/dashboard.controller.js:27 | with the corrected count, liking one of the channel's videos adds one and unliking it removes one |
| Dashboard.ChannelStats | src/controllers/dashboard.controller.js:14-34 | as written: the video count is the user's video list length, the view total is the sum of views over the user's videos and 0 without videos, the subscriber count is the subscriber list length, and the like count is the count of likes with `likeableModel` `"Video"` and `likeableId` among the user's video ids, so toggled likes never count |
| Dashboard.CorrectedChannelStats | src/controllers/dashboard.controller.js:14-34 | the same statistics with likes counted on the `video` field: the like count is the number of likes whose `video` names one of the user's videos; the view total is the sum over the user's videos; a channel without videos has no views and no likes |
| Dashboard.ChannelVideos | src/controllers/dashboard.controller.js:45 | exactly the user's videos, with their multiplicities, newest first |

## Left out

- Server start-up, environment loading and the database connection (`src/index.js`, `Backend/src/db/index.js`) are I/O plumbing.
- The health-check controller returns a constant response.
- Pagination (`Video.paginate`, `Comment.aggregatePaginate`) is not modelled.
  The video listing returns every matching video in collection order, with the page, limit and sort options handed to the paginator; the paginator sorts it.
  The comment listing returns the whole sorted row sequence with its paging options.
  Cutting one page out of either belongs to the plugin, which is not part of this model.
- `populate` (of `owner`, `video`, `subscriber` and `channel`) is left out.
  The results carry the referenced ids, not the joined user or video documents.
  The fields `populate` selects belong to the User schema, which is not part of this model.
- Videos.ListingFilterIff: the query is matched as literal text with ASCII case folding.
  Regular-expression syntax in the query, Unicode case folding and Mongo's other regex options are not modelled.
- Videos.BuildOptions: the sort key is carried as text.
  The paginator's sort by an arbitrary `sortBy` field is not modelled, since the listing's order belongs to the paginator.
- Seqs.SortDescending: documents with equal `createdAt` come out in one fixed order.
  MongoDB leaves the relative order of such ties unspecified, so the contracts state only the ordering and the permutation.
- A request value that is not a string (an array or an object sent in the query or the body) is not modelled.
  Request values are optional strings.
- Request ids are assumed to be canonical: 24 lower-case hexadecimal digits, the text form of a stored ObjectId.
  The source casts a request id to an ObjectId before every query and on save; the model compares ids as text instead.
  So the model does not capture an id in another form that names the same ObjectId, such as one sent with upper-case hexadecimal digits.
  With such an id, `getPlaylistById` finds the playlist and `toggleVideoLike` finds the existing like, where the model answers 404 or saves a second like.
  `toggleSubscription`'s self-subscription check compares the request text with the caller's id as text, as the model does, so it holds only for canonical ids.
  `isValidObjectId`'s 12-character test counts code points in the model and UTF-16 code units in JavaScript, so an id holding a character outside the Basic Multilingual Plane is judged by a different length.
- Like and Subscription documents are modelled without their `_id` and without any timestamps their schemas may add.
  A like or subscribe saves a new document with a fresh `_id`, and the toggle responses carry it; the model's records and responses do not.
  So "restores the collection" in Likes.ToggleTwiceFromLiked, Subscriptions.ToggleTwiceFromSubscribed and Subscriptions.ToggleTwiceAlternates means equal up to the `_id` of the re-created document.
- Playlists.PlaylistStore.AddVideoToPlaylist: its promise that no list gains a duplicate holds only for canonical ids.
  The handler tests inclusion with the request text, and only the push casts it to an ObjectId.
  Unless that test casts as well, an upper-case form of a listed video passes it, and the playlist then lists that video twice.
- Mongoose schema validation and casting on save (required fields, types, string length) is not modelled.
  The one exception is the cast of a malformed video id in `addComment`, which fails with 500.
- Concurrency between requests is left out.
  Every handler runs to completion before the next begins, so the race between `findOne` and `save` in the toggles does not arise.
- Failures of the database and of the upload service are left out.
- Timestamps that a save moves are not modelled for videos, tweets and playlists: `updatedAt` set by `video.save()`, `tweet.save()`, `playlist.save()` and `findByIdAndUpdate`.
  The Video, Tweet and Playlist schemas are not part of this model; comments keep theirs, see Decisions.
- JsText.ParseInt: the result is an exact integer.
  JavaScript returns a double, so a digit run above 2^53 is rounded there; page and limit values that large are not modelled.

## Findings

| source | as written | input that shows it | evidently intended | confidence | as-written member | corrected member |
|---|---|---|---|---|---|---|
| src/controllers/dashboard.controller.js:27 | `totalLikes` counts likes by `likeableModel: "Video"` and `likeableId`, fields that `toggleLike` (Backend/src/controllers/like.controller.js:29-32) never writes | an empty Like collection, then one `toggleVideoLike` on a video of the channel: `totalLikes` is 0 | count likes whose `video` field is one of the channel's videos, giving 1 | not executed; assumes Mongoose 6 with the Like schema declaring `likeableModel` and `likeableId` (or `strictQuery` off), otherwise the count is 1 | Dashboard.StatsMissToggledVideoLike | Dashboard.VideoLikeToggleCounted |
