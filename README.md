# Gospel cinema backend, modelled in Dafny

This project models the Express back end of a movie and animation site, its models and its
request handlers. Every resource lives in a module-level JavaScript array or dictionary:
users, phone verification codes, comments with likes and replies, playlists, the follow graph,
favorites, downloads, watch history, recommendations and shares. The models read and rewrite
those stores, and the handlers validate a request, pick a status and a message in a fixed
order, and call the models.

The Dafny model follows the source file by file, with one module per file and `Common` for the
JavaScript built-ins the code relies on. Those built-ins are falsy tests, `||` defaults,
`slice` pagination, the stable `Array.prototype.sort`, `filter`, `find` and `trim`.

- Each store becomes a class with a `seq` (or, for verification codes, a `map`) field. The
  static model methods that change it become methods with `modifies`; the queries become
  functions that read it.
- A playlist is itself a class, because `addMovie` and `removeMovie` change the object in
  place.
- Records are datatypes. A record that the source changes through `Object.assign` is replaced
  as a whole value.
- Each handler is a method on the stores it changes, or a function when it only reads. It
  returns the status and message it answers with.
- Loops in the source stay loops, each with the invariant that ties it to a specification
  function. These are the recommendation generator's two `forEach` loops, the save loop, the
  verification-code cleanup, the share statistics tally and the batch and clear-all deletes of
  favorites.
- The handlers do what the source does as written. That includes the three defects listed
  under "## Findings": `updateComment`, `createPlaylist` and `deleteDownload`. For each defect,
  the intended behaviour is modelled beside the as-written one and proved separately.
- Inputs the source takes from outside are parameters: uuids, the clock, the random
  verification code, `bcrypt` (a hashed password and a `matches` oracle), the current year,
  `FRONTEND_URL`, the movie catalog and the caller's id.
- A request field that the source tests for truthiness is an `Option`. It is falsy when it is
  `None` or the empty string (or 0 for numbers).
- Catalog ratings are integers in tenths, so 8.0 is 80. A missing rating or year is 0, as
  `|| 0` makes it.

## Model

| member | source | states |
|---|---|---|
| Common.Trim | server/controllers/playlistController.js:11 | `String.prototype.trim`: the result is the input without its leading and trailing white space, and it is empty exactly when the input is all white space |
| Common.PageIsWindow | server/controllers/watchHistoryController.js:99 | `slice(offset, offset + limit)` with a non-negative offset and a positive limit is the run of at most `limit` elements starting at `offset`, empty past the end |
| Common.PagesConcatenate | server/controllers/watchHistoryController.js:99 | two consecutive pages together are the page of twice the limit, so paging skips and repeats nothing |
| Common.SortDescCorrect | server/models/WatchHistory.js:29-31 | the stable descending sort returns a permutation of its input, ordered by non-increasing key, and keeps each key's elements in their input order |
| Common.TopK | server/models/Recommendation.js:29-34 | the first `n` after sorting are the `n` largest: no element left out has a larger key than one kept |
| Common.UpsertByFacts | server/models/WatchHistory.js:18-26 | `save` by key: the record is stored; an existing key keeps the length and is replaced in place, a new key is appended; other positions are unchanged and keys stay unique |
| Users.NewUser | server/models/User.js:8-22 | phone, email, password and the three qq fields keep a non-empty sent value and are null otherwise; the avatar falls back to the placeholder, the nickname to `用户` plus the random suffix, the login type to `phone`; `isVerified` is the sent flag; the id and both timestamps are the given ones |
| Users.ToJSONHidesOnlyPassword | server/models/User.js:77-80 | the public view does not depend on the password, and two users have the same public view exactly when they differ at most in the password |
| Users.UserStore.Save | server/models/User.js:36-44 | upsert by id: a known id keeps the store's length, a new id appends; afterwards `findById` returns the saved user |
| Users.UserStore.FindById | server/models/User.js:47-49 | a result is a stored user with that id; none exactly when no stored user has it |
| Users.UserStore.FindByPhone | server/models/User.js:52-54 | a result is a stored user with that phone; none exactly when no stored user has it |
| Users.UserStore.FindByEmail | server/models/User.js:57-59 | a result is a stored user with that email; none exactly when no stored user has it |
| Users.UserStore.FindByQQId | server/models/User.js:62-64 | a result is a stored user with that QQ id; none exactly when no stored user has it |
| Users.UserStore.Delete | server/models/User.js:72-74 | the store keeps exactly the users with another id |
| VerificationCode.CodeStore.Generate | server/models/VerificationCode.js:6-19 | the phone's entry becomes a fresh record (code, now + 10 minutes, 0 attempts, 5 allowed), replacing any pending one, and the code is returned |
| VerificationCode.CodeStore.Verify | server/models/VerificationCode.js:22-64 | success, message and the new dictionary are those of one verification step on the phone's record: missing, expired, exhausted, matched, or a wrong code that counts one attempt; keys inherited by JavaScript objects are left out |
| VerificationCode.CodeStore.Cleanup | server/models/VerificationCode.js:67-74 | the for-in loop leaves exactly the entries whose expiry has not passed |
| VerificationCode.MissingChangesNothing | server/models/VerificationCode.js:25-30 | with no record the verdict is "missing" and the dictionary is unchanged |
| VerificationCode.FreshCodeAccepted | server/models/VerificationCode.js:33-57 | a fresh record accepts its own code exactly up to and including its expiry instant |
| VerificationCode.ExpiryWins | server/models/VerificationCode.js:33-39 | once expired, the verdict is "expired" whatever the code and attempts, and the record is deleted |
| VerificationCode.SingleUse | server/models/VerificationCode.js:51-57 | a successful verification deletes the record, so an immediate second one finds nothing |
| VerificationCode.WrongCodeCounts | server/models/VerificationCode.js:59-63 | a wrong code within the limits keeps the record with one more attempt and reports the tries left |
| VerificationCode.WrongGuessesCountDown | server/models/VerificationCode.js:42-63 | a run of wrong guesses within the limits reports one try fewer each time and leaves the attempts raised by the number of guesses |
| VerificationCode.SixthTryFails | server/models/VerificationCode.js:42-48 | after five wrong guesses the sixth try fails as "too many attempts" even with the right code, and the record is gone |
| VerificationCode.SessionAppend | server/models/VerificationCode.js:22-64 | a sequence of verifications split in two runs the second part on the record the first part left |
| VerificationCode.CleanupKeepsLive | server/models/VerificationCode.js:67-74 | cleanup keeps exactly the unexpired records, unchanged, and a verification at the same instant is then never "expired" |
| AuthController.PhoneValidIffPattern | server/controllers/authController.js:12 | the phone check holds exactly for "1", a digit 3 to 9, then nine ASCII digits |
| AuthController.EmailValidIffPattern | server/controllers/authController.js:102-103 | the email check holds exactly for the pattern local@host.tld with non-empty parts free of white space and '@' |
| AuthController.EmailValidHasPattern | server/controllers/authController.js:102-103 | an accepted email splits into the three non-empty parts of the pattern |
| AuthController.EmailPatternIsValid | server/controllers/authController.js:102-103 | any three parts of the pattern joined as local@host.tld are accepted |
| AuthController.SendVerificationCode | server/controllers/authController.js:7-35 | 400 for a missing or malformed phone with the codes untouched; otherwise the phone's code is replaced by a fresh one and returned |
| AuthController.FindOrCreateFacts | server/controllers/authController.js:60-68 | a known phone leaves the users unchanged; an unknown one adds one verified phone user; the signed-in user has the phone and is stored |
| AuthController.FindOrCreateIdempotent | server/controllers/authController.js:60-68 | a second phone login with the same phone creates nobody and changes nothing |
| AuthController.LoginWithPhone | server/controllers/authController.js:38-86 | 400 without phone or code; a refused code answers 400 with the verifier's message and creates nobody; a verified code finds or creates the phone's user and signs it in |
| AuthController.RegisterCheckOrder | server/controllers/authController.js:94-133 | each of the five 400 refusals happens exactly when every earlier check passed and its own fails; acceptance means all passed |
| AuthController.RegisterWithEmail | server/controllers/authController.js:89-161 | a refused registration changes nothing; an accepted one saves the email user with the hashed password and answers 201 with its public view |
| AuthController.RegisterAddsOne | server/controllers/authController.js:127-143 | after an accepted registration with a fresh id, exactly one user has the email: the new verified email user without a phone |
| AuthController.EmailLoginSymmetric | server/controllers/authController.js:164-210 | an unknown email and a wrong password get the identical 401; 200 exactly when the stored hash matches; the signed-in user has that email |
| AuthController.GetCurrentUser | server/controllers/authController.js:299-320 | 404 exactly when no stored user has the caller's id; otherwise the caller's public view |
| AuthController.ChangePasswordRules | server/controllers/authController.js:323-369 | a user without a password is never refused with 401; a mismatched confirmation is refused once the old password passed; success exactly when the user exists, the new password is given and confirmed, and the old one matches or none was set |
| AuthController.ChangePassword | server/controllers/authController.js:323-369 | the answer is the check's; only a 200 stores the user with the new hash, by an upsert on id |
| Users.UserStore.constructor | server/models/User.js:5 | the user list starts empty |
| VerificationCode.CodeStore.constructor | server/models/VerificationCode.js:2 | the code table starts empty |
| Comments.NewComment | server/models/Comment.js:6-19 | a new comment has no likes, likers or replies, rating 5 for a falsy rating, the placeholder avatar for a falsy avatar, and consistent likes |
| Comments.LikeFacts | server/models/Comment.js:95-105 | liking records the user once, keeps the counter equal to the number of likers, changes nothing for a user who already liked, and is idempotent |
| Comments.UnlikeFacts | server/models/Comment.js:107-118 | unliking removes the user from a duplicate-free liker list, keeps the counter in step, changes nothing for a user who had not liked, and removes no one else |
| Comments.UnlikeUndoesLike | server/models/Comment.js:95-118 | unliking right after a first like restores the comment exactly |
| Comments.DistributionKeys | server/models/Comment.js:58-65 | the distribution always has exactly the keys 1 to 5 |
| Comments.DistributionPoisoned | server/models/Comment.js:58-65 | a key outside 1..5 gets a NaN entry exactly when some comment of the movie has that rating |
| Comments.DistributionCounts | server/models/Comment.js:58-65 | each key 1..5 counts the ratings equal to it |
| Comments.TotalCountsRatings | server/models/Comment.js:58-65 | the sum of the entries is the number of ratings exactly when all lie in 1..5, and NaN exactly when one does not |
| Comments.TotalOfCounts | server/models/Comment.js:58-65 | with no NaN entry the sum of the entries is the sum of the five counts |
| Comments.CountsAddUp | server/models/Comment.js:58-65 | with every rating in 1..5 the five counts add up to the number of ratings |
| Comments.SumOfCounts | server/models/Comment.js:58-65 | the number of ratings equal to 1, 2, 3, 4 or 5 adds up to the number of ratings when all lie in 1..5 |
| Comments.CommentStore.Save | server/models/Comment.js:21-29 | upsert by id; the saved comment is stored |
| Comments.CommentStore.FindById | server/models/Comment.js:37-39 | a result is a stored comment with that id; none exactly when no stored comment has it |
| Comments.CommentStore.FindByMovieId | server/models/Comment.js:31-35 | a permutation of the movie's comments, newest first |
| Comments.CommentStore.FindByUserId | server/models/Comment.js:41-45 | a permutation of the user's comments, newest first |
| Comments.CommentStore.Delete | server/models/Comment.js:47-49 | the store keeps exactly the comments with another id |
| Comments.CommentStore.UpdateFirst | server/models/Comment.js:68-69 | none exactly for an unknown id, with the store unchanged; otherwise the first comment with that id is replaced by its update in place |
| Comments.CommentStore.LikeComment | server/models/Comment.js:95-105 | null for an unknown comment; otherwise the first comment with the id is replaced by its liked version, which is returned |
| Comments.CommentStore.UnlikeComment | server/models/Comment.js:107-118 | null for an unknown comment; otherwise the first comment with the id is replaced by its unliked version, which is returned |
| Comments.CommentStore.AddReply | server/models/Comment.js:67-84 | null for an unknown comment; otherwise one reply with no likes and the default avatar for a falsy one is appended to that comment's replies and returned |
| Comments.CommentStore.DeleteReply | server/models/Comment.js:86-93 | false exactly for an unknown comment; otherwise that comment keeps exactly its replies with another id |
| Comments.CommentStore.GetRatingDistribution | server/models/Comment.js:58-65 | the `forEach` loop yields the distribution of the movie's ratings in store order |
| Comments.WithoutReply | server/models/Comment.js:89 | keeps exactly the replies with another id |
| Comments.NewestFirst | server/models/Comment.js:31-45 | the selected comments, as a permutation, sorted by creation time descending |
| Comments.ReplaceKeepsWellFormed | server/models/Comment.js:95-118 | replacing one comment by one with consistent likes and a rating in 1..5 keeps every comment so |
| Comments.CommentStore.constructor | server/models/Comment.js:3 | the comment list starts empty |
| CommentController.AddCommentKeepsRange | server/controllers/commentController.js:11-32 | a comment that passes the checks is stored with a rating in 1..5 (5 when none was given) and consistent likes |
| CommentController.AddComment | server/controllers/commentController.js:4-49 | 400 for a missing movie or content, then 400 for a given rating outside 1..5, with the store unchanged; otherwise the new comment, named `匿名用户` without a caller name, is saved and returned |
| CommentController.MovieCommentsFacts | server/controllers/commentController.js:52-87 | the listing is a permutation of the movie's comments sorted by likes ('helpful'), by rating ('rating') or newest first (otherwise), with ties kept newest first; the page is the requested window and `total` counts all of them |
| CommentController.UserComments | server/controllers/commentController.js:90-116 | one page of the caller's comments, newest first, and `total` is the caller's comment count |
| CommentController.UpdateAsWrittenPoisonsStats | server/controllers/commentController.js:140 | as written, the owner can store rating 7, after which the movie's rating statistics report a NaN total |
| CommentController.UpdateCheckedFacts | server/controllers/commentController.js:119-159 | with the rating check, only the owner's update succeeds; it changes only rating, content and `updatedAt`, takes a truthy rating or content and keeps the old one otherwise, and never leaves 1..5 |
| CommentController.UpsertKeepsWellFormed | server/controllers/commentController.js:144 | saving a comment with consistent likes and a rating in 1..5 keeps every stored comment so |
| CommentController.StatsTotalIsCount | server/controllers/commentController.js:347-372 | when every stored rating lies in 1..5, the statistics total is the movie's comment count |
| CommentController.UpdateComment | server/controllers/commentController.js:119-159 | answers as the as-written update does: 404, 403 for another user's comment, else 200 with the truthy rating (any value) and content stored and the comment saved by id; a refusal changes nothing |
| CommentController.UpdateAsWrittenFacts | server/controllers/commentController.js:119-159 | the update succeeds exactly for the owner of an existing comment, changes only rating, content and `updatedAt`, takes a truthy rating whatever its value and a truthy content, keeps the old ones otherwise, and keeps the likes consistent |
| CommentController.DeleteComment | server/controllers/commentController.js:162-196 | 404 or 403 leaves the store unchanged; otherwise the store keeps exactly the comments with another id |
| CommentController.DeleteCommentRights | server/controllers/commentController.js:167-180 | deletion goes ahead exactly when the comment exists and the caller wrote it; an unknown comment gets 404 |
| CommentController.LikeComment | server/controllers/commentController.js:199-225 | 404 with the store unchanged for an unknown comment; otherwise the comment is liked by the caller |
| CommentController.UnlikeComment | server/controllers/commentController.js:228-254 | 404 with the store unchanged for an unknown comment; otherwise the caller's like is withdrawn |
| CommentController.LikesKeepWellFormed | server/controllers/commentController.js:199-254 | liking and unliking keep every stored comment's likes consistent and its rating in 1..5 |
| CommentController.AddReply | server/controllers/commentController.js:257-299 | 400 for empty content before 404 for an unknown comment; otherwise the reply is appended to that comment |
| CommentController.DeleteReplyRights | server/controllers/commentController.js:307-328 | a reply is deleted exactly when comment and reply exist and the caller wrote the reply or the comment; an unknown reply gets 404 |
| CommentController.DeleteReply | server/controllers/commentController.js:302-344 | a refusal leaves the store unchanged; otherwise the comment keeps exactly its replies with another id |
| CommentController.GetRatingStats | server/controllers/commentController.js:347-372 | the distribution is that of the movie's ratings and the total is the sum of its entries |
| Playlists.Playlist.constructor | server/models/Playlist.js:7-17 | a new playlist has no movies, description '' and icon '📁' unless given, is private unless `isPublic` is true, and has both timestamps set to now |
| Playlists.Playlist.HasMovie | server/models/Playlist.js:53-56 | the movie is listed exactly when `removeMovie`'s `indexOf` search finds it, that is exactly when removing it shortens the list by one; otherwise removing leaves the list as it is |
| Playlists.Playlist.MovieCount | server/models/Playlist.js:59-61 | the number of movie ids in the playlist |
| Playlists.Playlist.Assign | server/models/Playlist.js:23 | `Object.assign` gives the stored playlist every field of the saved one |
| Playlists.Playlist.AddMovie | server/models/Playlist.js:31-39 | true exactly for an absent movie, which is appended with `updatedAt` set and the playlist saved; otherwise false and nothing changes; no other stored playlist changes and ids stay unique |
| Playlists.Playlist.SaveMovies | server/models/Playlist.js:33-47 | the movie list and `updatedAt` take the new values with every other field kept, the playlist is stored, every other stored playlist keeps its state and ids stay unique |
| Playlists.Playlist.RemoveMovie | server/models/Playlist.js:42-51 | true exactly for a present movie, whose first occurrence is spliced out with `updatedAt` set and the playlist saved; otherwise false and nothing changes; no other stored playlist changes |
| Playlists.IndexById | server/models/Playlist.js:21 | the position of the first playlist with the id, -1 exactly when none has it |
| Playlists.NamesOf | server/models/Playlist.js:89-91 | a name is listed exactly when one of the user's playlists has it |
| Playlists.PlaylistStore.Save | server/models/Playlist.js:20-28 | a playlist new to the store is appended; otherwise the stored playlist with its id takes over its fields; the saved playlist itself is unchanged and ids stay unique |
| Playlists.PlaylistStore.FindById | server/models/Playlist.js:69-71 | a result is a stored playlist with that id; none exactly when no stored playlist has it |
| Playlists.PlaylistStore.FindOwned | server/models/Playlist.js:74-76 | a result is stored and matches both the id and the owner; none exactly when no stored playlist matches both |
| Playlists.PlaylistStore.FindByUserId | server/models/Playlist.js:64-66 | exactly the user's stored playlists |
| Playlists.PlaylistStore.NameTaken | server/models/Playlist.js:89-91 | true exactly when one of the user's playlists has exactly that name |
| Playlists.PlaylistStore.CountByUserId | server/models/Playlist.js:94-96 | the number of the user's playlists |
| Playlists.PlaylistStore.Delete | server/models/Playlist.js:79-81 | the store keeps exactly the playlists with another id, and ids stay unique |
| Playlists.OwnedIn | server/models/Playlist.js:74-76 | the first playlist matching id and owner; none exactly when none matches |
| Playlists.OwnedBy | server/models/Playlist.js:64-66 | exactly the user's playlists: every one it returns is stored and the user's, and every stored playlist of the user is returned |
| Playlists.OwnedByCounts | server/models/Playlist.js:64-66 | each of the user's playlists appears as often as in the store, and no other playlist appears |
| Playlists.OwnedByAppend | server/models/Playlist.js:64-66 | the selection keeps store order: the playlists of a concatenation are those of the first part followed by those of the second |
| Playlists.StoredIndex | server/models/Playlist.js:20-28 | with unique ids, looking up a stored playlist's id finds that very object |
| Playlists.WithoutIdFacts | server/models/Playlist.js:79-81 | dropping an id keeps exactly the playlists with other ids, and keeps ids distinct |
| Playlists.AddKeepsDistinct | server/models/Playlist.js:31-39 | after adding, the playlist has the movie, and a duplicate-free movie list stays duplicate-free |
| Playlists.RemoveKeepsDistinct | server/models/Playlist.js:42-51 | removing keeps every other movie and adds none; on a duplicate-free list the movie is gone afterwards |
| Playlists.RemoveUndoesAdd | server/models/Playlist.js:31-51 | removing a movie right after adding it restores the movie list |
| Playlists.PlaylistStore.constructor | server/models/Playlist.js:4 | the playlist list starts empty |
| PlaylistController.CreateCheckAsWrittenAdmitsDuplicate | server/controllers/playlistController.js:36 | as written, the duplicate test sees " a" while "a" is stored, so a user who has "a" gets a second playlist named "a" |
| PlaylistController.CreateCheckFacts | server/controllers/playlistController.js:11-41 | with the test on the trimmed name, an accepted name is stored non-blank, trimmed, within 50 characters and new among the user's names; a blank name gets the first 400 and an unknown user 404 |
| PlaylistController.CreateCheckAsWrittenFacts | server/controllers/playlistController.js:11-41 | the checks pass exactly for a name that is non-blank once trimmed, within 50 characters as sent, from a known user, and not among the user's names as sent; the stored trimmed name is non-blank and within 50 characters; a missing name gets the first 400 and an unknown user 404 |
| PlaylistController.CreatePlaylist | server/controllers/playlistController.js:5-66 | answers as the as-written checks do, with the duplicate test on the untrimmed name; a refusal changes no stored playlist; otherwise a fresh playlist with the trimmed name and the defaults is saved and answered with 201 |
| PlaylistController.UserPlaylists | server/controllers/playlistController.js:69-98 | 404 exactly for an unknown user; otherwise exactly `findByUserId` of the caller (each of the caller's playlists as often as stored, in store order, and no other), with its length as the count |
| PlaylistController.OwnershipGuard | server/controllers/playlistController.js:113-120 | another user's playlist gets the same 404 as a missing one; a handler goes ahead only on a stored playlist with that id owned by the caller |
| PlaylistController.PlaylistDetail | server/controllers/playlistController.js:101-134 | the detail is given exactly when the ownership check passes, and it is the caller's playlist with that id |
| PlaylistController.MergeFacts | server/controllers/playlistController.js:160-182 | the update never changes id, owner, movies or creation time; it keeps the name for a missing or blank one, the description and `isPublic` when absent, the icon when falsy; merging the same request twice equals merging it once |
| PlaylistController.MergeInto | server/controllers/playlistController.js:160-182 | the field assignments leave the playlist equal to the merge of its old fields with the request |
| PlaylistController.UpdatePlaylist | server/controllers/playlistController.js:137-197 | a refusal or a non-blank name over 50 characters changes nothing; otherwise only the caller's playlist changes, to the merge |
| PlaylistController.DeletePlaylist | server/controllers/playlistController.js:200-234 | a refusal changes nothing; otherwise the store keeps exactly the playlists with another id |
| PlaylistController.AddMovieToPlaylist | server/controllers/playlistController.js:237-280 | 400 for a movie already in the playlist, with nothing changed; otherwise the movie is appended to the caller's playlist and no other playlist changes |
| PlaylistController.RemoveMovieFromPlaylist | server/controllers/playlistController.js:283-318 | success once ownership passes; the first occurrence of a present movie is removed, an absent one changes nothing, and no other playlist changes |
| PlaylistController.CheckMovieInPlaylist | server/controllers/playlistController.js:321-355 | answered exactly when the checks pass, with whether the caller's playlist holds the movie |
| PlaylistController.ClearPlaylist | server/controllers/playlistController.js:358-396 | a refusal changes nothing; otherwise the caller's playlist is emptied and the message reports how many movies it held |
| Follows.AddEdgeFacts | server/models/Follow.js:13-19 | saving keeps pairs unique, links the new pair and changes no other link; a pair already linked leaves the array as it is, a new one is appended; saving the same pair again changes nothing |
| Follows.UnfollowFacts | server/models/Follow.js:45-47 | after unfollowing, no edge links the pair, every other edge is kept, no other link changes, and pairs stay unique |
| Follows.DeleteByUserFacts | server/models/Follow.js:49-51 | exactly the edges touching the user are dropped, so nobody follows or is followed by the user afterwards |
| Follows.ListsDistinct | server/models/Follow.js:25-35 | with unique pairs nobody appears twice among a user's followers or followings |
| Follows.FollowStore.Save | server/models/Follow.js:13-19 | the edge is appended only when its pair is absent; pairs stay unique and the follower then follows the target |
| Follows.FollowStore.IsFollowing | server/models/Follow.js:21-23 | true exactly when an edge goes from the follower to the target |
| Follows.FollowStore.Followers | server/models/Follow.js:25-29 | a user is listed exactly when it follows the given user; with unique pairs nobody is listed twice |
| Follows.FollowStore.Following | server/models/Follow.js:31-35 | a user is listed exactly when the given user follows it; with unique pairs nobody is listed twice |
| Follows.FollowStore.FollowerCount | server/models/Follow.js:37-39 | the length of the follower list |
| Follows.FollowStore.FollowingCount | server/models/Follow.js:41-43 | the length of the following list |
| Follows.FollowStore.Unfollow | server/models/Follow.js:45-47 | only edges of that pair are dropped; the follower no longer follows the target |
| Follows.FollowStore.DeleteByUserId | server/models/Follow.js:49-51 | only edges touching the user are dropped; nobody follows the user or is followed by it |
| FollowController.FollowCheckFacts | server/controllers/followController.js:10-45 | a follow goes ahead exactly for a given target that is not the caller, is a stored user and is not yet followed; following oneself gets 400 before the 404 for an unknown user |
| FollowController.FollowUser | server/controllers/followController.js:5-61 | a refusal changes nothing; a success appends exactly the caller→target edge |
| FollowController.UnfollowUser | server/controllers/followController.js:64-97 | 400 without a target or when not following, with nothing changed; otherwise the edge is removed and no other |
| FollowController.CheckFollowing | server/controllers/followController.js:100-120 | exactly whether the caller follows the target |
| FollowController.Summarize | server/controllers/followController.js:135-140 | an entry carries the user's id, the email only where the handler shows one, and the user's avatar or the list placeholder, so never an empty avatar |
| FollowController.Summaries | server/controllers/followController.js:133-141 | defined exactly when every listed id has a stored user; then one entry per id, in order, each the entry of that id's user |
| FollowController.FollowListFacts | server/controllers/followController.js:123-300 | each list handler answers 200 exactly when every user on the page exists; the list is then the page of the followings or followers in edge order, and `total` is their count |
| FollowController.FollowStats | server/controllers/followController.js:201-224 | the two counts are the lengths of the follower and following lists |
| Follows.FollowStore.constructor | server/models/Follow.js:3 | the follow list starts empty |
| Favorites.DeletePairFacts | server/models/Favorite.js:47-49 | dropping a (user, movie) pair leaves no record of that pair, keeps every other record, and repeating it changes nothing |
| Favorites.DeleteIdFacts | server/models/Favorite.js:42-44 | dropping an id keeps exactly the records with another id |
| Favorites.FavoriteStore.constructor | server/models/Favorite.js:4 | the store starts empty |
| Favorites.FavoriteStore.Save | server/models/Favorite.js:21-29 | upsert by record id only; ids stay unique and the (user, movie) pair is favorited afterwards |
| Favorites.FavoriteStore.FindByUserId | server/models/Favorite.js:32-34 | a record is listed exactly when it is stored and belongs to the user |
| Favorites.FavoriteStore.IsFavorited | server/models/Favorite.js:37-39 | true exactly when some stored record has that user and that movie |
| Favorites.FavoriteStore.CountByUserId | server/models/Favorite.js:52-54 | the number of the user's favorites, the length of their list |
| Favorites.FavoriteStore.Delete | server/models/Favorite.js:42-44 | removes the record with that id and keeps the others in order; ids stay unique |
| Favorites.FavoriteStore.DeleteByUserAndMovie | server/models/Favorite.js:47-49 | removes every record of the pair and keeps the others in order; the pair is no longer favorited |
| FavoriteController.NewFavorite | server/controllers/favoriteController.js:36-45 | the new record keeps id, user, movie, title and time; a falsy rating becomes 0, category '未分类', year the current year, type 'movie' |
| FavoriteController.AddFavoriteKeepsPairsUnique | server/controllers/favoriteController.js:28-33 | since an existing pair is refused, adding a favorite keeps (user, movie) pairs unique |
| FavoriteController.AddFavorite | server/controllers/favoriteController.js:5-61 | 400 without movie id or title, 404 for an unknown user, 400 for a movie already favorited (store unchanged in each case); otherwise 201 and the new record is saved, keeping pairs unique |
| FavoriteController.RemoveFavorite | server/controllers/favoriteController.js:64-91 | 400 without a movie id; otherwise 200 whether or not it was favorited, and the pair is no longer favorited |
| FavoriteController.UserFavorites | server/controllers/favoriteController.js:94-123 | 200 exactly when the user exists, with the user's favorites and their count |
| FavoriteController.CheckFavorite | server/controllers/favoriteController.js:126-151 | no answer without a movie id; otherwise true exactly when the pair is favorited |
| FavoriteController.FavoriteCount | server/controllers/favoriteController.js:154-171 | the count is the length of the user's favorite list |
| FavoriteController.RemoveBatchFavorites | server/controllers/favoriteController.js:174-202 | 400 for a missing or empty list; otherwise the caller's favorites of every listed movie are gone, all others kept in order, and the message counts the ids sent |
| FavoriteController.BatchStep | server/controllers/favoriteController.js:187-189 | deleting one more listed movie is the same as filtering by the longer list |
| FavoriteController.ClearAllFavorites | server/controllers/favoriteController.js:205-227 | reports the caller's earlier count; afterwards exactly the other users' favorites remain, in order, and the caller has none |
| FavoriteController.ClearStep | server/controllers/favoriteController.js:212-214 | deleting one more id is the same as filtering by the longer id list |
| FavoriteController.ClearedExactlyMine | server/controllers/favoriteController.js:209-214 | with unique ids, deleting the ids of the user's favorites deletes exactly that user's favorites |
| Downloads.NewDownload | server/models/Download.js:6-17 | the record keeps id, user, movie and title, is dated now and 'completed'; a falsy type becomes 'movie', size 0, quality '720p' |
| Downloads.DownloadStore.TotalSize | server/models/Download.js:51-55 | the sum of the user's file sizes, the same over the newest-first list `findByUserId` gives as over store order; zero for a user without downloads, never negative when no size is |
| Downloads.SizeSumAppend | server/models/Download.js:51-55 | the running size total grows by the size of an appended record |
| Downloads.DeleteFacts | server/models/Download.js:39-49 | a filter keeps exactly the records that satisfy it and keeps (user, movie, quality) unique |
| Downloads.FindById | server/controllers/downloadController.js:102 | the corrected lookup of the finding below: a found record is stored and has the id; none is found exactly when no record has it |
| Downloads.DownloadStore.constructor | server/models/Download.js:3 | the store starts empty |
| Downloads.DownloadStore.Save | server/models/Download.js:19-27 | replaces the record with the same (user, movie, quality) or appends; the triple stays unique, the record is stored, and nothing else is added |
| Downloads.DownloadStore.FindByUserId | server/models/Download.js:29-33 | a permutation of the user's records, newest first |
| Downloads.DownloadStore.FindByUserIdAndMovieId | server/models/Download.js:35-37 | a record is listed exactly when it is stored with that user and movie |
| Downloads.DownloadStore.Delete | server/models/Download.js:39-41 | keeps the records with another id, in order; triples stay unique |
| Downloads.DownloadStore.DeleteByUserId | server/models/Download.js:43-45 | keeps the other users' records; afterwards the user has no downloads and a total size of 0 |
| Downloads.DownloadStore.DeleteByUserIdAndMovieId | server/models/Download.js:47-49 | keeps every record except the pair's; afterwards the pair has no downloads |
| Downloads.SaveNewAddsSize | server/models/Download.js:19-55 | saving a new triple adds its size to its owner's total and leaves every other user's total as it was |
| Downloads.QualityCountsBound | server/controllers/downloadController.js:177-181 | the counts of three distinct qualities add up to at most the number of records |
| DownloadController.AddDownload | server/controllers/downloadController.js:4-41 | 400 without movie id or title and the store is unchanged; otherwise 200 and the new record is upserted by (user, movie, quality) |
| DownloadController.GetDownloads | server/controllers/downloadController.js:44-70 | the page of the caller's downloads, newest first, at the given offset and limit (20 by default), and the caller's total count |
| DownloadController.GetMovieDownloads | server/controllers/downloadController.js:73-93 | exactly the caller's downloads of that movie, at most one per quality |
| DownloadController.DeleteAsWrittenRefusesOwner | server/controllers/downloadController.js:102-108 | as written the lookup always fails, so even the owner of a stored download gets 403; with a real lookup the owner passes |
| DownloadController.DeleteCheckRights | server/controllers/downloadController.js:102-108 | with the lookup in place, deletion goes ahead exactly when the download exists and belongs to the caller; a download of someone else is refused with 403 |
| DownloadController.DeleteDownload | server/controllers/downloadController.js:96-124 | as written, every request is answered 403 and, the method modifying nothing, the store keeps every download |
| DownloadController.DeleteDownloadChecked | server/controllers/downloadController.js:102-116 | the corrected handler of the finding below: 403 and no change unless the download is the caller's; otherwise 200 and exactly that id is removed |
| DownloadController.DeleteMovieDownloads | server/controllers/downloadController.js:127-146 | 200; the store becomes the filter that drops exactly the caller's records of that movie, so every other record stays, in order |
| DownloadController.ClearAllDownloads | server/controllers/downloadController.js:149-167 | 200; the store becomes the filter that drops exactly the caller's records, so every other record stays, in order |
| DownloadController.DownloadStats | server/controllers/downloadController.js:170-200 | the caller's count and total size, and for each of 480p, 720p and 1080p the number of the caller's downloads with that quality; the three add up to at most the count |
| Recommendation.RecommendationStore.constructor | server/models/Recommendation.js:3 | the store starts empty |
| Recommendation.RecommendationStore.Save | server/models/Recommendation.js:19-27 | replaces the record with the same (user, movie) or appends; the record is stored and (user, movie) stays unique |
| Recommendation.RecommendationStore.FindByUserId | server/models/Recommendation.js:29-34 | the first `limit` of the user's records in the stable descending-score sort: at most `limit`, fewer only when the user has fewer, sorted, and a record of the user left out scores no higher than any returned one |
| Recommendation.RecommendationStore.Delete | server/models/Recommendation.js:36-38 | keeps exactly the records with another id, in order |
| Recommendation.RecommendationStore.DeleteByUserId | server/models/Recommendation.js:40-42 | keeps exactly the other users' records, in order |
| Recommendation.RecommendationStore.DeleteByUserIdAndMovieId | server/models/Recommendation.js:44-46 | keeps every record except the pair's, in order |
| Recommendation.RecommendationStore.GenerateRecommendations | server/models/Recommendation.js:49-106 | returns the first twenty ranked candidates and saves each of them, in rank order, for the user |
| Recommendation.RecommendationStore.SaveCandidates | server/models/Recommendation.js:97-103 | the store becomes the save loop's result: one upsert per candidate, in rank order, each with its own id and the same time |
| Recommendation.CountWatched | server/models/Recommendation.js:50-60 | the watched set is the history's ids and each category's counter is the number of history entries the catalog resolves to it |
| Recommendation.ScoreMovie | server/models/Recommendation.js:66-79 | ten points per watched entry of the category plus five for a rating of at least 8; the score is positive exactly when the category was watched or the rating is high |
| Recommendation.ScoreCatalog | server/models/Recommendation.js:63-93 | the list is every unwatched catalog item with a positive score, in catalog order, turned into a candidate |
| Recommendation.ScoreAgrees | server/models/Recommendation.js:64-91 | with the two tables built from the history, an item is kept exactly when unwatched with a positive score of ten per watched entry of its category plus its bonus, and becomes the candidate carrying that score and reason |
| RecommendationFacts.CategoryCountCountsResolved | server/models/Recommendation.js:54-60 | a category's count is the number of history entries that resolve to a catalog item of that category |
| RecommendationFacts.UnknownHistoryIgnored | server/models/Recommendation.js:56-59 | history ids missing from the catalog change no category count |
| RecommendationFacts.TopOrigin | server/models/Recommendation.js:64-105 | each returned candidate is built from an unwatched catalog item that scored above zero |
| RecommendationFacts.TopScores | server/models/Recommendation.js:65-91 | each returned candidate is unwatched, has a positive score made of ten per watched entry of its category plus the rating bonus, and has a reason |
| RecommendationFacts.EmptyHistoryRatingOnly | server/models/Recommendation.js:70-79 | with no history every candidate scores exactly 5, has the reason '评分很高' and comes from an item rated 8 or more |
| RecommendationFacts.TopOrdered | server/models/Recommendation.js:96-105 | at most twenty candidates (all of them when fewer), by non-increasing score, and the sort keeps each score's candidates in catalog order |
| RecommendationFacts.TopIsBest | server/models/Recommendation.js:96-105 | every unwatched positively scored item is ranked, and one left out of the result is outscored or matched by all twenty returned |
| RecommendationFacts.UpsertKeeps | server/models/Recommendation.js:19-27 | saving a record keeps every record with another (user, movie) |
| RecommendationFacts.SaveAllUnique | server/models/Recommendation.js:97-103 | the save loop never stores two records of one (user, movie) |
| RecommendationFacts.SaveAllStores | server/models/Recommendation.js:97-103 | after the save loop the user has a record for every saved candidate |
| RecommendationFacts.SaveAllFrame | server/models/Recommendation.js:97-103 | the save loop keeps every other user's records and adds nothing but the new records |
| RecommendationController.GetRecommendations | server/controllers/recommendationController.js:7-41 | the stored list (up to 100, best first) when the user has one, store unchanged; otherwise the freshly generated list, saved; a page of it at the given offset and limit, with its total |
| RecommendationController.Regenerate | server/controllers/recommendationController.js:44-71 | drops the caller's records, then generates and saves the fresh top list |
| RecommendationController.RegenerateExact | server/controllers/recommendationController.js:44-71 | afterwards the caller has a record for each returned candidate and no other, and every other user's records are kept |
| RecommendationController.DerivedByRating | server/controllers/recommendationController.js:91-103 | a list built from items sorted by rating is sorted by score, and every element comes from one of the items |
| RecommendationController.RankedByRating | server/controllers/recommendationController.js:125-135 | the best-rated selection has `limit` elements (or all when fewer), sorted by score, each from the pool, and every pool item was chosen or outranked |
| RecommendationController.ByCategoryFacts | server/controllers/recommendationController.js:74-117 | only unwatched, unfavorited items of the category, best rated first, and each such item was chosen or outranked |
| RecommendationController.PopularFacts | server/controllers/recommendationController.js:120-151 | the `limit` best-rated catalog items, best first, reason '热门推荐'; every item was chosen or outranked |
| RecommendationController.NewestFacts | server/controllers/recommendationController.js:154-185 | the `limit` items of the latest years, latest first, scored by their rating with reason '新上映推荐'; an item left out is no newer than any chosen one |
| RecommendationController.SimilarFacts | server/controllers/recommendationController.js:188-231 | 404 exactly for an unknown id; otherwise other items of that movie's category, best rated first, each chosen or outranked |
| RecommendationController.DeleteRecommendation | server/controllers/recommendationController.js:234-253 | removes exactly the record with that id, whoever owns it |
| WatchHistory.NewRecord | server/models/WatchHistory.js:6-16 | the record keeps id, user, movie, title and poster, is dated now; a falsy type becomes 'movie', duration and progress 0 |
| WatchHistory.DeleteFacts | server/models/WatchHistory.js:38-48 | a filter keeps exactly the records that satisfy it, keeps (user, movie) unique, and filtering again changes nothing |
| WatchHistory.WatchHistoryStore.constructor | server/models/WatchHistory.js:3 | the history starts empty |
| WatchHistory.WatchHistoryStore.Save | server/models/WatchHistory.js:18-26 | replaces the record with the same (user, movie) or appends; the pair stays unique and looking it up afterwards finds exactly this record |
| WatchHistory.WatchHistoryStore.FindByUserId | server/models/WatchHistory.js:28-32 | a permutation of the user's records, most recently watched first |
| WatchHistory.WatchHistoryStore.FindByUserIdAndMovieId | server/models/WatchHistory.js:34-36 | a found record is stored with that user and movie, nothing is found exactly when no record has the pair, and with unique pairs the found record is the only one |
| WatchHistory.WatchHistoryStore.Delete | server/models/WatchHistory.js:38-40 | keeps the records with another id, in order |
| WatchHistory.WatchHistoryStore.DeleteByUserId | server/models/WatchHistory.js:42-44 | keeps exactly the other users' records, in order |
| WatchHistory.WatchHistoryStore.DeleteByUserIdAndMovieId | server/models/WatchHistory.js:46-48 | keeps every record except the pair's; the pair is not found afterwards |
| WatchHistoryController.RecordWatch | server/controllers/watchHistoryController.js:4-41 | 400 without movie id or title and the history is unchanged; otherwise 200 and the new record is upserted by (user, movie) |
| WatchHistoryController.Progressed | server/controllers/watchHistoryController.js:56-71 | the record keeps the pair and is dated now; a new one has an empty title and poster; an existing one keeps id, title, poster and type; a truthy progress or duration is taken and a falsy one (0 included) keeps the old value |
| WatchHistoryController.UpdateWatchProgress | server/controllers/watchHistoryController.js:44-88 | 400 without a movie id and no change; otherwise 200, the updated or new record is saved and is what the pair's lookup finds |
| WatchHistoryController.UpdateReplacesRecord | server/controllers/watchHistoryController.js:67-73 | updating a pair already watched replaces that record where it stands, keeping the others and the length |
| WatchHistoryController.GetWatchHistory | server/controllers/watchHistoryController.js:91-117 | the page of the caller's history, most recent first, at the given offset and limit (20 by default), and the caller's record count |
| WatchHistoryController.GetWatchRecord | server/controllers/watchHistoryController.js:120-148 | '未找到观看记录' exactly when the caller has no record of the movie, otherwise that record with '获取观看记录成功' |
| WatchHistoryController.DeleteWatchRecord | server/controllers/watchHistoryController.js:151-170 | 200; the caller's record of the movie is gone and everything else stays |
| WatchHistoryController.ClearWatchHistory | server/controllers/watchHistoryController.js:173-191 | 200; exactly the caller's records are gone, so their history is empty |
| WatchHistoryController.GetRecentlyWatched | server/controllers/watchHistoryController.js:194-215 | exactly `slice(0, limit)` of the caller's most-recent-first history, `limit` being the sent number when truthy and 10 otherwise: for a non-negative limit the newest `limit` records, or all when fewer, with no record left out more recent than one returned; for a negative limit all but that many of the oldest |
| ShareController.Base | server/controllers/shareController.js:26 | the configured front-end URL when one is set, otherwise 'http://localhost:5173' |
| ShareController.PageUrlDecodes | server/controllers/shareController.js:26 | a share link is the base, '/', the page kind, '/' and the id; the id can be read back, so two ids never share a link |
| ShareController.PageKindsDiffer | server/controllers/shareController.js:221-228 | movie, playlist and user links never coincide |
| ShareController.ShareStore.constructor | server/controllers/shareController.js:3 | the share list starts empty |
| ShareController.ShareMovie | server/controllers/shareController.js:6-55 | 400 and no change without movie id, title or platform; otherwise exactly one share with the '/movie/' link is appended and the content recommends the title with its poster |
| ShareController.SharePlaylist | server/controllers/shareController.js:58-104 | 400 and no change without playlist id, name or platform; otherwise exactly one share with the '/playlist/' link is appended and the content names the playlist |
| ShareController.ShareProfile | server/controllers/shareController.js:107-152 | 400 and no change without target user or platform; otherwise exactly one share with the '/user/' link is appended and the content is the fixed profile text |
| ShareController.GetShares | server/controllers/shareController.js:155-184 | the page `slice(offset, offset + limit)` of the caller's shares sorted newest first, with the full count as total; so only the caller's shares, newest first, at most `limit` of them and non-empty when the offset is below the total |
| ShareController.Platforms | server/controllers/shareController.js:194-196 | each platform the shares use, once |
| ShareController.SumOverBump | server/controllers/shareController.js:195 | raising one counted platform by one raises the sum of the counts by one |
| ShareController.SumOverOther | server/controllers/shareController.js:195 | changing the count of a platform not summed leaves the sum alone |
| ShareController.SumOverSnoc | server/controllers/shareController.js:194-196 | summing one more platform adds its count |
| ShareController.TallyKeys | server/controllers/shareController.js:192-196 | the tally has a key for exactly the platforms shared to |
| ShareController.TallyCounts | server/controllers/shareController.js:192-196 | each platform's count is the number of shares to that platform |
| ShareController.TallySum | server/controllers/shareController.js:191-203 | the platform counts add up to the number of shares |
| ShareController.GetShareStats | server/controllers/shareController.js:187-214 | `totalShares` is the caller's share count; `platformStats` has a key for each platform used, counting its shares, and the counts add up to `totalShares`; keys inherited by JavaScript objects are left out |
| ShareController.QrShareUrl | server/controllers/shareController.js:217-228 | the movie, playlist or user link for those types, and the empty string exactly for any other type |

## Left out

- QQ sign-in (`initQQLogin`, `qqCallback`, server/controllers/authController.js:213-296): it fabricates ids with `Math.random`, keeps a global state table and redirects over HTTP.
- Token signing and checking (`jsonwebtoken`, server/middleware/auth.js). The handlers take the caller's id as a parameter. The source is inconsistent here: the token carries `userId`, while several handlers read `req.user.id`. That wiring is not modelled.
- `User.hashPassword` and `User.validatePassword` call bcrypt. The model takes the hash as a parameter and `bcrypt.compare` as a `matches` function.
- `Comment.getAverageRating` and the `averageRating` it feeds in `getRatingStats`: a floating-point mean formatted with `toFixed(1)`.
- `User.findAll`, `Playlist.findAll` and `Favorite.findAll` only return the whole store.
- The `setInterval` that runs the verification-code cleanup every five minutes (server/models/VerificationCode.js:77-78). The cleanup itself is modelled.
- `generateShareQR`'s `qrCode` link to an external service with `encodeURIComponent`, and `getSharePreview`'s constant preview texts (server/controllers/shareController.js:236, 250-288).
- Response shaping beyond status, message and data: the `success` flag, the JSON layout, and `console` logging.
- The 500 answers of the `try`/`catch` blocks. They are modelled only where the model can name what throws: a stored user without a password in email login and in changing passwords, and a listed user that no longer exists in the follow lists.
- String lengths are counted in code points. JavaScript's `.length` counts UTF-16 units, so the 50-character playlist-name limit differs for characters outside the Basic Multilingual Plane.
- `parseInt` of query strings: a limit or offset arrives as an already-parsed `Option<int>`, and a non-number is `None`.
- AddCommentCheck: ratings are whole numbers, as the client's star picker sends them. Two cases are not modelled. A fractional rating such as 2.5 passes `rating < 1 || rating > 5` in server/controllers/commentController.js:18, is stored, and `distribution[c.rating]++` (server/models/Comment.js:62) then adds a NaN entry to the statistics. An explicit JSON `null` rating is refused with 400 by JavaScript, because `null < 1` holds. `None` stands only for an absent rating, which passes and becomes 5.
- AddCommentKeepsRange and CommentController.StatsTotalIsCount hold under that whole-number reading. With fractional ratings, `addComment` alone could already make the statistics total NaN.
- PlaylistController.Merge: a `description` or `isPublic` sent as an explicit JSON `null` passes `!== undefined` in server/controllers/playlistController.js:170 and :178, so the source stores `null`; the model reads `None` as an absent field and keeps the old value. The playlist editor always sends a string and a boolean.
- GetShareStats and ShareController.Platforms: `platformStats` (server/controllers/shareController.js:192-196) is a plain JavaScript object, modelled as a map that holds only the keys the loop writes. Object keys are not modelled in two ways. First, keys inherited from `Object.prototype`: for a platform named `constructor` the source stores the string `function Object() { [native code] }1`, and for `__proto__` the assignment stores no key, so for such platforms the per-key count and the sum equal to `totalShares` do not hold. Second, JavaScript's key order, which lists integer-like keys first in ascending order; `Platforms` gives the order of first appearance.
- VerificationCode.CodeStore.Verify: `verificationCodes` (server/models/VerificationCode.js:2) is a plain JavaScript object, modelled as a map without the keys inherited from `Object.prototype`. A login phone such as `constructor` is not pattern-checked in server/controllers/authController.js:43-51. The source finds the inherited function for it, which passes the expiry and attempts tests, because comparisons with `undefined` are false, and answers that the code is wrong with NaN tries left. The model answers that no code exists. For `__proto__` the source's `attempts++` also writes NaN onto `Object.prototype`.
- FollowController.Summaries: leaves out the `name` field of the follow lists, which reads a property users do not have and is always undefined.
- Updates that the source makes to a stored object in place are modelled as replacing the record in the store. This covers `updateWatchProgress`, `updateComment`, `updatePlaylist` and `Object.assign` in `save`. Other references to the old object are not modelled.
- Express routing, CORS and server start-up (server/server.js, server/routes/) are not part of this model, nor is the React front end.

## Findings

| source | as written | input that shows it | evidently intended | confidence | as-written member | corrected member |
|---|---|---|---|---|---|---|
| server/controllers/commentController.js:140 | `updateComment` stores any truthy rating without the 1..5 check that `addComment` makes | the owner updates a rating-5 comment with rating 7; `getRatingDistribution` then adds 1 to an undefined entry, so the movie's `totalComments` is NaN | reject a rating outside 1..5 with 400, as `addComment` does | not executed | CommentController.UpdateAsWrittenPoisonsStats | CommentController.UpdateCheckedFacts |
| server/controllers/playlistController.js:36 | the duplicate-name test runs on the untrimmed name, while the trimmed name is stored | a user with a playlist "a" creates " a": the test sees " a", passes, and a second playlist named "a" is stored | test the trimmed name, the one that is stored | not executed | PlaylistController.CreateCheckAsWrittenAdmitsDuplicate | PlaylistController.CreateCheckFacts |
| server/controllers/downloadController.js:102 | `Download.findById?.(downloadId)` calls a finder that `Download` does not define, so the lookup is always undefined and every request gets 403 | the owner of a stored download asks to delete it and is refused with 403 | look the id up in the store and let the owner delete it | not executed | DownloadController.DeleteAsWrittenRefusesOwner | DownloadController.DeleteCheckRights |
