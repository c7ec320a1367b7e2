# Stray-animal adoption site: a Dafny model of its stateful core

The site does three things:
- lists stray animals for adoption;
- lets signed-in visitors bookmark, adopt and sponsor animals;
- runs a small social feed with posts, likes and comments.

This project models the parts of it that keep or compute state, and proves what they promise:

- **The feed backends** (`ApiFeed`, `CatApiFeed`, sharing `FeedModel`). Each is a record of the module-level lists, counters and like map, with one pure function per HTTP handler. The handlers follow `api/main.py` and its simpler variant `cat-api/main.py`. A server class holds the same state as fields and runs each handler as a method. Each method is proved equal to the handler function. Lemmas prove the store invariant, which every handler keeps, and every mutating server method requires and ensures it (`Valid()`). In both backends:
  - ids strictly increase and stay below the counters.

  In `api` only (`ApiFeed.Inv`):
  - every comment belongs to an existing post;
  - each post's own comments equal the global list filtered by its id;
  - `likes` is the number of distinct clients that liked the post.

  In `cat-api` (`CatApiFeed.Inv`), only a weaker link holds: every comment a post carries belongs to that post and is also in the global list (`PostCommentsListed`). The global list may hold comments that no post carries.

  Further lemmas prove what each handler answers, including its error replies.
- **The browser's local storage** (`LocalStore`). It is a map from a key to a stored cell: either a parsed list of records, or text that does not parse as a list. The JavaScript idioms `JSON.parse(getItem(k)) || []` and `JSON.parse(getItem(k) || "[]")` are written out, including the cases where they throw.
  - Adoption bookmarks and confirmed adoptions (`Adoption`) and the donation ledger (`Donations`) are operations on that map.
  - The per-user post and comment records of the feed pages (`Posting`, `PostDetail`, `PostCard`, `PostForm`, `UserStorage`) are operations on it too.
- **The listing pages**: the report grid's filters and pagination (`Report`), and the map page's place list (`Places`).
- **The chat widget's message log** (`Chat`): a state machine whose reply, or failure, is an input.
- **The sign-up and login forms** (`Signin`, `Login`): required-field checks and the tables from error code to message. The outcome of the authentication call is an input.
- **Small helpers**:
  - the display name and avatar fallbacks (`Accounts`, `Layout`);
  - media url resolution (`MediaUrl`);
  - the JavaScript string functions used (`Strings`: `trim`, `includes`, `split(c)[0]`, Python's `replace`, number to text);
  - the list operations used (`Seqs`: `filter` and stable sorting).

Each page's handlers are written as pure functions that take the stored map and the handler's inputs. Each returns the new map together with what the page does next: a navigation, a request, or an outcome. Where a component keeps state of its own, a class holds that state. The class's methods update it and are proved equal to those functions. An `async` handler is split at its `await` into the part before the request and the part that runs when the request settles. Only one request is in flight at a time.

The model keeps these behaviours of the code as it is written:
- The post card stores comment records under the shared `myComments` key and deletes from the shared `myPosts` key. The post form and the post page use the per-user keys `myPosts:<uid>` and `myComments:<uid>`, and clear the shared keys before each request (`PostCard.SharedKeysQuirk`).
- `cat-api` stores and counts a comment even when no post has its id. A post created later with that id then inherits the comment in cascades (`CatApiFeed.OrphanCommentAdopted`).
- On the report page, "next" with zero matches sets the page to 0 (`Report.PageButtonsSpec`).
- On the map page, a user position with latitude or longitude exactly 0 counts as unknown (`Places.DistanceKnown`).

Where the two feed backends differ, each is modelled as written:
- `cat-api` has no per-client like check;
- `cat-api` applies no existence check to comments;
- `cat-api`'s lookup of a missing post raises instead of answering 404.

## Model

| member | source | states |
|---|---|---|
| FeedModel.FindPost | api/main.py:83-87 | the index found holds the id, no earlier post holds it, and none is found exactly when no post has the id |
| FeedModel.FindPostUnique | api/main.py:83-87 | when ids are unique the search finds exactly the post carrying the id |
| FeedModel.NewestFirstSpec | api/main.py:78-80 | the listing is a permutation of the posts, non-increasing in `created_at`, and posts with equal timestamps keep their insertion order |
| FeedModel.SortNewestFirst | api/main.py:78-80 | sorting an array copy of the posts in place gives exactly the newest-first listing |
| FeedModel.CommentsOnAppend | api/main.py:156-169 | appending a comment extends the comment list of exactly the post it names |
| FeedModel.CommentsOnAfterCascade | api/main.py:178 | deleting the comments of one post leaves the comments of every other post unchanged |
| FeedModel.CascadeRemovesAll | api/main.py:178 | after the cascade no comment on the deleted post remains |
| ApiFeed.Lookup | api/main.py:82-87 | `get_post` answers a post with the id iff one exists, otherwise 404 "Post not found" |
| ApiFeed.ListPlaces | api/main.py:182-185 | `/places` always answers an empty list; the endpoint is a placeholder whose body is exactly that |
| ApiFeed.InitialInv | api/main.py:36-42 | the start-up store (empty lists, both counters 1, empty like map) satisfies the invariant |
| ApiFeed.AppendPostKeeps | api/main.py:116-127 | appending a post with the next id and no comments or likes keeps ids increasing and every reference and agreement valid |
| ApiFeed.UpdateKeepsRefs | api/main.py:142-148 | replacing a post in place by one with the same id keeps ids and references valid |
| ApiFeed.UpdateKeepsCommentsAgree | api/main.py:142-148 | an in-place update that keeps a post's comments keeps the comment agreement |
| ApiFeed.UpdateKeepsLikesAgree | api/main.py:162-168 | an in-place update that keeps a post's like count keeps the like agreement |
| ApiFeed.FreshIdUnused | api/main.py:116-127 | no comment and no like entry names the id the post counter hands out next |
| ApiFeed.CreatedPreservesInv | api/main.py:89-128 | `create_post` keeps the store invariant |
| ApiFeed.CreatedSpec | api/main.py:89-128 | the new post takes the counter's id and the counter grows by one; it carries the submitted author, title, content and creation time, 0 likes, no comments and the uploaded url, and is appended last; nothing else changes; a failed upload answers 500 and changes nothing |
| ApiFeed.CreatedThenLookup | api/main.py:82-128 | round trip: looking up the id of a created post returns exactly the post the create returned |
| ApiFeed.LikeCountsAfterFirstLike | api/main.py:142-148 | a first like by a client raises that post's count by one and keeps every post's count equal to its number of likers |
| ApiFeed.LikedPreservesInv | api/main.py:130-148 | `like_post` keeps the store invariant, including that each post's like count is the size of its liker set |
| ApiFeed.LikedRejects | api/main.py:135-140 | a missing or empty `X-Client-Id` answers 400 and an unknown post 404, and neither changes the store |
| ApiFeed.LikedCounts | api/main.py:142-148 | a successful like leaves the client among the likers and adds one like exactly when the client had not liked the post before; the reply is the old post with only its like count changed, the stored post becomes the reply, and the other posts, the comments, both counters and every other post's likers are unchanged |
| ApiFeed.LikedIdempotent | api/main.py:142-148 | a repeated like by the same client changes nothing and returns the same post |
| ApiFeed.AppendCommentKeeps | api/main.py:156-167 | appending a comment with the next id on an existing post keeps comment ids increasing and attached to posts |
| ApiFeed.AppendCommentAgree | api/main.py:156-168 | appending to the global list and to the one post named keeps each post's comments equal to the filtered global list |
| ApiFeed.CommentedPreservesInv | api/main.py:150-169 | `add_comment` keeps the store invariant |
| ApiFeed.CommentedRejects | api/main.py:153-154 | a comment for a missing post answers 404 and changes neither list nor counter |
| ApiFeed.CommentedSpec | api/main.py:156-169 | the comment takes the counter's id, goes last in the global list and last in the post's list, and the post differs from before only in that list; every other post, the post counter and the like map are unchanged |
| ApiFeed.DeletedKeepsPosts | api/main.py:177 | the surviving posts are the old posts with other ids, in order, ids still increasing |
| ApiFeed.DeletedKeepsComments | api/main.py:178 | the surviving comments keep increasing ids and are attached to surviving posts |
| ApiFeed.DeletedKeepsAgreement | api/main.py:177-179 | the surviving posts still agree with the surviving comments and the reduced like map |
| ApiFeed.DeletedPreservesInv | api/main.py:171-180 | `delete_post` keeps the store invariant |
| ApiFeed.DeletedSpec | api/main.py:171-180 | an unknown id answers `ok: false` and changes nothing; otherwise the post, all its comments and its like entry are gone; every other post, comment list and liker set is unchanged, and so are both counters |
| ApiFeed.ListingSpec | api/main.py:78-80 | `list_posts` is a permutation of the posts ordered by `created_at` descending |
| ApiFeed.FeedServer.constructor | api/main.py:36-42 | the server starts in the start-up store, which is valid |
| ApiFeed.FeedServer.FindIndex | api/main.py:84 | the loop finds what `FindPost` specifies |
| ApiFeed.FeedServer.ListPosts | api/main.py:78-80 | answers the newest-first listing, computed by the shared array sort |
| ApiFeed.FeedServer.GetPost | api/main.py:82-87 | answers `Lookup` of the current state |
| ApiFeed.FeedServer.CreatePost | api/main.py:89-128 | the new state and reply are those of `Created`, and the store invariant `Valid()` holds before and after |
| ApiFeed.FeedServer.LikePost | api/main.py:130-148 | the new state and reply are those of `Liked`, and the store invariant `Valid()` holds before and after |
| ApiFeed.FeedServer.AddComment | api/main.py:150-169 | the new state and reply are those of `Commented`, and the store invariant `Valid()` holds before and after |
| ApiFeed.FeedServer.DeletePost | api/main.py:171-180 | the new state and reply are those of `Deleted`, and the store invariant `Valid()` holds before and after |
| CatApiFeed.Lookup | cat-api/main.py:63-68 | the first post with the id, otherwise an uncaught error |
| CatApiFeed.InitialInv | cat-api/main.py:22-25 | the start-up store satisfies this backend's invariant |
| CatApiFeed.CreatedSpec | cat-api/main.py:72-100 | the new post takes the counter's id, carries the submitted author, title, content and creation time, and is appended with 0 likes and no comments; its url is `/static/` plus the file name exactly when a file was sent |
| CatApiFeed.CreatedPreservesInv | cat-api/main.py:72-100 | `create_post` keeps the invariant |
| CatApiFeed.LikedSpec | cat-api/main.py:103-109 | every like adds exactly one to the first matching post, the stored post becomes the reply, and no other post, the comments and the counters are unchanged; an unknown id raises and changes nothing |
| CatApiFeed.LikedTwice | cat-api/main.py:103-109 | two likes add two (no per-client check) |
| CatApiFeed.LikedPreservesInv | cat-api/main.py:103-109 | `like_post` keeps the invariant |
| CatApiFeed.CommentedSpec | cat-api/main.py:112-125 | a comment is always stored and advances the counter, even with no matching post; at most the first matching post gains it, and that post differs only in its comment list; the post counter is unchanged |
| CatApiFeed.CommentedPreservesInv | cat-api/main.py:112-125 | `add_comment` keeps the invariant |
| CatApiFeed.DeletedSpec | cat-api/main.py:127-152 | an unknown id answers `ok: false` and changes nothing; otherwise the post and every comment naming it are gone, other comment lists and both counters are unchanged, and the file removed is the one derived from the post's url |
| CatApiFeed.DeletedPreservesInv | cat-api/main.py:127-152 | `delete_post` keeps the invariant |
| CatApiFeed.ReplaceAllPrefix | cat-api/main.py:141 | `replace` on a url starting with the pattern removes that occurrence and continues on the rest |
| CatApiFeed.ImageFileRoundTrip | cat-api/main.py:81-86 | for a file name without `/static/` inside, the file a delete removes is the file the create stored |
| CatApiFeed.NoImageNoRemoval | cat-api/main.py:139-141 | a post without an image makes a delete remove no file |
| CatApiFeed.OrphanCommentAdopted | cat-api/main.py:112-125 | from any store keeping the invariant, a comment sent for the id the next post will take is kept in the global list; the post then created with that id carries no comments, yet the comment is found as its comment, and deleting that post deletes it |
| CatApiFeed.CatFeedServer.constructor | cat-api/main.py:22-25 | the server starts in the start-up store |
| CatApiFeed.CatFeedServer.ListPosts | cat-api/main.py:58-60 | answers the newest-first listing, computed by the shared array sort |
| CatApiFeed.CatFeedServer.GetPost | cat-api/main.py:63-68 | answers `Lookup` of the current state |
| CatApiFeed.CatFeedServer.CreatePost | cat-api/main.py:72-100 | the new state and reply are those of `Created`, and the store invariant `Valid()` holds before and after |
| CatApiFeed.CatFeedServer.LikePost | cat-api/main.py:103-109 | the new state and reply are those of `Liked`, and the store invariant `Valid()` holds before and after |
| CatApiFeed.CatFeedServer.AddComment | cat-api/main.py:112-125 | the new state and reply are those of `Commented`, and the store invariant `Valid()` holds before and after |
| CatApiFeed.CatFeedServer.DeletePost | cat-api/main.py:127-152 | the new state and reply are those of `Deleted`, and the store invariant `Valid()` holds before and after |
| Animals.FindAnimal | src/pages/AnimalDetail.jsx:11 | the animal found has the route's id and is in the data; none is found iff the id is not a number or no animal has it |
| LocalStore.WithoutIdSpec | src/pages/AdoptList.jsx:21-22 | no entry with the id remains, every other entry is kept, and nothing new appears |
| LocalStore.WithoutIdOrder | src/pages/AdoptList.jsx:22 | the remaining entries keep their relative order |
| LocalStore.WithoutIdAbsent | src/pages/AdoptConfirm.jsx:29-31 | removing an id that is absent changes nothing |
| LocalStore.WithoutIdIdempotent | src/pages/AdoptList.jsx:21-25 | removing twice is removing once |
| LocalStore.WithoutIdUnique | src/pages/AdoptConfirm.jsx:29-31 | removal keeps ids unique |
| LocalStore.Storage.constructor | src/pages/AdoptList.jsx:12 | storage starts with the given contents |
| LocalStore.Storage.SetList | src/pages/AdoptList.jsx:23 | `setItem` replaces exactly one key |
| LocalStore.Storage.Remove | src/pages/PostDetail.jsx:26-29 | `removeItem` removes exactly one key |
| Adoption.ConfirmedSpec | src/pages/AdoptConfirm.jsx:12-38 | no animal changes nothing; on success the animal with its date is appended to the confirmed list only if absent, its id leaves the waiting list with the others kept, and the page navigates to `/adoptlist`; unreadable stored text throws |
| Adoption.ConfirmedIdempotent | src/pages/AdoptConfirm.jsx:16-31 | confirming again, later, leaves storage as the first confirmation left it |
| Adoption.ConfirmedKeepsUnique | src/pages/AdoptConfirm.jsx:19-31 | ids stay unique in both lists |
| Adoption.AppendAbsentUnique | src/pages/AdoptConfirm.jsx:19-26 | appending a record whose id is absent keeps ids unique |
| Adoption.Confirm | src/pages/AdoptConfirm.jsx:9-38 | the page's lookup and confirm change storage and report the outcome as `Confirmed` specifies |
| Adoption.AddedToListSpec | src/pages/AnimalDetail.jsx:33-48 | no stored user means login required and nothing written; otherwise the animal is appended at the end only if its id is absent, and the list is otherwise unchanged |
| Adoption.AddedToListIdempotent | src/pages/AnimalDetail.jsx:40-47 | adding the same animal again finds it listed and writes nothing |
| Adoption.AddedToListKeepsUnique | src/pages/AnimalDetail.jsx:40-47 | adding keeps the bookmark ids unique |
| Adoption.AddToAdoptList | src/pages/AnimalDetail.jsx:33-48 | the handler changes storage as `AddedToList` specifies |
| Adoption.LoadedListsSpec | src/pages/AdoptList.jsx:10-18 | each missing key loads as an empty list and each stored list as stored, independently of the other key; an unreadable `adoptList` throws before either list is set; an unreadable `confirmedAdoptions` throws after the waiting list is set |
| Adoption.AdoptListPage.constructor | src/pages/AdoptList.jsx:6-7 | both lists start empty |
| Adoption.AdoptListPage.Load | src/pages/AdoptList.jsx:10-18 | the page shows what `LoadedLists` specifies |
| Adoption.AdoptListPage.RemoveAnimal | src/pages/AdoptList.jsx:21-25 | the waiting list loses every entry with the id, the stored list equals the shown one, and the confirmed list is untouched |
| Donations.AcceptedIff | src/components/DonateButton.jsx:58-63 | an amount passes iff it is a finite number greater than 0; NaN and 0 are rejected |
| Donations.PresetsAccepted | src/components/DonateButton.jsx:97 | all four preset amounts pass validation |
| Donations.Donate | src/components/DonateButton.jsx:57-84 | the handler changes storage and answers as `Donated` specifies |
| Donations.TotalConcat | src/pages/SponsorList.jsx:22 | the total of a concatenation is the sum of the totals |
| Donations.TotalPermutation | src/pages/SponsorList.jsx:19-22 | with amounts summed in exact real arithmetic, the total does not depend on the order of the records |
| Donations.TotalBounds | src/pages/AnimalDetail.jsx:19-26 | on a positive ledger, an animal's total is between 0 and the overall total |
| Donations.TotalDonatedNone | src/pages/AnimalDetail.jsx:19-26 | with no record for the animal its total is 0 and no badge is shown |
| Donations.AppendDonation | src/components/DonateButton.jsx:66-77 | appending a positive donation raises the overall total and the animal's total by its amount and keeps the ledger positive |
| Donations.DonatedSpec | src/components/DonateButton.jsx:57-84 | a rejected amount writes nothing; an accepted one appends exactly one record at the end of a readable ledger; unreadable stored text throws and writes nothing |
| Donations.LoadSponsors | src/pages/SponsorList.jsx:14-26 | the page shows the records sorted newest first in place and the total of the stored records |
| Donations.SponsorViewSpec | src/pages/SponsorList.jsx:16-22 | the shown list is a permutation of the stored records, in non-increasing date order, with the same total |
| Report.CategoryRules | src/pages/Report.jsx:23-34 | "all" keeps everything, "cat"/"dog" need an exact match, "other" excludes both, and the neutered rule holds only when asked for |
| Report.FilteredSpec | src/pages/Report.jsx:20-38 | an animal is shown iff it matches all three rules, in the data's order |
| Report.FilteredInitially | src/pages/Report.jsx:15-18 | with the initial filters every animal is shown |
| Report.PageCountSpec | src/pages/Report.jsx:41-42 | the page count is the ceiling of n/8, and 0 only for no matches |
| Report.PageItemsSpec | src/pages/Report.jsx:43-44 | a page shows at most 8 items, the items at positions (p-1)*8 onward, a full page when enough remain, and nothing on page 0 |
| Report.EveryItemOnItsPage | src/pages/Report.jsx:41-44 | every matching item appears, at the matching slot, on the page its position puts it on, and that page exists |
| Report.PageButtonsSpec | src/pages/Report.jsx:128-138 | "prev" never goes below 1; "next" never passes the page count and goes to 0 on no matches; both otherwise move by one and keep the page in range |
| Report.ClickRouteSpec | src/pages/Report.jsx:47-57 | no user routes to `/login`, otherwise to `/report/<id>`, distinct for distinct ids |
| Report.ReportPage.constructor | src/pages/Report.jsx:15-18 | page 1, empty search, category "all", neutered off, every animal listed |
| Report.ReportPage.SetSearch | src/pages/Report.jsx:70-72 | sets the search, resets the page to 1, keeps the other filters |
| Report.ReportPage.SetCategory | src/pages/Report.jsx:81-83 | sets the category, resets the page to 1, keeps the other filters |
| Report.ReportPage.ToggleNeutered | src/pages/Report.jsx:97-99 | flips the neutered filter, resets the page to 1, keeps the other filters |
| Report.ReportPage.Prev | src/pages/Report.jsx:128 | the page becomes `PrevPage` of the old page |
| Report.ReportPage.Next | src/pages/Report.jsx:138 | the page becomes `NextPage` of the old page and page count |
| Places.VisibleSpec | src/pages/Map.jsx:116-119 | a place is kept iff its kind is toggled on, in catalogue order; both toggles off shows nothing |
| Places.SortedPlacesSpec | src/pages/Map.jsx:116-129 | without a position, or with an unknown distance, the result is the filtered list in order; it is always a permutation of the filtered list; with a known distance it is non-decreasing in the distance key, ties in catalogue order |
| Places.CatalogueListedWhole | src/pages/Map.jsx:23-37 | with both toggles on and no position the whole catalogue is listed in its own order |
| Places.ComputeSortedPlaces | src/pages/Map.jsx:121-129 | the in-place sort of a copy yields `SortedPlaces`, and the catalogue is not reordered |
| Places.MapPage.constructor | src/pages/Map.jsx:109-112 | both toggles on, nothing selected, no position |
| Places.MapPage.ToggleShelter | src/pages/Map.jsx:137 | flips the shelter toggle only |
| Places.MapPage.ToggleCafe | src/pages/Map.jsx:141 | flips the cafe toggle only |
| Places.MapPage.Select | src/pages/Map.jsx:198 | sets the selected place only |
| Places.MapPage.Locate | src/pages/Map.jsx:180 | sets the user position only |
| Chat.InitialSpec | src/components/ChatWidget.jsx:21-32 | the stored log if there is one, else exactly one assistant greeting; closed and not loading |
| Chat.SentTextSpec | src/components/ChatWidget.jsx:51-58 | empty trimmed text, or a send while loading, changes nothing; otherwise the trimmed text is appended as the user's message, the error is cleared and the widget waits |
| Chat.CompletedSpec | src/components/ChatWidget.jsx:59-74 | loading ends after every outcome; a reply appends exactly one assistant message, with the fallback for an empty reply; a failure keeps the log and shows the login notice for 401, the busy notice otherwise |
| Chat.RoundTrip | src/components/ChatWidget.jsx:51-74 | a send and its completion leave the old log plus the user message, plus the answer on success |
| Chat.SentSpec | src/components/ChatWidget.jsx:82-87 | a send that changes anything was enabled; an enabled send clears the input and appends its trimmed text |
| Chat.PickedSpec | src/components/ChatWidget.jsx:76-80 | picking hides the suggestions, clears the input and sends the suggestion |
| Chat.ToggledSpec | src/components/ChatWidget.jsx:45-48 | toggling flips `open`, always hides the suggestions and leaves the log alone |
| Chat.ChatWidget.constructor | src/components/ChatWidget.jsx:20-37 | the widget mounts in `Initial` of the stored log |
| Chat.ChatWidget.SetInput | src/components/ChatWidget.jsx:250 | typing sets the input only |
| Chat.ChatWidget.ToggleSuggestions | src/components/ChatWidget.jsx:265 | flips the suggestions panel only |
| Chat.ChatWidget.HandleToggle | src/components/ChatWidget.jsx:45-48 | the state becomes `Toggled` of the old state |
| Chat.ChatWidget.HandleSendText | src/components/ChatWidget.jsx:51-58 | the state becomes `SentText` of the old state |
| Chat.ChatWidget.Complete | src/components/ChatWidget.jsx:59-74 | the state becomes `Completed` of the old state |
| Chat.ChatWidget.HandleSend | src/components/ChatWidget.jsx:82-87 | the state becomes `Sent` of the old state |
| Chat.ChatWidget.HandlePickSuggestion | src/components/ChatWidget.jsx:76-80 | the state becomes `Picked` of the old state |
| Accounts.Or | src/pages/PostDetail.jsx:90 | JavaScript's `or` fallback: the value when non-empty, else the fallback; the result is empty exactly when both sides are |
| Accounts.OrChainGrouping | src/pages/PostDetail.jsx:93 | `a or b or c`, grouped as JavaScript groups it, is the first non-empty one of `a` and `b`, else `c` |
| Accounts.AvatarOf | src/components/PostForm.jsx:52 | the stored avatar is the photo url when set, else the empty text, never missing |
| Accounts.AuthorName | src/pages/PostDetail.jsx:93 | the display name, else the email, else "匿名", never empty |
| Layout.DisplayNameSpec | src/pages/Layout.jsx:24-26 | the display name when set, else the part of the email before the first "@", else "訪客" |
| Layout.DisplayNameOfAddress | src/pages/Layout.jsx:26 | for an address `local@domain` with no "@" in `local`, the name is `local` |
| Layout.BeforeFirstConcat | src/pages/Layout.jsx:26 | `split("@")[0]` of `local@domain` is `local` |
| Layout.AvatarSrc | src/pages/Layout.jsx:28 | the photo url when set, else the default avatar |
| Layout.Active | src/pages/Layout.jsx:9-10 | the class is non-empty iff the link is active |
| MediaUrl.ResolveUrlSpec | src/pages/PostDetail.jsx:31-36 | empty or missing gives none; an `http` prefix passes through; otherwise base plus path with exactly one "/" between |
| MediaUrl.ResolveUrlIdempotent | src/components/PostCard.jsx:13-18 | with an `http` base, resolving a resolved url changes nothing |
| MediaUrl.DefaultBaseIsHttp | src/components/PostCard.jsx:16 | the default base starts with `http` |
| UserStorage.KeysSpec | src/lib/userStorage.js:3-9 | `myPosts:`/`myComments:` plus the uid, with "guest" for a falsy uid, so a falsy uid and "guest" share keys, and two uids share keys exactly then |
| UserStorage.KeysDisjoint | src/lib/userStorage.js:3-9 | a posts key never equals a comments key |
| UserStorage.LoadJsonFallback | src/lib/userStorage.js:11-18 | a missing key or unparsable text gives the fallback, and a stored list loads as itself |
| UserStorage.SaveThenLoad | src/lib/userStorage.js:11-22 | loading right after saving gives the saved value, and other keys are unaffected |
| UserStorage.LoadJsonFrom | src/lib/userStorage.js:11-18 | reads what `LoadJson` specifies |
| UserStorage.SaveJson | src/lib/userStorage.js:20-22 | writes exactly the one key |
| Posting.OnToggleLike | src/pages/PostDetail.jsx:64-67 | no user navigates to `/login`, otherwise a like request |
| Posting.LegacyClearedSpec | src/pages/PostDetail.jsx:26-29 | both legacy keys are gone, every other key is kept, and clearing twice is clearing once |
| Posting.CommentRecordFor | src/pages/PostDetail.jsx:87-95 | the record carries the post, the text, the title or "無標題文章", and the author and avatar fallbacks |
| Posting.PrependedSpec | src/pages/PostDetail.jsx:84-97 | a readable list gains the record at the front with the old records after it; unreadable text is left alone; other keys are untouched |
| Posting.RemovedPostSpec | src/pages/PostDetail.jsx:119-122 | every record with the post id is removed and the others are kept; this is idempotent; other keys are untouched |
| PostDetail.KeysAgree | src/pages/PostDetail.jsx:21-23 | the page's keys are the shared helper's keys for a real uid, and differ from the legacy keys |
| PostDetail.ShownCommentsSpec | src/pages/PostDetail.jsx:254 | the shown comments are the post's comments reversed (`slice().reverse()`), as many as `commentCount` (line 61) |
| PostDetail.SubmittedSpec | src/pages/PostDetail.jsx:70-105 | no user navigates to `/login`; blank text sends nothing; otherwise the legacy keys are cleared, the trimmed text is sent and the box is emptied |
| PostDetail.DeleteAskedSpec | src/pages/PostDetail.jsx:109-115 | no user navigates to `/login`; a delete is requested iff the user confirms, after the legacy keys are cleared |
| PostDetail.PostDetailPage.constructor | src/pages/PostDetail.jsx:49 | the comment box starts empty |
| PostDetail.PostDetailPage.TypeComment | src/pages/PostDetail.jsx:239 | typing sets the comment box |
| PostDetail.PostDetailPage.Submit | src/pages/PostDetail.jsx:70-105 | storage, box and action are as `Submitted` specifies |
| PostDetail.PostDetailPage.CommentSucceeded | src/pages/PostDetail.jsx:82-100 | the comment record is prepended under `myComments:<uid>` |
| PostDetail.PostDetailPage.OnDelete | src/pages/PostDetail.jsx:109-115 | storage and action are as `DeleteAsked` specifies |
| PostDetail.PostDetailPage.DeleteSucceeded | src/pages/PostDetail.jsx:116-127 | the post's records leave `myPosts:<uid>` and the page navigates to `/feed` |
| PostCard.SubmittedSpec | src/components/PostCard.jsx:44-79 | no user navigates to `/login`; a comment is sent iff there is a user and the text is not blank, and only then is the box emptied |
| PostCard.DeleteAsked | src/components/PostCard.jsx:82-87 | no user navigates to `/login`; a delete is requested iff the user confirms |
| PostCard.SharedKeysQuirk | src/components/PostCard.jsx:57-92 | the card's shared keys differ from every per-user key, so a card delete never touches `myPosts:<uid>`, and the next legacy clearing discards the card's comment records |
| PostCard.PostCardView.constructor | src/components/PostCard.jsx:27 | the comment box starts empty |
| PostCard.PostCardView.TypeComment | src/components/PostCard.jsx:190 | typing sets the comment box |
| PostCard.PostCardView.Submit | src/components/PostCard.jsx:44-79 | box and action are as `Submitted` specifies |
| PostCard.PostCardView.CommentSucceeded | src/components/PostCard.jsx:54-74 | the comment record is prepended under the shared `myComments` key |
| PostCard.PostCardView.DeleteSucceeded | src/components/PostCard.jsx:88-96 | the post's records leave the shared `myPosts` key |
| PostForm.Payload | src/components/PostForm.jsx:36-39 | title and content are always sent, the image only when one is selected |
| PostForm.PostRecordFor | src/components/PostForm.jsx:47-53 | the id is the server's or the current time, the title the server's or the one sent, with the author and avatar fallbacks |
| PostForm.PostFormView.constructor | src/components/PostForm.jsx:21-23 | empty title and content, no image |
| PostForm.PostFormView.Edit | src/components/PostForm.jsx:89-108 | typing and choosing a file set the fields |
| PostForm.PostFormView.Submit | src/components/PostForm.jsx:30-41 | no user navigates to `/login` and writes nothing; otherwise the legacy keys are cleared and the payload is sent |
| PostForm.PostFormView.CreateSucceeded | src/components/PostForm.jsx:42-63 | the record is prepended under `myPosts:<uid>` and only then is the form reset (the error callback only logs, so it has no method) |
| PostForm.FormRecordDeletedByPage | src/components/PostForm.jsx:44-55 | a record the form stored is removed by the post page's delete under the same key |
| Signin.ErrorTextSpec | src/pages/Signin.jsx:58-64 | "auth/email-already-in-use" and "auth/weak-password" have their own messages, and every other code gets the default |
| Signin.SubmittedSpec | src/pages/Signin.jsx:25-34 | an empty field gives "請填寫所有欄位。" with no request and loading off; otherwise the request goes out |
| Signin.CompletedSpec | src/pages/Signin.jsx:36-67 | success names the email and nickname and clears all six fields; failure shows the code's message; loading is off after every outcome |
| Signin.SuccessTextSpec | src/pages/Signin.jsx:41-44 | the success text is the greeting, the email, the separator and the nickname |
| Signin.SigninPage.constructor | src/pages/Signin.jsx:15-23 | all fields empty, not loading, no message |
| Signin.SigninPage.Edit | src/pages/Signin.jsx:112-153 | typing sets the six fields |
| Signin.SigninPage.Submit | src/pages/Signin.jsx:25-34 | the state and the request are as `Submitted` specifies |
| Signin.SigninPage.Complete | src/pages/Signin.jsx:36-67 | the state becomes `Completed` of the old state |
| Login.SubmittedSpec | src/pages/Login.jsx:21-30 | the message is reset; an empty email or password gives "請輸入 Email 與密碼。" with no request and loading off |
| Login.CompletedSpec | src/pages/Login.jsx:32-63 | the error table ("帳號或密碼錯誤。" for both credential codes, a default for the rest); only success navigates, to `/auth`; loading is off after every attempt |
| Login.LoginPage.constructor | src/pages/Login.jsx:15-19 | empty fields, not loading, no message |
| Login.LoginPage.Edit | src/pages/Login.jsx:118-146 | typing sets the fields |
| Login.LoginPage.Submit | src/pages/Login.jsx:21-30 | the state and the request are as `Submitted` specifies |
| Login.LoginPage.Complete | src/pages/Login.jsx:32-63 | the state and the route are as `Completed` specifies |

## Left out

- The Supabase image upload in `api/main.py` is an input, `Upload`: no image, a public url, or a failure. The file write and file removal in `cat-api/main.py` are also not modelled. Only the name of the removed file is computed.
- FastAPI's request parsing, its response models and the pydantic types are not modelled. `created_at` is an opaque integer timestamp.
- The map page's haversine distance, `toFixed` and `parseFloat` are floating point. Distance is an abstract, already-rounded integer key given as a parameter. The map control, geolocation and timers are not modelled either.
- Firebase authentication and its auth-state subscription are not modelled. The signed-in user and the outcome of each sign-in or sign-up call are inputs.
- The axios client, the device id and react-query's cache handling are not modelled. So is the chat request itself. Each request's outcome is an input.
- Async interleaving is not modelled. One request is in flight at a time. This includes the chat widget's stale `messages` closure.
- JSON encoding is not modelled. A stored cell is either a parsed list of records or text that does not parse as a list. Text that parses to `null` or to a non-list value is not distinguished from unparsable text.
- Donation amounts are a finite real or NaN. `Infinity`, and stored amounts that are not numbers, are not modelled.
- TotalPermutation: totals are sums in exact real arithmetic, not IEEE-754 doubles. The page's `reduce` adds doubles from left to right, and for fractional amounts that sum can depend on the order, e.g. `(0.1 + 0.2) + 0.3` differs from `0.1 + (0.2 + 0.3)`. Order independence therefore holds for the model, and for the page only when every partial sum is exact, as with whole-number amounts.
- LoadSponsors: the page sums the sorted array as doubles. The method computes the exact real sum of that array, and its contract states it as the exact sum in stored order. The two agree only in exact arithmetic, not for the rounded double the page shows.
- SponsorViewSpec: "the same total" means equal exact real sums. Double sums of the stored order and of the sorted order can differ in the last bits.
- `SponsorList`'s date comparison is modelled on valid dates only, as an integer instant. How the page sorts records with an invalid date is not modelled.
- `alert`, `confirm`, `window.location.reload`, the donation dialog's timer and the animations are not modelled. The user's answer to `confirm` is an input.
- Animals carry only the fields the logic reads: id, name, category and the neutered flag. The animals data file is a parameter.
- Rendering is not modelled. This includes the browser's HTML `required` validation: the post form's title and content fields carry `required` (`src/components/PostForm.jsx:91,100`), so the browser never submits them empty, while `PostForm.PostFormView.Submit` accepts any text. It also includes the loading screen the layout shows while a navigation is loading (`src/pages/Layout.jsx:21,33`). In particular, the login page's JSX reads the constant `APP_BG`, whose declaration is commented out (`src/pages/Login.jsx:11,69`), so rendering that page would throw a `ReferenceError`.
- The router table and the home, account, loading, `MyPosts` and `MyComments` pages are not part of this model. The last two only reverse a stored list.
- `api/hello.py`, `api/index.py` and the application bootstrap are not part of this model.
