# tron-legacy-api, modelled in Dafny

This project models the core of a Go HTTP API for a personal blog with user profiles.
Users register and log in, editing a profile and uploading an avatar. Authors write draft or
published posts, each with a unique URL slug; readers view, like and comment on published posts.
Around the handlers sit three middleware layers:

- a JWT-bearer authentication gate;
- a role gate;
- a request logger and a metrics recorder that keep per-route counters.

What the model holds:

- MongoDB becomes an in-memory `Store.Database` object: users, profiles keyed by user id,
  posts, view and like markers grouped by post, and comments. Every handler keeps the
  invariant `Database.Valid()`, which says:
  - documents sit under their own ids;
  - emails and slugs are unique;
  - every user has exactly one profile;
  - each post's `like_count`, `unique_view_count` and `comment_count` equal the number of
    its like markers, view markers and comments;
  - `unique_view_count` never exceeds `view_count`.
- The handlers are methods on that object. Each returns a `Reply`: either `Ok(status, value)`
  or `Err(status, message)` with the status and message the Go handler writes.
- The pixel transforms of the avatar upload are loops over `array2`. They are proved equal to
  value-level grid functions, and the laws hold for those functions: involutions, inverse
  pairs, where each Exif orientation sends a pixel.
- The metrics recorder and the logger's status-recording response writer are classes whose
  fields the methods update.

Modules, one per concern:

- `Wrappers`: `Option`, `Reply`.
- `Text`: splitting into runs, `strings.Split`, `strings.Join`, `strconv.Itoa`, UTF-8 length.
- `ObjectIds`: 24-digit hex ObjectIDs.
- `Slugs`: generateSlug, ensureUniqueSlug, estimateReadingTime.
- `Paging`: the page/limit clamps with int64 skip.
- `Store`, `Blog`, `Engagement`, `Accounts`, `ProfileUpdate`: the handlers.
- `ImageGeometry`, `ImageTransforms`, `ImageResize`: the image code.
- `RequestMetrics`, `ResponseWriters`, `RequestContext`, `AuthMiddleware`, `RoleMiddleware`:
  the middleware.

The model's inputs stand in for effects:

- Clock readings are a `now` parameter.
- Fresh ObjectIDs are parameters that must be `Unused` in the database.
- bcrypt and JWT are function-typed oracles (`hashPassword`, `checkPassword`,
  `generateToken`, `TokenParser`).
- The store failures the handlers react to are boolean parameters.

Two points of the Go code the model follows:

- The handlers and the role middleware read `profile.Role`, but `models.Profile` declares no
  such field. The model gives `Store.Profile` a `role`, which registration leaves empty.
- `len()` in Go counts UTF-8 bytes. The password and comment length checks therefore use
  `Text.Utf8Len`, not the character count.

## Model

| member | source | states |
|---|---|---|
| Store.Database.constructor | internal/database/mongo.go:76-96 | the API starts with empty collections, and the store invariant holds for them |
| Store.Database.FindBySlug | internal/handlers/engagement.go:21-28 | the slug query answers the one post holding that slug (published only, when asked), or none when no post matches; it relies on slugs being unique |
| Store.Database.FindByIdOrSlug | internal/handlers/blog.go:280-293 | a 24-hex path value is looked up as an _id, anything else as a slug; a slug hit holds exactly that slug |
| Store.SlugLookup | internal/handlers/engagement.go:21-28 | a found post is stored and matches the filter; nothing is found exactly when no stored post matches |
| Store.SlugIndexOf | internal/handlers/blog.go:753-758 | the slug index has one entry per post, holding that post's slug |
| Store.PostsOkLocal | internal/database/mongo.go:76-96 | a change confined to one post keeps the per-post invariant, if the post keeps its own id, a slug no other post holds, and counters matching its markers and comments |
| Store.CommentsOnInsert | internal/handlers/engagement.go:402-412 | inserting a comment adds its id to its own post's comments and to no other post's |
| Store.CommentsOnRemove | internal/handlers/engagement.go:499-509 | deleting a comment removes its id from its own post's comments and from no other post's |
| ObjectIds.FromHex | internal/middleware/auth.go:58-63 | ObjectIDFromHex succeeds exactly on 24 hex digits, and the id it yields is in range |
| ObjectIds.ToHex | internal/handlers/blog.go:594 | ObjectID.Hex always yields 24 hex digits |
| ObjectIds.FromHexOfToHex | internal/handlers/blog.go:594 | parsing the hex form of an id gives back that id |
| ObjectIds.HexValueOfDigits | internal/middleware/auth.go:58-63 | reading n hex digits back gives the value they were written from |
| Text.RunLength | internal/middleware/metrics.go:151-168 | the length of the leading run is the position of the first separator, or the whole string |
| Text.RunsAreProper | internal/middleware/metrics.go:151-168 | the segments splitPath keeps are never empty and never contain '/' |
| Text.RunsKeepEveryCharacter | internal/middleware/metrics.go:151-168 | the segments, laid end to end, are the path with only the slashes removed, in order |
| Text.RunsOfPrefixJoin | internal/middleware/metrics.go:144-168 | joining proper segments with a leading '/' each, and splitting again, gives back the same segments |
| Text.SplitOnTwo | internal/middleware/auth.go:36-43 | strings.Split yields exactly two parts iff the separator occurs exactly once, and the parts are the text before and after it |
| Text.IndexOf | internal/middleware/auth.go:36 | the index is the first occurrence of the character, or the length when it is absent |
| Text.DecimalString | internal/middleware/metrics.go:123 | the decimal digits of a natural number: one digit exactly below 10, and only '0'..'9' |
| Text.DecimalStringInjective | internal/middleware/metrics.go:123 | different numbers have different decimal forms |
| Text.DecimalStringBound | internal/middleware/metrics.go:123 | a number is below ten to the power of its digit count |
| Text.Itoa | internal/middleware/metrics.go:123 | strconv.Itoa yields a non-empty string of digits and '-' |
| Text.Utf8LenBounds | internal/handlers/engagement.go:378-379 | the byte length len() counts lies between one and four bytes per character, and equals the character count for ASCII |
| Slugs.FoldIdempotent | internal/handlers/blog.go:713-724 | lower-casing and replacing accents twice is the same as doing it once |
| Slugs.HyphenateFoldIsSlugChar | internal/handlers/blog.go:713-735 | every title character becomes a lower-case letter, a digit or '-' |
| Slugs.CollapseHyphens | internal/handlers/blog.go:737-739 | collapsing hyphen runs leaves no double hyphen; it never lengthens the text and keeps whether it starts with '-' |
| Slugs.CollapseKeepsSlugChars | internal/handlers/blog.go:737-739 | collapsing hyphens adds no character outside the slug alphabet |
| Slugs.CollapseFixed | internal/handlers/blog.go:737-739 | text with no double hyphen comes out of the collapse unchanged |
| Slugs.TrimLeft | internal/handlers/blog.go:741-742 | the left trim removes a prefix, the result starts with no '-', and text starting with no '-' is unchanged |
| Slugs.TrimRight | internal/handlers/blog.go:741-742 | the right trim removes a suffix, the result ends with no '-', and text ending with no '-' is unchanged |
| Slugs.TrimHyphensShape | internal/handlers/blog.go:737-742 | trimming a collapsed string of slug characters leaves a well-formed slug |
| Slugs.GenerateSlug | internal/handlers/blog.go:712-745 | the loop computes the slug of the title, which holds only lower-case letters, digits and '-', has no '-' at either end and never two in a row |
| Slugs.SlugIsSlug | internal/handlers/blog.go:712-745 | every title gives a well-formed slug |
| Slugs.SlugOfSlug | internal/handlers/blog.go:712-745 | a well-formed slug is its own slug |
| Slugs.SlugIdempotent | internal/handlers/blog.go:712-745 | slugifying a slug changes nothing |
| Slugs.SlugExample | internal/handlers/blog.go:712-745 | "É  b" becomes "e-b": lower-cased, accent removed, the two spaces merged into one hyphen |
| Slugs.FoldExample | internal/handlers/blog.go:713-724 | the character rewrite turns "É" into "e" and keeps the other characters |
| Slugs.EnsureUniqueSlug | internal/handlers/blog.go:748-767 | the loop returns the first candidate of slug, slug-2, slug-3, … that no post other than excludeID holds |
| Slugs.FirstFreeUnique | internal/handlers/blog.go:748-767 | the first free candidate is determined by the slug index: two answers are equal |
| Slugs.FreeSlugKept | internal/handlers/blog.go:749-764 | a slug nobody else holds is kept as it is |
| Slugs.NoMinusOneSuffix | internal/handlers/blog.go:750-766 | no candidate is slug-1 |
| Slugs.CandidatesDistinct | internal/handlers/blog.go:765-766 | the candidates tried are pairwise distinct |
| Slugs.LongestSlug | internal/handlers/blog.go:748-767 | some length bounds every slug in the index, which is why the search ends |
| Slugs.ReadingTime | internal/handlers/blog.go:771-778 | the reading time is at least one minute; it is exactly one below 400 words, and otherwise exactly the word count divided by 200, rounded down (max(1, words div 200)) |
| Paging.Wrap64 | internal/handlers/blog.go:70 | int64 wrap-around: the result is an int64, congruent to the input modulo 2^64, and equal to it when it already fits |
| Paging.PageWindow | internal/handlers/blog.go:41-48 | a page below 1 becomes 1, a limit outside [1, 50] becomes the default, and the skip is (page-1)·limit wrapped to Go's 64-bit int |
| Paging.SkipCountsEarlierPages | internal/handlers/blog.go:70 | for pages small enough not to overflow, the skip is exactly the number of items on the earlier pages |
| Paging.HugePageWrapsNegative | internal/handlers/blog.go:70 | a page above 2^62 with limit 2 makes the int64 skip wrap to a negative number |
| Blog.GetPostBySlug | internal/handlers/blog.go:111-145 | an empty slug gives 400, an unknown slug 404, a draft seen by anyone but its author 404; otherwise the post with that slug, enriched, and the caller may see it |
| Blog.DraftHiddenFromOthers | internal/handlers/blog.go:129-135 | a post that is not published is hidden from anonymous callers and from other users |
| Blog.ListedIds | internal/handlers/blog.go:50-57 | the listing filter keeps exactly the published posts of the category and tag asked for |
| Blog.AuthoredIds | internal/handlers/blog.go:470-472 | MyPosts counts exactly the caller's posts, drafts included |
| Blog.ListPosts | internal/handlers/blog.go:40-100 | the answer is 200 with the number of matching posts and the clamped page and limit |
| Blog.MyPosts | internal/handlers/blog.go:451-507 | anonymous callers get 401; others get the number of their posts and the clamped page and limit |
| Blog.ListedAreVisible | internal/handlers/blog.go:50-57 | every post the public list counts is visible to every caller |
| Blog.FilterNarrows | internal/handlers/blog.go:50-57 | a category or tag filter never counts more posts than the unfiltered list |
| Blog.EffectiveStatus | internal/handlers/blog.go:178-180 | an empty status becomes the default, and a given status is kept |
| Blog.NewPost | internal/handlers/blog.go:198-223 | a new post has its id, author and slug, publishedAt exactly when published, nil tags as an empty list, zero counters and a reading time of at least one |
| Blog.CreatePost | internal/handlers/blog.go:160-245 | 401 without a user, then 400 for a bad body, a missing title or content, or a bad status, with nothing written; a request passing every check always succeeds, with a 201 with exactly one new post under the first free slug, the post-created counter up by one and the invariant kept |
| Blog.Revised | internal/handlers/blog.go:305-350 | an edit keeps the id, author, creation time and counters, stamps updatedAt, never overwrites an existing publish date, dates only a published post, and keeps the slug when the title is absent |
| Blog.EmptyUpdateTouchesOnly | internal/handlers/blog.go:305-350 | an update request with no fields changes only updatedAt |
| Blog.PublishDates | internal/handlers/blog.go:339-352 | publishing an undated post dates it now; publishing an already dated post keeps its date |
| Blog.UnpublishKeepsDate | internal/handlers/blog.go:339-352 | setting a post back to draft keeps its publish date |
| Blog.PutPost | internal/handlers/blog.go:352-360 | writing one post whose slug no other post holds keeps the store invariant and changes only that post |
| Blog.PutKeepsStoreOk | internal/database/mongo.go:76-96 | the store invariant survives replacing or adding one post whose slug is unique and whose counters match its markers |
| Blog.DropPost | internal/handlers/blog.go:425-429 | deleting a post keeps the store invariant and removes only that post |
| Blog.DropKeepsStoreOk | internal/database/mongo.go:76-96 | the store invariant survives removing a post |
| Blog.EditPost | internal/handlers/blog.go:305-360 | an invalid status gives 400 with nothing written; otherwise the post is replaced by its revision under the first free slug for a new title, and the reply is that post |
| Blog.UpdatePost | internal/handlers/blog.go:262-374 | 401, 400, 404 and 403 (not the author and not an admin) in the source's order, each writing nothing; an author or admin with an absent or valid status always succeeds, and then exactly the target post becomes its revision and the post-updated counter rises by one |
| Blog.DeletePost | internal/handlers/blog.go:388-438 | 401, 404, or 403 for someone neither author nor admin, each writing nothing; otherwise exactly that post is removed and the post-deleted counter rises by one |
| Engagement.Viewed | internal/handlers/engagement.go:98-130 | a view adds one to view_count; a signed-in viewer's marker is added, and unique_view_count rises by the number of new markers (zero or one); nothing else changes |
| Engagement.ViewedAgrees | internal/handlers/engagement.go:98-130 | a view keeps the counters in agreement with the markers |
| Engagement.RepeatViewNotUnique | internal/handlers/engagement.go:110-130 | a second view by the same user raises view_count again but adds no marker and leaves unique_view_count alone |
| Engagement.ViewKeepsPostsOk | internal/database/mongo.go:81-88 | the store invariant survives recording a view |
| Engagement.CountView | internal/handlers/engagement.go:98-130 | recording a view changes exactly the post and its view markers, as Viewed says, and keeps the invariant |
| Engagement.RecordView | internal/handlers/engagement.go:82-138 | 400 for an empty slug and 404 unless the slug names a published post, with nothing written; otherwise 200, with the view counted as Viewed says (anonymous views leave the markers alone) |
| Engagement.GetPostStats | internal/handlers/engagement.go:149-185 | 400 and 404 as for every published-only lookup; otherwise the post's four counters, and liked exactly when the caller is signed in and holds a like marker |
| Engagement.StatsCountMarkers | internal/handlers/engagement.go:165-182 | the reported counts equal the numbers of markers and comments, unique views are at most views, and a caller who liked sees at least one like |
| Engagement.Toggled | internal/handlers/engagement.go:220-259 | a toggle removes the caller's marker when present and adds it otherwise; liked is true exactly when it added one; like_count moves by the change in marker count; nothing else changes |
| Engagement.ToggledAgrees | internal/handlers/engagement.go:220-259 | a toggle keeps like_count equal to the number of like markers |
| Engagement.ToggleTwiceRestores | internal/handlers/engagement.go:220-259 | two toggles by the same user restore the post and the markers and report opposite liked values |
| Engagement.ToggleKeepsStoreOk | internal/database/mongo.go:90-96 | the store invariant survives a toggle |
| Engagement.ApplyToggle | internal/handlers/engagement.go:220-259 | a toggle changes exactly the post and its like markers, as Toggled says, and keeps the invariant |
| Engagement.ToggleLike | internal/handlers/engagement.go:198-270 | 401, 400 and 404 in the source's order; a failed marker insert gives 500 with nothing changed; otherwise the toggle is applied and the reply carries the new liked value and the stored like_count |
| Engagement.AcceptedCommentSize | internal/handlers/engagement.go:378-379 | accepted content is between 1 and 2000 characters long, since its byte length is in that range |
| Engagement.Recount | internal/handlers/engagement.go:409-411 | the $inc on comment_count moves it by delta and changes nothing else |
| Engagement.AddKeepsStoreOk | internal/handlers/engagement.go:402-412 | the store invariant survives inserting a comment together with a comment_count increment |
| Engagement.AddComment | internal/handlers/engagement.go:402-412 | inserting a comment changes exactly the comments and its post's comment_count, and keeps the invariant |
| Engagement.CreateComment | internal/handlers/engagement.go:359-428 | 401, 400 for the slug, the body or a byte length outside [1, 2000], and 404, with nothing written; every valid request on a published post gets 201 with one new comment and comment_count up by one |
| Engagement.RemoveKeepsStoreOk | internal/handlers/engagement.go:499-509 | the store invariant survives deleting a comment together with a comment_count decrement |
| Engagement.RemoveComment | internal/handlers/engagement.go:499-509 | deleting a comment changes exactly the comments and its post's comment_count, and keeps the invariant |
| Engagement.DeleteComment | internal/handlers/engagement.go:443-519 | 401, 400 for a bad id, 404 for the post or for a comment not on it, 403 unless the caller is the comment's author, the post's author or an admin, each writing nothing; otherwise the comment is removed and comment_count falls by one |
| Engagement.ListComments | internal/handlers/engagement.go:283-343 | 400 and 404 as for every published-only lookup; otherwise the post's comment total with the clamped page and limit (default 20), and that total is the post's comment_count |
| ImageGeometry.Tabulate | internal/handlers/profile.go:333-396 | a freshly filled grid has the asked size and the given pixel at every position |
| ImageGeometry.GridExt | internal/handlers/profile.go:333-396 | two grids of the same size with the same pixels are equal |
| ImageGeometry.FlipH | internal/handlers/profile.go:333-344 | flipHorizontal keeps width and height |
| ImageGeometry.FlipV | internal/handlers/profile.go:346-357 | flipVertical keeps width and height |
| ImageGeometry.Rot180 | internal/handlers/profile.go:359-370 | rotate180 keeps width and height |
| ImageGeometry.Rot90CWInto | internal/handlers/profile.go:372-383 | rotate90CW produces a newW × newH image |
| ImageGeometry.Rot90CCWInto | internal/handlers/profile.go:385-396 | rotate90CCW produces a newW × newH image |
| ImageGeometry.Rot90CW | internal/handlers/profile.go:318-320 | rotate90CW called with the swapped size produces an h × w image |
| ImageGeometry.Rot90CCW | internal/handlers/profile.go:325-327 | rotate90CCW called with the swapped size produces an h × w image |
| ImageGeometry.Transpose | internal/handlers/profile.go:314-317 | orientation 5 (flipHorizontal, then rotate90CCW) swaps width and height |
| ImageGeometry.Transverse | internal/handlers/profile.go:321-324 | orientation 7 (flipHorizontal, then rotate90CW) swaps width and height |
| ImageGeometry.Oriented | internal/handlers/profile.go:282-331 | the correction swaps the axes for orientations 5-8, keeps them otherwise, and leaves the image unchanged when there is no orientation or it is 1 or out of range |
| ImageGeometry.Landing | internal/handlers/profile.go:301-330 | where a source pixel lands under each orientation stays inside the corrected image |
| ImageGeometry.FlipHAt | internal/handlers/profile.go:333-344 | the pixel at (x, y) of the flipped image is the source pixel at (w-1-x, y) |
| ImageGeometry.FlipVAt | internal/handlers/profile.go:346-357 | the pixel at (x, y) of the flipped image is the source pixel at (x, h-1-y) |
| ImageGeometry.Rot180At | internal/handlers/profile.go:359-370 | the pixel at (x, y) of the turned image is the source pixel at (w-1-x, h-1-y) |
| ImageGeometry.Rot90CWAt | internal/handlers/profile.go:372-383 | the pixel at (x, y) of the clockwise turn is the source pixel at (y, h-1-x) |
| ImageGeometry.Rot90CCWAt | internal/handlers/profile.go:385-396 | the pixel at (x, y) of the counter-clockwise turn is the source pixel at (w-1-y, x) |
| ImageGeometry.Rot90CWIntoAt | internal/handlers/profile.go:372-383 | with any output size, a position filled from the source holds the clockwise remapped pixel, and every other position stays transparent |
| ImageGeometry.Rot90CCWIntoAt | internal/handlers/profile.go:385-396 | with any output size, a position filled from the source holds the counter-clockwise remapped pixel, and every other position stays transparent |
| ImageGeometry.FlipHSends | internal/handlers/profile.go:333-344 | flipHorizontal sends the source pixel (x, y) to (w-1-x, y) |
| ImageGeometry.FlipVSends | internal/handlers/profile.go:346-357 | flipVertical sends the source pixel (x, y) to (x, h-1-y) |
| ImageGeometry.Rot180Sends | internal/handlers/profile.go:359-370 | rotate180 sends the source pixel (x, y) to (w-1-x, h-1-y) |
| ImageGeometry.Rot90CWIntoSends | internal/handlers/profile.go:372-383 | rotate90CW sends the source pixel (x, y) to (h-1-y, x) whenever that fits the output, and leaves the rest transparent |
| ImageGeometry.Rot90CCWIntoSends | internal/handlers/profile.go:385-396 | rotate90CCW sends the source pixel (x, y) to (y, w-1-x) whenever that fits the output, and leaves the rest transparent |
| ImageGeometry.Rot90CWSends | internal/handlers/profile.go:318-320 | called with newW = h and newH = w, rotate90CW yields an h × w image with the source pixel (x, y) at (h-1-y, x) |
| ImageGeometry.Rot90CCWSends | internal/handlers/profile.go:325-327 | called with swapped dimensions, rotate90CCW yields an h × w image with the source pixel (x, y) at (y, w-1-x) |
| ImageGeometry.TransposeAt | internal/handlers/profile.go:314-317 | orientation 5's transpose holds at (x, y) the source pixel at (y, x) |
| ImageGeometry.TransverseAt | internal/handlers/profile.go:321-324 | orientation 7's transverse sends (x, y) to (h-1-y, w-1-x) |
| ImageGeometry.OrientedLanding | internal/handlers/profile.go:301-330 | under every orientation, each source pixel appears in the corrected image at the position Landing names |
| ImageGeometry.MirrorLanding | internal/handlers/profile.go:301-313 | orientations without an axis swap move each pixel to its Landing position |
| ImageGeometry.QuarterTurnLanding | internal/handlers/profile.go:314-327 | orientations 5-8 move each pixel to its Landing position |
| ImageGeometry.TransposeLanding | internal/handlers/profile.go:314-317 | under orientation 5, the source pixel (x, y) lands at (y, x) |
| ImageGeometry.TransverseLanding | internal/handlers/profile.go:321-324 | under orientation 7, the source pixel (x, y) lands at (h-1-y, w-1-x) |
| ImageGeometry.TurnLanding | internal/handlers/profile.go:318-320 | under orientation 6, the source pixel (x, y) lands at (h-1-y, x) |
| ImageGeometry.CounterTurnLanding | internal/handlers/profile.go:325-327 | under orientation 8, the source pixel (x, y) lands at (y, w-1-x) |
| ImageGeometry.TransposeTag | internal/handlers/profile.go:314-317 | orientation 5 is a transpose: the image is h × w, and every source pixel (x, y) sits at (y, x) |
| ImageGeometry.TransverseTag | internal/handlers/profile.go:321-324 | orientation 7 is h × w, and every source pixel (x, y) sits at (h-1-y, w-1-x) |
| ImageGeometry.FlipHInvolution | internal/handlers/profile.go:333-344 | flipping horizontally twice gives back the original image |
| ImageGeometry.FlipVInvolution | internal/handlers/profile.go:346-357 | flipping vertically twice gives back the original image |
| ImageGeometry.Rot180Involution | internal/handlers/profile.go:359-370 | turning by 180 degrees twice gives back the original image |
| ImageGeometry.Rot180IsFlips | internal/handlers/profile.go:333-370 | rotate180 equals flipVertical after flipHorizontal |
| ImageGeometry.Rot90CCWUndoesCW | internal/handlers/profile.go:372-396 | rotate90CCW with swapped dimensions undoes rotate90CW |
| ImageGeometry.Rot90CWUndoesCCW | internal/handlers/profile.go:372-396 | rotate90CW with swapped dimensions undoes rotate90CCW |
| ImageGeometry.Rot90CWTwice | internal/handlers/profile.go:359-383 | two clockwise quarter turns are rotate180 |
| ImageGeometry.TransposeInvolution | internal/handlers/profile.go:314-317 | orientation 5's correction applied twice gives back the original image |
| ImageGeometry.TransverseTwiceAt | internal/handlers/profile.go:321-324 | orientation 7's correction applied twice gives back every pixel |
| ImageGeometry.TransverseInvolution | internal/handlers/profile.go:321-324 | orientation 7's correction applied twice gives back the original image |
| ImageGeometry.InverseTag | internal/handlers/profile.go:301-330 | the inverse orientation swaps axes and corrects exactly when the original does |
| ImageGeometry.OrientedInverse | internal/handlers/profile.go:301-330 | every orientation's correction is undone by the correction of its inverse orientation |
| ImageTransforms.GridOf | internal/handlers/profile.go:333-396 | the grid read from a pixel buffer has the buffer's size and the buffer's pixel at each (x, y) |
| ImageTransforms.FlipHorizontal | internal/handlers/profile.go:333-344 | the loop fills a fresh buffer with exactly flipHorizontal of the source |
| ImageTransforms.FlipVertical | internal/handlers/profile.go:346-357 | the loop fills a fresh buffer with exactly flipVertical of the source |
| ImageTransforms.Rotate180 | internal/handlers/profile.go:359-370 | the loop fills a fresh buffer with exactly rotate180 of the source |
| ImageTransforms.Rotate90CW | internal/handlers/profile.go:372-383 | the loop fills a fresh newW × newH buffer with the clockwise turn, leaving pixels outside the bounds transparent as RGBA.Set does |
| ImageTransforms.Rotate90CCW | internal/handlers/profile.go:385-396 | the loop fills a fresh newW × newH buffer with the counter-clockwise turn, leaving pixels outside the bounds transparent |
| ImageTransforms.ApplyExifOrientation | internal/handlers/profile.go:282-331 | the result is the corrected grid for the orientation; without a correcting orientation it is the very same image, and otherwise a fresh one |
| ImageResize.SquareCrop | internal/handlers/profile.go:260-270 | the crop is a square of side min(w, h) inside the source, centred along the longer axis, with the odd pixel left over on the right or at the bottom |
| ImageResize.ShrunkHeight | internal/handlers/blog.go:659-660 | srcH·maxWidth/srcW rounded down lies between 0 and srcH and is the integer part of the exact quotient |
| ImageResize.ResizeCover | internal/handlers/blog.go:650-666 | a source no wider than the maximum is kept as it is; a wider one becomes exactly maxWidth wide, with the proportional height rounded down and never taller than before |
| ImageResize.OrientedSizeOfGrid | internal/handlers/profile.go:203-206 | the size the upload computes after the correction is the size of the corrected grid |
| ImageResize.AvatarUpload | internal/handlers/profile.go:158-252 | 401, then 413 for a body over 5 MB, then the other errors; success needs a JPEG or PNG that decodes and a stored profile, and yields a 256 × 256 thumbnail of the centred square of the oriented image |
| ImageResize.PortraitAvatar | internal/handlers/profile.go:255-279 | a 300 × 500 portrait becomes a 256 × 256 thumbnail of its rows 100 to 399 |
| ImageResize.PostImageUpload | internal/handlers/blog.go:522-606 | 401, 413 and the 400 errors in order; success needs a sniffed JPEG, PNG or WebP that decodes and a stored image, and returns the image's URL with the cover size |
| ImageResize.PostImageUrlNamesImage | internal/handlers/blog.go:594 | the returned URL is the images path followed by 24 hex digits that parse back to the stored image's id |
| ImageResize.NarrowCoverUnchanged | internal/handlers/blog.go:655-657 | cover images are never enlarged: one at most 800 pixels wide is stored unchanged |
| ProfileUpdate.Given | internal/handlers/profile.go:86-118 | the request supplies every field except updated_at |
| ProfileUpdate.TextEntry | internal/handlers/profile.go:86-118 | a text field is set exactly when its request value is non-empty, and then to that value |
| ProfileUpdate.ProfileEntries | internal/handlers/profile.go:89-97 | name, avatar and bio are each chosen exactly when the request value is non-empty |
| ProfileUpdate.SettingsEntries | internal/handlers/profile.go:98-118 | each settings field is chosen when non-empty; first_day_of_week is chosen only when non-zero |
| ProfileUpdate.BuildSetFields | internal/handlers/profile.go:86-118 | the $set document holds, for each field, what the request selects for it |
| ProfileUpdate.BuiltEntries | internal/handlers/profile.go:86-118 | every key of the built document holds its intended value: updated_at is now, and the other keys are set only from non-empty request values |
| ProfileUpdate.Applied | internal/handlers/profile.go:120 | applying the $set document keeps the profile's ids, role and creation time |
| ProfileUpdate.UpdateEffect | internal/handlers/profile.go:85-120 | the stored profile gets updated_at = now and each request value that is non-empty (non-zero for first_day_of_week); everything else is kept |
| ProfileUpdate.SundayNotSettable | internal/handlers/profile.go:113-115 | once first_day_of_week is non-zero, no request can set it back to 0 (Sunday) |
| ProfileUpdate.EmptyRequestTouchesOnly | internal/handlers/profile.go:85-120 | an empty request changes only updated_at |
| ProfileUpdate.ProfileKeepsStoreOk | internal/database/mongo.go:76-96 | the store invariant survives replacing a user's profile |
| ProfileUpdate.GetProfile | internal/handlers/profile.go:36-54 | 401 without a user, 404 without a profile, otherwise 200 with the caller's own profile |
| ProfileUpdate.UpdateProfile | internal/handlers/profile.go:69-143 | 401, 400 and 404 in order, each changing nothing; a signed-in caller with a decodable body and a stored profile always gets 200, and the caller's profile, and only it, becomes the updated profile, and the profile-update counter rises by one |
| Accounts.ToResponse | internal/models/user.go:214-220 | the public view of a user carries its id, email and creation time |
| Accounts.UserByEmail | internal/handlers/auth.go:52-57 | a found user has that email; nothing is found exactly when no user has it |
| Accounts.FindUserByEmail | internal/handlers/auth.go:52-57 | the email query answers the one user with that email, since emails are unique |
| Accounts.NewProfile | internal/handlers/auth.go:80-91 | a new profile belongs to the new user, carries the given name, defaults to BRL and pt-BR, and leaves role, avatar and bio empty |
| Accounts.AccountKeepsStoreOk | internal/database/mongo.go:76-96 | the store invariant survives adding a user with a fresh email along with its profile |
| Accounts.CreateAccount | internal/handlers/auth.go:74-99 | when the profile insert fails, the user just inserted is deleted again, so either both documents are added or neither is |
| Accounts.Register | internal/handlers/auth.go:30-124 | 400 for a bad body, a missing field or a password under 6 bytes, then 409 for a taken email, each writing nothing; a failed hash, user insert, profile insert or token each get their own 500; when all succeed the request succeeds, and exactly one user and its profile are added, the reply is 201 with the token, and the registered counter rises by one |
| Accounts.RegisteredUserFindable | internal/handlers/auth.go:52-99 | after registration the email still names exactly one user, the new one, and that user has its profile |
| Accounts.Login | internal/handlers/auth.go:137-206 | an unknown email and a wrong password get the same 401 and bump only the failed-login counter; correct credentials with a profile and a token always succeed, returning the stored user and profile with the token, and bumps only the success counter; a valid store never answers "Profile not found" |
| Accounts.Me | internal/handlers/auth.go:218-251 | 401, 404 for a missing user or profile, otherwise the user and profile with an empty token; under the invariant every stored user succeeds |
| RequestContext.BackgroundIsAnonymous | internal/middleware/auth.go:72-78 | a context without values has the nil user id and the empty role |
| AuthMiddleware.BearerShape | internal/middleware/auth.go:36-43 | the header is accepted exactly when it is "Bearer ", then a token with no space, and the token is the rest |
| AuthMiddleware.BearerRoundTrip | internal/middleware/auth.go:36-43 | "Bearer " followed by a token without spaces yields exactly that token |
| AuthMiddleware.DoubleSpaceRefused | internal/middleware/auth.go:36-41 | a double space after Bearer is refused |
| AuthMiddleware.LowerCaseSchemeRefused | internal/middleware/auth.go:36-41 | a lower-case "bearer" is refused |
| AuthMiddleware.SpacedTokenRefused | internal/middleware/auth.go:36-41 | a token containing a space is refused |
| AuthMiddleware.Authenticate | internal/middleware/auth.go:25-67 | an empty header, a malformed header, a token that fails validation and a user id that is not hex each get their own message; a request is let through exactly when the token validates and its user id is 24 hex digits, and then under that id |
| AuthMiddleware.ShapeCheckedFirst | internal/middleware/auth.go:36-41 | a malformed header is refused before the token is looked at: the answer does not depend on the token parser |
| AuthMiddleware.Auth | internal/middleware/auth.go:25-69 | every refusal is a 401 that raises auth_errors by exactly one; a request let through carries the user id in its context and changes no counter |
| RoleMiddleware.RequireRole | internal/middleware/role.go:30-34 | the allow set is built from exactly the listed roles |
| RoleMiddleware.Check | internal/middleware/role.go:37-83 | 401 without a user, 403 without a profile, 403 for a role outside the allow set; otherwise next runs with the profile's role in the context |
| RoleMiddleware.CheckAdmitsListedRoles | internal/middleware/role.go:30-83 | a signed-in user with a profile gets through exactly when the profile's role is one of the listed roles |
| RoleMiddleware.RefusalNamesRoles | internal/middleware/role.go:65-78 | a refused role is answered with 403, the current role and the required roles joined by ", " |
| RoleMiddleware.NoRolesForbidsAll | internal/middleware/role.go:30-78 | with no roles listed, no request gets through |
| ResponseWriters.ApplyStatus | internal/middleware/logger.go:32-44 | after any sequence of calls, the recorded status is the first explicit status, or 200 when a write comes first; exactly one status is forwarded |
| ResponseWriters.ApplySize | internal/middleware/logger.go:41-48 | the recorded size is the sum of the bytes the underlying writes report |
| ResponseWriters.LaterHeadersIgnored | internal/middleware/logger.go:32-39 | once a header is written, further WriteHeader calls change nothing |
| ResponseWriters.ResponseWriter.constructor | internal/middleware/logger.go:60 | a fresh wrapper has status 200, size 0 and no header written |
| ResponseWriters.ResponseWriter.WriteHeader | internal/middleware/logger.go:32-39 | the first status is recorded and forwarded; later ones are ignored |
| ResponseWriters.ResponseWriter.Write | internal/middleware/logger.go:41-48 | a write before any header first records 200, then the written bytes are added to size |
| ResponseWriters.ResponseWriter.Replay | internal/middleware/logger.go:32-48 | replaying a handler's calls leaves the state the call sequence defines |
| ResponseWriters.Wrap | internal/middleware/logger.go:60-61 | after the handler's calls, the wrapper holds the first status and the total size, and forwarded that status once |
| ResponseWriters.Logger | internal/middleware/logger.go:50-77 | the health and metrics paths are not logged; every other request logs its path, its first status and the bytes written |
| RequestMetrics.SplitPath | internal/middleware/metrics.go:151-168 | the loop returns the maximal non-empty runs between slashes, in order: none empty, none with '/', and together the path without its slashes |
| RequestMetrics.SplitStep | internal/middleware/metrics.go:154-163 | each loop step of splitPath preserves the segments still to come |
| RequestMetrics.IsId | internal/middleware/metrics.go:170-181 | true exactly for 24 bytes of hex digits, upper or lower case |
| RequestMetrics.HexStringByteLength | internal/middleware/metrics.go:172 | a string of hex digits is as many bytes long as it has characters |
| RequestMetrics.NormalizeSegments | internal/middleware/metrics.go:133-140 | replacing ids by ":id" keeps the number of segments |
| RequestMetrics.NormalizePathForMetrics | internal/middleware/metrics.go:132-149 | the loop computes the normalized path: ids replaced by ":id", the other segments kept in order, each after a '/', and "/" when there are none |
| RequestMetrics.NormalizeSegmentsFixed | internal/middleware/metrics.go:133-140 | ":id" is not an id, so normalizing twice equals normalizing once |
| RequestMetrics.NormalizeSegmentsProper | internal/middleware/metrics.go:133-140 | normalized segments are still non-empty and slash-free |
| RequestMetrics.NormalizedPathSegments | internal/middleware/metrics.go:132-168 | the normalized path starts with '/' and splits back into the normalized segments of the original |
| RequestMetrics.NormalizedPathIdempotent | internal/middleware/metrics.go:132-181 | normalizing a normalized path changes nothing |
| RequestMetrics.FirstMark | internal/middleware/metrics.go:261-271 | the first '_' of the key, or -1 when there is none |
| RequestMetrics.LastMark | internal/middleware/metrics.go:262-271 | the last '_' after the first one, or -1 when there is only one |
| RequestMetrics.ParseKey | internal/middleware/metrics.go:260-278 | the loop finds the pieces ParsedKey names: method, path and status split at the first and last '_' |
| RequestMetrics.ParseKeyRoundTrip | internal/middleware/metrics.go:260-278 | a key m_p_s built with a non-empty m and no '_' in m or s parses back to (m, p, s), even when p holds '_' |
| RequestMetrics.ParseKeyRejects | internal/middleware/metrics.go:272-277 | a key starting with '_', or with fewer than two '_', parses to three empty strings |
| RequestMetrics.MetricKeyParses | internal/middleware/metrics.go:123 | the key the middleware builds parses back to its method, normalized path and status |
| RequestMetrics.Bump | internal/middleware/metrics.go:46-98 | a bump raises its own counter by one and leaves every other counter alone |
| RequestMetrics.BumpsCommute | internal/middleware/metrics.go:46-98 | two bumps give the same counters in either order |
| RequestMetrics.Metrics.constructor | internal/middleware/metrics.go:11-38 | the recorder starts with all counters zero and no request data |
| RequestMetrics.Metrics.IncUserRegistered | internal/middleware/metrics.go:46-50 | raises users_registered by one and nothing else |
| RequestMetrics.Metrics.IncLoginSuccess | internal/middleware/metrics.go:52-56 | raises login_success by one and nothing else |
| RequestMetrics.Metrics.IncLoginFailed | internal/middleware/metrics.go:58-62 | raises login_failed by one and nothing else |
| RequestMetrics.Metrics.IncAuthError | internal/middleware/metrics.go:64-68 | raises auth_errors by one and nothing else |
| RequestMetrics.Metrics.IncProfileUpdate | internal/middleware/metrics.go:70-74 | raises profile_updates by one and nothing else |
| RequestMetrics.Metrics.IncAvatarUpload | internal/middleware/metrics.go:76-80 | raises avatar_uploads by one and nothing else |
| RequestMetrics.Metrics.IncPostCreated | internal/middleware/metrics.go:82-86 | raises posts_created by one and nothing else |
| RequestMetrics.Metrics.IncPostUpdated | internal/middleware/metrics.go:88-92 | raises posts_updated by one and nothing else |
| RequestMetrics.Metrics.IncPostDeleted | internal/middleware/metrics.go:94-98 | raises posts_deleted by one and nothing else |
| RequestMetrics.Metrics.Record | internal/middleware/metrics.go:123-126 | adds one to the key's request count and appends exactly one duration and one size for it |
| RequestMetrics.Metrics.ServeHTTP | internal/middleware/metrics.go:101-129 | /metrics records nothing; any other path leaves activeRequests as it was, adds one request under the key for its method, normalized path and first status, and appends one duration and the bytes written; no counter changes |

## Left out

- Exif parsing (goexif) is library code: the orientation is an `Option<int>` input. `None`
  stands for a decode error, a missing tag or a non-integer tag.
- Image decoding, JPEG encoding, base64, CatmullRom interpolation and content sniffing are
  library code. A decoded image is its width and height, and a sniffed or declared type is a
  string field. The scalers are modelled by the rectangle and size they are given.
- resizeCover computes the height in float64 and truncates. The model uses integer floor
  division, the exact value that float64 rounding can differ from for very large images.
- ImageResize.AvatarUpload: the avatar_uploads bump and the profile `$set` of the avatar URL
  are not part of this function. The decision chain and the thumbnail geometry are;
  `Metrics.IncAvatarUpload` and `ProfileUpdate.Applied` model those two steps separately.
- ServeImage (the GET of a stored post image) is not part of this model. It only streams
  stored bytes.
- The "Failed to read image" and "Failed to process image" answers of both uploads are I/O
  and encoder failures, so they are not modelled.
- MongoDB failures are left out, except the ones the handlers react to in a way worth
  stating:
  - the like-marker insert failure in ToggleLike;
  - the user and profile insert failures and the token failure in Register;
  - the image insert failure in UploadPostImage.
  The other 500 answers on store errors are not modelled: in UpdateProfile, CreatePost,
  CreateComment, DeleteComment, the list queries and the count queries.
- The `$inc` writes whose errors the Go code ignores are modelled as succeeding.
- Blog.UpdatePost: when ensureUniqueSlug fails, the Go code keeps the old slug
  (internal/handlers/blog.go:312-315). That failure is a store error, left out as above, so
  the model always finds the free slug; the same holds for CreatePost's 500 "Error
  generating slug".
- Blog.ListPosts, Blog.MyPosts and Engagement.ListComments state the total, the page and
  the limit of a listing. They leave out which documents the page holds and in what order
  (sorted by date, skip and limit in MongoDB), and the author names joined in from profiles.
- Blog.Enriched: the author's name and avatar are copied from the profile when there is one.
  The empty-profile fallback is modelled, but the batched lookup of enrichPostsWithAuthor
  and enrichCommentsWithAuthor is not.
- Comment listings carry no author fields: CommentResponse enrichment is left out with the
  page contents.
- Each handler reads `time.Now()` at several points; the model takes one `now` per request.
- The IncPostView, IncPostLike, IncPostUnlike and IncComment helpers are not defined in
  metrics.go. Their counters are not modelled; the engagement handlers change no metric.
- Prometheus text rendering, `average` and the uptime gauge are output formatting and float
  arithmetic. Request durations are opaque `real` values.
- Concurrency is not modelled: the metrics mutex, the race between two like inserts, and
  concurrent handlers. The model is sequential.
- bcrypt and JWT signing and parsing are oracles passed as functions.
- JSON decoding is an `Option` input (`None` for a body that does not decode). JSON
  encoding, HTTP status writing and slog output are not modelled beyond the status and
  message.
- Unicode: `unicode.ToLower`, `IsLetter` and `IsDigit` are modelled exactly on Latin-1
  (U+0000 to U+00FF). Beyond it a character is taken to have no lower-case form and to be
  neither a letter nor a digit. `strings.Fields` splits on the full White_Space set.
- The int64 metric counters are unbounded integers; an overflow after 2^63 requests is
  ignored. The pagination skip does wrap (`Paging.Wrap64`).
- Login's "Profile not found" answer is modelled. `Accounts.Login` shows that it cannot
  happen while the store invariant holds.
- internal/handlers/seo.go, internal/config/config.go, cmd/api/main.go,
  internal/router/router.go and internal/handlers/users.go are not part of this model: they
  hold sitemap output, environment lookup, server start-up, route wiring and admin listings.
