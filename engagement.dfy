/**
 * The engagement handlers of internal/handlers/engagement.go: views, likes,
 * stats and comments on published posts. Each handler finds its post with
 * resolvePostBySlug, then changes the post's counters and the view, like and
 * comment collections one step at a time; the Database invariant ties every
 * counter to the markers and comments stored for its post.
 *
 * The IncPostView/IncPostLike/IncPostUnlike/IncComment* metrics calls are not
 * part of this model. Store errors are not modelled, except the failed like
 * insert, which is the parameter insertFails of ToggleLike.
 */
module Engagement {
  import opened Wrappers
  import opened Text
  import opened ObjectIds
  import opened Store
  import opened Paging

  const MaxCommentBytes: int := 2000
  const CommentsPerPage: int := 20

  /** models.PostStatsResponse. */
  datatype Stats = Stats(viewCount: int, uniqueViewCount: int, likeCount: int, commentCount: int, liked: bool)

  /** models.LikeResponse. */
  datatype LikeResult = LikeResult(liked: bool, likeCount: int)

  /** The total, page and limit of a models.CommentListResponse. */
  datatype CommentPage = CommentPage(total: int, page: int, limit: int)

  // ---------------------------------------------------------------- views

  /** What RecordView does to a post and its view markers when the caller is userId (Nil when anonymous). */
  function Viewed(p: Post, viewers: set<ObjectId>, userId: ObjectId): (r: (Post, set<ObjectId>))
    ensures r.0.viewCount == p.viewCount + 1
    ensures r.1 == if userId == Nil then viewers else viewers + {userId}
    ensures r.0.uniqueViewCount == p.uniqueViewCount + (|r.1| - |viewers|)
    ensures r.0.(viewCount := p.viewCount, uniqueViewCount := p.uniqueViewCount) == p
  {
    if userId == Nil then (p.(viewCount := p.viewCount + 1), viewers)
    else if userId in viewers then (p.(viewCount := p.viewCount + 1), viewers)
    else (p.(viewCount := p.viewCount + 1, uniqueViewCount := p.uniqueViewCount + 1), viewers + {userId})
  }

  /** A view keeps the counters in agreement with the markers. */
  lemma ViewedAgrees(p: Post, viewers: set<ObjectId>, likers: set<ObjectId>, n: nat, userId: ObjectId)
    requires CountersAgree(p, viewers, likers, n)
    ensures CountersAgree(Viewed(p, viewers, userId).0, Viewed(p, viewers, userId).1, likers, n)
  {
  }

  /** A repeated view by the same user adds a view but no unique view. */
  lemma RepeatViewNotUnique(p: Post, viewers: set<ObjectId>, userId: ObjectId)
    requires userId != Nil
    ensures var (p1, v1) := Viewed(p, viewers, userId);
      var (p2, v2) := Viewed(p1, v1, userId);
      && p2.viewCount == p.viewCount + 2
      && v2 == v1
      && p2.uniqueViewCount == p1.uniqueViewCount
  {
  }

  /** RecordView. */
  method RecordView(db: Database, userId: ObjectId, slug: string) returns (reply: Reply<string>)
    requires db.Valid()
    modifies db
    ensures db.Valid()
    ensures db.users == old(db.users) && db.profiles == old(db.profiles)
    ensures db.likes == old(db.likes) && db.comments == old(db.comments)
    ensures var target := SlugLookup(old(db.posts), slug, true);
      && (slug == "" ==> reply == Err(400, "Slug is required"))
      && (slug != "" && target.None? ==> reply == Err(404, "Post not found"))
      && (reply.Err? ==> db.posts == old(db.posts) && db.views == old(db.views))
      && (slug != "" && target.Some? ==>
            var id := target.value;
            var (p, viewers) := Viewed(old(db.posts)[id], MarkersOf(old(db.views), id), userId);
            && reply == Ok(200, "View recorded")
            && db.posts == old(db.posts)[id := p]
            && db.views == if userId == Nil then old(db.views) else old(db.views)[id := viewers])
  {
    if slug == "" {
      return Err(400, "Slug is required");
    }
    var found := db.FindBySlug(slug, true);
    if found.None? {
      return Err(404, "Post not found");
    }
    CountView(db, found.value, userId);
    return Ok(200, "View recorded");
  }

  /** RecordView's writes keep the stored counters in agreement with the markers. */
  lemma ViewKeepsPostsOk(users: map<ObjectId, User>, profiles: map<ObjectId, Profile>, posts: map<ObjectId, Post>, views: Markers, likes: Markers, comments: map<ObjectId, Comment>,
                         id: ObjectId, userId: ObjectId)
    requires StoreOk(users, profiles, posts, views, likes, comments) && id in posts
    ensures var (p, viewers) := Viewed(posts[id], MarkersOf(views, id), userId);
      StoreOk(users, profiles, posts[id := p], if userId == Nil then views else views[id := viewers], likes, comments)
  {
    var (p, viewers) := Viewed(posts[id], MarkersOf(views, id), userId);
    ViewedAgrees(posts[id], MarkersOf(views, id), MarkersOf(likes, id), |CommentsOn(comments, id)|, userId);
    PostsOkLocal(posts, views, likes, comments,
      posts[id := p], if userId == Nil then views else views[id := viewers], likes, comments, id);
  }

  /** The writes of RecordView on a found post: $inc view_count, then the marker upsert for a signed-in caller. */
  method CountView(db: Database, id: ObjectId, userId: ObjectId)
    requires db.Valid() && id in db.posts
    modifies db
    ensures db.Valid()
    ensures db.users == old(db.users) && db.profiles == old(db.profiles)
    ensures db.likes == old(db.likes) && db.comments == old(db.comments)
    ensures var (p, viewers) := Viewed(old(db.posts)[id], MarkersOf(old(db.views), id), userId);
      && db.posts == old(db.posts)[id := p]
      && db.views == if userId == Nil then old(db.views) else old(db.views)[id := viewers]
  {
    ViewKeepsPostsOk(db.users, db.profiles, db.posts, db.views, db.likes, db.comments, id, userId);
    var (p, viewers) := Viewed(db.posts[id], MarkersOf(db.views, id), userId);
    db.posts, db.views := db.posts[id := p], if userId == Nil then db.views else db.views[id := viewers];
  }

  // ---------------------------------------------------------------- stats

  /** GetPostStats: the post's four counters, and whether the caller holds a like marker. */
  method GetPostStats(db: Database, userId: ObjectId, slug: string) returns (reply: Reply<Stats>)
    requires db.Valid()
    ensures var target := SlugLookup(db.posts, slug, true);
      && (slug == "" ==> reply == Err(400, "Slug is required"))
      && (slug != "" && target.None? ==> reply == Err(404, "Post not found"))
      && (slug != "" && target.Some? ==>
            var p := db.posts[target.value];
            reply == Ok(200, Stats(p.viewCount, p.uniqueViewCount, p.likeCount, p.commentCount,
                                   userId != Nil && userId in MarkersOf(db.likes, target.value))))
  {
    if slug == "" {
      return Err(400, "Slug is required");
    }
    var found := db.FindBySlug(slug, true);
    if found.None? {
      return Err(404, "Post not found");
    }
    var p := db.posts[found.value];
    var liked := userId != Nil && userId in MarkersOf(db.likes, found.value);
    return Ok(200, Stats(p.viewCount, p.uniqueViewCount, p.likeCount, p.commentCount, liked));
  }

  /** The reported like and unique-view counts are the numbers of markers the post has. */
  lemma StatsCountMarkers(db: Database, userId: ObjectId, slug: string, stats: Stats)
    requires db.Valid() && slug != ""
    requires SlugLookup(db.posts, slug, true).Some?
    requires var id := SlugLookup(db.posts, slug, true).value;
      var p := db.posts[id];
      stats == Stats(p.viewCount, p.uniqueViewCount, p.likeCount, p.commentCount,
                     userId != Nil && userId in MarkersOf(db.likes, id))
    ensures var id := SlugLookup(db.posts, slug, true).value;
      && stats.likeCount == |MarkersOf(db.likes, id)|
      && stats.uniqueViewCount == |MarkersOf(db.views, id)| <= stats.viewCount
      && stats.commentCount == |CommentsOn(db.comments, id)|
      && (stats.liked ==> stats.likeCount >= 1)
  {
    var id := SlugLookup(db.posts, slug, true).value;
    assert CountersAgree(db.posts[id], MarkersOf(db.views, id), MarkersOf(db.likes, id), |CommentsOn(db.comments, id)|);
    if stats.liked {
      assert userId in MarkersOf(db.likes, id);
    }
  }

  // ---------------------------------------------------------------- likes

  /** What a successful ToggleLike does: remove the caller's marker if there is one, else add it. */
  function Toggled(p: Post, likers: set<ObjectId>, userId: ObjectId): (r: (Post, set<ObjectId>, bool))
    ensures r.2 <==> userId !in likers
    ensures r.1 == if userId in likers then likers - {userId} else likers + {userId}
    ensures r.0.likeCount == p.likeCount + (|r.1| - |likers|)
    ensures r.0.(likeCount := p.likeCount) == p
  {
    if userId in likers then (p.(likeCount := p.likeCount - 1), likers - {userId}, false)
    else (p.(likeCount := p.likeCount + 1), likers + {userId}, true)
  }

  /** A toggle keeps the like counter equal to the number of markers. */
  lemma ToggledAgrees(p: Post, viewers: set<ObjectId>, likers: set<ObjectId>, n: nat, userId: ObjectId)
    requires CountersAgree(p, viewers, likers, n)
    ensures CountersAgree(Toggled(p, likers, userId).0, viewers, Toggled(p, likers, userId).1, n)
  {
  }

  /** Two toggles by the same user give back the post and the like markers. */
  lemma ToggleTwiceRestores(p: Post, likers: set<ObjectId>, userId: ObjectId)
    ensures var (p1, l1, liked1) := Toggled(p, likers, userId);
      var (p2, l2, liked2) := Toggled(p1, l1, userId);
      && p2 == p && l2 == likers && liked1 != liked2
  {
    var (p1, l1, liked1) := Toggled(p, likers, userId);
    if userId in likers {
      assert l1 + {userId} == likers;
    } else {
      assert l1 - {userId} == likers;
    }
  }

  /** ToggleLike; insertFails stands for an InsertOne error on the like marker. */
  method ToggleLike(db: Database, userId: ObjectId, slug: string, insertFails: bool) returns (reply: Reply<LikeResult>)
    requires db.Valid()
    modifies db
    ensures db.Valid()
    ensures db.users == old(db.users) && db.profiles == old(db.profiles)
    ensures db.views == old(db.views) && db.comments == old(db.comments)
    ensures var target := SlugLookup(old(db.posts), slug, true);
      && (userId == Nil ==> reply == Err(401, "Unauthorized"))
      && (userId != Nil && slug == "" ==> reply == Err(400, "Slug is required"))
      && (userId != Nil && slug != "" && target.None? ==> reply == Err(404, "Post not found"))
      && (reply.Err? ==> db.posts == old(db.posts) && db.likes == old(db.likes))
      && (userId != Nil && slug != "" && target.Some? ==>
            var id := target.value;
            var likers := MarkersOf(old(db.likes), id);
            var (p, likers', liked) := Toggled(old(db.posts)[id], likers, userId);
            if userId !in likers && insertFails then reply == Err(500, "Error toggling like")
            else
              && reply == Ok(200, LikeResult(liked, p.likeCount))
              && db.posts == old(db.posts)[id := p]
              && db.likes == old(db.likes)[id := likers'])
  {
    if userId == Nil {
      return Err(401, "Unauthorized");
    }
    if slug == "" {
      return Err(400, "Slug is required");
    }
    var found := db.FindBySlug(slug, true);
    if found.None? {
      return Err(404, "Post not found");
    }
    var id := found.value;
    var likers := MarkersOf(db.likes, id);
    if userId !in likers && insertFails {
      return Err(500, "Error toggling like");
    }
    var liked := ApplyToggle(db, id, userId);
    // the count reported is the one read back after the change
    return Ok(200, LikeResult(liked, db.posts[id].likeCount));
  }

  /** A toggle's writes keep the stored like counters in agreement with the like markers. */
  lemma ToggleKeepsStoreOk(users: map<ObjectId, User>, profiles: map<ObjectId, Profile>, posts: map<ObjectId, Post>,
                           views: Markers, likes: Markers, comments: map<ObjectId, Comment>, id: ObjectId, userId: ObjectId)
    requires StoreOk(users, profiles, posts, views, likes, comments) && id in posts
    ensures var (p, likers, _) := Toggled(posts[id], MarkersOf(likes, id), userId);
      StoreOk(users, profiles, posts[id := p], views, likes[id := likers], comments)
  {
    var (p, likers, _) := Toggled(posts[id], MarkersOf(likes, id), userId);
    ToggledAgrees(posts[id], MarkersOf(views, id), MarkersOf(likes, id), |CommentsOn(comments, id)|, userId);
    PostsOkLocal(posts, views, likes, comments, posts[id := p], views, likes[id := likers], comments, id);
  }

  /** The writes of a successful toggle: DeleteOne or InsertOne on the marker, then $inc like_count by -1 or 1. */
  method ApplyToggle(db: Database, id: ObjectId, userId: ObjectId) returns (liked: bool)
    requires db.Valid() && id in db.posts
    modifies db
    ensures db.Valid()
    ensures db.users == old(db.users) && db.profiles == old(db.profiles)
    ensures db.views == old(db.views) && db.comments == old(db.comments)
    ensures var (p, likers, l) := Toggled(old(db.posts)[id], MarkersOf(old(db.likes), id), userId);
      && db.posts == old(db.posts)[id := p]
      && db.likes == old(db.likes)[id := likers]
      && liked == l
  {
    ToggleKeepsStoreOk(db.users, db.profiles, db.posts, db.views, db.likes, db.comments, id, userId);
    var (p, likers, l) := Toggled(db.posts[id], MarkersOf(db.likes, id), userId);
    db.posts, db.likes := db.posts[id := p], db.likes[id := likers];
    liked := l;
  }

  // ---------------------------------------------------------------- comments

  /** The byte-length rule CreateComment applies to a comment body. */
  predicate CommentLengthOk(content: string) {
    1 <= Utf8Len(content) <= MaxCommentBytes
  }

  /** An accepted comment body holds between 1 and 2000 characters: a character takes at least one byte. */
  lemma AcceptedCommentSize(content: string)
    requires CommentLengthOk(content)
    ensures 1 <= |content| <= MaxCommentBytes
  {
    Utf8LenBounds(content);
  }

  /** CreateComment; body is None when the request body is not valid JSON. */
  method CreateComment(db: Database, userId: ObjectId, slug: string, body: Option<string>, newId: ObjectId, now: Time)
    returns (reply: Reply<Comment>)
    requires db.Valid() && db.Unused(newId)
    modifies db
    ensures db.Valid()
    ensures db.users == old(db.users) && db.profiles == old(db.profiles)
    ensures db.views == old(db.views) && db.likes == old(db.likes)
    ensures var target := SlugLookup(old(db.posts), slug, true);
      && (userId == Nil ==> reply == Err(401, "Unauthorized"))
      && (userId != Nil && slug == "" ==> reply == Err(400, "Slug is required"))
      && (userId != Nil && slug != "" && body.None? ==> reply == Err(400, "Invalid request body"))
      && (userId != Nil && slug != "" && body.Some? && !CommentLengthOk(body.value) ==>
            reply == Err(400, "Content must be between 1 and 2000 characters"))
      && (userId != Nil && slug != "" && body.Some? && CommentLengthOk(body.value) && target.None? ==>
            reply == Err(404, "Post not found"))
      && (reply.Err? ==> db.posts == old(db.posts) && db.comments == old(db.comments))
      && (reply.Ok? ==>
            && userId != Nil && slug != "" && body.Some? && CommentLengthOk(body.value) && target.Some?
            && var id := target.value;
            var c := Comment(newId, id, userId, body.value, now, now);
            && reply == Ok(201, c)
            && db.comments == old(db.comments)[newId := c]
            && db.posts == old(db.posts)[id := Recount(old(db.posts)[id], 1)])
    ensures (userId != Nil && slug != "" && body.Some? && CommentLengthOk(body.value) && SlugLookup(old(db.posts), slug, true).Some?)
      ==> reply.Ok?
  {
    if userId == Nil {
      return Err(401, "Unauthorized");
    }
    if slug == "" {
      return Err(400, "Slug is required");
    }
    if body.None? {
      return Err(400, "Invalid request body");
    }
    var content := body.value;
    if Utf8Len(content) < 1 || Utf8Len(content) > MaxCommentBytes {
      return Err(400, "Content must be between 1 and 2000 characters");
    }
    var found := db.FindBySlug(slug, true);
    if found.None? {
      return Err(404, "Post not found");
    }
    var c := Comment(newId, found.value, userId, content, now, now);
    AddComment(db, c);
    return Ok(201, c);
  }

  /** The comment_count of a post, moved by delta. */
  function Recount(p: Post, delta: int): (r: Post)
    ensures r.commentCount == p.commentCount + delta
    ensures r.(commentCount := p.commentCount) == p
  {
    p.(commentCount := p.commentCount + delta)
  }

  /** Inserting a comment and counting it on its post keeps the comment counters in agreement. */
  lemma AddKeepsStoreOk(users: map<ObjectId, User>, profiles: map<ObjectId, Profile>, posts: map<ObjectId, Post>,
                        views: Markers, likes: Markers, comments: map<ObjectId, Comment>, c: Comment)
    requires StoreOk(users, profiles, posts, views, likes, comments)
    requires c.postId in posts && c.id !in comments && c.id != Nil
    ensures StoreOk(users, profiles, posts[c.postId := Recount(posts[c.postId], 1)], views, likes, comments[c.id := c])
  {
    CommentsOnInsert(comments, c.id, c);
    PostsOkLocal(posts, views, likes, comments,
      posts[c.postId := Recount(posts[c.postId], 1)], views, likes, comments[c.id := c], c.postId);
  }

  /** The writes of CreateComment: InsertOne on the comment, then $inc comment_count on its post. */
  method AddComment(db: Database, c: Comment)
    requires db.Valid() && c.postId in db.posts && c.id !in db.comments && c.id != Nil
    modifies db
    ensures db.Valid()
    ensures db.users == old(db.users) && db.profiles == old(db.profiles)
    ensures db.views == old(db.views) && db.likes == old(db.likes)
    ensures db.comments == old(db.comments)[c.id := c]
    ensures db.posts == old(db.posts)[c.postId := Recount(old(db.posts)[c.postId], 1)]
  {
    AddKeepsStoreOk(db.users, db.profiles, db.posts, db.views, db.likes, db.comments, c);
    db.comments, db.posts := db.comments[c.id := c], db.posts[c.postId := Recount(db.posts[c.postId], 1)];
  }

  /**
   * The authorization rule of DeleteComment: the comment's author, the
   * post's author, or a user whose profile role is admin.
   */
  predicate MayDeleteComment(c: Comment, p: Post, userId: ObjectId, isAdmin: bool) {
    c.userId == userId || p.authorId == userId || isAdmin
  }

  /** DeleteComment. */
  method DeleteComment(db: Database, userId: ObjectId, slug: string, commentId: string) returns (reply: Reply<string>)
    requires db.Valid()
    modifies db
    ensures db.Valid()
    ensures db.users == old(db.users) && db.profiles == old(db.profiles)
    ensures db.views == old(db.views) && db.likes == old(db.likes)
    ensures var target := SlugLookup(old(db.posts), slug, true);
      var cid := FromHex(commentId);
      && (userId == Nil ==> reply == Err(401, "Unauthorized"))
      && (userId != Nil && cid.None? ==> reply == Err(400, "Invalid comment ID"))
      && (userId != Nil && cid.Some? && target.None? ==> reply == Err(404, "Post not found"))
      && (userId != Nil && cid.Some? && target.Some? &&
          !(cid.value in old(db.comments) && old(db.comments)[cid.value].postId == target.value) ==>
            reply == Err(404, "Comment not found"))
      && (reply.Err? ==> db.posts == old(db.posts) && db.comments == old(db.comments))
      && (userId != Nil && cid.Some? && target.Some? &&
          cid.value in old(db.comments) && old(db.comments)[cid.value].postId == target.value ==>
            var id := target.value;
            var post := old(db.posts)[id];
            if !MayDeleteComment(old(db.comments)[cid.value], post, userId, old(db.IsAdmin(userId))) then
              reply == Err(403, "Forbidden: you cannot delete this comment")
            else
              && reply == Ok(200, "Comment deleted")
              && db.comments == old(db.comments) - {cid.value}
              && db.posts == old(db.posts)[id := Recount(post, -1)])
  {
    if userId == Nil {
      return Err(401, "Unauthorized");
    }
    var cid := FromHex(commentId);
    if cid.None? {
      return Err(400, "Invalid comment ID");
    }
    var found := db.FindBySlug(slug, true);
    if found.None? {
      return Err(404, "Post not found");
    }
    var id := found.value;
    var commentKey := cid.value;
    if !(commentKey in db.comments && db.comments[commentKey].postId == id) {
      return Err(404, "Comment not found");
    }
    var post := db.posts[id];
    if !MayDeleteComment(db.comments[commentKey], post, userId, db.IsAdmin(userId)) {
      return Err(403, "Forbidden: you cannot delete this comment");
    }
    RemoveComment(db, commentKey);
    return Ok(200, "Comment deleted");
  }

  /** Deleting a comment and uncounting it on its post keeps the comment counters in agreement. */
  lemma RemoveKeepsStoreOk(users: map<ObjectId, User>, profiles: map<ObjectId, Profile>, posts: map<ObjectId, Post>,
                           views: Markers, likes: Markers, comments: map<ObjectId, Comment>, cid: ObjectId)
    requires StoreOk(users, profiles, posts, views, likes, comments)
    requires cid in comments && comments[cid].postId in posts
    ensures var id := comments[cid].postId;
      StoreOk(users, profiles, posts[id := Recount(posts[id], -1)], views, likes, comments - {cid})
  {
    var id := comments[cid].postId;
    CommentsOnRemove(comments, cid);
    PostsOkLocal(posts, views, likes, comments, posts[id := Recount(posts[id], -1)], views, likes, comments - {cid}, id);
  }

  /** The writes of DeleteComment: DeleteOne on the comment, then $inc comment_count -1 on its post. */
  method RemoveComment(db: Database, cid: ObjectId)
    requires db.Valid() && cid in db.comments && db.comments[cid].postId in db.posts
    modifies db
    ensures db.Valid()
    ensures db.users == old(db.users) && db.profiles == old(db.profiles)
    ensures db.views == old(db.views) && db.likes == old(db.likes)
    ensures db.comments == old(db.comments) - {cid}
    ensures var id := old(db.comments)[cid].postId;
      db.posts == old(db.posts)[id := Recount(old(db.posts)[id], -1)]
  {
    var id := db.comments[cid].postId;
    RemoveKeepsStoreOk(db.users, db.profiles, db.posts, db.views, db.likes, db.comments, cid);
    db.comments, db.posts := db.comments - {cid}, db.posts[id := Recount(db.posts[id], -1)];
  }

  /** ListComments: the clamped paging and the number of comments on the post. */
  method ListComments(db: Database, slug: string, page: int, limit: int) returns (reply: Reply<CommentPage>)
    requires db.Valid() && IsInt64(page)
    ensures var target := SlugLookup(db.posts, slug, true);
      && (slug == "" ==> reply == Err(400, "Slug is required"))
      && (slug != "" && target.None? ==> reply == Err(404, "Post not found"))
      && (slug != "" && target.Some? ==>
            var w := PageWindow(page, limit, CommentsPerPage);
            reply == Ok(200, CommentPage(|CommentsOn(db.comments, target.value)|, w.page, w.limit)))
    ensures reply.Ok? ==> reply.value.total == db.posts[SlugLookup(db.posts, slug, true).value].commentCount
  {
    if slug == "" {
      return Err(400, "Slug is required");
    }
    var w := PageWindow(page, limit, CommentsPerPage);
    var found := db.FindBySlug(slug, true);
    if found.None? {
      return Err(404, "Post not found");
    }
    var id := found.value;
    assert CountersAgree(db.posts[id], MarkersOf(db.views, id), MarkersOf(db.likes, id), |CommentsOn(db.comments, id)|);
    return Ok(200, CommentPage(|CommentsOn(db.comments, id)|, w.page, w.limit));
  }
}
