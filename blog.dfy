/**
 * The post handlers of internal/handlers/blog.go: listing, reading, creating,
 * updating and deleting blog posts. Drafts are visible to their author only;
 * only the author or an admin may change or delete a post; a post's slug is
 * generated from its title and made unique among the other posts.
 *
 * Store errors other than a missing document are not modelled, and neither
 * is the order or the content of a listed page.
 */
module Blog {
  import opened Wrappers
  import opened ObjectIds
  import opened Slugs
  import opened Store
  import opened Paging
  import opened RequestMetrics

  const PostsPerPage: int := 10

  /** models.CreatePostRequest; tags is None when the JSON body has no tags (a nil slice). */
  datatype CreatePostRequest = CreatePostRequest(
    title: string, content: string, excerpt: string, coverImage: string, category: string,
    tags: Option<seq<string>>, status: string, metaTitle: string, metaDescription: string)

  /** models.UpdatePostRequest: None for each field the JSON body leaves out. */
  datatype UpdatePostRequest = UpdatePostRequest(
    title: Option<string>, content: Option<string>, excerpt: Option<string>,
    coverImage: Option<string>, category: Option<string>, tags: Option<seq<string>>,
    status: Option<string>, metaTitle: Option<string>, metaDescription: Option<string>)

  /** models.PostResponse: the post with its author's name and avatar. */
  datatype PostView = PostView(post: Post, authorName: string, authorAvatar: string)

  /** The total, page and limit of a models.PostListResponse. */
  datatype PostPage = PostPage(total: int, page: int, limit: int)

  /** The two statuses a post may have. */
  predicate StatusOk(status: string) {
    status == "draft" || status == "published"
  }

  /** A published post has a publication date. */
  predicate Dated(p: Post) {
    p.status == "published" ==> p.publishedAt.Some?
  }

  /** enrichPostsWithAuthor for one post: the author's profile name and avatar, or empty strings. */
  function Enriched(profiles: map<ObjectId, Profile>, p: Post): PostView {
    if p.authorId in profiles then PostView(p, profiles[p.authorId].name, profiles[p.authorId].avatar)
    else PostView(p, "", "")
  }

  /** Who may read a post: everybody when it is published, its signed-in author otherwise. */
  predicate Visible(p: Post, userId: ObjectId) {
    p.status == "published" || (userId != Nil && userId == p.authorId)
  }

  /** Who may change or delete a post: its author, or an admin. */
  predicate MayEdit(p: Post, userId: ObjectId, isAdmin: bool) {
    p.authorId == userId || isAdmin
  }

  // ---------------------------------------------------------------- store writes

  /** Storing a post under its id keeps the store invariant when its slug is free and its counters agree. */
  lemma PutKeepsStoreOk(users: map<ObjectId, User>, profiles: map<ObjectId, Profile>, posts: map<ObjectId, Post>,
                        views: Markers, likes: Markers, comments: map<ObjectId, Comment>, p: Post)
    requires StoreOk(users, profiles, posts, views, likes, comments)
    requires p.id != Nil
    requires forall q | q in posts && q != p.id :: posts[q].slug != p.slug
    requires CountersAgree(p, MarkersOf(views, p.id), MarkersOf(likes, p.id), |CommentsOn(comments, p.id)|)
    ensures StoreOk(users, profiles, posts[p.id := p], views, likes, comments)
  {
    PostsOkLocal(posts, views, likes, comments, posts[p.id := p], views, likes, comments, p.id);
  }

  /** InsertOne or UpdateOne of a whole post document. */
  method PutPost(db: Database, p: Post)
    requires db.Valid() && p.id != Nil
    requires forall q | q in db.posts && q != p.id :: db.posts[q].slug != p.slug
    requires CountersAgree(p, MarkersOf(db.views, p.id), MarkersOf(db.likes, p.id), |CommentsOn(db.comments, p.id)|)
    modifies db
    ensures db.Valid()
    ensures db.users == old(db.users) && db.profiles == old(db.profiles)
    ensures db.views == old(db.views) && db.likes == old(db.likes) && db.comments == old(db.comments)
    ensures db.posts == old(db.posts)[p.id := p]
  {
    PutKeepsStoreOk(db.users, db.profiles, db.posts, db.views, db.likes, db.comments, p);
    db.posts := db.posts[p.id := p];
  }

  /** Deleting a post keeps the store invariant; its markers and comments stay behind. */
  lemma DropKeepsStoreOk(users: map<ObjectId, User>, profiles: map<ObjectId, Profile>, posts: map<ObjectId, Post>,
                         views: Markers, likes: Markers, comments: map<ObjectId, Comment>, id: ObjectId)
    requires StoreOk(users, profiles, posts, views, likes, comments)
    ensures StoreOk(users, profiles, posts - {id}, views, likes, comments)
  {
    PostsOkLocal(posts, views, likes, comments, posts - {id}, views, likes, comments, id);
  }

  /** DeleteOne({_id}) on the posts collection. */
  method DropPost(db: Database, id: ObjectId)
    requires db.Valid()
    modifies db
    ensures db.Valid()
    ensures db.users == old(db.users) && db.profiles == old(db.profiles)
    ensures db.views == old(db.views) && db.likes == old(db.likes) && db.comments == old(db.comments)
    ensures db.posts == old(db.posts) - {id}
  {
    DropKeepsStoreOk(db.users, db.profiles, db.posts, db.views, db.likes, db.comments, id);
    db.posts := db.posts - {id};
  }

  // ---------------------------------------------------------------- reading

  /** GetPostBySlug: any post with the slug, but a draft only for its author. */
  method GetPostBySlug(db: Database, userId: ObjectId, slug: string) returns (reply: Reply<PostView>)
    requires db.Valid()
    ensures var target := SlugLookup(db.posts, slug, false);
      && (slug == "" ==> reply == Err(400, "Slug is required"))
      && (slug != "" && target.None? ==> reply == Err(404, "Post not found"))
      && (slug != "" && target.Some? ==>
            var p := db.posts[target.value];
            reply == if Visible(p, userId) then Ok(200, Enriched(db.profiles, p)) else Err(404, "Post not found"))
    ensures reply.Ok? ==> reply.value.post.slug == slug && Visible(reply.value.post, userId)
  {
    if slug == "" {
      return Err(400, "Slug is required");
    }
    var found := db.FindBySlug(slug, false);
    if found.None? {
      return Err(404, "Post not found");
    }
    var p := db.posts[found.value];
    if p.status != "published" {
      if userId == Nil || userId != p.authorId {
        return Err(404, "Post not found");
      }
    }
    return Ok(200, Enriched(db.profiles, p));
  }

  /** A draft is never shown to anyone but its signed-in author. */
  lemma DraftHiddenFromOthers(p: Post, userId: ObjectId)
    requires p.status != "published" && (userId == Nil || userId != p.authorId)
    ensures !Visible(p, userId)
  {
  }

  /** The filter of ListPosts: published, with the category and the tag when they are given. */
  predicate Listed(p: Post, category: string, tag: string) {
    && p.status == "published"
    && (category != "" ==> p.category == category)
    && (tag != "" ==> tag in p.tags)
  }

  /** The ids of the posts ListPosts counts. */
  function ListedIds(posts: map<ObjectId, Post>, category: string, tag: string): (ids: set<ObjectId>)
    ensures forall id :: id in ids <==> id in posts && Listed(posts[id], category, tag)
  {
    set id | id in posts && Listed(posts[id], category, tag)
  }

  /** The ids of the posts MyPosts counts: all of the caller's posts, drafts included. */
  function AuthoredIds(posts: map<ObjectId, Post>, userId: ObjectId): (ids: set<ObjectId>)
    ensures forall id :: id in ids <==> id in posts && posts[id].authorId == userId
  {
    set id | id in posts && posts[id].authorId == userId
  }

  /** ListPosts: the number of matching posts and the clamped paging. */
  method ListPosts(db: Database, page: int, limit: int, category: string, tag: string) returns (reply: Reply<PostPage>)
    requires IsInt64(page)
    ensures var w := PageWindow(page, limit, PostsPerPage);
      reply == Ok(200, PostPage(|ListedIds(db.posts, category, tag)|, w.page, w.limit))
    ensures 1 <= reply.value.page && 1 <= reply.value.limit <= MaxLimit
  {
    var w := PageWindow(page, limit, PostsPerPage);
    return Ok(200, PostPage(|ListedIds(db.posts, category, tag)|, w.page, w.limit));
  }

  /** MyPosts: the number of the caller's posts and the clamped paging. */
  method MyPosts(db: Database, userId: ObjectId, page: int, limit: int) returns (reply: Reply<PostPage>)
    requires IsInt64(page)
    ensures userId == Nil ==> reply == Err(401, "Unauthorized")
    ensures userId != Nil ==>
      var w := PageWindow(page, limit, PostsPerPage);
      reply == Ok(200, PostPage(|AuthoredIds(db.posts, userId)|, w.page, w.limit))
  {
    if userId == Nil {
      return Err(401, "Unauthorized");
    }
    var w := PageWindow(page, limit, PostsPerPage);
    return Ok(200, PostPage(|AuthoredIds(db.posts, userId)|, w.page, w.limit));
  }

  /** Every post ListPosts counts is one a visitor may read. */
  lemma ListedAreVisible(posts: map<ObjectId, Post>, category: string, tag: string, id: ObjectId, userId: ObjectId)
    requires id in ListedIds(posts, category, tag)
    ensures Visible(posts[id], userId)
  {
  }

  /** Narrowing the filter never raises the total. */
  lemma FilterNarrows(posts: map<ObjectId, Post>, category: string, tag: string)
    ensures |ListedIds(posts, category, tag)| <= |ListedIds(posts, "", "")|
  {
    SubsetSize(ListedIds(posts, category, tag), ListedIds(posts, "", ""));
  }

  lemma {:induction false} SubsetSize(a: set<ObjectId>, b: set<ObjectId>)
    requires a <= b
    ensures |a| <= |b|
    decreases |a|
  {
    if a != {} {
      var x :| x in a;
      SubsetSize(a - {x}, b - {x});
    }
  }

  // ---------------------------------------------------------------- creating

  /** The status CreatePost stores: "draft" when none is given. */
  function EffectiveStatus(status: string): (s: string)
    ensures status != "" ==> s == status
    ensures s != ""
  {
    if status == "" then "draft" else status
  }

  /** The document CreatePost inserts, with counters at zero and the date set only when published. */
  function NewPost(req: CreatePostRequest, id: ObjectId, authorId: ObjectId, slug: string, now: Time): (p: Post)
    requires StatusOk(EffectiveStatus(req.status))
    ensures p.id == id && p.authorId == authorId && p.slug == slug
    ensures p.publishedAt.Some? <==> p.status == "published"
    ensures StatusOk(p.status) && Dated(p)
    ensures p.tags == (if req.tags.Some? then req.tags.value else [])
    ensures p.viewCount == p.uniqueViewCount == p.likeCount == p.commentCount == 0
    ensures p.readingTime == ReadingTime(req.content) >= 1
  {
    var status := EffectiveStatus(req.status);
    Post(id, authorId, req.title, slug, req.content, req.excerpt, req.coverImage, req.category,
      if req.tags.Some? then req.tags.value else [], status, req.metaTitle, req.metaDescription,
      ReadingTime(req.content), 0, 0, 0, 0, if status == "published" then Some(now) else None, now, now)
  }

  /** CreatePost; req is None when the body is not valid JSON, newId is the NewObjectID value. */
  method CreatePost(db: Database, metrics: Metrics, userId: ObjectId, req: Option<CreatePostRequest>, newId: ObjectId, now: Time)
    returns (reply: Reply<PostView>)
    requires db.Valid() && db.Unused(newId)
    modifies db, metrics
    ensures db.Valid()
    ensures db.users == old(db.users) && db.profiles == old(db.profiles)
    ensures db.views == old(db.views) && db.likes == old(db.likes) && db.comments == old(db.comments)
    ensures userId == Nil ==> reply == Err(401, "Unauthorized")
    ensures userId != Nil && req.None? ==> reply == Err(400, "Invalid request body")
    ensures userId != Nil && req.Some? && (req.value.title == "" || req.value.content == "") ==>
      reply == Err(400, "Title and content are required")
    ensures userId != Nil && req.Some? && req.value.title != "" && req.value.content != "" &&
            !StatusOk(EffectiveStatus(req.value.status)) ==>
      reply == Err(400, "Status must be 'draft' or 'published'")
    ensures (&& userId != Nil && req.Some? && req.value.title != "" && req.value.content != ""
             && StatusOk(EffectiveStatus(req.value.status))) ==> reply.Ok?
    ensures reply.Err? ==>
      db.posts == old(db.posts) && metrics.Counts() == old(metrics.Counts())
    ensures reply.Ok? ==>
      && userId != Nil && req.Some? && req.value.title != "" && req.value.content != ""
      && StatusOk(EffectiveStatus(req.value.status))
      && var p := reply.value.post;
      && FirstFree(SlugIndexOf(old(db.posts)), Slug(req.value.title), Nil, p.slug)
      && p == NewPost(req.value, newId, userId, p.slug, now)
      && reply == Ok(201, Enriched(db.profiles, p))
      && db.posts == old(db.posts)[newId := p]
      && metrics.Counts() == Bump(old(metrics.Counts()), PostsCreated)
    ensures metrics.RequestData() == old(metrics.RequestData())
  {
    if userId == Nil {
      return Err(401, "Unauthorized");
    }
    if req.None? {
      return Err(400, "Invalid request body");
    }
    var r := req.value;
    if r.title == "" || r.content == "" {
      return Err(400, "Title and content are required");
    }
    var status := EffectiveStatus(r.status);
    if status != "draft" && status != "published" {
      return Err(400, "Status must be 'draft' or 'published'");
    }
    var slug := GenerateSlug(r.title);
    slug := EnsureUniqueSlug(SlugIndexOf(db.posts), slug, Nil);
    var p := NewPost(r, newId, userId, slug, now);
    PutPost(db, p);
    metrics.IncPostCreated();
    return Ok(201, Enriched(db.profiles, p));
  }

  // ---------------------------------------------------------------- updating

  /** The new value of a field: the request's when it is given, the stored one otherwise. */
  function Pick<T>(given: Option<T>, stored: T): T {
    if given.Some? then given.value else stored
  }

  /**
   * The document UpdatePost leaves: the given fields set, the slug regenerated
   * with the title, the reading time recomputed with the content, updated_at
   * set, and published_at set only on the first publication.
   */
  function Revised(p: Post, req: UpdatePostRequest, newSlug: string, now: Time): (r: Post)
    requires req.status.Some? ==> StatusOk(req.status.value)
    ensures r.id == p.id && r.authorId == p.authorId && r.createdAt == p.createdAt
    ensures r.viewCount == p.viewCount && r.uniqueViewCount == p.uniqueViewCount
    ensures r.likeCount == p.likeCount && r.commentCount == p.commentCount
    ensures r.updatedAt == now
    ensures p.publishedAt.Some? ==> r.publishedAt == p.publishedAt
    ensures r.publishedAt.Some? ==> p.publishedAt.Some? || r.status == "published"
    ensures Dated(p) ==> Dated(r)
    ensures req.title.None? ==> r.slug == p.slug
  {
    var status := Pick(req.status, p.status);
    p.(title := Pick(req.title, p.title),
       slug := if req.title.Some? then newSlug else p.slug,
       content := Pick(req.content, p.content),
       readingTime := if req.content.Some? then ReadingTime(req.content.value) else p.readingTime,
       excerpt := Pick(req.excerpt, p.excerpt),
       coverImage := Pick(req.coverImage, p.coverImage),
       category := Pick(req.category, p.category),
       tags := Pick(req.tags, p.tags),
       metaTitle := Pick(req.metaTitle, p.metaTitle),
       metaDescription := Pick(req.metaDescription, p.metaDescription),
       status := status,
       publishedAt := if req.status == Some("published") && p.publishedAt.None? then Some(now) else p.publishedAt,
       updatedAt := now)
  }

  /** A request with no fields only moves updated_at. */
  lemma EmptyUpdateTouchesOnly(p: Post, newSlug: string, now: Time)
    ensures Revised(p, UpdatePostRequest(None, None, None, None, None, None, None, None, None), newSlug, now)
      == p.(updatedAt := now)
  {
  }

  /** Publishing a draft that was never published dates it now; re-publishing keeps the first date. */
  lemma PublishDates(p: Post, req: UpdatePostRequest, newSlug: string, now: Time)
    requires req.status == Some("published")
    ensures p.publishedAt.None? ==> Revised(p, req, newSlug, now).publishedAt == Some(now)
    ensures p.publishedAt.Some? ==> Revised(p, req, newSlug, now).publishedAt == p.publishedAt
    ensures Revised(p, req, newSlug, now).status == "published"
  {
  }

  /** Taking a post back to draft keeps its publication date. */
  lemma UnpublishKeepsDate(p: Post, req: UpdatePostRequest, newSlug: string, now: Time)
    requires req.status == Some("draft")
    ensures Revised(p, req, newSlug, now).publishedAt == p.publishedAt
    ensures Revised(p, req, newSlug, now).status == "draft"
  {
  }

  /** UpdatePost; postRef is the {id} path value, a hex ObjectID or a slug; req is None for a body that is not JSON. */
  method UpdatePost(db: Database, metrics: Metrics, userId: ObjectId, postRef: string, req: Option<UpdatePostRequest>, now: Time)
    returns (reply: Reply<PostView>)
    requires db.Valid()
    modifies db, metrics
    ensures db.Valid()
    ensures db.users == old(db.users) && db.profiles == old(db.profiles)
    ensures db.views == old(db.views) && db.likes == old(db.likes) && db.comments == old(db.comments)
    ensures var target := IdOrSlugLookup(old(db.posts), postRef);
      && (userId == Nil ==> reply == Err(401, "Unauthorized"))
      && (userId != Nil && req.None? ==> reply == Err(400, "Invalid request body"))
      && (userId != Nil && req.Some? && target.None? ==> reply == Err(404, "Post not found"))
      && (userId != Nil && req.Some? && target.Some? &&
          !MayEdit(old(db.posts)[target.value], userId, old(db.IsAdmin(userId))) ==>
            reply == Err(403, "Forbidden: you can only edit your own posts"))
      && (userId != Nil && req.Some? && target.Some? &&
          MayEdit(old(db.posts)[target.value], userId, old(db.IsAdmin(userId))) &&
          req.value.status.Some? && !StatusOk(req.value.status.value) ==>
            reply == Err(400, "Status must be 'draft' or 'published'"))
      && (userId != Nil && req.Some? && target.Some? &&
          MayEdit(old(db.posts)[target.value], userId, old(db.IsAdmin(userId))) &&
          (req.value.status.Some? ==> StatusOk(req.value.status.value)) ==>
            reply.Ok?)
    ensures reply.Err? ==>
      db.posts == old(db.posts) && metrics.Counts() == old(metrics.Counts())
    ensures reply.Ok? ==>
      && userId != Nil && req.Some? && IdOrSlugLookup(old(db.posts), postRef).Some?
      && var id := IdOrSlugLookup(old(db.posts), postRef).value;
      && MayEdit(old(db.posts)[id], userId, old(db.IsAdmin(userId)))
      && (req.value.status.Some? ==> StatusOk(req.value.status.value))
      && var p := reply.value.post;
      && (req.value.title.Some? ==> FirstFree(SlugIndexOf(old(db.posts)), Slug(req.value.title.value), id, p.slug))
      && p == Revised(old(db.posts)[id], req.value, p.slug, now)
      && reply == Ok(200, Enriched(db.profiles, p))
      && db.posts == old(db.posts)[id := p]
      && metrics.Counts() == Bump(old(metrics.Counts()), PostsUpdated)
    ensures metrics.RequestData() == old(metrics.RequestData())
  {
    if userId == Nil {
      return Err(401, "Unauthorized");
    }
    if req.None? {
      return Err(400, "Invalid request body");
    }
    var r := req.value;
    var found := db.FindByIdOrSlug(postRef);
    if found.None? {
      return Err(404, "Post not found");
    }
    var id := found.value;
    if db.posts[id].authorId != userId && !db.IsAdmin(userId) {
      return Err(403, "Forbidden: you can only edit your own posts");
    }
    reply := EditPost(db, id, r, now);
    if reply.Ok? {
      metrics.IncPostUpdated();
    }
  }

  /** The part of UpdatePost after the ownership check: the slug, the status check and UpdateOne. */
  method EditPost(db: Database, id: ObjectId, req: UpdatePostRequest, now: Time)
    returns (reply: Reply<PostView>)
    requires db.Valid() && id in db.posts
    modifies db
    ensures db.Valid()
    ensures db.users == old(db.users) && db.profiles == old(db.profiles)
    ensures db.views == old(db.views) && db.likes == old(db.likes) && db.comments == old(db.comments)
    ensures req.status.Some? && !StatusOk(req.status.value) ==>
      reply == Err(400, "Status must be 'draft' or 'published'") && db.posts == old(db.posts)
    ensures reply.Ok? <==> (req.status.Some? ==> StatusOk(req.status.value))
    ensures reply.Ok? ==>
      var p := reply.value.post;
      && (req.title.Some? ==> FirstFree(SlugIndexOf(old(db.posts)), Slug(req.title.value), id, p.slug))
      && p == Revised(old(db.posts)[id], req, p.slug, now)
      && reply == Ok(200, Enriched(db.profiles, p))
      && db.posts == old(db.posts)[id := p]
  {
    var post := db.posts[id];
    var newSlug := post.slug;
    if req.title.Some? {
      newSlug := GenerateSlug(req.title.value);
      newSlug := EnsureUniqueSlug(SlugIndexOf(db.posts), newSlug, id);
    }
    if req.status.Some? && req.status.value != "draft" && req.status.value != "published" {
      return Err(400, "Status must be 'draft' or 'published'");
    }
    var updated := Revised(post, req, newSlug, now);
    assert CountersAgree(post, MarkersOf(db.views, id), MarkersOf(db.likes, id), |CommentsOn(db.comments, id)|);
    PutPost(db, updated);
    return Ok(200, Enriched(db.profiles, updated));
  }

  // ---------------------------------------------------------------- deleting

  /** DeletePost; postRef is the {id} path value, a hex ObjectID or a slug. */
  method DeletePost(db: Database, metrics: Metrics, userId: ObjectId, postRef: string) returns (reply: Reply<string>)
    requires db.Valid()
    modifies db, metrics
    ensures db.Valid()
    ensures db.users == old(db.users) && db.profiles == old(db.profiles)
    ensures db.views == old(db.views) && db.likes == old(db.likes) && db.comments == old(db.comments)
    ensures var target := IdOrSlugLookup(old(db.posts), postRef);
      && (userId == Nil ==> reply == Err(401, "Unauthorized"))
      && (userId != Nil && target.None? ==> reply == Err(404, "Post not found"))
      && (userId != Nil && target.Some? ==>
            if !MayEdit(old(db.posts)[target.value], userId, old(db.IsAdmin(userId))) then
              reply == Err(403, "Forbidden: you can only delete your own posts")
            else
              && reply == Ok(200, "Post deleted")
              && db.posts == old(db.posts) - {target.value}
              && metrics.Counts() == Bump(old(metrics.Counts()), PostsDeleted))
    ensures reply.Err? ==>
      db.posts == old(db.posts) && metrics.Counts() == old(metrics.Counts())
    ensures metrics.RequestData() == old(metrics.RequestData())
  {
    if userId == Nil {
      return Err(401, "Unauthorized");
    }
    var found := db.FindByIdOrSlug(postRef);
    if found.None? {
      return Err(404, "Post not found");
    }
    var id := found.value;
    if db.posts[id].authorId != userId && !db.IsAdmin(userId) {
      return Err(403, "Forbidden: you can only delete your own posts");
    }
    DropPost(db, id);
    metrics.IncPostDeleted();
    return Ok(200, "Post deleted");
  }
}
