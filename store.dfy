/**
 * The MongoDB collections the handlers read and write (internal/models,
 * internal/database/mongo.go), held in memory. Documents are records keyed by
 * their _id. The profiles collection is keyed by user_id, because every
 * handler looks a profile up by user_id. The post_views and post_likes
 * collections are grouped by post: each maps a post id to the set of user
 * ids holding a marker. That is exactly what the unique index on
 * (post_id, user_id) allows.
 */
module Store {
  import opened Wrappers
  import opened ObjectIds
  import opened Slugs

  /** time.Time, as the clock reading a handler is given. */
  type Time = int

  datatype User = User(id: ObjectId, email: string, passwordHash: string, createdAt: Time)

  datatype Theme = Theme(mode: string, primaryColor: string, accentColor: string)

  datatype Settings = Settings(
    currency: string, language: string, theme: Theme, firstDayOfWeek: int, dateFormat: string)

  /** models.Profile, with the role field the handlers and middleware read. */
  datatype Profile = Profile(
    id: ObjectId, userId: ObjectId, name: string, avatar: string, bio: string,
    settings: Settings, role: string, createdAt: Time, updatedAt: Time)

  /** models.BlogPost; publishedAt is None for a nil *time.Time. */
  datatype Post = Post(
    id: ObjectId, authorId: ObjectId, title: string, slug: string, content: string,
    excerpt: string, coverImage: string, category: string, tags: seq<string>, status: string,
    metaTitle: string, metaDescription: string, readingTime: int,
    viewCount: int, uniqueViewCount: int, likeCount: int, commentCount: int,
    publishedAt: Option<Time>, createdAt: Time, updatedAt: Time)

  datatype Comment = Comment(
    id: ObjectId, postId: ObjectId, userId: ObjectId, content: string, createdAt: Time, updatedAt: Time)

  /** A marker collection grouped by post_id: the user ids with a marker on each post. */
  type Markers = map<ObjectId, set<ObjectId>>

  function MarkersOf(m: Markers, post: ObjectId): set<ObjectId> {
    if post in m then m[post] else {}
  }

  /** The ids of the comments on a post. */
  function CommentsOn(comments: map<ObjectId, Comment>, post: ObjectId): set<ObjectId> {
    set c | c in comments && comments[c].postId == post
  }

  /** The counters a post document carries agree with the markers and comments stored for it. */
  predicate CountersAgree(p: Post, viewers: set<ObjectId>, likers: set<ObjectId>, comments: nat) {
    && p.likeCount == |likers|
    && p.uniqueViewCount == |viewers| <= p.viewCount
    && p.commentCount == comments
  }

  /** No two users share an email: what lets FindOne({email}) name one user. */
  predicate EmailsUnique(users: map<ObjectId, User>) {
    forall a, b | a in users && b in users && a != b :: users[a].email != users[b].email
  }

  predicate UsersOk(users: map<ObjectId, User>, profiles: map<ObjectId, Profile>) {
    && (forall id | id in users :: users[id].id == id && id != Nil)
    && EmailsUnique(users)
    && profiles.Keys == users.Keys
    && (forall u | u in profiles :: profiles[u].userId == u)
  }

  predicate SlugsUnique(posts: map<ObjectId, Post>) {
    forall a, b | a in posts && b in posts && a != b :: posts[a].slug != posts[b].slug
  }

  predicate PostsOk(posts: map<ObjectId, Post>, views: Markers, likes: Markers, comments: map<ObjectId, Comment>) {
    && (forall id | id in posts :: posts[id].id == id && id != Nil)
    && SlugsUnique(posts)
    && (forall id | id in posts ::
          CountersAgree(posts[id], MarkersOf(views, id), MarkersOf(likes, id), |CommentsOn(comments, id)|))
  }

  predicate StoreOk(users: map<ObjectId, User>, profiles: map<ObjectId, Profile>, posts: map<ObjectId, Post>,
                   views: Markers, likes: Markers, comments: map<ObjectId, Comment>) {
      && UsersOk(users, profiles)
      && PostsOk(posts, views, likes, comments)
      && (forall c | c in comments :: comments[c].id == c && c != Nil)
  }

  /** The slug of every post, by id: what slug queries on the posts collection answer from. */
  function SlugIndexOf(posts: map<ObjectId, Post>): (index: SlugIndex)
    ensures index.Keys == posts.Keys
    ensures forall id | id in posts :: index[id] == posts[id].slug
  {
    map id | id in posts :: posts[id].slug
  }

  /**
   * The post filter of a slug query: {slug}, or with publishedOnly the filter
   * {slug, status: "published"} of resolvePostBySlug.
   */
  predicate Matches(p: Post, slug: string, publishedOnly: bool) {
    p.slug == slug && (publishedOnly ==> p.status == "published")
  }

  /** The post a slug query finds, if any. */
  ghost function SlugLookup(posts: map<ObjectId, Post>, slug: string, publishedOnly: bool): (r: Option<ObjectId>)
    ensures r.Some? ==> r.value in posts && Matches(posts[r.value], slug, publishedOnly)
    ensures r.None? <==> forall id | id in posts :: !Matches(posts[id], slug, publishedOnly)
  {
    if exists id | id in posts :: Matches(posts[id], slug, publishedOnly) then
      var id :| id in posts && Matches(posts[id], slug, publishedOnly);
      Some(id)
    else None
  }

  /**
   * The post UpdatePost and DeletePost act on: by _id when the path value is
   * a hex ObjectID, by slug otherwise.
   */
  ghost function IdOrSlugLookup(posts: map<ObjectId, Post>, idOrSlug: string): Option<ObjectId> {
    var parsed := FromHex(idOrSlug);
    if parsed.Some? then (if parsed.value in posts then parsed else None)
    else SlugLookup(posts, idOrSlug, false)
  }

  class Database {
    var users: map<ObjectId, User>
    /** Profiles by user_id. */
    var profiles: map<ObjectId, Profile>
    var posts: map<ObjectId, Post>
    var views: Markers
    var likes: Markers
    var comments: map<ObjectId, Comment>

    /**
     * What the handlers keep true: documents sit under their own ids, emails
     * are unique, every user has exactly one profile, slugs are unique, and
     * every post's like, unique-view and comment counters are the numbers of
     * its markers and comments, with unique views never above views.
     */
    predicate Valid()
      reads this
    {
      StoreOk(users, profiles, posts, views, likes, comments)
    }

    /** An id primitive.NewObjectID may hand out: no document and no marker uses it. */
    predicate Unused(id: ObjectId)
      reads this
    {
      && id != Nil
      && id !in users && id !in posts && id !in comments
      && MarkersOf(views, id) == {} && MarkersOf(likes, id) == {}
      && CommentsOn(comments, id) == {}
      && forall u | u in profiles :: profiles[u].id != id
    }

    /** The empty database the API starts with. */
    constructor ()
      ensures Valid()
      ensures users == map[] && profiles == map[] && posts == map[]
      ensures views == map[] && likes == map[] && comments == map[]
    {
      users, profiles, posts := map[], map[], map[];
      views, likes, comments := map[], map[], map[];
    }

    /** Profiles().FindOne({user_id}) followed by a check that the role is "admin". */
    predicate IsAdmin(userId: ObjectId)
      reads this
    {
      userId in profiles && profiles[userId].role == "admin"
    }

    /** Posts().FindOne on a slug filter; slugs are unique, so the answer is the one post that matches. */
    method FindBySlug(slug: string, publishedOnly: bool) returns (r: Option<ObjectId>)
      requires SlugsUnique(posts)
      ensures r == SlugLookup(posts, slug, publishedOnly)
    {
      if exists id | id in posts :: Matches(posts[id], slug, publishedOnly) {
        var id :| id in posts && Matches(posts[id], slug, publishedOnly);
        var other := SlugLookup(posts, slug, publishedOnly);
        assert posts[other.value].slug == posts[id].slug;
        return Some(id);
      }
      return None;
    }

    /** The lookup of UpdatePost and DeletePost. */
    method FindByIdOrSlug(idOrSlug: string) returns (r: Option<ObjectId>)
      requires SlugsUnique(posts)
      ensures r == IdOrSlugLookup(posts, idOrSlug)
      ensures FromHex(idOrSlug).Some? ==> (r.Some? <==> FromHex(idOrSlug).value in posts)
      ensures FromHex(idOrSlug).None? && r.Some? ==> posts[r.value].slug == idOrSlug
    {
      var parsed := FromHex(idOrSlug);
      if parsed.Some? {
        return if parsed.value in posts then parsed else None;
      }
      r := FindBySlug(idOrSlug, false);
    }
  }

  /**
   * A change confined to one post keeps PostsOk: every other post keeps its
   * document, markers and comments, and the changed or added post sits under
   * its own id, holds a slug no other post holds, and has counters that agree
   * with its markers and comments.
   */
  lemma PostsOkLocal(
    posts: map<ObjectId, Post>, views: Markers, likes: Markers, comments: map<ObjectId, Comment>,
    posts': map<ObjectId, Post>, views': Markers, likes': Markers, comments': map<ObjectId, Comment>,
    id: ObjectId)
    requires PostsOk(posts, views, likes, comments)
    requires forall q | q in posts' && q != id ::
      && q in posts && posts'[q] == posts[q]
      && MarkersOf(views', q) == MarkersOf(views, q) && MarkersOf(likes', q) == MarkersOf(likes, q)
      && CommentsOn(comments', q) == CommentsOn(comments, q)
    requires id in posts' ==>
      && posts'[id].id == id && id != Nil
      && (forall q | q in posts' && q != id :: posts'[q].slug != posts'[id].slug)
      && CountersAgree(posts'[id], MarkersOf(views', id), MarkersOf(likes', id), |CommentsOn(comments', id)|)
    ensures PostsOk(posts', views', likes', comments')
  {
    forall a, b | a in posts' && b in posts' && a != b
      ensures posts'[a].slug != posts'[b].slug
    {
      if a != id && b != id {
        assert posts'[a].slug == posts[a].slug && posts'[b].slug == posts[b].slug;
      }
    }
  }

  /** Inserting a comment adds its id to the comments of its post and of no other. */
  lemma CommentsOnInsert(comments: map<ObjectId, Comment>, cid: ObjectId, c: Comment)
    requires cid !in comments
    ensures CommentsOn(comments[cid := c], c.postId) == CommentsOn(comments, c.postId) + {cid}
    ensures forall q | q != c.postId :: CommentsOn(comments[cid := c], q) == CommentsOn(comments, q)
  {
  }

  /** Deleting a comment removes its id from the comments of its post and of no other. */
  lemma CommentsOnRemove(comments: map<ObjectId, Comment>, cid: ObjectId)
    requires cid in comments
    ensures CommentsOn(comments - {cid}, comments[cid].postId) == CommentsOn(comments, comments[cid].postId) - {cid}
    ensures forall q | q != comments[cid].postId :: CommentsOn(comments - {cid}, q) == CommentsOn(comments, q)
  {
  }
}
