/**
 * GetProfile and UpdateProfile of internal/handlers/profile.go. UpdateProfile
 * collects a $set document field by field: updated_at always, every other
 * field only when the request gives it a non-empty (for first_day_of_week a
 * non-zero) value. The update then applies that document to the caller's
 * profile.
 */
module ProfileUpdate {
  import opened Wrappers
  import opened ObjectIds
  import opened Store
  import opened RequestMetrics

  /** models.UpdateProfileRequest; an absent JSON field decodes to "" or 0. */
  datatype UpdateProfileRequest = UpdateProfileRequest(name: string, avatar: string, bio: string, settings: Settings)

  /** A value in the $set document. */
  datatype FieldValue = Text(text: string) | Number(number: int) | Stamp(time: Time)

  /** The keys of the $set document. */
  datatype Key =
    | UpdatedAt | Name | Avatar | Bio | Currency | Language
    | ThemeMode | PrimaryColor | AccentColor | FirstDayOfWeek | DateFormat

  /** The BSON field path of each key. */
  function Path(k: Key): string {
    match k
    case UpdatedAt => "updated_at"
    case Name => "name"
    case Avatar => "avatar"
    case Bio => "bio"
    case Currency => "settings.currency"
    case Language => "settings.language"
    case ThemeMode => "settings.theme.mode"
    case PrimaryColor => "settings.theme.primary_color"
    case AccentColor => "settings.theme.accent_color"
    case FirstDayOfWeek => "settings.first_day_of_week"
    case DateFormat => "settings.date_format"
  }

  /** The request's value for a key, when the handler sets that key from the request. */
  function Given(req: UpdateProfileRequest, k: Key): (v: Option<FieldValue>)
    ensures k == UpdatedAt ==> v.None?
  {
    var s := req.settings;
    match k
    case UpdatedAt => None
    case Name => if req.name != "" then Some(Text(req.name)) else None
    case Avatar => if req.avatar != "" then Some(Text(req.avatar)) else None
    case Bio => if req.bio != "" then Some(Text(req.bio)) else None
    case Currency => if s.currency != "" then Some(Text(s.currency)) else None
    case Language => if s.language != "" then Some(Text(s.language)) else None
    case ThemeMode => if s.theme.mode != "" then Some(Text(s.theme.mode)) else None
    case PrimaryColor => if s.theme.primaryColor != "" then Some(Text(s.theme.primaryColor)) else None
    case AccentColor => if s.theme.accentColor != "" then Some(Text(s.theme.accentColor)) else None
    case FirstDayOfWeek => if s.firstDayOfWeek != 0 then Some(Number(s.firstDayOfWeek)) else None
    case DateFormat => if s.dateFormat != "" then Some(Text(s.dateFormat)) else None
  }

  /**
   * The $set document as a value: updated_at, always present, and one
   * optional entry per other key (None when the key is absent).
   */
  datatype SetDoc = SetDoc(
    updatedAt: Time, name: Option<string>, avatar: Option<string>, bio: Option<string>,
    currency: Option<string>, language: Option<string>, themeMode: Option<string>,
    primaryColor: Option<string>, accentColor: Option<string>, firstDayOfWeek: Option<int>,
    dateFormat: Option<string>)

  function AsText(v: Option<string>): Option<FieldValue> {
    if v.Some? then Some(Text(v.value)) else None
  }

  /** The entry a document holds under a key. */
  function Get(doc: SetDoc, k: Key): Option<FieldValue> {
    match k
    case UpdatedAt => Some(Stamp(doc.updatedAt))
    case Name => AsText(doc.name)
    case Avatar => AsText(doc.avatar)
    case Bio => AsText(doc.bio)
    case Currency => AsText(doc.currency)
    case Language => AsText(doc.language)
    case ThemeMode => AsText(doc.themeMode)
    case PrimaryColor => AsText(doc.primaryColor)
    case AccentColor => AsText(doc.accentColor)
    case FirstDayOfWeek => if doc.firstDayOfWeek.Some? then Some(Number(doc.firstDayOfWeek.value)) else None
    case DateFormat => AsText(doc.dateFormat)
  }

  /** The entry UpdateProfile's document should hold under a key: now for updated_at, the given value otherwise. */
  function Intended(req: UpdateProfileRequest, now: Time, k: Key): Option<FieldValue> {
    if k == UpdatedAt then Some(Stamp(now)) else Given(req, k)
  }

  /** The entry of a text field the handler sets only when the request value is non-empty. */
  function TextEntry(given: string): (e: Option<string>)
    ensures e.Some? <==> given != ""
    ensures e.Some? ==> e.value == given
  {
    if given != "" then Some(given) else None
  }

  /** The name, avatar and bio entries of the $set document. */
  method ProfileEntries(req: UpdateProfileRequest) returns (name: Option<string>, avatar: Option<string>, bio: Option<string>)
    ensures name == TextEntry(req.name)
    ensures avatar == TextEntry(req.avatar)
    ensures bio == TextEntry(req.bio)
  {
    name, avatar, bio := None, None, None;
    if req.name != "" {
      name := Some(req.name);
    }
    if req.avatar != "" {
      avatar := Some(req.avatar);
    }
    if req.bio != "" {
      bio := Some(req.bio);
    }
  }

  /** The settings.* entries of the $set document. */
  method SettingsEntries(s: Settings)
    returns (currency: Option<string>, language: Option<string>, themeMode: Option<string>,
             primaryColor: Option<string>, accentColor: Option<string>, firstDayOfWeek: Option<int>,
             dateFormat: Option<string>)
    ensures currency == TextEntry(s.currency)
    ensures language == TextEntry(s.language)
    ensures themeMode == TextEntry(s.theme.mode)
    ensures primaryColor == TextEntry(s.theme.primaryColor)
    ensures accentColor == TextEntry(s.theme.accentColor)
    ensures firstDayOfWeek == (if s.firstDayOfWeek != 0 then Some(s.firstDayOfWeek) else None)
    ensures dateFormat == TextEntry(s.dateFormat)
  {
    currency, language, themeMode, primaryColor, accentColor, firstDayOfWeek, dateFormat :=
      None, None, None, None, None, None, None;
    if s.currency != "" {
      currency := Some(s.currency);
    }
    if s.language != "" {
      language := Some(s.language);
    }
    if s.theme.mode != "" {
      themeMode := Some(s.theme.mode);
    }
    if s.theme.primaryColor != "" {
      primaryColor := Some(s.theme.primaryColor);
    }
    if s.theme.accentColor != "" {
      accentColor := Some(s.theme.accentColor);
    }
    if s.firstDayOfWeek != 0 {
      firstDayOfWeek := Some(s.firstDayOfWeek);
    }
    if s.dateFormat != "" {
      dateFormat := Some(s.dateFormat);
    }
  }

  /** doc holds updated_at = now and exactly the entries the request gives. */
  predicate Built(doc: SetDoc, req: UpdateProfileRequest, now: Time) {
    var s := req.settings;
    && doc.updatedAt == now
    && doc.name == TextEntry(req.name) && doc.avatar == TextEntry(req.avatar) && doc.bio == TextEntry(req.bio)
    && doc.currency == TextEntry(s.currency) && doc.language == TextEntry(s.language)
    && doc.themeMode == TextEntry(s.theme.mode) && doc.primaryColor == TextEntry(s.theme.primaryColor)
    && doc.accentColor == TextEntry(s.theme.accentColor)
    && doc.firstDayOfWeek == (if s.firstDayOfWeek != 0 then Some(s.firstDayOfWeek) else None)
    && doc.dateFormat == TextEntry(s.dateFormat)
  }

  /**
   * The $set document of UpdateProfile: updated_at, then each request field
   * the handler finds non-empty (first_day_of_week: non-zero).
   */
  method BuildSetFields(req: UpdateProfileRequest, now: Time) returns (doc: SetDoc)
    ensures Built(doc, req, now)
  {
    var name, avatar, bio := ProfileEntries(req);
    var currency, language, themeMode, primaryColor, accentColor, firstDayOfWeek, dateFormat :=
      SettingsEntries(req.settings);
    doc := SetDoc(now, name, avatar, bio, currency, language, themeMode, primaryColor, accentColor, firstDayOfWeek, dateFormat);
  }

  /** Seen key by key, the document holds updated_at = now and a key other than it exactly when the request gives that key. */
  lemma BuiltEntries(doc: SetDoc, req: UpdateProfileRequest, now: Time)
    requires Built(doc, req, now)
    ensures forall k :: Get(doc, k) == Intended(req, now, k)
  {
    forall k
      ensures Get(doc, k) == Intended(req, now, k)
    {
      match k
      case UpdatedAt =>
      case Name =>
      case Avatar =>
      case Bio =>
      case Currency =>
      case Language =>
      case ThemeMode =>
      case PrimaryColor =>
      case AccentColor =>
      case FirstDayOfWeek =>
      case DateFormat =>
    }
  }

  /** UpdateOne({user_id}, {$set: doc}) on one profile document. */
  function Applied(p: Profile, doc: SetDoc): (r: Profile)
    ensures r.id == p.id && r.userId == p.userId && r.role == p.role && r.createdAt == p.createdAt
  {
    var s := p.settings;
    p.(name := doc.name.GetOr(p.name),
       avatar := doc.avatar.GetOr(p.avatar),
       bio := doc.bio.GetOr(p.bio),
       settings := Settings(
         doc.currency.GetOr(s.currency),
         doc.language.GetOr(s.language),
         Theme(doc.themeMode.GetOr(s.theme.mode),
               doc.primaryColor.GetOr(s.theme.primaryColor),
               doc.accentColor.GetOr(s.theme.accentColor)),
         doc.firstDayOfWeek.GetOr(s.firstDayOfWeek),
         doc.dateFormat.GetOr(s.dateFormat)),
       updatedAt := doc.updatedAt)
  }

  /** The empty-or-given rule for one text field. */
  function Keep(given: string, stored: string): string {
    if given != "" then given else stored
  }

  /**
   * r is what UpdateProfile leaves of p: every non-empty request field
   * replaces the stored one, every empty one leaves it, updated_at is now,
   * and the ids, the role and created_at stay.
   */
  predicate UpdatedFrom(r: Profile, p: Profile, req: UpdateProfileRequest, now: Time) {
    var s := req.settings;
    && r.id == p.id && r.userId == p.userId && r.role == p.role && r.createdAt == p.createdAt
    && r.name == Keep(req.name, p.name) && r.avatar == Keep(req.avatar, p.avatar) && r.bio == Keep(req.bio, p.bio)
    && r.settings.currency == Keep(s.currency, p.settings.currency)
    && r.settings.language == Keep(s.language, p.settings.language)
    && r.settings.theme.mode == Keep(s.theme.mode, p.settings.theme.mode)
    && r.settings.theme.primaryColor == Keep(s.theme.primaryColor, p.settings.theme.primaryColor)
    && r.settings.theme.accentColor == Keep(s.theme.accentColor, p.settings.theme.accentColor)
    && r.settings.firstDayOfWeek == (if s.firstDayOfWeek != 0 then s.firstDayOfWeek else p.settings.firstDayOfWeek)
    && r.settings.dateFormat == Keep(s.dateFormat, p.settings.dateFormat)
    && r.updatedAt == now
  }

  /** Applying the $set document UpdateProfile builds gives the profile UpdatedFrom describes. */
  lemma UpdateEffect(p: Profile, req: UpdateProfileRequest, now: Time, doc: SetDoc)
    requires Built(doc, req, now)
    ensures UpdatedFrom(Applied(p, doc), p, req, now)
  {
  }

  /**
   * Because 0 means "not given", a request can never store first_day_of_week
   * 0 (Sunday) over another stored value.
   */
  lemma SundayNotSettable(p: Profile, req: UpdateProfileRequest, now: Time, doc: SetDoc)
    requires Built(doc, req, now)
    requires p.settings.firstDayOfWeek != 0
    ensures Applied(p, doc).settings.firstDayOfWeek != 0
  {
    UpdateEffect(p, req, now, doc);
  }

  /** An empty request only moves updated_at. */
  lemma EmptyRequestTouchesOnly(r: Profile, p: Profile, now: Time)
    requires UpdatedFrom(r, p, UpdateProfileRequest("", "", "", Settings("", "", Theme("", "", ""), 0, "")), now)
    ensures r == p.(updatedAt := now)
  {
  }

  /** Replacing a profile by one with the same user id keeps the store invariant. */
  lemma ProfileKeepsStoreOk(users: map<ObjectId, User>, profiles: map<ObjectId, Profile>, posts: map<ObjectId, Post>,
                            views: Markers, likes: Markers, comments: map<ObjectId, Comment>, p: Profile)
    requires StoreOk(users, profiles, posts, views, likes, comments) && p.userId in profiles
    ensures StoreOk(users, profiles[p.userId := p], posts, views, likes, comments)
  {
  }

  /** GetProfile: the caller's profile. */
  method GetProfile(db: Database, userId: ObjectId) returns (reply: Reply<Profile>)
    ensures userId == Nil ==> reply == Err(401, "Unauthorized")
    ensures userId != Nil && userId !in db.profiles ==> reply == Err(404, "Profile not found")
    ensures reply.Ok? <==> userId != Nil && userId in db.profiles
    ensures reply.Ok? ==> reply == Ok(200, db.profiles[userId])
    ensures reply.Ok? && db.Valid() ==> reply.value.userId == userId
  {
    if userId == Nil {
      return Err(401, "Unauthorized");
    }
    if userId !in db.profiles {
      return Err(404, "Profile not found");
    }
    return Ok(200, db.profiles[userId]);
  }

  /** UpdateProfile; req is None for a body that is not JSON. */
  method UpdateProfile(db: Database, metrics: Metrics, userId: ObjectId, req: Option<UpdateProfileRequest>, now: Time)
    returns (reply: Reply<Profile>)
    requires db.Valid()
    modifies db, metrics
    ensures db.Valid()
    ensures db.users == old(db.users) && db.posts == old(db.posts)
    ensures db.views == old(db.views) && db.likes == old(db.likes) && db.comments == old(db.comments)
    ensures metrics.RequestData() == old(metrics.RequestData())
    ensures userId == Nil ==> reply == Err(401, "Unauthorized")
    ensures userId != Nil && req.None? ==> reply == Err(400, "Invalid request body")
    ensures userId != Nil && req.Some? && userId !in old(db.profiles) ==> reply == Err(404, "Profile not found")
    ensures userId != Nil && req.Some? && userId in old(db.profiles) ==> reply.Ok?
    ensures reply.Err? ==> db.profiles == old(db.profiles) && metrics.Counts() == old(metrics.Counts())
    ensures reply.Ok? ==>
      && userId != Nil && req.Some? && userId in old(db.profiles)
      && var p := reply.value;
      && UpdatedFrom(p, old(db.profiles)[userId], req.value, now)
      && db.profiles == old(db.profiles)[userId := p]
      && metrics.Counts() == Bump(old(metrics.Counts()), ProfileUpdates)
  {
    if userId == Nil {
      return Err(401, "Unauthorized");
    }
    if req.None? {
      return Err(400, "Invalid request body");
    }
    var doc := BuildSetFields(req.value, now);
    if userId !in db.profiles {
      // MatchedCount == 0
      return Err(404, "Profile not found");
    }
    var p := Applied(db.profiles[userId], doc);
    UpdateEffect(db.profiles[userId], req.value, now, doc);
    ProfileKeepsStoreOk(db.users, db.profiles, db.posts, db.views, db.likes, db.comments, p);
    db.profiles := db.profiles[userId := p];
    metrics.IncProfileUpdate();
    return Ok(200, p);
  }
}
