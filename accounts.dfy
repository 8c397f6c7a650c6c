/**
 * The account handlers of internal/handlers/auth.go: Register, Login and Me.
 * bcrypt and JWT are foreign code: the model takes HashPassword,
 * CheckPassword and generateToken as function parameters, with None for the
 * error a call may return. Register can fail at either insert; the failed
 * profile insert is undone by deleting the user just inserted.
 */
module Accounts {
  import opened Wrappers
  import opened Text
  import opened ObjectIds
  import opened Store
  import opened RequestMetrics

  const MinPasswordBytes: int := 6

  datatype RegisterRequest = RegisterRequest(email: string, password: string, name: string)

  datatype LoginRequest = LoginRequest(email: string, password: string)

  /** models.UserResponse: the user without its password hash. */
  datatype UserResponse = UserResponse(id: ObjectId, email: string, createdAt: Time)

  /** models.AuthResponse. */
  datatype AuthResponse = AuthResponse(user: UserResponse, profile: Profile, token: string)

  /** User.ToResponse. */
  function ToResponse(u: User): (r: UserResponse)
    ensures r.id == u.id && r.email == u.email && r.createdAt == u.createdAt
  {
    UserResponse(u.id, u.email, u.createdAt)
  }

  /** The user FindOne({email}) finds, if any. */
  ghost function UserByEmail(users: map<ObjectId, User>, email: string): (r: Option<ObjectId>)
    ensures r.Some? ==> r.value in users && users[r.value].email == email
    ensures r.None? <==> forall id | id in users :: users[id].email != email
  {
    if exists id | id in users :: users[id].email == email then
      var id :| id in users && users[id].email == email;
      Some(id)
    else None
  }

  /** Users().FindOne({email}). */
  method FindUserByEmail(db: Database, email: string) returns (r: Option<ObjectId>)
    requires EmailsUnique(db.users)
    ensures r == UserByEmail(db.users, email)
  {
    if exists id | id in db.users :: db.users[id].email == email {
      var id :| id in db.users && db.users[id].email == email;
      var other := UserByEmail(db.users, email);
      assert db.users[other.value].email == db.users[id].email;
      return Some(id);
    }
    return None;
  }

  /** The profile Register creates: the name, currency BRL, language pt-BR and nothing else. */
  function NewProfile(id: ObjectId, userId: ObjectId, name: string, now: Time): (p: Profile)
    ensures p.id == id && p.userId == userId && p.name == name
    ensures p.settings.currency == "BRL" && p.settings.language == "pt-BR"
    ensures p.role == "" && p.avatar == "" && p.bio == "" && p.settings.firstDayOfWeek == 0
  {
    Profile(id, userId, name, "", "", Settings("BRL", "pt-BR", Theme("", "", ""), 0, ""), "", now, now)
  }

  // ---------------------------------------------------------------- Register

  /** Adding a user with a new id and a new email, with its profile, keeps the store invariant. */
  lemma AccountKeepsStoreOk(users: map<ObjectId, User>, profiles: map<ObjectId, Profile>, posts: map<ObjectId, Post>,
                            views: Markers, likes: Markers, comments: map<ObjectId, Comment>, u: User, p: Profile)
    requires StoreOk(users, profiles, posts, views, likes, comments)
    requires u.id != Nil && u.id !in users && p.userId == u.id
    requires forall id | id in users :: users[id].email != u.email
    ensures StoreOk(users[u.id := u], profiles[u.id := p], posts, views, likes, comments)
  {
  }

  /**
   * The two inserts of Register: the user, then its profile. When the profile
   * insert fails the user is deleted again and the store is as before.
   */
  method CreateAccount(db: Database, u: User, p: Profile, profileInsertFails: bool) returns (created: bool)
    requires db.Valid()
    requires u.id != Nil && u.id !in db.users && p.userId == u.id
    requires forall id | id in db.users :: db.users[id].email != u.email
    modifies db
    ensures db.Valid()
    ensures db.posts == old(db.posts) && db.views == old(db.views)
    ensures db.likes == old(db.likes) && db.comments == old(db.comments)
    ensures created == !profileInsertFails
    ensures !created ==> db.users == old(db.users) && db.profiles == old(db.profiles)
    ensures created ==> db.users == old(db.users)[u.id := u] && db.profiles == old(db.profiles)[u.id := p]
  {
    AccountKeepsStoreOk(db.users, db.profiles, db.posts, db.views, db.likes, db.comments, u, p);
    db.users := db.users[u.id := u];
    if profileInsertFails {
      // the rollback: DeleteOne({_id: user.ID})
      db.users := db.users - {u.id};
      assert db.users == old(db.users);
      return false;
    }
    db.profiles := db.profiles[u.id := p];
    return true;
  }

  /**
   * Register. req is None for a body that is not JSON; userInsertFails and
   * profileInsertFails stand for InsertOne errors; newUserId and newProfileId
   * are the two NewObjectID values.
   */
  method Register(db: Database, metrics: Metrics, req: Option<RegisterRequest>,
                  hashPassword: string -> Option<string>, generateToken: User -> Option<string>,
                  userInsertFails: bool, profileInsertFails: bool,
                  newUserId: ObjectId, newProfileId: ObjectId, now: Time)
    returns (reply: Reply<AuthResponse>)
    requires db.Valid() && db.Unused(newUserId) && db.Unused(newProfileId)
    modifies db, metrics
    ensures db.Valid()
    ensures db.posts == old(db.posts) && db.views == old(db.views)
    ensures db.likes == old(db.likes) && db.comments == old(db.comments)
    ensures metrics.RequestData() == old(metrics.RequestData())
    ensures req.None? ==> reply == Err(400, "Invalid request body")
    ensures req.Some? && (req.value.email == "" || req.value.password == "" || req.value.name == "") ==>
      reply == Err(400, "Email, password and name are required")
    ensures req.Some? && req.value.email != "" && req.value.password != "" && req.value.name != "" &&
            Utf8Len(req.value.password) < MinPasswordBytes ==>
      reply == Err(400, "Password must be at least 6 characters")
    ensures req.Some? && req.value.email != "" && req.value.password != "" && req.value.name != "" &&
            Utf8Len(req.value.password) >= MinPasswordBytes && UserByEmail(old(db.users), req.value.email).Some? ==>
      reply == Err(409, "Email already exists")
    ensures var accepted := req.Some? && req.value.email != "" && req.value.password != "" && req.value.name != "" &&
      Utf8Len(req.value.password) >= MinPasswordBytes && UserByEmail(old(db.users), req.value.email).None?;
      var hash := if req.Some? then hashPassword(req.value.password) else None;
      && (accepted && hash.None? ==> reply == Err(500, "Error processing password"))
      && (accepted && hash.Some? && userInsertFails ==> reply == Err(500, "Error creating user"))
      && (accepted && hash.Some? && !userInsertFails && profileInsertFails ==> reply == Err(500, "Error creating profile"))
      && (accepted && hash.Some? && !userInsertFails && !profileInsertFails ==>
            var u := User(newUserId, req.value.email, hash.value, now);
            if generateToken(u).Some? then reply.Ok? else reply == Err(500, "Error generating token"))
    ensures reply.Ok? ==> metrics.Counts() == Bump(old(metrics.Counts()), UsersRegistered)
    ensures reply.Err? ==> metrics.Counts() == old(metrics.Counts())
    ensures reply != Err(500, "Error generating token") ==>
      (reply.Ok? <==> db.users != old(db.users)) && (reply.Ok? <==> db.profiles != old(db.profiles))
    ensures reply.Err? && reply != Err(500, "Error generating token") ==>
      db.users == old(db.users) && db.profiles == old(db.profiles)
    ensures reply.Ok? || reply == Err(500, "Error generating token") ==>
      && req.Some? && UserByEmail(old(db.users), req.value.email).None?
      && hashPassword(req.value.password).Some?
      && var u := User(newUserId, req.value.email, hashPassword(req.value.password).value, now);
      var p := NewProfile(newProfileId, newUserId, req.value.name, now);
      && db.users == old(db.users)[newUserId := u]
      && db.profiles == old(db.profiles)[newUserId := p]
      && (reply.Ok? <==> generateToken(u).Some?)
      && (reply.Ok? ==> reply == Ok(201, AuthResponse(ToResponse(u), p, generateToken(u).value)))
  {
    if req.None? {
      return Err(400, "Invalid request body");
    }
    var r := req.value;
    if r.email == "" || r.password == "" || r.name == "" {
      return Err(400, "Email, password and name are required");
    }
    if Utf8Len(r.password) < MinPasswordBytes {
      return Err(400, "Password must be at least 6 characters");
    }
    var existing := FindUserByEmail(db, r.email);
    if existing.Some? {
      return Err(409, "Email already exists");
    }
    var hash := hashPassword(r.password);
    if hash.None? {
      return Err(500, "Error processing password");
    }
    if userInsertFails {
      return Err(500, "Error creating user");
    }
    var u := User(newUserId, r.email, hash.value, now);
    var p := NewProfile(newProfileId, newUserId, r.name, now);
    var created := CreateAccount(db, u, p, profileInsertFails);
    if !created {
      return Err(500, "Error creating profile");
    }
    var token := generateToken(u);
    if token.None? {
      return Err(500, "Error generating token");
    }
    metrics.IncUserRegistered();
    return Ok(201, AuthResponse(ToResponse(u), p, token.value));
  }

  /** After a successful Register the new email names exactly the new user, and its profile is found by user id. */
  lemma RegisteredUserFindable(users: map<ObjectId, User>, profiles: map<ObjectId, Profile>,
                               u: User, p: Profile)
    requires EmailsUnique(users) && UserByEmail(users, u.email).None? && u.id !in users
    ensures EmailsUnique(users[u.id := u])
    ensures UserByEmail(users[u.id := u], u.email) == Some(u.id)
    ensures u.id in profiles[u.id := p] && profiles[u.id := p][u.id] == p
  {
    var users' := users[u.id := u];
    var r := UserByEmail(users', u.email);
    assert users'[u.id].email == u.email;
  }

  // ---------------------------------------------------------------- Login

  /**
   * Login. checkPassword stands for models.CheckPassword. The profile lookup
   * cannot fail in a valid store, but the handler checks it anyway.
   */
  method Login(db: Database, metrics: Metrics, req: Option<LoginRequest>,
               checkPassword: (string, string) -> bool, generateToken: User -> Option<string>)
    returns (reply: Reply<AuthResponse>)
    requires EmailsUnique(db.users)
    modifies metrics
    ensures metrics.RequestData() == old(metrics.RequestData())
    ensures var found := if req.Some? then UserByEmail(db.users, req.value.email) else None;
      && (req.None? ==> reply == Err(400, "Invalid request body"))
      && (req.Some? && (req.value.email == "" || req.value.password == "") ==>
            reply == Err(400, "Email and password are required"))
      && (req.Some? && req.value.email != "" && req.value.password != "" &&
          (found.None? || !checkPassword(req.value.password, db.users[found.value].passwordHash)) ==>
            reply == Err(401, "Invalid credentials") && metrics.Counts() == Bump(old(metrics.Counts()), LoginFailed))
      && (req.Some? && req.value.email != "" && req.value.password != "" && found.Some? &&
          checkPassword(req.value.password, db.users[found.value].passwordHash) ==>
            if found.value !in db.profiles then reply == Err(500, "Profile not found")
            else if generateToken(db.users[found.value]).None? then reply == Err(500, "Error generating token")
            else reply.Ok?)
      && (reply.Ok? ==>
            && req.Some? && found.Some? && found.value in db.profiles
            && var u := db.users[found.value];
            && checkPassword(req.value.password, u.passwordHash)
            && generateToken(u).Some?
            && reply == Ok(200, AuthResponse(ToResponse(u), db.profiles[found.value], generateToken(u).value))
            && metrics.Counts() == Bump(old(metrics.Counts()), LoginSuccess))
    ensures reply.Err? && reply.code != 401 ==> metrics.Counts() == old(metrics.Counts())
    ensures db.Valid() ==> reply != Err(500, "Profile not found")
  {
    if req.None? {
      return Err(400, "Invalid request body");
    }
    var r := req.value;
    if r.email == "" || r.password == "" {
      return Err(400, "Email and password are required");
    }
    var found := FindUserByEmail(db, r.email);
    if found.None? {
      metrics.IncLoginFailed();
      return Err(401, "Invalid credentials");
    }
    var u := db.users[found.value];
    if !checkPassword(r.password, u.passwordHash) {
      metrics.IncLoginFailed();
      return Err(401, "Invalid credentials");
    }
    if found.value !in db.profiles {
      return Err(500, "Profile not found");
    }
    var token := generateToken(u);
    if token.None? {
      return Err(500, "Error generating token");
    }
    metrics.IncLoginSuccess();
    return Ok(200, AuthResponse(ToResponse(u), db.profiles[found.value], token.value));
  }

  // ---------------------------------------------------------------- Me

  /** Me: the caller's user and profile, and never a token. */
  method Me(db: Database, userId: ObjectId) returns (reply: Reply<AuthResponse>)
    ensures userId == Nil ==> reply == Err(401, "Unauthorized")
    ensures userId != Nil && userId !in db.users ==> reply == Err(404, "User not found")
    ensures userId != Nil && userId in db.users && userId !in db.profiles ==> reply == Err(404, "Profile not found")
    ensures reply.Ok? <==> userId != Nil && userId in db.users && userId in db.profiles
    ensures reply.Ok? ==>
      reply == Ok(200, AuthResponse(ToResponse(db.users[userId]), db.profiles[userId], ""))
    ensures db.Valid() && userId != Nil && userId in db.users ==> reply.Ok?
  {
    if userId == Nil {
      return Err(401, "Unauthorized");
    }
    if userId !in db.users {
      return Err(404, "User not found");
    }
    if userId !in db.profiles {
      return Err(404, "Profile not found");
    }
    return Ok(200, AuthResponse(ToResponse(db.users[userId]), db.profiles[userId], ""));
  }
}
