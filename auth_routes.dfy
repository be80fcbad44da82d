/**
 * The account routes of the server: sign-up, sign-in, the settings update and the two
 * single-field picture updates over the collection of users.
 */
module AuthRoutes {
  import opened Wrappers
  import opened Text
  import opened ObjectIds
  import opened Persistence

  type UserId = ObjectId

  /**
   * A stored account. `password` is whatever the user model stores (its hashing hook is not part
   * of this model); the absent optional fields are the schema's defaults.
   */
  datatype User = User(
    email: string,
    username: string,
    password: string,
    role: string,
    privacy: Option<string>,
    avatar: Option<string>,
    profilePicture: Option<string>)

  /** The account fields the routes send back (never the password). */
  datatype Profile = Profile(
    id: UserId,
    email: string,
    username: string,
    role: string,
    privacy: Option<string>,
    avatar: Option<string>,
    profilePicture: Option<string>)

  datatype Body =
    | Error(error: string)
    | SignedUp(message: string, user: Profile, isNewUser: bool)
    | SignedIn(user: Profile)
    | Updated(message: string, user: Profile)
    | AvatarSet(message: string, avatar: Option<string>)
    | PictureSet(message: string, profilePicture: Option<string>)

  datatype Reply = Reply(status: nat, body: Body)

  const InvalidCredentials := Reply(400, Error("Invalid email or password"))
  const ServerError := Reply(500, Error("Server error"))
  const UserNotFound := Reply(404, Error("User not found"))

  function ProfileOf(id: UserId, u: User): (p: Profile)
    ensures p.id == id && p.email == u.email && p.username == u.username && p.role == u.role
  {
    Profile(id, u.email, u.username, u.role, u.privacy, u.avatar, u.profilePicture)
  }

  /**
   * The settings update applied to one account: privacy is overwritten when it is supplied, the
   * username only when it is supplied and not blank, and then in trimmed form.
   */
  function ApplySettings(u: User, privacy: Option<string>, username: Option<string>): (v: User)
    ensures v.email == u.email && v.password == u.password && v.role == u.role
    ensures v.avatar == u.avatar && v.profilePicture == u.profilePicture
    ensures v.privacy == if privacy.Some? then privacy else u.privacy
    ensures username.None? ==> v.username == u.username
  {
    var u' := if privacy.Some? then u.(privacy := privacy) else u;
    if username.Some? && Trim(username.value) != "" then u'.(username := Trim(username.value)) else u'
  }

  /** A blank username (white space only) never replaces the stored one; a non-blank one is stored trimmed. */
  lemma UsernameRule(u: User, privacy: Option<string>, name: string)
    ensures AllSpace(name) ==> ApplySettings(u, privacy, Some(name)).username == u.username
    ensures !AllSpace(name) ==> ApplySettings(u, privacy, Some(name)).username == Trim(name) != ""
  {
    TrimBlank(name);
  }

  /** Sending the same settings twice has the effect of sending them once. */
  lemma SettingsIdempotent(u: User, privacy: Option<string>, username: Option<string>)
    ensures ApplySettings(ApplySettings(u, privacy, username), privacy, username) == ApplySettings(u, privacy, username)
  {
    if username.Some? {
      TrimIdempotent(username.value);
    }
  }

  /** How `findById` answers for the `id` of a request body. */
  datatype Lookup = Absent | CastError | Found(id: UserId)

  /** No two accounts share an email address. */
  ghost predicate UniqueEmails(users: map<UserId, User>) {
    forall a, b :: a in users && b in users && users[a].email == users[b].email ==> a == b
  }

  /** Changing an account without touching its email keeps emails unique. */
  lemma SameEmailKeepsUnique(users: map<UserId, User>, k: UserId, u: User)
    requires UniqueEmails(users) && k in users && u.email == users[k].email
    ensures UniqueEmails(users[k := u])
  {
    var after := users[k := u];
    forall a, b | a in after && b in after && after[a].email == after[b].email
      ensures a == b
    {
      assert after[a].email == users[a].email && after[b].email == users[b].email;
    }
  }

  /** The `users` collection as the routes see it. */
  class UserStore {
    var users: map<UserId, User>

    ghost predicate Valid()
      reads this
    {
      UniqueEmails(users)
    }

    constructor ()
      ensures Valid() && users == map[]
    {
      users := map[];
    }

    predicate EmailTaken(email: string)
      reads this
    {
      exists id :: id in users && users[id].email == email
    }

    /** `findById`: a missing id finds nothing, a malformed one fails the cast. */
    function FindById(id: Option<string>): (r: Lookup)
      reads this
      ensures r.Found? <==> id.Some? && WellFormed(id.value) && Cast(id.value) in users
      ensures r.CastError? <==> id.Some? && !WellFormed(id.value)
      ensures r.Found? ==> r.id == Cast(id.value)
    {
      if id.None? then Absent
      else if !WellFormed(id.value) then CastError
      else if Cast(id.value) in users then Found(Cast(id.value))
      else Absent
    }

    /** POST /signup: a taken email is refused; otherwise a new account with role defaulting to 'student'. */
    method SignUp(email: string, username: string, password: string, role: Option<string>, freshId: UserId,
                  lookup: Storage, save: Storage)
      returns (reply: Reply)
      requires Valid()
      requires freshId !in users
      modifies this
      ensures Valid()
      ensures lookup.Failed? ==> reply == Reply(400, Error(lookup.message)) && users == old(users)
      ensures lookup.Succeeded? && old(EmailTaken(email)) ==>
        reply == Reply(400, Error("User already exists")) && users == old(users)
      ensures lookup.Succeeded? && !old(EmailTaken(email)) && save.Failed? ==>
        reply == Reply(400, Error(save.message)) && users == old(users)
      ensures lookup.Succeeded? && !old(EmailTaken(email)) && save.Succeeded? ==>
        var u := User(email, username, password, OrElse(role, "student"), None, None, None);
        users == old(users)[freshId := u]
        && reply == Reply(201, SignedUp("User created successfully", ProfileOf(freshId, u), true))
    {
      if lookup.Failed? {
        return Reply(400, Error(lookup.message));
      }
      if EmailTaken(email) {
        return Reply(400, Error("User already exists"));
      }
      var newUser := User(email, username, password, OrElse(role, "student"), None, None, None);
      if save.Failed? {
        return Reply(400, Error(save.message));
      }
      users := users[freshId := newUser];
      reply := Reply(201, SignedUp("User created successfully", ProfileOf(freshId, newUser), true));
    }

    /**
     * POST /signin: the account with that email whose stored password `comparePassword` accepts.
     * An unknown email and a wrong password give the same reply.
     */
    method SignIn(email: string, password: string, comparePassword: (string, string) -> bool, lookup: Storage)
      returns (reply: Reply)
      requires Valid()
      ensures lookup.Failed? ==> reply == ServerError
      ensures reply.status == 200 <==>
        && lookup.Succeeded?
        && exists id :: id in users && users[id].email == email && comparePassword(users[id].password, password)
      ensures lookup.Succeeded? && reply.status != 200 ==> reply == InvalidCredentials
      ensures reply.status == 200 ==>
        reply.body.SignedIn? && reply.body.user.id in users
        && reply.body.user == ProfileOf(reply.body.user.id, users[reply.body.user.id])
        && reply.body.user.email == email
    {
      if lookup.Failed? {
        return ServerError;
      }
      if !EmailTaken(email) {
        return InvalidCredentials;
      }
      var id :| id in users && users[id].email == email;
      var user := users[id];
      var isMatch := comparePassword(user.password, password);
      if !isMatch {
        return InvalidCredentials;
      }
      reply := Reply(200, SignedIn(ProfileOf(id, user)));
    }

    /** PUT /update: privacy and username under the rules of `ApplySettings`. */
    method Update(id: Option<string>, privacy: Option<string>, username: Option<string>, lookup: Storage, save: Storage) returns (reply: Reply)
      requires Valid()
      modifies this
      ensures Valid()
      ensures reply.status != 200 ==> users == old(users)
      ensures old(FindById(id)).CastError? ==> reply == ServerError
      ensures !old(FindById(id)).CastError? && lookup.Failed? ==> reply == ServerError
      ensures old(FindById(id)).Absent? && lookup.Succeeded? ==> reply == UserNotFound
      ensures old(FindById(id)).Found? && lookup.Succeeded? && save.Failed? ==> reply == ServerError
      ensures old(FindById(id)).Found? && lookup.Succeeded? && save.Succeeded? ==>
        var k := old(FindById(id)).id;
        var u := ApplySettings(old(users)[k], privacy, username);
        users == old(users)[k := u] && reply == Reply(200, Updated("User updated successfully", ProfileOf(k, u)))
    {
      var found := FindById(id);
      if found.CastError? || lookup.Failed? {
        return ServerError;
      }
      if found.Absent? {
        return UserNotFound;
      }
      var k := found.id;
      var user := users[k];
      if privacy.Some? {
        user := user.(privacy := privacy);
      }
      if username.Some? && Trim(username.value) != "" {
        user := user.(username := Trim(username.value));
      }
      assert user == ApplySettings(users[k], privacy, username);
      if save.Failed? {
        return ServerError;
      }
      SameEmailKeepsUnique(users, k, user);
      users := users[k := user];
      reply := Reply(200, Updated("User updated successfully", ProfileOf(k, user)));
    }

    /** PUT /update-avatar: sets the avatar (to nothing when the body has none) and echoes it. */
    method UpdateAvatar(id: Option<string>, avatar: Option<string>, lookup: Storage, save: Storage) returns (reply: Reply)
      requires Valid()
      modifies this
      ensures Valid()
      ensures reply.status != 200 ==> users == old(users)
      ensures old(FindById(id)).CastError? ==> reply == ServerError
      ensures !old(FindById(id)).CastError? && lookup.Failed? ==> reply == ServerError
      ensures old(FindById(id)).Absent? && lookup.Succeeded? ==> reply == UserNotFound
      ensures old(FindById(id)).Found? && lookup.Succeeded? && save.Failed? ==> reply == ServerError
      ensures old(FindById(id)).Found? && lookup.Succeeded? && save.Succeeded? ==>
        var k := old(FindById(id)).id;
        users == old(users)[k := old(users)[k].(avatar := avatar)]
        && reply == Reply(200, AvatarSet("Avatar updated successfully", avatar))
    {
      var found := FindById(id);
      if found.CastError? || lookup.Failed? {
        return ServerError;
      }
      if found.Absent? {
        return UserNotFound;
      }
      var user := users[found.id].(avatar := avatar);
      if save.Failed? {
        return ServerError;
      }
      SameEmailKeepsUnique(users, found.id, user);
      users := users[found.id := user];
      reply := Reply(200, AvatarSet("Avatar updated successfully", user.avatar));
    }

    /** PUT /update-profile-picture: sets the picture (to nothing when the body has none) and echoes it. */
    method UpdateProfilePicture(id: Option<string>, profilePicture: Option<string>, lookup: Storage, save: Storage) returns (reply: Reply)
      requires Valid()
      modifies this
      ensures Valid()
      ensures reply.status != 200 ==> users == old(users)
      ensures old(FindById(id)).CastError? ==> reply == ServerError
      ensures !old(FindById(id)).CastError? && lookup.Failed? ==> reply == ServerError
      ensures old(FindById(id)).Absent? && lookup.Succeeded? ==> reply == UserNotFound
      ensures old(FindById(id)).Found? && lookup.Succeeded? && save.Failed? ==> reply == ServerError
      ensures old(FindById(id)).Found? && lookup.Succeeded? && save.Succeeded? ==>
        var k := old(FindById(id)).id;
        users == old(users)[k := old(users)[k].(profilePicture := profilePicture)]
        && reply == Reply(200, PictureSet("Profile picture updated successfully", profilePicture))
    {
      var found := FindById(id);
      if found.CastError? || lookup.Failed? {
        return ServerError;
      }
      if found.Absent? {
        return UserNotFound;
      }
      var user := users[found.id].(profilePicture := profilePicture);
      if save.Failed? {
        return ServerError;
      }
      SameEmailKeepsUnique(users, found.id, user);
      users := users[found.id := user];
      reply := Reply(200, PictureSet("Profile picture updated successfully", user.profilePicture));
    }
  }
}
