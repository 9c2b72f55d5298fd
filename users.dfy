/** User accounts (data/users.js): registration with a normalised, unique
    email, lookup by email, and the profile update. The `users` collection is
    a map keyed by the stored (normalised) email. */
module Users {
  import opened Text
  import opened Js

  /** A stored profile photo: the empty string a new account starts with,
      `null` (what an `undefined` photo is stored as), or an uploaded buffer. */
  datatype Photo = NoPhoto | NullPhoto | Image(bytes: seq<bv8>)

  datatype User = User(
    id: Id,
    email: string,
    username: string,
    password: string,
    bookmarks: seq<Id>,
    role: string,
    profilePhoto: Photo,
    bio: string,
    createdAt: Time)

  /** `email.trim().toLowerCase()`, the form every email is stored and
      looked up in. */
  function NormalEmail(email: string): (r: string)
    ensures |r| <= |email| && IsTrimmed(r)
    ensures forall i :: 0 <= i < |r| ==> !('A' <= r[i] <= 'Z')
  {
    TrimToLower(email);
    ToLower(Trim(email))
  }

  /** Normalising an email that is already normalised changes nothing. */
  lemma NormalEmailIdempotent(email: string)
    ensures NormalEmail(NormalEmail(email)) == NormalEmail(email)
  {
    var t := Trim(email);
    TrimToLower(t);
    TrimIdempotent(email);
    assert ToLower(ToLower(t)) == ToLower(t);
  }

  /** An email typed with other letter cases and surrounded by whitespace
      normalises to the same stored email. */
  lemma NormalEmailVariant(email: string, pre: string, typed: string, post: string)
    requires IsBlank(pre) && IsBlank(post)
    requires ToLower(typed) == ToLower(email)
    ensures NormalEmail(pre + typed + post) == NormalEmail(email)
  {
    TrimBlankPadding(pre, typed, post);
    TrimToLower(typed);
    TrimToLower(email);
  }

  /** The argument checks of `createUser` before it touches the collection:
      every field present, then (on the normalised email) an '@' and a '.',
      then a password of at least 6 characters. Returns the email and the
      username as they will be stored. */
  function CheckNewUser(email: string, username: string, password: string): (r: Result<(string, string)>)
    ensures email == [] || username == [] || password == [] ==> r == Err("All fields are required.")
    ensures (email != [] && username != [] && password != []
             && ('@' !in NormalEmail(email) || '.' !in NormalEmail(email))) ==>
              r == Err("Invalid email format.")
    ensures (email != [] && username != [] && password != []
             && '@' in NormalEmail(email) && '.' in NormalEmail(email) && |password| < 6) ==>
              r == Err("Password must be at least 6 characters.")
    ensures r.Ok? <==> (email != [] && username != [] && password != []
                        && '@' in NormalEmail(email) && '.' in NormalEmail(email) && |password| >= 6)
    ensures r.Ok? ==> r.value.0 == NormalEmail(email) && r.value.1 == Trim(username)
  {
    if email == [] || username == [] || password == [] then Err("All fields are required.")
    else
      var normalEmail := NormalEmail(email);
      if '@' !in normalEmail || '.' !in normalEmail then Err("Invalid email format.")
      else if |password| < 6 then Err("Password must be at least 6 characters.")
      else Ok((normalEmail, Trim(username)))
  }

  /** A stored email passes the checks again and is stored unchanged, so
      registering it a second time fails only on the duplicate-email test. */
  lemma CheckNewUserStable(email: string, username: string, password: string)
    requires CheckNewUser(email, username, password).Ok?
    ensures var e := CheckNewUser(email, username, password).value.0;
            CheckNewUser(e, username, password) == CheckNewUser(email, username, password)
  {
    NormalEmailIdempotent(email);
  }

  /** The profile fields `updateUserProfile` puts in its `$set`. */
  datatype ProfileFields = ProfileFields(bio: Option<string>, profilePhoto: Option<Photo>)

  /** The `$set` applied to a stored user: only the fields present change. */
  function Applied(u: User, fields: ProfileFields): (r: User)
    ensures r.bio == (if fields.bio.Some? then fields.bio.value else u.bio)
    ensures r.profilePhoto == (if fields.profilePhoto.Some? then fields.profilePhoto.value else u.profilePhoto)
    ensures r.(bio := u.bio, profilePhoto := u.profilePhoto) == u
  {
    var withBio := if fields.bio.Some? then u.(bio := fields.bio.value) else u;
    if fields.profilePhoto.Some? then withBio.(profilePhoto := fields.profilePhoto.value) else withBio
  }

  /** Builds `updateFields` one key at a time: a bio only when it is a string
      that is not blank, stored trimmed; the photo always. */
  method SelectProfileFields(bio: Value, profilePhoto: Photo) returns (fields: ProfileFields)
    ensures fields.bio.Some? <==> bio.Str? && !IsBlank(bio.s)
    ensures fields.bio.Some? ==> fields.bio.value == Trim(bio.s) && fields.bio.value != []
    ensures fields.profilePhoto == Some(profilePhoto)
  {
    fields := ProfileFields(None, None);
    if bio.Str? && Trim(bio.s) != [] {
      fields := fields.(bio := Some(Trim(bio.s)));
    }
    fields := fields.(profilePhoto := Some(profilePhoto));
  }

  class UserStore {
    /** The `users` collection, by stored email. */
    var users: map<string, User>
    /** `ObjectId.isValid` on strings. */
    const isValidId: string -> bool
    /** `bcrypt.hash` at the fixed cost factor. */
    const hash: string -> string

    /** Each record is filed under its own email, and no two records share
        an `_id`. */
    ghost predicate Valid()
      reads this
    {
      && (forall e :: e in users ==> users[e].email == e)
      && (forall e1, e2 :: e1 in users && e2 in users && users[e1].id == users[e2].id ==> e1 == e2)
    }

    constructor (isValidId: string -> bool, hash: string -> string, existing: map<string, User>)
      requires forall e :: e in existing ==> existing[e].email == e
      requires forall e1, e2 :: e1 in existing && e2 in existing && existing[e1].id == existing[e2].id ==> e1 == e2
      ensures Valid()
      ensures this.isValidId == isValidId && this.hash == hash && users == existing
    {
      this.isValidId := isValidId;
      this.hash := hash;
      users := existing;
    }

    /** Some stored user has this `_id`. */
    predicate HasId(id: Id)
      reads this
    {
      exists e :: e in users && users[e].id == id
    }

    /** `createUser`: `newId` is the `_id` the driver generates and `now` the
        creation time. A new account holds the normalised email, the trimmed
        username, the hashed password, no bookmarks, the role "user", an
        empty photo and an empty bio. */
    method CreateUser(email: string, username: string, password: string, newId: Id, now: Time)
      returns (r: Result<User>)
      requires Valid()
      modifies this
      ensures Valid()
      ensures CheckNewUser(email, username, password).Err? ==> r == Err(CheckNewUser(email, username, password).msg)
      ensures (CheckNewUser(email, username, password).Ok? && NormalEmail(email) in old(users)) ==>
                r == Err("Email is already registered.")
      ensures (CheckNewUser(email, username, password).Ok? && NormalEmail(email) !in old(users)
               && old(HasId(newId))) ==> r == Err(DuplicateKey)
      ensures r.Err? ==> users == old(users)
      ensures r.Ok? <==> (CheckNewUser(email, username, password).Ok? && NormalEmail(email) !in old(users)
                          && !old(HasId(newId)))
      ensures r.Ok? ==> users == old(users)[NormalEmail(email) := r.value]
      ensures r.Ok? ==>
                && r.value.id == newId
                && r.value.email == NormalEmail(email) && r.value.username == Trim(username)
                && r.value.password == hash(password)
                && r.value.bookmarks == [] && r.value.role == "user"
                && r.value.profilePhoto == NoPhoto && r.value.bio == "" && r.value.createdAt == now
    {
      var checked := CheckNewUser(email, username, password);
      if checked.Err? {
        return Err(checked.msg);
      }
      var (normalEmail, trimmedName) := checked.value;
      if normalEmail in users {
        return Err("Email is already registered.");
      }
      var hashedPassword := hash(password);
      var newUser := User(newId, normalEmail, trimmedName, hashedPassword, [], "user", NoPhoto, "", now);
      if HasId(newId) {
        return Err(DuplicateKey);
      }
      users := users[normalEmail := newUser];
      r := Ok(users[normalEmail]);
    }

    /** `findUserByEmail`: looks the normalised email up; a read that never
        changes the collection. */
    method FindUserByEmail(email: string) returns (r: Result<Option<User>>)
      ensures email == [] ==> r == Err("Email is required.")
      ensures email != [] && NormalEmail(email) in users ==> r == Ok(Some(users[NormalEmail(email)]))
      ensures email != [] && NormalEmail(email) !in users ==> r == Ok(None)
    {
      if email == [] {
        return Err("Email is required.");
      }
      var normalEmail := NormalEmail(email);
      if normalEmail in users {
        r := Ok(Some(users[normalEmail]));
      } else {
        r := Ok(None);
      }
    }

    /** `updateUserProfile`: for an existing account, sets the bio when a
        non-blank one is given and always sets the photo; nothing else about
        the account changes. */
    method UpdateUserProfile(userId: Option<Id>, bio: Value, profilePhoto: Photo) returns (r: Result<User>)
      requires Valid()
      modifies this
      ensures Valid()
      ensures userId.None? || !isValidId(userId.value) ==> r == Err("Invalid user ID.")
      ensures (userId.Some? && isValidId(userId.value) && !old(HasId(userId.value))) ==>
                r == Err("Could not update profile. User may not exist.")
      ensures r.Err? ==> users == old(users)
      ensures r.Ok? <==> userId.Some? && isValidId(userId.value) && old(HasId(userId.value))
      ensures r.Ok? ==>
                && r.value.email in old(users) && old(users)[r.value.email].id == userId.value
                && users == old(users)[r.value.email := r.value]
      ensures r.Ok? ==>
                var before := old(users)[r.value.email];
                && r.value.profilePhoto == profilePhoto
                && r.value.bio == (if bio.Str? && !IsBlank(bio.s) then Trim(bio.s) else before.bio)
                && r.value.(bio := before.bio, profilePhoto := before.profilePhoto) == before
    {
      if userId.None? || !isValidId(userId.value) {
        return Err("Invalid user ID.");
      }
      var fields := SelectProfileFields(bio, profilePhoto);
      if fields == ProfileFields(None, None) {
        return Err("No valid fields to update.");
      }
      if !HasId(userId.value) {
        return Err("Could not update profile. User may not exist.");
      }
      var key :| key in users && users[key].id == userId.value;
      var updatedUser := Applied(users[key], fields);
      users := users[key := updatedUser];
      r := Ok(updatedUser);
    }
  }

  /** Registering and then looking the account up by the same email typed
      in any letter case and with surrounding whitespace finds that account. */
  method RegisterThenFind(store: UserStore, email: string, username: string, password: string,
                          newId: Id, now: Time, pre: string, typed: string, post: string)
    returns (created: Result<User>, found: Result<Option<User>>)
    requires store.Valid()
    requires IsBlank(pre) && IsBlank(post) && ToLower(typed) == ToLower(email)
    modifies store
    ensures created.Ok? ==> found == Ok(Some(created.value))
  {
    created := store.CreateUser(email, username, password, newId, now);
    NormalEmailVariant(email, pre, typed, post);
    found := store.FindUserByEmail(pre + typed + post);
  }

  /** A second registration with a variant of a registered email fails and
      leaves the collection as the first registration left it. */
  method RegisterTwice(store: UserStore, email: string, username: string, password: string,
                       newId: Id, now: Time, pre: string, typed: string, post: string,
                       username2: string, password2: string, newId2: Id, now2: Time)
    returns (first: Result<User>, second: Result<User>)
    requires store.Valid()
    requires IsBlank(pre) && IsBlank(post) && ToLower(typed) == ToLower(email)
    modifies store
    ensures first.Ok? && CheckNewUser(pre + typed + post, username2, password2).Ok? ==>
              second == Err("Email is already registered.")
    ensures first.Ok? ==> store.users == old(store.users)[first.value.email := first.value]
  {
    first := store.CreateUser(email, username, password, newId, now);
    NormalEmailVariant(email, pre, typed, post);
    second := store.CreateUser(pre + typed + post, username2, password2, newId2, now2);
  }
}
