/** The running server: a request whose user the middlewares attach, and
    the document store the route handlers change in place. Each handler
    method takes the steps of its route in the route's order (registration
    takes the corrected steps, with the password hash awaited), and is
    proved to have exactly the effect and reply its Catalog or Auth function
    describes, so every property proved of those functions holds of it. */
module Server {
  import opened Api
  import opened Models
  import opened Media
  import opened Auth
  import Catalog

  /** An incoming request: its Authorization header, and the user a
      middleware attaches to it. */
  class Request {
    const authorization: Option<string>
    var user: Option<Principal>

    constructor (authorization: Option<string>)
      ensures this.authorization == authorization && user.None?
    {
      this.authorization := authorization;
      user := None;
    }

    /** The required middleware: on a 401 the user is left as it was and
        the handler does not run; otherwise the user is attached. */
    method Authenticate(verify: Verifier, users: map<Id, User>) returns (rejection: Option<ApiError>)
      modifies this
      ensures RequiredAuth(authorization, verify, users).Reject? ==>
        rejection == Some(RequiredAuth(authorization, verify, users).error) && user == old(user)
      ensures RequiredAuth(authorization, verify, users).Proceed? ==>
        rejection.None? && user == RequiredAuth(authorization, verify, users).principal
    {
      var token := BearerToken(authorization);
      if !Present(token) {
        return Some(NotLoggedIn);
      }
      var decoded := verify(token.value);
      if decoded.None? {
        return Some(SessionExpired);
      }
      if decoded.value !in users {
        return Some(UserNotFound);
      }
      user := Some(Principal(decoded.value, users[decoded.value]));
      return None;
    }

    /** The optional middleware: never rejects; attaches a user only when
        one is found, and otherwise leaves the request as it was. */
    method AuthenticateIfPresent(verify: Verifier, users: map<Id, User>)
      modifies this
      ensures OptionalAuth(authorization, verify, users).principal.Some? ==>
        user == OptionalAuth(authorization, verify, users).principal
      ensures OptionalAuth(authorization, verify, users).principal.None? ==> user == old(user)
    {
      var token := BearerToken(authorization);
      if Present(token) {
        var decoded := verify(token.value);
        if decoded.Some? && decoded.value in users {
          user := Some(Principal(decoded.value, users[decoded.value]));
        }
      }
    }
  }

  /** The document store: one map per collection, and the id counter. */
  class Store {
    var users: map<Id, User>
    var sounds: map<Id, Sound>
    var collections: map<Id, Collection>
    var favorites: map<Id, Favorite>
    var nextId: nat

    /** The store as a value. */
    function State(): Db
      reads this
    {
      Db(users, sounds, collections, favorites, nextId)
    }

    constructor ()
      ensures State() == EmptyDb && Valid(State())
    {
      users, sounds, collections, favorites, nextId := map[], map[], map[], map[], 0;
    }

    /** `POST /api/auth/register`, corrected: the password hash is awaited,
        so the save succeeds (`Auth.RegisterAsWritten` is the route as
        written). */
    method Register(username: Option<string>, email: Option<string>, password: Option<string>,
                    now: nat) returns (reply: Outcome<Session>)
      modifies this
      ensures Step(State(), reply) == Auth.Register(old(State()), username, email, password, now)
      ensures Valid(old(State())) ==> Valid(State())
    {
      var invalid := ValidateRegistration(username, email, password);
      if invalid.Some? {
        return Fail(invalid.value);
      }
      var name := NormalizeUsername(username.value);
      var mail := NormalizeEmail(email.value);
      if Taken(users, name, mail) {
        return Fail(UserAlreadyExists);
      }
      if name == "" || mail == "" {
        return Fail(RegisterFailed);
      }
      var u := User(name, mail, now);
      RegisterAccepts(old(State()), username, email, password, now);
      var id := SaveUser(u);
      reply := Ok(IssueSession(id, u));
    }

    /** `user.save()`: the new document under the next fresh id. */
    method SaveUser(u: User) returns (id: Id)
      modifies this
      ensures id == old(nextId)
      ensures State() == old(State()).(users := old(users)[id := u], nextId := id + 1)
    {
      id := nextId;
      users := users[id := u];
      nextId := id + 1;
    }

    /** `POST /api/sounds`. */
    method CreateSound(caller: Id, name: Option<string>, url: Option<string>, color: Option<string>,
                       duration: Option<real>, size: Option<real>, now: nat)
      returns (reply: Outcome<(Id, Sound)>)
      modifies this
      ensures Step(State(), reply) == Catalog.CreateSound(old(State()), caller, name, url, color, duration, size, now)
      ensures Valid(old(State())) ==> Valid(State())
    {
      if !Present(name) || !Present(url) {
        return Fail(MissingSoundField);
      }
      if !WithinLimit(size, MAX_FILE_SIZE) {
        return Fail(FileTooLarge);
      }
      if !WithinLimit(duration, MAX_DURATION) {
        return Fail(DurationTooLong);
      }
      var s := NewSound(name.value, url.value, color, duration, size, caller, now);
      sounds := sounds[nextId := s];
      reply := Ok((nextId, s));
      nextId := nextId + 1;
    }

    /** `PUT /api/sounds/:id`. */
    method UpdateSound(caller: Id, id: Id, name: Option<string>, color: Option<string>)
      returns (reply: Outcome<Sound>)
      modifies this
      ensures Step(State(), reply) == Catalog.UpdateSound(old(State()), caller, id, name, color)
      ensures Valid(old(State())) ==> Valid(State())
    {
      if id !in sounds {
        return Fail(SoundNotFound);
      }
      var s := sounds[id];
      if s.uploader != caller {
        return Fail(UpdateSoundForbidden);
      }
      if name.Some? {
        s := s.(name := name.value);
      }
      if color.Some? {
        s := s.(color := color);
      }
      sounds := sounds[id := s];
      reply := Ok(s);
    }

    /** `DELETE /api/sounds/:id`: after the checks, the storage delete is
        requested, then the sound record, its favorites and its collection
        references are removed, in that order. */
    method DeleteSound(caller: Id, id: Id, cfg: StorageConfig) returns (reply: Outcome<Option<StorageDelete>>)
      modifies this
      ensures Step(State(), reply) == Catalog.DeleteSound(old(State()), caller, id, cfg)
      ensures reply.Ok? ==> NoReferencesTo(State(), id)
      ensures Valid(old(State())) ==> Valid(State())
    {
      if id !in sounds {
        return Fail(SoundNotFound);
      }
      var s := sounds[id];
      if s.uploader != caller {
        return Fail(DeleteSoundForbidden);
      }
      var request := DeleteRequest(cfg, s.url);
      sounds := sounds - {id};
      favorites := Catalog.DropFavoritesOf(favorites, id);
      collections := Catalog.PullFromCollections(collections, id);
      reply := Ok(request);
    }

    /** `POST /api/collections`. */
    method CreateCollection(caller: Id, name: Option<string>, description: Option<string>,
                            isPublic: Option<bool>, now: nat) returns (reply: Outcome<(Id, Collection)>)
      modifies this
      ensures Step(State(), reply) == Catalog.CreateCollection(old(State()), caller, name, description, isPublic, now)
      ensures Valid(old(State())) ==> Valid(State())
    {
      if !Present(name) {
        return Fail(MissingCollectionName);
      }
      var c := NewCollection(name.value, description, isPublic, caller, now);
      collections := collections[nextId := c];
      reply := Ok((nextId, c));
      nextId := nextId + 1;
    }

    /** `POST /api/collections/:id/sounds`: the member list is pushed onto
        and the collection saved. */
    method AddSoundToCollection(caller: Id, cid: Id, sid: Id) returns (reply: Outcome<Collection>)
      modifies this
      ensures Step(State(), reply) == Catalog.AddToCollection(old(State()), caller, cid, sid)
      ensures Valid(old(State())) ==> Valid(State())
    {
      if cid !in collections {
        return Fail(CollectionNotFound);
      }
      var c := collections[cid];
      if c.owner != caller {
        return Fail(CollectionForbidden);
      }
      if sid in c.sounds {
        return Fail(AlreadyInCollection);
      }
      c := c.(sounds := c.sounds + [sid]);
      collections := collections[cid := c];
      reply := Ok(c);
    }

    /** `DELETE /api/collections/:id/sounds/:soundId`: the member list is
        replaced by its filtered copy and the collection saved. */
    method RemoveSoundFromCollection(caller: Id, cid: Id, sid: Id) returns (reply: Outcome<Collection>)
      modifies this
      ensures Step(State(), reply) == Catalog.RemoveFromCollection(old(State()), caller, cid, sid)
      ensures Valid(old(State())) ==> Valid(State())
    {
      if cid !in collections {
        return Fail(CollectionNotFound);
      }
      var c := collections[cid];
      if c.owner != caller {
        return Fail(CollectionForbidden);
      }
      c := c.(sounds := Catalog.Without(c.sounds, sid));
      collections := collections[cid := c];
      reply := Ok(c);
    }

    /** `DELETE /api/collections/:id`. */
    method DeleteCollection(caller: Id, cid: Id) returns (reply: Outcome<()>)
      modifies this
      ensures Step(State(), reply) == Catalog.DeleteCollection(old(State()), caller, cid)
      ensures Valid(old(State())) ==> Valid(State())
    {
      if cid !in collections {
        return Fail(CollectionNotFound);
      }
      if collections[cid].owner != caller {
        return Fail(DeleteCollectionForbidden);
      }
      collections := collections - {cid};
      reply := Ok(());
    }

    /** `POST /api/favorites`: the pre-check, then the save, whose
        duplicate-key error gets the same reply as the pre-check. */
    method AddFavorite(caller: Id, sid: Id, now: nat) returns (reply: Outcome<(Id, Favorite)>)
      modifies this
      ensures Step(State(), reply) == Catalog.AddFavorite(old(State()), caller, sid, now)
      ensures Valid(old(State())) ==> Valid(State())
    {
      if HasFavorite(favorites, caller, sid) {
        return Fail(AlreadyFavorited);
      }
      var f := Favorite(caller, sid, now);
      var saved := Catalog.SaveFavorite(favorites, nextId, f);
      if saved.DuplicateKey? {
        return Fail(AlreadyFavorited);
      }
      favorites := saved.favorites;
      reply := Ok((nextId, f));
      nextId := nextId + 1;
    }

    /** `DELETE /api/favorites/:soundId`. */
    method RemoveFavorite(caller: Id, sid: Id) returns (reply: Outcome<()>)
      modifies this
      ensures Step(State(), reply) == Catalog.RemoveFavorite(old(State()), caller, sid)
      ensures Valid(old(State())) ==> Valid(State())
    {
      favorites := map f | f in favorites && (favorites[f].user != caller || favorites[f].sound != sid)
                     :: favorites[f];
      reply := Ok(());
    }
  }
}
