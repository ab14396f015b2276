/** The resource catalog: what each route handler over sounds, collections
    and favorites does to the store and what it replies, as functions of
    the store before the request. The caller is the id the required
    middleware attached. Each handler checks in a fixed order: 404 when the
    record is missing, then 403 when the caller does not own it, then 400
    when the request is invalid; none of those replies changes the store. */
module Catalog {
  import opened Api
  import opened Models
  import opened Media

  // ---------------------------------------------------------------------
  // Sequences of sound references
  // ---------------------------------------------------------------------

  /** `sounds.filter(s => s !== x)`, and MongoDB's `$pull`: every occurrence
      of `x` removed, every other element kept as often as it occurs. */
  function Without(s: seq<Id>, x: Id): (r: seq<Id>)
    ensures forall y :: y in r <==> y in s && y != x
    ensures multiset(r) == multiset(s)[x := 0]
    ensures NoDuplicates(s) ==> NoDuplicates(r)
    ensures x !in s ==> r == s
    ensures |r| <= |s|
  {
    if s == [] then []
    else
      assert s == [s[0]] + s[1..];
      if s[0] == x then Without(s[1..], x)
      else
        var rest := Without(s[1..], x);
        assert NoDuplicates(s) ==> s[0] !in s[1..];
        [s[0]] + rest
  }

  /** Appending an element that was absent and then removing it gives the
      original list back. */
  lemma {:induction false} WithoutAppended(s: seq<Id>, x: Id)
    requires x !in s
    ensures Without(s + [x], x) == s
  {
    if s != [] {
      assert (s + [x])[1..] == s[1..] + [x];
      WithoutAppended(s[1..], x);
    } else {
      assert Without([x], x) == Without([], x);
    }
  }

  /** `collection.sounds.push(x)` when `x` is not yet a member: `x` then
      occurs exactly once, and a duplicate-free list stays duplicate-free. */
  lemma AppendFresh(s: seq<Id>, x: Id)
    requires x !in s
    ensures multiset(s + [x])[x] == 1
    ensures NoDuplicates(s) ==> NoDuplicates(s + [x])
  {
    assert multiset(s)[x] == 0;
  }

  // ---------------------------------------------------------------------
  // Sounds
  // ---------------------------------------------------------------------

  /** `POST /api/sounds`: 400 unless name and url are both given, then 400
      when the size exceeds 5 MB, then 400 when the duration exceeds 30 s
      (a value exactly at a limit passes, an absent one too). Otherwise one
      sound is stored, uploaded by the caller, with the default icon. */
  function CreateSound(db: Db, caller: Id, name: Option<string>, url: Option<string>,
                       color: Option<string>, duration: Option<real>, size: Option<real>,
                       now: nat): (r: Step<(Id, Sound)>)
    ensures r.reply.Fail? ==> r.db == db
    ensures !Present(name) || !Present(url) ==> r.reply == Fail(MissingSoundField)
    ensures Present(name) && Present(url) && !WithinLimit(size, MAX_FILE_SIZE) ==>
      r.reply == Fail(FileTooLarge)
    ensures Present(name) && Present(url) && WithinLimit(size, MAX_FILE_SIZE)
            && !WithinLimit(duration, MAX_DURATION) ==>
      r.reply == Fail(DurationTooLong)
    ensures r.reply.Ok? <==>
      Present(name) && Present(url) && WithinLimit(size, MAX_FILE_SIZE) && WithinLimit(duration, MAX_DURATION)
    ensures r.reply.Ok? ==>
      && r.reply.value.0 == db.nextId
      && r.reply.value.1.uploader == caller
      && r.reply.value.1.icon == DEFAULT_ICON
      && r.reply.value.1.name == name.value && r.reply.value.1.url == url.value
      && r.reply.value.1 == NewSound(name.value, url.value, color, duration, size, caller, now)
      && r.db == db.(sounds := db.sounds[db.nextId := r.reply.value.1], nextId := db.nextId + 1)
    ensures Valid(db) ==> Valid(r.db)
  {
    if !Present(name) || !Present(url) then Step(db, Fail(MissingSoundField))
    else if !WithinLimit(size, MAX_FILE_SIZE) then Step(db, Fail(FileTooLarge))
    else if !WithinLimit(duration, MAX_DURATION) then Step(db, Fail(DurationTooLong))
    else
      var s := NewSound(name.value, url.value, color, duration, size, caller, now);
      Step(db.(sounds := db.sounds[db.nextId := s], nextId := db.nextId + 1), Ok((db.nextId, s)))
  }

  /** `PUT /api/sounds/:id`: 404 for an unknown sound, 403 for anyone but
      its uploader. Otherwise only the name and the color change, each only
      when the request gives it (an undefined field is left out of the
      update). */
  function UpdateSound(db: Db, caller: Id, id: Id, name: Option<string>,
                       color: Option<string>): (r: Step<Sound>)
    ensures id !in db.sounds ==> r == Step(db, Fail(SoundNotFound))
    ensures id in db.sounds && db.sounds[id].uploader != caller ==>
      r == Step(db, Fail(UpdateSoundForbidden))
    ensures r.reply.Ok? <==> id in db.sounds && db.sounds[id].uploader == caller
    ensures r.reply.Ok? ==>
      var before, after := db.sounds[id], r.reply.value;
      && r.db == db.(sounds := db.sounds[id := after])
      && after == before.(name := after.name, color := after.color)
      && after.name == (if name.Some? then name.value else before.name)
      && after.color == (if color.Some? then color else before.color)
    ensures Valid(db) ==> Valid(r.db)
  {
    if id !in db.sounds then Step(db, Fail(SoundNotFound))
    else
      var s := db.sounds[id];
      if s.uploader != caller then Step(db, Fail(UpdateSoundForbidden))
      else
        var s' := s.(name := if name.Some? then name.value else s.name,
                     color := if color.Some? then color else s.color);
        Step(db.(sounds := db.sounds[id := s']), Ok(s'))
  }

  /** Every collection with `id` pulled from its sound list. */
  function PullFromCollections(collections: map<Id, Collection>, id: Id): (r: map<Id, Collection>)
    ensures r.Keys == collections.Keys
    ensures forall c :: c in r ==> r[c] == collections[c].(sounds := Without(collections[c].sounds, id))
  {
    map c | c in collections :: collections[c].(sounds := Without(collections[c].sounds, id))
  }

  /** Every favorite of sound `id` deleted (`Favorite.deleteMany`). */
  function DropFavoritesOf(favorites: map<Id, Favorite>, id: Id): (r: map<Id, Favorite>)
    ensures forall f :: f in r <==> f in favorites && favorites[f].sound != id
    ensures forall f :: f in r ==> r[f] == favorites[f]
  {
    map f | f in favorites && favorites[f].sound != id :: favorites[f]
  }

  /** `DELETE /api/sounds/:id`: 404 for an unknown sound, 403 for anyone
      but its uploader. Otherwise the stored file's delete is requested
      (without waiting for it), then the sound, every favorite of it and
      every collection reference to it are removed, and nothing else
      changes. */
  function DeleteSound(db: Db, caller: Id, id: Id, cfg: StorageConfig): (r: Step<Option<StorageDelete>>)
    ensures id !in db.sounds ==> r == Step(db, Fail(SoundNotFound))
    ensures id in db.sounds && db.sounds[id].uploader != caller ==>
      r == Step(db, Fail(DeleteSoundForbidden))
    ensures r.reply.Ok? <==> id in db.sounds && db.sounds[id].uploader == caller
    ensures r.reply.Ok? ==>
      && r.reply.value == DeleteRequest(cfg, db.sounds[id].url)
      && NoReferencesTo(r.db, id)
      && r.db.sounds == db.sounds - {id}
      && r.db.users == db.users && r.db.nextId == db.nextId
      && (forall f :: f in db.favorites && db.favorites[f].sound != id ==>
            f in r.db.favorites && r.db.favorites[f] == db.favorites[f])
      && (forall f :: f in r.db.favorites ==> f in db.favorites)
      && r.db.collections.Keys == db.collections.Keys
      && (forall c, y :: c in db.collections && y != id ==>
            (y in r.db.collections[c].sounds <==> y in db.collections[c].sounds))
      && (forall c :: c in db.collections ==>
            r.db.collections[c] == db.collections[c].(sounds := r.db.collections[c].sounds))
    ensures Valid(db) ==> Valid(r.db)
  {
    if id !in db.sounds then Step(db, Fail(SoundNotFound))
    else
      var s := db.sounds[id];
      if s.uploader != caller then Step(db, Fail(DeleteSoundForbidden))
      else
        var request := DeleteRequest(cfg, s.url);
        var db' := db.(sounds := db.sounds - {id},
                       favorites := DropFavoritesOf(db.favorites, id),
                       collections := PullFromCollections(db.collections, id));
        assert Valid(db) ==> Valid(db') by {
          if Valid(db) {
            PruneKeepsValid(db, id);
          }
        }
        Step(db', Ok(request))
  }

  /** Removing a sound with everything that refers to it keeps the store
      invariant. */
  lemma PruneKeepsValid(db: Db, id: Id)
    requires Valid(db)
    ensures Valid(db.(sounds := db.sounds - {id},
                      favorites := DropFavoritesOf(db.favorites, id),
                      collections := PullFromCollections(db.collections, id)))
  {
    var favorites := DropFavoritesOf(db.favorites, id);
    var collections := PullFromCollections(db.collections, id);
    assert UniqueFavorites(favorites);
    forall c | c in collections ensures WellFormedCollection(collections[c]) {
      assert WellFormedCollection(db.collections[c]);
    }
  }

  /** After a delete every user's favorites list leaves the sound out, and
      a second delete finds nothing. */
  lemma DeleteSoundIsFinal(db: Db, caller: Id, id: Id, cfg: StorageConfig, user: Id)
    requires DeleteSound(db, caller, id, cfg).reply.Ok?
    ensures var db' := DeleteSound(db, caller, id, cfg).db;
            && id !in ListFavorites(db', user)
            && DeleteSound(db', caller, id, cfg) == Step(db', Fail(SoundNotFound))
  {
  }

  /** A sound created and then deleted by its uploader leaves the sounds as
      they were. */
  lemma CreateThenDeleteSound(db: Db, caller: Id, name: Option<string>, url: Option<string>,
                              color: Option<string>, duration: Option<real>, size: Option<real>,
                              now: nat, cfg: StorageConfig)
    requires Valid(db)
    requires CreateSound(db, caller, name, url, color, duration, size, now).reply.Ok?
    ensures var c := CreateSound(db, caller, name, url, color, duration, size, now);
            var d := DeleteSound(c.db, caller, c.reply.value.0, cfg);
            d.reply.Ok? && d.db.sounds == db.sounds && d.db.users == db.users
  {
    var c := CreateSound(db, caller, name, url, color, duration, size, now);
    assert db.nextId !in db.sounds;
    assert c.db.sounds - {db.nextId} == db.sounds;
  }

  // ---------------------------------------------------------------------
  // Collections
  // ---------------------------------------------------------------------

  /** `POST /api/collections`: 400 without a name; otherwise one empty
      collection owned by the caller, private unless asked otherwise. */
  function CreateCollection(db: Db, caller: Id, name: Option<string>, description: Option<string>,
                            isPublic: Option<bool>, now: nat): (r: Step<(Id, Collection)>)
    ensures r.reply.Fail? ==> r == Step(db, Fail(MissingCollectionName))
    ensures r.reply.Ok? <==> Present(name)
    ensures r.reply.Ok? ==>
      && r.reply.value.0 == db.nextId
      && r.reply.value.1.owner == caller
      && r.reply.value.1.sounds == []
      && (r.reply.value.1.isPublic <==> isPublic == Some(true))
      && r.reply.value.1 == NewCollection(name.value, description, isPublic, caller, now)
      && r.db == db.(collections := db.collections[db.nextId := r.reply.value.1], nextId := db.nextId + 1)
    ensures Valid(db) ==> Valid(r.db)
  {
    if !Present(name) then Step(db, Fail(MissingCollectionName))
    else
      var c := NewCollection(name.value, description, isPublic, caller, now);
      Step(db.(collections := db.collections[db.nextId := c], nextId := db.nextId + 1), Ok((db.nextId, c)))
  }

  /** `GET /api/collections`: exactly the caller's own collections. */
  function ListOwnCollections(db: Db, caller: Id): (r: map<Id, Collection>)
    ensures forall c :: c in r <==> c in db.collections && db.collections[c].owner == caller
    ensures forall c :: c in r ==> r[c] == db.collections[c]
  {
    map c | c in db.collections && db.collections[c].owner == caller :: db.collections[c]
  }

  /** `POST /api/collections/:id/sounds`: 404 for an unknown collection,
      403 for anyone but its owner, 400 when the sound is already a member.
      Otherwise the sound is appended, exactly once, and nothing else
      changes. The sound itself is not looked up. */
  function AddToCollection(db: Db, caller: Id, cid: Id, sid: Id): (r: Step<Collection>)
    ensures cid !in db.collections ==> r == Step(db, Fail(CollectionNotFound))
    ensures cid in db.collections && db.collections[cid].owner != caller ==>
      r == Step(db, Fail(CollectionForbidden))
    ensures cid in db.collections && db.collections[cid].owner == caller
            && sid in db.collections[cid].sounds ==>
      r == Step(db, Fail(AlreadyInCollection))
    ensures r.reply.Ok? <==>
      cid in db.collections && db.collections[cid].owner == caller && sid !in db.collections[cid].sounds
    ensures r.reply.Ok? ==>
      && r.reply.value == db.collections[cid].(sounds := db.collections[cid].sounds + [sid])
      && multiset(r.reply.value.sounds)[sid] == 1
      && (NoDuplicates(db.collections[cid].sounds) ==> NoDuplicates(r.reply.value.sounds))
      && r.db == db.(collections := db.collections[cid := r.reply.value])
    ensures Valid(db) ==> Valid(r.db)
  {
    if cid !in db.collections then Step(db, Fail(CollectionNotFound))
    else
      var c := db.collections[cid];
      if c.owner != caller then Step(db, Fail(CollectionForbidden))
      else if sid in c.sounds then Step(db, Fail(AlreadyInCollection))
      else
        AppendFresh(c.sounds, sid);
        var c' := c.(sounds := c.sounds + [sid]);
        Step(db.(collections := db.collections[cid := c']), Ok(c'))
  }

  /** `DELETE /api/collections/:id/sounds/:soundId`: 404 for an unknown
      collection, 403 for anyone but its owner; otherwise every occurrence
      of the sound is filtered out, whether or not it was there. */
  function RemoveFromCollection(db: Db, caller: Id, cid: Id, sid: Id): (r: Step<Collection>)
    ensures cid !in db.collections ==> r == Step(db, Fail(CollectionNotFound))
    ensures cid in db.collections && db.collections[cid].owner != caller ==>
      r == Step(db, Fail(CollectionForbidden))
    ensures r.reply.Ok? <==> cid in db.collections && db.collections[cid].owner == caller
    ensures r.reply.Ok? ==>
      && sid !in r.reply.value.sounds
      && (forall y :: y != sid ==> (y in r.reply.value.sounds <==> y in db.collections[cid].sounds))
      && r.reply.value == db.collections[cid].(sounds := r.reply.value.sounds)
      && r.db == db.(collections := db.collections[cid := r.reply.value])
    ensures Valid(db) ==> Valid(r.db)
  {
    if cid !in db.collections then Step(db, Fail(CollectionNotFound))
    else
      var c := db.collections[cid];
      if c.owner != caller then Step(db, Fail(CollectionForbidden))
      else
        var c' := c.(sounds := Without(c.sounds, sid));
        Step(db.(collections := db.collections[cid := c']), Ok(c'))
  }

  /** Removing a sound from a collection twice has the effect and the reply
      of removing it once. */
  lemma RemoveFromCollectionIdempotent(db: Db, caller: Id, cid: Id, sid: Id)
    ensures var once := RemoveFromCollection(db, caller, cid, sid);
            RemoveFromCollection(once.db, caller, cid, sid) == once
  {
    var once := RemoveFromCollection(db, caller, cid, sid);
    if once.reply.Ok? {
      var c := db.collections[cid];
      assert once.db.collections[cid] == c.(sounds := Without(c.sounds, sid));
      assert once.db.collections[cid := once.db.collections[cid]] == once.db.collections;
    }
  }

  /** Removing a sound just added to a collection restores the store. */
  lemma AddThenRemove(db: Db, caller: Id, cid: Id, sid: Id)
    requires AddToCollection(db, caller, cid, sid).reply.Ok?
    ensures var added := AddToCollection(db, caller, cid, sid);
            RemoveFromCollection(added.db, caller, cid, sid).db == db
  {
    var c := db.collections[cid];
    WithoutAppended(c.sounds, sid);
    assert db.collections[cid := c] == db.collections;
  }

  /** `DELETE /api/collections/:id`: 404 for an unknown collection, 403 for
      anyone but its owner; otherwise that collection alone is removed. */
  function DeleteCollection(db: Db, caller: Id, cid: Id): (r: Step<()>)
    ensures cid !in db.collections ==> r == Step(db, Fail(CollectionNotFound))
    ensures cid in db.collections && db.collections[cid].owner != caller ==>
      r == Step(db, Fail(DeleteCollectionForbidden))
    ensures r.reply.Ok? <==> cid in db.collections && db.collections[cid].owner == caller
    ensures r.reply.Ok? ==> r.db == db.(collections := db.collections - {cid})
    ensures Valid(db) ==> Valid(r.db)
  {
    if cid !in db.collections then Step(db, Fail(CollectionNotFound))
    else if db.collections[cid].owner != caller then Step(db, Fail(DeleteCollectionForbidden))
    else Step(db.(collections := db.collections - {cid}), Ok(()))
  }

  // ---------------------------------------------------------------------
  // Favorites
  // ---------------------------------------------------------------------

  /** The outcome of saving a favorite under the unique (user, sound)
      index: stored, or refused with a duplicate-key error (code 11000). */
  datatype Saved = Inserted(favorites: map<Id, Favorite>) | DuplicateKey

  /** `favorite.save()`: the unique index refuses a second favorite of the
      same pair, so it can never be broken by a save. */
  function SaveFavorite(favorites: map<Id, Favorite>, id: Id, f: Favorite): (r: Saved)
    ensures r == DuplicateKey <==> HasFavorite(favorites, f.user, f.sound)
    ensures r.Inserted? ==> r.favorites == favorites[id := f]
    ensures r.Inserted? && UniqueFavorites(favorites) && id !in favorites ==> UniqueFavorites(r.favorites)
  {
    if HasFavorite(favorites, f.user, f.sound) then DuplicateKey
    else Inserted(favorites[id := f])
  }

  /** `POST /api/favorites`: 400 "已收藏" when the caller already has this
      sound as a favorite, whether the pre-check or the unique index finds
      it; otherwise exactly one favorite is added. The sound itself is not
      looked up. */
  function AddFavorite(db: Db, caller: Id, sid: Id, now: nat): (r: Step<(Id, Favorite)>)
    ensures r.reply.Fail? ==> r == Step(db, Fail(AlreadyFavorited))
    ensures r.reply.Fail? <==> HasFavorite(db.favorites, caller, sid)
    ensures r.reply.Ok? ==>
      && r.reply.value == (db.nextId, Favorite(caller, sid, now))
      && r.db == db.(favorites := db.favorites[db.nextId := Favorite(caller, sid, now)],
                     nextId := db.nextId + 1)
    ensures r.reply.Ok? && Valid(db) ==> |r.db.favorites| == |db.favorites| + 1
    ensures Valid(db) ==> Valid(r.db)
  {
    if HasFavorite(db.favorites, caller, sid) then Step(db, Fail(AlreadyFavorited))
    else
      var f := Favorite(caller, sid, now);
      match SaveFavorite(db.favorites, db.nextId, f)
      case DuplicateKey => Step(db, Fail(AlreadyFavorited))
      case Inserted(favorites) =>
        Step(db.(favorites := favorites, nextId := db.nextId + 1), Ok((db.nextId, f)))
  }

  /** Favoriting the same sound twice: the second attempt gets 400 and the
      favorites stay as the first attempt left them. */
  lemma FavoriteTwice(db: Db, caller: Id, sid: Id, now: nat, later: nat)
    ensures var first := AddFavorite(db, caller, sid, now);
            AddFavorite(first.db, caller, sid, later) == Step(first.db, Fail(AlreadyFavorited))
  {
    var first := AddFavorite(db, caller, sid, now);
    if first.reply.Ok? {
      assert first.db.favorites[db.nextId] == Favorite(caller, sid, now);
    }
  }

  /** `DELETE /api/favorites/:soundId`: always succeeds; afterwards the
      caller has no favorite of the sound and every other favorite stays. */
  function RemoveFavorite(db: Db, caller: Id, sid: Id): (r: Step<()>)
    ensures r.reply == Ok(())
    ensures !HasFavorite(r.db.favorites, caller, sid)
    ensures forall f :: f in r.db.favorites <==>
      f in db.favorites && (db.favorites[f].user != caller || db.favorites[f].sound != sid)
    ensures forall f :: f in r.db.favorites ==> r.db.favorites[f] == db.favorites[f]
    ensures r.db == db.(favorites := r.db.favorites)
    ensures Valid(db) ==> Valid(r.db)
  {
    var kept := map f | f in db.favorites && (db.favorites[f].user != caller || db.favorites[f].sound != sid)
                  :: db.favorites[f];
    Step(db.(favorites := kept), Ok(()))
  }

  /** Under the unique index an unfavorite removes at most one record. */
  lemma RemoveFavoriteAtMostOne(db: Db, caller: Id, sid: Id)
    requires UniqueFavorites(db.favorites)
    ensures |db.favorites| <= |RemoveFavorite(db, caller, sid).db.favorites| + 1
  {
    var kept := RemoveFavorite(db, caller, sid).db.favorites.Keys;
    var gone := db.favorites.Keys - kept;
    assert db.favorites.Keys == kept + gone;
    AtMostOnePair(db.favorites, caller, sid, gone);
    assert |db.favorites.Keys| == |kept| + |gone|;
  }

  /** Under the unique index, the favorites of one pair number at most one. */
  lemma AtMostOnePair(favorites: map<Id, Favorite>, caller: Id, sid: Id, ids: set<Id>)
    requires UniqueFavorites(favorites)
    requires forall f :: f in ids ==> f in favorites && favorites[f].user == caller && favorites[f].sound == sid
    ensures |ids| <= 1
  {
    if ids != {} {
      var f :| f in ids;
      assert ids == {f};
    }
  }

  /** Unfavoriting a sound just favorited restores the favorites. */
  lemma FavoriteThenUnfavorite(db: Db, caller: Id, sid: Id, now: nat)
    requires IdsIssued(db)
    requires AddFavorite(db, caller, sid, now).reply.Ok?
    ensures var added := AddFavorite(db, caller, sid, now);
            RemoveFavorite(added.db, caller, sid).db.favorites == db.favorites
  {
    var added := AddFavorite(db, caller, sid, now);
    assert added.db.favorites == db.favorites[db.nextId := Favorite(caller, sid, now)];
    assert !HasFavorite(db.favorites, caller, sid);
    assert db.nextId !in db.favorites;
    var back := RemoveFavorite(added.db, caller, sid).db.favorites;
    assert back.Keys == db.favorites.Keys;
  }

  /** `GET /api/favorites`: the sounds the caller has favorited. */
  function ListFavorites(db: Db, caller: Id): (r: set<Id>)
    ensures forall s :: s in r <==> HasFavorite(db.favorites, caller, s)
  {
    set f | f in db.favorites && db.favorites[f].user == caller :: db.favorites[f].sound
  }

  // ---------------------------------------------------------------------
  // The public sound list
  // ---------------------------------------------------------------------

  /** One entry of `GET /api/sounds`. */
  datatype SoundView = SoundView(sound: Sound, isFavorite: bool)

  /** `GET /api/sounds` behind the optional middleware: every sound, each
      flagged as a favorite of the caller; with no caller nothing is
      flagged. */
  function ListSounds(db: Db, caller: Option<Id>): (r: map<Id, SoundView>)
    ensures r.Keys == db.sounds.Keys
    ensures forall id :: id in r ==> r[id].sound == db.sounds[id]
    ensures caller.None? ==> forall id :: id in r ==> !r[id].isFavorite
  {
    var favorites := if caller.Some? then ListFavorites(db, caller.value) else {};
    map id | id in db.sounds :: SoundView(db.sounds[id], id in favorites)
  }
}
