/** The four record kinds of the store (User, Sound, Collection, Favorite),
    their defaults and normalisations, and the store invariant that the
    schemas, the unique indexes and the handlers' checks maintain. */
module Models {
  import opened Api
  import opened Strings

  /** Document ids. Every record gets a fresh id from one counter, as
      ObjectIds are unique across collections. */
  type Id = nat

  /** The icon a sound gets when none is supplied. */
  const DEFAULT_ICON := "fa-music"

  /** A registered account. The password field is not part of this model. */
  datatype User = User(username: string, email: string, createdAt: nat)

  /** An uploaded clip. `color`, `duration` and `size` are stored only when
      the request supplied them. */
  datatype Sound = Sound(
    name: string,
    url: string,
    color: Option<string>,
    icon: string,
    duration: Option<real>,
    size: Option<real>,
    uploader: Id,
    createdAt: nat)

  /** A named, owned list of sound references. */
  datatype Collection = Collection(
    name: string,
    description: Option<string>,
    owner: Id,
    sounds: seq<Id>,
    isPublic: bool,
    createdAt: nat)

  /** A user's bookmark of a sound. */
  datatype Favorite = Favorite(user: Id, sound: Id, createdAt: nat)

  /** The whole store: one map per collection of documents, and the next
      fresh id. */
  datatype Db = Db(
    users: map<Id, User>,
    sounds: map<Id, Sound>,
    collections: map<Id, Collection>,
    favorites: map<Id, Favorite>,
    nextId: nat)

  const EmptyDb := Db(map[], map[], map[], map[], 0)

  /** A handler's effect: the store afterwards and the reply it sends. */
  datatype Step<+T> = Step(db: Db, reply: Outcome<T>)

  // ---------------------------------------------------------------------
  // Defaults and normalisation
  // ---------------------------------------------------------------------

  /** A sound document as the schema builds it: the icon is always the
      default one, because the request's fields do not include an icon. */
  function NewSound(name: string, url: string, color: Option<string>, duration: Option<real>,
                    size: Option<real>, uploader: Id, now: nat): (s: Sound)
    ensures s.icon == DEFAULT_ICON && s.uploader == uploader && s.createdAt == now
    ensures s.name == name && s.url == url && s.color == color
    ensures s.duration == duration && s.size == size
  {
    Sound(name, url, color, DEFAULT_ICON, duration, size, uploader, now)
  }

  /** A collection document as the schema builds it: no members yet, and
      private unless the request said `isPublic: true`. */
  function NewCollection(name: string, description: Option<string>, isPublic: Option<bool>,
                         owner: Id, now: nat): (c: Collection)
    ensures c.sounds == [] && c.owner == owner && c.name == name
    ensures c.description == description && c.createdAt == now
    ensures c.isPublic <==> isPublic == Some(true)
  {
    Collection(name, description, owner, [], if isPublic.Some? then isPublic.value else false, now)
  }

  /** The stored form of a username: the input with only its surrounding
      white space dropped. */
  function NormalizeUsername(u: string): (r: string)
    ensures IsTrimmed(r) && |r| <= |u|
    ensures IsTrimmed(u) ==> r == u
  {
    TrimKeepsTrimmed(u);
    Trim(u)
  }

  /** The stored form of an email: the lower-cased input with only its
      surrounding white space dropped. */
  function NormalizeEmail(e: string): (r: string)
    ensures |r| <= |e|
    ensures IsTrimmed(e) && NoUpper(e) ==> r == e
  {
    ToLowerFixedWhenNoUpper(e);
    TrimKeepsTrimmed(ToLower(e));
    Trim(ToLower(e))
  }

  /** Text without an upper-case letter is its own lower case. */
  lemma ToLowerFixedWhenNoUpper(s: string)
    ensures NoUpper(s) ==> ToLower(s) == s
  {
    if NoUpper(s) {
      ToLowerFixed(s);
    }
  }

  /** Text without surrounding white space is its own trim. */
  lemma TrimKeepsTrimmed(s: string)
    ensures |Trim(s)| <= |s|
    ensures IsTrimmed(s) ==> Trim(s) == s
  {
    var k :| OccursAt(s, Trim(s), k);
    if IsTrimmed(s) && s != [] {
      assert TrimStart(s) == s;
      assert TrimEnd(s) == s;
    }
  }

  /** The stored email has no upper-case letter and no surrounding white
      space. */
  lemma NormalizeEmailIsNormal(e: string)
    ensures IsTrimmed(NormalizeEmail(e)) && NoUpper(NormalizeEmail(e))
  {
    var lower := ToLower(e);
    assert NoUpper(lower);
    var k :| OccursAt(lower, Trim(lower), k);
    InfixNoUpper(lower, Trim(lower), k);
  }

  /** A piece of a string with no upper-case letter has none either. */
  lemma InfixNoUpper(s: string, piece: string, k: int)
    requires OccursAt(s, piece, k) && NoUpper(s)
    ensures NoUpper(piece)
  {
    forall i | 0 <= i < |piece| ensures !IsAsciiUpper(piece[i]) {
      assert piece[i] == s[k + i];
    }
  }

  /** Normalising an email twice is normalising it once, so uniqueness of
      stored emails is uniqueness after normalisation. */
  lemma NormalizeEmailIdempotent(e: string)
    ensures NormalizeEmail(NormalizeEmail(e)) == NormalizeEmail(e)
  {
    var n := NormalizeEmail(e);
    NormalizeEmailIsNormal(e);
    ToLowerFixed(n);
    TrimIdempotent(ToLower(e));
  }

  // ---------------------------------------------------------------------
  // Invariants
  // ---------------------------------------------------------------------

  /** No element occurs twice. */
  predicate NoDuplicates(s: seq<Id>)
  {
    forall i, j :: 0 <= i < j < |s| ==> s[i] != s[j]
  }

  /** A username or email is the one some user already has. */
  predicate Taken(users: map<Id, User>, username: string, email: string)
  {
    exists id :: id in users && (users[id].username == username || users[id].email == email)
  }

  /** `username` and `email` are unique indexes: two distinct users share
      neither. */
  predicate UniqueUsers(users: map<Id, User>)
  {
    forall a, b :: a in users && b in users && a != b ==>
      users[a].username != users[b].username && users[a].email != users[b].email
  }

  /** No white space at either end. */
  predicate IsTrimmed(s: string)
  {
    s == [] || (!IsJsSpace(s[0]) && !IsJsSpace(s[|s| - 1]))
  }

  predicate NoUpper(s: string)
  {
    forall i :: 0 <= i < |s| ==> !IsAsciiUpper(s[i])
  }

  /** Both are required, and stored in normalised form: trimmed, and the
      email lower-cased. */
  predicate WellFormedUser(u: User)
  {
    u.username != "" && IsTrimmed(u.username)
    && u.email != "" && IsTrimmed(u.email) && NoUpper(u.email)
  }

  /** A limit check as JavaScript's `>` makes it: an absent number compares
      false, so it passes. */
  predicate WithinLimit(x: Option<real>, limit: nat)
  {
    x.None? || x.value <= limit as real
  }

  /** What creation guarantees of a sound, which no later update undoes. */
  predicate WellFormedSound(s: Sound)
  {
    s.url != "" && WithinLimit(s.size, MAX_FILE_SIZE) && WithinLimit(s.duration, MAX_DURATION)
  }

  /** A collection has a name, and lists each sound at most once. */
  predicate WellFormedCollection(c: Collection)
  {
    c.name != "" && NoDuplicates(c.sounds)
  }

  /** The compound unique index on (user, sound): at most one favorite per
      pair. */
  predicate UniqueFavorites(favorites: map<Id, Favorite>)
  {
    forall f, g :: f in favorites && g in favorites && f != g ==>
      favorites[f].user != favorites[g].user || favorites[f].sound != favorites[g].sound
  }

  /** Some favorite records this (user, sound) pair. */
  predicate HasFavorite(favorites: map<Id, Favorite>, user: Id, sound: Id)
  {
    exists f :: f in favorites && favorites[f].user == user && favorites[f].sound == sound
  }

  /** Every id in use was handed out by the counter. */
  predicate IdsIssued(db: Db)
  {
    && (forall id :: id in db.users ==> id < db.nextId)
    && (forall id :: id in db.sounds ==> id < db.nextId)
    && (forall id :: id in db.collections ==> id < db.nextId)
    && (forall id :: id in db.favorites ==> id < db.nextId)
  }

  /** The store invariant. The unique indexes and the user schema's
      `required`, `trim` and `lowercase` keep the user conjuncts and the
      favorite pairs; the sound and collection conjuncts are kept by the
      handlers' own checks (url present, size and duration limits, no sound
      added to a collection twice), since those schemas impose none of it. */
  predicate Valid(db: Db)
  {
    && IdsIssued(db)
    && UniqueUsers(db.users)
    && (forall id :: id in db.users ==> WellFormedUser(db.users[id]))
    && (forall id :: id in db.sounds ==> WellFormedSound(db.sounds[id]))
    && (forall id :: id in db.collections ==> WellFormedCollection(db.collections[id]))
    && UniqueFavorites(db.favorites)
  }

  /** Nothing in the store refers to sound `id` any more. */
  predicate NoReferencesTo(db: Db, id: Id)
  {
    && id !in db.sounds
    && (forall f :: f in db.favorites ==> db.favorites[f].sound != id)
    && (forall c :: c in db.collections ==> id !in db.collections[c].sounds)
  }

  lemma EmptyDbValid()
    ensures Valid(EmptyDb)
  {
  }
}
