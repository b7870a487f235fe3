/**
 * The account and favourites service behind the dashboard: a `User` table,
 * a `FavoriteCity` table and the `user_id` entry of the session, with the
 * route handlers that read and change them.
 *
 * Tables are sequences of rows in rowid order. A new row gets the rowid
 * SQLite assigns to an `INTEGER PRIMARY KEY`: one more than the largest id
 * in the table (1 for an empty table). Password hashing is a pair of
 * functions fixed when the service is built: `hashPassword(password, salt)`
 * and `checkPassword(hash, password)`, with a check that accepts every hash
 * of the same password.
 */
module Accounts {

  import opened Wrappers

  datatype User = User(id: int, username: string, email: string, passwordHash: string, temperatureUnit: string)

  datatype FavoriteCity = FavoriteCity(id: int, userId: int, cityName: string,
                                       latitude: Option<real>, longitude: Option<real>)

  /** The `user` object the routes answer with (the password hash stays inside). */
  datatype UserView = UserView(id: int, username: string, email: string, temperatureUnit: string)

  /**
   * A reply's HTTP status and its `error` or `message` text; `""` when the
   * body carries only data.
   */
  datatype Reply = Reply(status: int, message: string)

  function ViewOf(u: User): (v: UserView)
    ensures v.id == u.id && v.username == u.username && v.email == u.email
    ensures v.temperatureUnit == u.temperatureUnit
  {
    UserView(u.id, u.username, u.email, u.temperatureUnit)
  }

  /**
   * A reply's user object tells two users apart exactly when they differ in
   * something other than the password hash: the hash never reaches a reply.
   */
  lemma ViewOmitsHash(u: User, v: User)
    ensures ViewOf(u) == ViewOf(v) <==> u.(passwordHash := v.passwordHash) == v
    ensures ViewOf(u.(passwordHash := v.passwordHash)) == ViewOf(u)
  {
  }

  /** A request field is truthy: present, and not the empty string. */
  predicate Given(field: Option<string>)
  {
    field.Some? && field.value != ""
  }

  /** `session.get('user_id')` is truthy: present, and not 0. */
  predicate SignedIn(session: Option<int>)
  {
    session.Some? && session.value != 0
  }

  // ---------------------------------------------------------------------
  // Row ids

  /** The largest id in use, or 0 for an empty table. */
  function MaxId(ids: seq<int>): (m: int)
    ensures forall i :: 0 <= i < |ids| ==> ids[i] <= m
    ensures m == 0 || m in ids
    ensures m >= 0
  {
    if ids == [] then 0
    else
      var m := MaxId(ids[..|ids| - 1]);
      if ids[|ids| - 1] > m then ids[|ids| - 1] else m
  }

  /** The rowid SQLite gives the next inserted row. */
  function NextId(ids: seq<int>): (n: int)
    ensures forall i :: 0 <= i < |ids| ==> ids[i] < n
    ensures n >= 1
  {
    MaxId(ids) + 1
  }

  /** The id column of a table, row by row. */
  function Ids<T>(rows: seq<T>, id: T -> int): (ids: seq<int>)
    ensures |ids| == |rows| && forall i :: 0 <= i < |rows| ==> ids[i] == id(rows[i])
  {
    seq(|rows|, i requires 0 <= i < |rows| => id(rows[i]))
  }

  function UserId(u: User): int { u.id }

  function FavoriteId(f: FavoriteCity): int { f.id }

  // ---------------------------------------------------------------------
  // Table invariants

  /**
   * The user table: positive ids in increasing order, and no username and
   * no email shared by two users (both columns are declared unique).
   */
  predicate UsersWellFormed(users: seq<User>)
  {
    && (forall i :: 0 <= i < |users| ==> users[i].id > 0)
    && (forall i, j :: 0 <= i < j < |users| ==> users[i].id < users[j].id)
    && (forall i, j :: 0 <= i < j < |users| ==> users[i].username != users[j].username)
    && (forall i, j :: 0 <= i < j < |users| ==> users[i].email != users[j].email)
  }

  /**
   * The favourites table: positive ids in increasing order, and no user
   * holding the same city name twice.
   */
  predicate FavoritesWellFormed(favorites: seq<FavoriteCity>)
  {
    && (forall i :: 0 <= i < |favorites| ==> favorites[i].id > 0)
    && (forall i, j :: 0 <= i < j < |favorites| ==> favorites[i].id < favorites[j].id)
    && (forall i, j :: 0 <= i < j < |favorites| ==>
          favorites[i].userId != favorites[j].userId || favorites[i].cityName != favorites[j].cityName)
  }

  // ---------------------------------------------------------------------
  // Queries

  /** `query.filter_by(...).first()`: the position of the first matching row. */
  function FirstWhere<T>(rows: seq<T>, matches: T -> bool): (r: Option<nat>)
    ensures r.Some? ==> r.value < |rows| && matches(rows[r.value])
    ensures r.Some? ==> forall j :: 0 <= j < r.value ==> !matches(rows[j])
    ensures r.None? ==> forall j :: 0 <= j < |rows| ==> !matches(rows[j])
  {
    if rows == [] then None
    else if matches(rows[0]) then Some(0)
    else match FirstWhere(rows[1..], matches)
      case Some(k) => Some(k + 1)
      case None => None
  }

  /** `User.query.filter_by(username=name).first()` */
  function UserNamed(users: seq<User>, name: string): (r: Option<nat>)
    ensures r.Some? ==> r.value < |users| && users[r.value].username == name
    ensures r.None? ==> forall j :: 0 <= j < |users| ==> users[j].username != name
  {
    FirstWhere(users, (u: User) => u.username == name)
  }

  /** `User.query.get(id)` */
  function UserWithId(users: seq<User>, id: int): (r: Option<nat>)
    ensures r.Some? ==> r.value < |users| && users[r.value].id == id
    ensures r.None? ==> forall j :: 0 <= j < |users| ==> users[j].id != id
  {
    FirstWhere(users, (u: User) => u.id == id)
  }

  /** `FavoriteCity.query.filter_by(id=id, user_id=owner).first()` */
  function FavoriteOf(favorites: seq<FavoriteCity>, id: int, owner: int): (r: Option<nat>)
    ensures r.Some? ==> r.value < |favorites| && favorites[r.value].id == id && favorites[r.value].userId == owner
    ensures r.None? ==> forall j :: 0 <= j < |favorites| ==> !(favorites[j].id == id && favorites[j].userId == owner)
  {
    FirstWhere(favorites, (f: FavoriteCity) => f.id == id && f.userId == owner)
  }

  predicate UsernameTaken(users: seq<User>, name: string)
  {
    exists i :: 0 <= i < |users| && users[i].username == name
  }

  predicate EmailTaken(users: seq<User>, email: string)
  {
    exists i :: 0 <= i < |users| && users[i].email == email
  }

  predicate HasFavorite(favorites: seq<FavoriteCity>, owner: int, city: string)
  {
    exists i :: 0 <= i < |favorites| && favorites[i].userId == owner && favorites[i].cityName == city
  }

  /** `FavoriteCity.query.filter_by(user_id=owner).all()`, in rowid order. */
  function OwnedBy(favorites: seq<FavoriteCity>, owner: int): (r: seq<FavoriteCity>)
    ensures forall f :: f in r <==> f in favorites && f.userId == owner
    ensures |r| <= |favorites|
  {
    if favorites == [] then []
    else if favorites[0].userId == owner then [favorites[0]] + OwnedBy(favorites[1..], owner)
    else OwnedBy(favorites[1..], owner)
  }

  /** The table without its row at position `i`. */
  function Deleted<T>(rows: seq<T>, i: nat): (r: seq<T>)
    requires i < |rows|
    ensures |r| == |rows| - 1
    ensures forall j :: 0 <= j < i ==> r[j] == rows[j]
    ensures forall j :: i <= j < |r| ==> r[j] == rows[j + 1]
  {
    rows[..i] + rows[i + 1..]
  }

  // ---------------------------------------------------------------------
  // Lemmas about the tables

  /** Under the invariant, the user found by name is the only one with that name. */
  lemma UserNamedIsUnique(users: seq<User>, name: string, i: nat)
    requires UsersWellFormed(users)
    requires i < |users| && users[i].username == name
    ensures UserNamed(users, name) == Some(i)
  {
  }

  /** A new user with a fresh username and email and the next rowid keeps the user table well formed. */
  lemma AppendUserWellFormed(users: seq<User>, u: User)
    requires UsersWellFormed(users)
    requires !UsernameTaken(users, u.username) && !EmailTaken(users, u.email)
    requires u.id == NextId(Ids(users, UserId))
    ensures UsersWellFormed(users + [u])
  {
    var ids := Ids(users, UserId);
    assert forall i :: 0 <= i < |users| ==> users[i].id == ids[i] < u.id;
  }

  /** A favourite with a city its owner does not hold yet and the next rowid keeps the table well formed. */
  lemma AppendFavoriteWellFormed(favorites: seq<FavoriteCity>, f: FavoriteCity)
    requires FavoritesWellFormed(favorites)
    requires !HasFavorite(favorites, f.userId, f.cityName)
    requires f.id == NextId(Ids(favorites, FavoriteId))
    ensures FavoritesWellFormed(favorites + [f])
  {
    var ids := Ids(favorites, FavoriteId);
    assert forall i :: 0 <= i < |favorites| ==> favorites[i].id == ids[i] < f.id;
  }

  /** Deleting a row keeps the favourites table well formed. */
  lemma DeletedWellFormed(favorites: seq<FavoriteCity>, i: nat)
    requires FavoritesWellFormed(favorites) && i < |favorites|
    ensures FavoritesWellFormed(Deleted(favorites, i))
  {
    var r := Deleted(favorites, i);
    forall a, b | 0 <= a < b < |r|
      ensures r[a].id < r[b].id
      ensures r[a].userId != r[b].userId || r[a].cityName != r[b].cityName
    {
      var a', b' := if a < i then a else a + 1, if b < i then b else b + 1;
      assert r[a] == favorites[a'] && r[b] == favorites[b'] && a' < b';
    }
  }

  /** A user's listing grows by the appended row exactly when the row is theirs. */
  lemma {:induction false} OwnedByAppend(favorites: seq<FavoriteCity>, f: FavoriteCity, owner: int)
    ensures OwnedBy(favorites + [f], owner)
         == OwnedBy(favorites, owner) + (if f.userId == owner then [f] else [])
  {
    if favorites == [] {
      assert [] + [f] == [f];
    } else {
      assert (favorites + [f])[1..] == favorites[1..] + [f];
      OwnedByAppend(favorites[1..], f, owner);
    }
  }

  /** The listing of a concatenation is the concatenation of the listings. */
  lemma {:induction false} OwnedByConcat(a: seq<FavoriteCity>, b: seq<FavoriteCity>, owner: int)
    ensures OwnedBy(a + b, owner) == OwnedBy(a, owner) + OwnedBy(b, owner)
  {
    if a == [] {
      assert a + b == b;
    } else {
      assert (a + b)[1..] == a[1..] + b;
      OwnedByConcat(a[1..], b, owner);
    }
  }

  /** Deleting someone else's row leaves a user's listing as it was. */
  lemma DeleteKeepsOthers(favorites: seq<FavoriteCity>, i: nat, owner: int)
    requires i < |favorites| && favorites[i].userId != owner
    ensures OwnedBy(Deleted(favorites, i), owner) == OwnedBy(favorites, owner)
  {
    var pre, row, post := favorites[..i], [favorites[i]], favorites[i + 1..];
    assert favorites == pre + row + post;
    assert OwnedBy(row, owner) == [] by {
      assert row[1..] == [];
    }
    calc {
      OwnedBy(Deleted(favorites, i), owner);
      { assert Deleted(favorites, i) == pre + post; }
      OwnedBy(pre + post, owner);
      { OwnedByConcat(pre, post, owner); }
      OwnedBy(pre, owner) + OwnedBy(post, owner);
      { OwnedByConcat(pre, row, owner); }
      OwnedBy(pre + row, owner) + OwnedBy(post, owner);
      { OwnedByConcat(pre + row, post, owner); }
      OwnedBy(favorites, owner);
    }
  }

  /** Deleting one of a user's rows takes exactly that row out of their listing. */
  lemma DeleteRemovesOwn(favorites: seq<FavoriteCity>, i: nat)
    requires FavoritesWellFormed(favorites) && i < |favorites|
    ensures favorites[i] !in OwnedBy(Deleted(favorites, i), favorites[i].userId)
    ensures |OwnedBy(Deleted(favorites, i), favorites[i].userId)| + 1
         == |OwnedBy(favorites, favorites[i].userId)|
  {
    var owner := favorites[i].userId;
    var pre, row, post := favorites[..i], favorites[i..i + 1], favorites[i + 1..];
    assert favorites == pre + row + post;
    assert Deleted(favorites, i) == pre + post;
    OwnedByConcat(pre + row, post, owner);
    OwnedByConcat(pre, row, owner);
    OwnedByConcat(pre, post, owner);
    assert OwnedBy(row, owner) == [favorites[i]] by {
      assert row[1..] == [];
    }
    forall j | 0 <= j < |favorites| && j != i
      ensures favorites[j] != favorites[i]
    {
      assert favorites[j].id != favorites[i].id;
    }
    assert favorites[i] !in pre + post;
  }

  // ---------------------------------------------------------------------
  // The service

  class App {
    /** `generate_password_hash(password)` with its random salt made an argument. */
    const hashPassword: (string, string) -> string
    /** `check_password_hash(hash, password)` */
    const checkPassword: (string, string) -> bool

    var users: seq<User>
    var favorites: seq<FavoriteCity>
    /** `session['user_id']`, absent when nobody is signed in. */
    var session: Option<int>

    ghost predicate Valid()
      reads this
    {
      && (forall password, salt :: checkPassword(hashPassword(password, salt), password))
      && UsersWellFormed(users)
      && FavoritesWellFormed(favorites)
    }

    /**
     * `db.create_all()` on a new database file, and a client that holds no
     * session yet.
     */
    constructor (hash: (string, string) -> string, check: (string, string) -> bool)
      requires forall password, salt :: check(hash(password, salt), password)
      ensures Valid()
      ensures hashPassword == hash && checkPassword == check
      ensures users == [] && favorites == [] && session == None
    {
      hashPassword := hash;
      checkPassword := check;
      users := [];
      favorites := [];
      session := None;
    }

    /**
     * `POST /api/register`. All three fields are required; the username,
     * then the email, must not be in use. A new user starts in Celsius and
     * is signed in at once.
     */
    method Register(username: Option<string>, email: Option<string>, password: Option<string>, salt: string)
      returns (reply: Reply, view: Option<UserView>)
      requires Valid()
      modifies this`users, this`session
      ensures Valid()
      ensures !(Given(username) && Given(email) && Given(password)) ==>
        && reply == Reply(400, "Missing required fields")
        && view == None && users == old(users) && session == old(session)
      ensures Given(username) && Given(email) && Given(password) && UsernameTaken(old(users), username.value) ==>
        && reply == Reply(400, "Username already exists")
        && view == None && users == old(users) && session == old(session)
      ensures Given(username) && Given(email) && Given(password) && !UsernameTaken(old(users), username.value)
              && EmailTaken(old(users), email.value) ==>
        && reply == Reply(400, "Email already exists")
        && view == None && users == old(users) && session == old(session)
      ensures Given(username) && Given(email) && Given(password) && !UsernameTaken(old(users), username.value)
              && !EmailTaken(old(users), email.value) ==>
        var u := User(NextId(Ids(old(users), UserId)), username.value, email.value,
                      hashPassword(password.value, salt), "celsius");
        && reply == Reply(201, "User registered successfully")
        && users == old(users) + [u] && session == Some(u.id) && view == Some(ViewOf(u))
    {
      if !(Given(username) && Given(email) && Given(password)) {
        return Reply(400, "Missing required fields"), None;
      }
      if UsernameTaken(users, username.value) {
        return Reply(400, "Username already exists"), None;
      }
      if EmailTaken(users, email.value) {
        return Reply(400, "Email already exists"), None;
      }
      var user := User(NextId(Ids(users, UserId)), username.value, email.value,
                       hashPassword(password.value, salt), "celsius");
      AppendUserWellFormed(users, user);
      users := users + [user];
      session := Some(user.id);
      return Reply(201, "User registered successfully"), Some(ViewOf(user));
    }

    /**
     * `POST /api/login`. Both fields are required; the user with that name
     * must exist and the password must check against its hash. Only a
     * successful login touches the session.
     */
    method Login(username: Option<string>, password: Option<string>)
      returns (reply: Reply, view: Option<UserView>)
      requires Valid()
      modifies this`session
      ensures Valid()
      ensures !(Given(username) && Given(password)) ==>
        reply == Reply(400, "Missing username or password") && view == None && session == old(session)
      ensures Given(username) && Given(password) ==>
        (reply.status == 200 <==>
          exists i :: 0 <= i < |users| && users[i].username == username.value
                      && checkPassword(users[i].passwordHash, password.value))
      ensures reply.status == 200 ==>
        exists i :: 0 <= i < |users| && users[i].username == username.value
                    && reply == Reply(200, "Login successful")
                    && session == Some(users[i].id) && view == Some(ViewOf(users[i]))
      ensures Given(username) && Given(password) && reply.status != 200 ==>
        reply == Reply(401, "Invalid username or password") && view == None && session == old(session)
    {
      if !(Given(username) && Given(password)) {
        return Reply(400, "Missing username or password"), None;
      }
      var found := UserNamed(users, username.value);
      if found.Some? && checkPassword(users[found.value].passwordHash, password.value) {
        var user := users[found.value];
        session := Some(user.id);
        return Reply(200, "Login successful"), Some(ViewOf(user));
      }
      forall i | 0 <= i < |users| && users[i].username == username.value
        ensures !checkPassword(users[i].passwordHash, password.value)
      {
        UserNamedIsUnique(users, username.value, i);
      }
      return Reply(401, "Invalid username or password"), None;
    }

    /** `POST /api/logout`: the session forgets the user, whoever was signed in. */
    method Logout() returns (reply: Reply)
      modifies this`session
      ensures session == None
      ensures reply == Reply(200, "Logout successful")
    {
      session := None;
      return Reply(200, "Logout successful");
    }

    /** `GET /api/user`: the signed-in user's record. */
    method GetUser() returns (reply: Reply, view: Option<UserView>)
      ensures !SignedIn(session) ==> reply == Reply(401, "Not authenticated") && view == None
      ensures SignedIn(session) && (forall i :: 0 <= i < |users| ==> users[i].id != session.value) ==>
        reply == Reply(404, "User not found") && view == None
      ensures reply.status == 200 <==> SignedIn(session) && exists i :: 0 <= i < |users| && users[i].id == session.value
      ensures reply.status == 200 ==>
        reply.message == "" && view.Some? && view.value.id == session.value
        && exists i :: 0 <= i < |users| && users[i].id == session.value && view == Some(ViewOf(users[i]))
    {
      if !SignedIn(session) {
        return Reply(401, "Not authenticated"), None;
      }
      var found := UserWithId(users, session.value);
      if found.None? {
        return Reply(404, "User not found"), None;
      }
      return Reply(200, ""), Some(ViewOf(users[found.value]));
    }

    /**
     * `PUT /api/settings`: stores the request's `temperature_unit`, whatever
     * its value, on the signed-in user when the key is there; nothing else
     * of any user changes.
     */
    method UpdateSettings(unit: Option<string>) returns (reply: Reply, unitAfter: Option<string>)
      requires Valid()
      modifies this`users
      ensures Valid()
      ensures |users| == |old(users)|
      ensures !SignedIn(session) ==> reply == Reply(401, "Not authenticated") && unitAfter == None && users == old(users)
      ensures SignedIn(session) && UserWithId(old(users), session.value).None? ==>
        reply == Reply(404, "User not found") && unitAfter == None && users == old(users)
      ensures SignedIn(session) && UserWithId(old(users), session.value).Some? ==>
        var i := UserWithId(old(users), session.value).value;
        && reply == Reply(200, "Settings updated successfully")
        && users[i].temperatureUnit == (if unit.Some? then unit.value else old(users)[i].temperatureUnit)
        && unitAfter == Some(users[i].temperatureUnit)
        && forall j :: 0 <= j < |users| && j != i ==> users[j] == old(users)[j]
      ensures forall j :: 0 <= j < |users| ==>
        users[j] == old(users)[j].(temperatureUnit := users[j].temperatureUnit)
      ensures unit.None? ==> users == old(users)
    {
      if !SignedIn(session) {
        return Reply(401, "Not authenticated"), None;
      }
      var found := UserWithId(users, session.value);
      if found.None? {
        return Reply(404, "User not found"), None;
      }
      var i := found.value;
      if unit.Some? {
        users := users[i := users[i].(temperatureUnit := unit.value)];
      }
      return Reply(200, "Settings updated successfully"), Some(users[i].temperatureUnit);
    }

    /** `GET /api/favorites`: exactly the signed-in user's rows, in table order. */
    method GetFavorites() returns (reply: Reply, listed: seq<FavoriteCity>)
      ensures !SignedIn(session) ==> reply == Reply(401, "Not authenticated") && listed == []
      ensures SignedIn(session) ==> reply == Reply(200, "") && listed == OwnedBy(favorites, session.value)
      ensures SignedIn(session) ==>
        forall f :: f in listed <==> f in favorites && f.userId == session.value
    {
      if !SignedIn(session) {
        return Reply(401, "Not authenticated"), [];
      }
      return Reply(200, ""), OwnedBy(favorites, session.value);
    }

    /**
     * `POST /api/favorites`: a signed-in user adds a city by name, once.
     * Whether the session's user still exists is not checked.
     */
    method AddFavorite(cityName: Option<string>, latitude: Option<real>, longitude: Option<real>)
      returns (reply: Reply, added: Option<FavoriteCity>)
      requires Valid()
      modifies this`favorites
      ensures Valid()
      ensures !SignedIn(session) ==>
        reply == Reply(401, "Not authenticated") && added == None && favorites == old(favorites)
      ensures SignedIn(session) && !Given(cityName) ==>
        reply == Reply(400, "City name is required") && added == None && favorites == old(favorites)
      ensures SignedIn(session) && Given(cityName) && HasFavorite(old(favorites), session.value, cityName.value) ==>
        reply == Reply(400, "City already in favorites") && added == None && favorites == old(favorites)
      ensures SignedIn(session) && Given(cityName) && !HasFavorite(old(favorites), session.value, cityName.value) ==>
        var f := FavoriteCity(NextId(Ids(old(favorites), FavoriteId)), session.value, cityName.value, latitude, longitude);
        && reply == Reply(201, "City added to favorites")
        && favorites == old(favorites) + [f] && added == Some(f)
        && OwnedBy(favorites, session.value) == OwnedBy(old(favorites), session.value) + [f]
      ensures forall owner :: owner != (if SignedIn(session) then session.value else 0) ==>
        OwnedBy(favorites, owner) == OwnedBy(old(favorites), owner)
      ensures SignedIn(session) && Given(cityName) ==> HasFavorite(favorites, session.value, cityName.value)
    {
      if !SignedIn(session) {
        return Reply(401, "Not authenticated"), None;
      }
      if !Given(cityName) {
        return Reply(400, "City name is required"), None;
      }
      if HasFavorite(favorites, session.value, cityName.value) {
        return Reply(400, "City already in favorites"), None;
      }
      var f := FavoriteCity(NextId(Ids(favorites, FavoriteId)), session.value, cityName.value, latitude, longitude);
      AppendFavoriteWellFormed(favorites, f);
      forall owner
        ensures OwnedBy(favorites + [f], owner)
             == OwnedBy(favorites, owner) + (if f.userId == owner then [f] else [])
      {
        OwnedByAppend(favorites, f, owner);
      }
      favorites := favorites + [f];
      return Reply(201, "City added to favorites"), Some(f);
    }

    /**
     * `DELETE /api/favorites/<id>`: deletes the row with that id only when
     * it belongs to the signed-in user; other users' rows are never touched.
     */
    method RemoveFavorite(favoriteId: nat) returns (reply: Reply)
      requires Valid()
      modifies this`favorites
      ensures Valid()
      ensures !SignedIn(session) ==> reply == Reply(401, "Not authenticated") && favorites == old(favorites)
      ensures SignedIn(session) && FavoriteOf(old(favorites), favoriteId, session.value).None? ==>
        reply == Reply(404, "Favorite not found") && favorites == old(favorites)
      ensures SignedIn(session) && FavoriteOf(old(favorites), favoriteId, session.value).Some? ==>
        var i := FavoriteOf(old(favorites), favoriteId, session.value).value;
        && reply == Reply(200, "City removed from favorites")
        && favorites == Deleted(old(favorites), i)
        && old(favorites)[i] !in OwnedBy(favorites, session.value)
        && |OwnedBy(favorites, session.value)| + 1 == |OwnedBy(old(favorites), session.value)|
      ensures forall owner :: owner != (if SignedIn(session) then session.value else 0) ==>
        OwnedBy(favorites, owner) == OwnedBy(old(favorites), owner)
    {
      if !SignedIn(session) {
        return Reply(401, "Not authenticated");
      }
      var found := FavoriteOf(favorites, favoriteId, session.value);
      if found.None? {
        return Reply(404, "Favorite not found");
      }
      var i := found.value;
      DeletedWellFormed(favorites, i);
      DeleteRemovesOwn(favorites, i);
      forall owner | owner != session.value
        ensures OwnedBy(Deleted(favorites, i), owner) == OwnedBy(favorites, owner)
      {
        DeleteKeepsOthers(favorites, i, owner);
      }
      favorites := Deleted(favorites, i);
      return Reply(200, "City removed from favorites");
    }

    /**
     * `GET /api/check-auth`: reports whether the session names an existing
     * user, and forgets a session whose user is gone.
     */
    method CheckAuth() returns (authenticated: bool, view: Option<UserView>)
      modifies this`session
      ensures authenticated <==> old(SignedIn(session)) && UserWithId(users, old(session).value).Some?
      ensures !old(SignedIn(session)) ==> session == old(session) && view == None
      ensures old(SignedIn(session)) && UserWithId(users, old(session).value).None? ==>
        session == None && view == None
      ensures authenticated ==>
        session == old(session) && view == Some(ViewOf(users[UserWithId(users, session.value).value]))
    {
      if !SignedIn(session) {
        return false, None;
      }
      var found := UserWithId(users, session.value);
      if found.None? {
        session := None;
        return false, None;
      }
      return true, Some(ViewOf(users[found.value]));
    }
  }

  /** Whoever registers can sign in again with the same password after signing out. */
  method RegisterThenLogin(app: App, username: string, email: string, password: string, salt: string)
    returns (registered: Reply, loggedIn: Reply)
    requires app.Valid()
    requires username != "" && email != "" && password != ""
    requires !UsernameTaken(app.users, username) && !EmailTaken(app.users, email)
    modifies app
    ensures app.Valid()
    ensures registered.status == 201 && loggedIn == Reply(200, "Login successful")
    ensures |app.users| == |old(app.users)| + 1 && app.users[..|old(app.users)|] == old(app.users)
    ensures app.session == Some(app.users[|app.users| - 1].id)
    ensures app.users[|app.users| - 1].username == username
  {
    var user, view;
    registered, user := app.Register(Some(username), Some(email), Some(password), salt);
    var _ := app.Logout();
    loggedIn, view := app.Login(Some(username), Some(password));
    assert app.users[|app.users| - 1].username == username;
  }

  /** Adding the same city twice leaves one row and answers the second time with 400. */
  method AddFavoriteTwice(app: App, city: string) returns (second: Reply, added: Option<FavoriteCity>)
    requires app.Valid() && SignedIn(app.session) && city != ""
    modifies app
    ensures app.Valid()
    ensures second == Reply(400, "City already in favorites") && added == None
    ensures app.session == old(app.session) && HasFavorite(app.favorites, app.session.value, city)
    ensures |app.favorites| <= |old(app.favorites)| + 1
  {
    var first, _ := app.AddFavorite(Some(city), None, None);
    second, added := app.AddFavorite(Some(city), None, None);
  }
}
