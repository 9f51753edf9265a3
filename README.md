# Star-Wars bookmarking API — a Dafny model

This project models the request handlers of a small Flask/SQLAlchemy REST API.
The API keeps users, planets and characters ("people") in five tables. Users
can bookmark planets and characters. Take away the web framework and the
database, and what remains is a state machine over an in-memory store.

The model has five modules:

- `Json` (json.dfy): the JSON values a request body carries and a response
  returns. A request body is `Option<map<string, Json>>`. `None` stands for a
  missing or unparsable body. `Show` renders a value the way the handlers'
  f-strings print a planet or character name.
- `Seqs` (seqs.dfy): generic sequence operations.
  - `FirstIndex` is `query.get` / `filter_by(...).first()`.
  - `Filter` is `filter_by(...).all()`.
  - `Map` is the serializing append loops.
  - `RemoveAt` is deleting a row.
- `Models` (models.dfy): the five row shapes as datatypes. It also holds their
  `serialize` functions and the unique-column facts (`User.email`,
  `Planet.name`, `People.name`).
- `Catalog` (catalog.dfy): the store as a value `Db`. It holds five tables and
  five auto-increment counters. There is one function per handler: it returns
  the response (status, `msg`, the other response keys) and the new store.
  - `Valid` is the store invariant:
    - ids are positive, distinct and below their counter;
    - unique columns are unique;
    - every bookmark points at an existing user and target;
    - no user bookmarks the same target twice.
- `Properties` (properties.dfy): what each handler promises. This covers:
  - error precedence and status codes;
  - "nothing else changes" on every error path;
  - round trips (bookmark then un-bookmark, create twice);
  - preservation of `Valid` by every write;
  - exactness of the listings.
- `App` (app.dfy): the handlers as methods of a `Store` class. The class has
  the five tables and five counters as fields. Each method follows its
  handler's control flow: early returns for each failed check, append loops
  for the serialized lists. Each is proved equal to the `Catalog` function.
  - Read methods state `r == Catalog.F(Model(), ...)`.
  - Write methods state `(r, Model()) == Catalog.F(old(Model()), ...)` and
    `old(Valid()) ==> Valid()`.

Two behaviours of the handlers are modelled as the code has them:

- `delete_favorite_person` answers 200 "Person … removed from watch list"
  but adds the row back to the session instead of deleting it. The model
  leaves the bookmark table unchanged on every outcome
  (`DeleteFavoritePersonKeepsStore`). Repeating the call answers 200 again
  (`DeleteFavoritePersonLeavesBookmark`).
- `get_favorites` reads `[0]` of both bookmark lists. When exactly one list
  is empty, that raises `IndexError` and the framework answers 500. The model
  returns status 500 with message "Internal Server Error"
  (`GetFavoritesStatus`).

## Model

| member | source | states |
|---|---|---|
| Models.User.Serialize | src/models.py:18-24 | a serialized user has exactly the keys id, name and email, with the row's values; neither password nor is_active appears |
| Models.Planet.Serialize | src/models.py:39-47 | a serialized planet has exactly its six columns as keys, each copied unchanged |
| Models.People.Serialize | src/models.py:66-75 | a serialized character has exactly id, name, specie, gender, height, weight and age, copied unchanged; planet_id is not exposed |
| Models.FavoritePlanet.Serialize | src/models.py:88-93 | a planet bookmark serializes to its id and its two foreign keys, unchanged |
| Models.FavoritePerson.Serialize | src/models.py:106-111 | a character bookmark serializes to its id and its two foreign keys, unchanged |
| Models.PasswordNotObservable | src/models.py:18-24 | two users that differ only in their password serialize identically |
| Json.Digits | src/app.py:251 | the decimal form of a natural number reads back as that number and has no leading zero |
| Json.Show | src/app.py:251 | a string name is printed exactly as stored; an integer is printed in decimal (with a leading '-' when negative, no leading zero) that reads back as the integer |
| Catalog.FirstMissing | src/app.py:130-137 | the reported field is absent from the body and every field checked before it is present; nothing is reported exactly when all fields are present |
| Catalog.FavPlanetsOf | src/app.py:52 | the user's planet bookmarks are bookmarks of the table with that user id; the list is empty exactly when the table has none for the user |
| Catalog.FavPersonsOf | src/app.py:53 | the same for character bookmarks |
| Catalog.Inhabitants | src/app.py:114 | every listed inhabitant is a row of the character table whose planet_id is the planet's id |
| Catalog.FavoritesAnswer | src/app.py:64-70 | the 200 body of the favourites request has exactly the keys user_planet, user_people, favorite_planets and favorite_persons, with the same serialized user under both user keys |
| App.Store.HandleHello | src/app.py:39-47 | GET /user answers 200 "Obtained Users!" with every user serialized, in table order; the append loop builds exactly that list |
| App.Store.AllPeoples | src/app.py:72-82 | GET /peoples answers 200 "Characters obtained" with every character serialized, in table order |
| App.Store.AllPlanets | src/app.py:84-94 | GET /planets answers 200 "Planets obtained" with every planet serialized, in table order |
| App.Store.GetPerson | src/app.py:96-105 | GET /peoples/{id} answers 404 "Character not found." or 200 with that character, as Catalog.Person says |
| App.Store.GetPlanet | src/app.py:107-122 | GET /planets/{id} answers 404 "Planet not found." or 200 with the planet and its serialized inhabitants added under "inhabitants" |
| App.Store.SerializeFavoritePlanets | src/app.py:57-59 | the loop yields, bookmark by bookmark, the serialized planet each bookmark points to |
| App.Store.SerializeFavoritePersons | src/app.py:60-62 | the loop yields, bookmark by bookmark, the serialized character each bookmark points to |
| App.Store.GetFavorites | src/app.py:49-70 | GET /user/{id}/favorites answers as Catalog.GetFavorites: 404, 500 when exactly one list is empty, else 200 with both lists |
| App.Store.AddUser | src/app.py:124-154 | POST /user changes the store and answers exactly as Catalog.AddUser, and keeps the store invariant |
| App.Store.AddPlanet | src/app.py:156-193 | POST /planet changes the store and answers exactly as Catalog.AddPlanet, and keeps the store invariant |
| App.Store.AddPerson | src/app.py:195-236 | POST /people changes the store and answers exactly as Catalog.AddPerson, and keeps the store invariant |
| App.Store.AddFavoritePlanet | src/app.py:238-258 | POST /favorite/planet changes the store and answers exactly as Catalog.AddFavoritePlanet, and keeps the store invariant |
| App.Store.AddFavoritePerson | src/app.py:260-280 | POST /favorite/person changes the store and answers exactly as Catalog.AddFavoritePerson, and keeps the store invariant |
| App.Store.DeleteFavoritePlanet | src/app.py:282-299 | DELETE /favorite/planet changes the store and answers exactly as Catalog.DeleteFavoritePlanet, and keeps the store invariant |
| App.Store.DeleteFavoritePerson | src/app.py:301-318 | DELETE /favorite/person answers exactly as Catalog.DeleteFavoritePerson and leaves the store as it was |
| Properties.FirstMissingAt | src/app.py:130-137 | when the fields before the k-th are all present and the k-th is absent, the k-th is the one reported |
| Properties.CreateRejectsEmptyBody | src/app.py:126-128 | a missing or empty body makes all three create handlers answer 400 "Fields cannot be empty." with the store unchanged |
| Properties.AddUserReportsFirstMissing | src/app.py:130-137 | the first of name, email, password missing from the body is reported as 400 "The … field is required.", store unchanged |
| Properties.AddPlanetReportsFirstMissing | src/app.py:162-175 | the first of name, population, diameter, climated, terrain missing is reported, store unchanged |
| Properties.AddPersonReportsFirstMissing | src/app.py:201-217 | the first of name, specie, gender, height, weight, age missing is reported, store unchanged |
| Properties.AddUserRejectsTakenEmail | src/app.py:139-141 | a complete body whose email some user already has is answered 400 "This email is taken; …", store unchanged |
| Properties.AddPlanetRejectsTakenName | src/app.py:177-179 | a complete body whose name some planet already has is answered 400 "This name is taken; …", store unchanged |
| Properties.AddPersonRejectsTakenName | src/app.py:219-221 | a complete body whose name some character already has is answered 400 "This name is taken; …", store unchanged |
| Properties.AddUserCreates | src/app.py:143-154 | with a complete body and a fresh email: 201 "User created"; exactly one user appended, with the next id, the body's fields and is_active true; only the user table and its counter change; data has keys id, name, email only |
| Properties.AddPlanetCreates | src/app.py:181-193 | with a complete body and a fresh name: 201 "Planet created"; exactly one planet appended with the body's columns; only the planet table and its counter change |
| Properties.AddPersonCreates | src/app.py:223-236 | with a complete body and a fresh name: 201 "Person created"; exactly one character appended, with no planet; only the character table and its counter change; planet_id not in data |
| Properties.CreateChangesNothingUnlessCreated | src/app.py:127-141 | every create handler that does not answer 201 leaves the store unchanged |
| Properties.AddUserTwice | src/app.py:139-149 | repeating a successful POST /user is answered 400 "This email is taken; …" and changes nothing |
| Properties.AddPlanetTwice | src/app.py:177-188 | repeating a successful POST /planet is answered 400 "This name is taken; …" and changes nothing |
| Properties.AddPersonTwice | src/app.py:219-231 | repeating a successful POST /people is answered 400 "This name is taken; …" and changes nothing |
| Properties.TatooineScenario | src/app.py:156-193 | creating Tatooine in an empty store yields planet 1 with the body's columns; creating it again is refused |
| Properties.AddFavoritePlanetOutcomes | src/app.py:238-258 | missing user: 404 "User Not Found"; then missing planet: 404 "Planet Not Found"; then an existing pair: 400 "The planet {name} is already added to favorites" with the name of the planet of that id; 200 "Planet bookmarked" exactly when all checks pass; a 200 appends exactly one pair with the next id, any other answer changes nothing |
| Properties.AddFavoritePersonOutcomes | src/app.py:260-280 | the same order of checks and outcomes for character bookmarks ("Person Not Found", 400 "The person {name} is already added to favorites", "Person bookmarked") |
| Properties.AddFavoritePlanetTwice | src/app.py:249-258 | a second identical planet bookmark is answered 400 and changes nothing |
| Properties.AddFavoritePersonTwice | src/app.py:270-280 | a second identical character bookmark is answered 400 and changes nothing |
| Properties.DeleteFavoritePlanetOutcomes | src/app.py:282-299 | the user and planet checks come first, then 404 "The planet is not in favorites"; 200 "Planet {name} removed from watch list" exactly when the pair is bookmarked, and then exactly one matching row is removed and nothing else changes; any other answer changes nothing |
| Properties.DeleteFavoritePlanetRemovesPair | src/app.py:293-298 | in a valid store a 200 leaves no row for the pair and keeps every other bookmark |
| Properties.AddThenDeleteFavoritePlanet | src/app.py:238-299 | bookmarking a planet and then un-bookmarking it restores the bookmark table (the counter stays advanced) |
| Properties.DeleteFavoritePersonKeepsStore | src/app.py:301-318 | DELETE /favorite/person never changes the store; its error order and its 200 condition mirror the planet case, and a 200 reads "Person {name} removed from watch list" |
| Properties.DeleteFavoritePersonLeavesBookmark | src/app.py:311-318 | after a 200 the bookmark is still there: adding it is refused with 400 and deleting it again answers 200 |
| Properties.EmptyIsValid | src/models.py:5-11 | the empty store satisfies the store invariant |
| Properties.AddUserPreservesValid | src/app.py:139-149 | POST /user keeps ids distinct and emails unique |
| Properties.AddPlanetPreservesValid | src/app.py:177-188 | POST /planet keeps ids distinct and planet names unique |
| Properties.AddPersonPreservesValid | src/app.py:219-231 | POST /people keeps ids distinct and character names unique |
| Properties.AddFavoritePlanetPreservesValid | src/app.py:249-257 | POST /favorite/planet keeps bookmarks pointing at existing rows and no pair duplicated |
| Properties.AddFavoritePersonPreservesValid | src/app.py:270-278 | POST /favorite/person keeps bookmarks pointing at existing rows and no pair duplicated |
| Properties.DeleteFavoritePlanetPreservesValid | src/app.py:293-298 | DELETE /favorite/planet keeps the store invariant |
| Properties.DeleteFavoritePersonPreservesValid | src/app.py:311-316 | DELETE /favorite/person keeps the store invariant |
| Properties.EmailIdentifiesUser | src/models.py:9 | in a valid store an email picks out exactly one user, so the email lookup finds that user |
| Properties.NameIdentifiesPlanet | src/models.py:28 | in a valid store a name picks out exactly one planet |
| Properties.NameIdentifiesPerson | src/models.py:52 | in a valid store a name picks out exactly one character |
| Properties.ListingsFollowTables | src/app.py:39-94 | the three listings have one entry per row, in table order, each the row serialized; user entries have keys id, name, email only |
| Properties.PersonOutcomes | src/app.py:96-105 | 404 "Character not found." exactly when no character has the id; otherwise 200 with the character of that id |
| Properties.InhabitantsExact | src/app.py:113-115 | the inhabitants list holds every character whose planet_id is the planet's id, and nothing else |
| Properties.InhabitantsInOrder | src/app.py:113-115 | the inhabitants list is the character table read at strictly increasing positions of characters of that planet, covering every such position: each inhabitant once, in table order |
| Properties.GetPlanetOutcomes | src/app.py:107-122 | 404 "Planet not found." exactly when no planet has the id; otherwise 200 "Planet obtained" with the planet's six columns plus "inhabitants" |
| Properties.BookmarksResolve | src/app.py:57-67 | when every bookmark resolves, the user's bookmarks point at an existing user and an existing planet or character |
| Properties.IdIdentifiesPlanet | src/models.py:27 | in a valid planet table the id lookup of a planet's id finds that planet |
| Properties.IdIdentifiesPerson | src/models.py:51 | in a valid character table the id lookup of a character's id finds that character |
| Properties.BookmarkedPlanetListed | src/app.py:52-59 | every planet the user bookmarked appears in favorite_planets |
| Properties.ListedPlanetBookmarked | src/app.py:52-59 | every entry of favorite_planets is a planet the user bookmarked |
| Properties.FavoritePlanetsExact | src/app.py:52-59 | favorite_planets lists exactly the planets the user bookmarked |
| Properties.BookmarkedPersonListed | src/app.py:53-62 | every character the user bookmarked appears in favorite_persons |
| Properties.ListedPersonBookmarked | src/app.py:53-62 | every entry of favorite_persons is a character the user bookmarked |
| Properties.FavoritePersonsExact | src/app.py:53-62 | favorite_persons lists exactly the characters the user bookmarked |
| Properties.GetFavoritesStatus | src/app.py:52-67 | 404 "You don't have favorite items" exactly when the user has no bookmarks; 500 exactly when the user has bookmarks of only one kind; 200 exactly when both kinds exist |
| Properties.GetFavoritesPayload | src/app.py:64-70 | a 200 has exactly the keys user_planet, user_people, favorite_planets, favorite_persons, and carries both bookmark lists |
| Properties.GetFavoritesUser | src/app.py:64-67 | a 200 carries the requested user, without password, under both user keys |

## Left out

- Application setup is not modelled: the database URL, migrations, CORS,
  the admin panel, the `APIException` handler, the sitemap route and the
  server start (src/app.py:14-37, 321-323). Records changed through the admin
  panel are represented only by the store a `Store` is constructed with.
- `jsonify` and HTTP encoding are not modelled. A response is a status, its
  `msg` and the remaining keys of the JSON object.
- SQLAlchemy sessions, commits and lazy relationship loading are not
  modelled. They become filters over sequences. `query.all()` and relationship
  lists are taken to return rows in insertion order, which the database does
  not promise.
- The race between a uniqueness check and the insert under concurrent
  requests is not modelled, because the model is sequential.
- Column lengths and SQL types (`String(25)`, `Integer`) are not modelled. The
  handlers store the body's JSON values without checking them. A database
  that rejects a value would fail the commit, and that is not modelled.
- Request bodies that are JSON but not objects (a list, a number) are not
  modelled. JSON numbers are integers only: floats are not modelled.
- Ids come from counters that only grow, so a deleted bookmark's id is never
  reused. This is PostgreSQL sequence semantics. SQLite may hand out the
  largest remaining id plus one again.
- Json.Show: renders strings, integers, booleans and null as Python's
  f-string does. A list or object used as a name prints as `[...]` or `{...}`,
  not as Python's repr.
- Catalog.GetFavorites: Flask's 500 error page is modelled as the message
  "Internal Server Error", not as its HTML body.
- App.Store.GetFavorites: requires every bookmark to resolve to an existing
  user and target. A dangling foreign key makes the relationship `None` and
  the handler raise. That outcome is not modelled.
- `People.planet_id` is set by no handler. Characters created through the API
  have no planet. Inhabitants exist only in a store given to the `Store`
  constructor.
