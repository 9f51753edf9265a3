/**
 * The catalog API as a state machine over a value of the whole store: one
 * function per request handler, from the store before the request (and the
 * request's body or path ids) to the response and the store after it.
 */
module Catalog {
  import opened Json
  import opened Seqs
  import opened Models

  /** The five tables, in table order, and the next id each table hands out. */
  datatype Db = Db(
    users: seq<User>,
    planets: seq<Planet>,
    people: seq<People>,
    favPlanets: seq<FavoritePlanet>,
    favPersons: seq<FavoritePerson>,
    nextUserId: int,
    nextPlanetId: int,
    nextPeopleId: int,
    nextFavPlanetId: int,
    nextFavPersonId: int)

  /**
   * A response: the status code, the envelope's `msg`, and the envelope's
   * other top-level keys (`data` for most handlers).
   */
  datatype Response = Response(status: int, msg: string, payload: map<string, Json>)

  function Reply(status: int, msg: string): Response
  {
    Response(status, msg, map[])
  }

  // ---------------------------------------------------------------- queries

  function UserIds(users: seq<User>): set<int> { set u | u in users :: u.id }
  function PlanetIds(planets: seq<Planet>): set<int> { set p | p in planets :: p.id }
  function PeopleIds(people: seq<People>): set<int> { set p | p in people :: p.id }

  /** `User.query.get(id)`. */
  function UserById(users: seq<User>, id: int): (r: Option<nat>)
    ensures r.Some? ==> r.value < |users| && users[r.value].id == id
    ensures r.None? <==> id !in UserIds(users)
  {
    FirstIndex(users, (u: User) => u.id == id)
  }

  /** `User.query.filter_by(email=email).first()`. */
  function UserByEmail(users: seq<User>, email: Json): (r: Option<nat>)
    ensures r.Some? ==> r.value < |users| && users[r.value].email == email
    ensures r.None? <==> forall j :: 0 <= j < |users| ==> users[j].email != email
  {
    FirstIndex(users, (u: User) => u.email == email)
  }

  /** `Planet.query.get(id)`. */
  function PlanetById(planets: seq<Planet>, id: int): (r: Option<nat>)
    ensures r.Some? ==> r.value < |planets| && planets[r.value].id == id
    ensures r.None? <==> id !in PlanetIds(planets)
  {
    FirstIndex(planets, (p: Planet) => p.id == id)
  }

  /** `Planet.query.filter_by(name=name).first()`. */
  function PlanetByName(planets: seq<Planet>, name: Json): (r: Option<nat>)
    ensures r.Some? ==> r.value < |planets| && planets[r.value].name == name
    ensures r.None? <==> forall j :: 0 <= j < |planets| ==> planets[j].name != name
  {
    FirstIndex(planets, (p: Planet) => p.name == name)
  }

  /** `People.query.get(id)`. */
  function PeopleById(people: seq<People>, id: int): (r: Option<nat>)
    ensures r.Some? ==> r.value < |people| && people[r.value].id == id
    ensures r.None? <==> id !in PeopleIds(people)
  {
    FirstIndex(people, (p: People) => p.id == id)
  }

  /** `People.query.filter_by(name=name).first()`. */
  function PeopleByName(people: seq<People>, name: Json): (r: Option<nat>)
    ensures r.Some? ==> r.value < |people| && people[r.value].name == name
    ensures r.None? <==> forall j :: 0 <= j < |people| ==> people[j].name != name
  {
    FirstIndex(people, (p: People) => p.name == name)
  }

  /** `FavoritePlanet.query.filter_by(user_id=.., planet_id=..).first()`. */
  function FavPlanetIndex(favs: seq<FavoritePlanet>, userId: int, planetId: int): (r: Option<nat>)
    ensures r.Some? ==> r.value < |favs| && favs[r.value].userId == userId && favs[r.value].planetId == planetId
    ensures r.Some? ==> forall j :: 0 <= j < r.value ==> !(favs[j].userId == userId && favs[j].planetId == planetId)
    ensures r.None? <==> forall j :: 0 <= j < |favs| ==> !(favs[j].userId == userId && favs[j].planetId == planetId)
  {
    FirstIndex(favs, (f: FavoritePlanet) => f.userId == userId && f.planetId == planetId)
  }

  /** `FavoritePerson.query.filter_by(user_id=.., people_id=..).first()`. */
  function FavPersonIndex(favs: seq<FavoritePerson>, userId: int, peopleId: int): (r: Option<nat>)
    ensures r.Some? ==> r.value < |favs| && favs[r.value].userId == userId && favs[r.value].peopleId == peopleId
    ensures r.Some? ==> forall j :: 0 <= j < r.value ==> !(favs[j].userId == userId && favs[j].peopleId == peopleId)
    ensures r.None? <==> forall j :: 0 <= j < |favs| ==> !(favs[j].userId == userId && favs[j].peopleId == peopleId)
  {
    FirstIndex(favs, (f: FavoritePerson) => f.userId == userId && f.peopleId == peopleId)
  }

  // The row tests of the three `filter_by(..).all()` queries.
  function PlanetFavOf(id: int): FavoritePlanet -> bool { (f: FavoritePlanet) => f.userId == id }
  function PersonFavOf(id: int): FavoritePerson -> bool { (f: FavoritePerson) => f.userId == id }
  function LivesOn(id: int): People -> bool { (p: People) => p.planetId == Some(id) }

  /** `FavoritePlanet.query.filter_by(user_id=id).all()`. */
  function FavPlanetsOf(favs: seq<FavoritePlanet>, id: int): (r: seq<FavoritePlanet>)
    ensures forall i :: 0 <= i < |r| ==> r[i] in favs && r[i].userId == id
    ensures r == [] <==> forall j :: 0 <= j < |favs| ==> favs[j].userId != id
  {
    Filter(favs, PlanetFavOf(id))
  }

  /** `FavoritePerson.query.filter_by(user_id=id).all()`. */
  function FavPersonsOf(favs: seq<FavoritePerson>, id: int): (r: seq<FavoritePerson>)
    ensures forall i :: 0 <= i < |r| ==> r[i] in favs && r[i].userId == id
    ensures r == [] <==> forall j :: 0 <= j < |favs| ==> favs[j].userId != id
  {
    Filter(favs, PersonFavOf(id))
  }

  /** The relationship `Planet.inhabitants`: the characters whose planet key is `id`. */
  function Inhabitants(people: seq<People>, id: int): (r: seq<People>)
    ensures forall i :: 0 <= i < |r| ==> r[i] in people && r[i].planetId == Some(id)
  {
    Filter(people, LivesOn(id))
  }

  /** The planet each bookmark points to (`planet_relationship`), bookmark by bookmark. */
  function PlanetsOf(planets: seq<Planet>, favs: seq<FavoritePlanet>): (r: seq<Planet>)
    requires forall i :: 0 <= i < |favs| ==> favs[i].planetId in PlanetIds(planets)
    ensures |r| == |favs|
    ensures forall i :: 0 <= i < |favs| ==> r[i].id == favs[i].planetId
  {
    seq(|favs|, i requires 0 <= i < |favs| => planets[PlanetById(planets, favs[i].planetId).value])
  }

  /** The character each bookmark points to (`people_relationship`), bookmark by bookmark. */
  function PeopleOf(people: seq<People>, favs: seq<FavoritePerson>): (r: seq<People>)
    requires forall i :: 0 <= i < |favs| ==> favs[i].peopleId in PeopleIds(people)
    ensures |r| == |favs|
    ensures forall i :: 0 <= i < |favs| ==> r[i].id == favs[i].peopleId
  {
    seq(|favs|, i requires 0 <= i < |favs| => people[PeopleById(people, favs[i].peopleId).value])
  }

  /** The JSON list `favorite_planets` answered for user `id`: each bookmarked planet serialized. */
  function FavoritePlanetItems(db: Db, id: int): (r: seq<Json>)
    requires FavPlanetRefs(db)
    ensures |r| == |FavPlanetsOf(db.favPlanets, id)|
  {
    Map(PlanetsOf(db.planets, FavPlanetsOf(db.favPlanets, id)), PlanetJson)
  }

  /** The JSON list `favorite_persons` answered for user `id`: each bookmarked character serialized. */
  function FavoritePersonItems(db: Db, id: int): (r: seq<Json>)
    requires FavPersonRefs(db)
    ensures |r| == |FavPersonsOf(db.favPersons, id)|
  {
    Map(PeopleOf(db.people, FavPersonsOf(db.favPersons, id)), PeopleJson)
  }

  // -------------------------------------------------------------- invariant

  ghost predicate SamePlanetPair(f: FavoritePlanet, g: FavoritePlanet)
  {
    f.userId == g.userId && f.planetId == g.planetId
  }

  ghost predicate SamePersonPair(f: FavoritePerson, g: FavoritePerson)
  {
    f.userId == g.userId && f.peopleId == g.peopleId
  }

  ghost predicate UsersValid(users: seq<User>, next: int)
  {
    && 0 < next
    && (forall i :: 0 <= i < |users| ==> 0 < users[i].id < next)
    && (forall i, j :: 0 <= i < j < |users| ==> users[i].id != users[j].id)
    && EmailsUnique(users)
  }

  ghost predicate PlanetsValid(planets: seq<Planet>, next: int)
  {
    && 0 < next
    && (forall i :: 0 <= i < |planets| ==> 0 < planets[i].id < next)
    && (forall i, j :: 0 <= i < j < |planets| ==> planets[i].id != planets[j].id)
    && PlanetNamesUnique(planets)
  }

  ghost predicate PeopleValid(people: seq<People>, next: int)
  {
    && 0 < next
    && (forall i :: 0 <= i < |people| ==> 0 < people[i].id < next)
    && (forall i, j :: 0 <= i < j < |people| ==> people[i].id != people[j].id)
    && PeopleNamesUnique(people)
  }

  /** Every planet bookmark names an existing user and an existing planet. */
  ghost predicate FavPlanetRefs(db: Db)
  {
    && (forall i :: 0 <= i < |db.favPlanets| ==> db.favPlanets[i].userId in UserIds(db.users))
    && (forall i :: 0 <= i < |db.favPlanets| ==> db.favPlanets[i].planetId in PlanetIds(db.planets))
  }

  /** Every character bookmark names an existing user and an existing character. */
  ghost predicate FavPersonRefs(db: Db)
  {
    && (forall i :: 0 <= i < |db.favPersons| ==> db.favPersons[i].userId in UserIds(db.users))
    && (forall i :: 0 <= i < |db.favPersons| ==> db.favPersons[i].peopleId in PeopleIds(db.people))
  }

  /** Planet bookmarks: fresh ids, existing endpoints, no pair twice. */
  ghost predicate FavPlanetsValid(db: Db)
  {
    && 0 < db.nextFavPlanetId
    && (forall i :: 0 <= i < |db.favPlanets| ==> 0 < db.favPlanets[i].id < db.nextFavPlanetId)
    && FavPlanetRefs(db)
    && (forall i, j :: 0 <= i < j < |db.favPlanets| ==>
          db.favPlanets[i].id != db.favPlanets[j].id && !SamePlanetPair(db.favPlanets[i], db.favPlanets[j]))
  }

  /** Character bookmarks: fresh ids, existing endpoints, no pair twice. */
  ghost predicate FavPersonsValid(db: Db)
  {
    && 0 < db.nextFavPersonId
    && (forall i :: 0 <= i < |db.favPersons| ==> 0 < db.favPersons[i].id < db.nextFavPersonId)
    && FavPersonRefs(db)
    && (forall i, j :: 0 <= i < j < |db.favPersons| ==>
          db.favPersons[i].id != db.favPersons[j].id && !SamePersonPair(db.favPersons[i], db.favPersons[j]))
  }

  /**
   * What the handlers maintain: unique ids below each counter, the unique
   * columns (email, planet name, character name) unique, and every bookmark
   * naming an existing user and target, at most once per pair.
   */
  ghost predicate Valid(db: Db)
  {
    && UsersValid(db.users, db.nextUserId)
    && PlanetsValid(db.planets, db.nextPlanetId)
    && PeopleValid(db.people, db.nextPeopleId)
    && FavPlanetsValid(db)
    && FavPersonsValid(db)
  }

  /** The empty store, as the migrations leave it. */
  function Empty(): Db
  {
    Db([], [], [], [], [], 1, 1, 1, 1, 1)
  }

  // ----------------------------------------------------- body validation

  const UserFields: seq<string> := ["name", "email", "password"]
  const PlanetFields: seq<string> := ["name", "population", "diameter", "climated", "terrain"]
  const PeopleFields: seq<string> := ["name", "specie", "gender", "height", "weight", "age"]

  /** `not body`: no JSON object at all, or an empty one. */
  predicate EmptyBody(body: Body)
  {
    body.None? || body.value == map[]
  }

  /** The first of `fields`, in order, that `body` lacks. */
  function FirstMissing(body: map<string, Json>, fields: seq<string>): (r: Option<string>)
    ensures r.None? <==> forall i :: 0 <= i < |fields| ==> fields[i] in body
    ensures r.Some? ==> r.value !in body
    ensures r.Some? ==> exists k :: (0 <= k < |fields| && fields[k] == r.value &&
                                     forall j :: 0 <= j < k ==> fields[j] in body)
  {
    if fields == [] then None
    else if fields[0] !in body then Some(fields[0])
    else
      var rest := FirstMissing(body, fields[1..]);
      if rest.Some? then
        ghost var k :| 0 <= k < |fields[1..]| && fields[1..][k] == rest.value &&
                       forall j :: 0 <= j < k ==> fields[1..][j] in body;
        assert fields[k + 1] == rest.value;
        rest
      else rest
  }

  function FieldRequired(field: string): Response
  {
    Reply(400, "The " + field + " field is required.")
  }

  const EmptyFields := Reply(400, "Fields cannot be empty.")
  const NameTaken := Reply(400, "This name is taken; please choose another.")
  const EmailTaken := Reply(400, "This email is taken; please choose another.")

  // ------------------------------------------------------- read handlers

  /** GET /user */
  function HandleHello(db: Db): Response
  {
    Response(200, "Obtained Users!", map["data" := JArr(Map(db.users, UserJson))])
  }

  /** GET /peoples */
  function AllPeoples(db: Db): Response
  {
    Response(200, "Characters obtained", map["data" := JArr(Map(db.people, PeopleJson))])
  }

  /** GET /planets */
  function AllPlanets(db: Db): Response
  {
    Response(200, "Planets obtained", map["data" := JArr(Map(db.planets, PlanetJson))])
  }

  /** GET /peoples/{id} */
  function Person(db: Db, id: int): Response
  {
    match PeopleById(db.people, id)
    case None => Reply(404, "Character not found.")
    case Some(k) => Response(200, "Character obtained", map["data" := PeopleJson(db.people[k])])
  }

  /** The planet's serialization with its inhabitants embedded. */
  function PlanetWithInhabitants(p: Planet, people: seq<People>): Json
  {
    JObj(p.Serialize()["inhabitants" := JArr(Map(Inhabitants(people, p.id), PeopleJson))])
  }

  /** GET /planets/{id} */
  function GetPlanet(db: Db, id: int): Response
  {
    match PlanetById(db.planets, id)
    case None => Reply(404, "Planet not found.")
    case Some(k) => Response(200, "Planet obtained", map["data" := PlanetWithInhabitants(db.planets[k], db.people)])
  }

  /**
   * GET /user/{id}/favorites. With exactly one of the two lists empty, the
   * handler indexes `[0]` of the empty one and fails with an unhandled
   * IndexError, which the framework answers with a 500.
   */
  function GetFavorites(db: Db, id: int): Response
    requires FavPlanetRefs(db) && FavPersonRefs(db)
  {
    var fp := FavPlanetsOf(db.favPlanets, id);
    var fq := FavPersonsOf(db.favPersons, id);
    if fp == [] && fq == [] then Reply(404, "You don't have favorite items")
    else if fp == [] || fq == [] then Reply(500, "Internal Server Error")
    else
      assert fp[0] in db.favPlanets && fq[0] in db.favPersons;
      var user := db.users[UserById(db.users, id).value];
      Response(200, "ok", FavoritesAnswer(user, FavoritePlanetItems(db, id), FavoritePersonItems(db, id)))
  }

  /**
   * The body of a 200 from GET /user/{id}/favorites: the user under both
   * user keys (the handler reads it once through each list's first bookmark)
   * and the two bookmark lists.
   */
  function FavoritesAnswer(user: User, planets: seq<Json>, persons: seq<Json>): (r: map<string, Json>)
    ensures r.Keys == {"user_planet", "user_people", "favorite_planets", "favorite_persons"}
    ensures r["user_planet"] == r["user_people"] == UserJson(user)
    ensures r["favorite_planets"] == JArr(planets) && r["favorite_persons"] == JArr(persons)
  {
    // The two user keys share the prefix "user_p".
    assert "user_planet"[6] != "user_people"[6];
    map["user_planet" := UserJson(user), "user_people" := UserJson(user),
        "favorite_planets" := JArr(planets), "favorite_persons" := JArr(persons)]
  }

  // ------------------------------------------------------ write handlers

  /** POST /user */
  function AddUser(db: Db, body: Body): (Response, Db)
  {
    if EmptyBody(body) then (EmptyFields, db)
    else
      var b := body.value;
      match FirstMissing(b, UserFields)
      case Some(f) => (FieldRequired(f), db)
      case None =>
        assert UserFields[1] in b && UserFields[2] in b;
        if UserByEmail(db.users, b["email"]).Some? then (EmailTaken, db)
        else
          var u := User(db.nextUserId, b["name"], b["email"], b["password"], true);
          (Response(201, "User created", map["data" := UserJson(u)]),
           db.(users := db.users + [u], nextUserId := db.nextUserId + 1))
  }

  /** POST /planet */
  function AddPlanet(db: Db, body: Body): (Response, Db)
  {
    if EmptyBody(body) then (EmptyFields, db)
    else
      var b := body.value;
      match FirstMissing(b, PlanetFields)
      case Some(f) => (FieldRequired(f), db)
      case None =>
        assert PlanetFields[1] in b && PlanetFields[2] in b && PlanetFields[3] in b && PlanetFields[4] in b;
        if PlanetByName(db.planets, b["name"]).Some? then (NameTaken, db)
        else
          var p := Planet(db.nextPlanetId, b["name"], b["population"], b["diameter"],
                          b["climated"], b["terrain"]);
          (Response(201, "Planet created", map["data" := PlanetJson(p)]),
           db.(planets := db.planets + [p], nextPlanetId := db.nextPlanetId + 1))
  }

  /** POST /people; the new character has no home planet. */
  function AddPerson(db: Db, body: Body): (Response, Db)
  {
    if EmptyBody(body) then (EmptyFields, db)
    else
      var b := body.value;
      match FirstMissing(b, PeopleFields)
      case Some(f) => (FieldRequired(f), db)
      case None =>
        assert PeopleFields[1] in b && PeopleFields[2] in b && PeopleFields[3] in b;
        assert PeopleFields[4] in b && PeopleFields[5] in b;
        if PeopleByName(db.people, b["name"]).Some? then (NameTaken, db)
        else
          var p := People(db.nextPeopleId, b["name"], b["specie"], b["gender"], b["height"],
                          b["weight"], b["age"], None);
          (Response(201, "Person created", map["data" := PeopleJson(p)]),
           db.(people := db.people + [p], nextPeopleId := db.nextPeopleId + 1))
  }

  /** POST /favorite/planet/{planet_id}/{user_id} */
  function AddFavoritePlanet(db: Db, userId: int, planetId: int): (Response, Db)
  {
    if UserById(db.users, userId).None? then (Reply(404, "User Not Found"), db)
    else match PlanetById(db.planets, planetId)
      case None => (Reply(404, "Planet Not Found"), db)
      case Some(k) =>
        if FavPlanetIndex(db.favPlanets, userId, planetId).Some? then
          (Reply(400, "The planet " + Show(db.planets[k].name) + " is already added to favorites"), db)
        else
          (Reply(200, "Planet bookmarked"),
           db.(favPlanets := db.favPlanets + [FavoritePlanet(db.nextFavPlanetId, userId, planetId)],
               nextFavPlanetId := db.nextFavPlanetId + 1))
  }

  /** POST /favorite/person/{people_id}/{user_id} */
  function AddFavoritePerson(db: Db, userId: int, peopleId: int): (Response, Db)
  {
    if UserById(db.users, userId).None? then (Reply(404, "User Not Found"), db)
    else match PeopleById(db.people, peopleId)
      case None => (Reply(404, "Person Not Found"), db)
      case Some(k) =>
        if FavPersonIndex(db.favPersons, userId, peopleId).Some? then
          (Reply(400, "The person " + Show(db.people[k].name) + " is already added to favorites"), db)
        else
          (Reply(200, "Person bookmarked"),
           db.(favPersons := db.favPersons + [FavoritePerson(db.nextFavPersonId, userId, peopleId)],
               nextFavPersonId := db.nextFavPersonId + 1))
  }

  /** DELETE /favorite/planet/{planet_id}/{user_id} */
  function DeleteFavoritePlanet(db: Db, userId: int, planetId: int): (Response, Db)
  {
    if UserById(db.users, userId).None? then (Reply(404, "User Not Found"), db)
    else match PlanetById(db.planets, planetId)
      case None => (Reply(404, "Planet Not Found"), db)
      case Some(k) =>
        match FavPlanetIndex(db.favPlanets, userId, planetId)
        case None => (Reply(404, "The planet is not in favorites"), db)
        case Some(i) =>
          (Reply(200, "Planet " + Show(db.planets[k].name) + " removed from watch list"),
           db.(favPlanets := RemoveAt(db.favPlanets, i)))
  }

  /**
   * DELETE /favorite/person/{people_id}/{user_id}. The handler hands the row it
   * found back to the session (`add`) rather than deleting it, so the store is
   * left as it was even when it answers 200.
   */
  function DeleteFavoritePerson(db: Db, userId: int, peopleId: int): (Response, Db)
  {
    if UserById(db.users, userId).None? then (Reply(404, "User Not Found"), db)
    else match PeopleById(db.people, peopleId)
      case None => (Reply(404, "Person Not Found"), db)
      case Some(k) =>
        match FavPersonIndex(db.favPersons, userId, peopleId)
        case None => (Reply(404, "The person is not in favorites"), db)
        case Some(_) => (Reply(200, "Person " + Show(db.people[k].name) + " removed from watch list"), db)
  }
}
