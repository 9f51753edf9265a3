/**
 * The request handlers as methods on the store they read and write. Each
 * method follows its handler's control flow (early returns, append loops)
 * and is proved to answer, and to leave the tables, as the Catalog state
 * machine says.
 */
module App {
  import opened Json
  import opened Seqs
  import opened Models
  import Catalog
  import Properties

  class Store {
    var users: seq<User>
    var planets: seq<Planet>
    var people: seq<People>
    var favPlanets: seq<FavoritePlanet>
    var favPersons: seq<FavoritePerson>
    var nextUserId: int
    var nextPlanetId: int
    var nextPeopleId: int
    var nextFavPlanetId: int
    var nextFavPersonId: int

    /** The tables and counters as one value. */
    function Model(): Catalog.Db
      reads this
    {
      Catalog.Db(users, planets, people, favPlanets, favPersons,
                 nextUserId, nextPlanetId, nextPeopleId, nextFavPlanetId, nextFavPersonId)
    }

    ghost predicate Valid()
      reads this
    {
      Catalog.Valid(Model())
    }

    /** A store holding `db`, e.g. the empty store or one seeded by an administrator. */
    constructor (db: Catalog.Db)
      requires Catalog.Valid(db)
      ensures Valid() && Model() == db
    {
      users, planets, people, favPlanets, favPersons := db.users, db.planets, db.people, db.favPlanets, db.favPersons;
      nextUserId, nextPlanetId, nextPeopleId := db.nextUserId, db.nextPlanetId, db.nextPeopleId;
      nextFavPlanetId, nextFavPersonId := db.nextFavPlanetId, db.nextFavPersonId;
    }

    // ------------------------------------------------------------ reads

    /** GET /user */
    method HandleHello() returns (r: Catalog.Response)
      ensures r == Catalog.HandleHello(Model())
    {
      var serialized: seq<Json> := [];
      var i := 0;
      while i < |users|
        invariant 0 <= i <= |users|
        invariant serialized == Map(users[..i], UserJson)
      {
        MapPrefix(users, UserJson, i);
        serialized := serialized + [UserJson(users[i])];
        i := i + 1;
      }
      assert users[..i] == users;
      r := Catalog.Response(200, "Obtained Users!", map["data" := JArr(serialized)]);
    }

    /** GET /peoples */
    method AllPeoples() returns (r: Catalog.Response)
      ensures r == Catalog.AllPeoples(Model())
    {
      var serialized: seq<Json> := [];
      var i := 0;
      while i < |people|
        invariant 0 <= i <= |people|
        invariant serialized == Map(people[..i], PeopleJson)
      {
        MapPrefix(people, PeopleJson, i);
        serialized := serialized + [PeopleJson(people[i])];
        i := i + 1;
      }
      assert people[..i] == people;
      r := Catalog.Response(200, "Characters obtained", map["data" := JArr(serialized)]);
    }

    /** GET /planets */
    method AllPlanets() returns (r: Catalog.Response)
      ensures r == Catalog.AllPlanets(Model())
    {
      var serialized: seq<Json> := [];
      var i := 0;
      while i < |planets|
        invariant 0 <= i <= |planets|
        invariant serialized == Map(planets[..i], PlanetJson)
      {
        MapPrefix(planets, PlanetJson, i);
        serialized := serialized + [PlanetJson(planets[i])];
        i := i + 1;
      }
      assert planets[..i] == planets;
      r := Catalog.Response(200, "Planets obtained", map["data" := JArr(serialized)]);
    }

    /** GET /peoples/{id} */
    method GetPerson(id: int) returns (r: Catalog.Response)
      ensures r == Catalog.Person(Model(), id)
    {
      var found := Catalog.PeopleById(people, id);
      if found.None? {
        return Catalog.Reply(404, "Character not found.");
      }
      r := Catalog.Response(200, "Character obtained", map["data" := PeopleJson(people[found.value])]);
    }

    /** GET /planets/{id} */
    method GetPlanet(id: int) returns (r: Catalog.Response)
      ensures r == Catalog.GetPlanet(Model(), id)
    {
      var found := Catalog.PlanetById(planets, id);
      if found.None? {
        return Catalog.Reply(404, "Planet not found.");
      }
      var planet := planets[found.value];
      var inhabitants := Catalog.Inhabitants(people, planet.id);
      var serialized: seq<Json> := [];
      var i := 0;
      while i < |inhabitants|
        invariant 0 <= i <= |inhabitants|
        invariant serialized == Map(inhabitants[..i], PeopleJson)
      {
        MapPrefix(inhabitants, PeopleJson, i);
        serialized := serialized + [PeopleJson(inhabitants[i])];
        i := i + 1;
      }
      assert inhabitants[..i] == inhabitants;
      var data := planet.Serialize()["inhabitants" := JArr(serialized)];
      r := Catalog.Response(200, "Planet obtained", map["data" := JObj(data)]);
    }

    /** The loop serializing the planet of each bookmark, in bookmark order. */
    method SerializeFavoritePlanets(favorites: seq<FavoritePlanet>) returns (serialized: seq<Json>)
      requires forall i :: 0 <= i < |favorites| ==> favorites[i].planetId in Catalog.PlanetIds(planets)
      ensures serialized == Map(Catalog.PlanetsOf(planets, favorites), PlanetJson)
    {
      ghost var targets := Catalog.PlanetsOf(planets, favorites);
      serialized := [];
      var i := 0;
      while i < |favorites|
        invariant 0 <= i <= |favorites|
        invariant |serialized| == i
        invariant forall k :: 0 <= k < i ==> serialized[k] == PlanetJson(targets[k])
      {
        var k := Catalog.PlanetById(planets, favorites[i].planetId);
        serialized := serialized + [PlanetJson(planets[k.value])];
        i := i + 1;
      }
    }

    /** The loop serializing the character of each bookmark, in bookmark order. */
    method SerializeFavoritePersons(favorites: seq<FavoritePerson>) returns (serialized: seq<Json>)
      requires forall i :: 0 <= i < |favorites| ==> favorites[i].peopleId in Catalog.PeopleIds(people)
      ensures serialized == Map(Catalog.PeopleOf(people, favorites), PeopleJson)
    {
      ghost var targets := Catalog.PeopleOf(people, favorites);
      serialized := [];
      var i := 0;
      while i < |favorites|
        invariant 0 <= i <= |favorites|
        invariant |serialized| == i
        invariant forall k :: 0 <= k < i ==> serialized[k] == PeopleJson(targets[k])
      {
        var k := Catalog.PeopleById(people, favorites[i].peopleId);
        serialized := serialized + [PeopleJson(people[k.value])];
        i := i + 1;
      }
    }

    /** GET /user/{id}/favorites */
    method GetFavorites(id: int) returns (r: Catalog.Response)
      requires Catalog.FavPlanetRefs(Model()) && Catalog.FavPersonRefs(Model())
      ensures r == Catalog.GetFavorites(Model(), id)
    {
      Properties.BookmarksResolve(Model(), id);
      var favoritePlanets := Catalog.FavPlanetsOf(favPlanets, id);
      var favoritePersons := Catalog.FavPersonsOf(favPersons, id);
      if favoritePlanets == [] && favoritePersons == [] {
        return Catalog.Reply(404, "You don't have favorite items");
      }
      var planetsSerialized := SerializeFavoritePlanets(favoritePlanets);
      var personsSerialized := SerializeFavoritePersons(favoritePersons);
      if favoritePlanets == [] || favoritePersons == [] {
        // `favorite_planets[0]` or `favorite_persons[0]` raises IndexError.
        return Catalog.Reply(500, "Internal Server Error");
      }
      assert planetsSerialized == Catalog.FavoritePlanetItems(Model(), id);
      assert personsSerialized == Catalog.FavoritePersonItems(Model(), id);
      var userOfPlanet := Catalog.UserById(users, favoritePlanets[0].userId);
      var userOfPerson := Catalog.UserById(users, favoritePersons[0].userId);
      r := Catalog.Response(200, "ok", map[
        "user_planet" := UserJson(users[userOfPlanet.value]),
        "user_people" := UserJson(users[userOfPerson.value]),
        "favorite_planets" := JArr(planetsSerialized),
        "favorite_persons" := JArr(personsSerialized)]);
    }

    // ----------------------------------------------------------- writes

    /** POST /user */
    method AddUser(body: Body) returns (r: Catalog.Response)
      modifies this
      ensures (r, Model()) == Catalog.AddUser(old(Model()), body)
      ensures old(Valid()) ==> Valid()
    {
      Properties.AddUserPreservesValid(Model(), body);
      if Catalog.EmptyBody(body) {
        return Catalog.EmptyFields;
      }
      var b := body.value;
      if "name" !in b {
        Properties.FirstMissingAt(b, Catalog.UserFields, 0);
        return Catalog.FieldRequired("name");
      }
      if "email" !in b {
        Properties.FirstMissingAt(b, Catalog.UserFields, 1);
        return Catalog.FieldRequired("email");
      }
      if "password" !in b {
        Properties.FirstMissingAt(b, Catalog.UserFields, 2);
        return Catalog.FieldRequired("password");
      }
      if Catalog.UserByEmail(users, b["email"]).Some? {
        return Catalog.EmailTaken;
      }
      var user := User(nextUserId, b["name"], b["email"], b["password"], true);
      users := users + [user];
      nextUserId := nextUserId + 1;
      r := Catalog.Response(201, "User created", map["data" := UserJson(user)]);
    }

    /** POST /planet */
    method AddPlanet(body: Body) returns (r: Catalog.Response)
      modifies this
      ensures (r, Model()) == Catalog.AddPlanet(old(Model()), body)
      ensures old(Valid()) ==> Valid()
    {
      Properties.AddPlanetPreservesValid(Model(), body);
      if Catalog.EmptyBody(body) {
        return Catalog.EmptyFields;
      }
      var b := body.value;
      if "name" !in b {
        Properties.FirstMissingAt(b, Catalog.PlanetFields, 0);
        return Catalog.FieldRequired("name");
      }
      if "population" !in b {
        Properties.FirstMissingAt(b, Catalog.PlanetFields, 1);
        return Catalog.FieldRequired("population");
      }
      if "diameter" !in b {
        Properties.FirstMissingAt(b, Catalog.PlanetFields, 2);
        return Catalog.FieldRequired("diameter");
      }
      if "climated" !in b {
        Properties.FirstMissingAt(b, Catalog.PlanetFields, 3);
        return Catalog.FieldRequired("climated");
      }
      if "terrain" !in b {
        Properties.FirstMissingAt(b, Catalog.PlanetFields, 4);
        return Catalog.FieldRequired("terrain");
      }
      if Catalog.PlanetByName(planets, b["name"]).Some? {
        return Catalog.NameTaken;
      }
      var planet := Planet(nextPlanetId, b["name"], b["population"], b["diameter"], b["climated"], b["terrain"]);
      planets := planets + [planet];
      nextPlanetId := nextPlanetId + 1;
      r := Catalog.Response(201, "Planet created", map["data" := PlanetJson(planet)]);
    }

    /** POST /people */
    method AddPerson(body: Body) returns (r: Catalog.Response)
      modifies this
      ensures (r, Model()) == Catalog.AddPerson(old(Model()), body)
      ensures old(Valid()) ==> Valid()
    {
      Properties.AddPersonPreservesValid(Model(), body);
      if Catalog.EmptyBody(body) {
        return Catalog.EmptyFields;
      }
      var b := body.value;
      if "name" !in b {
        Properties.FirstMissingAt(b, Catalog.PeopleFields, 0);
        return Catalog.FieldRequired("name");
      }
      if "specie" !in b {
        Properties.FirstMissingAt(b, Catalog.PeopleFields, 1);
        return Catalog.FieldRequired("specie");
      }
      if "gender" !in b {
        Properties.FirstMissingAt(b, Catalog.PeopleFields, 2);
        return Catalog.FieldRequired("gender");
      }
      if "height" !in b {
        Properties.FirstMissingAt(b, Catalog.PeopleFields, 3);
        return Catalog.FieldRequired("height");
      }
      if "weight" !in b {
        Properties.FirstMissingAt(b, Catalog.PeopleFields, 4);
        return Catalog.FieldRequired("weight");
      }
      if "age" !in b {
        Properties.FirstMissingAt(b, Catalog.PeopleFields, 5);
        return Catalog.FieldRequired("age");
      }
      if Catalog.PeopleByName(people, b["name"]).Some? {
        return Catalog.NameTaken;
      }
      var person := People(nextPeopleId, b["name"], b["specie"], b["gender"], b["height"],
                           b["weight"], b["age"], None);
      people := people + [person];
      nextPeopleId := nextPeopleId + 1;
      r := Catalog.Response(201, "Person created", map["data" := PeopleJson(person)]);
    }

    /** POST /favorite/planet/{planet_id}/{user_id} */
    method AddFavoritePlanet(userId: int, planetId: int) returns (r: Catalog.Response)
      modifies this
      ensures (r, Model()) == Catalog.AddFavoritePlanet(old(Model()), userId, planetId)
      ensures old(Valid()) ==> Valid()
    {
      Properties.AddFavoritePlanetPreservesValid(Model(), userId, planetId);
      if Catalog.UserById(users, userId).None? {
        return Catalog.Reply(404, "User Not Found");
      }
      var planet := Catalog.PlanetById(planets, planetId);
      if planet.None? {
        return Catalog.Reply(404, "Planet Not Found");
      }
      if Catalog.FavPlanetIndex(favPlanets, userId, planetId).Some? {
        return Catalog.Reply(400, "The planet " + Show(planets[planet.value].name) + " is already added to favorites");
      }
      favPlanets := favPlanets + [FavoritePlanet(nextFavPlanetId, userId, planetId)];
      nextFavPlanetId := nextFavPlanetId + 1;
      r := Catalog.Reply(200, "Planet bookmarked");
    }

    /** POST /favorite/person/{people_id}/{user_id} */
    method AddFavoritePerson(userId: int, peopleId: int) returns (r: Catalog.Response)
      modifies this
      ensures (r, Model()) == Catalog.AddFavoritePerson(old(Model()), userId, peopleId)
      ensures old(Valid()) ==> Valid()
    {
      Properties.AddFavoritePersonPreservesValid(Model(), userId, peopleId);
      if Catalog.UserById(users, userId).None? {
        return Catalog.Reply(404, "User Not Found");
      }
      var person := Catalog.PeopleById(people, peopleId);
      if person.None? {
        return Catalog.Reply(404, "Person Not Found");
      }
      if Catalog.FavPersonIndex(favPersons, userId, peopleId).Some? {
        return Catalog.Reply(400, "The person " + Show(people[person.value].name) + " is already added to favorites");
      }
      favPersons := favPersons + [FavoritePerson(nextFavPersonId, userId, peopleId)];
      nextFavPersonId := nextFavPersonId + 1;
      r := Catalog.Reply(200, "Person bookmarked");
    }

    /** DELETE /favorite/planet/{planet_id}/{user_id} */
    method DeleteFavoritePlanet(userId: int, planetId: int) returns (r: Catalog.Response)
      modifies this
      ensures (r, Model()) == Catalog.DeleteFavoritePlanet(old(Model()), userId, planetId)
      ensures old(Valid()) ==> Valid()
    {
      Properties.DeleteFavoritePlanetPreservesValid(Model(), userId, planetId);
      if Catalog.UserById(users, userId).None? {
        return Catalog.Reply(404, "User Not Found");
      }
      var planet := Catalog.PlanetById(planets, planetId);
      if planet.None? {
        return Catalog.Reply(404, "Planet Not Found");
      }
      var favorite := Catalog.FavPlanetIndex(favPlanets, userId, planetId);
      if favorite.None? {
        return Catalog.Reply(404, "The planet is not in favorites");
      }
      favPlanets := RemoveAt(favPlanets, favorite.value);
      r := Catalog.Reply(200, "Planet " + Show(planets[planet.value].name) + " removed from watch list");
    }

    /**
     * DELETE /favorite/person/{people_id}/{user_id}. The row found is handed
     * back to the session instead of being deleted, so no table changes.
     */
    method DeleteFavoritePerson(userId: int, peopleId: int) returns (r: Catalog.Response)
      modifies this
      ensures (r, Model()) == Catalog.DeleteFavoritePerson(old(Model()), userId, peopleId)
      ensures old(Valid()) ==> Valid()
    {
      if Catalog.UserById(users, userId).None? {
        return Catalog.Reply(404, "User Not Found");
      }
      var person := Catalog.PeopleById(people, peopleId);
      if person.None? {
        return Catalog.Reply(404, "Person Not Found");
      }
      var favorite := Catalog.FavPersonIndex(favPersons, userId, peopleId);
      if favorite.None? {
        return Catalog.Reply(404, "The person is not in favorites");
      }
      favPersons := favPersons[favorite.value := favPersons[favorite.value]];
      assert favPersons == old(favPersons);
      r := Catalog.Reply(200, "Person " + Show(people[person.value].name) + " removed from watch list");
    }
  }
}
