/**
 * The five tables' row shapes and their serializers. Columns the handlers
 * fill from the request body hold the body's value as given (no coercion),
 * so they are `Json`; primary and foreign keys are integers.
 */
module Models {
  import opened Json

  datatype User = User(id: int, name: Json, email: Json, password: Json, isActive: bool)
  {
    /** The public view of a user: id, name and email; never the password. */
    function Serialize(): (r: map<string, Json>)
      ensures r.Keys == {"id", "name", "email"}
      ensures "password" !in r && "is_active" !in r
      ensures r["id"] == JNum(id) && r["name"] == name && r["email"] == email
    {
      map["id" := JNum(id), "name" := name, "email" := email]
    }
  }

  datatype Planet = Planet(id: int, name: Json, population: Json, diameter: Json,
                           climated: Json, terrain: Json)
  {
    /** Every column of the planet, copied unchanged. */
    function Serialize(): (r: map<string, Json>)
      ensures r.Keys == {"id", "name", "population", "diameter", "climated", "terrain"}
      ensures r["id"] == JNum(id) && r["name"] == name && r["population"] == population
      ensures r["diameter"] == diameter && r["climated"] == climated && r["terrain"] == terrain
    {
      map["id" := JNum(id), "name" := name, "population" := population,
          "diameter" := diameter, "climated" := climated, "terrain" := terrain]
    }
  }

  /** A character; `planetId` is the optional foreign key to its home planet. */
  datatype People = People(id: int, name: Json, specie: Json, gender: Json, height: Json,
                           weight: Json, age: Json, planetId: Option<int>)
  {
    /** Every column except the planet foreign key. */
    function Serialize(): (r: map<string, Json>)
      ensures r.Keys == {"id", "name", "specie", "gender", "height", "weight", "age"}
      ensures "planet_id" !in r
      ensures r["id"] == JNum(id) && r["name"] == name && r["specie"] == specie
      ensures r["gender"] == gender && r["height"] == height && r["weight"] == weight
      ensures r["age"] == age
    {
      map["id" := JNum(id), "name" := name, "specie" := specie, "gender" := gender,
          "height" := height, "weight" := weight, "age" := age]
    }
  }

  /**
   * A (user, planet) bookmark. The table carries no uniqueness constraint on
   * the pair: only the handlers keep it duplicate-free.
   */
  datatype FavoritePlanet = FavoritePlanet(id: int, userId: int, planetId: int)
  {
    function Serialize(): (r: map<string, Json>)
      ensures r.Keys == {"id", "user_id", "planet_id"}
      ensures r["id"] == JNum(id) && r["user_id"] == JNum(userId) && r["planet_id"] == JNum(planetId)
    {
      map["id" := JNum(id), "user_id" := JNum(userId), "planet_id" := JNum(planetId)]
    }
  }

  /** A (user, character) bookmark; same shape as FavoritePlanet. */
  datatype FavoritePerson = FavoritePerson(id: int, userId: int, peopleId: int)
  {
    function Serialize(): (r: map<string, Json>)
      ensures r.Keys == {"id", "user_id", "people_id"}
      ensures r["id"] == JNum(id) && r["user_id"] == JNum(userId) && r["people_id"] == JNum(peopleId)
    {
      map["id" := JNum(id), "user_id" := JNum(userId), "people_id" := JNum(peopleId)]
    }
  }

  // Serialized rows as JSON objects, the element shape of every listing.

  function UserJson(u: User): Json { JObj(u.Serialize()) }
  function PlanetJson(p: Planet): Json { JObj(p.Serialize()) }
  function PeopleJson(p: People): Json { JObj(p.Serialize()) }

  /**
   * The password is not observable through serialization: two users that
   * differ only in their password serialize identically.
   */
  lemma PasswordNotObservable(u: User, password: Json)
    ensures u.(password := password).Serialize() == u.Serialize()
  {
  }

  // Uniqueness of the columns declared `unique=True`, over a whole table.

  ghost predicate EmailsUnique(users: seq<User>)
  {
    forall i, j :: 0 <= i < j < |users| ==> users[i].email != users[j].email
  }

  ghost predicate PlanetNamesUnique(planets: seq<Planet>)
  {
    forall i, j :: 0 <= i < j < |planets| ==> planets[i].name != planets[j].name
  }

  ghost predicate PeopleNamesUnique(people: seq<People>)
  {
    forall i, j :: 0 <= i < j < |people| ==> people[i].name != people[j].name
  }
}
