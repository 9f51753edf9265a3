/**
 * What the handlers promise, stated over the Catalog state machine: the
 * order of their checks, that a rejected request changes nothing, what a
 * successful one adds or removes, that every handler keeps the store's
 * invariant, and how successive requests interact.
 */
module Properties {
  import opened Json
  import opened Seqs
  import opened Models
  import opened Catalog

  /** Some bookmark row links user `u` to planet `p`. */
  ghost predicate PlanetPairIn(favs: seq<FavoritePlanet>, u: int, p: int)
  {
    exists i :: 0 <= i < |favs| && favs[i].userId == u && favs[i].planetId == p
  }

  /** Some bookmark row links user `u` to character `p`. */
  ghost predicate PersonPairIn(favs: seq<FavoritePerson>, u: int, p: int)
  {
    exists i :: 0 <= i < |favs| && favs[i].userId == u && favs[i].peopleId == p
  }

  // ------------------------------------------------------------ bodies

  /** The reported field is the first one of the list that is missing. */
  lemma FirstMissingAt(b: map<string, Json>, fields: seq<string>, k: nat)
    requires k < |fields| && fields[k] !in b
    requires forall j :: 0 <= j < k ==> fields[j] in b
    ensures FirstMissing(b, fields) == Some(fields[k])
  {
  }

  /** `not body` holds of an absent body and of `{}`: each creator answers 400 and changes nothing. */
  lemma CreateRejectsEmptyBody(db: Db, body: Body)
    requires EmptyBody(body)
    ensures AddUser(db, body) == (Reply(400, "Fields cannot be empty."), db)
    ensures AddPlanet(db, body) == (Reply(400, "Fields cannot be empty."), db)
    ensures AddPerson(db, body) == (Reply(400, "Fields cannot be empty."), db)
  {
  }

  lemma AddUserReportsFirstMissing(db: Db, b: map<string, Json>, k: nat)
    requires b != map[]
    requires k < |UserFields| && UserFields[k] !in b
    requires forall j :: 0 <= j < k ==> UserFields[j] in b
    ensures AddUser(db, Some(b)) == (Reply(400, "The " + UserFields[k] + " field is required."), db)
  {
    FirstMissingAt(b, UserFields, k);
  }

  lemma AddPlanetReportsFirstMissing(db: Db, b: map<string, Json>, k: nat)
    requires b != map[]
    requires k < |PlanetFields| && PlanetFields[k] !in b
    requires forall j :: 0 <= j < k ==> PlanetFields[j] in b
    ensures AddPlanet(db, Some(b)) == (Reply(400, "The " + PlanetFields[k] + " field is required."), db)
  {
    FirstMissingAt(b, PlanetFields, k);
  }

  lemma AddPersonReportsFirstMissing(db: Db, b: map<string, Json>, k: nat)
    requires b != map[]
    requires k < |PeopleFields| && PeopleFields[k] !in b
    requires forall j :: 0 <= j < k ==> PeopleFields[j] in b
    ensures AddPerson(db, Some(b)) == (Reply(400, "The " + PeopleFields[k] + " field is required."), db)
  {
    FirstMissingAt(b, PeopleFields, k);
  }

  // ----------------------------------------------------- creating rows

  lemma AddUserRejectsTakenEmail(db: Db, b: map<string, Json>, i: nat)
    requires "name" in b && "email" in b && "password" in b
    requires i < |db.users| && db.users[i].email == b["email"]
    ensures AddUser(db, Some(b)) == (Reply(400, "This email is taken; please choose another."), db)
  {
    assert FirstMissing(b, UserFields) == None;
  }

  lemma AddPlanetRejectsTakenName(db: Db, b: map<string, Json>, i: nat)
    requires "name" in b && "population" in b && "diameter" in b && "climated" in b && "terrain" in b
    requires i < |db.planets| && db.planets[i].name == b["name"]
    ensures AddPlanet(db, Some(b)) == (Reply(400, "This name is taken; please choose another."), db)
  {
    assert FirstMissing(b, PlanetFields) == None;
  }

  lemma AddPersonRejectsTakenName(db: Db, b: map<string, Json>, i: nat)
    requires "name" in b && "specie" in b && "gender" in b && "height" in b && "weight" in b && "age" in b
    requires i < |db.people| && db.people[i].name == b["name"]
    ensures AddPerson(db, Some(b)) == (Reply(400, "This name is taken; please choose another."), db)
  {
    assert FirstMissing(b, PeopleFields) == None;
  }

  /** A complete body with an unused email adds exactly one active user and shows no password. */
  lemma AddUserCreates(db: Db, b: map<string, Json>)
    requires "name" in b && "email" in b && "password" in b
    requires forall j :: 0 <= j < |db.users| ==> db.users[j].email != b["email"]
    ensures var (r, db') := AddUser(db, Some(b));
      && r.status == 201 && r.msg == "User created"
      && db'.users == db.users + [User(db.nextUserId, b["name"], b["email"], b["password"], true)]
      && db' == db.(users := db'.users, nextUserId := db.nextUserId + 1)
      && r.payload.Keys == {"data"} && r.payload["data"].JObj?
      && r.payload["data"].fields.Keys == {"id", "name", "email"}
      && r.payload["data"].fields["email"] == b["email"]
  {
    assert FirstMissing(b, UserFields) == None;
  }

  lemma AddPlanetCreates(db: Db, b: map<string, Json>)
    requires "name" in b && "population" in b && "diameter" in b && "climated" in b && "terrain" in b
    requires forall j :: 0 <= j < |db.planets| ==> db.planets[j].name != b["name"]
    ensures var (r, db') := AddPlanet(db, Some(b));
      && r.status == 201 && r.msg == "Planet created"
      && db'.planets == db.planets + [Planet(db.nextPlanetId, b["name"], b["population"],
                                             b["diameter"], b["climated"], b["terrain"])]
      && db' == db.(planets := db'.planets, nextPlanetId := db.nextPlanetId + 1)
      && r.payload.Keys == {"data"} && r.payload["data"].JObj?
      && r.payload["data"].fields["name"] == b["name"]
  {
    assert FirstMissing(b, PlanetFields) == None;
  }

  lemma AddPersonCreates(db: Db, b: map<string, Json>)
    requires "name" in b && "specie" in b && "gender" in b && "height" in b && "weight" in b && "age" in b
    requires forall j :: 0 <= j < |db.people| ==> db.people[j].name != b["name"]
    ensures var (r, db') := AddPerson(db, Some(b));
      && r.status == 201 && r.msg == "Person created"
      && db'.people == db.people + [People(db.nextPeopleId, b["name"], b["specie"], b["gender"],
                                           b["height"], b["weight"], b["age"], None)]
      && db' == db.(people := db'.people, nextPeopleId := db.nextPeopleId + 1)
      && r.payload.Keys == {"data"} && r.payload["data"].JObj?
      && "planet_id" !in r.payload["data"].fields
  {
    assert FirstMissing(b, PeopleFields) == None;
  }

  /** A creator answers 201 or leaves the store as it was. */
  lemma CreateChangesNothingUnlessCreated(db: Db, body: Body)
    ensures AddUser(db, body).0.status != 201 ==> AddUser(db, body).1 == db
    ensures AddPlanet(db, body).0.status != 201 ==> AddPlanet(db, body).1 == db
    ensures AddPerson(db, body).0.status != 201 ==> AddPerson(db, body).1 == db
  {
  }

  /** Repeating a successful POST /user with the same body is refused. */
  lemma AddUserTwice(db: Db, body: Body)
    requires AddUser(db, body).0.status == 201
    ensures var db1 := AddUser(db, body).1;
      AddUser(db1, body) == (Reply(400, "This email is taken; please choose another."), db1)
  {
    var b := body.value;
    assert FirstMissing(b, UserFields) == None;
    assert UserFields[1] in b && UserFields[2] in b;
    var db1 := AddUser(db, body).1;
    AddUserRejectsTakenEmail(db1, b, |db.users|);
  }

  /** Repeating a successful POST /planet with the same body is refused. */
  lemma AddPlanetTwice(db: Db, body: Body)
    requires AddPlanet(db, body).0.status == 201
    ensures var db1 := AddPlanet(db, body).1;
      AddPlanet(db1, body) == (Reply(400, "This name is taken; please choose another."), db1)
  {
    var b := body.value;
    assert FirstMissing(b, PlanetFields) == None;
    assert PlanetFields[1] in b && PlanetFields[2] in b && PlanetFields[3] in b && PlanetFields[4] in b;
    var db1 := AddPlanet(db, body).1;
    AddPlanetRejectsTakenName(db1, b, |db.planets|);
  }

  /** Repeating a successful POST /people with the same body is refused. */
  lemma AddPersonTwice(db: Db, body: Body)
    requires AddPerson(db, body).0.status == 201
    ensures var db1 := AddPerson(db, body).1;
      AddPerson(db1, body) == (Reply(400, "This name is taken; please choose another."), db1)
  {
    var b := body.value;
    assert FirstMissing(b, PeopleFields) == None;
    assert PeopleFields[1] in b && PeopleFields[2] in b && PeopleFields[3] in b;
    assert PeopleFields[4] in b && PeopleFields[5] in b;
    var db1 := AddPerson(db, body).1;
    AddPersonRejectsTakenName(db1, b, |db.people|);
  }

  /** Creating Tatooine on an empty store, then creating it again. */
  lemma TatooineScenario()
    ensures var body := Some(map["name" := JStr("Tatooine"), "population" := JNum(200000),
                                 "diameter" := JNum(10465), "climated" := JStr("arid"),
                                 "terrain" := JStr("desert")]);
      var (r1, db1) := AddPlanet(Empty(), body);
      && r1.status == 201 && r1.payload["data"] == JObj(Planet(1, JStr("Tatooine"), JNum(200000),
                                                                 JNum(10465), JStr("arid"), JStr("desert")).Serialize())
      && AddPlanet(db1, body) == (Reply(400, "This name is taken; please choose another."), db1)
  {
    var body := Some(map["name" := JStr("Tatooine"), "population" := JNum(200000),
                         "diameter" := JNum(10465), "climated" := JStr("arid"),
                         "terrain" := JStr("desert")]);
    var tatooine := Planet(1, JStr("Tatooine"), JNum(200000), JNum(10465), JStr("arid"), JStr("desert"));
    AddPlanetCreates(Empty(), body.value);
    var db1 := AddPlanet(Empty(), body).1;
    assert db1.planets == [tatooine];
    assert AddPlanet(Empty(), body).0 == Response(201, "Planet created", map["data" := JObj(tatooine.Serialize())]);
    AddPlanetTwice(Empty(), body);
  }

  // -------------------------------------------------------- bookmarks

  /**
   * POST /favorite/planet: user checked first, then planet, then the pair; it
   * answers 200 exactly when all three pass, and only then appends a row.
   */
  lemma AddFavoritePlanetOutcomes(db: Db, u: int, p: int)
    ensures var (r, db') := AddFavoritePlanet(db, u, p);
      && (u !in UserIds(db.users) ==> r == Reply(404, "User Not Found"))
      && (u in UserIds(db.users) && p !in PlanetIds(db.planets) ==> r == Reply(404, "Planet Not Found"))
      && (u in UserIds(db.users) && p in PlanetIds(db.planets) && PlanetPairIn(db.favPlanets, u, p) ==>
            exists k :: 0 <= k < |db.planets| && db.planets[k].id == p &&
              r == Reply(400, "The planet " + Show(db.planets[k].name) + " is already added to favorites"))
      && (r.status == 200 <==>
            u in UserIds(db.users) && p in PlanetIds(db.planets) && !PlanetPairIn(db.favPlanets, u, p))
      && (r.status != 200 ==> db' == db)
      && (r.status == 200 ==>
            && r == Reply(200, "Planet bookmarked")
            && db' == db.(favPlanets := db.favPlanets + [FavoritePlanet(db.nextFavPlanetId, u, p)],
                          nextFavPlanetId := db.nextFavPlanetId + 1))
  {
    var idx := FavPlanetIndex(db.favPlanets, u, p);
    if idx.Some? {
      assert PlanetPairIn(db.favPlanets, u, p);
    }
  }

  /** POST /favorite/person: the same three checks, in the same order. */
  lemma AddFavoritePersonOutcomes(db: Db, u: int, p: int)
    ensures var (r, db') := AddFavoritePerson(db, u, p);
      && (u !in UserIds(db.users) ==> r == Reply(404, "User Not Found"))
      && (u in UserIds(db.users) && p !in PeopleIds(db.people) ==> r == Reply(404, "Person Not Found"))
      && (u in UserIds(db.users) && p in PeopleIds(db.people) && PersonPairIn(db.favPersons, u, p) ==>
            exists k :: 0 <= k < |db.people| && db.people[k].id == p &&
              r == Reply(400, "The person " + Show(db.people[k].name) + " is already added to favorites"))
      && (r.status == 200 <==>
            u in UserIds(db.users) && p in PeopleIds(db.people) && !PersonPairIn(db.favPersons, u, p))
      && (r.status != 200 ==> db' == db)
      && (r.status == 200 ==>
            && r == Reply(200, "Person bookmarked")
            && db' == db.(favPersons := db.favPersons + [FavoritePerson(db.nextFavPersonId, u, p)],
                          nextFavPersonId := db.nextFavPersonId + 1))
  {
    var idx := FavPersonIndex(db.favPersons, u, p);
    if idx.Some? {
      assert PersonPairIn(db.favPersons, u, p);
    }
  }

  /** Bookmarking the same planet twice: the second request is refused and changes nothing. */
  lemma AddFavoritePlanetTwice(db: Db, u: int, p: int)
    requires AddFavoritePlanet(db, u, p).0.status == 200
    ensures var db1 := AddFavoritePlanet(db, u, p).1;
      AddFavoritePlanet(db1, u, p).0.status == 400 && AddFavoritePlanet(db1, u, p).1 == db1
  {
    AddFavoritePlanetOutcomes(db, u, p);
    var db1 := AddFavoritePlanet(db, u, p).1;
    assert db1.favPlanets[|db.favPlanets|].userId == u;
    assert PlanetPairIn(db1.favPlanets, u, p);
    AddFavoritePlanetOutcomes(db1, u, p);
  }

  /** Bookmarking the same character twice: the second request is refused and changes nothing. */
  lemma AddFavoritePersonTwice(db: Db, u: int, p: int)
    requires AddFavoritePerson(db, u, p).0.status == 200
    ensures var db1 := AddFavoritePerson(db, u, p).1;
      AddFavoritePerson(db1, u, p).0.status == 400 && AddFavoritePerson(db1, u, p).1 == db1
  {
    AddFavoritePersonOutcomes(db, u, p);
    var db1 := AddFavoritePerson(db, u, p).1;
    assert db1.favPersons[|db.favPersons|].userId == u;
    assert PersonPairIn(db1.favPersons, u, p);
    AddFavoritePersonOutcomes(db1, u, p);
  }

  /**
   * DELETE /favorite/planet: the same user and planet checks, then 404 when
   * the pair is not bookmarked; 200 exactly when it is, and only then is a
   * row removed, every other row kept in order.
   */
  lemma DeleteFavoritePlanetOutcomes(db: Db, u: int, p: int)
    ensures var (r, db') := DeleteFavoritePlanet(db, u, p);
      && (u !in UserIds(db.users) ==> r == Reply(404, "User Not Found"))
      && (u in UserIds(db.users) && p !in PlanetIds(db.planets) ==> r == Reply(404, "Planet Not Found"))
      && (u in UserIds(db.users) && p in PlanetIds(db.planets) && !PlanetPairIn(db.favPlanets, u, p) ==>
            r == Reply(404, "The planet is not in favorites"))
      && (r.status == 200 <==>
            u in UserIds(db.users) && p in PlanetIds(db.planets) && PlanetPairIn(db.favPlanets, u, p))
      && (r.status != 200 ==> db' == db)
      && (r.status == 200 ==>
            && (exists k :: 0 <= k < |db.planets| && db.planets[k].id == p &&
                  r == Reply(200, "Planet " + Show(db.planets[k].name) + " removed from watch list"))
            && db' == db.(favPlanets := db'.favPlanets)
            && |db'.favPlanets| == |db.favPlanets| - 1
            && exists k :: 0 <= k < |db.favPlanets| && db.favPlanets[k].userId == u &&
                 db.favPlanets[k].planetId == p && db'.favPlanets == RemoveAt(db.favPlanets, k))
  {
    var idx := FavPlanetIndex(db.favPlanets, u, p);
    if idx.Some? {
      assert PlanetPairIn(db.favPlanets, u, p);
    }
  }

  /** In a valid store a 200 from DELETE /favorite/planet leaves no row for the pair. */
  lemma DeleteFavoritePlanetRemovesPair(db: Db, u: int, p: int)
    requires Valid(db)
    requires DeleteFavoritePlanet(db, u, p).0.status == 200
    ensures var db' := DeleteFavoritePlanet(db, u, p).1;
      && !PlanetPairIn(db'.favPlanets, u, p)
      && forall j :: 0 <= j < |db.favPlanets| && !(db.favPlanets[j].userId == u && db.favPlanets[j].planetId == p) ==>
           db.favPlanets[j] in db'.favPlanets
  {
    var favs := db.favPlanets;
    var k := FavPlanetIndex(favs, u, p).value;
    var rest := DeleteFavoritePlanet(db, u, p).1.favPlanets;
    assert rest == RemoveAt(favs, k);
    forall i | 0 <= i < |rest|
      ensures !(rest[i].userId == u && rest[i].planetId == p)
    {
      if i < k {
        assert rest[i] == favs[i] && !SamePlanetPair(favs[i], favs[k]);
      } else {
        assert rest[i] == favs[i + 1] && !SamePlanetPair(favs[k], favs[i + 1]);
      }
    }
    forall j | 0 <= j < |favs| && !(favs[j].userId == u && favs[j].planetId == p)
      ensures favs[j] in rest
    {
      if j < k {
        assert rest[j] == favs[j];
      } else {
        assert rest[j - 1] == favs[j];
      }
    }
  }

  /** Bookmarking a new planet and then removing it gives back the table as it was. */
  lemma AddThenDeleteFavoritePlanet(db: Db, u: int, p: int)
    requires AddFavoritePlanet(db, u, p).0.status == 200
    ensures var db1 := AddFavoritePlanet(db, u, p).1;
      && DeleteFavoritePlanet(db1, u, p).0.status == 200
      && DeleteFavoritePlanet(db1, u, p).1 == db1.(favPlanets := db.favPlanets)
  {
    AddFavoritePlanetOutcomes(db, u, p);
    var db1 := AddFavoritePlanet(db, u, p).1;
    var n := |db.favPlanets|;
    assert db1.favPlanets[n].userId == u && db1.favPlanets[n].planetId == p;
    var idx := FavPlanetIndex(db1.favPlanets, u, p);
    assert idx.Some?;
    assert idx.value == n;
    assert RemoveAt(db1.favPlanets, n) == db.favPlanets;
  }

  /**
   * DELETE /favorite/person hands the found row back to the session instead
   * of deleting it: whatever it answers, the store is unchanged. It answers
   * 200 exactly when the user, the character and the bookmark exist.
   */
  lemma DeleteFavoritePersonKeepsStore(db: Db, u: int, p: int)
    ensures var (r, db') := DeleteFavoritePerson(db, u, p);
      && db' == db
      && (u !in UserIds(db.users) ==> r == Reply(404, "User Not Found"))
      && (u in UserIds(db.users) && p !in PeopleIds(db.people) ==> r == Reply(404, "Person Not Found"))
      && (u in UserIds(db.users) && p in PeopleIds(db.people) && !PersonPairIn(db.favPersons, u, p) ==>
            r == Reply(404, "The person is not in favorites"))
      && (r.status == 200 <==>
            u in UserIds(db.users) && p in PeopleIds(db.people) && PersonPairIn(db.favPersons, u, p))
      && (r.status == 200 ==>
            exists k :: 0 <= k < |db.people| && db.people[k].id == p &&
              r == Reply(200, "Person " + Show(db.people[k].name) + " removed from watch list"))
  {
    var idx := FavPersonIndex(db.favPersons, u, p);
    if idx.Some? {
      assert PersonPairIn(db.favPersons, u, p);
    }
  }

  /**
   * After DELETE /favorite/person reports the character removed, it is still
   * bookmarked: bookmarking it again is refused and deleting it again
   * answers 200 again.
   */
  lemma DeleteFavoritePersonLeavesBookmark(db: Db, u: int, p: int)
    requires DeleteFavoritePerson(db, u, p).0.status == 200
    ensures var db' := DeleteFavoritePerson(db, u, p).1;
      && PersonPairIn(db'.favPersons, u, p)
      && AddFavoritePerson(db', u, p).0.status == 400
      && DeleteFavoritePerson(db', u, p).0.status == 200
  {
    DeleteFavoritePersonKeepsStore(db, u, p);
    AddFavoritePersonOutcomes(db, u, p);
  }

  // ------------------------------------------------------ the invariant

  lemma EmptyIsValid()
    ensures Valid(Empty())
  {
  }

  /** Appending a row with a fresh id extends the table's id set by that id. */
  lemma UserIdsAppend(users: seq<User>, u: User)
    ensures UserIds(users + [u]) == UserIds(users) + {u.id}
  {
    assert forall x :: x in users + [u] <==> x in users || x == u;
  }

  lemma PlanetIdsAppend(planets: seq<Planet>, p: Planet)
    ensures PlanetIds(planets + [p]) == PlanetIds(planets) + {p.id}
  {
    assert forall x :: x in planets + [p] <==> x in planets || x == p;
  }

  lemma PeopleIdsAppend(people: seq<People>, p: People)
    ensures PeopleIds(people + [p]) == PeopleIds(people) + {p.id}
  {
    assert forall x :: x in people + [p] <==> x in people || x == p;
  }

  /** POST /user keeps ids fresh and emails unique. */
  lemma AddUserPreservesValid(db: Db, body: Body)
    ensures Valid(db) ==> Valid(AddUser(db, body).1)
  {
    if Valid(db) {
      var db' := AddUser(db, body).1;
      if db' != db {
        var u := db'.users[|db.users|];
        assert db'.users == db.users + [u];
        UserIdsAppend(db.users, u);
      }
    }
  }

  /** POST /planet keeps ids fresh and planet names unique. */
  lemma AddPlanetPreservesValid(db: Db, body: Body)
    ensures Valid(db) ==> Valid(AddPlanet(db, body).1)
  {
    if Valid(db) {
      var db' := AddPlanet(db, body).1;
      if db' != db {
        var p := db'.planets[|db.planets|];
        assert db'.planets == db.planets + [p];
        PlanetIdsAppend(db.planets, p);
      }
    }
  }

  /** POST /people keeps ids fresh and character names unique. */
  lemma AddPersonPreservesValid(db: Db, body: Body)
    ensures Valid(db) ==> Valid(AddPerson(db, body).1)
  {
    if Valid(db) {
      var db' := AddPerson(db, body).1;
      if db' != db {
        var p := db'.people[|db.people|];
        assert db'.people == db.people + [p];
        PeopleIdsAppend(db.people, p);
      }
    }
  }

  /** POST /favorite/planet keeps every (user, planet) pair at most once. */
  lemma AddFavoritePlanetPreservesValid(db: Db, u: int, p: int)
    ensures Valid(db) ==> Valid(AddFavoritePlanet(db, u, p).1)
  {
    if Valid(db) {
      AddFavoritePlanetOutcomes(db, u, p);
      var db' := AddFavoritePlanet(db, u, p).1;
      if db' != db {
        var favs := db'.favPlanets;
        var n := |db.favPlanets|;
        forall i, j | 0 <= i < j < |favs|
          ensures favs[i].id != favs[j].id && !SamePlanetPair(favs[i], favs[j])
        {
          if j == n {
            assert favs[i] == db.favPlanets[i];
          }
        }
      }
    }
  }

  /** POST /favorite/person keeps every (user, character) pair at most once. */
  lemma AddFavoritePersonPreservesValid(db: Db, u: int, p: int)
    ensures Valid(db) ==> Valid(AddFavoritePerson(db, u, p).1)
  {
    if Valid(db) {
      AddFavoritePersonOutcomes(db, u, p);
      var db' := AddFavoritePerson(db, u, p).1;
      if db' != db {
        var favs := db'.favPersons;
        var n := |db.favPersons|;
        forall i, j | 0 <= i < j < |favs|
          ensures favs[i].id != favs[j].id && !SamePersonPair(favs[i], favs[j])
        {
          if j == n {
            assert favs[i] == db.favPersons[i];
          }
        }
      }
    }
  }

  /** DELETE /favorite/planet only drops a row, which keeps every property of the rest. */
  lemma DeleteFavoritePlanetPreservesValid(db: Db, u: int, p: int)
    ensures Valid(db) ==> Valid(DeleteFavoritePlanet(db, u, p).1)
  {
    if Valid(db) {
      var db' := DeleteFavoritePlanet(db, u, p).1;
      if db' != db {
        var favs := db.favPlanets;
        var k := FavPlanetIndex(favs, u, p).value;
        var rest := db'.favPlanets;
        assert rest == RemoveAt(favs, k);
        assert db' == db.(favPlanets := rest);
        forall i | 0 <= i < |rest|
          ensures 0 < rest[i].id < db.nextFavPlanetId
          ensures rest[i].userId in UserIds(db.users) && rest[i].planetId in PlanetIds(db.planets)
        {
          assert rest[i] == favs[if i < k then i else i + 1];
        }
        forall i, j | 0 <= i < j < |rest|
          ensures rest[i].id != rest[j].id && !SamePlanetPair(rest[i], rest[j])
        {
          assert rest[i] == favs[if i < k then i else i + 1];
          assert rest[j] == favs[if j < k then j else j + 1];
        }
      }
    }
  }

  /** DELETE /favorite/person changes nothing, so it keeps the invariant. */
  lemma DeleteFavoritePersonPreservesValid(db: Db, u: int, p: int)
    ensures Valid(db) ==> Valid(DeleteFavoritePerson(db, u, p).1)
  {
    if Valid(db) {
      DeleteFavoritePersonKeepsStore(db, u, p);
    }
  }

  // -------------------------------------------------- unique columns

  /** In a valid store an email picks out exactly one user. */
  lemma EmailIdentifiesUser(db: Db, i: nat)
    requires Valid(db) && i < |db.users|
    ensures UserByEmail(db.users, db.users[i].email) == Some(i)
  {
  }

  /** In a valid store a planet name picks out exactly one planet. */
  lemma NameIdentifiesPlanet(db: Db, i: nat)
    requires Valid(db) && i < |db.planets|
    ensures PlanetByName(db.planets, db.planets[i].name) == Some(i)
  {
  }

  /** In a valid store a character name picks out exactly one character. */
  lemma NameIdentifiesPerson(db: Db, i: nat)
    requires Valid(db) && i < |db.people|
    ensures PeopleByName(db.people, db.people[i].name) == Some(i)
  {
  }

  // ---------------------------------------------------------- reads

  /** The three listings: one serialized entry per row, in table order; no password among the users'. */
  lemma ListingsFollowTables(db: Db)
    ensures var users := HandleHello(db).payload["data"].items;
      && |users| == |db.users|
      && forall i :: 0 <= i < |users| ==>
           users[i] == UserJson(db.users[i]) && users[i].fields.Keys == {"id", "name", "email"}
    ensures var planets := AllPlanets(db).payload["data"].items;
      |planets| == |db.planets| && forall i :: 0 <= i < |planets| ==> planets[i] == PlanetJson(db.planets[i])
    ensures var people := AllPeoples(db).payload["data"].items;
      |people| == |db.people| && forall i :: 0 <= i < |people| ==> people[i] == PeopleJson(db.people[i])
  {
  }

  /** GET /peoples/{id}: 404 exactly for an unknown id, else that character without its planet key. */
  lemma PersonOutcomes(db: Db, id: int)
    ensures var r := Person(db, id);
      && (id !in PeopleIds(db.people) <==> r == Reply(404, "Character not found."))
      && (id in PeopleIds(db.people) ==>
            && r.status == 200
            && exists k :: 0 <= k < |db.people| && db.people[k].id == id && r.payload == map["data" := PeopleJson(db.people[k])])
  {
  }

  /** The serialized inhabitants of planet `id` are exactly its characters' serializations. */
  lemma InhabitantsExact(people: seq<People>, id: int)
    ensures var items := Map(Inhabitants(people, id), PeopleJson);
      && (forall j :: 0 <= j < |people| && people[j].planetId == Some(id) ==> PeopleJson(people[j]) in items)
      && (forall k :: 0 <= k < |items| ==>
            exists j :: 0 <= j < |people| && people[j].planetId == Some(id) && items[k] == PeopleJson(people[j]))
  {
    var inh := Inhabitants(people, id);
    var items := Map(inh, PeopleJson);
    forall j | 0 <= j < |people| && people[j].planetId == Some(id)
      ensures PeopleJson(people[j]) in items
    {
      var m := FilterComplete(people, LivesOn(id), j);
      assert items[m] == PeopleJson(people[j]);
    }
    forall k | 0 <= k < |items|
      ensures exists j :: 0 <= j < |people| && people[j].planetId == Some(id) && items[k] == PeopleJson(people[j])
    {
      assert inh[k] in people;
      var j :| 0 <= j < |people| && people[j] == inh[k];
      assert items[k] == PeopleJson(people[j]);
    }
  }

  /**
   * The inhabitants list follows the character table: it is the table read at
   * strictly increasing positions `idx`, each holding a character of planet
   * `id`, and every such character's position is among them, so each one is
   * listed exactly once and in table order.
   */
  lemma InhabitantsInOrder(people: seq<People>, id: int) returns (idx: seq<nat>)
    ensures var items := Map(Inhabitants(people, id), PeopleJson);
      && |idx| == |items|
      && (forall k :: 0 <= k < |idx| ==>
            idx[k] < |people| && people[idx[k]].planetId == Some(id) && items[k] == PeopleJson(people[idx[k]]))
      && (forall k, l :: 0 <= k < l < |idx| ==> idx[k] < idx[l])
      && (forall j :: 0 <= j < |people| && people[j].planetId == Some(id) ==> j in idx)
  {
    idx := FilterPositions(people, LivesOn(id));
  }

  /**
   * GET /planets/{id}: 404 exactly for an unknown id; otherwise the planet's
   * fields plus `inhabitants`, which lists exactly the serialized characters
   * whose planet key is `id`.
   */
  lemma GetPlanetOutcomes(db: Db, id: int)
    ensures var r := GetPlanet(db, id);
      && (id !in PlanetIds(db.planets) <==> r == Reply(404, "Planet not found."))
      && (id in PlanetIds(db.planets) ==>
            && r.status == 200 && r.msg == "Planet obtained"
            && "data" in r.payload && r.payload["data"].JObj?
            && r.payload["data"].fields.Keys ==
                 {"id", "name", "population", "diameter", "climated", "terrain", "inhabitants"}
            && r.payload["data"].fields["id"] == JNum(id)
            && r.payload["data"].fields["inhabitants"] == JArr(Map(Inhabitants(db.people, id), PeopleJson)))
  {
  }

  /** The user has at least one planet bookmark. */
  ghost predicate HasPlanetFavorite(db: Db, id: int)
  {
    exists i :: 0 <= i < |db.favPlanets| && db.favPlanets[i].userId == id
  }

  /** The user has at least one character bookmark. */
  ghost predicate HasPersonFavorite(db: Db, id: int)
  {
    exists i :: 0 <= i < |db.favPersons| && db.favPersons[i].userId == id
  }

  /** A user's bookmarks all resolve: their user and their target exist. */
  lemma BookmarksResolve(db: Db, id: int)
    requires FavPlanetRefs(db) && FavPersonRefs(db)
    ensures var fp := FavPlanetsOf(db.favPlanets, id);
      forall i :: 0 <= i < |fp| ==> fp[i].userId in UserIds(db.users) && fp[i].planetId in PlanetIds(db.planets)
    ensures var fq := FavPersonsOf(db.favPersons, id);
      forall i :: 0 <= i < |fq| ==> fq[i].userId in UserIds(db.users) && fq[i].peopleId in PeopleIds(db.people)
  {
    var fp := FavPlanetsOf(db.favPlanets, id);
    forall i | 0 <= i < |fp|
      ensures fp[i].userId in UserIds(db.users) && fp[i].planetId in PlanetIds(db.planets)
    {
      assert fp[i] in db.favPlanets;
    }
    var fq := FavPersonsOf(db.favPersons, id);
    forall i | 0 <= i < |fq|
      ensures fq[i].userId in UserIds(db.users) && fq[i].peopleId in PeopleIds(db.people)
    {
      assert fq[i] in db.favPersons;
    }
  }

  /** In a valid planet table an id picks out exactly one planet. */
  lemma IdIdentifiesPlanet(planets: seq<Planet>, next: int, i: nat)
    requires PlanetsValid(planets, next) && i < |planets|
    ensures PlanetById(planets, planets[i].id) == Some(i)
  {
  }

  /** Every planet the user bookmarked is listed under `favorite_planets`. */
  lemma BookmarkedPlanetListed(db: Db, id: int, i: nat)
    requires PlanetsValid(db.planets, db.nextPlanetId) && FavPlanetRefs(db)
    requires i < |db.planets| && PlanetPairIn(db.favPlanets, id, db.planets[i].id)
    ensures PlanetJson(db.planets[i]) in FavoritePlanetItems(db, id)
  {
    var fp := FavPlanetsOf(db.favPlanets, id);
    var targets := PlanetsOf(db.planets, fp);
    var j :| 0 <= j < |db.favPlanets| && db.favPlanets[j].userId == id &&
             db.favPlanets[j].planetId == db.planets[i].id;
    var m := FilterComplete(db.favPlanets, PlanetFavOf(id), j);
    assert fp[m] == db.favPlanets[j];
    IdIdentifiesPlanet(db.planets, db.nextPlanetId, i);
    assert targets[m] == db.planets[i];
    assert FavoritePlanetItems(db, id)[m] == Map(targets, PlanetJson)[m] == PlanetJson(db.planets[i]);
  }

  /** Every entry of `favorite_planets` is a planet the user bookmarked. */
  lemma ListedPlanetBookmarked(db: Db, id: int, k: nat)
    requires FavPlanetRefs(db)
    requires k < |FavPlanetsOf(db.favPlanets, id)|
    ensures exists i :: 0 <= i < |db.planets| && PlanetPairIn(db.favPlanets, id, db.planets[i].id) &&
                        FavoritePlanetItems(db, id)[k] == PlanetJson(db.planets[i])
  {
    var fp := FavPlanetsOf(db.favPlanets, id);
    var targets := PlanetsOf(db.planets, fp);
    assert fp[k] in db.favPlanets;
    var j :| 0 <= j < |db.favPlanets| && db.favPlanets[j] == fp[k];
    var i := PlanetById(db.planets, fp[k].planetId).value;
    assert targets[k] == db.planets[i];
    assert FavoritePlanetItems(db, id)[k] == Map(targets, PlanetJson)[k];
    assert PlanetPairIn(db.favPlanets, id, db.planets[i].id);
  }

  /** The planets listed under `favorite_planets` are exactly the planets the user bookmarked. */
  lemma FavoritePlanetsExact(db: Db, id: int)
    requires PlanetsValid(db.planets, db.nextPlanetId) && FavPlanetRefs(db)
    ensures var items := FavoritePlanetItems(db, id);
      && (forall i :: 0 <= i < |db.planets| && PlanetPairIn(db.favPlanets, id, db.planets[i].id) ==>
            PlanetJson(db.planets[i]) in items)
      && (forall k :: 0 <= k < |items| ==>
            exists i :: 0 <= i < |db.planets| && PlanetPairIn(db.favPlanets, id, db.planets[i].id) &&
                        items[k] == PlanetJson(db.planets[i]))
  {
    var items := FavoritePlanetItems(db, id);
    forall i | 0 <= i < |db.planets| && PlanetPairIn(db.favPlanets, id, db.planets[i].id)
      ensures PlanetJson(db.planets[i]) in items
    {
      BookmarkedPlanetListed(db, id, i);
    }
    forall k | 0 <= k < |items|
      ensures exists i :: 0 <= i < |db.planets| && PlanetPairIn(db.favPlanets, id, db.planets[i].id) &&
                          items[k] == PlanetJson(db.planets[i])
    {
      ListedPlanetBookmarked(db, id, k);
    }
  }

  /** In a valid character table an id picks out exactly one character. */
  lemma IdIdentifiesPerson(people: seq<People>, next: int, i: nat)
    requires PeopleValid(people, next) && i < |people|
    ensures PeopleById(people, people[i].id) == Some(i)
  {
  }

  /** Every character the user bookmarked is listed under `favorite_persons`. */
  lemma BookmarkedPersonListed(db: Db, id: int, i: nat)
    requires PeopleValid(db.people, db.nextPeopleId) && FavPersonRefs(db)
    requires i < |db.people| && PersonPairIn(db.favPersons, id, db.people[i].id)
    ensures PeopleJson(db.people[i]) in FavoritePersonItems(db, id)
  {
    var fp := FavPersonsOf(db.favPersons, id);
    var targets := PeopleOf(db.people, fp);
    var j :| 0 <= j < |db.favPersons| && db.favPersons[j].userId == id &&
             db.favPersons[j].peopleId == db.people[i].id;
    var m := FilterComplete(db.favPersons, PersonFavOf(id), j);
    assert fp[m] == db.favPersons[j];
    IdIdentifiesPerson(db.people, db.nextPeopleId, i);
    assert targets[m] == db.people[i];
    assert FavoritePersonItems(db, id)[m] == Map(targets, PeopleJson)[m] == PeopleJson(db.people[i]);
  }

  /** Every entry of `favorite_persons` is a character the user bookmarked. */
  lemma ListedPersonBookmarked(db: Db, id: int, k: nat)
    requires FavPersonRefs(db)
    requires k < |FavPersonsOf(db.favPersons, id)|
    ensures exists i :: 0 <= i < |db.people| && PersonPairIn(db.favPersons, id, db.people[i].id) &&
                        FavoritePersonItems(db, id)[k] == PeopleJson(db.people[i])
  {
    var fp := FavPersonsOf(db.favPersons, id);
    var targets := PeopleOf(db.people, fp);
    assert fp[k] in db.favPersons;
    var j :| 0 <= j < |db.favPersons| && db.favPersons[j] == fp[k];
    var i := PeopleById(db.people, fp[k].peopleId).value;
    assert targets[k] == db.people[i];
    assert FavoritePersonItems(db, id)[k] == Map(targets, PeopleJson)[k];
    assert PersonPairIn(db.favPersons, id, db.people[i].id);
  }

  /** The characters listed under `favorite_persons` are exactly the characters the user bookmarked. */
  lemma FavoritePersonsExact(db: Db, id: int)
    requires PeopleValid(db.people, db.nextPeopleId) && FavPersonRefs(db)
    ensures var items := FavoritePersonItems(db, id);
      && (forall i :: 0 <= i < |db.people| && PersonPairIn(db.favPersons, id, db.people[i].id) ==>
            PeopleJson(db.people[i]) in items)
      && (forall k :: 0 <= k < |items| ==>
            exists i :: 0 <= i < |db.people| && PersonPairIn(db.favPersons, id, db.people[i].id) &&
                        items[k] == PeopleJson(db.people[i]))
  {
    var items := FavoritePersonItems(db, id);
    forall i | 0 <= i < |db.people| && PersonPairIn(db.favPersons, id, db.people[i].id)
      ensures PeopleJson(db.people[i]) in items
    {
      BookmarkedPersonListed(db, id, i);
    }
    forall k | 0 <= k < |items|
      ensures exists i :: 0 <= i < |db.people| && PersonPairIn(db.favPersons, id, db.people[i].id) &&
                          items[k] == PeopleJson(db.people[i])
    {
      ListedPersonBookmarked(db, id, k);
    }
  }

  /**
   * GET /user/{id}/favorites: 404 exactly when the user has no bookmark of
   * either kind, 500 exactly when only one kind is empty, 200 otherwise.
   */
  lemma GetFavoritesStatus(db: Db, id: int)
    requires FavPlanetRefs(db) && FavPersonRefs(db)
    ensures var r := GetFavorites(db, id);
      && (r == Reply(404, "You don't have favorite items") <==>
            !HasPlanetFavorite(db, id) && !HasPersonFavorite(db, id))
      && (r.status == 500 <==> HasPlanetFavorite(db, id) != HasPersonFavorite(db, id))
      && (r.status == 200 <==> HasPlanetFavorite(db, id) && HasPersonFavorite(db, id))
  {
  }

  /** A 200 from GET /user/{id}/favorites carries the user's two bookmark lists ... */
  lemma GetFavoritesPayload(db: Db, id: int)
    requires FavPlanetRefs(db) && FavPersonRefs(db)
    requires FavPlanetsOf(db.favPlanets, id) != [] && FavPersonsOf(db.favPersons, id) != []
    ensures var r := GetFavorites(db, id);
      && r.status == 200
      && r.payload.Keys == {"user_planet", "user_people", "favorite_planets", "favorite_persons"}
      && r.payload["favorite_planets"] == JArr(FavoritePlanetItems(db, id))
      && r.payload["favorite_persons"] == JArr(FavoritePersonItems(db, id))
  {
  }

  /** ... and echoes the user asked about, without its password, under both user keys. */
  lemma GetFavoritesUser(db: Db, id: int)
    requires FavPlanetRefs(db) && FavPersonRefs(db)
    requires FavPlanetsOf(db.favPlanets, id) != [] && FavPersonsOf(db.favPersons, id) != []
    ensures var r := GetFavorites(db, id);
      && "user_planet" in r.payload && "user_people" in r.payload
      && r.payload["user_planet"] == r.payload["user_people"]
      && r.payload["user_planet"].JObj? && "password" !in r.payload["user_planet"].fields
      && r.payload["user_planet"].fields["id"] == JNum(id)
  {
    var fp := FavPlanetsOf(db.favPlanets, id);
    assert fp[0] in db.favPlanets;
  }

}
