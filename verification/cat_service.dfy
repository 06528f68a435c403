/** The cat store: an insertion-ordered map from id to cat, where each new cat's
    id is the decimal rendering of the store's size plus one. */
module Cats {
  import opened Wrappers
  import opened Errors
  import opened OrderedMaps
  import opened Decimal
  import Http
  import Interceptor

  datatype Cat = Cat(id: string, name: string)

  /** The service's only state, its `db` map. */
  datatype CatService = CatService(db: OrderedMap<Cat>)

  /** The store after `createCat`, and the id it returned. */
  datatype Created = Created(service: CatService, id: string)

  const CatNotFoundMessage := "Can't find the cat"

  /** The state `createCat` keeps: the keys, in order, are "1", "2", ..., "n",
      and every cat is stored under its own id. */
  ghost predicate Valid(svc: CatService) {
    && Wf(svc.db)
    && (forall i | 0 <= i < |svc.db.keys| :: svc.db.keys[i] == NatToString(i + 1))
    && (forall k | k in svc.db.entries :: svc.db.entries[k].id == k)
  }

  /** A freshly constructed service: an empty map. */
  function NewCatService(): (svc: CatService)
    ensures Valid(svc) && Size(svc.db) == 0
  {
    CatService(Empty())
  }

  /** `createCat(name)`: any name is accepted, the empty string included. */
  function CreateCat(svc: CatService, name: string): (r: Created)
    requires Wf(svc.db)
    ensures r.id == NatToString(Size(svc.db) + 1)
    ensures Get(r.service.db, r.id) == Some(Cat(r.id, name))
    ensures forall k | k != r.id :: Get(r.service.db, k) == Get(svc.db, k)
    ensures Wf(r.service.db)
  {
    var id := NatToString(Size(svc.db) + 1);
    Created(CatService(Set(svc.db, id, Cat(id, name))), id)
  }

  /** `getCats()`: `Array.from(db.values())`, built by walking the key order. */
  method GetCats(svc: CatService) returns (cats: seq<Cat>)
    requires Wf(svc.db)
    ensures |cats| == Size(svc.db)
    ensures forall i | 0 <= i < |cats| :: svc.db.keys[i] in svc.db.entries && cats[i] == svc.db.entries[svc.db.keys[i]]
    ensures cats == Values(svc.db)
  {
    cats := [];
    var i := 0;
    while i < |svc.db.keys|
      invariant 0 <= i <= |svc.db.keys|
      invariant cats == Values(svc.db)[..i]
    {
      cats := cats + [svc.db.entries[svc.db.keys[i]]];
      i := i + 1;
    }
  }

  /** `getCat(id)`: the stored cat, or a thrown `Error("Can't find the cat")`. */
  function GetCat(svc: CatService, id: string): (r: Result<Cat, ErrorValue>)
    ensures r.Success? <==> id in svc.db.entries
    ensures r.Success? ==> r.value == svc.db.entries[id]
    ensures r.Failure? ==> r.error == ErrorObject("Error", CatNotFoundMessage)
  {
    match Get(svc.db, id)
    case Some(cat) => Success(cat)
    case None => Failure(ErrorObject("Error", CatNotFoundMessage))
  }

  /** `createCat` keeps the invariant: the new id is fresh, the store grows by
      exactly one, earlier cats are untouched, and the new cat comes last. */
  lemma CreateCatPreservesValid(svc: CatService, name: string)
    requires Valid(svc)
    ensures var r := CreateCat(svc, name);
            && Valid(r.service)
            && r.id !in svc.db.entries
            && Size(r.service.db) == Size(svc.db) + 1
            && (forall k | k in svc.db.entries :: k in r.service.db.entries && r.service.db.entries[k] == svc.db.entries[k])
            && Values(r.service.db) == Values(svc.db) + [Cat(r.id, name)]
  {
    var n := Size(svc.db);
    var id := NatToString(n + 1);
    if id in svc.db.entries {
      var i :| 0 <= i < n && svc.db.keys[i] == id;
      NatToStringInjective(i + 1, n + 1);
    }
    var r := CreateCat(svc, name);
    SetThenValues(svc.db, id, Cat(id, name));
    assert r.service.db.keys == svc.db.keys + [id];
  }

  /** Under the invariant, a lookup succeeds exactly for the ids "1" .. "n",
      and what it returns carries the id it was looked up by. */
  lemma GetCatSucceedsIff(svc: CatService, id: string)
    requires Valid(svc)
    ensures GetCat(svc, id).Success? <==> exists n: nat | 1 <= n <= Size(svc.db) :: id == NatToString(n)
    ensures GetCat(svc, id).Success? ==> GetCat(svc, id).value.id == id
  {
    if id in svc.db.entries {
      var i :| 0 <= i < |svc.db.keys| && svc.db.keys[i] == id;
      var n: nat := i + 1;
      assert 1 <= n <= Size(svc.db) && id == NatToString(n);
      assert exists n': nat | 1 <= n' <= Size(svc.db) :: id == NatToString(n');
      assert GetCat(svc, id).Success? && GetCat(svc, id).value == svc.db.entries[id];
      assert svc.db.entries[id].id == id;
    } else {
      forall n: nat | 1 <= n <= Size(svc.db)
        ensures id != NatToString(n)
      {
        assert svc.db.keys[n - 1] == NatToString(n);
      }
    }
  }

  /** If the `Error` that `getCat` throws for a missing cat were an Effect's
      failure value, the interceptor's table would answer it with 500 and the
      message, not with 404. */
  lemma MissingCatMapsTo500(svc: CatService, id: string, format: Formatter)
    requires id !in svc.db.entries
    ensures Interceptor.MapEffectError(GetCat(svc, id).error, format)
            == Http.HttpException(500, Http.Text(CatNotFoundMessage))
  {
  }

  /** As the code stands, `getCat` throws that `Error` synchronously from a
      plain handler, so the interceptor passes it on unmapped and runs nothing. */
  lemma MissingCatPassesOnUnmapped(svc: CatService, id: string, format: Formatter)
    requires id !in svc.db.entries
    ensures Interceptor.Intercept<Cat>(Interceptor.Threw(GetCat(svc, id).error), format)
            == Interceptor.Interception(Interceptor.PassOn(ErrorObject("Error", CatNotFoundMessage)), 0)
  {
  }

  /** Creating the named cats one after another. */
  function CreateAll(svc: CatService, names: seq<string>): (r: CatService)
    requires Wf(svc.db)
    ensures Wf(r.db)
    decreases |names|
  {
    if names == [] then svc else CreateAll(CreateCat(svc, names[0]).service, names[1..])
  }

  /** The cats `names` would become, numbered on from `start`. */
  function Numbered(start: nat, names: seq<string>): (cats: seq<Cat>)
    ensures |cats| == |names|
    ensures forall i | 0 <= i < |names| :: cats[i] == Cat(NatToString(start + i + 1), names[i])
    decreases |names|
  {
    if names == [] then [] else [Cat(NatToString(start + 1), names[0])] + Numbered(start + 1, names[1..])
  }

  /** Cats come back from `getCats` in creation order, numbered on from the
      current size. */
  lemma {:induction false} CreateAllAppends(svc: CatService, names: seq<string>)
    requires Valid(svc)
    ensures Valid(CreateAll(svc, names))
    ensures Values(CreateAll(svc, names).db) == Values(svc.db) + Numbered(Size(svc.db), names)
    decreases |names|
  {
    if names != [] {
      var c := CreateCat(svc, names[0]);
      CreateCatPreservesValid(svc, names[0]);
      CreateAllAppends(c.service, names[1..]);
      assert Values(CreateAll(svc, names).db)
          == Values(svc.db) + [Cat(c.id, names[0])] + Numbered(Size(svc.db) + 1, names[1..]);
    }
  }

  /** Starting from an empty store, `getCats` lists cat i + 1 with id "i + 1" and
      the (i + 1)-th name, and the store size is the number of names. */
  lemma FreshStoreListsCatsInOrder(names: seq<string>)
    ensures var svc := CreateAll(NewCatService(), names);
            && Size(svc.db) == |names|
            && forall i | 0 <= i < |names| :: Values(svc.db)[i] == Cat(NatToString(i + 1), names[i])
  {
    CreateAllAppends(NewCatService(), names);
  }

  /** The store of the end-to-end scenario: "Fluffy" and the empty name, then
      "Whiskers" and "Shadow". */
  function ScenarioStore(): CatService {
    CreateAll(NewCatService(), ["Fluffy", "", "Whiskers", "Shadow"])
  }

  /** In that scenario "Fluffy" gets id "1" and the empty name gets "2". */
  lemma ScenarioIds()
    ensures CreateCat(NewCatService(), "Fluffy").id == "1"
    ensures CreateCat(CreateCat(NewCatService(), "Fluffy").service, "").id == "2"
  {
    SmallNatToString();
  }

  /** In that scenario the four cats list in creation order. */
  lemma ScenarioListing()
    ensures Valid(ScenarioStore()) && Size(ScenarioStore().db) == 4
    ensures Values(ScenarioStore().db)
            == [Cat("1", "Fluffy"), Cat("2", ""), Cat("3", "Whiskers"), Cat("4", "Shadow")]
  {
    var names := ["Fluffy", "", "Whiskers", "Shadow"];
    CreateAllAppends(NewCatService(), names);
    ScenarioNumbering(names);
  }

  /** The numbering of the scenario's four names. */
  lemma ScenarioNumbering(names: seq<string>)
    requires names == ["Fluffy", "", "Whiskers", "Shadow"]
    ensures Numbered(0, names) == [Cat("1", "Fluffy"), Cat("2", ""), Cat("3", "Whiskers"), Cat("4", "Shadow")]
  {
  }

  /** The ids the scenario uses. */
  lemma SmallNatToString()
    ensures NatToString(1) == "1" && NatToString(2) == "2"
    ensures NatToString(3) == "3" && NatToString(4) == "4"
  {
  }

  /** In that scenario cat "1" is found, and "999" and "invalid" are not. */
  lemma ScenarioLookups()
    ensures GetCat(ScenarioStore(), "1") == Success(Cat("1", "Fluffy"))
    ensures GetCat(ScenarioStore(), "999").Failure?
    ensures GetCat(ScenarioStore(), "invalid").Failure?
  {
    ScenarioListing();
    LookupsInFourCatStore(ScenarioStore());
  }

  /** Lookups in any valid store holding the scenario's four cats. */
  lemma LookupsInFourCatStore(svc: CatService)
    requires Valid(svc)
    requires Values(svc.db) == [Cat("1", "Fluffy"), Cat("2", ""), Cat("3", "Whiskers"), Cat("4", "Shadow")]
    ensures GetCat(svc, "1") == Success(Cat("1", "Fluffy"))
    ensures GetCat(svc, "999").Failure?
    ensures GetCat(svc, "invalid").Failure?
  {
    SmallNatToString();
    ValuesFollowKeyOrder(svc.db, 0);
    forall n: nat | 1 <= n <= 4
      ensures NatToString(n) != "999" && NatToString(n) != "invalid"
    {
    }
    GetCatSucceedsIff(svc, "999");
    GetCatSucceedsIff(svc, "invalid");
  }
}
