/** The client object: the identity of a logged-in user and the in-memory pet
    and base collections, with their population, refresh, lookup and patch. */
module Client {

  import opened Wrappers
  import opened Entities
  import opened Population
  import opened Lookup
  import opened Login

  class PyTryFi {
    const username: string
    var userId: string
    var sessionId: string
    var pets: seq<Pet>
    var bases: seq<Base>
    /** The fetches issued through the query layer since construction, in order. */
    ghost var queries: seq<Query>

    /** Population after a successful login: the user's details, then the pet
        list with every collared pet (and its location, stats and rest stats),
        then the base list. */
    constructor (username: string, session: Session, petList: seq<PetHousehold>, baseList: seq<BaseHousehold>)
      ensures this.username == username
      ensures userId == session.userId && sessionId == session.sessionId
      ensures pets == FlattenPets(petList, true)
      ensures bases == FlattenBases(baseList)
      ensures queries == [UserDetails(session.userId), PetList] + PetQueries(pets) + [BaseList]
    {
      this.username := username;
      userId := session.userId;
      sessionId := session.sessionId;
      var collected;
      ghost var petQueries;
      collected, petQueries := CollectPets(petList, true);
      pets := collected;
      var built := CollectBases(baseList);
      bases := built;
      queries := [UserDetails(session.userId), PetList] + petQueries + [BaseList];
    }

    /** Login followed by population; a rejected login yields no client at all. */
    static method Connect(username: string, response: LoginResponse,
                          petList: seq<PetHousehold>, baseList: seq<BaseHousehold>)
      returns (r: Result<PyTryFi, LoginError>)
      ensures r.Failure? <==> ClassifyLogin(response).Failure?
      ensures r.Failure? ==> r.error == ClassifyLogin(response).error
      ensures r.Success? ==>
                fresh(r.value) && r.value.username == username &&
                r.value.userId == ClassifyLogin(response).value.userId &&
                r.value.sessionId == ClassifyLogin(response).value.sessionId &&
                r.value.pets == FlattenPets(petList, true) &&
                r.value.bases == FlattenBases(baseList) &&
                r.value.queries == [UserDetails(r.value.userId), PetList] + PetQueries(r.value.pets) + [BaseList]
    {
      match ClassifyLogin(response) {
        case Failure(e) =>
          r := Failure(e);
        case Success(session) =>
          var client := new PyTryFi(username, session, petList, baseList);
          r := Success(client);
      }
    }

    /** Full-replace pet refresh: one entry per pet record, with no collar filter. */
    method UpdatePets(petList: seq<PetHousehold>)
      modifies this
      ensures pets == FlattenPets(petList, false)
      ensures |pets| == TotalPets(petList)
      ensures bases == old(bases) && userId == old(userId) && sessionId == old(sessionId)
      ensures queries == old(queries) + [PetList] + PetQueries(pets)
    {
      var updated;
      ghost var petQueries;
      updated, petQueries := CollectPets(petList, false);
      pets := updated;
      queries := queries + [PetList] + petQueries;
    }

    /** Full-replace base refresh; the pets are not touched. */
    method UpdateBases(baseList: seq<BaseHousehold>)
      modifies this
      ensures bases == FlattenBases(baseList)
      ensures |bases| == TotalBases(baseList)
      ensures pets == old(pets) && userId == old(userId) && sessionId == old(sessionId)
      ensures queries == old(queries) + [BaseList]
    {
      var updated := CollectBases(baseList);
      bases := updated;
      queries := queries + [BaseList];
    }

    /** Both refreshes, the bases first. */
    method Update(baseList: seq<BaseHousehold>, petList: seq<PetHousehold>)
      modifies this
      ensures bases == FlattenBases(baseList)
      ensures pets == FlattenPets(petList, false)
      ensures userId == old(userId) && sessionId == old(sessionId)
      ensures queries == old(queries) + [BaseList, PetList] + PetQueries(pets)
    {
      UpdateBases(baseList);
      UpdatePets(petList);
    }

    /** Replace-by-id: scan with a counter; at the first pet with the new pet's
        id, pop that index, append the new pet and stop. */
    method UpdatePetObject(petObj: Pet)
      modifies this
      ensures pets == ReplaceById(old(pets), petObj)
      ensures bases == old(bases) && userId == old(userId) && sessionId == old(sessionId)
      ensures queries == old(queries)
    {
      var petId := petObj.petId;
      var count := 0;
      while count < |pets|
        invariant 0 <= count <= |pets|
        invariant pets == old(pets)
        invariant forall j :: 0 <= j < count ==> pets[j].petId != petId
      {
        if pets[count].petId == petId {
          RemoveFirstPetAt(pets, petId, count);
          pets := pets[..count] + pets[count + 1..];
          pets := pets + [petObj];
          break;
        }
        count := count + 1;
      }
    }

    /** The first pet with this id, or None when no pet has it. */
    method GetPet(petId: string) returns (r: Option<Pet>)
      ensures r.None? <==> !HasPetId(pets, petId)
      ensures r.Some? ==> exists i :: IsFirstPet(pets, petId, i) && pets[i] == r.value
    {
      for i := 0 to |pets|
        invariant forall j :: 0 <= j < i ==> pets[j].petId != petId
      {
        if petId == pets[i].petId {
          assert IsFirstPet(pets, petId, i);
          return Some(pets[i]);
        }
      }
      return None;
    }

    /** The first base with this id, or None when no base has it. */
    method GetBase(baseId: string) returns (r: Option<Base>)
      ensures r.None? <==> !HasBaseId(bases, baseId)
      ensures r.Some? ==> exists i :: IsFirstBase(bases, baseId, i) && bases[i] == r.value
    {
      for i := 0 to |bases|
        invariant forall j :: 0 <= j < i ==> bases[j].baseId != baseId
      {
        if baseId == bases[i].baseId {
          assert IsFirstBase(bases, baseId, i);
          return Some(bases[i]);
        }
      }
      return None;
    }
  }
}
