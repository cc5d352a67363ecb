/** The values the pet-tracking client keeps in memory: the raw pet and base
    records of the service's list payloads, the Pet and Base entries built from
    them, and the fetches the client issues through its query layer. */
module Entities {

  /** The device value the service sends for a pet that wears no collar. */
  const NO_COLLAR: string := "None"

  /** One entry of a household's pet list, reduced to the fields the client copies. */
  datatype RawPet = RawPet(id: string, name: string, device: string) {
    predicate HasCollar() { device != NO_COLLAR }
  }

  /** One entry of a household's base list. */
  datatype RawBase = RawBase(baseId: string, name: string, online: bool)

  /** One household of the pet-list payload (`house['household']['pets']`). */
  datatype PetHousehold = PetHousehold(pets: seq<RawPet>)

  /** One household of the base-list payload (`house['household']['bases']`). */
  datatype BaseHousehold = BaseHousehold(bases: seq<RawBase>)

  /** A pet of the in-memory collection. */
  datatype Pet = Pet(petId: string, name: string, device: string) {
    predicate HasCollar() { device != NO_COLLAR }
  }

  /** A base station of the in-memory collection. */
  datatype Base = Base(baseId: string, name: string, online: bool)

  /** Builds a pet from its record: the id given to the constructor, then the
      name and device copied from the record's details. */
  function MapPet(raw: RawPet): Pet {
    Pet(raw.id, raw.name, raw.device)
  }

  /** Builds a base from its record. */
  function MapBase(raw: RawBase): Base {
    Base(raw.baseId, raw.name, raw.online)
  }

  /** A fetch issued through the query layer, in the order the client issues them. */
  datatype Query =
    | UserDetails(userId: string)
    | PetList
    | PetLocation(petId: string)
    | PetStats(petId: string)
    | PetRestStats(petId: string)
    | BaseList
}
