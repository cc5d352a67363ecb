# pytryfi collections core, in Dafny

`PyTryFi` is a client for a pet-tracking web service. This project models
its in-memory entity collections. The client logs in and keeps the user's
identity (`userId`, `sessionId`). It then builds a pet collection and a base
station collection from the service's list payloads. It refreshes those
collections by full replacement, looks entries up by id, and patches a single
pet in place.

The service payloads are plain input values. A pet list is a sequence of
households, each holding a sequence of pet records (`id`, `name`, `device`).
A base list is a sequence of households, each holding base records (`baseId`,
`name`, `online`). The device value `"None"` marks a pet without a collar.

Modules:

- `Wrappers`: `Option` (the "not found" sentinel) and `Result`.
- `Entities`: raw records, households, `Pet`, `Base`, the mapping from record
  to entry, and `Query`, the fetches made through the query layer.
- `Population`: the household-then-record loops (`CollectPets`,
  `CollectHousehold`, `CollectBases`). Each is proved against a recursive
  specification function (`FlattenPets`, `FlattenBases`). The module also
  holds the properties of those functions.
- `Lookup`: first-match predicates, the replace-by-id patch `ReplaceById`,
  and its properties.
- `Login`: the classification of a login response.
- `Client`: the class `PyTryFi`. Its fields are `pets` and `bases`, the
  identity fields, and a ghost `queries` trace that records the query-layer
  fetches in the order they are issued.

`CollectPets` serves both pet loops of the source. The constructor calls it
with the collar filter on. `UpdatePets` calls it with the filter off. This is
the same asymmetry the source has. `RefreshMatchesInitIff` shows that the two
loops agree exactly when every pet record has a collar. The inner loop over
one household's records is the separate method `CollectHousehold`.

Two behaviours of the code are easy to misread:

- `updatePetObject` does not put the new pet where the old one was. It pops
  the first match and appends the new pet at the end.
- A non-success HTTP status already raises in `raise_for_status`, before
  the body is read. So the `not response.ok` half of the later test can no
  longer hold, and a bad status gives `HttpStatusError`, not a login
  rejection.

## Model

| member | source | states |
|---|---|---|
| Population.HouseholdPets | pytryfi/__init__.py:40-57 | one household builds at most as many entries as it has records; exactly as many without the filter; with the filter every entry has a collar |
| Population.FlattenPets | pytryfi/__init__.py:39-57 | the pet collection has at most as many entries as there are records in all households; with no filter, exactly that many; with the filter, every entry has a collar |
| Population.HouseholdBases | pytryfi/__init__.py:62-66 | one base entry per record of the household |
| Population.FlattenBases | pytryfi/__init__.py:61-66 | the base collection has one entry per base record over all households |
| Population.OnlyCollared | pytryfi/__init__.py:42 | reference filter: a pet is in the result if and only if it is in the input and has a collar; never longer than the input |
| Population.CollectPets | pytryfi/__init__.py:37-57 | the nested loop builds exactly FlattenPets of the payload; for each built pet it fetches location, then stats, then rest stats, in collection order |
| Population.CollectHousehold | pytryfi/__init__.py:40-57 | the inner loop appends exactly the household's admitted pets, in order, keeping the per-pet fetch order |
| Population.CollectBases | pytryfi/__init__.py:59-66 | the nested loop builds exactly FlattenBases of the payload |
| Population.FlattenPetsAt | pytryfi/__init__.py:85-102 | without the filter, record k of household h is entry (records in earlier households) + k: one entry per record, in household-then-record order |
| Population.FlattenBasesAt | pytryfi/__init__.py:124-132 | record k of household h is entry (records in earlier households) + k and carries that record's baseId |
| Population.InitialPetsExact | pytryfi/__init__.py:37-57 | the initial population is the unfiltered collection with no-collar pets removed, in order; no entry has device "None"; a record's pet is present if and only if its device is not "None" |
| Population.RefreshMatchesInitIff | pytryfi/__init__.py:39-101 | the refresh (no filter) and the initial population (filter) build the same collection if and only if every pet record has a collar |
| Lookup.RemoveFirstPetAt | pytryfi/__init__.py:107-109 | taking out the first pet with an id equals popping the index of that first match |
| Lookup.ReplaceWithoutMatch | pytryfi/__init__.py:104-113 | when no pet has the new pet's id, the patch leaves the collection unchanged |
| Lookup.ReplaceWithMatch | pytryfi/__init__.py:107-112 | with a first match at i: same length, new pet last, entries before i in place, entries after i (later duplicates included) shifted down by one, and the multiset loses entry i and gains the new pet |
| Lookup.LookupAfterReplace | pytryfi/__init__.py:107-119 | with unique ids and a match, ids stay unique, every entry with the new pet's id is the new pet, and its first match is the last index, so a lookup returns it |
| Login.ClassifyLogin | pytryfi/__init__.py:181-196 | a login succeeds if and only if the status is ok, there is no error key and both identity keys are present; on success the session holds the body's userId and sessionId; a bad status or an error key is a failure |
| Client.PyTryFi.constructor | pytryfi/__init__.py:20-66 | stores the session identity; pets are exactly the collared pets of the payload; bases are all bases; fetches are user details, pet list, per-pet fetches, then base list |
| Client.PyTryFi.Connect | pytryfi/__init__.py:20-35 | a failed login classification yields that error and no client; otherwise a fresh client populated as the constructor states, fetch trace included |
| Client.PyTryFi.UpdatePets | pytryfi/__init__.py:84-102 | pets become one entry per record of the new payload, unfiltered, in order (length = total records); bases and identity unchanged |
| Client.PyTryFi.UpdateBases | pytryfi/__init__.py:124-132 | bases become one entry per record of the new payload; pets and identity unchanged; one base-list fetch is issued |
| Client.PyTryFi.Update | pytryfi/__init__.py:142-144 | both collections replaced; the base-list fetch comes before the pet-list fetch and the per-pet fetches |
| Client.PyTryFi.UpdatePetObject | pytryfi/__init__.py:104-113 | the collection becomes ReplaceById of the old one; nothing else changes |
| Client.PyTryFi.GetPet | pytryfi/__init__.py:116-121 | returns None if and only if no pet has the id; otherwise the first pet with that id |
| Client.PyTryFi.GetBase | pytryfi/__init__.py:135-140 | returns None if and only if no base has the id; otherwise the first base with that id |

## Left out

- The HTTP session, the login POST, cookies and the `session`/`cookies` properties: network I/O. The login response comes in as a value.
- A login body that is not JSON, and an `error` value that is not an object: the model's response record has no such cases.
- Error reporting (`sentry_sdk.init`, `capture_exception`) and every log call, including the error logged on a lookup miss: external services and logging.
- `__str__` and `setHeaders`: presentation and header state, with no behaviour on the collections.
- `FiUser`, `FiPet`, `FiBase` and the `query` module: these files are not part of this model. A Pet keeps only the id, name and device copied from its record, and a Base only its id, name and online flag. The attached location, activity stats and rest stats are left out. Only their fetches are kept, as entries of the ghost `queries` trace.
- Missing keys in a pet or base record (a `KeyError` in the source): records are typed values that always carry their fields.
- The `userID` property, which reads a field that is never set, and the duplicated `session` property: accessor noise.
- Object identity: the source's pets are mutable `FiPet` objects that callers may alias. The model's pets are values, so `updatePetObject` is modelled on the values it moves, not on shared references.
- Client.PyTryFi.constructor: every query-layer fetch is taken to succeed; in the source a failing fetch raises and aborts construction, leaving no object.
- Client.PyTryFi.UpdatePets: the pet-list and per-pet fetches are taken to succeed; in the source a failing fetch raises before the assignment at the end, so the old pets stay in place.
- Client.PyTryFi.UpdateBases: the base-list fetch is taken to succeed; in the source a failure raises before the assignment at the end, so the old bases stay in place.
- Client.PyTryFi.Update: both refreshes are taken to succeed; in the source a failing pet refresh leaves the new bases beside the old pets.
