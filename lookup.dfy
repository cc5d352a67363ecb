/** Finding an entry by id, and the replace-by-id patch of the pet collection. */
module Lookup {

  import opened Entities

  /** Some pet of the collection has this id. */
  predicate HasPetId(pets: seq<Pet>, petId: string) {
    exists i :: 0 <= i < |pets| && pets[i].petId == petId
  }

  /** Entry i is the first pet with this id. */
  predicate IsFirstPet(pets: seq<Pet>, petId: string, i: int) {
    0 <= i < |pets| && pets[i].petId == petId &&
    forall j :: 0 <= j < i ==> pets[j].petId != petId
  }

  /** Some base of the collection has this id. */
  predicate HasBaseId(bases: seq<Base>, baseId: string) {
    exists i :: 0 <= i < |bases| && bases[i].baseId == baseId
  }

  /** Entry i is the first base with this id. */
  predicate IsFirstBase(bases: seq<Base>, baseId: string, i: int) {
    0 <= i < |bases| && bases[i].baseId == baseId &&
    forall j :: 0 <= j < i ==> bases[j].baseId != baseId
  }

  /** No two pets of the collection share an id. */
  predicate UniquePetIds(pets: seq<Pet>) {
    forall i, j :: 0 <= i < j < |pets| ==> pets[i].petId != pets[j].petId
  }

  /** The collection with its first pet of this id taken out. */
  function RemoveFirstPet(pets: seq<Pet>, petId: string): seq<Pet> {
    if pets == [] then []
    else if pets[0].petId == petId then pets[1..]
    else [pets[0]] + RemoveFirstPet(pets[1..], petId)
  }

  /** The patch: when some pet has the new pet's id, the first such pet is taken
      out and the new pet is put at the end; otherwise nothing changes. */
  function ReplaceById(pets: seq<Pet>, p: Pet): seq<Pet> {
    if HasPetId(pets, p.petId) then RemoveFirstPet(pets, p.petId) + [p] else pets
  }

  /** Taking out the first pet of an id is taking out the entry at its index. */
  lemma {:induction false} RemoveFirstPetAt(pets: seq<Pet>, petId: string, i: int)
    requires IsFirstPet(pets, petId, i)
    ensures RemoveFirstPet(pets, petId) == pets[..i] + pets[i + 1..]
  {
    if i > 0 {
      assert IsFirstPet(pets[1..], petId, i - 1);
      RemoveFirstPetAt(pets[1..], petId, i - 1);
      assert pets[1..][..i - 1] == pets[1..i];
      assert pets[1..][i..] == pets[i + 1..];
      assert [pets[0]] + pets[1..i] == pets[..i];
    }
  }

  /** With no pet of the new pet's id, the patch leaves the collection as it is. */
  lemma ReplaceWithoutMatch(pets: seq<Pet>, p: Pet)
    requires forall i :: 0 <= i < |pets| ==> pets[i].petId != p.petId
    ensures ReplaceById(pets, p) == pets
  {
  }

  /** With a match at first index i, the patch keeps the length, drops entry i,
      puts the new pet last and keeps every other entry, in its order: those
      before i in place, those after i (later duplicates of the id included)
      moved down by one. */
  lemma ReplaceWithMatch(pets: seq<Pet>, p: Pet, i: int)
    requires IsFirstPet(pets, p.petId, i)
    ensures |ReplaceById(pets, p)| == |pets|
    ensures ReplaceById(pets, p)[|pets| - 1] == p
    ensures forall j :: 0 <= j < i ==> ReplaceById(pets, p)[j] == pets[j]
    ensures forall j :: i < j < |pets| ==> ReplaceById(pets, p)[j - 1] == pets[j]
    ensures multiset(ReplaceById(pets, p)) == multiset(pets) - multiset{pets[i]} + multiset{p}
  {
    RemoveFirstPetAt(pets, p.petId, i);
    var r := ReplaceById(pets, p);
    assert r == pets[..i] + pets[i + 1..] + [p];
    assert pets == pets[..i] + [pets[i]] + pets[i + 1..];
    assert multiset(pets) == multiset(pets[..i]) + multiset{pets[i]} + multiset(pets[i + 1..]);
  }

  /** With unique ids and a match, the patch keeps the ids unique and the new
      pet is the only entry with its id, so a lookup of that id finds it. */
  lemma LookupAfterReplace(pets: seq<Pet>, p: Pet)
    requires UniquePetIds(pets) && HasPetId(pets, p.petId)
    ensures UniquePetIds(ReplaceById(pets, p))
    ensures forall i :: 0 <= i < |ReplaceById(pets, p)| && ReplaceById(pets, p)[i].petId == p.petId ==>
              ReplaceById(pets, p)[i] == p
    ensures IsFirstPet(ReplaceById(pets, p), p.petId, |pets| - 1)
  {
    var i :| 0 <= i < |pets| && pets[i].petId == p.petId;
    assert IsFirstPet(pets, p.petId, i);
    ReplaceWithMatch(pets, p, i);
    var r := ReplaceById(pets, p);
    forall a, b | 0 <= a < b < |r| ensures r[a].petId != r[b].petId {
      var sa := if a < i then a else a + 1;
      assert r[a] == pets[sa] && sa != i;
      if b < |r| - 1 {
        var sb := if b < i then b else b + 1;
        assert r[b] == pets[sb] && sa < sb;
      }
    }
  }
}
