/** Building the pet and base collections from the list payloads: the nested
    household-then-record loops of the client's constructor and of its two
    refresh operations, the functions that say what those loops produce, and
    the properties of what they produce. */
module Population {

  import opened Entities

  /** What one pet record contributes: its Pet, unless collaredOnly is set and
      the record's device is the no-collar marker. */
  function Admit(raw: RawPet, collaredOnly: bool): seq<Pet> {
    if !collaredOnly || raw.HasCollar() then [MapPet(raw)] else []
  }

  /** The Pets built from one household's records, in record order. */
  function HouseholdPets(raws: seq<RawPet>, collaredOnly: bool): (r: seq<Pet>)
    ensures |r| <= |raws|
    ensures !collaredOnly ==> |r| == |raws|
    ensures collaredOnly ==> forall i :: 0 <= i < |r| ==> r[i].HasCollar()
  {
    if raws == [] then []
    else Admit(raws[0], collaredOnly) + HouseholdPets(raws[1..], collaredOnly)
  }

  /** The number of pet records over all households. */
  function TotalPets(hs: seq<PetHousehold>): nat {
    if hs == [] then 0 else |hs[0].pets| + TotalPets(hs[1..])
  }

  /** The pet collection a pass over the pet-list payload builds: households in
      order, and within each household its records in order. */
  function FlattenPets(hs: seq<PetHousehold>, collaredOnly: bool): (r: seq<Pet>)
    ensures |r| <= TotalPets(hs)
    ensures !collaredOnly ==> |r| == TotalPets(hs)
    ensures collaredOnly ==> forall i :: 0 <= i < |r| ==> r[i].HasCollar()
  {
    if hs == [] then []
    else HouseholdPets(hs[0].pets, collaredOnly) + FlattenPets(hs[1..], collaredOnly)
  }

  /** The Bases built from one household's records, in record order. */
  function HouseholdBases(raws: seq<RawBase>): (r: seq<Base>)
    ensures |r| == |raws|
  {
    if raws == [] then [] else [MapBase(raws[0])] + HouseholdBases(raws[1..])
  }

  /** The number of base records over all households. */
  function TotalBases(hs: seq<BaseHousehold>): nat {
    if hs == [] then 0 else |hs[0].bases| + TotalBases(hs[1..])
  }

  /** The base collection a pass over the base-list payload builds. */
  function FlattenBases(hs: seq<BaseHousehold>): (r: seq<Base>)
    ensures |r| == TotalBases(hs)
  {
    if hs == [] then [] else HouseholdBases(hs[0].bases) + FlattenBases(hs[1..])
  }

  /** The fetches made for each pet that is built: its location, then its
      activity stats, then its rest stats, pet after pet. */
  function PetQueries(pets: seq<Pet>): seq<Query> {
    if pets == [] then []
    else [PetLocation(pets[0].petId), PetStats(pets[0].petId), PetRestStats(pets[0].petId)]
         + PetQueries(pets[1..])
  }

  /** Reference definition of "the pets that have a collar", kept in order. */
  function OnlyCollared(pets: seq<Pet>): (r: seq<Pet>)
    ensures |r| <= |pets|
    ensures forall p :: p in r <==> p in pets && p.HasCollar()
  {
    if pets == [] then []
    else (if pets[0].HasCollar() then [pets[0]] else []) + OnlyCollared(pets[1..])
  }

  /** Every pet record of every household has a collar. */
  predicate AllCollared(raws: seq<RawPet>) {
    forall k :: 0 <= k < |raws| ==> raws[k].HasCollar()
  }

  // ---------------------------------------------------------------------------
  // The loops
  // ---------------------------------------------------------------------------

  /** The pet loop: for every household, for every pet record, build the Pet
      (skipping no-collar records when collaredOnly is set) and fetch its
      location, stats and rest stats. The constructor runs it with the filter,
      the pet refresh without. */
  method CollectPets(petList: seq<PetHousehold>, collaredOnly: bool)
    returns (pets: seq<Pet>, ghost queries: seq<Query>)
    ensures pets == FlattenPets(petList, collaredOnly)
    ensures queries == PetQueries(pets)
  {
    pets := [];
    queries := [];
    for h := 0 to |petList|
      invariant pets == FlattenPets(petList[..h], collaredOnly)
      invariant queries == PetQueries(pets)
    {
      pets, queries := CollectHousehold(pets, queries, petList[h].pets, collaredOnly);
      FlattenPetsAppend(petList[..h], petList[h], collaredOnly);
      assert petList[..h + 1] == petList[..h] + [petList[h]];
    }
    assert petList[..|petList|] == petList;
  }

  /** The inner loop of CollectPets: the records of one household, appended to
      the pets collected so far. */
  method CollectHousehold(pets0: seq<Pet>, ghost queries0: seq<Query>, raws: seq<RawPet>, collaredOnly: bool)
    returns (pets: seq<Pet>, ghost queries: seq<Query>)
    requires queries0 == PetQueries(pets0)
    ensures pets == pets0 + HouseholdPets(raws, collaredOnly)
    ensures queries == PetQueries(pets)
  {
    pets, queries := pets0, queries0;
    for k := 0 to |raws|
      invariant pets == pets0 + HouseholdPets(raws[..k], collaredOnly)
      invariant queries == PetQueries(pets)
    {
      var raw := raws[k];
      HouseholdPetsAppend(raws[..k], raw, collaredOnly);
      assert raws[..k + 1] == raws[..k] + [raw];
      if !collaredOnly || raw.HasCollar() {
        var p := MapPet(raw);
        PetQueriesAppend(pets, p);
        queries := queries + [PetLocation(p.petId), PetStats(p.petId), PetRestStats(p.petId)];
        pets := pets + [p];
      }
    }
    assert raws[..|raws|] == raws;
  }

  /** The base loop: for every household, for every base record, build the Base. */
  method CollectBases(baseList: seq<BaseHousehold>) returns (bases: seq<Base>)
    ensures bases == FlattenBases(baseList)
  {
    bases := [];
    for h := 0 to |baseList|
      invariant bases == FlattenBases(baseList[..h])
    {
      var raws := baseList[h].bases;
      for k := 0 to |raws|
        invariant bases == FlattenBases(baseList[..h]) + HouseholdBases(raws[..k])
      {
        HouseholdBasesAppend(raws[..k], raws[k]);
        assert raws[..k + 1] == raws[..k] + [raws[k]];
        bases := bases + [MapBase(raws[k])];
      }
      assert raws[..|raws|] == raws;
      FlattenBasesAppend(baseList[..h], baseList[h]);
      assert baseList[..h + 1] == baseList[..h] + [baseList[h]];
    }
    assert baseList[..|baseList|] == baseList;
  }

  // ---------------------------------------------------------------------------
  // Appending one record or household (what each loop iteration relies on)
  // ---------------------------------------------------------------------------

  lemma {:induction false} HouseholdPetsAppend(raws: seq<RawPet>, raw: RawPet, collaredOnly: bool)
    ensures HouseholdPets(raws + [raw], collaredOnly) == HouseholdPets(raws, collaredOnly) + Admit(raw, collaredOnly)
  {
    if raws == [] {
      assert [raw][1..] == [];
    } else {
      assert (raws + [raw])[0] == raws[0];
      assert (raws + [raw])[1..] == raws[1..] + [raw];
      HouseholdPetsAppend(raws[1..], raw, collaredOnly);
    }
  }

  lemma {:induction false} FlattenPetsAppend(hs: seq<PetHousehold>, h: PetHousehold, collaredOnly: bool)
    ensures FlattenPets(hs + [h], collaredOnly) == FlattenPets(hs, collaredOnly) + HouseholdPets(h.pets, collaredOnly)
  {
    if hs == [] {
      assert [h][1..] == [];
    } else {
      assert (hs + [h])[0] == hs[0];
      assert (hs + [h])[1..] == hs[1..] + [h];
      FlattenPetsAppend(hs[1..], h, collaredOnly);
    }
  }

  lemma {:induction false} HouseholdBasesAppend(raws: seq<RawBase>, raw: RawBase)
    ensures HouseholdBases(raws + [raw]) == HouseholdBases(raws) + [MapBase(raw)]
  {
    if raws == [] {
      assert [raw][1..] == [];
    } else {
      assert (raws + [raw])[0] == raws[0];
      assert (raws + [raw])[1..] == raws[1..] + [raw];
      HouseholdBasesAppend(raws[1..], raw);
    }
  }

  lemma {:induction false} FlattenBasesAppend(hs: seq<BaseHousehold>, h: BaseHousehold)
    ensures FlattenBases(hs + [h]) == FlattenBases(hs) + HouseholdBases(h.bases)
  {
    if hs == [] {
      assert [h][1..] == [];
    } else {
      assert (hs + [h])[0] == hs[0];
      assert (hs + [h])[1..] == hs[1..] + [h];
      FlattenBasesAppend(hs[1..], h);
    }
  }

  lemma {:induction false} PetQueriesAppend(pets: seq<Pet>, p: Pet)
    ensures PetQueries(pets + [p]) == PetQueries(pets) + [PetLocation(p.petId), PetStats(p.petId), PetRestStats(p.petId)]
  {
    if pets == [] {
      assert [p][1..] == [];
    } else {
      assert (pets + [p])[0] == pets[0];
      assert (pets + [p])[1..] == pets[1..] + [p];
      PetQueriesAppend(pets[1..], p);
    }
  }

  // ---------------------------------------------------------------------------
  // One entry per record, in household-then-record order
  // ---------------------------------------------------------------------------

  lemma {:induction false} HouseholdPetsAt(raws: seq<RawPet>, k: nat)
    requires k < |raws|
    ensures HouseholdPets(raws, false)[k] == MapPet(raws[k])
  {
    if k > 0 {
      HouseholdPetsAt(raws[1..], k - 1);
    }
  }

  /** Without the filter, record k of household h is entry
      TotalPets(hs[..h]) + k of the collection. */
  lemma {:induction false} FlattenPetsAt(hs: seq<PetHousehold>, h: nat, k: nat)
    requires h < |hs| && k < |hs[h].pets|
    ensures TotalPets(hs[..h]) + k < |FlattenPets(hs, false)|
    ensures FlattenPets(hs, false)[TotalPets(hs[..h]) + k] == MapPet(hs[h].pets[k])
  {
    if h == 0 {
      assert hs[..0] == [];
      HouseholdPetsAt(hs[0].pets, k);
    } else {
      FlattenPetsAt(hs[1..], h - 1, k);
      assert hs[..h][0] == hs[0];
      assert hs[..h][1..] == hs[1..][..h - 1];
    }
  }

  lemma {:induction false} HouseholdBasesAt(raws: seq<RawBase>, k: nat)
    requires k < |raws|
    ensures HouseholdBases(raws)[k] == MapBase(raws[k])
  {
    if k > 0 {
      HouseholdBasesAt(raws[1..], k - 1);
    }
  }

  /** Base record k of household h is entry TotalBases(hs[..h]) + k of the
      collection, and that entry carries the record's baseId. */
  lemma {:induction false} FlattenBasesAt(hs: seq<BaseHousehold>, h: nat, k: nat)
    requires h < |hs| && k < |hs[h].bases|
    ensures TotalBases(hs[..h]) + k < |FlattenBases(hs)|
    ensures FlattenBases(hs)[TotalBases(hs[..h]) + k] == MapBase(hs[h].bases[k])
    ensures FlattenBases(hs)[TotalBases(hs[..h]) + k].baseId == hs[h].bases[k].baseId
  {
    if h == 0 {
      assert hs[..0] == [];
      HouseholdBasesAt(hs[0].bases, k);
    } else {
      FlattenBasesAt(hs[1..], h - 1, k);
      assert hs[..h][0] == hs[0];
      assert hs[..h][1..] == hs[1..][..h - 1];
    }
  }

  // ---------------------------------------------------------------------------
  // The initial population is the refresh result with no-collar pets removed
  // ---------------------------------------------------------------------------

  lemma {:induction false} OnlyCollaredConcat(a: seq<Pet>, b: seq<Pet>)
    ensures OnlyCollared(a + b) == OnlyCollared(a) + OnlyCollared(b)
  {
    if a == [] {
      assert a + b == b;
    } else {
      assert (a + b)[0] == a[0];
      assert (a + b)[1..] == a[1..] + b;
      OnlyCollaredConcat(a[1..], b);
    }
  }

  lemma {:induction false} HouseholdPetsFiltered(raws: seq<RawPet>)
    ensures HouseholdPets(raws, true) == OnlyCollared(HouseholdPets(raws, false))
  {
    if raws != [] {
      HouseholdPetsFiltered(raws[1..]);
      OnlyCollaredConcat([MapPet(raws[0])], HouseholdPets(raws[1..], false));
      assert OnlyCollared([MapPet(raws[0])]) == Admit(raws[0], true) by {
        assert [MapPet(raws[0])][1..] == [];
      }
    }
  }

  lemma {:induction false} FlattenPetsFiltered(hs: seq<PetHousehold>)
    ensures FlattenPets(hs, true) == OnlyCollared(FlattenPets(hs, false))
  {
    if hs != [] {
      HouseholdPetsFiltered(hs[0].pets);
      FlattenPetsFiltered(hs[1..]);
      OnlyCollaredConcat(HouseholdPets(hs[0].pets, false), FlattenPets(hs[1..], false));
    }
  }

  /** The initial population holds exactly the collared pets of the payload, in
      the order of the unfiltered collection: a record's Pet is in it if and
      only if the record has a collar, and every entry has a collar. */
  lemma InitialPetsExact(hs: seq<PetHousehold>)
    ensures FlattenPets(hs, true) == OnlyCollared(FlattenPets(hs, false))
    ensures forall i :: 0 <= i < |FlattenPets(hs, true)| ==> FlattenPets(hs, true)[i].device != NO_COLLAR
    ensures forall h, k :: 0 <= h < |hs| && 0 <= k < |hs[h].pets| ==>
              (MapPet(hs[h].pets[k]) in FlattenPets(hs, true) <==> hs[h].pets[k].device != NO_COLLAR)
  {
    FlattenPetsFiltered(hs);
    forall h, k | 0 <= h < |hs| && 0 <= k < |hs[h].pets|
      ensures MapPet(hs[h].pets[k]) in FlattenPets(hs, true) <==> hs[h].pets[k].device != NO_COLLAR
    {
      FlattenPetsAt(hs, h, k);
    }
  }

  // ---------------------------------------------------------------------------
  // When the refresh and the initial population agree
  // ---------------------------------------------------------------------------

  lemma ConcatSplit(a1: seq<Pet>, b1: seq<Pet>, a2: seq<Pet>, b2: seq<Pet>)
    requires |a1| <= |a2| && |b1| <= |b2|
    ensures a1 + b1 == a2 + b2 <==> a1 == a2 && b1 == b2
  {
    if a1 + b1 == a2 + b2 {
      assert |a1| == |a2|;
      assert a1 == (a1 + b1)[..|a1|];
      assert a2 == (a2 + b2)[..|a2|];
      assert b1 == (a1 + b1)[|a1|..];
      assert b2 == (a2 + b2)[|a2|..];
    }
  }

  lemma {:induction false} HouseholdAgreesIff(raws: seq<RawPet>)
    ensures HouseholdPets(raws, true) == HouseholdPets(raws, false) <==> AllCollared(raws)
  {
    if raws != [] {
      HouseholdAgreesIff(raws[1..]);
      assert AllCollared(raws) <==> raws[0].HasCollar() && AllCollared(raws[1..]) by {
        if raws[0].HasCollar() && AllCollared(raws[1..]) {
          forall k | 0 <= k < |raws| ensures raws[k].HasCollar() {
            if k > 0 { assert raws[k] == raws[1..][k - 1]; }
          }
        }
      }
      if raws[0].HasCollar() {
        ConcatSplit([MapPet(raws[0])], HouseholdPets(raws[1..], true),
                    [MapPet(raws[0])], HouseholdPets(raws[1..], false));
      } else {
        assert |HouseholdPets(raws, true)| < |HouseholdPets(raws, false)|;
      }
    }
  }

  /** The refresh path (no collar filter) builds the same collection as the
      initial population exactly when every pet record has a collar. */
  lemma {:induction false} RefreshMatchesInitIff(hs: seq<PetHousehold>)
    ensures FlattenPets(hs, true) == FlattenPets(hs, false) <==>
            forall h :: 0 <= h < |hs| ==> AllCollared(hs[h].pets)
  {
    if hs != [] {
      RefreshMatchesInitIff(hs[1..]);
      HouseholdAgreesIff(hs[0].pets);
      ConcatSplit(HouseholdPets(hs[0].pets, true), FlattenPets(hs[1..], true),
                  HouseholdPets(hs[0].pets, false), FlattenPets(hs[1..], false));
      assert (forall h :: 0 <= h < |hs| ==> AllCollared(hs[h].pets)) <==>
             AllCollared(hs[0].pets) && forall h :: 0 <= h < |hs[1..]| ==> AllCollared(hs[1..][h].pets) by {
        if AllCollared(hs[0].pets) && forall h :: 0 <= h < |hs[1..]| ==> AllCollared(hs[1..][h].pets) {
          forall h | 0 <= h < |hs| ensures AllCollared(hs[h].pets) {
            if h > 0 { assert hs[h] == hs[1..][h - 1]; }
          }
        }
      }
    }
  }
}
