/**
 The pet list of the dashboard (frontend/src/components/PetsSection.jsx):
 the search filter, the list updates after the add, update and delete
 calls, the icon for a type and the age shown for a date of birth. The
 current date is a parameter; dates are given as calendar year and month.
 */
module PetsSection {
  import opened Js
  import opened Seqs
  import opened Options
  import opened Http
  import PetModel
  import PetController

  /** A pet as the list holds it. `id` is the field the page reads: set on a
      pet created offline, `undefined` (None) on a pet the server sent, whose
      id is in `_id` (`serverId`) because the Pet schema adds no `id` to its
      JSON. */
  datatype ListedPet = ListedPet(id: Option<string>, serverId: Option<string>, name: string, petType: string, ownerName: string)

  function ListedId(p: ListedPet): Option<string> { p.id }

  /** The search matches a pet when the term, ignoring case, occurs in its
      name, type or owner's name. */
  predicate MatchesSearch(p: ListedPet, term: string) {
    ContainsIgnoringCase(p.name, term) || ContainsIgnoringCase(p.petType, term) || ContainsIgnoringCase(p.ownerName, term)
  }

  /** `filteredPets` */
  function FilteredPets(pets: seq<ListedPet>, term: string): (r: seq<ListedPet>)
    ensures r == Filter(pets, (p: ListedPet) => MatchesSearch(p, term))
    ensures forall p | p in pets :: p in r <==> MatchesSearch(p, term)
    ensures forall p | p in r :: p in pets
  {
    Filter(pets, (p: ListedPet) => MatchesSearch(p, term))
  }

  /** An empty search shows every pet, in order. */
  lemma EmptySearchShowsAll(pets: seq<ListedPet>)
    ensures FilteredPets(pets, "") == pets
  {
    forall k | 0 <= k < |pets|
      ensures MatchesSearch(pets[k], "")
    {
      ContainsBasics(Lower(pets[k].name), "");
    }
    FilterExtremes(pets, (p: ListedPet) => MatchesSearch(p, ""));
  }

  /** `handleAddPet`: the pet the server returned is appended; when the call
      throws the list is as it was. */
  function AddPet(pets: seq<ListedPet>, created: Option<ListedPet>): (r: seq<ListedPet>)
    ensures created.None? ==> r == pets
    ensures created.Some? ==> |r| == |pets| + 1 && r[..|pets|] == pets && r[|pets|] == created.value
  {
    match created
    case Some(p) => pets + [p]
    case None => pets
  }

  /** Every entry `key` relates to the selected one becomes `u`; the others stay. */
  function ReplaceMatching(pets: seq<ListedPet>, key: ListedPet -> Option<string>, selected: Option<string>, u: ListedPet)
    : (r: seq<ListedPet>)
    ensures |r| == |pets|
    ensures forall k :: 0 <= k < |pets| ==> r[k] == if key(pets[k]) == selected then u else pets[k]
  {
    seq(|pets|, k requires 0 <= k < |pets| => if key(pets[k]) == selected then u else pets[k])
  }

  /** `handleUpdatePet` as written: every entry whose `id` equals the selected
      pet's `id` becomes the pet the server returned; the others and the
      length stay. */
  function UpdatePet(pets: seq<ListedPet>, selected: Option<string>, updated: Option<ListedPet>): (r: seq<ListedPet>)
    ensures updated.None? ==> r == pets
    ensures |r| == |pets|
    ensures updated.Some? ==> forall k :: 0 <= k < |pets| ==>
              r[k] == if pets[k].id == selected then updated.value else pets[k]
  {
    match updated
    case Some(u) => ReplaceMatching(pets, ListedId, selected, u)
    case None => pets
  }

  /** `handleDeletePet` as written: the entries whose `id` equals the selected
      pet's `id` go, once the call has succeeded. */
  function DeletePet(pets: seq<ListedPet>, selected: Option<string>, deleted: bool): (r: seq<ListedPet>)
    ensures !deleted ==> r == pets
    ensures deleted ==> forall p | p in pets :: p in r <==> p.id != selected
    ensures forall p | p in r :: p in pets
  {
    if deleted then Filter(pets, (p: ListedPet) => p.id != selected) else pets
  }

  /** Deleting a pet just added (under a fresh id) gives back the list. */
  lemma AddThenDelete(pets: seq<ListedPet>, p: ListedPet)
    requires forall k :: 0 <= k < |pets| ==> pets[k].id != p.id
    ensures DeletePet(AddPet(pets, Some(p)), p.id, true) == pets
  {
    var keep := (q: ListedPet) => q.id != p.id;
    FilterConcat(pets, [p], keep);
    FilterExtremes(pets, keep);
    assert Filter([p], keep) == [] by {
      assert [p][1..] == [];
    }
  }

  /** When the server answers with the selected id, the list still has one
      entry per id. */
  lemma UpdateKeepsIdsUnique(pets: seq<ListedPet>, selected: Option<string>, u: ListedPet)
    requires UniqueKeys(pets, ListedId) && u.id == selected
    ensures UniqueKeys(UpdatePet(pets, selected, Some(u)), ListedId)
  {
    var r := UpdatePet(pets, selected, Some(u));
    assert forall k :: 0 <= k < |pets| ==> ListedId(r[k]) == ListedId(pets[k]);
  }

  /** With one entry per id, a delete removes exactly the selected pet. Only
      a list of pets created offline meets the premise. */
  lemma DeleteRemovesSelected(pets: seq<ListedPet>, i: nat)
    requires i < |pets| && UniqueKeys(pets, ListedId)
    ensures DeletePet(pets, pets[i].id, true) == RemoveAt(pets, i)
  {
    FilterOutKey(pets, ListedId, (p: ListedPet) => p.id != pets[i].id, i);
  }

  /** Offline, on a list restored from storage that an earlier fetch saved,
      no pet has an `id`, so selecting any one of them selects all: the
      offline calls report success, a delete empties the list and an update
      overwrites every entry with the one returned. */
  lemma FetchedListCollapses(pets: seq<ListedPet>, i: nat, u: ListedPet)
    requires i < |pets| && forall k :: 0 <= k < |pets| ==> pets[k].id.None?
    ensures DeletePet(pets, pets[i].id, true) == []
    ensures UpdatePet(pets, pets[i].id, Some(u)) == seq(|pets|, _ => u)
  {
    FilterExtremes(pets, (p: ListedPet) => p.id != pets[i].id);
  }

  /** The path segment of `/pets/${id}`: a missing `id` is spelled "undefined". */
  function UrlId(id: Option<string>): (r: string)
    ensures id.Some? ==> r == id.value
    ensures id.None? ==> r == "undefined"
  {
    if id.Some? then id.value else "undefined"
  }

  /** Online, a fetched pet has no `id`, so its update and delete requests
      name "undefined", which no ObjectId cast accepts: the server answers
      500 to both and changes nothing, and the page keeps its list. A fetched
      pet can therefore never be updated or deleted online. */
  lemma FetchedPetCallsFail(p: ListedPet, pets: seq<PetModel.Pet>, body: PetController.PetBody, env: PetController.PetEnv)
    requires p.id.None?
    ensures PetController.UpdatePet(pets, UrlId(p.id), body, env) == Handled(Fail(ServerError, CastError), pets)
    ensures PetController.DeletePet(pets, UrlId(p.id)) == Handled(Fail(ServerError, CastError), pets)
    ensures UpdatePet([p], p.id, None) == [p] && DeletePet([p], p.id, false) == [p]
  {
    assert |UrlId(p.id)| == 9;
  }

  /** The key the handlers evidently mean: the server's `_id`, or the `id` of
      a pet created offline. */
  function PetKey(p: ListedPet): Option<string> {
    if p.serverId.Some? then p.serverId else p.id
  }

  /** `handleUpdatePet` keyed on `PetKey`. */
  function UpdatePetByKey(pets: seq<ListedPet>, selected: ListedPet, updated: Option<ListedPet>): (r: seq<ListedPet>)
    ensures updated.None? ==> r == pets
    ensures |r| == |pets|
    ensures updated.Some? ==> forall k :: 0 <= k < |pets| ==>
              r[k] == if PetKey(pets[k]) == PetKey(selected) then updated.value else pets[k]
  {
    match updated
    case Some(u) => ReplaceMatching(pets, PetKey, PetKey(selected), u)
    case None => pets
  }

  /** `handleDeletePet` keyed on `PetKey`. */
  function DeletePetByKey(pets: seq<ListedPet>, selected: ListedPet, deleted: bool): (r: seq<ListedPet>)
    ensures !deleted ==> r == pets
    ensures deleted ==> forall p | p in pets :: p in r <==> PetKey(p) != PetKey(selected)
    ensures forall p | p in r :: p in pets
  {
    if deleted then Filter(pets, (p: ListedPet) => PetKey(p) != PetKey(selected)) else pets
  }

  /** Keyed on `PetKey`, a list the server sent (every pet with its own `_id`)
      loses exactly the selected pet on a delete, and an update replaces
      exactly that pet. */
  lemma FetchedListKeyed(pets: seq<ListedPet>, i: nat, u: ListedPet)
    requires i < |pets| && forall k :: 0 <= k < |pets| ==> pets[k].serverId.Some?
    requires UniqueKeys(pets, PetKey)
    ensures DeletePetByKey(pets, pets[i], true) == RemoveAt(pets, i)
    ensures UpdatePetByKey(pets, pets[i], Some(u)) == ReplaceAt(pets, i, u)
  {
    FilterOutKey(pets, PetKey, (p: ListedPet) => PetKey(p) != PetKey(pets[i]), i);
    var r := UpdatePetByKey(pets, pets[i], Some(u));
    forall k | 0 <= k < |pets| && k != i
      ensures r[k] == pets[k]
    {
      assert PetKey(pets[k]) != PetKey(pets[i]) by {
        if k < i { assert PetKey(pets[k]) != PetKey(pets[i]); } else { assert PetKey(pets[i]) != PetKey(pets[k]); }
      }
    }
  }

  /** The picture shown next to a pet. */
  datatype PetIcon = DogIcon | CatIcon | CowIcon | PawIcon

  /** `getPetIcon`: chosen on the lower-cased type. */
  function GetPetIcon(petType: string): (r: PetIcon)
    ensures r == DogIcon <==> Lower(petType) == "dog"
    ensures r == CatIcon <==> Lower(petType) == "cat"
    ensures r == CowIcon <==> Lower(petType) == "cow"
  {
    var t := Lower(petType);
    if t == "dog" then DogIcon else if t == "cat" then CatIcon else if t == "cow" then CowIcon else PawIcon
  }

  /** The icon ignores case, and every other type gets the paw. */
  lemma IconIgnoresCase(petType: string)
    ensures GetPetIcon(Lower(petType)) == GetPetIcon(petType)
    ensures GetPetIcon(petType) == PawIcon <==> Lower(petType) !in ["dog", "cat", "cow"]
  {
    LowerIdempotent(petType);
  }

  // ---------------------------------------------------------------------
  // Age

  /** `getFullYear()` and `getMonth()` (0 to 11) of a date, in local time. */
  datatype YearMonth = YearMonth(year: int, month: int)

  function Plural(n: int): string { if n > 1 then "s" else "" }

  /** `${n} year${n > 1 ? 's' : ''} old` and the month counterpart. */
  function YearsOld(n: nat): string { NatToString(n) + " year" + Plural(n) + " old" }
  function MonthsOld(n: nat): string { NatToString(n) + " month" + Plural(n) + " old" }
  const UnderAMonth := "Less than a month old"

  /** `calculateAge` as written: the difference of the calendar years when it
      is positive, else the difference of the months when that is positive. */
  function CalculateAgeAsWritten(birth: YearMonth, today: YearMonth): (r: string)
    ensures today.year > birth.year ==> r == YearsOld(today.year - birth.year)
    ensures today.year <= birth.year && today.month > birth.month ==> r == MonthsOld(today.month - birth.month)
    ensures today.year <= birth.year && today.month <= birth.month ==> r == UnderAMonth
  {
    var years := today.year - birth.year;
    var months := today.month - birth.month;
    if years > 0 then YearsOld(years)
    else if months > 0 then MonthsOld(months)
    else UnderAMonth
  }

  /** A pet born in December is called a year old in January, one month
      later, where the month count says one month. */
  lemma AgeAsWrittenOverstates()
    ensures CalculateAgeAsWritten(YearMonth(2023, 11), YearMonth(2024, 0)) == YearsOld(1)
    ensures MonthsElapsed(YearMonth(2023, 11), YearMonth(2024, 0)) == 1
    ensures CalculateAge(YearMonth(2023, 11), YearMonth(2024, 0)) == MonthsOld(1)
  {
  }

  /** Whole calendar months from birth to today. */
  function MonthsElapsed(birth: YearMonth, today: YearMonth): int {
    (today.year - birth.year) * 12 + (today.month - birth.month)
  }

  /** The age counted in calendar months: whole years once twelve months have
      passed, else the months, else less than a month. */
  function CalculateAge(birth: YearMonth, today: YearMonth): (r: string)
    ensures MonthsElapsed(birth, today) >= 12 ==>
      exists n: nat :: r == YearsOld(n) && 12 * n <= MonthsElapsed(birth, today) < 12 * (n + 1)
    ensures 0 < MonthsElapsed(birth, today) < 12 ==> r == MonthsOld(MonthsElapsed(birth, today))
    ensures MonthsElapsed(birth, today) <= 0 ==> r == UnderAMonth
  {
    var m := MonthsElapsed(birth, today);
    if m >= 12 then YearsOld(m / 12)
    else if m > 0 then MonthsOld(m)
    else UnderAMonth
  }

  /** The two agree whenever the birth month and the current month coincide. */
  lemma AgeCorrectionAgrees(birth: YearMonth, today: YearMonth)
    requires today.month == birth.month
    ensures CalculateAge(birth, today) == CalculateAgeAsWritten(birth, today)
  {
    var y := today.year - birth.year;
    if y > 0 {
      assert MonthsElapsed(birth, today) / 12 == y;
    }
  }
}
