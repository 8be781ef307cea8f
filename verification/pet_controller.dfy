/**
 The pet handlers (backend/controllers/PetController.js): create, update and
 delete with the controller's own checks in front of the schema's, search,
 listing by type and the statistics counts. How strings are read as numbers
 and how values are cast for the schema are parameters.
 */
module PetController {
  import opened Js
  import opened Options
  import opened Seqs
  import opened Http
  import opened PetModel

  /** The fields the handlers read from the body. */
  datatype PetBody = PetBody(
    name: Value,
    petType: Value,
    dateOfBirth: Value,
    lastVaccinationDate: Value,
    weight: Value,
    ownerName: Value)

  /** The runtime behaviour the handlers depend on. */
  datatype PetEnv = PetEnv(np: NumberParsing, casts: SchemaCasts)

  const MissingFields := "Please provide all required fields: name, type, dateOfBirth, weight, ownerName"
  const BadWeight := "Weight must be a positive number"
  const BadType := "Pet type must be one of: dog, cat, cow, other"
  const PetNotFound := "Pet not found"

  /** All five fields the controller calls required are truthy. */
  predicate AllPresent(b: PetBody) {
    Truthy(b.name) && Truthy(b.petType) && Truthy(b.dateOfBirth) && Truthy(b.weight) && Truthy(b.ownerName)
  }

  /** The controller's checks, in their order, shared by create and update:
      required fields, then the weight, then the type; then the values it
      hands to the schema (`trim` and `toLowerCase` throw a TypeError on a
      value that is not a string). */
  function CheckBody(b: PetBody, np: NumberParsing): (r: Reply<PetFields>)
    ensures !r.Created?
    ensures !AllPresent(b) ==> r == Fail(BadRequest, MissingFields)
    ensures AllPresent(b) && NotPositiveNumber(b.weight, np) ==> r == Fail(BadRequest, BadWeight)
    ensures AllPresent(b) && !NotPositiveNumber(b.weight, np) && b.petType.Str? && Lower(b.petType.s) !in PetTypes ==>
              r == Fail(BadRequest, BadType)
    ensures r.Fail? && r.failure != BadRequest ==>
              r == Fail(ServerError, TypeError) && AllPresent(b) && (!b.petType.Str? || !b.name.Str? || !b.ownerName.Str?)
    ensures r.Fail? && r.failure == BadRequest ==>
              !AllPresent(b) || NotPositiveNumber(b.weight, np) || (b.petType.Str? && Lower(b.petType.s) !in PetTypes)
    ensures AllPresent(b) && !NotPositiveNumber(b.weight, np) && !b.petType.Str? ==> r == Fail(ServerError, TypeError)
    ensures AllPresent(b) && !NotPositiveNumber(b.weight, np) && b.petType.Str? && Lower(b.petType.s) in PetTypes ==>
              (r.Ok? <==> b.name.Str? && b.ownerName.Str?)
    ensures r.Ok? ==>
      && AllPresent(b) && !NotPositiveNumber(b.weight, np)
      && b.name.Str? && b.petType.Str? && b.ownerName.Str?
      && r.value.petType in PetTypes && r.value.petType == Lower(b.petType.s)
      && r.value.name == Trim(b.name.s) && r.value.ownerName == Trim(b.ownerName.s)
      && r.value.dateOfBirth == b.dateOfBirth
      && (Truthy(b.lastVaccinationDate) ==> r.value.lastVaccinationDate == b.lastVaccinationDate)
      && (!Truthy(b.lastVaccinationDate) ==> r.value.lastVaccinationDate == Null)
      && r.value.weight == ParseFloat(b.weight, np)
  {
    if !AllPresent(b) then Fail(BadRequest, MissingFields)
    else if NotPositiveNumber(b.weight, np) then Fail(BadRequest, BadWeight)
    else if !b.petType.Str? then Fail(ServerError, TypeError)
    else if Lower(b.petType.s) !in PetTypes then Fail(BadRequest, BadType)
    else if !b.name.Str? || !b.ownerName.Str? then Fail(ServerError, TypeError)
    else Ok(PetFields(Trim(b.name.s), Lower(b.petType.s), b.dateOfBirth, Or(b.lastVaccinationDate, Null),
                      ParseFloat(b.weight, np), Trim(b.ownerName.s)))
  }

  /** Checks, then schema casting; a record the schema rejects is a 500. */
  function Build(b: PetBody, env: PetEnv, id: string, createdAt: int): (r: Reply<Pet>)
    ensures !r.Created?
    ensures CheckBody(b, env.np).Fail? ==> r == Fail(CheckBody(b, env.np).failure, CheckBody(b, env.np).message)
    ensures r.Ok? ==> CheckBody(b, env.np).Ok? && Cast(CheckBody(b, env.np).value, env.casts, id, createdAt) == Some(r.value)
    ensures CheckBody(b, env.np).Ok? && r.Fail? ==> r == Fail(ServerError, ValidationError)
    ensures CheckBody(b, env.np).Ok? && Cast(CheckBody(b, env.np).value, env.casts, id, createdAt).Some? ==>
              r == Ok(Cast(CheckBody(b, env.np).value, env.casts, id, createdAt).value)
  {
    match CheckBody(b, env.np)
    case Ok(f) =>
      (match Cast(f, env.casts, id, createdAt)
       case Some(p) => Ok(p)
       case None => Fail(ServerError, ValidationError))
    case Created(_) => Fail(ServerError, ValidationError)
    case Fail(e, m) => Fail(e, m)
  }

  /** What a stored pet looks like when built from an accepted body: the
      schema's constraints hold, the type is one of the four, name and owner
      are trimmed, the weight is the parsed number as a string, and the
      vaccination date is stored exactly when the body gave a truthy one. */
  lemma BuildNormalises(b: PetBody, env: PetEnv, id: string, createdAt: int)
    requires Build(b, env, id, createdAt).Ok?
    ensures var p := Build(b, env, id, createdAt).value;
      && ValidPet(p)
      && p.id == id && p.createdAt == createdAt
      && p.petType in PetTypes && p.petType == Lower(b.petType.s)
      && p.name == Trim(b.name.s)
      && p.ownerName == Some(Trim(b.ownerName.s))
      && p.weight == Some(env.casts.render(ParseFloat(b.weight, env.np)))
      && Some(p.dateOfBirth) == env.casts.castDate(b.dateOfBirth)
      && (p.lastVaccinationDate.Some? <==> Truthy(b.lastVaccinationDate))
      && (p.lastVaccinationDate.Some? ==> env.casts.castDate(b.lastVaccinationDate) == p.lastVaccinationDate)
  {
    var f := CheckBody(b, env.np).value;
    PetTypesStable(f.petType);
  }

  /** `createPet`: the new pet is stored at the end of the collection. */
  function CreatePet(pets: seq<Pet>, body: PetBody, env: PetEnv, newId: string, now: int): (h: Handled<Pet, seq<Pet>>)
    ensures !h.reply.Success() ==> h.store == pets
    ensures !AllPresent(body) ==> h.reply == Fail(BadRequest, MissingFields)
    ensures AllPresent(body) && NotPositiveNumber(body.weight, env.np) ==> h.reply == Fail(BadRequest, BadWeight)
    ensures h.reply.Success() ==>
      && h.reply.Created?
      && Build(body, env, newId, now).Ok?
      && h.reply == Created(Build(body, env, newId, now).value)
      && h.store == pets + [h.reply.value]
    ensures !h.reply.Success() ==> h.reply == Build(body, env, newId, now)
    ensures Build(body, env, newId, now).Ok? ==>
              h == Handled(Created(Build(body, env, newId, now).value), pets + [Build(body, env, newId, now).value])
  {
    match Build(body, env, newId, now)
    case Ok(p) => Handled(Created(p), pets + [p])
    case r => Handled(r, pets)
  }

  /** A body that passes the controller's three checks with string name,
      type and owner, whose name is not all white space and whose dates cast,
      is stored. */
  lemma ValidBodyIsCreated(pets: seq<Pet>, body: PetBody, env: PetEnv, newId: string, now: int)
    requires AllPresent(body) && !NotPositiveNumber(body.weight, env.np)
    requires body.name.Str? && body.petType.Str? && body.ownerName.Str?
    requires Lower(body.petType.s) in PetTypes && |Trim(body.name.s)| > 0
    requires env.casts.castDate(body.dateOfBirth).Some?
    requires !Truthy(body.lastVaccinationDate) || env.casts.castDate(body.lastVaccinationDate).Some?
    ensures CreatePet(pets, body, env, newId, now).reply.Created?
    ensures CreatePet(pets, body, env, newId, now).store == pets + [CreatePet(pets, body, env, newId, now).reply.value]
  {
    var c := CheckBody(body, env.np);
    assert c.Ok?;
    var f := c.value;
    PetTypesStable(f.petType);
    assert |Trim(Lower(f.petType))| > 0;
    assert f.dateOfBirth == body.dateOfBirth && f.dateOfBirth != Null && f.dateOfBirth != Undefined;
    assert CastOptionalDate(f.lastVaccinationDate, env.casts).Some? by {
      if Truthy(body.lastVaccinationDate) {
        assert f.lastVaccinationDate == body.lastVaccinationDate;
      } else {
        assert f.lastVaccinationDate == Null;
      }
    }
    assert Cast(f, env.casts, newId, now).Some?;
  }

  /** The required check runs first, so a numeric 0 weight counts as missing;
      the string "0" is present and is refused by the weight check. */
  lemma ZeroWeights(pets: seq<Pet>, body: PetBody, env: PetEnv, newId: string, now: int)
    requires Truthy(body.name) && Truthy(body.petType) && Truthy(body.dateOfBirth) && Truthy(body.ownerName)
    requires env.np.parseFloat("0") == Finite(0.0)
    ensures CreatePet(pets, body.(weight := Num(0.0)), env, newId, now).reply == Fail(BadRequest, MissingFields)
    ensures CreatePet(pets, body.(weight := Str("0")), env, newId, now).reply == Fail(BadRequest, BadWeight)
  {
    assert NotPositiveNumber(Str("0"), env.np);
  }

  /** The type check comes after the weight check: a bad weight is reported
      even when the type is also wrong. */
  lemma TypeCheckedAfterWeight(pets: seq<Pet>, body: PetBody, env: PetEnv, newId: string, now: int)
    requires AllPresent(body) && body.petType.Str? && Lower(body.petType.s) !in PetTypes
    ensures NotPositiveNumber(body.weight, env.np) ==> CreatePet(pets, body, env, newId, now).reply == Fail(BadRequest, BadWeight)
    ensures !NotPositiveNumber(body.weight, env.np) ==> CreatePet(pets, body, env, newId, now).reply == Fail(BadRequest, BadType)
  {
  }

  /** `updatePet`: the pet is looked up first, so an unknown id is a 404
      whatever the body; then the same checks and normalisation as create,
      and every one of the six fields is overwritten. */
  function UpdatePet(pets: seq<Pet>, rawId: string, body: PetBody, env: PetEnv): (h: Handled<Pet, seq<Pet>>)
    ensures !h.reply.Success() ==> h.store == pets
    ensures h.reply.Success() ==> h.reply.Ok?
    ensures CastId(rawId).None? ==> h.reply == Fail(ServerError, CastError)
    ensures FindById(pets, PetId, rawId).Absent? ==> h.reply == Fail(NotFound, PetNotFound)
    ensures FindById(pets, PetId, rawId).Found? ==>
      var i := FindById(pets, PetId, rawId).index;
      match Build(body, env, pets[i].id, pets[i].createdAt)
      case Ok(p) => h.reply == Ok(p) && h.store == ReplaceAt(pets, i, p)
      case r => h.reply == r
  {
    match FindById(pets, PetId, rawId)
    case Malformed => Handled(Fail(ServerError, CastError), pets)
    case Absent => Handled(Fail(NotFound, PetNotFound), pets)
    case Found(i, current) =>
      match Build(body, env, current.id, current.createdAt)
      case Ok(p) => Handled(Ok(p), ReplaceAt(pets, i, p))
      case r => Handled(r, pets)
  }

  /** An update stores exactly what create would have stored for the same
      body, under the old id and creation time, and touches no other pet. */
  lemma UpdateLikeCreate(pets: seq<Pet>, rawId: string, body: PetBody, env: PetEnv)
    requires UpdatePet(pets, rawId, body, env).reply.Success()
    ensures var h := UpdatePet(pets, rawId, body, env);
      var i := FindById(pets, PetId, rawId).index;
      && CreatePet([], body, env, pets[i].id, pets[i].createdAt).reply == Created(h.reply.value)
      && h.store[i] == h.reply.value && h.store[i].id == pets[i].id
      && |h.store| == |pets|
      && forall j :: 0 <= j < |pets| && j != i ==> h.store[j] == pets[j]
  {
  }

  /** `deletePet`: the found pet is removed and returned. */
  function DeletePet(pets: seq<Pet>, rawId: string): (h: Handled<Pet, seq<Pet>>)
    ensures !h.reply.Success() ==> h.store == pets
    ensures CastId(rawId).None? ==> h.reply == Fail(ServerError, CastError)
    ensures FindById(pets, PetId, rawId).Absent? ==> h.reply == Fail(NotFound, PetNotFound)
    ensures FindById(pets, PetId, rawId).Found? ==>
      var i := FindById(pets, PetId, rawId).index;
      h.reply == Ok(pets[i]) && h.store == RemoveAt(pets, i)
  {
    match FindById(pets, PetId, rawId)
    case Malformed => Handled(Fail(ServerError, CastError), pets)
    case Absent => Handled(Fail(NotFound, PetNotFound), pets)
    case Found(i, p) => Handled(Ok(p), RemoveAt(pets, i))
  }

  /** The collection as the database keeps it: stored ids, each once, and
      every record within the schema's constraints. */
  ghost predicate ValidPets(pets: seq<Pet>) {
    && UniqueKeys(pets, PetId)
    && (forall i :: 0 <= i < |pets| ==> IsId(pets[i].id) && ValidPet(pets[i]))
  }

  /** Creating under a fresh id keeps the collection valid. */
  lemma CreateKeepsPetsValid(pets: seq<Pet>, body: PetBody, env: PetEnv, newId: string, now: int)
    requires ValidPets(pets)
    requires IsId(newId) && forall i :: 0 <= i < |pets| ==> pets[i].id != newId
    ensures ValidPets(CreatePet(pets, body, env, newId, now).store)
  {
    var c := CreatePet(pets, body, env, newId, now);
    if c.reply.Success() {
      BuildNormalises(body, env, newId, now);
      AppendKeepsPetsValid(pets, c.reply.value);
    }
  }

  lemma AppendKeepsPetsValid(pets: seq<Pet>, p: Pet)
    requires ValidPets(pets) && ValidPet(p) && IsId(p.id)
    requires forall i :: 0 <= i < |pets| ==> pets[i].id != p.id
    ensures ValidPets(pets + [p])
  {
    var s := pets + [p];
    forall i, j | 0 <= i < j < |s|
      ensures PetId(s[i]) != PetId(s[j])
    {
      assert s[i] == pets[i];
      if j < |pets| {
        assert s[j] == pets[j];
      }
    }
    forall i | 0 <= i < |s|
      ensures IsId(s[i].id) && ValidPet(s[i])
    {
      if i < |pets| {
        assert s[i] == pets[i];
      }
    }
  }

  /** An update keeps the collection valid: the id stays, the record is rebuilt by the schema. */
  lemma UpdateKeepsPetsValid(pets: seq<Pet>, rawId: string, body: PetBody, env: PetEnv)
    requires ValidPets(pets)
    ensures ValidPets(UpdatePet(pets, rawId, body, env).store)
  {
    var u := UpdatePet(pets, rawId, body, env);
    if u.reply.Success() {
      var i := FindById(pets, PetId, rawId).index;
      BuildNormalises(body, env, pets[i].id, pets[i].createdAt);
      ReplaceKeepsPetsValid(pets, i, u.reply.value);
    }
  }

  lemma ReplaceKeepsPetsValid(pets: seq<Pet>, i: nat, p: Pet)
    requires ValidPets(pets) && i < |pets| && ValidPet(p) && p.id == pets[i].id
    ensures ValidPets(ReplaceAt(pets, i, p))
  {
    var s := ReplaceAt(pets, i, p);
    assert forall j :: 0 <= j < |pets| ==> PetId(s[j]) == PetId(pets[j]);
  }

  /** A delete keeps the collection valid. */
  lemma DeleteKeepsPetsValid(pets: seq<Pet>, rawId: string)
    requires ValidPets(pets)
    ensures ValidPets(DeletePet(pets, rawId).store)
  {
    var d := DeletePet(pets, rawId);
    if d.reply.Success() {
      RemoveKeepsPetsValid(pets, FindById(pets, PetId, rawId).index);
    }
  }

  lemma RemoveKeepsPetsValid(pets: seq<Pet>, i: nat)
    requires ValidPets(pets) && i < |pets|
    ensures ValidPets(RemoveAt(pets, i))
  {
    var s := RemoveAt(pets, i);
    assert forall j :: 0 <= j < |s| ==> s[j] == pets[if j < i then j else j + 1];
  }

  /** Deleting a pet just created under a fresh id restores the collection. */
  lemma CreateThenDelete(pets: seq<Pet>, body: PetBody, env: PetEnv, newId: string, now: int)
    requires IsId(newId) && forall i :: 0 <= i < |pets| ==> pets[i].id != newId
    requires CreatePet(pets, body, env, newId, now).reply.Success()
    ensures var c := CreatePet(pets, body, env, newId, now);
      DeletePet(c.store, newId) == Handled(Ok(c.reply.value), pets)
  {
    var c := CreatePet(pets, body, env, newId, now);
    var p := c.reply.value;
    BuildNormalises(body, env, newId, now);
    FoundAtEnd(pets, p);
    assert RemoveAt(pets + [p], |pets|) == pets;
  }

  /** A record appended under an id no earlier record has is found at the end. */
  lemma FoundAtEnd(pets: seq<Pet>, p: Pet)
    requires IsId(p.id) && forall i :: 0 <= i < |pets| ==> pets[i].id != p.id
    ensures FindById(pets + [p], PetId, p.id) == Found(|pets|, p)
  {
    CastStoredId(p.id);
    var s := pets + [p];
    assert forall i :: 0 <= i < |pets| ==> s[i] == pets[i];
    assert s[|pets|] == p;
  }

  // ---------------------------------------------------------------------
  // Queries

  /** `$or` of the three case-insensitive matches, the query read literally;
      a pet without an owner name cannot match on it. */
  predicate MatchesPet(p: Pet, q: string) {
    || ContainsIgnoringCase(p.name, q)
    || ContainsIgnoringCase(p.petType, q)
    || (p.ownerName.Some? && ContainsIgnoringCase(p.ownerName.value, q))
  }

  /** `searchPets`: nothing without a query; otherwise the twenty newest matches. */
  function SearchPets(pets: seq<Pet>, query: string): (r: seq<Pet>)
    ensures query == "" ==> r == []
    ensures |r| <= 20
    ensures forall p | p in r :: p in pets && MatchesPet(p, query)
    ensures SortedDesc(r, PetCreatedAt)
    ensures multiset(r) <= multiset(Filter(pets, (p: Pet) => MatchesPet(p, query)))
    ensures query != "" ==>
      |r| == if Count(pets, (p: Pet) => MatchesPet(p, query)) < 20 then Count(pets, (p: Pet) => MatchesPet(p, query)) else 20
    ensures query != "" ==>
      forall p | p in pets && MatchesPet(p, query) && p !in r :: |r| == 20 && forall x | x in r :: x.createdAt >= p.createdAt
  {
    if query == "" then []
    else
      var hits := Filter(pets, (p: Pet) => MatchesPet(p, query));
      NewestFirstLimit(hits, PetCreatedAt, 20);
      NewestFirstShape(hits, PetCreatedAt, 20);
      Take(SortDesc(hits, PetCreatedAt), 20)
  }

  /** Search never lists a stored pet twice: with unique ids in the
      collection, the ids of the result are unique too. */
  lemma SearchPetsDistinct(pets: seq<Pet>, query: string)
    requires UniqueKeys(pets, PetId)
    ensures UniqueKeys(SearchPets(pets, query), PetId)
  {
    var hits := Filter(pets, (p: Pet) => MatchesPet(p, query));
    FilterSubMultiset(pets, (p: Pet) => MatchesPet(p, query));
    UniqueKeysSubMultiset(pets, SearchPets(pets, query), PetId);
  }

  /** `getPetsByType`: the parameter, lower-cased, must be one of the four
      types; then every pet of that type, newest first. */
  function GetPetsByType(pets: seq<Pet>, t: string): (r: Reply<seq<Pet>>)
    ensures Lower(t) !in PetTypes <==> r == Fail(BadRequest, BadType)
    ensures Lower(t) in PetTypes ==> r.Ok?
    ensures r.Success() ==> r.Ok?
    ensures r.Ok? ==>
      && (forall p | p in r.value :: p in pets && p.petType == Lower(t))
      && (forall p | p in pets :: p in r.value <==> p.petType == Lower(t))
      && |r.value| == Count(pets, (p: Pet) => p.petType == Lower(t))
      && multiset(r.value) == multiset(Filter(pets, (p: Pet) => p.petType == Lower(t)))
      && SortedDesc(r.value, PetCreatedAt)
  {
    if Lower(t) !in PetTypes then Fail(BadRequest, BadType)
    else
      var hits := Filter(pets, (p: Pet) => p.petType == Lower(t));
      var sorted := SortDesc(hits, PetCreatedAt);
      assert forall p :: p in sorted <==> p in multiset(sorted);
      assert forall p :: p in hits <==> p in multiset(hits);
      Ok(sorted)
  }

  /** A recent pet as `.select('name type ownerName createdAt')` returns it. */
  datatype PetSummary = PetSummary(id: string, name: string, petType: string, ownerName: Option<string>, createdAt: int)

  function Summary(p: Pet): PetSummary {
    PetSummary(p.id, p.name, p.petType, p.ownerName, p.createdAt)
  }

  function SummaryId(x: PetSummary): string { x.id }

  /** The `$group` by type: each type present, with its number of pets. */
  function TypeCounts(pets: seq<Pet>): (m: map<string, nat>)
    ensures forall t :: t in m <==> exists i :: 0 <= i < |pets| && pets[i].petType == t
    ensures forall t | t in m :: m[t] == Count(pets, (p: Pet) => p.petType == t) && m[t] > 0
  {
    var types := set i | 0 <= i < |pets| :: pets[i].petType;
    var m := map t | t in types :: Count(pets, (p: Pet) => p.petType == t);
    forall t | t in m
      ensures m[t] > 0
    {
      var i :| 0 <= i < |pets| && pets[i].petType == t;
      assert pets[i] in Filter(pets, (p: Pet) => p.petType == t);
    }
    m
  }

  function Summaries(s: seq<Pet>): (r: seq<PetSummary>)
    ensures |r| == |s|
    ensures forall i :: 0 <= i < |s| ==> r[i] == Summary(s[i])
  {
    seq(|s|, i requires 0 <= i < |s| => Summary(s[i]))
  }

  /** `getPetStats` without the average weight. */
  datatype PetStats = PetStats(totalPets: nat, petsByType: map<string, nat>, recentPets: seq<PetSummary>)

  function GetPetStats(pets: seq<Pet>): (r: PetStats)
    ensures r.totalPets == |pets|
    ensures r.petsByType == TypeCounts(pets)
    ensures |r.recentPets| == if |pets| < 5 then |pets| else 5
    ensures forall i, j :: 0 <= i < j < |r.recentPets| ==> r.recentPets[i].createdAt >= r.recentPets[j].createdAt
    ensures forall x | x in r.recentPets :: exists p | p in pets :: Summary(p) == x
    ensures forall p | p in pets && Summary(p) !in r.recentPets ::
              |r.recentPets| == 5 && forall x | x in r.recentPets :: x.createdAt >= p.createdAt
    ensures UniqueKeys(pets, PetId) ==> UniqueKeys(r.recentPets, SummaryId)
  {
    var recent := Take(SortDesc(pets, PetCreatedAt), 5);
    NewestFirstShape(pets, PetCreatedAt, 5);
    var summaries := Summaries(recent);
    SummariesFrom(recent, pets);
    RecentPetsAreNewest(pets, recent);
    RecentPetsDistinct(pets, recent);
    PetStats(|pets|, TypeCounts(pets), summaries)
  }

  /** The five listed pets are the newest: a pet left out is no newer than any listed one. */
  lemma RecentPetsAreNewest(pets: seq<Pet>, recent: seq<Pet>)
    requires recent == Take(SortDesc(pets, PetCreatedAt), 5)
    ensures forall p | p in pets && Summary(p) !in Summaries(recent) ::
              |recent| == 5 && forall x | x in Summaries(recent) :: x.createdAt >= p.createdAt
  {
    var summaries := Summaries(recent);
    NewestFirstTop(pets, PetCreatedAt, 5);
    forall p | p in pets && Summary(p) !in summaries
      ensures |recent| == 5 && forall x | x in summaries :: x.createdAt >= p.createdAt
    {
      forall k | 0 <= k < |recent|
        ensures recent[k] != p
      {
        assert summaries[k] == Summary(recent[k]);
      }
      forall x | x in summaries
        ensures x.createdAt >= p.createdAt
      {
        var k :| 0 <= k < |recent| && summaries[k] == x;
        assert recent[k] in recent;
      }
    }
  }

  /** With unique ids in the collection, no pet is listed twice. */
  lemma RecentPetsDistinct(pets: seq<Pet>, recent: seq<Pet>)
    requires recent == Take(SortDesc(pets, PetCreatedAt), 5)
    ensures UniqueKeys(pets, PetId) ==> UniqueKeys(Summaries(recent), SummaryId)
  {
    if UniqueKeys(pets, PetId) {
      var summaries := Summaries(recent);
      TakeSubMultiset(SortDesc(pets, PetCreatedAt), 5);
      UniqueKeysSubMultiset(pets, recent, PetId);
      assert forall k :: 0 <= k < |recent| ==> SummaryId(summaries[k]) == PetId(recent[k]);
    }
  }

  lemma SummariesFrom(recent: seq<Pet>, pets: seq<Pet>)
    requires forall i :: 0 <= i < |recent| ==> recent[i] in pets
    ensures forall x | x in Summaries(recent) :: exists p | p in pets :: Summary(p) == x
  {
    var summaries := Summaries(recent);
    forall x | x in summaries
      ensures exists p | p in pets :: Summary(p) == x
    {
      var i :| 0 <= i < |recent| && summaries[i] == x;
      assert recent[i] in pets;
    }
  }
}
