/**
 The Pet schema (backend/models/Pet.js): a trimmed, required name; a
 required type stored lower-cased and trimmed; a required date of birth and
 an optional last vaccination date; weight kept as a String; an optional
 owner name; creation timestamps. Dates are instants in milliseconds, and
 how a request value is cast to a date is a parameter.
 */
module PetModel {
  import opened Js
  import opened Options

  /** `type` is spelled `petType`, `type` being a Dafny keyword. */
  datatype Pet = Pet(
    id: string,
    name: string,
    petType: string,
    dateOfBirth: int,
    lastVaccinationDate: Option<int>,
    weight: Option<string>,
    ownerName: Option<string>,
    createdAt: int)

  function PetId(p: Pet): string { p.id }
  function PetCreatedAt(p: Pet): int { p.createdAt }

  /** The pet types the controller accepts (the schema itself accepts any string). */
  const PetTypes: seq<string> := ["dog", "cat", "cow", "other"]

  /** What the schema enforces of every stored pet: the required strings are
      non-empty, and name and type are as their setters leave them (trimmed;
      the type also without upper-case letters). */
  predicate ValidPet(p: Pet) {
    && |p.name| > 0 && Trimmed(p.name)
    && |p.petType| > 0 && Trimmed(p.petType) && NoUpper(p.petType)
  }

  predicate NoUpper(s: string) {
    forall k :: 0 <= k < |s| ==> !IsUpper(s[k])
  }

  /** A valid pet's name and type are fixed points of their setters, so
      saving a stored pet again changes neither. */
  lemma ValidPetSettersStable(p: Pet)
    requires ValidPet(p)
    ensures Trim(p.name) == p.name
    ensures Lower(p.petType) == p.petType && Trim(Lower(p.petType)) == p.petType
  {
    TrimmedIsFixedPoint(p.name);
    LowerFixed(p.petType);
    TrimmedIsFixedPoint(p.petType);
  }

  /** The values the controller hands to `Pet.create` or assigns before
      `save`: name, type and owner are strings by then, the weight a number. */
  datatype PetFields = PetFields(
    name: string,
    petType: string,
    dateOfBirth: Value,
    lastVaccinationDate: Value,
    weight: Number,
    ownerName: string)

  /** How the runtime casts request values for the schema: a value to a Date
      (None is a cast error) and a number to the String kept in `weight`. */
  datatype SchemaCasts = SchemaCasts(castDate: Value -> Option<int>, render: Number -> string)

  /** The optional vaccination date: `null` or absent stores nothing; any
      other value must cast. None means the cast failed. */
  function CastOptionalDate(v: Value, casts: SchemaCasts): (r: Option<Option<int>>)
    ensures v == Null || v == Undefined ==> r == Some(None)
    ensures v != Null && v != Undefined ==> (r.Some? <==> casts.castDate(v).Some?)
    ensures r.Some? && r.value.Some? ==> casts.castDate(v) == r.value
  {
    if v == Null || v == Undefined then Some(None)
    else match casts.castDate(v)
      case None => None
      case Some(d) => Some(Some(d))
  }

  /** Schema casting and validation of a record about to be stored: the
      setters run, then `required` and the date casts are checked; None is a
      ValidationError. */
  function Cast(f: PetFields, casts: SchemaCasts, id: string, createdAt: int): (r: Option<Pet>)
    ensures r.Some? <==>
      && |Trim(f.name)| > 0
      && |Trim(Lower(f.petType))| > 0
      && f.dateOfBirth != Null && f.dateOfBirth != Undefined && casts.castDate(f.dateOfBirth).Some?
      && CastOptionalDate(f.lastVaccinationDate, casts).Some?
    ensures r.Some? ==>
      && ValidPet(r.value)
      && r.value.id == id && r.value.createdAt == createdAt
      && r.value.name == Trim(f.name)
      && r.value.petType == Trim(Lower(f.petType))
      && Some(r.value.dateOfBirth) == casts.castDate(f.dateOfBirth)
      && r.value.lastVaccinationDate == CastOptionalDate(f.lastVaccinationDate, casts).value
      && r.value.weight == Some(casts.render(f.weight))
      && r.value.ownerName == Some(f.ownerName)
  {
    var name := Trim(f.name);
    var ty := Trim(Lower(f.petType));
    var dob := if f.dateOfBirth == Null || f.dateOfBirth == Undefined then None else casts.castDate(f.dateOfBirth);
    var vacc := CastOptionalDate(f.lastVaccinationDate, casts);
    if |name| == 0 || |ty| == 0 || dob.None? || vacc.None? then None
    else
      TrimmedType(f.petType);
      Some(Pet(id, name, ty, dob.value, vacc.value, Some(casts.render(f.weight)), Some(f.ownerName), createdAt))
  }

  /** The type setters leave a trimmed string without upper-case letters. */
  lemma TrimmedType(s: string)
    ensures Trimmed(Trim(Lower(s))) && NoUpper(Trim(Lower(s)))
  {
    TrimKeepsNoUpper(Lower(s));
  }

  lemma TrimKeepsNoUpper(l: string)
    requires NoUpper(l)
    ensures NoUpper(Trim(l))
  {
    var t := Trim(l);
    TrimChars(l);
    forall k | 0 <= k < |t|
      ensures !IsUpper(t[k])
    {
      var c := t[k];
      assert c in l;
    }
  }

  /** Running the type setters twice is running them once. */
  lemma TrimLowerStable(s: string)
    ensures Trim(Lower(Trim(Lower(s)))) == Trim(Lower(s))
  {
    var t := Trim(Lower(s));
    TrimmedType(s);
    LowerFixed(t);
    TrimmedIsFixedPoint(t);
  }

  /** The accepted types are fixed points of the type setters. */
  lemma PetTypesStable(t: string)
    requires t in PetTypes
    ensures Trim(Lower(t)) == t && Lower(t) == t
  {
    LowerWordStable(t);
  }

  /** A word of lower-case letters passes both setters unchanged. */
  lemma LowerWordStable(t: string)
    requires forall k :: 0 <= k < |t| ==> IsLower(t[k])
    ensures Trim(Lower(t)) == t && Lower(t) == t
  {
    LowerFixed(t);
    if |t| > 0 {
      assert !IsSpace(t[0]) && !IsSpace(t[|t| - 1]);
      assert TrimStart(t) == t;
      assert TrimEnd(t) == t;
    }
  }
}
