/**
 The JSON envelope every controller answers with, the status codes it uses,
 and Mongo ObjectId handling: the cast a route parameter goes through and a
 lookup by id over a collection.
 */
module Http {
  import opened Options
  import opened Js
  import opened Seqs

  /** The failure statuses the controllers send. */
  datatype Failure = BadRequest | Unauthorized | Forbidden | NotFound | ServerError {
    function Code(): int {
      match this
      case BadRequest => 400
      case Unauthorized => 401
      case Forbidden => 403
      case NotFound => 404
      case ServerError => 500
    }
  }

  /** `res.json({ success: true, ... })` (200), `res.status(201).json(...)`,
      or `res.status(code).json({ success: false, message })`. */
  datatype Reply<+T> = Ok(value: T) | Created(value: T) | Fail(failure: Failure, message: string) {

    predicate Success() { !Fail? }

    function Code(): int {
      match this
      case Ok(_) => 200
      case Created(_) => 201
      case Fail(f, _) => f.Code()
    }
  }

  /** A controller's answer together with the collection as it stands afterwards. */
  datatype Handled<+T, +S> = Handled(reply: Reply<T>, store: S)

  /** `error.message` of the exceptions the catch blocks turn into replies;
      the driver's exact wording is not part of this model. */
  const CastError := "CastError"
  const ValidationError := "ValidationError"
  const TypeError := "TypeError"

  // ---------------------------------------------------------------------
  // ObjectIds

  predicate IsHexDigit(c: char) {
    IsDigit(c) || 'a' <= c <= 'f' || 'A' <= c <= 'F'
  }

  /** An ObjectId as the database stores and prints it: 24 lower-case hex digits. */
  predicate IsId(s: string) {
    |s| == 24 && forall i :: 0 <= i < |s| ==> IsDigit(s[i]) || 'a' <= s[i] <= 'f'
  }

  /** Casting a route parameter to an ObjectId: any 24 hex digits, in either
      case, denote the id spelled in lower case; anything else is a CastError. */
  function CastId(raw: string): (r: Option<string>)
    ensures r.Some? <==> |raw| == 24 && forall i :: 0 <= i < |raw| ==> IsHexDigit(raw[i])
    ensures r.Some? ==> IsId(r.value) && |r.value| == |raw|
    ensures r.Some? ==> forall i :: 0 <= i < |raw| ==> r.value[i] == LowerChar(raw[i])
  {
    if |raw| == 24 && forall i :: 0 <= i < |raw| ==> IsHexDigit(raw[i]) then Some(Lower(raw)) else None
  }

  /** An id in its stored spelling casts to itself. */
  lemma CastStoredId(id: string)
    requires IsId(id)
    ensures CastId(id) == Some(id)
  {
    assert Lower(id) == id;
  }

  /** `Model.findById(raw)`: a malformed id throws, a well-formed one finds
      the record carrying it or nothing. */
  datatype Lookup<+T> = Found(index: nat, value: T) | Absent | Malformed

  function FindById<T>(s: seq<T>, key: T -> string, raw: string): (r: Lookup<T>)
    ensures r.Malformed? <==> CastId(raw).None?
    ensures r.Found? ==> r.index < |s| && s[r.index] == r.value && key(r.value) == CastId(raw).value
    ensures r.Absent? ==> CastId(raw).Some? && forall i :: 0 <= i < |s| ==> key(s[i]) != CastId(raw).value
  {
    match CastId(raw)
    case None => Malformed
    case Some(id) => FindKey(s, key, id)
  }

  /** `Model.findById(v)` for a JSON value: a string is cast as an id,
      `undefined` or `null` finds nothing, and a number or boolean is a
      CastError (the numeric ObjectId constructor is not part of this model). */
  function FindByValue<T>(s: seq<T>, key: T -> string, v: Value): (r: Lookup<T>)
    ensures v.Str? ==> r == FindById(s, key, v.s)
    ensures v == Undefined || v == Null ==> r == Absent
    ensures v.Num? || v.Bool? ==> r == Malformed
  {
    match v
    case Str(raw) => FindById(s, key, raw)
    case Undefined => Absent
    case Null => Absent
    case _ => Malformed
  }

  /** The first record whose key is `id`. */
  function FindKey<T>(s: seq<T>, key: T -> string, id: string): (r: Lookup<T>)
    ensures !r.Malformed?
    ensures r.Found? ==> r.index < |s| && s[r.index] == r.value && key(r.value) == id
    ensures r.Absent? ==> forall i :: 0 <= i < |s| ==> key(s[i]) != id
  {
    if |s| == 0 then Absent
    else if key(s[0]) == id then Found(0, s[0])
    else match FindKey(s[1..], key, id)
      case Found(i, v) => Found(i + 1, v)
      case _ => Absent
  }

  /** No two records of a collection share an id. */
  ghost predicate UniqueKeys<T, K>(s: seq<T>, key: T -> K) {
    forall i, j :: 0 <= i < j < |s| ==> key(s[i]) != key(s[j])
  }

  /** Any selection of records, each taken at most as often as it is stored
      (a filter, a sort, a limit), keeps the ids unique. */
  lemma UniqueKeysSubMultiset<T, K>(s: seq<T>, t: seq<T>, key: T -> K)
    requires UniqueKeys(s, key) && multiset(t) <= multiset(s)
    ensures UniqueKeys(t, key)
  {
    forall i, j | 0 <= i < j < |t|
      ensures key(t[i]) != key(t[j])
    {
      if key(t[i]) == key(t[j]) {
        assert t[i] in multiset(t) && t[j] in multiset(t);
        var a :| 0 <= a < |s| && s[a] == t[i];
        var b :| 0 <= b < |s| && s[b] == t[j];
        assert a == b;
        TwiceInMultiset(t, i, j);
        UniqueAtMostOnce(s, key, t[i]);
        assert false;
      }
    }
  }

  /** An element at two positions is counted at least twice. */
  lemma TwiceInMultiset<T>(t: seq<T>, i: nat, j: nat)
    requires i < j < |t| && t[i] == t[j]
    ensures multiset(t)[t[i]] >= 2
  {
    assert t == t[..j] + [t[j]] + t[j + 1..];
    assert t[..j][i] == t[i];
  }

  /** With unique ids no record is stored twice. */
  lemma {:induction false} UniqueAtMostOnce<T, K>(s: seq<T>, key: T -> K, x: T)
    requires UniqueKeys(s, key)
    ensures multiset(s)[x] <= 1
  {
    if |s| > 0 {
      assert s == [s[0]] + s[1..];
      assert UniqueKeys(s[1..], key) by {
        forall i, j | 0 <= i < j < |s[1..]|
          ensures key(s[1..][i]) != key(s[1..][j])
        {
          assert s[1..][i] == s[i + 1] && s[1..][j] == s[j + 1];
        }
      }
      UniqueAtMostOnce(s[1..], key, x);
      if s[0] == x {
        forall k | 0 <= k < |s[1..]|
          ensures s[1..][k] != x
        {
          assert s[1..][k] == s[k + 1];
        }
        assert x !in s[1..];
      }
    }
  }

  /** With unique ids, looking up a record's own id finds that record. */
  lemma FindKeyUnique<T>(s: seq<T>, key: T -> string, i: nat)
    requires i < |s| && UniqueKeys(s, key)
    ensures FindKey(s, key, key(s[i])) == Found(i, s[i])
  {
  }

  /** `s` with the record at `i` replaced. */
  function ReplaceAt<T>(s: seq<T>, i: nat, x: T): (r: seq<T>)
    requires i < |s|
    ensures |r| == |s| && r[i] == x
    ensures forall j :: 0 <= j < |s| && j != i ==> r[j] == s[j]
  {
    s[..i] + [x] + s[i + 1..]
  }

  /** `s` without the record at `i`, the others in their order. */
  function RemoveAt<T>(s: seq<T>, i: nat): (r: seq<T>)
    requires i < |s|
    ensures |r| == |s| - 1
    ensures forall j :: 0 <= j < i ==> r[j] == s[j]
    ensures forall j :: i <= j < |r| ==> r[j] == s[j + 1]
  {
    s[..i] + s[i + 1..]
  }

  /** In a collection with unique ids, filtering out one record's id removes
      exactly that record and keeps the others in order. */
  lemma FilterOutKey<T, K>(s: seq<T>, key: T -> K, p: T -> bool, i: nat)
    requires i < |s| && UniqueKeys(s, key)
    requires forall j :: 0 <= j < |s| ==> (p(s[j]) <==> key(s[j]) != key(s[i]))
    ensures Filter(s, p) == RemoveAt(s, i)
  {
    forall j | 0 <= j < |s| && j != i
      ensures p(s[j])
    {
      assert key(s[j]) != key(s[i]);
    }
    SplitAt(s, i);
    FilterDropsOne(s[..i], s[i], s[i + 1..], p);
  }

  lemma SplitAt<T>(s: seq<T>, i: nat)
    requires i < |s|
    ensures s == s[..i] + [s[i]] + s[i + 1..]
  {
  }

  /** Filtering out the one failing element between two passing runs. */
  lemma FilterDropsOne<T>(a: seq<T>, x: T, b: seq<T>, p: T -> bool)
    requires forall j :: 0 <= j < |a| ==> p(a[j])
    requires forall j :: 0 <= j < |b| ==> p(b[j])
    requires !p(x)
    ensures Filter(a + [x] + b, p) == a + b
  {
    assert a + [x] + b == a + ([x] + b);
    FilterConcat(a, [x] + b, p);
    FilterExtremes(a, p);
    FilterSkipsHead(x, b, p);
    FilterExtremes(b, p);
  }

  lemma FilterSkipsHead<T>(x: T, s: seq<T>, p: T -> bool)
    requires !p(x)
    ensures Filter([x] + s, p) == Filter(s, p)
  {
    assert ([x] + s)[1..] == s;
  }
}
