/** The id-keyed list that backs the node, fixture and preset stores
    (`CustomRootModel` in api/models.py). It is generic over the element type; `idOf`
    reads an element's `id` field. */
module Collection {
  import opened Common

  /** A subscript: an integer position or a string id. */
  datatype Key = Index(i: int) | Id(id: string)

  /** The two exceptions a subscript can raise. */
  datatype LookupError = IndexError(index: int) | KeyError(id: string)

  /** The exception a failed subscript with `key` raises. */
  function ErrorFor(key: Key): LookupError {
    match key
    case Index(i) => IndexError(i)
    case Id(k) => KeyError(k)
  }

  /** Some element has id `k`. */
  ghost predicate Present<T>(s: seq<T>, idOf: T -> string, k: string) {
    exists j :: 0 <= j < |s| && idOf(s[j]) == k
  }

  /** The element at position 0 has id `k`. */
  ghost predicate HeadMatches<T>(s: seq<T>, idOf: T -> string, k: string) {
    |s| > 0 && idOf(s[0]) == k
  }

  /** Position `j` holds the first element whose id is `k`. */
  ghost predicate FirstMatchAt<T>(s: seq<T>, idOf: T -> string, k: string, j: int) {
    && 0 <= j < |s|
    && idOf(s[j]) == k
    && forall i :: 0 <= i < j ==> idOf(s[i]) != k
  }

  /** The subscripts that `__getitem__`, `__setitem__` and `__delitem__` accept: an
      integer inside `[0, len)`, or an id whose first match is NOT at position 0
      (the test `if not index` treats position 0 like a missing id). */
  ghost predicate Addressable<T>(s: seq<T>, idOf: T -> string, key: Key) {
    match key
    case Index(i) => 0 <= i < |s|
    case Id(k) => Present(s, idOf, k) && !HeadMatches(s, idOf, k)
  }

  /** `t` is `s` with position `j` replaced by `x` and nothing else changed. */
  ghost predicate ReplacedAt<T>(s: seq<T>, t: seq<T>, j: int, x: T) {
    && 0 <= j < |s|
    && |t| == |s|
    && t[j] == x
    && forall i :: 0 <= i < |s| && i != j ==> t[i] == s[i]
  }

  /** `t` is `s` with position `j` removed and the rest kept in order. */
  ghost predicate RemovedAt<T>(s: seq<T>, t: seq<T>, j: int) {
    && 0 <= j < |s|
    && |t| == |s| - 1
    && (forall i :: 0 <= i < j ==> t[i] == s[i])
    && (forall i :: j <= i < |t| ==> t[i] == s[i + 1])
  }

  /** The position of the first element with id `k`, as the generator expression
      `next((i for (i, p) in enumerate(root) if p.id == key), None)` yields it. */
  function FirstIndex<T>(s: seq<T>, idOf: T -> string, k: string): (r: Option<nat>)
    ensures r.Some? ==> FirstMatchAt(s, idOf, k, r.value)
    ensures r.None? <==> !Present(s, idOf, k)
  {
    if |s| == 0 then None
    else if idOf(s[0]) == k then Some(0)
    else
      match FirstIndex(s[1..], idOf, k)
      case None => None
      case Some(i) => Some(i + 1)
  }

  /** The position a subscript addresses, shared by get, set and delete: the bounds
      check `key < 0 or key >= len` for integers, and the id search followed by
      `if not index: raise KeyError` for strings. */
  function Locate<T>(s: seq<T>, idOf: T -> string, key: Key): (r: Result<nat, LookupError>)
    ensures r.Success? <==> Addressable(s, idOf, key)
    ensures r.Success? && key.Index? ==> r.value == key.i
    ensures r.Success? && key.Id? ==> FirstMatchAt(s, idOf, key.id, r.value)
    ensures r.Failure? ==> r.error == ErrorFor(key)
  {
    match key
    case Index(i) =>
      if i < 0 || i >= |s| then Failure(IndexError(i)) else Success(i)
    case Id(k) =>
      match FirstIndex(s, idOf, k)
      case None => Failure(KeyError(k))
      case Some(j) => if j == 0 then Failure(KeyError(k)) else Success(j)
  }

  /** `collection[key]` (`__getitem__`). */
  function GetItem<T>(s: seq<T>, idOf: T -> string, key: Key): (r: Result<T, LookupError>)
    ensures r.Success? <==> Addressable(s, idOf, key)
    ensures r.Failure? ==> r.error == ErrorFor(key)
    ensures key.Index? && r.Success? ==> r.value == s[key.i]
    ensures key.Id? ==> forall j :: FirstMatchAt(s, idOf, key.id, j) && j > 0 ==> r == Success(s[j])
  {
    match Locate(s, idOf, key)
    case Failure(e) => Failure(e)
    case Success(j) => Success(s[j])
  }

  /** `collection[key] = item` (`__setitem__`); the result is the new list. */
  function SetItem<T>(s: seq<T>, idOf: T -> string, key: Key, item: T): (r: Result<seq<T>, LookupError>)
    ensures r.Success? <==> Addressable(s, idOf, key)
    ensures r.Failure? ==> r.error == ErrorFor(key)
    ensures key.Index? && r.Success? ==> ReplacedAt(s, r.value, key.i, item)
    ensures key.Id? ==> forall j :: FirstMatchAt(s, idOf, key.id, j) && j > 0 ==>
      r.Success? && ReplacedAt(s, r.value, j, item)
  {
    match Locate(s, idOf, key)
    case Failure(e) => Failure(e)
    case Success(j) => Success(s[j := item])
  }

  /** `del collection[key]` (`__delitem__`); the result is the new list. */
  function DelItem<T>(s: seq<T>, idOf: T -> string, key: Key): (r: Result<seq<T>, LookupError>)
    ensures r.Success? <==> Addressable(s, idOf, key)
    ensures r.Failure? ==> r.error == ErrorFor(key)
    ensures key.Index? && r.Success? ==> RemovedAt(s, r.value, key.i)
    ensures key.Id? ==> forall j :: FirstMatchAt(s, idOf, key.id, j) && j > 0 ==>
      r.Success? && RemovedAt(s, r.value, j)
  {
    match Locate(s, idOf, key)
    case Failure(e) => Failure(e)
    case Success(j) => Success(s[..j] + s[j + 1..])
  }

  /** `collection.append(item)`. */
  function Append<T>(s: seq<T>, item: T): (r: seq<T>)
    ensures |r| == |s| + 1
    ensures r[|s|] == item
    ensures forall i :: 0 <= i < |s| ==> r[i] == s[i]
  {
    s + [item]
  }

  /** `collection.get(key, None)`: the first element with that id, position 0 included. */
  function Find<T>(s: seq<T>, idOf: T -> string, k: string): (r: Option<T>)
    ensures r.Some? <==> Present(s, idOf, k)
    ensures forall j :: FirstMatchAt(s, idOf, k, j) ==> r == Some(s[j])
  {
    match FirstIndex(s, idOf, k)
    case None => None
    case Some(j) => Some(s[j])
  }

  /** `collection.get(key, default)`. */
  function Get<T>(s: seq<T>, idOf: T -> string, k: string, default: T): (r: T)
    ensures !Present(s, idOf, k) ==> r == default
    ensures forall j :: FirstMatchAt(s, idOf, k, j) ==> r == s[j]
  {
    Find(s, idOf, k).GetOr(default)
  }

  /** `collection.keys()`: the ids in collection order. */
  function Keys<T>(s: seq<T>, idOf: T -> string): (r: seq<string>)
    ensures |r| == |s|
    ensures forall i :: 0 <= i < |s| ==> r[i] == idOf(s[i])
  {
    if |s| == 0 then [] else [idOf(s[0])] + Keys(s[1..], idOf)
  }

  /** An id is among `keys()` exactly when `get` finds an element for it. */
  lemma KeysMatchFind<T>(s: seq<T>, idOf: T -> string, k: string)
    ensures k in Keys(s, idOf) <==> Find(s, idOf, k).Some?
  {
  }

  /** `collection[key]` and `collection.get(key)` agree whenever the subscript succeeds,
      and they disagree (the subscript raises while `get` finds an element) exactly
      when the first element with that id sits at position 0. */
  lemma GetItemVersusGet<T>(s: seq<T>, idOf: T -> string, k: string, default: T)
    ensures GetItem(s, idOf, Id(k)).Success? ==> GetItem(s, idOf, Id(k)).value == Get(s, idOf, k, default)
    ensures GetItem(s, idOf, Id(k)).Failure? && Find(s, idOf, k).Some? <==> HeadMatches(s, idOf, k)
  {
  }

  /** After `append(item)`, `get` on an id already present still finds the old element,
      and `get(item.id)` finds `item` when that id was new. */
  lemma AppendThenFind<T>(s: seq<T>, idOf: T -> string, item: T, k: string)
    ensures Present(s, idOf, k) ==> Find(Append(s, item), idOf, k) == Find(s, idOf, k)
    ensures !Present(s, idOf, idOf(item)) ==> Find(Append(s, item), idOf, idOf(item)) == Some(item)
  {
  }

  /** Replacing an element by id and reading the same id back returns the new item,
      provided the item keeps the id and the id's first match is not at position 0. */
  lemma SetThenGet<T>(s: seq<T>, idOf: T -> string, item: T)
    requires Addressable(s, idOf, Id(idOf(item)))
    ensures SetItem(s, idOf, Id(idOf(item)), item).Success?
    ensures GetItem(SetItem(s, idOf, Id(idOf(item)), item).value, idOf, Id(idOf(item))) == Success(item)
  {
  }

  /** Position `j2` holds the next element with id `k` after position `j`. */
  ghost predicate NextMatchAt<T>(s: seq<T>, idOf: T -> string, k: string, j: int, j2: int) {
    && 0 <= j < j2 < |s|
    && idOf(s[j2]) == k
    && forall i :: j < i < j2 ==> idOf(s[i]) != k
  }

  /** Deleting an id removes its first occurrence only: every element that disappears
      carries that id, and the next element with the same id becomes what `get` finds. */
  lemma DelThenFind<T>(s: seq<T>, idOf: T -> string, k: string)
    requires Addressable(s, idOf, Id(k))
    ensures DelItem(s, idOf, Id(k)).Success?
    ensures |DelItem(s, idOf, Id(k)).value| == |s| - 1
    ensures forall x :: x in s && x !in DelItem(s, idOf, Id(k)).value ==> idOf(x) == k
    ensures forall j, j2 :: FirstMatchAt(s, idOf, k, j) && NextMatchAt(s, idOf, k, j, j2) ==>
      Find(DelItem(s, idOf, Id(k)).value, idOf, k) == Some(s[j2])
  {
    var j := Locate(s, idOf, Id(k)).value;
    var t := DelItem(s, idOf, Id(k)).value;
    assert RemovedAt(s, t, j);
    forall j1, j2 | FirstMatchAt(s, idOf, k, j1) && NextMatchAt(s, idOf, k, j1, j2)
      ensures Find(t, idOf, k) == Some(s[j2])
    {
      assert j1 == j;
      assert t[j2 - 1] == s[j2];
      assert FirstMatchAt(t, idOf, k, j2 - 1);
    }
  }

  /** Corrected reading of the id lookup, testing `index is None` instead of `not index`. */
  function LocateIntended<T>(s: seq<T>, idOf: T -> string, k: string): (r: Result<nat, LookupError>)
    ensures r.Success? <==> Present(s, idOf, k)
    ensures r.Success? ==> FirstMatchAt(s, idOf, k, r.value)
    ensures r.Failure? ==> r.error == KeyError(k)
  {
    match FirstIndex(s, idOf, k)
    case None => Failure(KeyError(k))
    case Some(j) => Success(j)
  }

  /** With the corrected lookup, subscripting agrees with `get` for every id. */
  lemma LocateIntendedAgreesWithFind<T>(s: seq<T>, idOf: T -> string, k: string)
    ensures LocateIntended(s, idOf, k).Success? <==> Find(s, idOf, k).Some?
    ensures LocateIntended(s, idOf, k).Success? ==>
      Find(s, idOf, k) == Some(s[LocateIntended(s, idOf, k).value])
  {
  }

  /** The lookup as written rejects a one-element collection's only id although `get`
      finds the element. */
  lemma HeadLookupRaises<T>(x: T, idOf: T -> string)
    ensures GetItem([x], idOf, Id(idOf(x))) == Failure(KeyError(idOf(x)))
    ensures Find([x], idOf, idOf(x)) == Some(x)
    ensures LocateIntended([x], idOf, idOf(x)) == Success(0)
  {
  }
}
