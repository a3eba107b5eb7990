/**
 The id-keyed list operations both controllers use: `List<T>.Find` on the id,
 `List<T>.Remove` of the item found, `Add` at the end, and the uniqueness of
 ids that `Guid.NewGuid` is relied on to give. Generic in the entity type; the
 id is read through a key function.
 */
module Store {
  import opened Common

  /** Every entity has a different id. */
  ghost predicate UniqueKeys<T>(s: seq<T>, key: T -> Guid) {
    forall i, j :: 0 <= i < j < |s| ==> key(s[i]) != key(s[j])
  }

  /** `id` is the id of no entity in `s`. */
  ghost predicate Fresh<T>(s: seq<T>, key: T -> Guid, id: Guid) {
    forall j :: 0 <= j < |s| ==> key(s[j]) != id
  }

  /** `List<T>.Find(x => x.Id == id)`, as the position of the first match. */
  function Find<T>(s: seq<T>, key: T -> Guid, id: Guid): (r: Option<nat>)
    ensures r.None? <==> Fresh(s, key, id)
    ensures r.Some? ==> r.value < |s| && key(s[r.value]) == id
    ensures r.Some? ==> forall j :: 0 <= j < r.value ==> key(s[j]) != id
  {
    if |s| == 0 then None
    else if key(s[0]) == id then Some(0)
    else match Find(s[1..], key, id)
      case None => None
      case Some(i) => Some(i + 1)
  }

  /** With unique ids, the entity Find reports is the one holding the id. */
  lemma FindUnique<T>(s: seq<T>, key: T -> Guid, i: nat)
    requires UniqueKeys(s, key) && i < |s|
    ensures Find(s, key, key(s[i])) == Some(i)
  {
  }

  /** `List<T>.Remove` of the element at position `i`. */
  function RemoveAt<T>(s: seq<T>, i: nat): (r: seq<T>)
    requires i < |s|
    ensures |r| == |s| - 1
    ensures forall j :: 0 <= j < i ==> r[j] == s[j]
    ensures forall j :: i <= j < |r| ==> r[j] == s[j + 1]
    ensures multiset(r) + multiset{s[i]} == multiset(s)
  {
    assert s == s[..i] + [s[i]] + s[i + 1..];
    s[..i] + s[i + 1..]
  }

  /** Appending an entity with a fresh id keeps the ids unique, and Find then reaches it at the end. */
  lemma AppendFresh<T>(s: seq<T>, key: T -> Guid, x: T)
    requires UniqueKeys(s, key) && Fresh(s, key, key(x))
    ensures UniqueKeys(s + [x], key)
    ensures Find(s + [x], key, key(x)) == Some(|s|)
  {
    var t := s + [x];
    forall i, j | 0 <= i < j < |t|
      ensures key(t[i]) != key(t[j])
    {
      if j == |s| {
        assert key(t[i]) == key(s[i]);
      } else {
        assert key(t[i]) == key(s[i]) && key(t[j]) == key(s[j]);
      }
    }
    FindUnique(t, key, |s|);
  }

  /** Replacing an entity by one with the same id keeps the ids unique. */
  lemma ReplaceSameKey<T>(s: seq<T>, key: T -> Guid, i: nat, x: T)
    requires UniqueKeys(s, key) && i < |s| && key(x) == key(s[i])
    ensures UniqueKeys(s[i := x], key)
  {
  }

  /**
   Removing the entity at `i` keeps the ids unique and leaves no entity with
   its id, so a second lookup of that id finds nothing.
   */
  lemma RemoveUnique<T>(s: seq<T>, key: T -> Guid, i: nat)
    requires UniqueKeys(s, key) && i < |s|
    ensures UniqueKeys(RemoveAt(s, i), key)
    ensures Find(RemoveAt(s, i), key, key(s[i])).None?
  {
  }
}
