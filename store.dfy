/** What the route handlers need of a MongoDB collection: records kept in
    insertion order (the natural order of a query without `sort`), each with
    a unique id, found with `findOne`/`findById`, replaced on `save` and
    removed on `findByIdAndDelete`. */
module Store {
  import opened Common

  /** The index of the first record satisfying `p` (`findOne`). */
  function FindFirst<T>(s: seq<T>, p: T -> bool): (r: Option<nat>)
    ensures r.Some? ==> r.value < |s| && p(s[r.value])
    ensures r.Some? ==> forall j :: 0 <= j < r.value ==> !p(s[j])
    ensures r.None? <==> forall j :: 0 <= j < |s| ==> !p(s[j])
  {
    if s == [] then None
    else if p(s[0]) then Some(0)
    else
      match FindFirst(s[1..], p)
      case None => None
      case Some(k) => Some(k + 1)
  }

  predicate UniqueIds<T>(s: seq<T>, idOf: T -> nat) {
    forall i, j :: 0 <= i < |s| && 0 <= j < |s| && i != j ==> idOf(s[i]) != idOf(s[j])
  }

  /** Every id in use is below `next`: the next id handed out is fresh. */
  predicate IdsBelow<T>(s: seq<T>, idOf: T -> nat, next: nat) {
    forall i :: 0 <= i < |s| ==> idOf(s[i]) < next
  }

  /** `findById`: the position of the record with this id. */
  function IndexOfId<T>(s: seq<T>, idOf: T -> nat, id: nat): (r: Option<nat>)
    ensures r.Some? ==> r.value < |s| && idOf(s[r.value]) == id
    ensures r.None? <==> forall j :: 0 <= j < |s| ==> idOf(s[j]) != id
  {
    FindFirst(s, x => idOf(x) == id)
  }

  /** With unique ids, `findById` finds the one record carrying the id. */
  lemma IndexOfIdUnique<T>(s: seq<T>, idOf: T -> nat, i: nat)
    requires UniqueIds(s, idOf) && i < |s|
    ensures IndexOfId(s, idOf, idOf(s[i])) == Some(i)
  {
  }

  /** Removing the record at `i` removes exactly the records carrying its id. */
  lemma RemoveAtExactly<T>(s: seq<T>, idOf: T -> nat, i: nat)
    requires UniqueIds(s, idOf) && i < |s|
    ensures UniqueIds(s[..i] + s[i + 1..], idOf)
    ensures forall x :: x in s[..i] + s[i + 1..] <==> x in s && idOf(x) != idOf(s[i])
  {
    var r := s[..i] + s[i + 1..];
    forall x | x in s && idOf(x) != idOf(s[i]) ensures x in r {
      var k :| 0 <= k < |s| && s[k] == x;
      if k < i { assert r[k] == x; } else { assert k != i && r[k - 1] == x; }
    }
  }

  /** Replacing a record by one with the same id keeps ids unique. */
  lemma ReplaceKeepsIds<T>(s: seq<T>, idOf: T -> nat, i: nat, v: T)
    requires UniqueIds(s, idOf) && i < |s| && idOf(v) == idOf(s[i])
    ensures UniqueIds(s[i := v], idOf)
  {
  }

  /** Appending a record with an id below none in use keeps ids unique. */
  lemma AppendFreshId<T>(s: seq<T>, idOf: T -> nat, next: nat, v: T)
    requires UniqueIds(s, idOf) && IdsBelow(s, idOf, next) && idOf(v) == next
    ensures UniqueIds(s + [v], idOf) && IdsBelow(s + [v], idOf, next + 1)
  {
  }

  /** Every record satisfies the schema predicate `ok`. */
  predicate AllSatisfy<T>(s: seq<T>, ok: T -> bool) {
    forall i :: 0 <= i < |s| ==> ok(s[i])
  }

  /** Appending, replacing and removing keep the schema predicate when the
      new record satisfies it. */
  lemma AllSatisfyKept<T>(s: seq<T>, ok: T -> bool, i: nat, v: T)
    requires AllSatisfy(s, ok) && ok(v)
    ensures AllSatisfy(s + [v], ok)
    ensures i < |s| ==> AllSatisfy(s[i := v], ok) && AllSatisfy(s[..i] + s[i + 1..], ok)
  {
  }
}
