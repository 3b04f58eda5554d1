/** The bookmark record and the list operations the application performs on `state.links`:
    `Array.prototype.filter`, `findIndex`/`find` by id, and the delete filter. */
module Links {
  import opened Wrappers

  /** One bookmark. A field the stored JSON leaves out is taken as empty
      (no tags, no notes). */
  datatype Link = Link(
    id: string,
    title: string,
    url: string,
    tags: seq<string>,
    notes: string,
    createdAt: string,
    updatedAt: string)

  /** `a` is `b` with some elements left out, the rest in their order. */
  ghost predicate IsSubsequence<T>(a: seq<T>, b: seq<T>)
    decreases |b|
  {
    a == [] || (b != [] && ((a[0] == b[0] && IsSubsequence(a[1..], b[1..])) || IsSubsequence(a, b[1..])))
  }

  lemma {:induction false} SubsequenceOfItself<T>(s: seq<T>)
    ensures IsSubsequence(s, s)
  {
    if s != [] {
      SubsequenceOfItself(s[1..]);
    }
  }

  /** `Array.prototype.filter`: the elements satisfying `p`, in their order. */
  function Keep<T>(s: seq<T>, p: T -> bool): (r: seq<T>)
    ensures |r| <= |s|
    ensures forall i :: 0 <= i < |r| ==> r[i] in s && p(r[i])
    ensures forall i :: 0 <= i < |s| && p(s[i]) ==> s[i] in r
  {
    if s == [] then [] else (if p(s[0]) then [s[0]] else []) + Keep(s[1..], p)
  }

  lemma {:induction false} KeepIsSubsequence<T>(s: seq<T>, p: T -> bool)
    ensures IsSubsequence(Keep(s, p), s)
  {
    if s != [] {
      KeepIsSubsequence(s[1..], p);
      if p(s[0]) {
        assert ([s[0]] + Keep(s[1..], p))[1..] == Keep(s[1..], p);
      } else {
        assert Keep(s, p) == Keep(s[1..], p);
      }
    }
  }

  /** Filtering a concatenation filters each part. */
  lemma {:induction false} KeepAppend<T>(a: seq<T>, b: seq<T>, p: T -> bool)
    ensures Keep(a + b, p) == Keep(a, p) + Keep(b, p)
  {
    if a == [] {
      assert a + b == b;
    } else {
      assert (a + b)[0] == a[0] && (a + b)[1..] == a[1..] + b;
      KeepAppend(a[1..], b, p);
    }
  }

  /** A list whose elements all pass is kept whole, and only such a list. */
  lemma {:induction false} KeepAll<T>(s: seq<T>, p: T -> bool)
    ensures Keep(s, p) == s <==> forall i :: 0 <= i < |s| ==> p(s[i])
  {
    if s != [] {
      KeepAll(s[1..], p);
      if p(s[0]) {
        assert Keep(s, p) == [s[0]] + Keep(s[1..], p);
        assert s == [s[0]] + s[1..];
        assert (forall i :: 0 <= i < |s| ==> p(s[i])) <==> (forall i :: 0 <= i < |s| - 1 ==> p(s[1..][i]));
      } else {
        assert |Keep(s, p)| <= |s[1..]|;
      }
    }
  }

  /** Filtering twice by the same test is filtering once. */
  lemma KeepIdempotent<T>(s: seq<T>, p: T -> bool)
    ensures Keep(Keep(s, p), p) == Keep(s, p)
  {
    KeepAll(Keep(s, p), p);
  }

  /** Some link in `s` has this id. */
  predicate HasId(s: seq<Link>, id: string) {
    exists k | 0 <= k < |s| :: s[k].id == id
  }

  /** No two links of `s` share an id. */
  ghost predicate UniqueIds(s: seq<Link>) {
    forall i, j :: 0 <= i < j < |s| ==> s[i].id != s[j].id
  }

  /** `findIndex(link => link.id === id)`: the first position holding that id,
      `None` where the source gets -1. */
  function FirstIndex(s: seq<Link>, id: string): (r: Option<nat>)
    ensures r.None? <==> !HasId(s, id)
    ensures r.Some? ==> r.value < |s| && s[r.value].id == id
    ensures r.Some? ==> forall j :: 0 <= j < r.value ==> s[j].id != id
  {
    if s == [] then None
    else if s[0].id == id then Some(0)
    else
      match FirstIndex(s[1..], id)
      case None =>
        assert forall k :: 1 <= k < |s| ==> s[k] == s[1..][k - 1];
        None
      case Some(i) => Some(i + 1)
  }

  /** `find(link => link.id === id)`: the first link with that id, `None` where the
      source gets `undefined`. */
  function Find(s: seq<Link>, id: string): (r: Option<Link>)
    ensures r.Some? <==> HasId(s, id)
    ensures r.Some? ==> r.value in s && r.value.id == id
    ensures r.Some? ==> r.value == s[FirstIndex(s, id).value]
  {
    match FirstIndex(s, id)
    case None => None
    case Some(i) => Some(s[i])
  }

  /** The test the delete handler filters with. */
  function IdOtherThan(id: string): Link -> bool {
    (x: Link) => x.id != id
  }

  /** The delete handler's filter: every link with another id, in order. */
  function Without(s: seq<Link>, id: string): (r: seq<Link>)
    ensures forall x :: x in r <==> x in s && x.id != id
    ensures !HasId(r, id)
    ensures IsSubsequence(r, s)
  {
    KeepIsSubsequence(s, IdOtherThan(id));
    Keep(s, IdOtherThan(id))
  }

  /** Deleting an id that is not in the list changes nothing. */
  lemma WithoutAbsent(s: seq<Link>, id: string)
    requires !HasId(s, id)
    ensures Without(s, id) == s
  {
    KeepAll(s, IdOtherThan(id));
  }

  /** Deleting twice is deleting once. */
  lemma WithoutIdempotent(s: seq<Link>, id: string)
    ensures Without(Without(s, id), id) == Without(s, id)
  {
    WithoutAbsent(Without(s, id), id);
  }

  /** Deleting from a concatenation deletes from each part, so the survivors keep their order. */
  lemma WithoutAppend(a: seq<Link>, b: seq<Link>, id: string)
    ensures Without(a + b, id) == Without(a, id) + Without(b, id)
  {
    KeepAppend(a, b, IdOtherThan(id));
  }

  /** Ids stay unique when links are deleted. */
  lemma {:induction false} WithoutKeepsUnique(s: seq<Link>, id: string)
    requires UniqueIds(s)
    ensures UniqueIds(Without(s, id))
  {
    if s != [] {
      WithoutKeepsUnique(s[1..], id);
      var rest := Without(s[1..], id);
      assert Without(s, id) == (if s[0].id != id then [s[0]] else []) + rest;
      forall x | x in rest
        ensures x.id != s[0].id
      {
        var k :| 0 <= k < |s[1..]| && s[1..][k] == x;
        assert s[k + 1] == x;
      }
    }
  }

  /** Ids stay unique when a link with a fresh id is put in front. */
  lemma AddFreshKeepsUnique(s: seq<Link>, x: Link)
    requires UniqueIds(s) && !HasId(s, x.id)
    ensures UniqueIds([x] + s)
  {
    forall i, j | 0 <= i < j < |[x] + s|
      ensures ([x] + s)[i].id != ([x] + s)[j].id
    {
      if i == 0 {
        assert ([x] + s)[j] == s[j - 1];
      }
    }
  }

  /** Ids stay unique when a link is replaced by one with the same id. */
  lemma ReplaceKeepsUnique(s: seq<Link>, i: nat, x: Link)
    requires UniqueIds(s) && i < |s| && x.id == s[i].id
    ensures UniqueIds(s[i := x])
  {
  }
}
