/** A Mongo collection as the handlers see it: a sequence of documents in
    natural order, searched by one string-valued key (a location's or view's
    `name`, a user's `eid`). `findOne` returns the first match, and
    `findOneAndRemove` / `findOneAndUpdate` act on that first match. */
module Collection {

  datatype Option<+T> = None | Some(value: T)

  /** Some document of `s` has key `k`. */
  ghost predicate Contains<T>(s: seq<T>, key: T -> string, k: string)
  {
    exists i :: 0 <= i < |s| && key(s[i]) == k
  }

  /** The uniqueness constraint of a unique index on `key`. */
  ghost predicate UniqueKeys<T>(s: seq<T>, key: T -> string)
  {
    forall i, j :: 0 <= i < |s| && 0 <= j < |s| && i != j ==> key(s[i]) != key(s[j])
  }

  /** Position of the first document whose key is `k`. */
  function FindIndex<T>(s: seq<T>, key: T -> string, k: string): (r: Option<nat>)
    ensures r.Some? ==> r.value < |s| && key(s[r.value]) == k
    ensures r.Some? ==> forall i :: 0 <= i < r.value ==> key(s[i]) != k
    ensures r.None? <==> !Contains(s, key, k)
  {
    if |s| == 0 then None
    else if key(s[0]) == k then Some(0)
    else
      match FindIndex(s[1..], key, k)
      case None => None
      case Some(j) => assert s[1..][j] == s[j + 1]; Some(j + 1)
  }

  /** `findOne({key: k})`: the first matching document, if any. */
  function FindOne<T>(s: seq<T>, key: T -> string, k: string): (r: Option<T>)
    ensures r.Some? <==> Contains(s, key, k)
    ensures r.Some? ==> r.value in s && key(r.value) == k
    ensures r.Some? ==>
      exists i :: && 0 <= i < |s| && s[i] == r.value
                  && (forall j :: 0 <= j < i ==> key(s[j]) != k)
  {
    match FindIndex(s, key, k)
    case None => None
    case Some(i) => Some(s[i])
  }

  /** Some document other than the one at `i` has key `k`: writing key `k`
      at `i` would violate a unique index. */
  predicate ClashesOutside<T>(s: seq<T>, key: T -> string, i: nat, k: string)
  {
    exists j :: 0 <= j < |s| && j != i && key(s[j]) == k
  }

  /** `findOneAndRemove({key: k})`: the first match taken out, the rest kept
      in order; nothing changes when no document matches. */
  function RemoveFirst<T>(s: seq<T>, key: T -> string, k: string): (r: seq<T>)
    ensures !Contains(s, key, k) ==> r == s
    ensures Contains(s, key, k) ==> |r| == |s| - 1
    ensures forall x :: x in r ==> x in s
    ensures multiset(r) <= multiset(s)
    ensures Contains(s, key, k) ==>
      exists i :: && 0 <= i < |s| && key(s[i]) == k
                  && (forall j :: 0 <= j < i ==> key(s[j]) != k)
                  && r == s[..i] + s[i + 1..]
  {
    match FindIndex(s, key, k)
    case None => s
    case Some(i) =>
      assert s == s[..i] + [s[i]] + s[i + 1..];
      RemoveAt(s, i)
  }

  /** `s` without the document at `i`. */
  function RemoveAt<T>(s: seq<T>, i: nat): seq<T>
    requires i < |s|
  {
    s[..i] + s[i + 1..]
  }

  /** Under a unique index, removing the first match removes every match
      and keeps every other document. */
  lemma RemoveFirstUnique<T>(s: seq<T>, key: T -> string, k: string)
    requires UniqueKeys(s, key)
    ensures UniqueKeys(RemoveFirst(s, key, k), key)
    ensures !Contains(RemoveFirst(s, key, k), key, k)
    ensures forall x :: x in s && key(x) != k ==> x in RemoveFirst(s, key, k)
  {
    match FindIndex(s, key, k)
    case None =>
    case Some(i) =>
      RemoveAtShifts(s, i);
      RemoveAtUnique(s, key, i);
      RemoveAtKeeps(s, key, i);
  }

  /** Removing a document keeps any other unique index unique. */
  lemma RemoveFirstKeepsIndex<T>(s: seq<T>, key: T -> string, k: string, other: T -> string)
    requires UniqueKeys(s, other)
    ensures UniqueKeys(RemoveFirst(s, key, k), other)
  {
    match FindIndex(s, key, k)
    case None =>
    case Some(i) => RemoveAtUnique(s, other, i);
  }

  /** Where each document of `RemoveAt(s, i)` came from. */
  lemma RemoveAtShifts<T>(s: seq<T>, i: nat)
    requires i < |s|
    ensures |RemoveAt(s, i)| == |s| - 1
    ensures forall j :: 0 <= j < |s| - 1 ==> RemoveAt(s, i)[j] == s[if j < i then j else j + 1]
  {
  }

  lemma RemoveAtUnique<T>(s: seq<T>, key: T -> string, i: nat)
    requires i < |s| && UniqueKeys(s, key)
    ensures UniqueKeys(RemoveAt(s, i), key)
    ensures forall j :: 0 <= j < |s| - 1 ==> key(RemoveAt(s, i)[j]) != key(s[i])
  {
    RemoveAtShifts(s, i);
    var r := RemoveAt(s, i);
    forall a, b | 0 <= a < |r| && 0 <= b < |r| && a != b
      ensures key(r[a]) != key(r[b])
    {
      var a', b' := if a < i then a else a + 1, if b < i then b else b + 1;
      assert r[a] == s[a'] && r[b] == s[b'];
    }
    forall j | 0 <= j < |r|
      ensures key(r[j]) != key(s[i])
    {
      assert r[j] == s[if j < i then j else j + 1];
    }
  }

  lemma RemoveAtKeeps<T>(s: seq<T>, key: T -> string, i: nat)
    requires i < |s|
    ensures forall x :: x in s && key(x) != key(s[i]) ==> x in RemoveAt(s, i)
  {
    RemoveAtShifts(s, i);
    var r := RemoveAt(s, i);
    forall x | x in s && key(x) != key(s[i])
      ensures x in r
    {
      var m :| 0 <= m < |s| && s[m] == x;
      assert m != i;
      assert r[if m < i then m else m - 1] == x;
    }
  }

  /** Appending a document whose key is new keeps the index unique. */
  lemma AppendUnique<T>(s: seq<T>, key: T -> string, x: T)
    requires UniqueKeys(s, key) && !Contains(s, key, key(x))
    ensures UniqueKeys(s + [x], key)
  {
  }

  /** Overwriting the document at `i` with one whose key clashes with no
      other document keeps the index unique. */
  lemma ReplaceUnique<T>(s: seq<T>, key: T -> string, i: nat, x: T)
    requires UniqueKeys(s, key) && i < |s| && !ClashesOutside(s, key, i, key(x))
    ensures UniqueKeys(s[i := x], key)
  {
  }
}
