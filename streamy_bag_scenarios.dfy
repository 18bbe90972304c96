/** Clients of the bag that follow its unit tests: each method builds a bag, drives it through
    the public operations and states what the caller observes. */
module StreamyBagScenarios {
  import opened JavaLang
  import opened Streams
  import opened StreamyCollection

  /** A for-each loop over the bag: `iterator()`, then `hasNext()`/`next()` until exhausted.
      It delivers exactly what was upcoming, counts each element once and closes the source;
      the iterator it used is returned with its cursor exhausted. */
  method Drain<T(==)>(bag: StreamyBag<T>) returns (out: seq<Nullable<T>>, it: Iter<T>)
    requires bag.Valid() && bag.stream.NonNull?
    modifies bag, bag.child
    ensures bag.Valid() && bag.stream == Null
    ensures it.bag == bag && it.child == bag.child && bag.child.rest == []
    ensures bag.child == old(bag.child) || fresh(bag.child)
    ensures out == old(bag.Upcoming())
    ensures bag.count == old(bag.count) + |out|
    ensures bag.knownNotEmpty == (old(bag.knownNotEmpty) || out != [])
  {
    var r := bag.Iterator();
    it := r.value;
    out := [];
    while true
      invariant bag.Valid() && bag.stream.NonNull?
      invariant it.child == old(bag.child) || fresh(it.child)
      invariant bag.child == it.child
      invariant out + it.child.rest == old(bag.Upcoming())
      invariant bag.count == old(bag.count) + |out|
      invariant bag.knownNotEmpty == (old(bag.knownNotEmpty) || out != [])
      decreases |it.child.rest|
    {
      var h := it.HasNext();
      if h != Success(true) {
        break;
      }
      var x := it.Next();
      out := out + [x.value];
    }
  }

  /** A bag over `s`, iterated to exhaustion: it yields `s` in order, once each; size() is 0
      before and |s| after; a further next() throws, and so does a second iterator(). */
  method IterateToExhaustion<T(==)>(s: seq<Nullable<T>>)
    returns (out: seq<Nullable<T>>, sizeBefore: nat, sizeAfter: nat, extra: Result<Nullable<T>>, again: bool)
    ensures out == s
    ensures sizeBefore == 0 && sizeAfter == |s|
    ensures extra == Failure(NoSuchElement)
    ensures again
  {
    var bag := new StreamyBag(s);
    sizeBefore := bag.Size();
    var it;
    out, it := Drain(bag);
    sizeAfter := bag.Size();
    extra := it.Next();
    var second := bag.Iterator();
    again := second == Failure(IllegalState);
  }

  /** A bag over an empty stream is empty before and after an iteration that finds nothing. */
  method EmptyStream<T(==)>() returns (before: bool, hasNext: Result<bool>, after: bool)
    ensures before && hasNext == Success(false) && after
  {
    var bag := new StreamyBag<T>([]);
    before := bag.IsEmpty();
    var r := bag.Iterator();
    hasNext := r.value.HasNext();
    after := bag.IsEmpty();
  }

  /** add(1) to a bag over an empty stream whose emptiness was checked: the bag is no longer
      empty, iteration yields [1], and it stays known non-empty afterwards. */
  method AddOne() returns (e1: bool, added: bool, e2: bool, out: seq<Nullable<int>>, e3: bool)
    ensures e1 && added && !e2 && !e3
    ensures out == [NonNull(1)]
  {
    var bag := new StreamyBag<int>([]);
    e1 := bag.IsEmpty();
    added := bag.Add(NonNull(1));
    e2 := bag.IsEmpty();
    var it;
    out, it := Drain(bag);
    e3 := bag.IsEmpty();
  }

  /** addAll([1, 2]) to a bag over an empty stream: iteration yields [1, 2]. */
  method AddTwo() returns (e1: bool, r: Result<bool>, e2: bool, out: seq<Nullable<int>>)
    ensures e1 && r == Success(true) && !e2
    ensures out == [NonNull(1), NonNull(2)]
  {
    var bag := new StreamyBag<int>([]);
    e1 := bag.IsEmpty();
    r := bag.AddAll(NonNull([NonNull(1), NonNull(2)]));
    e2 := bag.IsEmpty();
    var it;
    out, it := Drain(bag);
  }

  /** remove(x) on a fresh bag over `s`: true, and iteration yields `s` without the elements
      equal to `x`. */
  method RemoveThenIterate<T(==)>(s: seq<Nullable<T>>, x: Nullable<T>, hash: T -> int)
    returns (changed: bool, out: seq<Nullable<T>>)
    ensures changed
    ensures out == Filter(s, RemovalFilter(x, hash))
    ensures forall i :: 0 <= i < |out| ==> out[i] != x
    ensures forall e :: e in s ==> multiset(out)[e] == if e == x then 0 else multiset(s)[e]
  {
    FilterMultiset(s, RemovalFilter(x, hash));
    var bag := new StreamyBag(s);
    changed := bag.Remove(x, hash);
    var it;
    out, it := Drain(bag);
  }

  /** remove(2) on [1, 2, 3] yields [1, 3]; remove(null) on [1, null, 3] yields [1, 3]. */
  method RemoveExamples() returns (a: seq<Nullable<int>>, b: seq<Nullable<int>>)
    ensures a == [NonNull(1), NonNull(3)]
    ensures b == [NonNull(1), NonNull(3)]
  {
    var hash := (i: int) => i;
    var changed;
    changed, a := RemoveThenIterate([NonNull(1), NonNull(2), NonNull(3)], NonNull(2), hash);
    changed, b := RemoveThenIterate([NonNull(1), Null, NonNull(3)], Null, hash);
  }

  /** A removal suppresses matching elements already on the stream, not ones added after it. */
  method RemoveThenAddSame<T(==)>(s: seq<Nullable<T>>, x: Nullable<T>, hash: T -> int)
    returns (out: seq<Nullable<T>>)
    ensures out == Filter(s, RemovalFilter(x, hash)) + [x]
  {
    var bag := new StreamyBag(s);
    var changed := bag.Remove(x, hash);
    var added := bag.Add(x);
    var it;
    out, it := Drain(bag);
  }

  /** A removal after an add, with no cursor taken, filters the old source and the added
      elements alike. */
  method AddThenRemove<T(==)>(s: seq<Nullable<T>>, xs: seq<Nullable<T>>, x: Nullable<T>, hash: T -> int)
    returns (out: seq<Nullable<T>>)
    ensures out == Filter(s, RemovalFilter(x, hash)) + Filter(xs, RemovalFilter(x, hash))
  {
    FilterAppend(s, xs, RemovalFilter(x, hash));
    var bag := new StreamyBag(s);
    var r := bag.AddAll(NonNull(xs));
    var changed := bag.Remove(x, hash);
    var it;
    out, it := Drain(bag);
  }

  /** Two removals compose: iteration omits the elements equal to either target. */
  method RemoveTwice<T(==)>(s: seq<Nullable<T>>, x: Nullable<T>, y: Nullable<T>, hash: T -> int)
    returns (out: seq<Nullable<T>>)
    ensures out == Filter(s, Both(RemovalFilter(x, hash), RemovalFilter(y, hash)))
    ensures forall i :: 0 <= i < |out| ==> out[i] != x && out[i] != y
  {
    FilterFilter(s, RemovalFilter(x, hash), RemovalFilter(y, hash));
    var bag := new StreamyBag(s);
    var c1 := bag.Remove(x, hash);
    var c2 := bag.Remove(y, hash);
    var it;
    out, it := Drain(bag);
  }

  /** remove(x) of an element the source does not hold still returns true ("it might have
      changed something") and changes nothing that is delivered. */
  method RemoveAbsent<T(==)>(s: seq<Nullable<T>>, x: Nullable<T>, hash: T -> int)
    returns (changed: bool, out: seq<Nullable<T>>)
    requires x !in s
    ensures changed && out == s
  {
    FilterAll(s, RemovalFilter(x, hash));
    var bag := new StreamyBag(s);
    changed := bag.Remove(x, hash);
    var it;
    out, it := Drain(bag);
  }

  /** remove on an exhausted bag returns false. */
  method RemoveExhausted() returns (changed: bool)
    ensures !changed
  {
    var bag := new StreamyBag([NonNull(1)]);
    var out, it := Drain(bag);
    changed := bag.Remove(NonNull(2), (i: int) => i);
  }

  /** removeAll([2, 4]) on [1, 2, 3, 2, 4] returns true and iteration yields [1, 3]. */
  method RemoveAllExample() returns (r: Result<bool>, out: seq<Nullable<int>>)
    ensures r == Success(true) && out == [NonNull(1), NonNull(3)]
  {
    var bag := new StreamyBag([NonNull(1), NonNull(2), NonNull(3), NonNull(2), NonNull(4)]);
    r := bag.RemoveAll(NonNull([NonNull(2), NonNull(4)]));
    var it;
    out, it := Drain(bag);
  }

  /** retainAll([2, 4]) on [1, 2, 3, 2, 4] returns true and iteration yields [2, 2, 4]. */
  method RetainAllExample() returns (r: Result<bool>, out: seq<Nullable<int>>)
    ensures r == Success(true) && out == [NonNull(2), NonNull(2), NonNull(4)]
  {
    var bag := new StreamyBag([NonNull(1), NonNull(2), NonNull(3), NonNull(2), NonNull(4)]);
    r := bag.RetainAll(NonNull([NonNull(2), NonNull(4)]));
    var it;
    out, it := Drain(bag);
  }

  /** removeIf(o == 2) on [1, 2, 3] returns true and iteration yields [1, 3]. */
  method RemoveIfExample() returns (r: Result<bool>, out: seq<Nullable<int>>)
    ensures r == Success(true) && out == [NonNull(1), NonNull(3)]
  {
    var bag := new StreamyBag([NonNull(1), NonNull(2), NonNull(3)]);
    r := bag.RemoveIf(NonNull((o: Nullable<int>) => o == NonNull(2)));
    var it;
    out, it := Drain(bag);
  }

  /** removeAll(null), retainAll(null) and removeIf(null) throw, and the bag still delivers
      its whole source afterwards. */
  method NullArguments<T(==)>(s: seq<Nullable<T>>)
    returns (r1: Result<bool>, r2: Result<bool>, r3: Result<bool>, out: seq<Nullable<T>>)
    ensures r1 == Failure(NullPointer) && r2 == Failure(NullPointer) && r3 == Failure(NullPointer)
    ensures out == s
  {
    var bag := new StreamyBag(s);
    r1 := bag.RemoveAll(Null);
    r2 := bag.RetainAll(Null);
    r3 := bag.RemoveIf(Null);
    var it;
    out, it := Drain(bag);
  }

  /** clear() in the middle of a bag makes it empty; add(1) then iterates to exactly [1]. */
  method ClearThenAdd<T(==)>(s: seq<Nullable<T>>, x: Nullable<T>)
    returns (empty: bool, size: nat, out: seq<Nullable<T>>)
    ensures empty && size == 0
    ensures out == [x]
  {
    var bag := new StreamyBag(s);
    var e := bag.IsEmpty();
    bag.Clear();
    empty := bag.IsEmpty();
    size := bag.Size();
    var added := bag.Add(x);
    var it;
    out, it := Drain(bag);
  }

  /** toArray() on a fresh bag over `s` gives an array of exactly `s`, and counts them. */
  method ToArrayOfFresh<T(==)>(s: seq<Nullable<T>>) returns (elems: seq<Nullable<T>>, size: nat)
    ensures elems == s && size == |s|
  {
    var bag := new StreamyBag(s);
    var a := bag.ToArray();
    elems := a[..];
    size := bag.Size();
  }

  /** stream() pulled for `k` elements by its consumer delivers the first `k` (or all), counts
      them, and latches non-emptiness exactly when something flowed. */
  method ProjectionAccounting<T(==)>(s: seq<Nullable<T>>, k: nat)
    returns (out: seq<Nullable<T>>, size: nat, empty: bool)
    ensures out == if k <= |s| then s[..k] else s
    ensures size == |out|
    ensures empty <==> out == []
  {
    var bag := new StreamyBag(s);
    out := bag.Stream(k);
    size := bag.Size();
    empty := bag.IsEmpty();
  }

  /** The source exhausted by an iteration, then more elements added: the intended behaviour,
      which `AddStream` gives, is that iterating again yields exactly the added elements. */
  method AddAfterExhaustion<T(==)>(s: seq<Nullable<T>>, xs: seq<Nullable<T>>)
    returns (first: seq<Nullable<T>>, second: seq<Nullable<T>>)
    ensures first == s && second == xs
  {
    var bag := new StreamyBag(s);
    var it;
    first, it := Drain(bag);
    var added := bag.AddStream(xs);
    second, it := Drain(bag);
  }

  /** The same sequence of calls against `addStream` as written: the exhausted cursor kept from
      the first iteration still answers, so the bag reports itself empty and the added
      element is never delivered. */
  method StaleCursorSwallowsAdd() returns (empty: bool, second: seq<Nullable<int>>)
    ensures empty && second == []
  {
    var bag := new StreamyBag<int>([]);
    var first, it := Drain(bag);
    var added := bag.AddStreamAsWritten([NonNull(1)]);
    empty := bag.IsEmpty();
    second, it := Drain(bag);
  }

  /** Once an iteration has found an element, toArray() on the closed bag gives an empty array
      and leaves the bag known non-empty: only clear() forgets that. */
  method LatchSurvivesToArray<T(==)>(s: seq<Nullable<T>>) returns (elems: seq<Nullable<T>>, empty: bool)
    requires s != []
    ensures elems == [] && !empty
  {
    var bag := new StreamyBag(s);
    var out, it := Drain(bag);
    var a := bag.ToArray();
    elems := a[..];
    empty := bag.IsEmpty();
  }
}
