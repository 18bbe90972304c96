/** StreamyBag: a single-pass bag that presents a stream through the Collection interface.
    The stream is modelled by the finite sequence of elements it has not yet handed on,
    filters by `Streams.Filter` and concatenation by `+`. */
module StreamyCollection {
  import opened JavaLang
  import opened Streams

  /** One version of the bag's `stream` field.
      `pending` is what the stream will still hand to the next stage that pulls from it;
      once a cursor or a projection has been taken from it, it has handed everything on.
      `tag` stands for the stream object's identity.
      `handlers` are the tags of the close handlers registered on its pipeline, in order. */
  datatype Source<T> = Source(pending: seq<Nullable<T>>, tag: nat, handlers: seq<nat>)

  /** The answer to `remove(target)`'s filter for element `o`: keep `o` unless it is the same
      reference, or both are non-null with equal hash codes and `o.equals(target)`.
      `hash` is the elements' `hashCode`; `equals` is value equality. */
  function RemovalKeeps<T(==)>(o: Nullable<T>, target: Nullable<T>, hash: T -> int): (keep: bool)
    ensures keep <==> o != target
    ensures target.Null? ==> (keep <==> o.NonNull?)
    ensures target.NonNull? ==> (keep <==> !(o.NonNull? && o.get == target.get))
  {
    o != target && (o.Null? || target.Null? || hash(o.get) != hash(target.get) || o.get != target.get)
  }

  /** The predicate `remove(target)` filters the stream with. */
  function RemovalFilter<T(==)>(target: Nullable<T>, hash: T -> int): Nullable<T> -> bool
  {
    o => RemovalKeeps(o, target, hash)
  }

  /** `o -> !c.contains(o)`, the predicate of `removeAll(c)`. */
  function NotIn<T(==)>(c: seq<Nullable<T>>): Nullable<T> -> bool
  {
    o => o !in c
  }

  /** `c::contains`, the predicate of `retainAll(c)`. */
  function In<T(==)>(c: seq<Nullable<T>>): Nullable<T> -> bool
  {
    o => o in c
  }

  /** `filter.negate()`, the predicate of `removeIf(filter)`. */
  function Negate<T>(filter: Nullable<T> -> bool): Nullable<T> -> bool
  {
    o => !filter(o)
  }

  /** A pull cursor over a stream: the elements it will still deliver. */
  class Cursor<T> {
    var rest: seq<Nullable<T>>

    constructor (elems: seq<Nullable<T>>)
      ensures rest == elems
    {
      rest := elems;
    }
  }

  class StreamyBag<T(==)> {
    var stream: Nullable<Source<T>>
    var child: Cursor?<T>
    var knownNotEmpty: bool
    var count: nat
    /** The identity the next stream version receives. */
    var nextTag: nat

    /** The current stream's own close handler is registered on its pipeline, and its tag was issued. */
    ghost predicate Valid()
      reads this
    {
      stream.NonNull? ==> stream.get.tag < nextTag && stream.get.tag in stream.get.handlers
    }

    /** What an iterator obtained now would deliver, in order (nothing when there is no source). */
    ghost function Upcoming(): seq<Nullable<T>>
      reads this, child
    {
      if stream.Null? then []
      else if child != null then child.rest
      else stream.get.pending
    }

    /** A fresh bag over the stream `s`: nothing delivered, nothing known. */
    constructor (s: seq<Nullable<T>>)
      ensures Valid()
      ensures stream.NonNull? && stream.get.pending == s
      ensures child == null && !knownNotEmpty && count == 0
      ensures Upcoming() == s
    {
      stream := Null;
      child := null;
      knownNotEmpty := false;
      count := 0;
      nextTag := 0;
      new;
      ReplaceStream(s, []);
    }

    /** Installs a new stream version with its own close handler on top of those it inherits. */
    method ReplaceStream(s: seq<Nullable<T>>, inherited: seq<nat>)
      modifies this`stream, this`nextTag
      ensures Valid()
      ensures stream == NonNull(Source(s, old(nextTag), inherited + [old(nextTag)]))
      ensures nextTag == old(nextTag) + 1
    {
      stream := NonNull(Source(s, nextTag, inherited + [nextTag]));
      nextTag := nextTag + 1;
    }

    /** The close handler registered for the stream version `tag`: it clears the field only if
        the field still holds that version, so a stale handler never clears a newer composition. */
    method RunCloseHandler(tag: nat)
      modifies this`stream
      ensures stream == if old(stream).NonNull? && old(stream).get.tag == tag then Null else old(stream)
    {
      if stream.NonNull? && stream.get.tag == tag {
        stream := Null;
      }
    }

    /** `stream.close()`: runs every handler registered on the current pipeline, in order;
        the current version's own handler clears the field, all others find a newer stream. */
    method Close()
      requires Valid() && stream.NonNull?
      modifies this`stream
      ensures Valid() && stream == Null
    {
      var handlers := stream.get.handlers;
      ghost var current := stream.get.tag;
      var i := 0;
      while i < |handlers|
        invariant 0 <= i <= |handlers|
        invariant stream == old(stream) || stream == Null
        invariant stream == old(stream) ==> current !in handlers[..i]
      {
        RunCloseHandler(handlers[i]);
        i := i + 1;
      }
      assert handlers[..i] == handlers;
    }

    /** `stream.iterator()`: a new cursor over the current stream, which hands it everything
        still pending. */
    method TakeCursor() returns (c: Cursor<T>)
      requires Valid() && stream.NonNull?
      modifies this`stream
      ensures Valid() && fresh(c) && c.rest == old(stream).get.pending
      ensures stream == NonNull(old(stream).get.(pending := []))
    {
      c := new Cursor(stream.get.pending);
      stream := NonNull(stream.get.(pending := []));
    }

    /** The cached cursor, created from the current stream on first demand. */
    method GetChildIterator() returns (c: Cursor<T>)
      requires Valid() && stream.NonNull?
      modifies this`stream, this`child
      ensures Valid() && child == c && stream.NonNull?
      ensures old(child) != null ==> c == old(child) && stream == old(stream)
      ensures old(child) == null ==> fresh(c) && c.rest == old(stream).get.pending
                                     && stream == NonNull(old(stream).get.(pending := []))
      ensures Upcoming() == old(Upcoming())
    {
      if child == null {
        child := TakeCursor();
      }
      c := child;
    }

    /** `size()`: the number of elements delivered through next() or stream() since
        construction or the last clear(). */
    method Size() returns (n: nat)
      ensures n == count
    {
      n := count;
    }

    /** `isEmpty()`: false once an element is known to exist; true without a source; otherwise
        whether the cached cursor has nothing left, creating that cursor on first demand. It
        neither delivers nor counts anything and leaves what comes next as it was. */
    method IsEmpty() returns (empty: bool)
      requires Valid()
      modifies this`stream, this`child
      ensures Valid()
      ensures empty <==> !knownNotEmpty && old(Upcoming()) == []
      ensures old(knownNotEmpty) || old(stream).Null? ==> stream == old(stream) && child == old(child)
      ensures !old(knownNotEmpty) && old(stream).NonNull? ==> child != null
      ensures !old(knownNotEmpty) && old(stream).NonNull? && old(child) == null ==>
                fresh(child) && stream == NonNull(old(stream).get.(pending := []))
      ensures old(child) != null ==> stream == old(stream) && child == old(child)
      ensures stream.NonNull? <==> old(stream).NonNull?
      ensures child == old(child) || fresh(child)
      ensures Upcoming() == old(Upcoming())
    {
      if knownNotEmpty {
        return false;
      }
      if stream.Null? {
        return true;
      }
      var c := GetChildIterator();
      empty := c.rest == [];
    }

    /** `contains(o)`: search is refused whatever the state. */
    method Contains(o: Nullable<T>) returns (r: Result<bool>)
      ensures r == Failure(UnsupportedOperation)
    {
      r := Failure(UnsupportedOperation);
    }

    /** `containsAll(c)`: search is refused whatever the state. */
    method ContainsAll(c: Nullable<seq<Nullable<T>>>) returns (r: Result<bool>)
      ensures r == Failure(UnsupportedOperation)
    {
      r := Failure(UnsupportedOperation);
    }

    /** `iterator()`: fails without a source; otherwise an iterator over the cached cursor,
        which delivers exactly what was upcoming. */
    method Iterator() returns (r: Result<Iter<T>>)
      requires Valid()
      modifies this`stream, this`child
      ensures Valid()
      ensures r.Failure? <==> old(stream).Null?
      ensures r.Failure? ==> r.error == IllegalState && stream == old(stream) && child == old(child)
      ensures r.Success? ==> fresh(r.value) && r.value.bag == this && r.value.child == child
                             && r.value.child.rest == old(Upcoming()) && stream.NonNull?
                             && (old(child) == null ==> fresh(child))
                             && (old(child) != null ==> child == old(child))
                             && stream == if old(child) == null then NonNull(old(stream).get.(pending := []))
                                          else old(stream)
      ensures Upcoming() == old(Upcoming())
    {
      if stream.Null? {
        return Failure(IllegalState);
      }
      var c := GetChildIterator();
      var it := new Iter(this, c);
      r := Success(it);
    }

    /** `stream()` driven by a consumer that pulls `demand` elements: those elements flow out in
        order, each one latching `knownNotEmpty` and counting once. The source stream has then
        handed everything on; without a source the projection is empty and nothing changes. */
    method Stream(demand: nat) returns (out: seq<Nullable<T>>)
      requires Valid()
      modifies this`stream, this`knownNotEmpty, this`count
      ensures Valid()
      ensures old(stream).Null? ==> out == [] && stream == Null
                                    && knownNotEmpty == old(knownNotEmpty) && count == old(count)
      ensures old(stream).NonNull? ==>
                var p := old(stream).get.pending;
                && out == (if demand <= |p| then p[..demand] else p)
                && stream == NonNull(old(stream).get.(pending := []))
                && count == old(count) + |out|
                && knownNotEmpty == (old(knownNotEmpty) || out != [])
    {
      out := [];
      if stream.Null? {
        return;
      }
      var p := stream.get.pending;
      stream := NonNull(stream.get.(pending := []));
      var n := if demand <= |p| then demand else |p|;
      var i := 0;
      while i < n
        invariant 0 <= i <= n
        invariant out == p[..i]
        invariant count == old(count) + i
        invariant knownNotEmpty == (old(knownNotEmpty) || i > 0)
        invariant stream == NonNull(old(stream).get.(pending := []))
      {
        out := out + [p[i]];
        knownNotEmpty := true;
        count := count + 1;
        i := i + 1;
      }
      assert n == |p| ==> p[..n] == p;
    }

    /** `toArray()`: drains the remaining source through stream() into an array holding exactly
        those elements, in order. */
    method ToArray() returns (a: array<Nullable<T>>)
      requires Valid()
      modifies this`stream, this`knownNotEmpty, this`count
      ensures Valid() && fresh(a)
      ensures old(stream).Null? ==> a[..] == [] && stream == Null && count == old(count)
                                    && knownNotEmpty == old(knownNotEmpty)
      ensures old(stream).NonNull? ==>
                && a[..] == old(stream).get.pending
                && stream == NonNull(old(stream).get.(pending := []))
                && count == old(count) + a.Length
                && knownNotEmpty == (old(knownNotEmpty) || a.Length > 0)
    {
      var demand := if stream.NonNull? then |stream.get.pending| else 0;
      var list := Stream(demand);
      a := new Nullable<T>[|list|](i requires 0 <= i < |list| => list[i]);
    }

    /** `add(t)`: always true; `t` comes after everything upcoming. */
    method Add(t: Nullable<T>) returns (changed: bool)
      requires Valid()
      modifies this`stream, this`child, this`nextTag
      ensures Valid() && changed
      ensures Upcoming() == old(Upcoming()) + [t]
      ensures stream.NonNull?
      ensures old(child) == null ==> child == null
      ensures child == null || child == old(child) || fresh(child)
    {
      changed := AddStream([t]);
    }

    /** `addAll(c)`: fails on a null collection; otherwise true, and the elements of `c` come
        after everything upcoming. */
    method AddAll(c: Nullable<seq<Nullable<T>>>) returns (r: Result<bool>)
      requires Valid()
      modifies this`stream, this`child, this`nextTag
      ensures Valid()
      ensures c.Null? ==> r == Failure(NullPointer) && stream == old(stream) && child == old(child)
      ensures c.NonNull? ==> r == Success(true) && stream.NonNull? && Upcoming() == old(Upcoming()) + c.get
      ensures old(child) == null ==> child == null
      ensures child == null || child == old(child) || fresh(child)
    {
      if c.Null? {
        return Failure(NullPointer);
      }
      var changed := AddStream(c.get);
      r := Success(changed);
    }

    /** `addStream(s)`, with the stale cursor dropped when a new source is installed:
        - no source: the new source is `s` alone and there is no cursor;
        - a cursor: the new source is the cursor's remaining elements followed by `s`, and a new
          cursor is taken over it;
        - otherwise the new source is the old one followed by `s`.
        In every case what comes next is what came next before, followed by `s`. */
    method AddStream(s: seq<Nullable<T>>) returns (changed: bool)
      requires Valid()
      modifies this`stream, this`child, this`nextTag
      ensures Valid() && changed
      ensures stream.NonNull? && stream.get.tag == old(nextTag)
      ensures old(stream).Null? ==> stream.get.pending == s && child == null
      ensures old(stream).NonNull? && old(child) != null ==>
                fresh(child) && child.rest == old(child.rest) + s && stream.get.pending == []
      ensures old(stream).NonNull? && old(child) == null ==>
                child == null && stream.get.pending == old(stream.get.pending) + s
                && stream.get.handlers == old(stream.get.handlers) + [old(nextTag)]
      ensures Upcoming() == old(Upcoming()) + s
      ensures child == null || child == old(child) || fresh(child)
    {
      if stream.Null? {
        ReplaceStream(s, []);
        child := null;
      } else if child != null {
        ReplaceStream(child.rest + s, []);
        child := TakeCursor();
      } else {
        ReplaceStream(stream.get.pending + s, stream.get.handlers);
      }
      changed := true;
    }

    /** `addStream(s)` as written: with no source it installs `s` but keeps whatever cursor is
        cached, so a cursor left exhausted by an earlier iteration still answers for the bag. */
    method AddStreamAsWritten(s: seq<Nullable<T>>) returns (changed: bool)
      requires Valid()
      modifies this`stream, this`child, this`nextTag
      ensures Valid() && changed
      ensures stream.NonNull? && stream.get.tag == old(nextTag)
      ensures old(stream).Null? ==> stream.get.pending == s && child == old(child)
      ensures old(stream).NonNull? ==> Upcoming() == old(Upcoming()) + s
      ensures old(stream).Null? && old(child) != null ==> Upcoming() == old(child.rest)
      ensures child == null || child == old(child) || fresh(child)
    {
      if stream.Null? {
        ReplaceStream(s, []);
      } else if child != null {
        ReplaceStream(child.rest + s, []);
        child := TakeCursor();
      } else {
        ReplaceStream(stream.get.pending + s, stream.get.handlers);
      }
      changed := true;
    }

    /** `remove(toRemove)`: false and no change without a source; otherwise true, and the source
        from now on omits exactly the elements equal to `toRemove` (null matching only null).
        An existing cursor is left as it is. */
    method Remove(toRemove: Nullable<T>, hash: T -> int) returns (changed: bool)
      requires Valid()
      modifies this`stream, this`nextTag
      ensures Valid()
      ensures changed <==> old(stream).NonNull?
      ensures !changed ==> stream == old(stream)
      ensures changed ==> stream.NonNull?
                          && stream.get.pending == Filter(old(stream).get.pending, RemovalFilter(toRemove, hash))
                          && stream.get.tag == old(nextTag)
                          && stream.get.handlers == old(stream).get.handlers + [old(nextTag)]
    {
      if stream.Null? {
        return false;
      }
      ReplaceStream(Filter(stream.get.pending, RemovalFilter(toRemove, hash)), stream.get.handlers);
      changed := true;
    }

    /** `retainIf(predicate)`: false and no change without a source; otherwise true, and the
        source keeps only the elements `keep` accepts. An existing cursor is left as it is. */
    method RetainIf(keep: Nullable<T> -> bool) returns (changed: bool)
      requires Valid()
      modifies this`stream, this`nextTag
      ensures Valid()
      ensures changed <==> old(stream).NonNull?
      ensures !changed ==> stream == old(stream)
      ensures changed ==> stream.NonNull?
                          && stream.get.pending == Filter(old(stream).get.pending, keep)
                          && stream.get.tag == old(nextTag)
                          && stream.get.handlers == old(stream).get.handlers + [old(nextTag)]
    {
      if stream.Null? {
        return false;
      }
      ReplaceStream(Filter(stream.get.pending, keep), stream.get.handlers);
      changed := true;
    }

    /** `removeAll(c)`: fails on a null collection before any change; otherwise `retainIf`
        with "not in c". */
    method RemoveAll(c: Nullable<seq<Nullable<T>>>) returns (r: Result<bool>)
      requires Valid()
      modifies this`stream, this`nextTag
      ensures Valid()
      ensures c.Null? ==> r == Failure(NullPointer) && stream == old(stream)
      ensures c.NonNull? ==> r == Success(old(stream).NonNull?)
      ensures c.NonNull? && old(stream).NonNull? ==>
                stream.NonNull? && stream.get.pending == Filter(old(stream).get.pending, NotIn(c.get))
                && stream.get.tag == old(nextTag) && stream.get.handlers == old(stream).get.handlers + [old(nextTag)]
      ensures old(stream).Null? ==> stream == Null
    {
      if c.Null? {
        return Failure(NullPointer);
      }
      var changed := RetainIf(NotIn(c.get));
      r := Success(changed);
    }

    /** `retainAll(c)`: fails on a null collection before any change; otherwise `retainIf`
        with "in c". */
    method RetainAll(c: Nullable<seq<Nullable<T>>>) returns (r: Result<bool>)
      requires Valid()
      modifies this`stream, this`nextTag
      ensures Valid()
      ensures c.Null? ==> r == Failure(NullPointer) && stream == old(stream)
      ensures c.NonNull? ==> r == Success(old(stream).NonNull?)
      ensures c.NonNull? && old(stream).NonNull? ==>
                stream.NonNull? && stream.get.pending == Filter(old(stream).get.pending, In(c.get))
                && stream.get.tag == old(nextTag) && stream.get.handlers == old(stream).get.handlers + [old(nextTag)]
      ensures old(stream).Null? ==> stream == Null
    {
      if c.Null? {
        return Failure(NullPointer);
      }
      var changed := RetainIf(In(c.get));
      r := Success(changed);
    }

    /** `removeIf(filter)`: fails on a null predicate before any change; otherwise `retainIf`
        with the negated predicate. */
    method RemoveIf(filter: Nullable<Nullable<T> -> bool>) returns (r: Result<bool>)
      requires Valid()
      modifies this`stream, this`nextTag
      ensures Valid()
      ensures filter.Null? ==> r == Failure(NullPointer) && stream == old(stream)
      ensures filter.NonNull? ==> r == Success(old(stream).NonNull?)
      ensures filter.NonNull? && old(stream).NonNull? ==>
                stream.NonNull? && stream.get.pending == Filter(old(stream).get.pending, Negate(filter.get))
                && stream.get.tag == old(nextTag) && stream.get.handlers == old(stream).get.handlers + [old(nextTag)]
      ensures old(stream).Null? ==> stream == Null
    {
      if filter.Null? {
        return Failure(NullPointer);
      }
      var changed := RetainIf(Negate(filter.get));
      r := Success(changed);
    }

    /** `clear()`: no source, no cursor, nothing known, nothing counted. */
    method Clear()
      modifies this`stream, this`child, this`knownNotEmpty, this`count
      ensures stream == Null && child == null && !knownNotEmpty && count == 0
      ensures Upcoming() == []
    {
      stream := Null;
      child := null;
      knownNotEmpty := false;
      count := 0;
    }
  }

  /** The iterator `iterator()` returns: it pulls from the cursor it was given and keeps the
      bag's accounting. */
  class Iter<T(==)> {
    const bag: StreamyBag<T>
    const child: Cursor<T>

    constructor (bag: StreamyBag<T>, child: Cursor<T>)
      ensures this.bag == bag && this.child == child
    {
      this.bag := bag;
      this.child := child;
    }

    /** `hasNext()`: true while the cursor has elements, latching the bag's `knownNotEmpty`;
        once it has none, closes the bag's current stream, which clears it. With no stream left
        to close it throws. */
    method HasNext() returns (r: Result<bool>)
      requires bag.Valid()
      modifies bag`stream, bag`knownNotEmpty
      ensures bag.Valid()
      ensures child.rest != [] ==> r == Success(true) && bag.knownNotEmpty && bag.stream == old(bag.stream)
      ensures child.rest == [] && old(bag.stream).NonNull? ==>
                r == Success(false) && bag.stream == Null && bag.knownNotEmpty == old(bag.knownNotEmpty)
      ensures child.rest == [] && old(bag.stream).Null? ==>
                r == Failure(NullPointer) && bag.stream == Null && bag.knownNotEmpty == old(bag.knownNotEmpty)
    {
      if child.rest != [] {
        bag.knownNotEmpty := true;
        r := Success(true);
      } else if bag.stream.Null? {
        r := Failure(NullPointer);
      } else {
        bag.Close();
        r := Success(false);
      }
    }

    /** `next()`: the cursor's first element, counted once by the bag; on an exhausted cursor
        it throws and nothing changes. */
    method Next() returns (r: Result<Nullable<T>>)
      modifies bag`count, child
      ensures old(child.rest) == [] ==> r == Failure(NoSuchElement) && child.rest == [] && bag.count == old(bag.count)
      ensures old(child.rest) != [] ==>
                r == Success(old(child.rest)[0]) && child.rest == old(child.rest)[1..]
                && bag.count == old(bag.count) + 1
    {
      if child.rest == [] {
        return Failure(NoSuchElement);
      }
      r := Success(child.rest[0]);
      child.rest := child.rest[1..];
      bag.count := bag.count + 1;
    }
  }
}
