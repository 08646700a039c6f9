/** The pending-event list of the simulators: Python keeps a binary heap (heapq) of
    `(time, type)` tuples with ARRIVAL = 1 and DEPARTURE = 2, and always pops the smallest
    tuple. The model keeps the list sorted by that tuple order, so the head is what
    `heappop` returns and `Insert` is `heappush`. */
module EventList {

  datatype Kind = Arrival | Departure

  /** The integer tag the source stores in the tuple. */
  function Code(k: Kind): int
  {
    match k
    case Arrival => 1
    case Departure => 2
  }

  datatype Event = Event(time: real, kind: Kind)

  /** Python's tuple order on (time, type): by time, ties by the type tag. */
  predicate Le(a: Event, b: Event)
  {
    a.time < b.time || (a.time == b.time && Code(a.kind) <= Code(b.kind))
  }

  /** Each event is at or below the next one. */
  ghost predicate Sorted(q: seq<Event>)
  {
    |q| <= 1 || (Le(q[0], q[1]) && Sorted(q[1..]))
  }

  /** The tuple order is total and transitive. */
  lemma LeTotal(a: Event, b: Event)
    ensures Le(a, b) || Le(b, a)
  {
  }

  lemma LeTrans(a: Event, b: Event, c: Event)
    requires Le(a, b) && Le(b, c)
    ensures Le(a, c)
  {
  }

  /** heappush: insert before the first pending event that is not below the new one.
      `InsertContents` shows the pending events are the old ones plus the new one, and
      `InsertSorted` that the order is kept. */
  function Insert(q: seq<Event>, e: Event): (r: seq<Event>)
    ensures |r| == |q| + 1
  {
    if q == [] then [e]
    else if Le(e, q[0]) then [e] + q
    else [q[0]] + Insert(q[1..], e)
  }

  lemma {:induction false} InsertContents(q: seq<Event>, e: Event)
    ensures multiset(Insert(q, e)) == multiset(q) + multiset{e}
  {
    if q != [] && !Le(e, q[0]) {
      InsertContents(q[1..], e);
      assert q == [q[0]] + q[1..];
    }
  }

  lemma {:induction false} InsertSorted(q: seq<Event>, e: Event)
    requires Sorted(q)
    ensures Sorted(Insert(q, e))
  {
    if q != [] && !Le(e, q[0]) {
      InsertSorted(q[1..], e);
      LeTotal(e, q[0]);
      var tail := Insert(q[1..], e);
      assert tail[0] == e || tail[0] == q[1];
      assert Insert(q, e)[1..] == tail;
    }
  }

  /** heappush on an ordered list: ordered again, holding one more event. */
  lemma InsertFacts(q: seq<Event>, e: Event)
    requires Sorted(q)
    ensures Sorted(Insert(q, e))
    ensures multiset(Insert(q, e)) == multiset(q) + multiset{e}
  {
    InsertSorted(q, e);
    InsertContents(q, e);
  }

  /** heappop returns a least event: the head of a sorted list is below every pending event. */
  lemma {:induction false} HeadIsLeast(q: seq<Event>, e: Event)
    requires Sorted(q) && |q| > 0
    requires e in multiset(q)
    ensures Le(q[0], e)
  {
    assert q == [q[0]] + q[1..];
    if e != q[0] {
      assert e in multiset(q[1..]);
      HeadIsLeast(q[1..], e);
      LeTrans(q[0], q[1], e);
    }
  }

  lemma CancelOne(x: Event, m1: multiset<Event>, m2: multiset<Event>)
    requires multiset{x} + m1 == multiset{x} + m2
    ensures m1 == m2
  {
    assert m1 == (multiset{x} + m1) - multiset{x};
  }

  /** A list holding at most one departure `d` and at most one arrival `a`: whichever of
      them is at the head, the rest holds the other. */
  lemma PopOneOfTwo(q: seq<Event>, hasD: bool, d: Event, hasA: bool, a: Event)
    requires d.kind == Departure && a.kind == Arrival && q != []
    requires multiset(q) == (if hasD then multiset{d} else multiset{})
                            + (if hasA then multiset{a} else multiset{})
    ensures q[0].kind == Arrival ==>
              hasA && q[0] == a && multiset(q[1..]) == (if hasD then multiset{d} else multiset{})
    ensures q[0].kind == Departure ==>
              hasD && q[0] == d && multiset(q[1..]) == (if hasA then multiset{a} else multiset{})
  {
    assert q == [q[0]] + q[1..];
    var rest := multiset(q[1..]);
    var pd := if hasD then multiset{d} else multiset{};
    var pa := if hasA then multiset{a} else multiset{};
    assert multiset{q[0]} + rest == pd + pa;
    assert q[0] in pd + pa;
    if q[0].kind == Arrival {
      assert q[0] in pa && q[0] == a;
      CancelOne(a, rest, pd);
    } else {
      assert q[0] in pd && q[0] == d;
      CancelOne(d, rest, pa);
    }
  }

  /** heappop: what remains is still ordered, holds everything but the head, and nothing in
      it is earlier than the head. */
  lemma PopFacts(q: seq<Event>)
    requires Sorted(q) && |q| > 0
    ensures Sorted(q[1..])
    ensures multiset(q) == multiset{q[0]} + multiset(q[1..])
    ensures forall e :: e in multiset(q[1..]) ==> q[0].time <= e.time
  {
    assert q == [q[0]] + q[1..];
    forall e | e in multiset(q[1..])
      ensures q[0].time <= e.time
    {
      HeadIsLeast(q, e);
    }
  }

  /** At equal times an ARRIVAL (1) is popped before a DEPARTURE (2). */
  lemma TiesPopArrivalFirst(q: seq<Event>, t: real)
    requires Sorted(q)
    requires Event(t, Arrival) in multiset(q) && Event(t, Departure) in multiset(q)
    ensures q[0] != Event(t, Departure)
  {
    HeadIsLeast(q, Event(t, Arrival));
  }

  /** Two positions holding the same event put two copies of it in the multiset. */
  lemma {:induction false} TwoCopies(q: seq<Event>, i: nat, j: nat)
    requires i < j < |q| && q[i] == q[j]
    ensures multiset(q)[q[i]] >= 2
  {
    var e := q[i];
    assert q == q[..i] + [e] + q[i + 1..j] + [e] + q[j + 1..];
    assert multiset(q) == multiset(q[..i]) + multiset{e} + multiset(q[i + 1..j]) + multiset{e} + multiset(q[j + 1..]);
  }
}
