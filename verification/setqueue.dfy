/** The ordered set queue feeding the flood: a first-in first-out queue whose
    `put` silently ignores a coordinate that is already pending. */
module SetQueue {
  import opened Coords

  /** put(x): append x unless it is already pending. */
  function Put(q: seq<Coord>, x: Coord): (r: seq<Coord>)
    ensures x in r
    ensures forall y :: y in r <==> y in q || y == x
    ensures |q| <= |r| <= |q| + 1 && r[..|q|] == q
    ensures NoDup(q) ==> NoDup(r)
  {
    if x in q then q else q + [x]
  }

  /** get(): the oldest pending coordinate and the queue without it. */
  function Get(q: seq<Coord>): (r: (Coord, seq<Coord>))
    requires |q| > 0
    ensures [r.0] + r.1 == q
    ensures NoDup(q) ==> r.0 !in r.1 && NoDup(r.1)
  {
    (q[0], q[1..])
  }

  /** Putting a pending coordinate is a no-op, so putting twice is putting once. */
  lemma PutIdempotent(q: seq<Coord>, x: Coord)
    ensures Put(Put(q, x), x) == Put(q, x)
  {
  }

  /** First in, first out: on an empty queue a put is handed straight back by
      get; otherwise get still yields the oldest pending coordinate, and put
      commutes with get unless it names that coordinate. */
  lemma PutGetRoundTrip(q: seq<Coord>, x: Coord)
    ensures q == [] ==> Get(Put(q, x)) == (x, [])
    ensures q != [] ==> Get(Put(q, x)).0 == q[0]
    ensures q != [] && x != q[0] ==> Get(Put(q, x)).1 == Put(Get(q).1, x)
  {
  }
}
