/** Singly linked lists in arrays: the sequence that a chain of links stands
    for, and what joining and leaving do to it. */
module Links {

  ghost predicate NoDup(queue: seq<nat>) {
    forall i, j :: 0 <= i < j < |queue| ==> queue[i] != queue[j]
  }

  function Without(queue: seq<nat>, i: nat): seq<nat>
    requires i < |queue|
  {
    queue[..i] + queue[i + 1..]
  }

  lemma WithoutOne(queue: seq<nat>, i: nat)
    requires i < |queue| && NoDup(queue)
    ensures NoDup(Without(queue, i))
    ensures forall q :: q in Without(queue, i) <==> q in queue && q != queue[i]
  {
    var rest := Without(queue, i);
    forall q | q in queue && q != queue[i] ensures q in rest {
      var j :| 0 <= j < |queue| && queue[j] == q;
      assert rest[if j < i then j else j - 1] == q;
    }
  }

  /** Where `p` is in a queue, or the length. */
  function Place(queue: seq<nat>, p: nat, i: nat): (r: nat)
    requires i <= |queue|
    ensures i <= r <= |queue| && (r < |queue| ==> queue[r] == p) && forall j :: i <= j < r ==> queue[j] != p
    decreases |queue| - i
  {
    if i == |queue| || queue[i] == p then i else Place(queue, p, i + 1)
  }

  /** Whoever is still in the queue has as many before it as before, or fewer. */
  predicate Advances(q: seq<nat>, q': seq<nat>, p: nat) {
    p in q' ==> p in q && Place(q', p, 0) <= Place(q, p, 0)
  }

  lemma {:induction false} PlaceIs(q: seq<nat>, p: nat, i: nat, j: nat)
    requires i <= j < |q| && q[j] == p && forall k :: i <= k < j ==> q[k] != p
    ensures Place(q, p, i) == j
    decreases j - i
  {
    if i < j { PlaceIs(q, p, i + 1, j); }
  }

  lemma PlaceAppend(q: seq<nat>, c: nat, p: nat)
    requires p != c
    ensures Advances(q, q + [c], p) && (p in q ==> Place(q + [c], p, 0) == Place(q, p, 0))
  {
    hide Place;
    if p in q {
      PlaceIs(q + [c], p, 0, Place(q, p, 0));
    }
  }

  lemma PlaceWithout(q: seq<nat>, i: nat, p: nat)
    requires i < |q| && NoDup(q)
    ensures Advances(q, Without(q, i), p)
    ensures p in Without(q, i) ==> p in q && (i == 0 ==> Place(Without(q, i), p, 0) + 1 == Place(q, p, 0))
  {
    hide Place;
    WithoutOne(q, i);
    if p in Without(q, i) {
      var j := Place(q, p, 0);
      PlaceIs(Without(q, i), p, 0, if j < i then j else j - 1);
    }
  }

  function Removed(q: seq<nat>, p: nat): seq<nat> {
    var i := Place(q, p, 0);
    if i < |q| then Without(q, i) else q
  }

  /** `a` stands before `r`. */
  predicate Ahead(q: seq<nat>, a: nat, r: nat) {
    a in q && r in q && Place(q, a, 0) < Place(q, r, 0)
  }

  /** Taking one out leaves the others as they stand. */
  lemma AheadRemoved(q: seq<nat>, p: nat, a: nat, r: nat)
    requires NoDup(q)
    ensures Ahead(Removed(q, p), a, r) <==> Ahead(q, a, r) && a != p && r != p
    ensures Advances(q, Removed(q, p), r) && NoDup(Removed(q, p)) && (r in Removed(q, p) <==> r in q && r != p)
    ensures q != [] && p == q[0] && r in Removed(q, p) ==> Place(Removed(q, p), r, 0) + 1 == Place(q, r, 0)
  {
    hide Place;
    var i := Place(q, p, 0);
    if i < |q| {
      WithoutOne(q, i);
      PlaceWithout(q, i, r);
      PlaceLess(q, i, a);
      PlaceLess(q, i, r);
    }
  }

  lemma PlaceLess(q: seq<nat>, i: nat, p: nat)
    requires i < |q| && NoDup(q)
    ensures p in q && p != q[i] ==>
      p in Without(q, i) && Place(Without(q, i), p, 0) == Place(q, p, 0) - (if Place(q, p, 0) < i then 0 else 1)
  {
    hide Place;
    WithoutOne(q, i);
    if p in q && p != q[i] {
      var j := Place(q, p, 0);
      PlaceIs(Without(q, i), p, 0, if j < i then j else j - 1);
    }
  }

  /** One who comes to the end stands behind all others. */
  lemma AheadAppend(q: seq<nat>, p: nat, a: nat, r: nat)
    requires p !in q
    ensures Ahead(q + [p], a, r) <==> Ahead(q, a, r) || (a in q && r == p)
  {
    hide Place;
    if a in q { PlaceIs(q + [p], a, 0, Place(q, a, 0)); }
    if r in q { PlaceIs(q + [p], r, 0, Place(q, r, 0)); }
    PlaceIs(q + [p], p, 0, |q|);
  }

  /** One who is put in front stands before them. */
  lemma AheadFront(q: seq<nat>, p: nat, a: nat, r: nat)
    requires p !in q
    ensures Ahead([p] + q, a, r) <==> Ahead(q, a, r) || (a == p && r in q)
    ensures r in q ==> Place([p] + q, r, 0) == Place(q, r, 0) + 1
  {
    hide Place;
    if a in q { PlaceIs([p] + q, a, 0, Place(q, a, 0) + 1); }
    if r in q { PlaceIs([p] + q, r, 0, Place(q, r, 0) + 1); }
    PlaceIs([p] + q, p, 0, 0);
  }

  /** No process. */
  const NULL: int := -1

  function At(queue: seq<nat>, i: nat): int {
    if i < |queue| then queue[i] else NULL
  }

  ghost predicate LinkAt(link: seq<int>, queue: seq<nat>, i: nat)
    requires i < |queue|
  {
    queue[i] < |link| && link[queue[i]] == At(queue, i + 1)
  }

  /** The list from `head` along `link` is `queue`. */
  ghost predicate Chain(link: seq<int>, head: int, queue: seq<nat>) {
    head == At(queue, 0) && forall i :: 0 <= i < |queue| ==> LinkAt(link, queue, i)
  }

  lemma ChainUpdate(link: seq<int>, head: int, queue: seq<nat>, p: nat, x: int)
    requires Chain(link, head, queue) && p < |link| && p !in queue
    ensures Chain(link[p := x], head, queue)
  {
    var link' := link[p := x];
    forall i | 0 <= i < |queue| ensures LinkAt(link', queue, i) {
      assert LinkAt(link, queue, i);
      assert queue[i] in queue;
    }
  }

  lemma ChainAppend(link: seq<int>, head: int, queue: seq<nat>, c: nat)
    requires Chain(link, head, queue) && NoDup(queue) && c < |link| && c !in queue && link[c] == NULL
    ensures queue == [] ==> Chain(link, c, queue + [c])
    ensures queue != [] ==> queue[|queue| - 1] < |link| && Chain(link[queue[|queue| - 1] := c], head, queue + [c])
  {
    if queue != [] {
      var last := queue[|queue| - 1];
      assert LinkAt(link, queue, |queue| - 1);
      assert last in queue;
      var link' := link[last := c];
      forall i | 0 <= i < |queue| + 1 ensures LinkAt(link', queue + [c], i) {
        if i < |queue| { assert LinkAt(link, queue, i); }
      }
    }
  }

  lemma WithoutAt(queue: seq<nat>, i: nat, j: nat)
    requires i < |queue|
    ensures |Without(queue, i)| == |queue| - 1
    ensures At(Without(queue, i), j) == At(queue, if j < i then j else j + 1)
  {
  }

  lemma ChainRest(link: seq<int>, head: int, queue: seq<nat>)
    requires Chain(link, head, queue) && queue != []
    ensures queue[0] < |link| && Chain(link, link[queue[0]], Without(queue, 0))
  {
    assert LinkAt(link, queue, 0);
    WithoutAt(queue, 0, 0);
    forall j | 0 <= j < |Without(queue, 0)| ensures LinkAt(link, Without(queue, 0), j) {
      assert LinkAt(link, queue, j + 1);
      WithoutAt(queue, 0, j);
      WithoutAt(queue, 0, j + 1);
    }
  }

  lemma ChainSkip(link: seq<int>, head: int, queue: seq<nat>, i: nat)
    requires Chain(link, head, queue) && NoDup(queue) && 0 < i < |queue|
    ensures queue[i - 1] < |link| && queue[i] < |link|
    ensures Chain(link[queue[i - 1] := link[queue[i]]], head, Without(queue, i))
  {
    assert LinkAt(link, queue, i - 1) && LinkAt(link, queue, i);
    var link' := link[queue[i - 1] := link[queue[i]]];
    WithoutAt(queue, i, 0);
    forall j | 0 <= j < |Without(queue, i)| ensures LinkAt(link', Without(queue, i), j) {
      assert LinkAt(link, queue, if j < i then j else j + 1);
      WithoutAt(queue, i, j);
      WithoutAt(queue, i, j + 1);
    }
  }
}
