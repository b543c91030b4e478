/**
 The scheduler's pending queue: missions, the order in which they are dispatched, and the stable sort
 that keeps the vector in that order after every `push_back`.
 */
module MissionQueue {

  /** A goal pose; the scheduler only carries it along. */
  datatype Pose = Pose(frame: string, x: real, y: real, yaw: real)

  /** A pending mission. `id` is the counter value behind the text "mission-<id>". */
  datatype Mission = Mission(
    id: nat, kind: string, priority: int, sequence: nat,
    target: Pose, hasTarget: bool, attempts: nat)

  /** The comparator of the queue: higher priority first, then older sequence number. */
  predicate Before(a: Mission, b: Mission) {
    if a.priority != b.priority then a.priority > b.priority else a.sequence < b.sequence
  }

  /** What a sort promises: nothing later belongs strictly before something earlier. */
  predicate Sorted(q: seq<Mission>) {
    forall i, j :: 0 <= i < j < |q| ==> !Before(q[j], q[i])
  }

  /** Strict order: every mission belongs before every later one. */
  predicate Ordered(q: seq<Mission>) {
    forall i, j :: 0 <= i < j < |q| ==> Before(q[i], q[j])
  }

  /** The first position whose mission `m` must precede. */
  function Slot(q: seq<Mission>, m: Mission): (p: nat)
    ensures p <= |q|
    ensures forall i :: 0 <= i < p ==> !Before(m, q[i])
    ensures p < |q| ==> Before(m, q[p])
  {
    if q == [] || Before(m, q[0]) then 0 else 1 + Slot(q[1..], m)
  }

  function Insert(q: seq<Mission>, m: Mission): seq<Mission> {
    q[..Slot(q, m)] + [m] + q[Slot(q, m)..]
  }

  /** `std::stable_sort` with the comparator `Before`, as an insertion sort. */
  function StableSort(q: seq<Mission>): (r: seq<Mission>)
    ensures |r| == |q|
  {
    if q == [] then [] else Insert(StableSort(q[..|q| - 1]), q[|q| - 1])
  }

  /** Missions the comparator cannot tell apart, in the order in which they stand. */
  function Ties(q: seq<Mission>, m: Mission): seq<Mission> {
    if q == [] then []
    else (if !Before(q[0], m) && !Before(m, q[0]) then [q[0]] else []) + Ties(q[1..], m)
  }

  lemma InsertPermutes(q: seq<Mission>, m: Mission)
    ensures multiset(Insert(q, m)) == multiset(q) + multiset{m}
  {
    assert q == q[..Slot(q, m)] + q[Slot(q, m)..];
  }

  lemma BehindSlot(s: seq<Mission>, x: Mission)
    requires Sorted(s)
    ensures forall i :: Slot(s, x) <= i < |s| ==> Before(x, s[i])
  {
    var p := Slot(s, x);
    forall i | p <= i < |s| ensures Before(x, s[i]) {
      assert i == p || !Before(s[i], s[p]);
    }
  }

  lemma InsertKeepsSorted(q: seq<Mission>, m: Mission)
    requires Sorted(q)
    ensures Sorted(Insert(q, m))
  {
    var p, r := Slot(q, m), Insert(q, m);
    BehindSlot(q, m);
    forall i, j | 0 <= i < j < |r| ensures !Before(r[j], r[i]) {
      assert r[i] == if i < p then q[i] else if i == p then m else q[i - 1];
      assert r[j] == if j < p then q[j] else if j == p then m else q[j - 1];
    }
  }

  lemma {:induction false} StableSortSorts(q: seq<Mission>)
    ensures Sorted(StableSort(q))
    ensures multiset(StableSort(q)) == multiset(q)
  {
    if q != [] {
      var n := |q| - 1;
      StableSortSorts(q[..n]);
      InsertKeepsSorted(StableSort(q[..n]), q[n]);
      InsertPermutes(StableSort(q[..n]), q[n]);
      assert q == q[..n] + [q[n]];
    }
  }

  lemma {:induction false} TiesSplit(a: seq<Mission>, b: seq<Mission>, m: Mission)
    ensures Ties(a + b, m) == Ties(a, m) + Ties(b, m)
  {
    hide Before;
    if a == [] {
      assert a + b == b;
    } else {
      TiesSplit(a[1..], b, m);
      assert (a + b)[1..] == a[1..] + b && (a + b)[0] == a[0];
    }
  }

  lemma {:induction false} NoTies(q: seq<Mission>, m: Mission)
    requires forall i :: 0 <= i < |q| ==> Before(m, q[i])
    ensures Ties(q, m) == []
  {
    if q != [] {
      forall i | 0 <= i < |q[1..]| ensures Before(m, q[1..][i]) {
        assert q[1..][i] == q[i + 1];
      }
      NoTies(q[1..], m);
    }
  }

  /** Inserting behind everything it ties with puts the newcomer last among its ties. */
  lemma TiesOfInsert(s: seq<Mission>, x: Mission, m: Mission)
    requires Sorted(s)
    ensures Ties(Insert(s, x), m) == Ties(s, m) + Ties([x], m)
  {
    hide Before, Slot, Sorted;
    var p := Slot(s, x);
    var front, back := s[..p], s[p..];
    assert s == front + back;
    TiesSplit(front, back, m);
    TiesSplit(front + [x], back, m);
    TiesSplit(front, [x], m);
    if !Before(x, m) && !Before(m, x) {
      BehindSlot(s, x);
      forall i | 0 <= i < |back| ensures Before(m, back[i]) {
        TieIsBefore(x, m, back[i]);
      }
      NoTies(back, m);
    } else {
      assert [x][1..] == [];
    }
  }

  lemma TieIsBefore(x: Mission, m: Mission, b: Mission)
    requires !Before(x, m) && !Before(m, x) && Before(x, b)
    ensures Before(m, b)
  {
  }

  lemma SortLast(q: seq<Mission>)
    ensures q == [] ==> StableSort(q) == q
    ensures q != [] ==> StableSort(q) == Insert(StableSort(q[..|q| - 1]), q[|q| - 1])
  {
  }

  /** Stability: missions that tie keep their relative order. */
  lemma {:induction false} StableSortIsStable(q: seq<Mission>, m: Mission)
    ensures Ties(StableSort(q), m) == Ties(q, m)
  {
    hide Insert, Ties, Sorted, StableSort;
    SortLast(q);
    if q != [] {
      var n := |q| - 1;
      StableSortIsStable(q[..n], m);
      StableSortSorts(q[..n]);
      TiesOfInsert(StableSort(q[..n]), q[n], m);
      TiesSplit(q[..n], [q[n]], m);
      assert q == q[..n] + [q[n]];
    }
  }

  lemma SameHead(a: seq<Mission>, b: seq<Mission>)
    requires Ordered(a) && Sorted(b)
    requires multiset(a) == multiset(b) && a != [] && b != []
    ensures a[0] == b[0]
  {
    assert a[0] in multiset(b) && b[0] in multiset(a);
    var i :| 0 <= i < |a| && a[i] == b[0];
    var j :| 0 <= j < |b| && b[j] == a[0];
    assert !Before(b[j], b[0]);
  }

  /** Only one arrangement of strictly ordered missions is sorted. */
  lemma {:induction false} OrderedIsUnique(a: seq<Mission>, b: seq<Mission>)
    requires Ordered(a) && Sorted(b)
    requires multiset(a) == multiset(b)
    ensures a == b
  {
    assert |a| == |multiset(a)| == |multiset(b)| == |b|;
    if a != [] {
      SameHead(a, b);
      assert a == [a[0]] + a[1..] && b == [b[0]] + b[1..];
      assert multiset(a[1..]) == multiset(a) - multiset{a[0]};
      assert multiset(b[1..]) == multiset(b) - multiset{b[0]};
      OrderedIsUnique(a[1..], b[1..]);
    }
  }

  lemma InsertIsOrdered(q: seq<Mission>, m: Mission)
    requires Ordered(q)
    requires forall i :: 0 <= i < |q| ==> q[i].sequence < m.sequence
    ensures Ordered(Insert(q, m))
    ensures forall i :: 0 <= i < Slot(q, m) ==> q[i].priority >= m.priority
    ensures forall i :: Slot(q, m) <= i < |q| ==> q[i].priority < m.priority
  {
    var p, s := Slot(q, m), Insert(q, m);
    forall i | p <= i < |q| ensures q[i].priority < m.priority {
      assert i == p || Before(q[p], q[i]);
    }
    forall i, j | 0 <= i < j < |s| ensures Before(s[i], s[j]) {
      assert s[i] == if i < p then q[i] else if i == p then m else q[i - 1];
      assert s[j] == if j < p then q[j] else if j == p then m else q[j - 1];
    }
  }

  /**
   Pushing a mission with a fresh, largest sequence number and stably sorting is ordered insertion: the
   newcomer goes behind everything of its own or a higher priority, and nothing else moves. Any sorted
   rearrangement whatever gives that same queue.
   */
  lemma PushThenSort(q: seq<Mission>, m: Mission)
    requires Ordered(q)
    requires forall i :: 0 <= i < |q| ==> q[i].sequence < m.sequence
    ensures StableSort(q + [m]) == Insert(q, m)
    ensures Ordered(Insert(q, m))
    ensures forall i :: 0 <= i < Slot(q, m) ==> q[i].priority >= m.priority
    ensures forall i :: Slot(q, m) <= i < |q| ==> q[i].priority < m.priority
    ensures forall r :: Sorted(r) && multiset(r) == multiset(q + [m]) ==> r == Insert(q, m)
  {
    InsertIsOrdered(q, m);
    InsertPermutes(q, m);
    forall r | Sorted(r) && multiset(r) == multiset(q + [m]) ensures r == Insert(q, m) {
      OrderedIsUnique(Insert(q, m), r);
    }
    StableSortSorts(q + [m]);
  }
}
