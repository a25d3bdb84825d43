/**
 The open-addressing table that maps order numbers to resting orders: linear probing
 with backward-shift deletion, over an arbitrary hash function.
 */
module OrderTable {
  import opened Types

  datatype OrderRecord = OrderRecord(orderNo: int, price: int, qty: int, side: Side)

  datatype Slot = Slot(rec: OrderRecord, occupied: bool)

  /** The slot after `i` on the circular walk; the mask of the source is a power of two less one. */
  function Succ(i: nat, n: nat): (r: nat)
    requires i < n
    ensures r < n && r == if i + 1 == n then 0 else i + 1
  {
    (i + 1) % n
  }

  /** `j` is visited by the circular walk that starts at `a` and stops just before `b`. */
  predicate OnWalk(a: nat, j: nat, b: nat) {
    if a <= b then a <= j < b else a <= j || j < b
  }

  /** Number of steps of the circular walk from `a` to `b`. */
  function Distance(a: nat, b: nat, n: nat): (d: int)
    requires a < n && b < n
    ensures 0 <= d < n
  {
    if a <= b then b - a else b - a + n
  }

  /** A record is reachable when probing from its home slot meets no free slot before it. */
  ghost predicate Reachable(s: seq<Slot>, home: int -> nat, i: nat)
    requires i < |s|
  {
    forall j: nat :: j < |s| && OnWalk(home(s[i].rec.orderNo), j, i) ==> s[j].occupied
  }

  ghost predicate UniqueKeys(s: seq<Slot>) {
    forall i: nat, j: nat ::
      i < |s| && j < |s| && s[i].occupied && s[j].occupied && s[i].rec.orderNo == s[j].rec.orderNo ==> i == j
  }

  ghost predicate WellFormed(s: seq<Slot>, home: int -> nat) {
    && UniqueKeys(s)
    && (forall i: nat :: i < |s| && s[i].occupied ==> Reachable(s, home, i))
  }

  ghost predicate Holds(s: seq<Slot>, rec: OrderRecord) {
    exists i: nat :: i < |s| && s[i].occupied && s[i].rec == rec
  }

  /** The occupied slots are exactly the graph of the map `m`. */
  ghost predicate Represents(s: seq<Slot>, m: map<int, OrderRecord>) {
    && (forall i: nat :: i < |s| && s[i].occupied ==> s[i].rec.orderNo in m && m[s[i].rec.orderNo] == s[i].rec)
    && (forall k :: k in m ==> m[k].orderNo == k && Holds(s, m[k]))
  }

  /** Everything a table with slots `s` must satisfy to stand for the map `m`. */
  ghost predicate TableFor(s: seq<Slot>, home: int -> nat, m: map<int, OrderRecord>) {
    && (forall k: int :: home(k) < |s|)
    && WellFormed(s, home)
    && Represents(s, m)
  }

  /** Probing from home can stop at the first free slot: the key is nowhere in the table. */
  lemma AbsentBeyondFreeSlot(s: seq<Slot>, home: int -> nat, k: int, free: nat)
    requires forall x: int :: home(x) < |s|
    requires WellFormed(s, home)
    requires free < |s| && !s[free].occupied
    requires forall j: nat :: j < |s| && OnWalk(home(k), j, free) ==> s[j].rec.orderNo != k
    ensures forall i: nat :: i < |s| && s[i].occupied ==> s[i].rec.orderNo != k
  {
    forall i: nat | i < |s| && s[i].occupied
      ensures s[i].rec.orderNo != k
    {
      assert Reachable(s, home, i);
    }
  }

  // ----- Pigeonhole: the table is full exactly when it tracks `capacity` orders -----

  ghost function KeysBelow(s: seq<Slot>, n: nat): set<int>
    requires n <= |s|
  {
    if n == 0 then {} else KeysBelow(s, n - 1) + if s[n - 1].occupied then {s[n - 1].rec.orderNo} else {}
  }

  function OccupiedBelow(s: seq<Slot>, n: nat): nat
    requires n <= |s|
  {
    if n == 0 then 0 else OccupiedBelow(s, n - 1) + if s[n - 1].occupied then 1 else 0
  }

  ghost predicate AllOccupied(s: seq<Slot>, n: nat)
    requires n <= |s|
  {
    forall i: nat :: i < n ==> s[i].occupied
  }

  ghost predicate Full(s: seq<Slot>) { AllOccupied(s, |s|) }

  lemma {:induction false} KeyBelow(s: seq<Slot>, n: nat, i: nat)
    requires i < n <= |s| && s[i].occupied
    ensures s[i].rec.orderNo in KeysBelow(s, n)
  {
    if i < n - 1 {
      KeyBelow(s, n - 1, i);
    }
  }

  lemma {:induction false} KeyFromBelow(s: seq<Slot>, n: nat, k: int) returns (i: nat)
    requires n <= |s| && k in KeysBelow(s, n)
    ensures i < n && s[i].occupied && s[i].rec.orderNo == k
  {
    if s[n - 1].occupied && s[n - 1].rec.orderNo == k {
      i := n - 1;
    } else {
      i := KeyFromBelow(s, n - 1, k);
    }
  }

  lemma {:induction false} KeyIsNew(s: seq<Slot>, n: nat)
    requires UniqueKeys(s) && n < |s| && s[n].occupied
    ensures s[n].rec.orderNo !in KeysBelow(s, n)
  {
    if s[n].rec.orderNo in KeysBelow(s, n) {
      var i := KeyFromBelow(s, n, s[n].rec.orderNo);
    }
  }

  /** Every occupied slot adds a key of its own. */
  lemma {:induction false} KeysBelowSize(s: seq<Slot>, n: nat)
    requires n <= |s| && UniqueKeys(s)
    ensures |KeysBelow(s, n)| == OccupiedBelow(s, n)
  {
    if n > 0 {
      KeysBelowSize(s, n - 1);
      var last := s[n - 1];
      if last.occupied {
        KeyIsNew(s, n - 1);
        SizeWithNew(KeysBelow(s, n - 1), last.rec.orderNo);
      }
    }
  }

  lemma SizeWithNew(a: set<int>, x: int)
    requires x !in a
    ensures |a + {x}| == |a| + 1
  {
  }

  lemma SubsetSize(a: set<int>, b: set<int>)
    requires a <= b
    ensures |a| <= |b|
  {
    assert b == a + (b - a);
  }

  lemma {:induction false} OccupiedBelowBound(s: seq<Slot>, n: nat)
    requires n <= |s|
    ensures OccupiedBelow(s, n) <= n
    ensures OccupiedBelow(s, n) == n <==> AllOccupied(s, n)
  {
    if n > 0 {
      OccupiedBelowBound(s, n - 1);
    }
  }

  lemma FullIffAtCapacity(s: seq<Slot>, home: int -> nat, m: map<int, OrderRecord>)
    requires TableFor(s, home, m)
    ensures |m| <= |s|
    ensures Full(s) <==> |m| == |s|
  {
    KeysBelowSize(s, |s|);
    OccupiedBelowBound(s, |s|);
    assert KeysBelow(s, |s|) == m.Keys by {
      forall k | k in m.Keys
        ensures k in KeysBelow(s, |s|)
      {
        assert Holds(s, m[k]);
        var i: nat :| i < |s| && s[i].occupied && s[i].rec == m[k];
        KeyBelow(s, |s|, i);
      }
      forall k | k in KeysBelow(s, |s|)
        ensures k in m.Keys
      {
        var i := KeyFromBelow(s, |s|, k);
      }
    }
  }

  // ----- Insertion -----

  /** Writing a new key into the first free slot met by probing keeps the table well formed. */
  lemma InsertAtFreeSlot(s: seq<Slot>, home: int -> nat, m: map<int, OrderRecord>, rec: OrderRecord, free: nat)
    requires TableFor(s, home, m)
    requires free < |s| && !s[free].occupied
    requires forall j: nat :: j < |s| && OnWalk(home(rec.orderNo), j, free) ==>
      s[j].occupied && s[j].rec.orderNo != rec.orderNo
    ensures TableFor(s[free := Slot(rec, true)], home, m[rec.orderNo := rec])
  {
    AbsentBeyondFreeSlot(s, home, rec.orderNo, free);
    var t := s[free := Slot(rec, true)];
    var m' := m[rec.orderNo := rec];
    forall i: nat | i < |t| && t[i].occupied
      ensures Reachable(t, home, i)
    {
      assert i != free ==> Reachable(s, home, i);
    }
    forall k | k in m'
      ensures m'[k].orderNo == k && Holds(t, m'[k])
    {
      if k == rec.orderNo {
        assert t[free].rec == rec;
      } else {
        var i: nat :| i < |s| && s[i].occupied && s[i].rec == m[k];
        assert t[i] == s[i];
      }
    }
  }

  /** Overwriting the record of a key in place keeps the table well formed. */
  lemma OverwriteInPlace(s: seq<Slot>, home: int -> nat, m: map<int, OrderRecord>, rec: OrderRecord, at: nat)
    requires TableFor(s, home, m)
    requires at < |s| && s[at].occupied && s[at].rec.orderNo == rec.orderNo
    ensures TableFor(s[at := Slot(rec, true)], home, m[rec.orderNo := rec])
  {
    var t := s[at := Slot(rec, true)];
    var m' := m[rec.orderNo := rec];
    forall i: nat | i < |t| && t[i].occupied
      ensures Reachable(t, home, i)
    {
      assert Reachable(s, home, i);
    }
    forall k | k in m'
      ensures m'[k].orderNo == k && Holds(t, m'[k])
    {
      if k == rec.orderNo {
        assert t[at].rec == rec;
      } else {
        var i: nat :| i < |s| && s[i].occupied && s[i].rec == m[k];
        assert t[i] == s[i];
      }
    }
  }

  /** The first free slot that probing from `start` meets in a table that is not full. */
  lemma FirstFreeSlot(s: seq<Slot>, start: nat) returns (free: nat)
    requires start < |s| && !Full(s)
    ensures free < |s| && !s[free].occupied
    ensures forall j: nat :: j < |s| && OnWalk(start, j, free) ==> s[j].occupied
  {
    var n := |s|;
    var open: nat :| open < n && !s[open].occupied;
    free := start;
    while s[free].occupied
      invariant free < n && Distance(start, free, n) + Distance(free, open, n) == Distance(start, open, n)
      invariant forall j: nat :: j < n && OnWalk(start, j, free) ==> s[j].occupied
      decreases Distance(free, open, n)
    {
      free := Succ(free, n);
    }
  }

  /** Any orders that fit have a table, whatever the hash. */
  lemma {:induction false} TableExists(home: int -> nat, m: map<int, OrderRecord>, n: nat) returns (s: seq<Slot>)
    requires (forall k: int :: home(k) < n) && |m| <= n
    requires forall k :: k in m ==> m[k].orderNo == k
    ensures |s| == n && TableFor(s, home, m)
    decreases |m|
  {
    if k :| k in m {
      var rest := TableExists(home, m - {k}, n);
      FullIffAtCapacity(rest, home, m - {k});
      var free := FirstFreeSlot(rest, home(k));
      assert forall j: nat :: j < |rest| && rest[j].occupied ==> rest[j].rec.orderNo in m - {k};
      InsertAtFreeSlot(rest, home, m - {k}, m[k], free);
      s := rest[free := Slot(m[k], true)];
      assert (m - {k})[k := m[k]] == m;
    } else {
      s := seq(n, _ => Slot(OrderRecord(0, 0, 0, Buy), false));
    }
  }

  // ----- Backward-shift deletion -----

  /**
   The state of the shifting loop. The slot `hole` still carries its flag but counts as
   vacant: all other slots stand for `m`, and every record between the hole and `next`
   can be reached without crossing the hole.
   */
  ghost predicate Shifting(s: seq<Slot>, home: int -> nat, hole: nat, next: nat, m: map<int, OrderRecord>) {
    && (forall k: int :: home(k) < |s|)
    && hole < |s| && next < |s| && hole != next
    && (forall j: nat :: j < |s| && OnWalk(hole, j, next) ==> s[j].occupied)
    && (forall i: nat :: i < |s| && i != hole && s[i].occupied ==> Reachable(s, home, i))
    && (forall i: nat :: i < |s| && i != hole && OnWalk(hole, i, next) ==> !OnWalk(home(s[i].rec.orderNo), hole, i))
    && UniqueKeys(Vacated(s, hole)) && Represents(Vacated(s, hole), m)
  }

  ghost function Vacated(s: seq<Slot>, hole: nat): seq<Slot>
    requires hole < |s|
  {
    s[hole := Slot(s[hole].rec, false)]
  }

  /** The test of the source: may the record at `next`, with home slot `home`, fill the hole? */
  predicate CanMove(hole: nat, next: nat, home: nat) {
    if hole <= next then !(hole < home && home <= next) else !(hole < home || home <= next)
  }

  lemma StartShifting(s: seq<Slot>, home: int -> nat, m: map<int, OrderRecord>, found: nat)
    requires TableFor(s, home, m)
    requires found < |s| && s[found].occupied && Succ(found, |s|) != found
    ensures Shifting(s, home, found, Succ(found, |s|), m - {s[found].rec.orderNo})
  {
    var t := Vacated(s, found);
    var m' := m - {s[found].rec.orderNo};
    forall k | k in m'
      ensures m'[k].orderNo == k && Holds(t, m'[k])
    {
      var i: nat :| i < |s| && s[i].occupied && s[i].rec == m[k];
      assert t[i] == s[i];
    }
    assert Represents(t, m');
  }

  /** Moving a record into the hole changes where it stands, not what the other slots hold. */
  lemma MoveKeepsRecords(s: seq<Slot>, hole: nat, next: nat, m: map<int, OrderRecord>)
    requires hole < |s| && next < |s| && hole != next && s[next].occupied
    requires UniqueKeys(Vacated(s, hole)) && Represents(Vacated(s, hole), m)
    ensures var t := s[hole := s[next]]; UniqueKeys(Vacated(t, next)) && Represents(Vacated(t, next), m)
  {
    var v, w := Vacated(s, hole), Vacated(s[hole := s[next]], next);
    forall k | k in m
      ensures m[k].orderNo == k && Holds(w, m[k])
    {
      var i: nat :| i < |v| && v[i].occupied && v[i].rec == m[k];
      assert w[if i == next then hole else i] == v[i];
    }
    forall i: nat, j: nat | i < |w| && j < |w| && w[i].occupied && w[j].occupied && w[i].rec.orderNo == w[j].rec.orderNo
      ensures i == j
    {
      assert v[if i == hole then next else i] == w[i];
      assert v[if j == hole then next else j] == w[j];
    }
    forall i: nat | i < |w| && w[i].occupied
      ensures w[i].rec.orderNo in m && m[w[i].rec.orderNo] == w[i].rec
    {
      assert v[if i == hole then next else i] == w[i];
    }
  }

  /** One iteration that moves the record at `next` into the hole. */
  lemma ShiftMoves(s: seq<Slot>, home: int -> nat, hole: nat, next: nat, m: map<int, OrderRecord>)
    requires Shifting(s, home, hole, next, m)
    requires s[next].occupied && CanMove(hole, next, home(s[next].rec.orderNo))
    requires Succ(next, |s|) != next
    ensures Shifting(s[hole := s[next]], home, next, Succ(next, |s|), m)
  {
    var t := s[hole := s[next]];
    forall i: nat | i < |t| && i != next && t[i].occupied
      ensures Reachable(t, home, i)
    {
      assert i != hole ==> Reachable(s, home, i);
      assert Reachable(s, home, next);
    }
    MoveKeepsRecords(s, hole, next, m);
  }

  /** One iteration that leaves the record at `next` where it is. */
  lemma ShiftSkips(s: seq<Slot>, home: int -> nat, hole: nat, next: nat, m: map<int, OrderRecord>)
    requires Shifting(s, home, hole, next, m)
    requires s[next].occupied && !CanMove(hole, next, home(s[next].rec.orderNo))
    requires Succ(next, |s|) != hole
    ensures Shifting(s, home, hole, Succ(next, |s|), m)
  {
  }

  /** Once the walk meets a free slot the hole can be freed: no probe sequence crosses it. */
  lemma StopShifting(s: seq<Slot>, home: int -> nat, hole: nat, next: nat, m: map<int, OrderRecord>)
    requires Shifting(s, home, hole, next, m)
    requires !s[next].occupied
    ensures TableFor(Vacated(s, hole), home, m)
  {
    var t := Vacated(s, hole);
    forall i: nat | i < |t| && t[i].occupied
      ensures Reachable(t, home, i)
    {
      assert Reachable(s, home, i);
    }
  }

  // ----- When the shifting loop stops -----

  /** The variables of the shifting loop. */
  datatype Shift = Shift(s: seq<Slot>, hole: nat, next: nat)

  ghost predicate ShiftOk(x: Shift) {
    x.hole < |x.s| && x.next < |x.s| && x.s[x.hole].occupied
  }

  /** One turn of the loop: guard and body. A stopped loop stays as it is. */
  ghost function ShiftStep(x: Shift, home: int -> nat): (y: Shift)
    requires ShiftOk(x)
    ensures ShiftOk(y) && |y.s| == |x.s|
    ensures forall i: nat :: i < |x.s| ==> y.s[i].occupied == x.s[i].occupied
  {
    if !x.s[x.next].occupied then x
    else if CanMove(x.hole, x.next, home(x.s[x.next].rec.orderNo)) then
      Shift(x.s[x.hole := x.s[x.next]], x.next, Succ(x.next, |x.s|))
    else x.(next := Succ(x.next, |x.s|))
  }

  ghost function ShiftSteps(x: Shift, home: int -> nat, k: nat): (y: Shift)
    requires ShiftOk(x)
    ensures ShiftOk(y) && |y.s| == |x.s|
    ensures forall i: nat :: i < |x.s| ==> y.s[i].occupied == x.s[i].occupied
  {
    if k == 0 then x else ShiftStep(ShiftSteps(x, home, k - 1), home)
  }

  ghost predicate StopsAfter(x: Shift, home: int -> nat, k: nat)
    requires ShiftOk(x)
  {
    var y := ShiftSteps(x, home, k);
    !y.s[y.next].occupied
  }

  lemma {:induction false} WalkReachesFreeSlot(x: Shift, home: int -> nat, k: nat, free: nat)
    requires ShiftOk(x) && free < |x.s| && !x.s[free].occupied
    requires k <= Distance(x.next, free, |x.s|)
    ensures StopsAfter(x, home, k) ||
      Distance(ShiftSteps(x, home, k).next, free, |x.s|) == Distance(x.next, free, |x.s|) - k
  {
    if k > 0 {
      WalkReachesFreeSlot(x, home, k - 1, free);
    }
  }

  lemma NeverStopsWhenFull(x: Shift, home: int -> nat, k: nat)
    requires ShiftOk(x) && Full(x.s)
    ensures !StopsAfter(x, home, k)
  {
    var y := ShiftSteps(x, home, k);
    assert x.s[y.next].occupied;
  }

  /** The loop stops if and only if some slot is free: on a full table an erase never returns. */
  lemma ShiftStopsIffNotFull(x: Shift, home: int -> nat)
    requires ShiftOk(x)
    ensures (exists k: nat :: StopsAfter(x, home, k)) <==> !Full(x.s)
  {
    if !Full(x.s) {
      var free: nat :| free < |x.s| && !x.s[free].occupied;
      var d := Distance(x.next, free, |x.s|);
      WalkReachesFreeSlot(x, home, d, free);
      assert StopsAfter(x, home, d);
    } else {
      forall k: nat
        ensures !StopsAfter(x, home, k)
      {
        NeverStopsWhenFull(x, home, k);
      }
    }
  }

  /** Erasing the record in slot `found` returns exactly when the table holds fewer keys than slots. */
  lemma EraseReturnsIff(s: seq<Slot>, home: int -> nat, m: map<int, OrderRecord>, found: nat)
    requires TableFor(s, home, m) && found < |s| && s[found].occupied
    ensures (exists k: nat :: StopsAfter(Shift(s, found, Succ(found, |s|)), home, k)) <==> |m| < |s|
  {
    FullIffAtCapacity(s, home, m);
    ShiftStopsIffNotFull(Shift(s, found, Succ(found, |s|)), home);
  }

  /** Key `k` is in the table and the shifting loop that its erase starts never stops. */
  ghost predicate EraseHangs(s: seq<Slot>, home: int -> nat, k: int) {
    exists found: nat :: found < |s| && HangsFrom(s, home, k, found)
  }

  ghost predicate HangsFrom(s: seq<Slot>, home: int -> nat, k: int, found: nat)
    requires found < |s|
  {
    && s[found].occupied && s[found].rec.orderNo == k
    && forall n: nat :: !StopsAfter(Shift(s, found, Succ(found, |s|)), home, n)
  }

  lemma EraseHangsIff(s: seq<Slot>, home: int -> nat, m: map<int, OrderRecord>, k: int)
    requires TableFor(s, home, m)
    ensures EraseHangs(s, home, k) <==> k in m && |m| == |s|
  {
    FullIffAtCapacity(s, home, m);
    if k in m {
      assert Holds(s, m[k]);
      var found: nat :| found < |s| && s[found].occupied && s[found].rec == m[k];
      EraseReturnsIff(s, home, m, found);
      assert |m| == |s| ==> HangsFrom(s, home, k, found);
    }
    if EraseHangs(s, home, k) {
      var found: nat :| found < |s| && HangsFrom(s, home, k, found);
      EraseReturnsIff(s, home, m, found);
    }
  }

  /** Any turn of the loop keeps its invariant and comes one step closer to the free slot. */
  lemma ShiftTurn(x: Shift, home: int -> nat, m: map<int, OrderRecord>, free: nat)
    requires Shifting(x.s, home, x.hole, x.next, m)
    requires x.s[x.next].occupied
    requires free < |x.s| && !x.s[free].occupied
    ensures ShiftOk(x)
    ensures var y := ShiftStep(x, home);
      && Shifting(y.s, home, y.hole, y.next, m)
      && Distance(y.next, free, |x.s|) < Distance(x.next, free, |x.s|)
  {
    if CanMove(x.hole, x.next, home(x.s[x.next].rec.orderNo)) {
      ShiftMoves(x.s, home, x.hole, x.next, m);
    } else {
      ShiftSkips(x.s, home, x.hole, x.next, m);
    }
  }

  class OrderTable {
    const capacity: nat
    const hash: int -> nat
    const slots: array<Slot>
    ghost var contents: map<int, OrderRecord>

    ghost predicate Valid()
      reads this, slots
    {
      && slots.Length == capacity
      && TableFor(slots[..], hash, contents)
    }

    /** A power-of-two capacity is all the source offers; any positive one works here. */
    constructor (capacity: nat, hash: int -> nat)
      requires capacity > 0
      requires forall k: int :: hash(k) < capacity
      ensures Valid() && fresh(slots)
      ensures this.capacity == capacity && this.hash == hash && contents == map[]
    {
      this.capacity := capacity;
      this.hash := hash;
      slots := new Slot[capacity](_ => Slot(OrderRecord(0, 0, 0, Buy), false));
      contents := map[];
    }

    /** FindOrder: the slot of the record, or None exactly when the order is not tracked. */
    method FindOrder(orderNo: int) returns (r: Option<nat>)
      requires Valid()
      ensures r.Some? <==> orderNo in contents
      ensures r.Some? ==>
        && r.value < slots.Length && slots[r.value].occupied
        && slots[r.value].rec == contents[orderNo] && contents[orderNo].orderNo == orderNo
    {
      var home := hash(orderNo);
      var idx := home;
      for probe := 0 to capacity
        invariant idx < capacity
        invariant idx == if home + probe < capacity then home + probe else home + probe - capacity
        invariant forall j: nat :: j < capacity && probe < capacity && OnWalk(home, j, idx) ==>
          slots[j].occupied && slots[j].rec.orderNo != orderNo
        invariant probe == capacity ==> forall j: nat :: j < capacity ==> slots[j].rec.orderNo != orderNo
      {
        if !slots[idx].occupied {
          AbsentBeyondFreeSlot(slots[..], hash, orderNo, idx);
          return None;
        }
        if slots[idx].rec.orderNo == orderNo {
          return Some(idx);
        }
        idx := Succ(idx, capacity);
      }
      return None;
    }

    /** InsertOrder: adds or overwrites; fails only on a full table that lacks the key. */
    method InsertOrder(rec: OrderRecord) returns (ok: bool)
      requires Valid()
      modifies slots, this`contents
      ensures Valid()
      ensures ok <==> rec.orderNo in old(contents) || |old(contents)| < capacity
      ensures contents == if ok then old(contents)[rec.orderNo := rec] else old(contents)
    {
      FullIffAtCapacity(slots[..], hash, contents);
      var home := hash(rec.orderNo);
      var idx := home;
      for probe := 0 to capacity
        invariant slots[..] == old(slots[..]) && contents == old(contents)
        invariant idx < capacity
        invariant idx == if home + probe < capacity then home + probe else home + probe - capacity
        invariant forall j: nat :: j < capacity && probe < capacity && OnWalk(home, j, idx) ==>
          slots[j].occupied && slots[j].rec.orderNo != rec.orderNo
        invariant probe == capacity ==> forall j: nat :: j < capacity ==>
          slots[j].occupied && slots[j].rec.orderNo != rec.orderNo
      {
        if !slots[idx].occupied {
          InsertAtFreeSlot(slots[..], hash, contents, rec, idx);
          slots[idx] := Slot(rec, true);
          contents := contents[rec.orderNo := rec];
          assert slots[..] == old(slots[..])[idx := Slot(rec, true)];
          return true;
        }
        if slots[idx].rec.orderNo == rec.orderNo {
          OverwriteInPlace(slots[..], hash, contents, rec, idx);
          slots[idx] := Slot(rec, true);
          contents := contents[rec.orderNo := rec];
          assert slots[..] == old(slots[..])[idx := Slot(rec, true)];
          return true;
        }
        idx := Succ(idx, capacity);
      }
      return false;
    }

    /** Writing the record that FindOrder located. */
    method Overwrite(at: nat, rec: OrderRecord)
      requires Valid()
      requires at < slots.Length && slots[at].occupied && slots[at].rec.orderNo == rec.orderNo
      modifies slots, this`contents
      ensures Valid()
      ensures contents == old(contents)[rec.orderNo := rec]
    {
      OverwriteInPlace(slots[..], hash, contents, rec, at);
      slots[at] := Slot(rec, true);
      contents := contents[rec.orderNo := rec];
      assert slots[..] == old(slots[..])[at := Slot(rec, true)];
    }

    /**
     EraseOrder: removes exactly one key, located by the same probe as FindOrder. The shifting
     loop only stops at a free slot (EraseReturnsIff), so a tracked order can be erased only
     while the table is not full.
     */
    method EraseOrder(orderNo: int)
      requires Valid()
      requires orderNo in contents ==> |contents| < capacity
      modifies slots, this`contents
      ensures Valid()
      ensures contents == old(contents) - {orderNo}
    {
      var found := FindOrder(orderNo);
      if found.None? {
        assert contents - {orderNo} == contents;
        return;
      }
      FullIffAtCapacity(slots[..], hash, contents);
      ghost var free: nat :| free < capacity && !slots[free].occupied;
      var hole: nat := found.value;
      var next: nat := Succ(hole, capacity);
      StartShifting(slots[..], hash, contents, hole);
      ghost var rest := contents - {orderNo};
      ghost var x := Shift(slots[..], hole, next);
      while slots[next].occupied
        invariant next < capacity && hole < capacity && x == Shift(slots[..], hole, next)
        invariant !x.s[free].occupied && Shifting(x.s, hash, x.hole, x.next, rest)
        decreases Distance(x.next, free, capacity)
      {
        ShiftTurn(x, hash, rest, free);
        var home := hash(slots[next].rec.orderNo);
        if CanMove(hole, next, home) {
          slots[hole] := slots[next];
          hole := next;
        }
        next := Succ(next, capacity);
        x := ShiftStep(x, hash);
        assert slots[..] == x.s;
      }
      StopShifting(x.s, hash, hole, next, rest);
      slots[hole] := Slot(slots[hole].rec, false);
      contents := rest;
      assert slots[..] == Vacated(x.s, hole);
    }

    /** clear(): frees every slot; the stale records stay behind. */
    method Clear()
      requires Valid()
      modifies slots, this`contents
      ensures Valid() && contents == map[]
    {
      for i := 0 to slots.Length
        invariant forall j: nat :: j < i ==> !slots[j].occupied
      {
        slots[i] := slots[i].(occupied := false);
      }
      contents := map[];
    }
  }
}
