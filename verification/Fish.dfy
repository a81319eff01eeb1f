/** The frame merger and the blink list together: what the `fish` program's screen shows
    after `add_frames` and any number of ticks (fish/fish.c, fish/blink.S). */
module Fish {
  import opened Base
  import opened Frames
  import opened Blink

  const LENGTH: word := 15

  /** The request that `add_frames` makes for a spot (fish/fish.c:86-87, 123-126). */
  function RequestFor(s: Spot): Request {
    var b := Placed(s);
    Request(b.location, b.on, b.off, LENGTH, LENGTH)
  }

  function Inserts(spots: seq<Spot>): (r: seq<Event>)
    ensures |r| == |spots|
  {
    seq(|spots|, i requires 0 <= i < |spots| => Insert(RequestFor(spots[i])))
  }

  function TickEvents(n: nat): (r: seq<Event>)
    ensures |r| == n
  {
    seq(n, i => Ticks)
  }

  /** Lines stay inside their rows, and locations inside 16 bits. */
  predicate Narrow(spots: seq<Spot>) {
    forall i :: 0 <= i < |spots| ==> spots[i].col < NUM_COLS && spots[i].row * NUM_COLS + spots[i].col + OFFSET < TWO_16
  }

  function Location(s: Spot): int {
    s.row * NUM_COLS + s.col + OFFSET
  }

  lemma LocationsGrow(spots: seq<Spot>, i: nat, j: nat)
    requires Narrow(spots) && Ordered(spots) && i < j < |spots|
    ensures Placed(spots[i]).location == Location(spots[i]) && Placed(spots[j]).location == Location(spots[j])
    ensures 0 < Location(spots[i]) < Location(spots[j])
  {
    assert Before(spots[i], spots[j]);
    if spots[i].row < spots[j].row {
      assert spots[i].row * NUM_COLS + NUM_COLS <= spots[j].row * NUM_COLS;
    }
  }

  /** Every entry lies before location `bound`, and no two at the same one. */
  predicate Below(l: List, bound: int) {
    && ListOk(l)
    && (forall i :: 0 <= i < |l.entries| ==> l.entries[i].location < bound)
    && (forall i, j :: 0 <= i < j < |l.entries| ==> l.entries[i].location != l.entries[j].location)
  }

  /** Distinct locations never fill the pool: zero is not among them. */
  lemma RoomLeft(l: List, bound: int)
    requires Below(l, bound)
    ensures |l.entries| < POOL
  {
    var places: seq<nat> := seq(|l.entries|, i requires 0 <= i < |l.entries| => l.entries[i].location);
    MembersFill(places, POOL);
    assert 0 !in places;
  }

  lemma InsertBelow(l: List, b: Request, bound: int)
    requires Below(l, b.location) && 0 < b.location < bound
    ensures Below(AddTo(l, b), bound)
  {
    var entries := AddTo(l, b).entries;
    if Accepted(l, b) {
      assert forall i :: 0 < i < |entries| ==> entries[i] == l.entries[i - 1];
    }
  }

  lemma InsertsSound(spots: seq<Spot>)
    requires Narrow(spots)
    ensures Sound(Inserts(spots))
  {
    forall i | 0 <= i < |spots|
      ensures Inserts(spots)[i].b.location != 0
    {
      assert Location(spots[i]) < TWO_16;
    }
  }

  lemma {:induction false} InsertedBelow(l: List, spots: seq<Spot>, k: nat)
    requires ListOk(l) && l.entries == [] && Narrow(spots) && Ordered(spots) && k < |spots|
    requires Sound(Inserts(spots)[..k])
    ensures Below(RunList(l, Inserts(spots)[..k]), Location(spots[k]))
  {
    if k > 0 {
      var events := Inserts(spots)[..k];
      assert events[..k - 1] == Inserts(spots)[..k - 1];
      InsertedBelow(l, spots, k - 1);
      LocationsGrow(spots, k - 1, k);
      InsertBelow(RunList(l, Inserts(spots)[..k - 1]), RequestFor(spots[k - 1]), Location(spots[k]));
    } else {
      assert Inserts(spots)[..0] == [];
    }
  }

  // ---------------------------------------------------------------------------
  // Putting the run together

  lemma {:induction false} RunConcat(l: List, a: seq<Event>, b: seq<Event>)
    requires ListOk(l) && Sound(a) && Sound(b) && Sound(a + b)
    ensures RunList(l, a + b) == RunList(RunList(l, a), b)
    decreases |b|
  {
    if b == [] {
      assert a + b == a;
    } else {
      var n := |b| - 1;
      assert (a + b)[..|a + b| - 1] == a + b[..n];
      assert forall i :: 0 <= i < n ==> b[..n][i] == b[i];
      assert forall i :: 0 <= i < |a| + n ==> (a + b[..n])[i] == (a + b)[i];
      RunConcat(l, a, b[..n]);
    }
  }

  lemma SoundConcat(a: seq<Event>, b: seq<Event>)
    requires Sound(a) && Sound(b)
    ensures Sound(a + b)
  {
  }

  lemma TicksSound(n: nat)
    ensures Sound(TickEvents(n))
  {
  }

  lemma {:induction false} CountTicks(a: seq<Event>, n: nat)
    requires forall i :: 0 <= i < |a| ==> !a[i].Ticks?
    ensures TickCount(a + TickEvents(n)) == n
    decreases |a| + n
  {
    var all := a + TickEvents(n);
    if n > 0 {
      assert all[..|all| - 1] == a + TickEvents(n - 1);
      CountTicks(a, n - 1);
    } else if a != [] {
      assert all == a && all[..|all| - 1] == a[..|a| - 1] == a[..|a| - 1] + TickEvents(0);
      CountTicks(a[..|a| - 1], 0);
    }
  }

  /** What comes after the `k`-th insertion. */
  function Later(spots: seq<Spot>, k: nat, n: nat): seq<Event>
    requires k < |spots|
  {
    Inserts(spots)[k + 1..] + TickEvents(n)
  }

  lemma LaterElsewhere(spots: seq<Spot>, k: nat, n: nat)
    requires Narrow(spots) && Ordered(spots) && k < |spots|
    ensures Sound(Later(spots, k, n)) && Elsewhere(Later(spots, k, n), Placed(spots[k]).location)
    ensures TickCount(Later(spots, k, n)) == n
  {
    var later := Later(spots, k, n);
    InsertsSound(spots);
    forall i | 0 <= i < |later| && later[i].Insert?
      ensures later[i].b.location != 0 && later[i].b.location != Placed(spots[k]).location
    {
      assert later[i] == Inserts(spots)[k + 1 + i];
      LocationsGrow(spots, k, k + 1 + i);
    }
    CountTicks(Inserts(spots)[k + 1..], n);
  }

  lemma RunSplit(l: List, spots: seq<Spot>, k: nat, n: nat)
    requires ListOk(l) && Narrow(spots) && k < |spots|
    requires Sound(Inserts(spots) + TickEvents(n)) && Sound(Inserts(spots)[..k]) && Sound(Later(spots, k, n))
    ensures Placed(spots[k]).location != 0
    ensures var before := RunList(l, Inserts(spots)[..k]);
            RunList(l, Inserts(spots) + TickEvents(n)) ==
            RunList(StepList(before, Insert(RequestFor(spots[k]))), Later(spots, k, n))
  {
    assert Location(spots[k]) < TWO_16;
    var all, first := Inserts(spots) + TickEvents(n), Inserts(spots)[..k];
    var ev, later := [Insert(RequestFor(spots[k]))], Later(spots, k, n);
    assert all == first + (ev + later);
    SoundConcat(ev, later);
    RunConcat(l, first, ev + later);
    var before := RunList(l, first);
    RunConcat(before, ev, later);
    assert ev[..0] == [];
    assert RunList(before, ev) == StepList(before, ev[0]);
  }

  lemma PrefixSound(events: seq<Event>, k: nat)
    requires Sound(events) && k <= |events|
    ensures Sound(events[..k])
  {
    assert forall i :: 0 <= i < k ==> events[..k][i] == events[i];
  }

  /** One spot, in a list of spots before it, through events elsewhere. */
  lemma SpotBlinks(before: List, s: Spot, later: seq<Event>)
    requires 0 < Location(s) < POOL && Below(before, Location(s))
    requires Sound(later) && Elsewhere(later, Placed(s).location)
    ensures RunList(AddTo(before, RequestFor(s)), later).screen[2 * Location(s)]
            == if TickCount(later) % 30 < 15 then s.on else s.off
  {
    RoomLeft(before, Location(s));
    EveryRequestBlinks(before, RequestFor(s), later);
  }

  lemma SpotShows(l: List, spots: seq<Spot>, k: nat, n: nat)
    requires ListOk(l) && l.entries == [] && Narrow(spots) && Ordered(spots) && k < |spots|
    requires Location(spots[k]) < POOL
    ensures Sound(Inserts(spots) + TickEvents(n))
    ensures RunList(l, Inserts(spots) + TickEvents(n)).screen[2 * Location(spots[k])]
            == if n % 30 < 15 then spots[k].on else spots[k].off
  {
    InsertsSound(spots);
    TicksSound(n);
    SoundConcat(Inserts(spots), TickEvents(n));
    PrefixSound(Inserts(spots), k);
    LaterElsewhere(spots, k, n);
    RunSplit(l, spots, k, n);
    InsertedBelow(l, spots, k);
    SpotBlinks(RunList(l, Inserts(spots)[..k]), spots[k], Later(spots, k, n));
  }

  /** After `add_frames` and `n` ticks, every spot on the screen shows its character of the
      first file in the first half of every 30 ticks and that of the second file in the
      other half, for any two files whose lines stay inside their rows. */
  lemma FishShows(l: List, f0: seq<byte>, f1: seq<byte>, spots: seq<Spot>, k: nat, n: nat)
    requires ListOk(l) && l.entries == [] && spots == AllSpots(f0, f1) && Narrow(spots)
    requires k < |spots| && Location(spots[k]) < POOL
    ensures Sound(Inserts(spots) + TickEvents(n))
    ensures RunList(l, Inserts(spots) + TickEvents(n)).screen[2 * Location(spots[k])]
            == if n % 30 < 15 then spots[k].on else spots[k].off
  {
    AllSpotsExact(f0, f1);
    SpotShows(l, spots, k, n);
  }

  // ---------------------------------------------------------------------------
  // Files that corrupt the list

  function Requests(spots: seq<Spot>): (r: seq<Request>)
    ensures |r| == |spots|
  {
    seq(|spots|, i requires 0 <= i < |spots| => RequestFor(spots[i]))
  }

  /** The cell of row `r`, column `c` has a 16-bit number of zero. */
  predicate WrapsToZero(r: nat, c: nat) {
    (r * NUM_COLS + c + OFFSET) % TWO_16 == 0
  }

  /** Both files are blank at every cell whose number wraps to zero. */
  ghost predicate BlankWhereZero(a: seq<seq<byte>>, b: seq<seq<byte>>) {
    forall r: nat, c: nat :: WrapsToZero(r, c) ==> Padded(a, r, c) == SPACE && Padded(b, r, c) == SPACE
  }

  /** No request is for location zero exactly when both files are blank at such cells. */
  lemma ZerosExactly(a: seq<seq<byte>>, b: seq<seq<byte>>, spots: seq<Spot>)
    requires forall s :: s in spots <==> Genuine(a, b, s)
    ensures (forall i :: 0 <= i < |spots| ==> Requests(spots)[i].location != 0) <==> BlankWhereZero(a, b)
  {
    if BlankWhereZero(a, b) {
      forall i | 0 <= i < |spots|
        ensures Requests(spots)[i].location != 0
      {
        assert Genuine(a, b, spots[i]);
        assert !WrapsToZero(spots[i].row, spots[i].col);
      }
    } else {
      var r: nat, c: nat :| WrapsToZero(r, c) && !(Padded(a, r, c) == SPACE && Padded(b, r, c) == SPACE);
      var s := Spot(r, c, Padded(a, r, c), Padded(b, r, c));
      assert Genuine(a, b, s);
      var i :| 0 <= i < |spots| && spots[i] == s;
      assert Requests(spots)[i].location == 0;
    }
  }

  lemma {:induction false} PlaceableBound(bs: seq<Request>)
    ensures Placeable(bs) <= |bs|
  {
    if bs != [] {
      PlaceableBound(bs[..|bs| - 1]);
    }
  }

  lemma FewZeros(bs: seq<Request>)
    requires |bs| <= POOL
    ensures ZerosRefused(bs) <==> forall i :: 0 <= i < |bs| ==> bs[i].location != 0
  {
    forall i | 0 <= i < |bs|
      ensures Placeable(bs[..i]) < POOL
    {
      PlaceableBound(bs[..i]);
    }
  }

  /** Exactly which files `add_frames` may be given: when they have no more spots than the
      pool has slots, the blink list is a proper list afterwards if and only if both are
      blank at every cell whose number is a multiple of 65536. */
  lemma FramesSoundExactly(f0: seq<byte>, f1: seq<byte>)
    requires |AllSpots(f0, f1)| <= POOL
    ensures var (p, h) := RawAdds(Requests(AllSpots(f0, f1)));
            (exists chain :: Linked(p, h, chain)) <==> BlankWhereZero(Split(f0), Split(f1))
  {
    AddsSoundExactly(Requests(AllSpots(f0, f1)));
    FewZeros(Requests(AllSpots(f0, f1)));
    AllSpotsExact(f0, f1);
    ZerosExactly(Split(f0), Split(f1), AllSpots(f0, f1));
  }

  /** The first such cell inside an 80-column row is in row 818, column 56. */
  lemma FirstZeroCell(r: nat, c: nat)
    requires c < NUM_COLS
    ensures WrapsToZero(818, 56)
    ensures WrapsToZero(r, c) ==> r > 818 || (r == 818 && c == 56)
  {
  }
}
