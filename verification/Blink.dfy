/** The blink list (fish/blink.S, fish/fish.c): records of a fixed pool linked in place,
    toggled by a tick. The list is proved to behave as a plain sequence with the latest
    record first, and every record to blink with exactly its own period. */
module Blink {
  import opened Base

  const POOL: int := 2000
  const NULL: int := -1

  type word = w: int | 0 <= w < 0x1_0000

  datatype Entry = Entry(
    location: word, on: byte, off: byte, onLength: word, offLength: word, countdown: word, lit: bool)

  /** A pool slot; `next` is the index of another or `NULL`. A slot is free when its
      location is zero. */
  datatype Slot = Slot(entry: Entry, next: int)

  const EMPTY: Slot := Slot(Entry(0, 0, 0, 0, 0, 0, false), NULL)

  // ---------------------------------------------------------------------------
  // The links

  /** The slot at a position of the list, `NULL` past its end. */
  function At(chain: seq<nat>, k: nat): int {
    if k < |chain| then chain[k] else NULL
  }

  /** The slots of `chain`, in that order, are the list; they are distinct, and they are
      exactly the slots in use. */
  predicate Linked(pool: seq<Slot>, head: int, chain: seq<nat>) {
    && |pool| == POOL
    && head == At(chain, 0)
    && (forall k :: 0 <= k < |chain| ==> chain[k] < POOL)
    && (forall k :: 0 <= k < |chain| ==> pool[chain[k]].next == At(chain, k + 1))
    && Distinct(chain)
    && (forall s :: 0 <= s < POOL ==> (s in chain <==> InUse(pool, s)))
  }

  function Entries(pool: seq<Slot>, chain: seq<nat>): seq<Entry>
    requires forall k :: 0 <= k < |chain| ==> chain[k] < |pool|
  {
    seq(|chain|, k requires 0 <= k < |chain| => pool[chain[k]].entry)
  }

  predicate InUse(pool: seq<Slot>, s: int)
    requires 0 <= s < |pool|
  {
    pool[s].entry.location != 0
  }

  predicate Distinct(chain: seq<nat>) {
    forall i, j :: 0 <= i < j < |chain| ==> chain[i] != chain[j]
  }

  lemma PushNext(pool: seq<Slot>, head: int, chain: seq<nat>, s: nat, e: Entry, k: nat)
    requires Linked(pool, head, chain) && s < POOL && s !in chain && k <= |chain|
    ensures var slot := pool[s := Slot(e, head)][([s] + chain)[k]];
            && slot.next == At([s] + chain, k + 1)
            && (k > 0 ==> slot == pool[chain[k - 1]])
  {
    assert At([s] + chain, k + 1) == At(chain, k);
    if k > 0 {
      assert ([s] + chain)[k] == chain[k - 1] && chain[k - 1] in chain;
    }
  }

  lemma PushDistinct(chain: seq<nat>, s: nat)
    requires Distinct(chain) && s !in chain
    ensures Distinct([s] + chain)
  {
  }

  lemma PushCovers(pool: seq<Slot>, head: int, chain: seq<nat>, s: nat, e: Entry, t: nat)
    requires Linked(pool, head, chain) && s < POOL && e.location != 0 && t < POOL
    ensures t in [s] + chain <==> InUse(pool[s := Slot(e, head)], t)
  {
    assert t in chain <==> InUse(pool, t);
  }

  lemma PushEntries(pool: seq<Slot>, head: int, chain: seq<nat>, s: nat, e: Entry)
    requires Linked(pool, head, chain) && s < POOL && s !in chain
    ensures Entries(pool[s := Slot(e, head)], [s] + chain) == [e] + Entries(pool, chain)
  {
    var pool', chain' := pool[s := Slot(e, head)], [s] + chain;
    var entries := Entries(pool', chain');
    forall k | 0 <= k < |entries|
      ensures entries[k] == ([e] + Entries(pool, chain))[k]
    {
      PushNext(pool, head, chain, s, e, k);
    }
  }

  /** Insertion at the front keeps the list linked, provided the location is not zero. */
  lemma PushLinked(pool: seq<Slot>, head: int, chain: seq<nat>, s: nat, e: Entry)
    requires Linked(pool, head, chain) && s < POOL && !InUse(pool, s) && e.location != 0
    ensures Linked(pool[s := Slot(e, head)], s, [s] + chain)
    ensures Entries(pool[s := Slot(e, head)], [s] + chain) == [e] + Entries(pool, chain)
  {
    assert s !in chain;
    var pool', chain' := pool[s := Slot(e, head)], [s] + chain;
    PushDistinct(chain, s);
    PushEntries(pool, head, chain, s, e);
    forall k | 0 <= k < |chain'|
      ensures pool'[chain'[k]].next == At(chain', k + 1)
    {
      PushNext(pool, head, chain, s, e, k);
    }
    forall t | 0 <= t < POOL
      ensures t in chain' <==> InUse(pool', t)
    {
      PushCovers(pool, head, chain, s, e, t);
    }
  }

  /** The pool after the slot at position `k` is unlinked and cleared. */
  function Unlinked(pool: seq<Slot>, chain: seq<nat>, k: nat): seq<Slot>
    requires k < |chain| && forall i :: 0 <= i < |chain| ==> chain[i] < |pool|
  {
    var next := pool[chain[k]].next;
    var relinked := if k == 0 then pool else pool[chain[k - 1] := pool[chain[k - 1]].(next := next)];
    relinked[chain[k] := EMPTY]
  }

  function Without<T>(s: seq<T>, k: nat): (r: seq<T>)
    requires k < |s|
    ensures |r| == |s| - 1
    ensures forall i :: 0 <= i < |r| ==> r[i] == s[if i < k then i else i + 1]
  {
    s[..k] + s[k + 1..]
  }

  lemma WithoutMembers(chain: seq<nat>, k: nat, s: nat)
    requires k < |chain| && Distinct(chain)
    ensures s in Without(chain, k) <==> s in chain && s != chain[k]
  {
    var rest := Without(chain, k);
    if s in chain && s != chain[k] {
      var i :| 0 <= i < |chain| && chain[i] == s;
      assert rest[if i < k then i else i - 1] == s;
    }
    if s in rest {
      var i :| 0 <= i < |rest| && rest[i] == s;
      assert s == chain[if i < k then i else i + 1];
    }
  }

  lemma UnlinkedSlots(pool: seq<Slot>, head: int, chain: seq<nat>, k: nat, s: nat)
    requires Linked(pool, head, chain) && k < |chain| && s < POOL
    ensures var slot := Unlinked(pool, chain, k)[s];
            && (s == chain[k] ==> slot == EMPTY)
            && (s != chain[k] ==> slot.entry == pool[s].entry)
            && (s != chain[k] ==> slot.next == if k > 0 && s == chain[k - 1] then pool[chain[k]].next else pool[s].next)
  {
  }

  lemma UnlinkedNext(pool: seq<Slot>, head: int, chain: seq<nat>, k: nat, i: nat)
    requires Linked(pool, head, chain) && k < |chain| && i < |chain| - 1
    ensures var slot := Unlinked(pool, chain, k)[Without(chain, k)[i]];
            slot.entry == pool[Without(chain, k)[i]].entry && slot.next == At(Without(chain, k), i + 1)
  {
    var j := if i < k then i else i + 1;
    assert Without(chain, k)[i] == chain[j];
    UnlinkedSlots(pool, head, chain, k, chain[j]);
    assert pool[chain[j]].next == At(chain, j + 1) && pool[chain[k]].next == At(chain, k + 1);
    if j + 1 == k {
      assert At(Without(chain, k), i + 1) == At(chain, k + 1);
    } else {
      assert At(Without(chain, k), i + 1) == At(chain, j + 1);
    }
  }

  lemma UnlinkedCovers(pool: seq<Slot>, head: int, chain: seq<nat>, k: nat, s: nat)
    requires Linked(pool, head, chain) && k < |chain| && s < POOL
    ensures s in Without(chain, k) <==> InUse(Unlinked(pool, chain, k), s)
  {
    WithoutMembers(chain, k, s);
    UnlinkedSlots(pool, head, chain, k, s);
    assert s in chain <==> InUse(pool, s);
  }

  lemma UnlinkedEntries(pool: seq<Slot>, head: int, chain: seq<nat>, k: nat)
    requires Linked(pool, head, chain) && k < |chain|
    ensures Entries(Unlinked(pool, chain, k), Without(chain, k)) == Without(Entries(pool, chain), k)
  {
    var entries := Entries(Unlinked(pool, chain, k), Without(chain, k));
    forall i | 0 <= i < |entries|
      ensures entries[i] == Without(Entries(pool, chain), k)[i]
    {
      UnlinkedNext(pool, head, chain, k, i);
    }
  }

  lemma UnlinkedHead(pool: seq<Slot>, head: int, chain: seq<nat>, k: nat)
    requires Linked(pool, head, chain) && k < |chain|
    ensures Distinct(Without(chain, k)) && forall i :: 0 <= i < |chain| - 1 ==> Without(chain, k)[i] < POOL
    ensures At(Without(chain, k), 0) == if k == 0 then pool[head].next else head
  {
    assert pool[chain[0]].next == At(chain, 1);
  }

  /** Removal at any position keeps the list linked. */
  lemma UnlinkLinked(pool: seq<Slot>, head: int, chain: seq<nat>, k: nat)
    requires Linked(pool, head, chain) && k < |chain|
    ensures Linked(Unlinked(pool, chain, k), if k == 0 then pool[head].next else head, Without(chain, k))
    ensures Entries(Unlinked(pool, chain, k), Without(chain, k)) == Without(Entries(pool, chain), k)
  {
    var rest, pool' := Without(chain, k), Unlinked(pool, chain, k);
    UnlinkedHead(pool, head, chain, k);
    UnlinkedEntries(pool, head, chain, k);
    forall s | 0 <= s < POOL
      ensures s in rest <==> InUse(pool', s)
    {
      UnlinkedCovers(pool, head, chain, k, s);
    }
    forall i | 0 <= i < |rest|
      ensures pool'[rest[i]].next == At(rest, i + 1)
    {
      UnlinkedNext(pool, head, chain, k, i);
    }
  }

  // ---------------------------------------------------------------------------
  // Counting slots

  function UpTo(n: nat): (r: set<nat>)
    ensures |r| == n && forall s: nat :: s in r <==> s < n
  {
    if n == 0 then {} else UpTo(n - 1) + {n - 1}
  }

  function Members(chain: seq<nat>): (r: set<nat>)
    requires Distinct(chain)
    ensures |r| == |chain| && forall s: nat :: s in r <==> s in chain
  {
    if chain == [] then {}
    else
      var n := |chain| - 1;
      assert chain == chain[..n] + [chain[n]];
      Members(chain[..n]) + {chain[n]}
  }

  lemma Subset(a: set<nat>, b: set<nat>)
    requires a <= b
    ensures |a| <= |b| && (|a| == |b| ==> a == b)
  {
    assert b == a + (b - a);
  }

  lemma MembersFill(chain: seq<nat>, n: nat)
    requires Distinct(chain)
    requires forall k :: 0 <= k < |chain| ==> chain[k] < n
    ensures |chain| <= n
    ensures |chain| == n <==> forall s: nat :: s < n ==> s in chain
  {
    var used, all := Members(chain), UpTo(n);
    assert used <= all;
    Subset(used, all);
    if forall s: nat :: s < n ==> s in chain {
      assert all <= used;
      Subset(all, used);
    }
  }

  /** The list is at most as long as the pool, and as long exactly when no slot is free. */
  lemma FullExactly(pool: seq<Slot>, head: int, chain: seq<nat>)
    requires Linked(pool, head, chain)
    ensures |chain| <= POOL
    ensures |chain| == POOL <==> forall s :: 0 <= s < POOL ==> InUse(pool, s)
  {
    MembersFill(chain, POOL);
  }

  // ---------------------------------------------------------------------------
  // The list as a sequence, and the screen it draws on

  datatype List = List(entries: seq<Entry>, screen: seq<byte>)

  const SCREEN: int := 4096

  predicate ListOk(l: List) {
    && |l.screen| == SCREEN && |l.entries| <= POOL
    && forall i :: 0 <= i < |l.entries| ==> 0 < l.entries[i].location < POOL
  }

  /** What a caller asks to have blinking. */
  datatype Request = Request(location: word, on: byte, off: byte, onLength: word, offLength: word)

  function Begin(b: Request): Entry {
    Entry(b.location, b.on, b.off, b.onLength, b.offLength, b.onLength, true)
  }

  predicate Accepted(l: List, b: Request) {
    b.location < POOL && |l.entries| < POOL
  }

  /** An accepted request becomes the first entry and is drawn; a refused one changes
      nothing. */
  function AddTo(l: List, b: Request): List
    requires |l.screen| == SCREEN
  {
    if Accepted(l, b) then List([Begin(b)] + l.entries, l.screen[2 * b.location := b.on]) else l
  }

  /** The position of the first entry with a location, or the length if there is none. */
  function Find(entries: seq<Entry>, location: word): (k: nat)
    ensures k <= |entries|
    ensures k < |entries| ==> entries[k].location == location
    ensures forall i :: 0 <= i < k ==> entries[i].location != location
  {
    if entries == [] || entries[0].location == location then 0 else 1 + Find(entries[1..], location)
  }

  /** The first entry with the location goes; the screen stays as it is. */
  function RemoveFrom(l: List, location: word): List {
    var k := Find(l.entries, location);
    if k < |l.entries| then l.(entries := Without(l.entries, k)) else l
  }

  /** Position `k` holds the latest entry with a location. */
  predicate Latest(entries: seq<Entry>, location: word, k: nat) {
    k < |entries| && entries[k].location == location && forall i :: 0 <= i < k ==> entries[i].location != location
  }

  /** No entry has the location. */
  predicate Nowhere(entries: seq<Entry>, location: word) {
    forall i :: 0 <= i < |entries| ==> entries[i].location != location
  }

  /** What removal means: the latest entry with the location goes, all others stay in their
      order, the screen stays as it is; without such an entry nothing happens. */
  lemma RemoveMeans(l: List, location: word)
    ensures var r := RemoveFrom(l, location);
            && (Nowhere(l.entries, location) ==> r == l)
            && (!Nowhere(l.entries, location) ==> r.screen == l.screen && |r.entries| == |l.entries| - 1)
            && forall k: nat :: Latest(l.entries, location, k) ==> r.entries == l.entries[..k] + l.entries[k + 1..]
  {
    var f := Find(l.entries, location);
    assert forall k: nat :: Latest(l.entries, location, k) ==> k == f;
  }

  /** One tick of an entry: a 16-bit countdown, compared as a signed number. */
  function Decremented(c: word): word {
    (c - 1) % TWO_16
  }

  predicate Expires(e: Entry) {
    var c := Decremented(e.countdown);
    !(0 < c < 0x8000)
  }

  function TickEntry(e: Entry): Entry {
    if !Expires(e) then e.(countdown := Decremented(e.countdown))
    else if e.lit then e.(countdown := e.offLength, lit := false)
    else e.(countdown := e.onLength, lit := true)
  }

  function Face(e: Entry): byte {
    if e.lit then e.on else e.off
  }

  function TickEntries(entries: seq<Entry>, k: nat): (r: seq<Entry>)
    requires k <= |entries|
    ensures |r| == |entries|
  {
    seq(|entries|, i requires 0 <= i < |entries| => if i < k then TickEntry(entries[i]) else entries[i])
  }

  /** The screen after the first `k` entries have been ticked. */
  function TickScreen(entries: seq<Entry>, screen: seq<byte>, k: nat): (r: seq<byte>)
    requires k <= |entries| && |screen| == SCREEN && forall i :: 0 <= i < |entries| ==> entries[i].location < POOL
    ensures |r| == SCREEN
  {
    if k == 0 then screen
    else
      var before := TickScreen(entries, screen, k - 1);
      var e := entries[k - 1];
      if Expires(e) then before[2 * e.location := Face(TickEntry(e))] else before
  }

  function Tick(l: List): List
    requires ListOk(l)
  {
    List(TickEntries(l.entries, |l.entries|), TickScreen(l.entries, l.screen, |l.entries|))
  }

  lemma EntriesOk(pool: seq<Slot>, head: int, chain: seq<nat>, screen: seq<byte>)
    requires Linked(pool, head, chain) && |screen| == SCREEN
    requires forall s :: 0 <= s < POOL ==> pool[s].entry.location < POOL
    ensures ListOk(List(Entries(pool, chain), screen))
  {
    FullExactly(pool, head, chain);
    var entries := Entries(pool, chain);
    forall i | 0 <= i < |entries|
      ensures 0 < entries[i].location < POOL
    {
      assert chain[i] in chain && InUse(pool, chain[i]);
    }
  }

  // ---------------------------------------------------------------------------
  // Allocation

  /** The first free slot among the first `n`. */
  function FreeSlot(pool: seq<Slot>, n: nat): int
    requires n <= |pool|
  {
    if n == 0 then NULL
    else if FreeSlot(pool, n - 1) != NULL then FreeSlot(pool, n - 1)
    else if InUse(pool, n - 1) then NULL else n - 1
  }

  lemma {:induction false} FreeSlotIs(pool: seq<Slot>, s: nat, n: nat)
    requires s < n <= |pool| && FreeSlot(pool, s) == NULL && !InUse(pool, s)
    ensures FreeSlot(pool, n) == s
  {
    if s + 1 < n {
      FreeSlotIs(pool, s, n - 1);
    }
  }

  lemma {:induction false} FreeSlotTells(pool: seq<Slot>, n: nat)
    requires n <= |pool|
    ensures var s := FreeSlot(pool, n);
            && (s == NULL ==> forall i :: 0 <= i < n ==> InUse(pool, i))
            && (s != NULL ==> 0 <= s < n && !InUse(pool, s) && FreeSlot(pool, s) == NULL)
  {
    if n > 0 {
      FreeSlotTells(pool, n - 1);
    }
  }

  /** What insertion does to the pool and the list head, whatever the location. */
  function RawAdd(pool: seq<Slot>, head: int, b: Request): (r: (seq<Slot>, int))
    requires |pool| == POOL
    ensures |r.0| == POOL
  {
    FreeSlotTells(pool, POOL);
    var s := FreeSlot(pool, POOL);
    if b.location >= POOL || s == NULL then (pool, head) else (pool[s := Slot(Begin(b), head)], s)
  }

  lemma {:induction false} FreeSlotLocal(pool: seq<Slot>, pool': seq<Slot>, n: nat)
    requires n <= |pool| == |pool'| && forall i :: 0 <= i < n ==> InUse(pool, i) == InUse(pool', i)
    ensures FreeSlot(pool, n) == FreeSlot(pool', n)
  {
    if n > 0 {
      FreeSlotLocal(pool, pool', n - 1);
    }
  }

  /** Exactly when insertion leaves a proper list: it refuses, or the location is not zero. */
  lemma AddSoundExactly(pool: seq<Slot>, head: int, chain: seq<nat>, b: Request)
    requires Linked(pool, head, chain)
    ensures var (p, h) := RawAdd(pool, head, b);
            (exists c :: Linked(p, h, c)) <==> b.location != 0 || FreeSlot(pool, POOL) == NULL
  {
    FreeSlotTells(pool, POOL);
    var s := FreeSlot(pool, POOL);
    var (p, h) := RawAdd(pool, head, b);
    if h == head && p == pool {
      assert Linked(p, h, chain);
    }
    if b.location != 0 && b.location < POOL && s != NULL {
      PushLinked(pool, head, chain, s, Begin(b));
    }
    if b.location == 0 && s != NULL {
      forall c: seq<nat>
        ensures !Linked(p, h, c)
      {
        if c != [] && c[0] == h {
          assert h in c;
        }
      }
    }
  }

  /** Location zero breaks the list: the slot is handed out again, and after a second such
      insertion it is its own successor. */
  lemma ZeroTwiceLoops(pool: seq<Slot>, head: int, b: Request, b': Request)
    requires |pool| == POOL && FreeSlot(pool, POOL) != NULL && b.location == 0 && b'.location == 0
    ensures var (p, h) := RawAdd(pool, head, b);
            var (q, g) := RawAdd(p, h, b');
            && 0 <= g < POOL && q[g].next == g
            && forall chain :: !Linked(q, g, chain)
  {
    FreeSlotTells(pool, POOL);
    var s := FreeSlot(pool, POOL);
    var (p, h) := RawAdd(pool, head, b);
    FreeSlotLocal(pool, p, s);
    FreeSlotIs(p, s, POOL);
    var (q, g) := RawAdd(p, h, b');
    forall chain: seq<nat>
      ensures !Linked(q, g, chain)
    {
      if chain != [] && chain[0] == g {
        assert g in chain;
      }
    }
  }

  // ---------------------------------------------------------------------------
  // Whole sequences of insertions

  /** `path` follows the links from the list head. */
  predicate Follows(pool: seq<Slot>, head: int, path: seq<nat>) {
    && |pool| == POOL && path != [] && path[0] == head
    && (forall i :: 0 <= i < |path| ==> path[i] < POOL)
    && (forall i :: 0 <= i < |path| - 1 ==> pool[path[i]].next == path[i + 1])
  }

  /** Following the links comes to a slot that counts as free, or to some slot twice. */
  ghost predicate Broken(pool: seq<Slot>, head: int) {
    exists path :: Follows(pool, head, path) && (!Distinct(path) || !InUse(pool, path[|path| - 1]))
  }

  lemma {:induction false} PathInChain(pool: seq<Slot>, head: int, chain: seq<nat>, path: seq<nat>, i: nat)
    requires Linked(pool, head, chain) && Follows(pool, head, path) && i < |path|
    ensures i < |chain| && chain[i] == path[i]
  {
    if i > 0 {
      PathInChain(pool, head, chain, path, i - 1);
      assert pool[chain[i - 1]].next == At(chain, i);
      assert pool[path[i - 1]].next == path[i - 1 + 1];
    }
  }

  /** A proper list is not broken. */
  lemma BrokenNotLinked(pool: seq<Slot>, head: int, chain: seq<nat>)
    requires Linked(pool, head, chain)
    ensures !Broken(pool, head)
  {
    forall path | Follows(pool, head, path)
      ensures Distinct(path) && InUse(pool, path[|path| - 1])
    {
      forall i | 0 <= i < |path|
        ensures i < |chain| && chain[i] == path[i]
      {
        PathInChain(pool, head, chain, path, i);
      }
      assert chain[|path| - 1] in chain;
    }
  }

  /** The first place of a slot on a path. */
  function FirstAt(path: seq<nat>, s: nat): (i: nat)
    requires s in path
    ensures i < |path| && path[i] == s && s !in path[..i]
  {
    if path[0] == s then 0
    else
      var i := 1 + FirstAt(path[1..], s);
      assert path[..i] == [path[0]] + path[1..][..i - 1];
      i
  }

  /** Inserting at the front does not mend a broken list, whatever slot is taken. */
  lemma BrokenStays(pool: seq<Slot>, head: int, s: nat, e: Entry)
    requires Broken(pool, head) && s < POOL && |pool| == POOL
    ensures Broken(pool[s := Slot(e, head)], s)
  {
    var path :| Follows(pool, head, path) && (!Distinct(path) || !InUse(pool, path[|path| - 1]));
    if s in path {
      CycleBroken(pool, head, s, e, path);
    } else {
      LongerBroken(pool, head, s, e, path);
    }
  }

  /** A path that avoids slot `s` goes on after it. */
  lemma PathAfter(pool: seq<Slot>, head: int, s: nat, e: Entry, path: seq<nat>)
    requires Follows(pool, head, path) && s < POOL
    requires forall i :: 0 <= i < |path| - 1 ==> path[i] != s
    ensures Follows(pool[s := Slot(e, head)], s, [s] + path)
  {
    var pool', longer := pool[s := Slot(e, head)], [s] + path;
    forall i | 0 <= i < |longer| - 1
      ensures pool'[longer[i]].next == longer[i + 1]
    {
      if i > 0 {
        assert longer[i] == path[i - 1] && pool[path[i - 1]].next == path[i - 1 + 1];
      }
    }
  }

  lemma DistinctAfter(path: seq<nat>, s: nat)
    requires !Distinct(path)
    ensures !Distinct([s] + path)
  {
    var i, j :| 0 <= i < j < |path| && path[i] == path[j];
    assert ([s] + path)[i + 1] == ([s] + path)[j + 1];
  }

  lemma LongerBroken(pool: seq<Slot>, head: int, s: nat, e: Entry, path: seq<nat>)
    requires Follows(pool, head, path) && s < POOL && s !in path
    requires !Distinct(path) || !InUse(pool, path[|path| - 1])
    ensures Broken(pool[s := Slot(e, head)], s)
  {
    assert forall i :: 0 <= i < |path| ==> path[i] in path;
    PathAfter(pool, head, s, e, path);
    if !Distinct(path) {
      DistinctAfter(path, s);
    }
  }

  lemma PathPrefix(pool: seq<Slot>, head: int, path: seq<nat>, n: nat)
    requires Follows(pool, head, path) && 0 < n <= |path|
    ensures Follows(pool, head, path[..n])
  {
  }

  lemma CycleBroken(pool: seq<Slot>, head: int, s: nat, e: Entry, path: seq<nat>)
    requires Follows(pool, head, path) && s < POOL && s in path
    ensures Broken(pool[s := Slot(e, head)], s)
  {
    var n := FirstAt(path, s);
    var round := path[..n + 1];
    assert round[..n] == path[..n];
    FirstOnly(round, s, n);
    PathPrefix(pool, head, path, n + 1);
    PathAfter(pool, head, s, e, round);
    assert ([s] + round)[0] == ([s] + round)[n + 1];
    assert !Distinct([s] + round);
  }

  lemma FirstOnly(round: seq<nat>, s: nat, n: nat)
    requires |round| == n + 1 && s !in round[..n]
    ensures forall i :: 0 <= i < n ==> round[i] != s
  {
    forall i | 0 <= i < n ensures round[i] != s {
      assert round[i] == round[..n][i];
    }
  }

  lemma ZeroBreaks(pool: seq<Slot>, head: int, s: nat, e: Entry)
    requires |pool| == POOL && s < POOL && e.location == 0
    ensures Broken(pool[s := Slot(e, head)], s)
  {
    assert Follows(pool[s := Slot(e, head)], s, [s]);
  }

  /** The pool and the list head after a sequence of insertions into an empty list. */
  function RawAdds(bs: seq<Request>): (r: (seq<Slot>, int))
    ensures |r.0| == POOL
  {
    if bs == [] then (seq(POOL, i => EMPTY), NULL)
    else
      var before := RawAdds(bs[..|bs| - 1]);
      RawAdd(before.0, before.1, bs[|bs| - 1])
  }

  /** How many of the requests are for a place on the screen other than location zero. */
  function Placeable(bs: seq<Request>): nat {
    if bs == [] then 0
    else Placeable(bs[..|bs| - 1]) + if 0 < bs[|bs| - 1].location < POOL then 1 else 0
  }

  /** No request for location zero comes while there is room. */
  predicate ZerosRefused(bs: seq<Request>) {
    forall i :: 0 <= i < |bs| && bs[i].location == 0 ==> Placeable(bs[..i]) >= POOL
  }

  /** The list holds as many entries as were asked for, up to the pool's size. */
  ghost predicate ProperWith(pool: seq<Slot>, head: int, n: int) {
    exists chain :: Linked(pool, head, chain) && |chain| == Min(POOL, n)
  }

  lemma ProperStep(pool: seq<Slot>, head: int, n: nat, b: Request)
    requires ProperWith(pool, head, n) && (b.location == 0 ==> n >= POOL)
    ensures |pool| == POOL
    ensures var (p, h) := RawAdd(pool, head, b); ProperWith(p, h, n + if 0 < b.location < POOL then 1 else 0)
  {
    var chain :| Linked(pool, head, chain) && |chain| == Min(POOL, n);
    FullExactly(pool, head, chain);
    FreeSlotTells(pool, POOL);
    var s := FreeSlot(pool, POOL);
    var (p, h) := RawAdd(pool, head, b);
    if b.location < POOL && s != NULL {
      PushLinked(pool, head, chain, s, Begin(b));
      assert Linked(p, h, [s as nat] + chain);
    } else {
      assert Linked(p, h, chain);
    }
  }

  /** With room left, a request for location zero is accepted and breaks the list. */
  lemma ZeroStep(pool: seq<Slot>, head: int, n: nat, b: Request)
    requires ProperWith(pool, head, n) && b.location == 0 && n < POOL
    ensures |pool| == POOL
    ensures var (p, h) := RawAdd(pool, head, b); Broken(p, h)
  {
    var chain :| Linked(pool, head, chain) && |chain| == Min(POOL, n);
    FullExactly(pool, head, chain);
    FreeSlotTells(pool, POOL);
    ZeroBreaks(pool, head, FreeSlot(pool, POOL), Begin(b));
  }

  lemma BrokenStep(pool: seq<Slot>, head: int, b: Request)
    requires Broken(pool, head) && |pool| == POOL
    ensures var (p, h) := RawAdd(pool, head, b); Broken(p, h)
  {
    FreeSlotTells(pool, POOL);
    var s := FreeSlot(pool, POOL);
    if b.location < POOL && s != NULL {
      BrokenStays(pool, head, s, Begin(b));
    }
  }

  lemma ZerosBefore(bs: seq<Request>)
    requires bs != []
    ensures var n := |bs| - 1;
            ZerosRefused(bs) <==> ZerosRefused(bs[..n]) && (bs[n].location == 0 ==> Placeable(bs[..n]) >= POOL)
  {
    var n := |bs| - 1;
    assert forall i :: 0 <= i < n ==> bs[..n][..i] == bs[..i] && bs[..n][i] == bs[i];
  }

  lemma EmptyProper()
    ensures ProperWith(seq(POOL, i => EMPTY), NULL, 0)
  {
    assert Linked(seq(POOL, i => EMPTY), NULL, []);
  }

  lemma {:induction false} AddsProperOrBroken(bs: seq<Request>)
    ensures var (p, h) := RawAdds(bs);
            if ZerosRefused(bs) then ProperWith(p, h, Placeable(bs)) else Broken(p, h)
  {
    if bs == [] {
      EmptyProper();
    } else {
      var n := |bs| - 1;
      AddsProperOrBroken(bs[..n]);
      ZerosBefore(bs);
      var (p, h) := RawAdds(bs[..n]);
      if !ZerosRefused(bs[..n]) {
        BrokenStep(p, h, bs[n]);
      } else if ZerosRefused(bs) {
        ProperStep(p, h, Placeable(bs[..n]), bs[n]);
      } else {
        ZeroStep(p, h, Placeable(bs[..n]), bs[n]);
      }
    }
  }

  /** Exactly when a sequence of insertions leaves a proper list: every request for location
      zero comes when the pool is full already. */
  lemma AddsSoundExactly(bs: seq<Request>)
    ensures var (p, h) := RawAdds(bs);
            (exists chain :: Linked(p, h, chain)) <==> ZerosRefused(bs)
  {
    AddsProperOrBroken(bs);
    var (p, h) := RawAdds(bs);
    if chain :| Linked(p, h, chain) {
      BrokenNotLinked(p, h, chain);
    }
  }

  // ---------------------------------------------------------------------------
  // The program

  class BlinkList {
    const pool: array<Slot>
    const screen: array<byte>
    var head: int
    ghost var chain: seq<nat>

    constructor ()
      ensures Valid() && fresh(pool) && fresh(screen) && Contents().entries == []
    {
      pool := new Slot[POOL](i => EMPTY);
      screen := new byte[SCREEN](i => 0);
      head, chain := NULL, [];
    }

    ghost predicate Valid()
      reads this, pool, screen
    {
      && pool.Length == POOL && screen.Length == SCREEN && Linked(pool[..], head, chain)
      && forall s :: 0 <= s < POOL ==> pool[s].entry.location < POOL
    }

    ghost function Contents(): (l: List)
      reads this, pool, screen
      requires Valid()
      ensures ListOk(l)
    {
      EntriesOk(pool[..], head, chain, screen[..]);
      List(Entries(pool[..], chain), screen[..])
    }

    /** `mp1_malloc` (fish/fish.c:160-170). */
    method Malloc() returns (s: int)
      requires pool.Length == POOL
      ensures s == FreeSlot(pool[..], POOL)
    {
      s := 0;
      while s < POOL
        invariant 0 <= s <= POOL
        invariant FreeSlot(pool[..], s) == NULL
      {
        if pool[s].entry.location == 0 {
          FreeSlotIs(pool[..], s, POOL);
          return;
        }
        s := s + 1;
      }
      s := NULL;
    }

    /** `mp1_ioctl_add` (fish/blink.S:105-184). Location zero is accepted, and the slot then
        counts as free although it is in the list. */
    method Add(b: Request) returns (ret: int)
      requires Valid()
      modifies this, pool, screen
      ensures (pool[..], head) == RawAdd(old(pool[..]), old(head), b)
      ensures b.location != 0 ==> Valid() && Contents() == AddTo(old(Contents()), b)
      ensures ret == if Accepted(old(Contents()), b) then 0 else -1
    {
      FullExactly(pool[..], head, chain);
      FreeSlotTells(pool[..], POOL);
      if b.location >= POOL { return -1; }
      var s := Malloc();
      if s == NULL { return -1; }
      ghost var before := pool[..];
      if b.location != 0 {
        PushLinked(pool[..], head, chain, s, Begin(b));
      }
      pool[s] := Slot(Begin(b), head);
      assert pool[..] == before[s := Slot(Begin(b), head)];
      head, chain := s, [s as nat] + chain;
      screen[2 * b.location] := b.on;
      ret := 0;
    }

    /** `mp1_find_helper` (fish/blink.S:351-379): the latest entry with the location. */
    method FindHelper(location: word) returns (s: int, ghost k: nat)
      requires Valid()
      ensures k == Find(Contents().entries, location) && s == At(chain, k)
    {
      ghost var entries := Contents().entries;
      s, k := head, 0;
      while s != NULL && pool[s].entry.location != location
        invariant k <= |chain| && s == At(chain, k)
        invariant forall i :: 0 <= i < k ==> entries[i].location != location
        decreases |chain| - k
      {
        s, k := pool[s].next, k + 1;
      }
      FindIs(entries, location, k);
    }

    /** The link that a predecessor holds: the list head's, or that of a slot. */
    function Link(prev: int): int
      reads this, pool
      requires prev == NULL || 0 <= prev < pool.Length
    {
      if prev == NULL then head else pool[prev].next
    }

    /** `mp1_ioctl_remove` (fish/blink.S:187-237, fish/fish.c:172-175). */
    method Remove(location: word) returns (ret: int)
      requires Valid()
      modifies this, pool
      ensures Valid() && Contents() == RemoveFrom(old(Contents()), location)
      ensures ret == if Nowhere(old(Contents()).entries, location) then -1 else 0
      ensures ret == -1 ==> Contents() == old(Contents())
      ensures ret == 0 ==> Contents().screen == old(Contents()).screen
      ensures forall k: nat :: Latest(old(Contents()).entries, location, k) ==>
                Contents().entries == old(Contents()).entries[..k] + old(Contents()).entries[k + 1..]
    {
      RemoveMeans(Contents(), location);
      var s, k := FindHelper(location);
      if s == NULL { return -1; }
      Unlink(s, k);
      ret := 0;
    }

    /** The search for the predecessor, the unlinking and the free (fish/blink.S:206-222,
        fish/fish.c:172-175). */
    method Unlink(s: nat, ghost k: nat)
      requires Valid() && k < |chain| && s == chain[k]
      modifies this, pool
      ensures Valid() && Contents() == old(Contents()).(entries := Without(old(Contents()).entries, k))
    {
      var prev := NULL;
      ghost var j := 0;
      while Link(prev) != s
        invariant 0 <= j <= k && prev == (if j == 0 then NULL else chain[j - 1]) && Link(prev) == chain[j]
        decreases k - j
      {
        prev, j := Link(prev), j + 1;
      }
      assert j == k;
      UnlinkLinked(pool[..], head, chain, k);
      ghost var before := pool[..];
      var next := pool[s].next;
      if prev == NULL {
        head := next;
      } else {
        pool[prev] := pool[prev].(next := next);
      }
      pool[s] := EMPTY;
      assert pool[..] == Unlinked(before, chain, k);
      chain := Without(chain, k);
    }

    /** One slot's turn (fish/blink.S:64-86). */
    method TickSlot(s: nat)
      requires pool.Length == POOL && screen.Length == SCREEN && s < POOL && pool[s].entry.location < POOL
      modifies pool, screen
      ensures pool[..] == old(pool[..])[s := Slot(TickEntry(old(pool[s].entry)), old(pool[s].next))]
      ensures var e := old(pool[s].entry);
              screen[..] ==
              if Expires(e) then old(screen[..])[2 * e.location := Face(TickEntry(e))] else old(screen[..])
    {
      var e := pool[s].entry;
      var c := (e.countdown - 1) % TWO_16;
      if 0 < c < 0x8000 {
        pool[s] := pool[s].(entry := e.(countdown := c));
      } else if e.lit {
        screen[2 * e.location] := e.off;
        pool[s] := pool[s].(entry := e.(countdown := e.offLength, lit := false));
      } else {
        screen[2 * e.location] := e.on;
        pool[s] := pool[s].(entry := e.(countdown := e.onLength, lit := true));
      }
    }

    /** `mp1_rtc_tasklet` (fish/blink.S:49-99). */
    method Tasklet()
      requires Valid()
      modifies pool, screen
      ensures Valid() && Contents() == Tick(old(Contents()))
    {
      ghost var entries, shown := Contents().entries, screen[..];
      var s := head;
      ghost var k := 0;
      while s != NULL
        invariant k <= |chain| && s == At(chain, k) && Valid()
        invariant Entries(pool[..], chain) == TickEntries(entries, k)
        invariant screen[..] == TickScreen(entries, shown, k)
        decreases |chain| - k
      {
        assert Entries(pool[..], chain)[k] == entries[k] == pool[s].entry;
        ReplaceLinked(pool[..], head, chain, k, TickEntry(entries[k]));
        TickEntriesNext(entries, k);
        TickSlot(s);
        s, k := pool[s].next, k + 1;
      }
    }
  }

  /** An insertion, a removal or a tick. */
  method PlayOne(l: BlinkList, ev: Event)
    requires l.Valid() && (ev.Insert? ==> ev.b.location != 0)
    modifies l, l.pool, l.screen
    ensures l.Valid() && l.Contents() == StepList(old(l.Contents()), ev)
  {
    match ev {
      case Insert(b) => var _ := l.Add(b);
      case Delete(location) => var _ := l.Remove(location);
      case Ticks => l.Tasklet();
    }
  }

  lemma {:induction false} RunListSnoc(l: List, before: seq<Event>, ev: Event)
    requires ListOk(l) && Sound(before) && (ev.Insert? ==> ev.b.location != 0)
    ensures Sound(before + [ev]) && RunList(l, before + [ev]) == StepList(RunList(l, before), ev)
  {
    var events := before + [ev];
    assert events[..|events| - 1] == before;
  }

  lemma {:induction false} RunListNext(l: List, events: seq<Event>, i: nat)
    requires ListOk(l) && Sound(events) && i < |events| && Sound(events[..i])
    ensures Sound(events[..i + 1])
    ensures RunList(l, events[..i + 1]) == StepList(RunList(l, events[..i]), events[i])
  {
    assert events[..i + 1] == events[..i] + [events[i]];
    RunListSnoc(l, events[..i], events[i]);
  }

  /** Any sequence of them. */
  method Play(l: BlinkList, events: seq<Event>)
    requires l.Valid() && Sound(events)
    modifies l, l.pool, l.screen
    ensures l.Valid() && l.Contents() == RunList(old(l.Contents()), events)
  {
    var i := 0;
    while i < |events|
      invariant 0 <= i <= |events| && l.Valid() && Sound(events[..i])
      invariant l.Contents() == RunList(old(l.Contents()), events[..i])
    {
      RunListNext(old(l.Contents()), events, i);
      PlayOne(l, events[i]);
      i := i + 1;
    }
    assert events[..i] == events;
  }

  lemma TickEntriesNext(entries: seq<Entry>, k: nat)
    requires k < |entries|
    ensures TickEntries(entries, k + 1) == TickEntries(entries, k)[k := TickEntry(entries[k])]
  {
  }

  /** Changing an entry but not its location keeps the list linked. */
  lemma ReplaceLinked(pool: seq<Slot>, head: int, chain: seq<nat>, k: nat, e: Entry)
    requires Linked(pool, head, chain) && k < |chain| && e.location == pool[chain[k]].entry.location
    ensures var pool' := pool[chain[k] := Slot(e, pool[chain[k]].next)];
            Linked(pool', head, chain) && Entries(pool', chain) == Entries(pool, chain)[k := e]
  {
    var pool' := pool[chain[k] := Slot(e, pool[chain[k]].next)];
    forall s | 0 <= s < POOL
      ensures s in chain <==> InUse(pool', s)
    {
      assert s in chain <==> InUse(pool, s);
    }
  }

  lemma FindIs(entries: seq<Entry>, location: word, k: nat)
    requires k <= |entries| && (forall i :: 0 <= i < k ==> entries[i].location != location)
    requires k < |entries| ==> entries[k].location == location
    ensures Find(entries, location) == k
  {
  }

  // ---------------------------------------------------------------------------
  // Blinking

  /** For how many ticks a countdown value lasts. */
  function Lasts(c: word): (n: int)
    ensures n >= 1
  {
    if 1 <= c <= 0x8000 then c else 1
  }

  function Period(e: Entry): int {
    Lasts(e.onLength) + Lasts(e.offLength)
  }

  function TickN(e: Entry, n: nat): Entry {
    if n == 0 then e else TickEntry(TickN(e, n - 1))
  }

  lemma TickLasts(e: Entry)
    ensures Expires(e) <==> Lasts(e.countdown) == 1
    ensures !Expires(e) ==> Lasts(TickEntry(e).countdown) == Lasts(e.countdown) - 1
  {
    var c := Decremented(e.countdown);
    if e.countdown == 0 {
      assert c == 0xFFFF;
    } else {
      assert c == e.countdown - 1;
    }
  }

  lemma ModNext(n: nat, m: nat)
    requires m > 1
    ensures (n + 1) % m == if n % m + 1 == m then 0 else n % m + 1
  {
    var q, r := n / m, n % m;
    assert n == q * m + r;
    if r + 1 == m {
      assert n + 1 == (q + 1) * m;
      DivModUnique(n + 1, m, q + 1, 0);
    } else {
      DivModUnique(n + 1, m, q, r + 1);
    }
  }

  /** Where an entry stands `phase` ticks into its period. */
  predicate InPhase(e: Entry, f: Entry, phase: nat) {
    var on := Lasts(e.onLength);
    && f == e.(countdown := f.countdown, lit := phase < on)
    && Lasts(f.countdown) == (if phase < on then on else Period(e)) - phase
  }

  lemma PhaseNext(e: Entry, f: Entry, phase: nat)
    requires InPhase(e, f, phase) && phase < Period(e)
    ensures InPhase(e, TickEntry(f), if phase + 1 == Period(e) then 0 else phase + 1)
  {
    TickLasts(f);
  }

  /** After `n` ticks an entry is lit exactly when `n` modulo its period is less than its
      on-length. A length of 0 or above 32768 counts as 1. */
  lemma {:induction false} BlinkPhase(e: Entry, n: nat)
    requires e.lit && e.countdown == e.onLength
    ensures InPhase(e, TickN(e, n), n % Period(e))
  {
    if n > 0 {
      BlinkPhase(e, n - 1);
      PhaseNext(e, TickN(e, n - 1), (n - 1) % Period(e));
      ModNext(n - 1, Period(e));
    }
  }

  // ---------------------------------------------------------------------------
  // Whole runs

  datatype Event = Insert(b: Request) | Delete(location: word) | Ticks

  function StepList(l: List, ev: Event): (r: List)
    requires ListOk(l) && (ev.Insert? ==> ev.b.location != 0)
    ensures ListOk(r)
  {
    match ev
    case Insert(b) => AddTo(l, b)
    case Delete(location) => RemoveFrom(l, location)
    case Ticks => Tick(l)
  }

  /** Position `k` of the list holds `e`, no other entry has its location, and the screen
      shows it. */
  predicate ShownAt(l: List, e: Entry, k: nat) {
    && ListOk(l) && k < |l.entries| && l.entries[k] == e && l.screen[2 * e.location] == Face(e)
    && forall i :: 0 <= i < |l.entries| && i != k ==> l.entries[i].location != e.location
  }

  ghost predicate Showing(l: List, e: Entry) {
    exists k: nat :: ShownAt(l, e, k)
  }

  lemma AddShows(l: List, b: Request)
    requires ListOk(l) && Accepted(l, b) && b.location != 0
    requires forall i :: 0 <= i < |l.entries| ==> l.entries[i].location != b.location
    ensures Showing(AddTo(l, b), Begin(b))
  {
    assert ShownAt(AddTo(l, b), Begin(b), 0);
  }

  lemma AddKeeps(l: List, e: Entry, b: Request)
    requires Showing(l, e) && b.location != 0 && b.location != e.location
    ensures Showing(AddTo(l, b), e)
  {
    var k: nat :| ShownAt(l, e, k);
    if Accepted(l, b) {
      var entries := AddTo(l, b).entries;
      assert forall i :: 0 < i < |entries| ==> entries[i] == l.entries[i - 1];
      assert ShownAt(AddTo(l, b), e, k + 1);
    }
  }

  lemma RemoveKeeps(l: List, e: Entry, location: word)
    requires Showing(l, e) && location != e.location
    ensures Showing(RemoveFrom(l, location), e)
  {
    var k: nat :| ShownAt(l, e, k);
    var j := Find(l.entries, location);
    assert ShownAt(RemoveFrom(l, location), e, if j < k then k - 1 else k);
  }

  /** Ticking entries elsewhere leaves a cell alone; ticking its own redraws it. */
  lemma {:induction false} TickScreenAt(l: List, e: Entry, k: nat, n: nat)
    requires ShownAt(l, e, k) && n <= |l.entries|
    ensures TickScreen(l.entries, l.screen, n)[2 * e.location] == if n <= k then Face(e) else Face(TickEntry(e))
  {
    if n > 0 {
      TickScreenAt(l, e, k, n - 1);
    }
  }

  lemma TickKeeps(l: List, e: Entry)
    requires Showing(l, e)
    ensures Showing(Tick(l), TickEntry(e))
  {
    var k: nat :| ShownAt(l, e, k);
    TickScreenAt(l, e, k, |l.entries|);
    assert ShownAt(Tick(l), TickEntry(e), k);
  }

  predicate Elsewhere(events: seq<Event>, location: word) {
    forall i :: 0 <= i < |events| ==>
      match events[i]
      case Insert(b) => b.location != location
      case Delete(other) => other != location
      case Ticks => true
  }

  predicate Sound(events: seq<Event>) {
    forall i :: 0 <= i < |events| && events[i].Insert? ==> events[i].b.location != 0
  }

  function RunList(l: List, events: seq<Event>): (r: List)
    requires ListOk(l) && Sound(events)
    ensures ListOk(r)
  {
    if events == [] then l
    else
      assert forall i :: 0 <= i < |events| - 1 ==> events[..|events| - 1][i] == events[i];
      StepList(RunList(l, events[..|events| - 1]), events[|events| - 1])
  }

  function TickCount(events: seq<Event>): nat {
    if events == [] then 0 else TickCount(events[..|events| - 1]) + if events[|events| - 1].Ticks? then 1 else 0
  }

  lemma {:induction false} RunShows(l: List, e: Entry, events: seq<Event>)
    requires Showing(l, e) && Sound(events) && Elsewhere(events, e.location)
    ensures Showing(RunList(l, events), TickN(e, TickCount(events)))
  {
    if events != [] {
      var n := |events| - 1;
      assert forall i :: 0 <= i < n ==> events[..n][i] == events[i];
      RunShows(l, e, events[..n]);
      var before, f := RunList(l, events[..n]), TickN(e, TickCount(events[..n]));
      SameLocation(e, TickCount(events[..n]));
      match events[n] {
        case Insert(b) => AddKeeps(before, f, b);
        case Delete(location) => RemoveKeeps(before, f, location);
        case Ticks => TickKeeps(before, f);
      }
    }
  }

  lemma {:induction false} SameLocation(e: Entry, n: nat)
    ensures TickN(e, n).location == e.location
  {
    if n > 0 {
      SameLocation(e, n - 1);
    }
  }

  lemma ShownFace(l: List, e: Entry)
    requires Showing(l, e)
    ensures ListOk(l) && e.location < POOL && l.screen[2 * e.location] == Face(e)
  {
    var k: nat :| ShownAt(l, e, k);
  }

  lemma FaceInPhase(b: Request, n: nat)
    ensures TickN(Begin(b), n).location == b.location
    ensures Face(TickN(Begin(b), n)) ==
            if n % (Lasts(b.onLength) + Lasts(b.offLength)) < Lasts(b.onLength) then b.on else b.off
  {
    BlinkPhase(Begin(b), n);
  }

  /** An accepted request blinks at its location with its own period, in a list of any
      length, through any ticks, insertions and deletions at other locations. */
  lemma EveryRequestBlinks(l: List, b: Request, events: seq<Event>)
    requires ListOk(l) && Accepted(l, b) && b.location != 0
    requires forall i :: 0 <= i < |l.entries| ==> l.entries[i].location != b.location
    requires Sound(events) && Elsewhere(events, b.location)
    ensures var phase := TickCount(events) % (Lasts(b.onLength) + Lasts(b.offLength));
            RunList(AddTo(l, b), events).screen[2 * b.location] == if phase < Lasts(b.onLength) then b.on else b.off
  {
    AddShows(l, b);
    RunShows(AddTo(l, b), Begin(b), events);
    ShownFace(RunList(AddTo(l, b), events), TickN(Begin(b), TickCount(events)));
    FaceInPhase(b, TickCount(events));
  }

  // ---------------------------------------------------------------------------
  // Deletion, over whole runs

  /** Round trip: a deletion takes back the last accepted request for its location, also
      when older entries have the same one. */
  lemma AddThenRemove(l: List, b: Request)
    requires ListOk(l) && Accepted(l, b) && b.location != 0
    ensures StepList(StepList(l, Insert(b)), Delete(b.location)).entries == l.entries
  {
    RemoveMeans(AddTo(l, b), b.location);
    assert Latest(AddTo(l, b).entries, b.location, 0);
  }

  /** No entry has the location, and the cell holds `c`. */
  predicate Rests(l: List, location: word, c: byte) {
    ListOk(l) && location < POOL && Nowhere(l.entries, location) && l.screen[2 * location] == c
  }

  lemma {:induction false} TickScreenElsewhere(l: List, location: word, n: nat)
    requires ListOk(l) && location < POOL && Nowhere(l.entries, location) && n <= |l.entries|
    ensures TickScreen(l.entries, l.screen, n)[2 * location] == l.screen[2 * location]
  {
    if n > 0 {
      TickScreenElsewhere(l, location, n - 1);
    }
  }

  predicate NotInserted(events: seq<Event>, location: word) {
    forall i :: 0 <= i < |events| && events[i].Insert? ==> events[i].b.location != location
  }

  lemma RestsStep(l: List, location: word, c: byte, ev: Event)
    requires Rests(l, location, c) && (ev.Insert? ==> ev.b.location != 0 && ev.b.location != location)
    ensures Rests(StepList(l, ev), location, c)
  {
    match ev
    case Insert(b) =>
    case Delete(other) =>
      assert forall i :: 0 <= i < |RemoveFrom(l, other).entries| ==> RemoveFrom(l, other).entries[i] in l.entries;
    case Ticks => TickScreenElsewhere(l, location, |l.entries|);
  }

  lemma {:induction false} RestsRun(l: List, location: word, c: byte, events: seq<Event>)
    requires Rests(l, location, c) && Sound(events) && NotInserted(events, location)
    ensures Rests(RunList(l, events), location, c)
  {
    if events != [] {
      var n := |events| - 1;
      assert forall i :: 0 <= i < n ==> events[..n][i] == events[i];
      RestsRun(l, location, c, events[..n]);
      RestsStep(RunList(l, events[..n]), location, c, events[n]);
    }
  }

  lemma ShowingRemoved(l: List, e: Entry)
    requires Showing(l, e)
    ensures Rests(RemoveFrom(l, e.location), e.location, Face(e))
    ensures |RemoveFrom(l, e.location).entries| == |l.entries| - 1
  {
    var k: nat :| ShownAt(l, e, k);
    assert Find(l.entries, e.location) == k;
  }

  /** An accepted request that is deleted again, after any events elsewhere, is gone: a place
      in the list is free, no entry has its location, and its cell stays as the deletion
      found it through any ticks, removals and insertions elsewhere. */
  lemma DeletedIsGone(l: List, b: Request, events: seq<Event>, after: seq<Event>)
    requires ListOk(l) && Accepted(l, b) && b.location != 0 && Nowhere(l.entries, b.location)
    requires Sound(events) && Elsewhere(events, b.location) && Sound(after) && NotInserted(after, b.location)
    ensures var shown := RunList(AddTo(l, b), events);
            var gone := StepList(shown, Delete(b.location));
            var end := RunList(gone, after);
            && |gone.entries| == |shown.entries| - 1
            && Nowhere(gone.entries, b.location) && Nowhere(end.entries, b.location)
            && end.screen[2 * b.location] == shown.screen[2 * b.location]
  {
    var shown, e := RunList(AddTo(l, b), events), TickN(Begin(b), TickCount(events));
    AddShows(l, b);
    RunShows(AddTo(l, b), Begin(b), events);
    SameLocation(Begin(b), TickCount(events));
    ShownFace(shown, e);
    ShowingRemoved(shown, e);
    RestsRun(RemoveFrom(shown, b.location), b.location, Face(e), after);
  }
}
