/**
 GetObject running concurrently with writers, rotation, the flusher, close and rebuild.
 The reader takes the two index reads, each cache probe and the store read as separate
 steps; any steps of the ring may happen between them.  Whatever the interleaving, the value
 returned is one the key held at some moment between call and return.
 */
module ConcurrentGet {
  import opened Ring
  import opened RingHistory
  import opened RingTheorems

  datatype Reader<+V> =
    | Called
    | HaveWriteIndex(w: nat)
    | Scanning(index: nat, readIndex: nat, count: nat)  // count: probes made so far
    | AtStore
    | Returned(result: Option<V>)

  ghost predicate ReaderOk<V>(rd: Reader<V>) {
    match rd
    case HaveWriteIndex(w) => w < CACHE_COUNT
    case Scanning(i, r, _) => i < CACHE_COUNT && r < CACHE_COUNT
    case _ => true
  }

  /** One step of the reader. */
  function ReaderStep<K, V>(s: State<K, V>, rd: Reader<V>, k: K): Reader<V>
    requires WellFormed(s) && ReaderOk(rd)
  {
    match rd
    case Called => HaveWriteIndex(s.writeIndex)
    case HaveWriteIndex(w) => Scanning(w, s.readIndex, 0)
    case Scanning(i, r, n) =>
      if i == r then AtStore
      else (match ProbeOne(s.caches[i], k)
            case Hit(v) => Returned(Some(v))
            case Tombstone => Returned(None)
            case Miss => Scanning(Prev(i), r, n + 1))
    case AtStore => Returned(Lookup(s.store, k))
    case Returned(_) => rd
  }

  /** A step of the whole system: the ring moves, or the reader does. */
  datatype Move<K, V> = Ring(action: Action<K, V>) | Read

  datatype System<K, V> = System(ring: State<K, V>, reader: Reader<V>)

  ghost function SystemStep<K, V>(sys: System<K, V>, k: K, m: Move<K, V>): System<K, V>
    requires WellFormed(sys.ring) && ReaderOk(sys.reader) && (m.Ring? ==> Enabled(sys.ring, m.action))
  {
    match m
    case Ring(a) => sys.(ring := Step(sys.ring, a))
    case Read => sys.(reader := ReaderStep(sys.ring, sys.reader, k))
  }

  ghost predicate ValidMoves<K, V>(s: State<K, V>, k: K, moves: seq<Move<K, V>>)
    requires WellFormed(s)
    decreases |moves|, 0
  {
    moves == [] ||
    var init, last := moves[..|moves| - 1], moves[|moves| - 1];
    ValidMoves(s, k, init) && (last.Ring? ==> Enabled(Interleave(s, k, init).ring, last.action))
  }

  /** The system after a call of GetObject(k) in state s followed by the given moves. */
  ghost function Interleave<K, V>(s: State<K, V>, k: K, moves: seq<Move<K, V>>): (r: System<K, V>)
    requires WellFormed(s) && ValidMoves(s, k, moves)
    ensures WellFormed(r.ring) && ReaderOk(r.reader)
    decreases |moves|, 1
  {
    if moves == [] then System(s, Called)
    else
      SystemStep(Interleave(s, k, moves[..|moves| - 1]), k, moves[|moves| - 1])
  }

  /** The ring's part of an interleaving. */
  ghost function RingActions<K, V>(moves: seq<Move<K, V>>): seq<Action<K, V>> {
    if moves == [] then []
    else
      var last := moves[|moves| - 1];
      RingActions(moves[..|moves| - 1]) + if last.Ring? then [last.action] else []
  }

  // ---- How histories grow ----

  /** h is a later history than h0. */
  ghost predicate Extends<K, V>(h0: History<K, V>, h: History<K, V>) {
    && h0.Valid() && h.Valid()
    && h0.base == h.base
    && h0.flushed <= h.flushed
    && |h0.epochs| <= |h.epochs|
    && (forall e :: 0 <= e < h0.Current() ==> h0.epochs[e] == h.epochs[e])
    && h0.epochs[h0.Current()] <= h.epochs[h0.Current()]
  }

  lemma AdvanceExtends<K, V>(h0: History<K, V>, h: History<K, V>, a: Action<K, V>)
    requires Extends(h0, h) && Advance(h, a).Valid()
    ensures Extends(h0, Advance(h, a))
  {
  }

  /** Number of batches committed in the epochs 0 .. e. */
  ghost function UpTo<K, V>(h: History<K, V>, e: nat): nat
    requires e < |h.epochs|
  {
    |Flatten(h.epochs[..e + 1])|
  }

  lemma LogAt<K, V>(h: History<K, V>, e: nat)
    requires e < |h.epochs|
    ensures UpTo(h, e) <= |h.Log()|
    ensures h.Log()[..UpTo(h, e)] == Flatten(h.epochs[..e + 1])
  {
    FlattenPrefix(h.epochs, e + 1);
  }

  lemma UpToGrows<K, V>(h: History<K, V>, e: nat, e': nat)
    requires e <= e' < |h.epochs|
    ensures UpTo(h, e) <= UpTo(h, e')
  {
    PrefixCount(h.epochs, e + 1, e' + 1);
  }

  /** The log of the earlier history is a prefix of the later one, ending within its own epoch. */
  lemma ExtendsLog<K, V>(h0: History<K, V>, h: History<K, V>)
    requires Extends(h0, h)
    ensures h0.Log() <= h.Log()
    ensures |h0.Log()| <= UpTo(h, h0.Current())
  {
    var w := h0.Current();
    assert h0.epochs[..w] == h.epochs[..w];
    assert h.epochs[..w + 1][..w] == h.epochs[..w];
    LogAt(h, w);
    assert Flatten(h.epochs[..w + 1]) == Flatten(h.epochs[..w]) + h.epochs[w];
    assert h0.Log() <= h.Log()[..UpTo(h, w)];
  }

  // ---- Values of one key ----

  /** Key k has value v after the first n batches of the log. */
  ghost predicate HeldAt<K, V>(h: History<K, V>, k: K, v: Option<V>, n: nat) {
    n <= |h.Log()| && v == Lookup(Apply(h.base, Fold(h.Log()[..n])), k)
  }

  ghost predicate HeldSince<K, V>(h: History<K, V>, k: K, v: Option<V>, from: nat) {
    exists n :: from <= n && HeldAt(h, k, v, n)
  }

  lemma HeldLater<K, V>(h0: History<K, V>, h: History<K, V>, k: K, v: Option<V>, n: nat)
    requires Extends(h0, h) && HeldAt(h0, k, v, n)
    ensures HeldAt(h, k, v, n)
  {
    ExtendsLog(h0, h);
    assert h0.Log()[..n] == h.Log()[..n];
  }

  /** An entry of epoch e is the key's value at the end of e. */
  lemma HeldAtEpochEnd<K, V>(h: History<K, V>, e: nat, k: K)
    requires e < |h.epochs| && k in h.Content(e)
    ensures HeldAt(h, k, Resolve(h.Content(e), map[], k), UpTo(h, e))
  {
    var init := h.epochs[..e];
    assert h.epochs[..e + 1][..e] == init;
    LogAt(h, e);
    FoldConcat(Flatten(init), h.epochs[e]);
    ApplyLookup(h.base, Fold(Flatten(init)) + h.Content(e), k);
  }

  /** Epochs that do not write k do not change its value. */
  lemma {:induction false} UntouchedSince<K, V>(h: History<K, V>, e: nat, e': nat, k: K)
    requires e <= e' < |h.epochs|
    requires forall x :: e < x <= e' ==> k !in h.Content(x)
    ensures Lookup(h.Through(e'), k) == Lookup(h.Through(e), k)
    decreases e'
  {
    if e < e' {
      UntouchedSince(h, e, e' - 1, k);
      ThroughNext(h, e' - 1);
      ApplyLookup(h.Through(e' - 1), h.Content(e'), k);
    }
  }

  /** The value at the end of epoch e is held until the end of h if no later epoch writes k. */
  lemma HeldAtEnd<K, V>(h: History<K, V>, e: nat, k: K)
    requires e < |h.epochs|
    requires forall x :: e < x <= h.Current() ==> k !in h.Content(x)
    ensures HeldAt(h, k, Lookup(h.Through(e), k), |h.Log()|)
  {
    UntouchedSince(h, e, h.Current(), k);
    assert h.epochs[..h.Current() + 1] == h.epochs;
    assert h.Log()[..|h.Log()|] == h.Log();
  }

  // ---- The reader's invariant ----

  /**
   What is known of the epochs up to the one that was current at hw: each epoch in (from, current]
   has been purged since, or had not written k when hw was current.
   */
  ghost predicate Excluded<K, V>(purged: nat, hw: History<K, V>, from: int, k: K) {
    forall e :: 0 <= e < |hw.epochs| && from < e ==> e <= purged || k !in hw.Content(e)
  }

  /** hw: history when writeIndex was read; re: flushed epoch when readIndex was read. */
  ghost predicate ReaderInv<K, V>(s: State<K, V>, h: History<K, V>, rd: Reader<V>, k: K,
                                  start: nat, hw: History<K, V>, re: nat)
  {
    match rd
    case Called => start <= |h.Log()|
    case HaveWriteIndex(w) =>
      Snapshot(h, start, hw) && w == Slot(hw.Current())
    case Scanning(i, r, n) =>
      && Snapshot(h, start, hw)
      && hw.flushed <= re <= h.flushed
      && i < CACHE_COUNT
      && r == Slot(re)
      && n + Distance(r, i) == Distance(r, Slot(hw.Current()))
      && i == Slot(hw.Current() + CACHE_COUNT - n)
      && Excluded(PurgedEpoch(s, h), hw, hw.Current() - n, k)
    case AtStore =>
      Snapshot(h, start, hw) && Excluded(PurgedEpoch(s, h), hw, -1, k)
    case Returned(v) => HeldSince(h, k, v, start)
  }

  ghost predicate Snapshot<K, V>(h: History<K, V>, start: nat, hw: History<K, V>) {
    && Extends(hw, h)
    && hw.Current() < hw.flushed + CACHE_COUNT
    && start <= |hw.Log()|
  }

  lemma PurgedGrows<K, V>(s: State<K, V>, h: History<K, V>, a: Action<K, V>)
    requires Agrees(s, h) && Enabled(s, a)
    ensures PurgedEpoch(s, h) <= PurgedEpoch(Step(s, a), Advance(h, a))
  {
  }

  /** The ring's steps keep the reader's invariant. */
  lemma RingKeepsReaderInv<K, V>(s: State<K, V>, h: History<K, V>, a: Action<K, V>, rd: Reader<V>, k: K,
                                 start: nat, hw: History<K, V>, re: nat)
    requires Agrees(s, h) && Enabled(s, a) && Agrees(Step(s, a), Advance(h, a))
    requires ReaderInv(s, h, rd, k, start, hw, re)
    ensures ReaderInv(Step(s, a), Advance(h, a), rd, k, start, hw, re)
  {
    PurgedGrows(s, h, a);
    AdvanceExtends(h, h, a);
    match rd
    case Called => AdvanceLog(h, a);
    case HaveWriteIndex(_) => AdvanceExtends(hw, h, a);
    case Scanning(_, _, _) => AdvanceExtends(hw, h, a);
    case AtStore => AdvanceExtends(hw, h, a);
    case Returned(v) =>
      var n :| start <= n && HeldAt(h, k, v, n);
      HeldLater(h, Advance(h, a), k, v, n);
  }

  // ---- The reader's steps ----

  /** The epoch whose entries slot i holds. */
  lemma EpochInSlot<K, V>(s: State<K, V>, h: History<K, V>, i: nat) returns (e: nat)
    requires Agrees(s, h) && i < CACHE_COUNT
    ensures h.flushed < e <= h.flushed + CACHE_COUNT && Slot(e) == i && SlotHolds(s, h, e)
  {
    var d := Distance(s.readIndex, i);
    e := if d == 0 then h.flushed + CACHE_COUNT else h.flushed + d;
    SlotShift(h.flushed, e - h.flushed);
  }

  /** A slot met after n probes holds the epoch aimed at, or one begun after writeIndex was read. */
  lemma ProbedEpoch(e: nat, w: nat, n: nat)
    requires n < CACHE_COUNT && w < e + CACHE_COUNT
    requires Slot(e) == Slot(w + CACHE_COUNT - n)
    ensures e == w - n || w < e
  {
    if e <= w && e != w - n {
      var a, b := e + CACHE_COUNT, w + CACHE_COUNT - n;
      if a < b { SlotDistinct(a, b); } else { SlotDistinct(b, a); }
    }
  }

  /** A probe that finds an entry finds a value held since the call. */
  lemma HitIsHeld<K, V>(s: State<K, V>, h: History<K, V>, k: K, start: nat, hw: History<K, V>, i: nat, n: nat)
    requires Agrees(s, h) && Snapshot(h, start, hw)
    requires n < CACHE_COUNT && i == Slot(hw.Current() + CACHE_COUNT - n)
    requires Excluded(PurgedEpoch(s, h), hw, hw.Current() - n, k)
    requires i < CACHE_COUNT && k in s.caches[i]
    ensures HeldSince(h, k, Resolve(s.caches[i], map[], k), start)
  {
    var w := hw.Current();
    var e := EpochInSlot(s, h, i);
    ProbedEpoch(e, w, n);
    ExtendsLog(hw, h);
    if w <= e {
      // still the epoch that was current, or a later one
      UpToGrows(h, w, e);
      HeldAtEpochEnd(h, e, k);
    } else {
      // a complete older epoch: nothing newer had written k when writeIndex was read
      assert h.Content(e) == hw.Content(e);
      forall x | e < x <= w ensures k !in hw.Content(x) { }
      HeldAtEnd(hw, e, k);
      ThroughEntry(hw, e, k);
      HeldLater(hw, h, k, Lookup(hw.Through(e), k), |hw.Log()|);
    }
  }

  lemma ThroughEntry<K, V>(h: History<K, V>, e: nat, k: K)
    requires e < |h.epochs| && k in h.Content(e)
    ensures Lookup(h.Through(e), k) == Resolve(h.Content(e), map[], k)
  {
    HeldAtEpochEnd(h, e, k);
    LogAt(h, e);
  }

  /** An epoch of the snapshot that is not purged is still in its slot. */
  lemma StillInSlot<K, V>(s: State<K, V>, h: History<K, V>, e: nat)
    requires Agrees(s, h) && PurgedEpoch(s, h) < e <= h.Current()
    ensures s.caches[Slot(e)] == h.Content(e)
  {
    assert SlotHolds(s, h, e);
  }

  /** A probe that finds nothing excludes one more epoch. */
  lemma MissExcludes<K, V>(s: State<K, V>, h: History<K, V>, k: K, start: nat, hw: History<K, V>, i: nat, n: nat)
    requires Agrees(s, h) && Snapshot(h, start, hw)
    requires n < CACHE_COUNT && i == Slot(hw.Current() + CACHE_COUNT - n)
    requires Excluded(PurgedEpoch(s, h), hw, hw.Current() - n, k)
    requires i < CACHE_COUNT && k !in s.caches[i]
    ensures Excluded(PurgedEpoch(s, h), hw, hw.Current() - n - 1, k)
  {
    var w := hw.Current();
    var e := w - n;
    if PurgedEpoch(s, h) < e {
      assert i == Slot(e + CACHE_COUNT) == Slot(e);
      MissedEpoch(s, h, k, start, hw, e);
    }
  }

  /** A key missing from an epoch's slot was not in the epoch when writeIndex was read. */
  lemma MissedEpoch<K, V>(s: State<K, V>, h: History<K, V>, k: K, start: nat, hw: History<K, V>, e: nat)
    requires Agrees(s, h) && Snapshot(h, start, hw) && PurgedEpoch(s, h) < e <= hw.Current()
    requires k !in s.caches[Slot(e)]
    ensures k !in hw.Content(e)
  {
    StillInSlot(s, h, e);
    FoldKeys(hw.epochs[e], h.epochs[e], k);
  }

  lemma FoldKeys<K, V>(a: seq<map<K, Entry<V>>>, b: seq<map<K, Entry<V>>>, k: K)
    requires a <= b
    ensures k in Fold(a) ==> k in Fold(b)
  {
    assert b == a + b[|a|..];
    FoldConcat(a, b[|a|..]);
  }

  lemma DistanceOfEpochs(r: nat, w: nat)
    requires r <= w < r + CACHE_COUNT
    ensures Distance(Slot(r), Slot(w)) == w - r
  {
    SlotShift(r, w - r);
  }

  /** When the scan meets readIndex every epoch up to the snapshot is excluded. */
  lemma ScanEnds<K, V>(s: State<K, V>, h: History<K, V>, k: K, hw: History<K, V>, re: nat, n: nat)
    requires hw.Valid() && hw.Current() < hw.flushed + CACHE_COUNT
    requires hw.flushed <= re <= h.flushed
    requires n == Distance(Slot(re), Slot(hw.Current()))
    requires Excluded(PurgedEpoch(s, h), hw, hw.Current() - n, k)
    ensures Excluded(PurgedEpoch(s, h), hw, -1, k)
  {
    var w := hw.Current();
    if re <= w {
      DistanceOfEpochs(re, w);
    }
  }

  /** The final store read returns a value held since the call. */
  lemma StoreReadIsHeld<K, V>(s: State<K, V>, h: History<K, V>, k: K, start: nat, hw: History<K, V>)
    requires Agrees(s, h) && Snapshot(h, start, hw)
    requires Excluded(PurgedEpoch(s, h), hw, -1, k)
    ensures HeldSince(h, k, Lookup(s.store, k), start)
  {
    var w, e := hw.Current(), StoredEpoch(s, h);
    ExtendsLog(hw, h);
    if w <= e {
      UpToGrows(h, w, e);
      LogAt(h, e);
      assert HeldAt(h, k, Lookup(s.store, k), UpTo(h, e));
    } else {
      assert hw.epochs[..e + 1] == h.epochs[..e + 1];
      forall x | e < x <= w ensures k !in hw.Content(x) { }
      HeldAtEnd(hw, e, k);
      HeldLater(hw, h, k, Lookup(s.store, k), |hw.Log()|);
    }
  }

  /** Snapshot history after a reader step. */
  ghost function NextSnapshot<K, V>(h: History<K, V>, rd: Reader<V>, hw: History<K, V>): History<K, V> {
    if rd.Called? then h else hw
  }

  ghost function NextRead<K, V>(h: History<K, V>, rd: Reader<V>, re: nat): nat {
    if rd.HaveWriteIndex? then h.flushed else re
  }

  /** A probe that misses moves the scan on. */
  lemma MissKeepsInv<K, V>(s: State<K, V>, h: History<K, V>, rd: Reader<V>, k: K,
                           start: nat, hw: History<K, V>, re: nat)
    requires Agrees(s, h) && ReaderOk(rd) && rd.Scanning? && ReaderInv(s, h, rd, k, start, hw, re)
    requires rd.index != rd.readIndex && k !in s.caches[rd.index]
    ensures ReaderInv(s, h, Scanning(Prev(rd.index), rd.readIndex, rd.count + 1), k, start, hw, re)
  {
    MissExcludes(s, h, k, start, hw, rd.index, rd.count);
    SlotNext(hw.Current() + CACHE_COUNT - rd.count - 1);
  }

  /** One probe of the scan. */
  lemma ProbeKeepsInv<K, V>(s: State<K, V>, h: History<K, V>, rd: Reader<V>, k: K,
                            start: nat, hw: History<K, V>, re: nat)
    requires Agrees(s, h) && ReaderOk(rd) && rd.Scanning? && ReaderInv(s, h, rd, k, start, hw, re)
    ensures ReaderInv(s, h, ReaderStep(s, rd, k), k, start, hw, re)
  {
    var Scanning(i, r, n) := rd;
    if i == r {
      ScanEnds(s, h, k, hw, re, n);
    } else if k in s.caches[i] {
      HitIsHeld(s, h, k, start, hw, i, n);
    } else {
      MissKeepsInv(s, h, rd, k, start, hw, re);
    }
  }

  /** The reader's own steps keep its invariant. */
  lemma ReaderKeepsInv<K, V>(s: State<K, V>, h: History<K, V>, rd: Reader<V>, k: K,
                             start: nat, hw: History<K, V>, re: nat)
    requires Agrees(s, h) && ReaderOk(rd) && ReaderInv(s, h, rd, k, start, hw, re)
    ensures ReaderInv(s, h, ReaderStep(s, rd, k), k, start, NextSnapshot(h, rd, hw), NextRead(h, rd, re))
  {
    match rd
    case Called =>
    case HaveWriteIndex(w) => SlotShift(hw.Current(), CACHE_COUNT);
    case Scanning(_, _, _) => ProbeKeepsInv(s, h, rd, k, start, hw, re);
    case AtStore => StoreReadIsHeld(s, h, k, start, hw);
    case Returned(_) =>
  }

  // ---- Whole interleavings ----

  /** Everything the proof tracks along an interleaving. */
  datatype Tracked<K, V> = Tracked(h: History<K, V>, hw: History<K, V>, re: nat)

  ghost predicate Tracks<K, V>(sys: System<K, V>, t: Tracked<K, V>, k: K, start: nat) {
    && Agrees(sys.ring, t.h)
    && ReaderOk(sys.reader)
    && ReaderInv(sys.ring, t.h, sys.reader, k, start, t.hw, t.re)
  }

  ghost function TrackStep<K, V>(sys: System<K, V>, t: Tracked<K, V>, m: Move<K, V>): Tracked<K, V>
    requires t.h.Valid()
  {
    match m
    case Ring(a) => t.(h := Advance(t.h, a))
    case Read => t.(hw := NextSnapshot(t.h, sys.reader, t.hw), re := NextRead(t.h, sys.reader, t.re))
  }

  lemma TrackRing<K, V>(sys: System<K, V>, t: Tracked<K, V>, k: K, start: nat, a: Action<K, V>)
    requires Tracks(sys, t, k, start) && Enabled(sys.ring, a)
    ensures Tracks(SystemStep(sys, k, Ring(a)), TrackStep(sys, t, Ring(a)), k, start)
    ensures var h' := TrackStep(sys, t, Ring(a)).h;
            h'.base == t.h.base && h'.Log() == t.h.Log() + if a.Commit? then [a.batch] else []
  {
    StepAgrees(sys.ring, t.h, a);
    RingKeepsReaderInv(sys.ring, t.h, a, sys.reader, k, start, t.hw, t.re);
    AdvanceLog(t.h, a);
  }

  lemma TrackRead<K, V>(sys: System<K, V>, t: Tracked<K, V>, k: K, start: nat)
    requires Tracks(sys, t, k, start)
    ensures Tracks(SystemStep(sys, k, Read), TrackStep(sys, t, Read), k, start)
  {
    ReaderKeepsInv(sys.ring, t.h, sys.reader, k, start, t.hw, t.re);
  }

  lemma {:induction false} Track<K, V>(s: State<K, V>, h: History<K, V>, k: K, moves: seq<Move<K, V>>)
      returns (t: Tracked<K, V>)
    requires Agrees(s, h) && ValidMoves(s, k, moves)
    ensures Tracks(Interleave(s, k, moves), t, k, |h.Log()|)
    ensures t.h.base == h.base && t.h.Log() == h.Log() + Commits(RingActions(moves))
    decreases |moves|
  {
    if moves == [] {
      t := Tracked(h, h, 0);
    } else {
      var init, last := moves[..|moves| - 1], moves[|moves| - 1];
      var before := Interleave(s, k, init);
      var t0 := Track(s, h, k, init);
      t := TrackStep(before, t0, last);
      if last.Ring? {
        TrackRing(before, t0, k, |h.Log()|, last.action);
        assert RingActions(moves) == RingActions(init) + [last.action];
        CommitsAppend(RingActions(init), last.action);
      } else {
        TrackRead(before, t0, k, |h.Log()|);
        assert RingActions(moves) == RingActions(init);
      }
    }
  }

  lemma CommitsAppend<K, V>(run: seq<Action<K, V>>, a: Action<K, V>)
    ensures Commits(run + [a]) == Commits(run) + if a.Commit? then [a.batch] else []
  {
    assert (run + [a])[..|run|] == run;
  }

  /**
   Concurrent reads are correct.  From any reachable state, however the steps of a GetObject(k)
   interleave with commits, rotations, flush phases, close and rebuild, a returned value is the
   one k had after some number n of commits between the call and the return.
   */
  lemma GetReturnsHeldValue<K, V>(store: map<K, V>, run: seq<Action<K, V>>, k: K, moves: seq<Move<K, V>>) returns (n: nat)
    requires ValidRun(Initial(store), run)
    requires ValidMoves(Exec(Initial(store), run), k, moves)
    requires Interleave(Exec(Initial(store), run), k, moves).reader.Returned?
    ensures var commits := Commits(run) + Commits(RingActions(moves));
            && |Commits(run)| <= n <= |commits|
            && Interleave(Exec(Initial(store), run), k, moves).reader.result
               == Lookup(Apply(store, Fold(commits[..n])), k)
  {
    var s, h := Exec(Initial(store), run), RunHistory(store, run);
    var t := Track(s, h, k, moves);
    var v := Interleave(s, k, moves).reader.result;
    n :| |h.Log()| <= n && HeldAt(t.h, k, v, n);
  }

  /**
   The scan never reaches its "cache get loop" branch: before each probe fewer than
   CACHE_COUNT - 1 probes have been made, so the counter stays below CACHE_COUNT.
   */
  lemma ScanIsBounded<K, V>(store: map<K, V>, run: seq<Action<K, V>>, k: K, moves: seq<Move<K, V>>)
    requires ValidRun(Initial(store), run)
    requires ValidMoves(Exec(Initial(store), run), k, moves)
    ensures var rd := Interleave(Exec(Initial(store), run), k, moves).reader;
            rd.Scanning? && rd.index != rd.readIndex ==> rd.count + 1 < CACHE_COUNT
  {
    var t := Track(Exec(Initial(store), run), RunHistory(store, run), k, moves);
  }
}
