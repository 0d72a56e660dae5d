/**
 The resend service keeps, for each account and token, a queue of blocks waiting to be confirmed.
 Every tick drops the confirmed front of a queue and republishes the first block behind it.
 Ticks and arrivals are steps; below, a tick split into load, resend and store is raced against arrivals, and an
 append split into load and store against a tick.
 */
module ResendQueue {
  import opened Ring
  import opened Blocks

  const MAX_RESENDS := 0x7fff_ffff

  /** One waiting block, as a value. */
  datatype Entry = Entry(hash: Hash, times: nat)

  /** `None` when the key is absent from the table of queues. */
  type Queue = Option<seq<Entry>>

  function Entries(q: Queue): seq<Entry> { if q.None? then [] else q.value }

  /** Entries for blocks not sent yet. */
  function Fresh(hashes: seq<Hash>): seq<Entry> {
    if hashes == [] then [] else Fresh(hashes[..|hashes| - 1]) + [Entry(hashes[|hashes| - 1], 0)]
  }

  lemma {:induction false} FreshAt(hashes: seq<Hash>)
    ensures |Fresh(hashes)| == |hashes|
    ensures forall i :: 0 <= i < |hashes| ==> Fresh(hashes)[i] == Entry(hashes[i], 0)
    decreases |hashes|
  {
    if hashes != [] {
      FreshAt(hashes[..|hashes| - 1]);
    }
  }

  function Hashes(entries: seq<Entry>): seq<Hash> { seq(|entries|, i requires 0 <= i < |entries| => entries[i].hash) }

  /** Length of the confirmed front. */
  function Front(entries: seq<Entry>, confirmed: set<Hash>): (k: nat)
    ensures k <= |entries|
    ensures forall i :: 0 <= i < k ==> entries[i].hash in confirmed
    ensures k < |entries| ==> entries[k].hash !in confirmed
  {
    if entries == [] || entries[0].hash !in confirmed then 0 else 1 + Front(entries[1..], confirmed)
  }

  // ---- One tick ----

  /** The queue a tick leaves: the suffix from the first unconfirmed entry, counted once more below the limit. */
  function Ticked(entries: seq<Entry>, confirmed: set<Hash>): Queue {
    var k := Front(entries, confirmed);
    if k == |entries| then None
    else if entries[k].times >= MAX_RESENDS then Some(entries[k..])
    else Some([Entry(entries[k].hash, entries[k].times + 1)] + entries[k + 1..])
  }

  /** The entries with the resent one counted. */
  function Counted(entries: seq<Entry>, confirmed: set<Hash>): (r: seq<Entry>)
    ensures |r| == |entries|
  {
    var k := Front(entries, confirmed);
    if k == |entries| || entries[k].times >= MAX_RESENDS then entries
    else entries[k := Entry(entries[k].hash, entries[k].times + 1)]
  }

  function Published(entries: seq<Entry>, confirmed: set<Hash>, known: set<Hash>): Option<Hash> {
    var k := Front(entries, confirmed);
    if k < |entries| && entries[k].times < MAX_RESENDS && entries[k].hash in known then Some(entries[k].hash) else None
  }

  function RolledBack(entries: seq<Entry>, confirmed: set<Hash>): Option<Hash> {
    var k := Front(entries, confirmed);
    if k < |entries| && entries[k].times >= MAX_RESENDS then Some(entries[k].hash) else None
  }

  /**
   What a tick does at the first unconfirmed entry: below the limit a known block is published, an unknown one
   is not; at the limit the block is rolled back.  With everything confirmed it does neither.
   */
  lemma FirstUnconfirmed(entries: seq<Entry>, confirmed: set<Hash>, known: set<Hash>, k: nat)
    requires k <= |entries| && (forall i :: 0 <= i < k ==> entries[i].hash in confirmed)
    requires k < |entries| ==> entries[k].hash !in confirmed
    ensures var published, rolledBack := Published(entries, confirmed, known), RolledBack(entries, confirmed);
            if k == |entries| then published == rolledBack == None
            else if entries[k].times >= MAX_RESENDS then published == None && rolledBack == Some(entries[k].hash)
            else rolledBack == None && published == if entries[k].hash in known then Some(entries[k].hash) else None
  {
    FrontIs(entries, confirmed, k);
  }

  /**
   A tick forgets a queue exactly when all of it is confirmed.  The removal made at the retry limit
   is undone by the store that follows it, so the entry stays and is rolled back at every later tick.
   */
  lemma ForgottenIff(entries: seq<Entry>, confirmed: set<Hash>)
    ensures Ticked(entries, confirmed).None? <==> forall i :: 0 <= i < |entries| ==> entries[i].hash in confirmed
    ensures RolledBack(entries, confirmed).Some? ==>
              && Ticked(entries, confirmed).Some?
              && RolledBack(Ticked(entries, confirmed).value, confirmed) == RolledBack(entries, confirmed)
  {
    var k := Front(entries, confirmed);
    if k < |entries| {
      assert entries[k..][0] == entries[k];
    }
  }

  /** At the limit the tick rolls the block back, and its entry is still there. */
  lemma GivenUpEntryStays(h: Hash)
    ensures var q := [Entry(h, MAX_RESENDS)];
            RolledBack(q, {}) == Some(h) && Ticked(q, {}) == Some(q)
  {
    var q := [Entry(h, MAX_RESENDS)];
    assert q[0..] == q;
  }

  // ---- Arrivals ----

  function Reverse(hashes: seq<Hash>): seq<Hash> {
    if hashes == [] then [] else Reverse(hashes[1..]) + [hashes[0]]
  }

  /** Newest first becomes oldest first. */
  lemma {:induction false} ReverseAt(hashes: seq<Hash>)
    ensures |Reverse(hashes)| == |hashes|
    ensures forall i :: 0 <= i < |hashes| ==> Reverse(hashes)[i] == hashes[|hashes| - 1 - i]
    decreases |hashes|
  {
    if hashes != [] {
      ReverseAt(hashes[1..]);
    }
  }

  /** Each block after the first has the one before it as its previous. */
  ghost predicate Linked(hashes: seq<Hash>) {
    forall i :: 0 < i < |hashes| ==> hashes[i].OfBlock? && hashes[i].block.previous == hashes[i - 1]
  }

  /** The reloaded chain is in the order its blocks must be published in: parent before child, up to the header. */
  lemma ReloadedIsChain(header: Hash, cached: set<Hash>)
    ensures var r := Reverse(Walk(header, cached));
            && Linked(r) && (forall i :: 0 <= i < |r| ==> r[i] in cached)
            && (r == [] <==> !(header.OfBlock? && header in cached))
            && (r != [] ==> r[|r| - 1] == header && r[0].OfBlock?)
            && (r != [] && r[0].block.previous.OfBlock? ==> r[0].block.previous !in cached)
  {
    var w, r := Walk(header, cached), Reverse(Walk(header, cached));
    WalkIsChain(header, cached);
    ReverseAt(w);
    forall i | 0 <= i < |r| ensures r[i] in cached {
      assert LinkedAt(w, cached, |w| - 1 - i);
    }
    forall i | 0 < i < |r| ensures r[i].OfBlock? && r[i].block.previous == r[i - 1] {
      assert LinkedAt(w, cached, |w| - 1 - i);
    }
  }

  /** What an arriving block appends: itself when it follows the last entry, else the reloaded chain. */
  function Taken(q: Queue, hash: Hash, previous: Hash, reload: seq<Hash>): seq<Hash> {
    var entries := Entries(q);
    if entries != [] && previous != entries[|entries| - 1].hash then reload else [hash]
  }

  function Appended(q: Queue, hashes: seq<Hash>): Queue {
    if hashes == [] then q else Some(Entries(q) + Fresh(hashes))
  }

  /**
   What an arriving block brings: itself, when the queue is empty or ends with its previous, so that the queue
   goes on as a chain; otherwise the cached chain from its oldest block to its header, or nothing without one.
   */
  lemma ArrivalIs(q: Queue, blk: StateBlock, header: Option<Hash>, cached: set<Hash>)
    ensures var entries, reload := Entries(q), if header.Some? then Reverse(Walk(header.value, cached)) else [];
            var taken := Taken(q, OfBlock(blk), blk.previous, reload);
            && Linked(taken)
            && (entries == [] ==> taken == [OfBlock(blk)])
            && (entries != [] && blk.previous == entries[|entries| - 1].hash ==>
                  taken == [OfBlock(blk)] && Linked([entries[|entries| - 1].hash] + taken))
            && (entries != [] && blk.previous != entries[|entries| - 1].hash ==>
                  (taken != [] <==> header.Some? && header.value.OfBlock? && header.value in cached) &&
                  (taken != [] ==> taken[|taken| - 1] == header.value))
  {
    if header.Some? {
      ReloadedIsChain(header.value, cached);
    }
  }

  // ---- Runs of one queue ----

  datatype Event =
    | Load(hash: Hash)
    | Arrive(hash: Hash, previous: Hash, reload: seq<Hash>)
    | Tick(confirmed: set<Hash>, known: set<Hash>)

  function TakenBy(q: Queue, e: Event): seq<Hash> {
    match e
    case Load(hash) => [hash]
    case Arrive(hash, previous, reload) => Taken(q, hash, previous, reload)
    case Tick(_, _) => []
  }

  function Step(q: Queue, e: Event): Queue {
    if e.Tick? then if q.None? then None else Ticked(q.value, e.confirmed)
    else Appended(q, TakenBy(q, e))
  }

  function Exec(run: seq<Event>): Queue {
    if run == [] then None else Step(Exec(run[..|run| - 1]), run[|run| - 1])
  }

  /** Everything ever appended, in order. */
  function Log(run: seq<Event>): seq<Hash> {
    if run == [] then [] else Log(run[..|run| - 1]) + TakenBy(Exec(run[..|run| - 1]), run[|run| - 1])
  }

  function DroppedBy(q: Queue, e: Event): nat {
    if e.Tick? then Front(Entries(q), e.confirmed) else 0
  }

  /** How many entries the ticks have dropped. */
  function Dropped(run: seq<Event>): nat {
    if run == [] then 0
    else Dropped(run[..|run| - 1]) + DroppedBy(Exec(run[..|run| - 1]), run[|run| - 1])
  }

  predicate ConfirmedAt(e: Event, h: Hash) { e.Tick? && h in e.confirmed }

  /** Some tick of the run saw the block confirmed. */
  ghost predicate ConfirmedIn(run: seq<Event>, h: Hash) {
    exists j :: 0 <= j < |run| && ConfirmedAt(run[j], h)
  }

  /** A stored queue is never empty, and only its first entry has ever been resent. */
  ghost predicate OnlyHeadResent(q: Queue) {
    && (q.Some? ==> q.value != [])
    && (forall i :: 0 < i < |Entries(q)| ==> Entries(q)[i].times == 0)
    && (Entries(q) != [] ==> Entries(q)[0].times <= MAX_RESENDS)
  }

  /** The queue is what remains of the log after the dropped entries. */
  ghost predicate Remains(q: Queue, log: seq<Hash>, dropped: nat) {
    dropped <= |log| && Hashes(Entries(q)) == log[dropped..]
  }

  lemma {:induction false} StepRemains(q: Queue, e: Event, log: seq<Hash>, dropped: nat)
    requires Remains(q, log, dropped)
    ensures Remains(Step(q, e), log + TakenBy(q, e), dropped + DroppedBy(q, e))
  {
    if e.Tick? {
      var k := Front(Entries(q), e.confirmed);
      assert |Hashes(Entries(q))| == |log| - dropped;
      assert Hashes(Entries(Step(q, e))) == Hashes(Entries(q))[k..];
      assert log + [] == log;
    } else {
      var t := TakenBy(q, e);
      FreshAt(t);
      assert Hashes(Entries(Step(q, e))) == Hashes(Entries(q)) + t;
    }
  }

  lemma StepHead(q: Queue, e: Event)
    requires OnlyHeadResent(q)
    ensures OnlyHeadResent(Step(q, e))
  {
    var next := Step(q, e);
    if e.Tick? && q.Some? {
      var k := Front(q.value, e.confirmed);
      forall i | 0 < i < |Entries(next)| ensures Entries(next)[i].times == 0 {
        assert Entries(next)[i] == q.value[k + i];
      }
    } else if !e.Tick? {
      FreshAt(TakenBy(q, e));
      forall i | 0 < i < |Entries(next)| ensures Entries(next)[i].times == 0 {
        assert i >= |Entries(q)| || Entries(next)[i] == Entries(q)[i];
      }
    }
  }

  lemma ConfirmedInMore(run: seq<Event>, h: Hash)
    requires run != [] && (ConfirmedIn(run[..|run| - 1], h) || ConfirmedAt(run[|run| - 1], h))
    ensures ConfirmedIn(run, h)
  {
    if ConfirmedIn(run[..|run| - 1], h) {
      var j :| 0 <= j < |run| - 1 && ConfirmedAt(run[..|run| - 1][j], h);
      assert ConfirmedAt(run[j], h);
    }
  }

  /** After any run the queue is a suffix of the log, and every block dropped from it was seen confirmed. */
  lemma {:induction false} RunKeepsOrder(run: seq<Event>)
    ensures Remains(Exec(run), Log(run), Dropped(run))
    ensures forall i :: 0 <= i < Dropped(run) ==> ConfirmedIn(run, Log(run)[i])
    ensures OnlyHeadResent(Exec(run))
    decreases |run|
  {
    if run != [] {
      var before, e := run[..|run| - 1], run[|run| - 1];
      var q, log, d := Exec(before), Log(before), Dropped(before);
      RunKeepsOrder(before);
      StepRemains(q, e, log, d);
      StepHead(q, e);
      forall i | 0 <= i < Dropped(run) ensures ConfirmedIn(run, Log(run)[i]) {
        if i >= d {
          assert Hashes(Entries(q))[i - d] == log[i];
        }
        ConfirmedInMore(run, Log(run)[i]);
      }
    }
  }

  function Zeros(n: nat): seq<nat> { seq(n, _ => 0) }

  /** After an event: for each block ever appended, at how many ticks it was the first unconfirmed one. */
  function CountFirst(firsts: seq<nat>, q: Queue, e: Event, dropped: nat): seq<nat> {
    if e.Tick? then
      var p := dropped + Front(Entries(q), e.confirmed);
      if p < |firsts| then firsts[p := firsts[p] + 1] else firsts
    else firsts + Zeros(|TakenBy(q, e)|)
  }

  function Firsts(run: seq<Event>): seq<nat> {
    if run == [] then []
    else
      var before := run[..|run| - 1];
      CountFirst(Firsts(before), Exec(before), run[|run| - 1], Dropped(before))
  }

  function Capped(n: nat): nat { if n < MAX_RESENDS then n else MAX_RESENDS }

  function Times(entries: seq<Entry>): seq<nat> { seq(|entries|, i requires 0 <= i < |entries| => entries[i].times) }

  function AllCapped(ns: seq<nat>): seq<nat> { seq(|ns|, i requires 0 <= i < |ns| => Capped(ns[i])) }

  ghost predicate TimesAre(entries: seq<Entry>, firsts: seq<nat>, dropped: nat) {
    dropped <= |firsts| && Times(entries) == AllCapped(firsts[dropped..])
  }

  lemma {:induction false} TickTimes(entries: seq<Entry>, confirmed: set<Hash>, known: set<Hash>, firsts: seq<nat>, dropped: nat)
    requires TimesAre(entries, firsts, dropped)
    ensures TimesAre(Entries(Ticked(entries, confirmed)),
                     CountFirst(firsts, Some(entries), Tick(confirmed, known), dropped), dropped + Front(entries, confirmed))
  {
    var k, rest := Front(entries, confirmed), Entries(Ticked(entries, confirmed));
    var firsts' := CountFirst(firsts, Some(entries), Tick(confirmed, known), dropped);
    assert |Times(entries)| == |entries| == |firsts| - dropped;
    forall i | 0 <= i < |rest| ensures rest[i].times == Capped(firsts'[dropped + k..][i]) {
      assert Times(entries)[k + i] == Capped(firsts[dropped..][k + i]);
      assert i > 0 ==> rest[i] == entries[k + i];
    }
  }

  lemma {:induction false} TimesConcat(a: seq<Entry>, b: seq<Entry>)
    ensures Times(a + b) == Times(a) + Times(b)
  {
  }

  lemma AllCappedConcat(a: seq<nat>, b: seq<nat>)
    ensures AllCapped(a + b) == AllCapped(a) + AllCapped(b)
  {
  }

  lemma {:induction false} TimesOfFresh(hashes: seq<Hash>)
    ensures Times(Fresh(hashes)) == AllCapped(Zeros(|hashes|))
  {
    FreshAt(hashes);
  }

  lemma {:induction false} AppendTimes(entries: seq<Entry>, hashes: seq<Hash>, firsts: seq<nat>, dropped: nat)
    requires TimesAre(entries, firsts, dropped)
    ensures TimesAre(entries + Fresh(hashes), firsts + Zeros(|hashes|), dropped)
  {
    TimesConcat(entries, Fresh(hashes));
    TimesOfFresh(hashes);
    AllCappedConcat(firsts[dropped..], Zeros(|hashes|));
    assert (firsts + Zeros(|hashes|))[dropped..] == firsts[dropped..] + Zeros(|hashes|);
  }

  lemma {:induction false} StepTimes(q: Queue, e: Event, firsts: seq<nat>, dropped: nat)
    requires TimesAre(Entries(q), firsts, dropped)
    ensures TimesAre(Entries(Step(q, e)), CountFirst(firsts, q, e, dropped), dropped + DroppedBy(q, e))
  {
    if e.Tick? && q.Some? {
      TickTimes(q.value, e.confirmed, e.known, firsts, dropped);
    } else if e.Tick? {
      assert |Times([])| == |AllCapped(firsts[dropped..])| == |firsts| - dropped;
    } else {
      var t := TakenBy(q, e);
      AppendTimes(Entries(q), t, firsts, dropped);
      assert t == [] ==> Entries(q) + Fresh(t) == Entries(q);
    }
  }

  /** Every retry counter is the number of ticks at which its block was first in line, up to the limit. */
  lemma {:induction false} TimesAreFirsts(run: seq<Event>)
    ensures TimesAre(Entries(Exec(run)), Firsts(run), Dropped(run))
    decreases |run|
  {
    if run != [] {
      var before, e := run[..|run| - 1], run[|run| - 1];
      TimesAreFirsts(before);
      StepTimes(Exec(before), e, Firsts(before), Dropped(before));
      assert Exec(run) == Step(Exec(before), e);
      assert Firsts(run) == CountFirst(Firsts(before), Exec(before), e, Dropped(before));
    }
  }

  /** No block that was never seen confirmed is ever dropped, whatever its retry count. */
  lemma NeverDropsUnconfirmed(run: seq<Event>, h: Hash)
    requires h in Log(run) && !ConfirmedIn(run, h)
    ensures h in Hashes(Entries(Exec(run)))
  {
    RunKeepsOrder(run);
    var i :| 0 <= i < |Log(run)| && Log(run)[i] == h;
    assert i >= Dropped(run);
    assert Log(run)[Dropped(run)..][i - Dropped(run)] == h;
  }

  /** A tick publishes only an unconfirmed block, and only when every block appended before it was seen confirmed. */
  lemma PublishedInOrder(run: seq<Event>, confirmed: set<Hash>, known: set<Hash>)
    requires Published(Entries(Exec(run)), confirmed, known).Some?
    ensures var run' := run + [Tick(confirmed, known)];
            var h := Published(Entries(Exec(run)), confirmed, known).value;
            && Dropped(run') < |Log(run')| && Log(run')[Dropped(run')] == h
            && h !in confirmed && h in known
            && forall i :: 0 <= i < Dropped(run') ==> ConfirmedIn(run', Log(run')[i])
  {
    var run' := run + [Tick(confirmed, known)];
    assert run'[..|run'| - 1] == run;
    RunKeepsOrder(run');
    RunKeepsOrder(run);
    var k := Front(Entries(Exec(run)), confirmed);
    assert Hashes(Entries(Exec(run)))[k] == Log(run)[Dropped(run)..][k];
  }

  // ---- A tick racing with arrivals ----

  /** The table's queue, and the slices a tick and an append have loaded from it.  Their entries are shared. */
  datatype Racing = Racing(queue: Queue, loaded: Option<seq<Entry>>, appending: Queue)

  datatype RaceStep =
    | LoadQueue
    | Resend(confirmed: set<Hash>)
    | StoreQueue(confirmed: set<Hash>)
    | AppendLoad
    | AppendStore(hash: Hash)
    | Between(arrival: Event)  // a whole arrival, not split

  /** The queue with its entry k replaced, if it still has one. */
  function Recount(q: Queue, k: nat, e: Entry): Queue {
    if q.Some? && k < |q.value| then Some(q.value[k := e]) else q
  }

  function RaceOne(r: Racing, step: RaceStep): Racing {
    match step
    case LoadQueue => r.(loaded := r.queue)
    case Resend(confirmed) =>
      if r.loaded.None? then r
      else
        var k := Front(r.loaded.value, confirmed);
        var counted := Counted(r.loaded.value, confirmed);
        if RolledBack(r.loaded.value, confirmed).Some? then r.(queue := None)
        else if k == |counted| then r
        else Racing(Recount(r.queue, k, counted[k]), Some(counted), Recount(r.appending, k, counted[k]))
    case StoreQueue(confirmed) =>
      if r.loaded.None? then r
      else
        var k := Front(r.loaded.value, confirmed);
        r.(queue := if k < |r.loaded.value| then Some(r.loaded.value[k..]) else None)
    case AppendLoad => r.(appending := r.queue)
    case AppendStore(hash) => r.(queue := Appended(r.appending, [hash]))
    case Between(arrival) => r.(queue := Step(r.queue, arrival))
  }

  function RaceAll(r: Racing, steps: seq<RaceStep>): Racing
    decreases |steps|
  {
    if steps == [] then r else RaceAll(RaceOne(r, steps[0]), steps[1..])
  }

  ghost predicate OnlyArrivals(steps: seq<RaceStep>) {
    forall i :: 0 <= i < |steps| ==>
      steps[i].AppendLoad? || steps[i].AppendStore? || (steps[i].Between? && !steps[i].arrival.Tick?)
  }

  lemma {:induction false} ArrivalsKeepLoaded(r: Racing, steps: seq<RaceStep>)
    requires OnlyArrivals(steps)
    ensures RaceAll(r, steps).loaded == r.loaded
    decreases |steps|
  {
    if steps != [] {
      ArrivalsKeepLoaded(RaceOne(r, steps[0]), steps[1..]);
    }
  }

  lemma {:induction false} RaceJoin(r: Racing, a: seq<RaceStep>, b: seq<RaceStep>)
    ensures RaceAll(r, a + b) == RaceAll(RaceAll(r, a), b)
    decreases |a|
  {
    if a == [] {
      assert a + b == b;
    } else {
      assert (a + b)[1..] == a[1..] + b;
      RaceJoin(RaceOne(r, a[0]), a[1..], b);
    }
  }

  /** The steps of one tick, with arrivals before and after it resends. */
  function RacedTick(first: seq<RaceStep>, confirmed: set<Hash>, second: seq<RaceStep>): seq<RaceStep> {
    [LoadQueue] + (first + ([Resend(confirmed)] + (second + [StoreQueue(confirmed)])))
  }

  /**
   Whatever is stored between a tick's load and its store, whole arrivals or appends loaded at any time
   before, is overwritten: the outcome is the tick's on what it loaded.
   */
  lemma RaceOverwrites(entries: seq<Entry>, appending: Queue, first: seq<RaceStep>, confirmed: set<Hash>, second: seq<RaceStep>)
    requires OnlyArrivals(first) && OnlyArrivals(second)
    ensures RaceAll(Racing(Some(entries), None, appending), RacedTick(first, confirmed, second)).queue == Ticked(entries, confirmed)
  {
    var r := RaceOne(Racing(Some(entries), None, appending), LoadQueue);
    var afterFirst := RaceAll(r, first);
    var resent := RaceOne(afterFirst, Resend(confirmed));
    ArrivalsKeepLoaded(r, first);
    ArrivalsKeepLoaded(resent, second);
    RaceJoin(r, first, [Resend(confirmed)] + (second + [StoreQueue(confirmed)]));
    RaceJoin(resent, second, [StoreQueue(confirmed)]);
    CountedFront(entries, confirmed);
    TickedIs(entries, confirmed);
  }

  lemma {:induction false} CountedFront(entries: seq<Entry>, confirmed: set<Hash>)
    ensures Front(Counted(entries, confirmed), confirmed) == Front(entries, confirmed)
  {
    FrontIs(Counted(entries, confirmed), confirmed, Front(entries, confirmed));
  }

  /** All of these blocks are confirmed. */
  ghost predicate AllConfirmed(hashes: seq<Hash>, confirmed: set<Hash>) {
    forall i :: 0 <= i < |hashes| ==> hashes[i] in confirmed
  }

  /**
   One arrival during the tick, before or after it resends, against the two serial orders: the outcome is
   that of tick, then arrival, exactly when the arrival would append nothing to the ticked queue; and that
   of arrival, then tick, exactly when it appends nothing, or everything in the queue and everything it
   appends is confirmed.
   */
  lemma RaceIsSerialIff(entries: seq<Entry>, arrival: Event, confirmed: set<Hash>, known: set<Hash>, early: bool)
    requires !arrival.Tick?
    ensures var q, tick := Some(entries), Tick(confirmed, known);
            var during := [Between(arrival)];
            var steps := if early then RacedTick(during, confirmed, []) else RacedTick([], confirmed, during);
            var outcome := RaceAll(Racing(q, None, None), steps).queue;
            && (outcome == Step(Step(q, tick), arrival) <==> TakenBy(Step(q, tick), arrival) == [])
            && (outcome == Step(Step(q, arrival), tick) <==>
                TakenBy(q, arrival) == [] ||
                (AllConfirmed(Hashes(entries), confirmed) && AllConfirmed(TakenBy(q, arrival), confirmed)))
  {
    var q, tick, during := Some(entries), Tick(confirmed, known), [Between(arrival)];
    RaceOverwrites(entries, None, if early then during else [], confirmed, if early then [] else during);
    var t := TakenBy(Step(q, tick), arrival);
    FreshAt(t);
    assert t != [] ==> |Entries(Step(Step(q, tick), arrival))| == |Entries(Step(q, tick))| + |t|;
    TickAppendedIff(entries, TakenBy(q, arrival), confirmed);
  }

  /** When appending first makes no difference to what a tick leaves. */
  lemma {:induction false} TickAppendedIff(entries: seq<Entry>, hashes: seq<Hash>, confirmed: set<Hash>)
    ensures Ticked(entries + Fresh(hashes), confirmed) == Ticked(entries, confirmed) <==>
            hashes == [] || (AllConfirmed(Hashes(entries), confirmed) && AllConfirmed(hashes, confirmed))
  {
    FreshAt(hashes);
    var all, k := entries + Fresh(hashes), Front(entries, confirmed);
    if hashes == [] {
      assert all == entries;
    } else if k < |entries| {
      assert all[k] == entries[k];
      FrontIs(all, confirmed, k);
      assert |Entries(Ticked(all, confirmed))| == |all| - k > |Entries(Ticked(entries, confirmed))|;
      assert Hashes(entries)[k] !in confirmed;
    } else {
      ForgottenIff(all, confirmed);
      ConfirmedConcat(entries, hashes, confirmed);
    }
  }

  lemma {:induction false} ConfirmedConcat(entries: seq<Entry>, hashes: seq<Hash>, confirmed: set<Hash>)
    ensures (forall i :: 0 <= i < |entries + Fresh(hashes)| ==> (entries + Fresh(hashes))[i].hash in confirmed) <==>
            AllConfirmed(Hashes(entries), confirmed) && AllConfirmed(hashes, confirmed)
  {
    FreshAt(hashes);
    var all, n := entries + Fresh(hashes), |entries|;
    if forall i :: 0 <= i < |all| ==> all[i].hash in confirmed {
      forall i | 0 <= i < n ensures Hashes(entries)[i] in confirmed { assert all[i] == entries[i]; }
      forall i | 0 <= i < |hashes| ensures hashes[i] in confirmed { assert all[n + i].hash == hashes[i]; }
    }
    if AllConfirmed(Hashes(entries), confirmed) && AllConfirmed(hashes, confirmed) {
      forall i | 0 <= i < |all| ensures all[i].hash in confirmed {
        assert all[i].hash == if i < n then Hashes(entries)[i] else hashes[i - n];
      }
    }
  }

  /** A block that only arrives during a tick on a live queue is lost, confirmed or not. */
  lemma RaceLosesArrival(entries: seq<Entry>, appending: Queue, first: seq<RaceStep>, confirmed: set<Hash>,
                         second: seq<RaceStep>, h: Hash)
    requires OnlyArrivals(first) && OnlyArrivals(second) && h !in Hashes(entries)
    ensures h !in Hashes(Entries(RaceAll(Racing(Some(entries), None, appending), RacedTick(first, confirmed, second)).queue))
  {
    RaceOverwrites(entries, appending, first, confirmed, second);
    var k, rest := Front(entries, confirmed), Entries(Ticked(entries, confirmed));
    forall i | 0 <= i < |rest| ensures Hashes(rest)[i] != h {
      assert Hashes(rest)[i] == rest[i].hash == entries[k + i].hash == Hashes(entries)[k + i];
    }
  }

  // ---- An append split by a tick ----

  /** When an append that stores after the tick did its load. */
  datatype Moment = BeforeLoad | BeforeResend | BeforeStore

  /** The steps of one tick and one append, which stores after the tick has stored. */
  function SplitAppend(m: Moment, confirmed: set<Hash>, hash: Hash): seq<RaceStep> {
    var resend, store, append := Resend(confirmed), StoreQueue(confirmed), AppendStore(hash);
    match m
    case BeforeLoad => [AppendLoad, LoadQueue, resend, store, append]
    case BeforeResend => [LoadQueue, AppendLoad, resend, store, append]
    case BeforeStore => [LoadQueue, resend, AppendLoad, store, append]
  }

  /** The queue left when an append stores what it loaded before the tick's store. */
  function Outcome(entries: seq<Entry>, m: Moment, confirmed: set<Hash>, hash: Hash): Queue {
    RaceAll(Racing(Some(entries), None, None), SplitAppend(m, confirmed, hash)).queue
  }

  /** The append loads while the key is removed, between the giving up of a block and the tick's store. */
  predicate LoadsNothing(entries: seq<Entry>, m: Moment, confirmed: set<Hash>) {
    m.BeforeStore? && RolledBack(entries, confirmed).Some?
  }

  lemma {:induction false} RaceCons(r: Racing, step: RaceStep, rest: seq<RaceStep>)
    ensures RaceAll(r, [step] + rest) == RaceAll(RaceOne(r, step), rest)
  {
    assert ([step] + rest)[1..] == rest;
  }

  lemma {:induction false} RaceFive(r: Racing, a: RaceStep, b: RaceStep, c: RaceStep, d: RaceStep, e: RaceStep)
    ensures RaceAll(r, [a, b, c, d, e]) == RaceOne(RaceOne(RaceOne(RaceOne(RaceOne(r, a), b), c), d), e)
  {
    var r1 := RaceOne(r, a);
    var r2 := RaceOne(r1, b);
    var r3 := RaceOne(r2, c);
    var r4 := RaceOne(r3, d);
    assert [a, b, c, d, e] == [a] + [b, c, d, e] && [b, c, d, e] == [b] + [c, d, e];
    assert [c, d, e] == [c] + [d, e] && [d, e] == [d] + [e] && [e] == [e] + [];
    RaceCons(r, a, [b, c, d, e]);
    RaceCons(r1, b, [c, d, e]);
    RaceCons(r2, c, [d, e]);
    RaceCons(r3, d, [e]);
    RaceCons(r4, e, []);
  }

  /** Resending counts the entry wherever it is shared, or removes the key. */
  lemma {:induction false} ResendShares(entries: seq<Entry>, confirmed: set<Hash>, appending: Queue)
    requires appending == None || appending == Some(entries)
    ensures var counted := Counted(entries, confirmed);
            RaceOne(Racing(Some(entries), Some(entries), appending), Resend(confirmed)) ==
            Racing(if RolledBack(entries, confirmed).Some? then None else Some(counted), Some(counted),
                   if appending == None then None else Some(counted))
  {
    var k, counted := Front(entries, confirmed), Counted(entries, confirmed);
    if k < |entries| {
      assert entries[k := counted[k]] == counted;
    }
  }

  /**
   The append overwrites the tick's store: every entry the tick dropped is back, unless the append loaded
   while the key was removed, and then nothing but the new block is left.
   */
  lemma {:induction false} AppendOverwrites(entries: seq<Entry>, m: Moment, confirmed: set<Hash>, hash: Hash)
    ensures Outcome(entries, m, confirmed, hash) ==
            Some((if LoadsNothing(entries, m, confirmed) then [] else Counted(entries, confirmed)) + [Entry(hash, 0)])
  {
    var r := Racing(Some(entries), None, None);
    var resend, store, append := Resend(confirmed), StoreQueue(confirmed), AppendStore(hash);
    FreshOne(hash);
    ResendShares(entries, confirmed, if m.BeforeStore? then None else Some(entries));
    match m
    case BeforeLoad => RaceFive(r, AppendLoad, LoadQueue, resend, store, append);
    case BeforeResend => RaceFive(r, LoadQueue, AppendLoad, resend, store, append);
    case BeforeStore => RaceFive(r, LoadQueue, resend, AppendLoad, store, append);
  }

  /**
   Against the serial orders: the outcome is that of tick, then append, exactly when the tick drops nothing
   and the append does not load while the key is removed; and that of append, then tick, exactly when
   besides the queue is not empty.
   */
  lemma {:induction false} SplitAppendIsSerialIff(entries: seq<Entry>, m: Moment, confirmed: set<Hash>, known: set<Hash>, hash: Hash)
    ensures var q, tick, outcome := Some(entries), Tick(confirmed, known), Outcome(entries, m, confirmed, hash);
            var kept := Front(entries, confirmed) == 0 && !LoadsNothing(entries, m, confirmed);
            && (outcome == Step(Step(q, tick), Load(hash)) <==> kept)
            && (outcome == Step(Step(q, Load(hash)), tick) <==> kept && entries != [])
  {
    AppendOverwrites(entries, m, confirmed, hash);
    FreshOne(hash);
    TickedIs(entries, confirmed);
    var k, counted := Front(entries, confirmed), Counted(entries, confirmed);
    assert k == 0 ==> counted[k..] == counted;
    assert Entries(Ticked(entries, confirmed)) == counted[k..];
    AppendThenTick(entries, confirmed, hash);
  }

  lemma {:induction false} FrontOfAppended(entries: seq<Entry>, confirmed: set<Hash>, e: Entry)
    ensures var k := Front(entries, confirmed);
            Front(entries + [e], confirmed) == if k == |entries| && e.hash in confirmed then k + 1 else k
  {
    var k, all := Front(entries, confirmed), entries + [e];
    assert forall j :: 0 <= j < |entries| ==> all[j] == entries[j];
    FrontIs(all, confirmed, if k == |entries| && e.hash in confirmed then k + 1 else k);
  }

  lemma {:induction false} UpdateThenAppend<T>(s: seq<T>, k: nat, x: T, e: T)
    requires k < |s|
    ensures (s + [e])[k] == s[k] && (s + [e])[k := x] == s[k := x] + [e]
  {
  }

  lemma {:induction false} CountedOfAppended(entries: seq<Entry>, confirmed: set<Hash>, e: Entry)
    requires Front(entries, confirmed) < |entries|
    ensures Counted(entries + [e], confirmed) == Counted(entries, confirmed) + [e]
  {
    var k := Front(entries, confirmed);
    FrontOfAppended(entries, confirmed, e);
    UpdateThenAppend(entries, k, Entry(entries[k].hash, entries[k].times + 1), e);
  }

  lemma {:induction false} AppendThenTick(entries: seq<Entry>, confirmed: set<Hash>, hash: Hash)
    ensures var k, e := Front(entries, confirmed), Entry(hash, 0);
            Ticked(entries + [e], confirmed) ==
            if k < |entries| then Some(Counted(entries, confirmed)[k..] + [e])
            else if hash in confirmed then None else Some([Entry(hash, 1)])
  {
    var k, e := Front(entries, confirmed), Entry(hash, 0);
    TickedIs(entries + [e], confirmed);
    FrontOfAppended(entries, confirmed, e);
    if k < |entries| {
      CountedOfAppended(entries, confirmed, e);
      assert (Counted(entries, confirmed) + [e])[k..] == Counted(entries, confirmed)[k..] + [e];
    } else if hash !in confirmed {
      assert (entries + [e])[k := Entry(hash, 1)][k..] == [Entry(hash, 1)];
    }
  }

  /** So the queue stays what remains of the log after the dropped entries under the same condition, and no other. */
  lemma {:induction false} SplitAppendRemainsIff(entries: seq<Entry>, m: Moment, confirmed: set<Hash>, hash: Hash, log: seq<Hash>, dropped: nat)
    requires Remains(Some(entries), log, dropped)
    ensures Remains(Outcome(entries, m, confirmed, hash), log + [hash], dropped + Front(entries, confirmed)) <==>
            Front(entries, confirmed) == 0 && !LoadsNothing(entries, m, confirmed)
  {
    AppendOverwrites(entries, m, confirmed, hash);
    var k, q := Front(entries, confirmed), Outcome(entries, m, confirmed, hash);
    var rest := (log + [hash])[dropped + k..];
    assert |Hashes(entries)| == |entries| == |log| - dropped;
    if LoadsNothing(entries, m, confirmed) || k > 0 {
      assert |Hashes(Entries(q))| != |rest|;
    } else {
      assert Hashes(Entries(q)) == Hashes(entries) + [hash];
      assert rest == log[dropped..] + [hash];
    }
  }

  /** An in-order arrival is one append, before a tick or after it. */
  lemma {:induction false} InOrderIsAppend(entries: seq<Entry>, hash: Hash, previous: Hash, reload: seq<Hash>, confirmed: set<Hash>)
    requires entries == [] || previous == entries[|entries| - 1].hash
    ensures Step(Some(entries), Arrive(hash, previous, reload)) == Step(Some(entries), Load(hash))
    ensures var q := Ticked(entries, confirmed);
            Step(q, Arrive(hash, previous, reload)) == Step(q, Load(hash))
  {
    var rest := Entries(Ticked(entries, confirmed));
    if rest != [] {
      TickedIs(entries, confirmed);
      assert rest[|rest| - 1] == Counted(entries, confirmed)[|entries| - 1];
    }
  }

  /** A confirmed block that a tick drops while another one is appended is queued again. */
  lemma DroppedComesBack(h: Hash, hash: Hash)
    ensures var q := [Entry(h, 1)];
            Ticked(q, {h}) == None && Outcome(q, BeforeLoad, {h}, hash) == Some([Entry(h, 1), Entry(hash, 0)])
  {
    var q := [Entry(h, 1)];
    AppendOverwrites(q, BeforeLoad, {h}, hash);
    FrontIs(q, {h}, 1);
    assert q + [Entry(hash, 0)] == [Entry(h, 1), Entry(hash, 0)];
  }

  // ---- The service ----

  class ResendTimes {
    const hash: Hash
    var resendTimes: nat

    constructor (hash: Hash)
      ensures this.hash == hash && resendTimes == 0
    {
      this.hash := hash;
      resendTimes := 0;
    }
  }

  /** Elements of `all` that are not in `some`. */
  function Difference<T(==)>(all: seq<T>, some: seq<T>): seq<T> {
    if all == [] then []
    else
      var last := all[|all| - 1];
      Difference(all[..|all| - 1], some) + if last in some then [] else [last]
  }

  /** The difference is taken element by element, in order. */
  lemma {:induction false} DifferenceConcat<T>(a: seq<T>, b: seq<T>, some: seq<T>)
    ensures Difference(a + b, some) == Difference(a, some) + Difference(b, some)
    decreases |b|
  {
    if b == [] {
      assert a + b == a;
    } else {
      var n := |b| - 1;
      assert (a + b)[..|a + b| - 1] == a + b[..n];
      DifferenceConcat(a, b[..n], some);
    }
  }

  lemma DifferenceOfOne<T>(x: T, some: seq<T>)
    ensures Difference([x], some) == if x in some then [] else [x]
  {
    assert [x][..0] == [];
  }

  ghost predicate Distinct<T>(s: seq<T>) {
    s == [] || (Distinct(s[..|s| - 1]) && s[|s| - 1] !in s[..|s| - 1])
  }

  lemma {:induction false} DistinctSuffix<T>(s: seq<T>, k: nat)
    requires Distinct(s) && k <= |s|
    ensures Distinct(s[k..])
    decreases |s|
  {
    if k < |s| {
      var init := s[..|s| - 1];
      DistinctSuffix(init, k);
      assert s[k..][..|s| - 1 - k] == init[k..];
    }
  }

  lemma {:induction false} DistinctPairs<T>(s: seq<T>)
    requires Distinct(s)
    ensures forall i, j :: 0 <= i < j < |s| ==> s[i] != s[j]
    decreases |s|
  {
    if s != [] {
      DistinctPairs(s[..|s| - 1]);
    }
  }

  /** Removing a front by identity leaves the suffix. */
  lemma {:induction false} DifferenceOfFront<T>(all: seq<T>, k: nat)
    requires Distinct(all) && k <= |all|
    ensures Difference(all, all[..k]) == all[k..]
    decreases |all|
  {
    var n := |all|;
    if n == k {
      AllInside(all, all[..k]);
    } else {
      assert all[..n - 1][..k] == all[..k];
      DifferenceOfFront(all[..n - 1], k);
      assert all[n - 1] !in all[..k];
      assert all[k..] == all[..n - 1][k..] + [all[n - 1]];
    }
  }

  lemma {:induction false} AllInside<T>(all: seq<T>, some: seq<T>)
    requires forall x :: x in all ==> x in some
    ensures Difference(all, some) == []
    decreases |all|
  {
    if all != [] {
      AllInside(all[..|all| - 1], some);
    }
  }

  method InSlice(v: ResendTimes, slice: seq<ResendTimes>) returns (found: bool)
    ensures found <==> v in slice
  {
    var i := 0;
    while i < |slice|
      invariant 0 <= i <= |slice| && v !in slice[..i]
    {
      if slice[i] == v {
        return true;
      }
      i := i + 1;
    }
    assert slice[..i] == slice;
    return false;
  }

  method SliceDiff(slice1: seq<ResendTimes>, slice2: seq<ResendTimes>) returns (diff: seq<ResendTimes>)
    ensures diff == Difference(slice1, slice2)
  {
    diff := [];
    var i := 0;
    while i < |slice1|
      invariant 0 <= i <= |slice1| && diff == Difference(slice1[..i], slice2)
    {
      assert slice1[..i + 1][..i] == slice1[..i];
      var found := InSlice(slice1[i], slice2);
      if !found {
        diff := diff + [slice1[i]];
      }
      i := i + 1;
    }
    assert slice1[..i] == slice1;
  }

  ghost function ValuesOf(objects: seq<ResendTimes>): (r: seq<Entry>)
    reads objects
  {
    seq(|objects|, i requires 0 <= i < |objects| reads objects => Entry(objects[i].hash, objects[i].resendTimes))
  }

  lemma SuffixValues(objects: seq<ResendTimes>, k: nat)
    requires k <= |objects|
    ensures ValuesOf(objects[k..]) == ValuesOf(objects)[k..]
  {
  }

  /** One more resend of entry i, seen through every slice that shares it. */
  method Count(hs: seq<ResendTimes>, i: nat)
    requires Distinct(hs) && i < |hs|
    modifies hs[i]
    ensures ValuesOf(hs) == old(ValuesOf(hs))[i := Entry(hs[i].hash, old(hs[i].resendTimes) + 1)]
  {
    DistinctPairs(hs);
    hs[i].resendTimes := hs[i].resendTimes + 1;
  }

  /** The entry of one account and token in the service's table of queues; no call touches another entry. */
  class WaitingBlocks {
    var hashSet: Option<seq<ResendTimes>>

    ghost function Objects(): seq<ResendTimes>
      reads this
    {
      if hashSet.Some? then hashSet.value else []
    }

    ghost predicate Valid()
      reads this
    {
      Distinct(Objects())
    }

    ghost function Value(): Queue
      reads this, Objects()
    {
      if hashSet.Some? then Some(ValuesOf(hashSet.value)) else None
    }

    constructor ()
      ensures Valid() && Value() == None
    {
      hashSet := None;
    }

    /** The loop of a tick: collects the confirmed front and resends, or gives up, the entry behind it. */
    method Resend(hs: seq<ResendTimes>, confirmed: set<Hash>, known: set<Hash>)
        returns (front: seq<ResendTimes>, published: Option<Hash>, rolledBack: Option<Hash>)
      requires Distinct(hs)
      modifies this, hs
      ensures front == hs[..Front(old(ValuesOf(hs)), confirmed)]
      ensures ValuesOf(hs) == Counted(old(ValuesOf(hs)), confirmed)
      ensures published == Published(old(ValuesOf(hs)), confirmed, known)
      ensures rolledBack == RolledBack(old(ValuesOf(hs)), confirmed)
      ensures hashSet == if rolledBack.Some? then None else old(hashSet)
    {
      ghost var was := ValuesOf(hs);
      published, rolledBack := None, None;
      front := [];
      var i := 0;
      while i < |hs|
        invariant 0 <= i <= |hs| && front == hs[..i]
        invariant forall j :: 0 <= j < i ==> hs[j].hash in confirmed
        invariant hashSet == old(hashSet) && ValuesOf(hs) == was
        invariant published == None && rolledBack == None
      {
        var j := hs[i];
        if j.hash in confirmed {
          front := front + [j];
        } else {
          FrontIs(was, confirmed, i);
          assert was[i] == Entry(j.hash, j.resendTimes);
          if j.resendTimes >= MAX_RESENDS {
            hashSet := None;
            rolledBack := Some(j.hash);
          } else {
            if j.hash in known {
              published := Some(j.hash);
            }
            Count(hs, i);
          }
          return;
        }
        i := i + 1;
      }
      FrontIs(was, confirmed, i);
    }

    /** Stores what is left of the queue, or forgets it. */
    method StoreRest(hs: seq<ResendTimes>, front: seq<ResendTimes>)
      requires Distinct(hs) && front <= hs
      modifies this
      ensures Valid()
      ensures Value() == if |front| < |hs| then Some(ValuesOf(hs)[|front|..]) else None
      ensures ValuesOf(hs) == old(ValuesOf(hs))
    {
      if |front| < |hs| {
        assert front == hs[..|front|];
        DifferenceOfFront(hs, |front|);
        DistinctSuffix(hs, |front|);
        var diff := SliceDiff(hs, front);
        assert diff == hs[|front|..];
        SuffixValues(hs, |front|);
        hashSet := Some(diff);
      } else {
        hashSet := None;
      }
    }

    /** One tick of the service on this queue. */
    method Tick(confirmed: set<Hash>, known: set<Hash>)
        returns (published: Option<Hash>, rolledBack: Option<Hash>)
      requires Valid() && hashSet.Some?
      modifies this, Objects()
      ensures Valid()
      ensures Value() == Ticked(Entries(old(Value())), confirmed)
      ensures published == Published(Entries(old(Value())), confirmed, known)
      ensures rolledBack == RolledBack(Entries(old(Value())), confirmed)
    {
      var hs := hashSet.value;
      ghost var was := Entries(Value());
      assert was == ValuesOf(hs);
      var front;
      front, published, rolledBack := Resend(hs, confirmed, known);
      TickedIs(was, confirmed);
      StoreRest(hs, front);
    }

    /** Appending one entry to the queue, new or not. */
    method Append(hash: Hash)
      requires Valid()
      modifies this
      ensures Valid()
      ensures Value() == Appended(old(Value()), [hash])
    {
      ghost var s := Objects();
      var rt := new ResendTimes(hash);
      FreshOne(hash);
      assert ValuesOf(s + [rt]) == ValuesOf(s) + Fresh([hash]);
      assert (s + [rt])[..|s|] == s;
      if hashSet.None? {
        assert [rt] == s + [rt];
        hashSet := Some([rt]);
      } else {
        hashSet := Some(hashSet.value + [rt]);
      }
    }

    /** A block received from the block cache. */
    method Arrive(blk: StateBlock, header: Option<Hash>, cached: set<Hash>)
      requires Valid()
      modifies this
      ensures Valid()
      ensures var reload := if header.Some? then Reverse(Walk(header.value, cached)) else [];
              Value() == Appended(old(Value()), Taken(old(Value()), OfBlock(blk), blk.previous, reload))
    {
      ghost var q, reload := Value(), if header.Some? then Reverse(Walk(header.value, cached)) else [];
      ghost var taken := Taken(q, OfBlock(blk), blk.previous, reload);
      if hashSet.Some? && |hashSet.value| > 0 && blk.previous != hashSet.value[|hashSet.value| - 1].hash {
        assert taken == reload;
        if header.Some? {
          var caches := LoadChain(header.value, cached);
          Reload(caches);
        }
      } else {
        assert taken == [OfBlock(blk)];
        Append(OfBlock(blk));
      }
    }

    /** The blocks collected newest first are appended oldest first. */
    method Reload(caches: seq<Hash>)
      requires Valid()
      modifies this
      ensures Valid()
      ensures Value() == Appended(old(Value()), Reverse(caches))
    {
      var i := |caches|;
      while i > 0
        invariant 0 <= i <= |caches|
        invariant Valid()
        invariant Value() == Appended(old(Value()), Reverse(caches[i..]))
      {
        i := i - 1;
        assert caches[i..][1..] == caches[i + 1..];
        AppendOne(old(Value()), Reverse(caches[i + 1..]), caches[i]);
        Append(caches[i]);
      }
      assert caches[i..] == caches;
    }
  }

  /** Walks the unconfirmed blocks back from a header. */
  method LoadChain(header: Hash, cached: set<Hash>) returns (caches: seq<Hash>)
    ensures caches == Walk(header, cached)
  {
    caches := [];
    var h := header;
    while h.OfBlock? && h in cached
      invariant caches + Walk(h, cached) == Walk(header, cached)
      decreases h
    {
      caches := caches + [h];
      h := h.block.previous;
    }
  }

  lemma FrontIs(entries: seq<Entry>, confirmed: set<Hash>, i: nat)
    requires i <= |entries| && forall j :: 0 <= j < i ==> entries[j].hash in confirmed
    requires i < |entries| ==> entries[i].hash !in confirmed
    ensures Front(entries, confirmed) == i
  {
    var k := Front(entries, confirmed);
    if k < i {
      assert false;
    }
  }

  /** What a tick stores is the counted queue without its confirmed front. */
  lemma {:induction false} TickedIs(was: seq<Entry>, confirmed: set<Hash>)
    ensures var k := Front(was, confirmed);
            Ticked(was, confirmed) == if k < |was| then Some(Counted(was, confirmed)[k..]) else None
  {
    var k := Front(was, confirmed);
    if k < |was| && was[k].times < MAX_RESENDS {
      assert Counted(was, confirmed)[k..] == [Entry(was[k].hash, was[k].times + 1)] + was[k + 1..];
    }
  }

  lemma AppendOne(q: Queue, hashes: seq<Hash>, h: Hash)
    ensures Appended(Appended(q, hashes), [h]) == Appended(q, hashes + [h])
  {
    FreshOne(h);
    assert (hashes + [h])[..|hashes|] == hashes;
    assert Entries(q) + Fresh(hashes + [h]) == Entries(q) + Fresh(hashes) + [Entry(h, 0)];
  }

  lemma FreshOne(h: Hash)
    ensures Fresh([h]) == [Entry(h, 0)]
  {
    assert [h][..0] == [];
  }
}
