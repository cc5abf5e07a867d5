/** The preimage that a provider-state write is hashed from, and the authority that admits one write. */
module WriteDigest {
  import opened Common

  datatype EpochRecord = EpochRecord(id: u64, data: Bytes)

  datatype ProviderWrite = ProviderWrite(
    groupId: Bytes, state: Bytes, inserts: seq<EpochRecord>, updates: seq<EpochRecord>)

  /** "session-chat/provider-state-write/v1" */
  const CONTEXT: Bytes := [
    115, 101, 115, 115, 105, 111, 110, 45, 99, 104, 97, 116, 47, 112, 114, 111, 118, 105, 100, 101, 114, 45,
    115, 116, 97, 116, 101, 45, 119, 114, 105, 116, 101, 47, 118, 49]

  predicate EpochsFit(epochs: seq<EpochRecord>) {
    |epochs| < U64_LIMIT && forall i :: 0 <= i < |epochs| ==> |epochs[i].data| < U64_LIMIT
  }

  /** Every length fits the eight bytes it is framed with. */
  predicate Fits(w: ProviderWrite) {
    |w.groupId| < U64_LIMIT && |w.state| < U64_LIMIT && EpochsFit(w.inserts) && EpochsFit(w.updates)
  }

  function Word(n: u64): (s: Bytes)
    ensures |s| == 8
  {
    ToBigEndian(n, 8)
  }

  function Framed(s: Bytes): Bytes
    requires |s| < U64_LIMIT
  {
    Word(|s|) + s
  }

  function EpochBytes(epochs: seq<EpochRecord>): Bytes
    requires forall i :: 0 <= i < |epochs| ==> |epochs[i].data| < U64_LIMIT
  {
    if epochs == [] then [] else Word(epochs[0].id) + (Framed(epochs[0].data) + EpochBytes(epochs[1..]))
  }

  function Epochs(kind: byte, epochs: seq<EpochRecord>): Bytes
    requires EpochsFit(epochs)
  {
    [kind] + (Word(|epochs|) + EpochBytes(epochs))
  }

  function Preimage(w: ProviderWrite): Bytes
    requires Fits(w)
  {
    CONTEXT + (Framed(w.groupId) + (Framed(w.state) + (Epochs(73, w.inserts) + Epochs(85, w.updates))))
  }

  // ---------- nothing is lost ----------

  lemma SplitAt(a: Bytes, x: Bytes, b: Bytes, y: Bytes)
    requires a + x == b + y && |a| == |b|
    ensures a == b && x == y
  {
    assert (a + x)[..|a|] == a && (b + y)[..|b|] == b;
    assert (a + x)[|a|..] == x && (b + y)[|b|..] == y;
  }

  lemma WordRoundTrip(n: u64)
    ensures FromBigEndian(Word(n)) == n
  {
    assert Pow256(8) == U64_LIMIT by {
      assert Pow256(4) == 0x1_0000_0000;
    }
    BigEndianRoundTrip(n, 8);
  }

  lemma WordSplits(m: u64, x: Bytes, n: u64, y: Bytes)
    requires Word(m) + x == Word(n) + y
    ensures m == n && x == y
  {
    SplitAt(Word(m), x, Word(n), y);
    WordRoundTrip(m);
    WordRoundTrip(n);
  }

  lemma FrameSplits(a: Bytes, x: Bytes, b: Bytes, y: Bytes)
    requires |a| < U64_LIMIT && |b| < U64_LIMIT && Framed(a) + x == Framed(b) + y
    ensures a == b && x == y
  {
    assert Framed(a) + x == Word(|a|) + (a + x);
    assert Framed(b) + y == Word(|b|) + (b + y);
    WordSplits(|a|, a + x, |b|, b + y);
    SplitAt(a, x, b, y);
  }

  lemma {:induction false} EpochBytesSplit(a: seq<EpochRecord>, x: Bytes, b: seq<EpochRecord>, y: Bytes)
    requires EpochsFit(a) && EpochsFit(b) && |a| == |b| && EpochBytes(a) + x == EpochBytes(b) + y
    ensures a == b && x == y
  {
    if a == [] {
      assert b == [] && EpochBytes(a) + x == x && EpochBytes(b) + y == y;
    } else {
      var p := Framed(a[0].data) + (EpochBytes(a[1..]) + x);
      var q := Framed(b[0].data) + (EpochBytes(b[1..]) + y);
      Regroup(Word(a[0].id), Framed(a[0].data), EpochBytes(a[1..]), x);
      Regroup(Word(b[0].id), Framed(b[0].data), EpochBytes(b[1..]), y);
      WordSplits(a[0].id, p, b[0].id, q);
      FrameSplits(a[0].data, EpochBytes(a[1..]) + x, b[0].data, EpochBytes(b[1..]) + y);
      EpochBytesSplit(a[1..], x, b[1..], y);
      assert a == [a[0]] + a[1..] && b == [b[0]] + b[1..];
    }
  }

  lemma Regroup(a: Bytes, b: Bytes, c: Bytes, d: Bytes)
    ensures (a + (b + c)) + d == a + (b + (c + d))
  {
  }

  lemma EpochsSplit(kind: byte, a: seq<EpochRecord>, x: Bytes, b: seq<EpochRecord>, y: Bytes)
    requires EpochsFit(a) && EpochsFit(b) && Epochs(kind, a) + x == Epochs(kind, b) + y
    ensures a == b && x == y
  {
    hide Word, EpochBytes;
    Regroup([kind], Word(|a|), EpochBytes(a), x);
    Regroup([kind], Word(|b|), EpochBytes(b), y);
    SplitAt([kind], Word(|a|) + (EpochBytes(a) + x), [kind], Word(|b|) + (EpochBytes(b) + y));
    WordSplits(|a|, EpochBytes(a) + x, |b|, EpochBytes(b) + y);
    EpochBytesSplit(a, x, b, y);
  }

  /** Different writes, including reordered or regrouped epoch records, never share a preimage. */
  lemma PreimageIsInjective(a: ProviderWrite, b: ProviderWrite)
    requires Fits(a) && Fits(b) && Preimage(a) == Preimage(b)
    ensures a == b
  {
    hide Framed, Epochs;
    var restA := Epochs(73, a.inserts) + Epochs(85, a.updates);
    var restB := Epochs(73, b.inserts) + Epochs(85, b.updates);
    SplitAt(CONTEXT, Framed(a.groupId) + (Framed(a.state) + restA), CONTEXT, Framed(b.groupId) + (Framed(b.state) + restB));
    FrameSplits(a.groupId, Framed(a.state) + restA, b.groupId, Framed(b.state) + restB);
    FrameSplits(a.state, restA, b.state, restB);
    EpochsSplit(73, a.inserts, Epochs(85, a.updates), b.inserts, Epochs(85, b.updates));
    assert Epochs(85, a.updates) + [] == Epochs(85, a.updates) && Epochs(85, b.updates) + [] == Epochs(85, b.updates);
    EpochsSplit(85, a.updates, [], b.updates, []);
  }

  // ---------- the loop that feeds the hash ----------

  lemma {:induction false} EpochBytesAppend(a: seq<EpochRecord>, e: EpochRecord)
    requires |e.data| < U64_LIMIT && forall i :: 0 <= i < |a| ==> |a[i].data| < U64_LIMIT
    ensures EpochBytes(a + [e]) == EpochBytes(a) + (Word(e.id) + Framed(e.data))
  {
    if a == [] {
      assert [e][1..] == [];
      assert EpochBytes([e]) == Word(e.id) + (Framed(e.data) + []);
      assert Framed(e.data) + [] == Framed(e.data);
      assert a + [e] == [e];
    } else {
      EpochBytesAppend(a[1..], e);
      assert (a + [e])[1..] == a[1..] + [e];
      var tail := Word(e.id) + Framed(e.data);
      assert Word(a[0].id) + (Framed(a[0].data) + (EpochBytes(a[1..]) + tail))
          == (Word(a[0].id) + (Framed(a[0].data) + EpochBytes(a[1..]))) + tail;
    }
  }

  lemma Assembled(a: Bytes, b: Bytes, c: Bytes, d: Bytes)
    ensures ((a + b) + c) + d == a + (b + (c + d))
  {
  }

  method UpdateEpochs(buffer: Bytes, kind: byte, epochs: seq<EpochRecord>) returns (fed: Bytes)
    requires EpochsFit(epochs)
    ensures fed == buffer + Epochs(kind, epochs)
  {
    hide Word, Framed;
    fed := buffer + [kind];
    fed := fed + Word(|epochs|);
    ghost var head := fed;
    var i := 0;
    assert EpochBytes(epochs[..0]) == [];
    while i < |epochs|
      invariant 0 <= i <= |epochs| && fed == head + EpochBytes(epochs[..i])
    {
      EpochBytesAppend(epochs[..i], epochs[i]);
      assert epochs[..i + 1] == epochs[..i] + [epochs[i]];
      Assembled(head, EpochBytes(epochs[..i]), Word(epochs[i].id), Framed(epochs[i].data));
      fed := fed + Word(epochs[i].id);
      fed := fed + Framed(epochs[i].data);
      i := i + 1;
    }
    assert epochs[..i] == epochs;
    Assembled(buffer, [kind], Word(|epochs|), EpochBytes(epochs));
  }

  // ---------- the write authority ----------

  /** SHA-256 of a preimage, taken as injective. */
  datatype Digest = Digest(preimage: Bytes)

  datatype ActiveWrite = ActiveWrite(thread: nat, digest: Option<Digest>)

  /** The slot of every authority that has an active write, and the authority each thread is writing under. */
  datatype Writers = Writers(slots: map<nat, ActiveWrite>, current: map<nat, nat>)

  /** What threads do: activate an authority, write provider state, drop the guard of an authority. */
  datatype Event =
    | Activating(authority: nat, thread: nat)
    | Writing(thread: nat, w: ProviderWrite)
    | Releasing(authority: nat, thread: nat)

  function Activate(r: Writers, authority: nat, thread: nat): (Writers, bool) {
    if authority in r.slots || thread in r.current then (r, false)
    else
      (Writers(r.slots[authority := ActiveWrite(thread, None)], r.current[thread := authority]), true)
  }

  /** A write under no authority is let through; under one, it must be the first on the authority's own thread. */
  function Capture(r: Writers, thread: nat, w: ProviderWrite): (Writers, bool)
    requires Fits(w)
  {
    if thread !in r.current then (r, true)
    else
      var authority := r.current[thread];
      if authority !in r.slots || r.slots[authority].thread != thread || r.slots[authority].digest.Some? then (r, false)
      else (r.(slots := r.slots[authority := ActiveWrite(thread, Some(Digest(Preimage(w))))]), true)
  }

  function Release(r: Writers, authority: nat, thread: nat): Writers {
    Writers(r.slots - {authority}, if thread in r.current && r.current[thread] == authority then r.current - {thread} else r.current)
  }

  predicate Authorizes(r: Writers, authority: nat, thread: nat, w: ProviderWrite)
    requires Fits(w)
  {
    && authority in r.slots && r.slots[authority].thread == thread
    && r.slots[authority].digest == Some(Digest(Preimage(w)))
  }

  predicate EventFits(e: Event) {
    e.Writing? ==> Fits(e.w)
  }

  function NextWriters(r: Writers, e: Event): Writers
    requires EventFits(e)
  {
    match e
    case Activating(authority, thread) => Activate(r, authority, thread).0
    case Writing(thread, w) => Capture(r, thread, w).0
    case Releasing(authority, thread) => Release(r, authority, thread)
  }

  function RunWriters(r: Writers, events: seq<Event>): Writers
    requires forall i :: 0 <= i < |events| ==> EventFits(events[i])
    decreases |events|
  {
    if events == [] then r else RunWriters(NextWriters(r, events[0]), events[1..])
  }

  /** An active authority is the one its thread writes under. */
  predicate Matched(r: Writers) {
    forall a :: a in r.slots ==> r.slots[a].thread in r.current && r.current[r.slots[a].thread] == a
  }

  /** In any interleaving of any threads, each thread has at most one active authority and each authority one thread. */
  lemma {:induction false} RunKeepsMatched(r: Writers, events: seq<Event>, a: nat, b: nat)
    requires Matched(r) && forall i :: 0 <= i < |events| ==> EventFits(events[i])
    ensures var last := RunWriters(r, events);
            Matched(last) && (a in last.slots && b in last.slots && last.slots[a].thread == last.slots[b].thread ==> a == b)
    decreases |events|
  {
    hide Preimage;
    if events != [] {
      RunKeepsMatched(NextWriters(r, events[0]), events[1..], a, b);
    }
  }

  /** The first write among the events that this thread makes. */
  function FirstWrite(events: seq<Event>, thread: nat): Option<ProviderWrite> {
    if events == [] then None
    else if events[0].Writing? && events[0].thread == thread then Some(events[0].w)
    else FirstWrite(events[1..], thread)
  }

  lemma {:induction false} SlotHolds(r: Writers, events: seq<Event>, authority: nat)
    requires Matched(r) && authority in r.slots
    requires forall i :: 0 <= i < |events| ==> EventFits(events[i])
    requires forall i :: 0 <= i < |events| ==> !(events[i].Releasing? && events[i].authority == authority)
    ensures var last := RunWriters(r, events);
            var before := r.slots[authority];
            && authority in last.slots && last.slots[authority].thread == before.thread
            && (before.digest.Some? ==> last.slots[authority] == before)
            && (before.digest.None? ==>
                  match FirstWrite(events, before.thread)
                  case None => last.slots[authority] == before
                  case Some(w) => Fits(w) && last.slots[authority].digest == Some(Digest(Preimage(w))))
    decreases |events|
  {
    hide Preimage;
    if events != [] {
      RunKeepsMatched(r, [events[0]], authority, authority);
      assert RunWriters(r, [events[0]]) == NextWriters(r, events[0]);
      SlotHolds(NextWriters(r, events[0]), events[1..], authority);
    }
  }

  /**
   While its guard is held, and whatever other threads do, an activated authority admits exactly the first write its
   own thread made, asked about on that thread; before that write and after the guard is dropped it admits nothing.
   */
  lemma AuthorizesExactlyTheCapture(r: Writers, authority: nat, thread: nat, events: seq<Event>,
                                    other: ProviderWrite, asking: nat, dropper: nat)
    requires Matched(r) && Activate(r, authority, thread).1 && Fits(other)
    requires forall i :: 0 <= i < |events| ==> EventFits(events[i])
    requires forall i :: 0 <= i < |events| ==> !(events[i].Releasing? && events[i].authority == authority)
    ensures var last := RunWriters(Activate(r, authority, thread).0, events);
            && (Authorizes(last, authority, asking, other) <==> asking == thread && FirstWrite(events, thread) == Some(other))
            && !Authorizes(Release(last, authority, dropper), authority, asking, other)
  {
    hide Preimage, RunWriters, FirstWrite;
    var active := Activate(r, authority, thread).0;
    SlotHolds(active, events, authority);
    if FirstWrite(events, thread).Some? {
      var w := FirstWrite(events, thread).value;
      if Preimage(other) == Preimage(w) {
        PreimageIsInjective(other, w);
      }
    }
  }
}
