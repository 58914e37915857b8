/**
 * `createWearableProcessor`: normalise a wearable catalogue and write each
 * entry into the host's memory store under an identifier derived from its
 * content, skipping identifiers already present, with up to three write
 * attempts per entry.
 *
 * The host is a class `Runtime` holding the store (a map from identifiers
 * to memories), two scripted fault oracles (for `getMemoryById` and
 * `createMemory`; `true` means that call throws, an exhausted script means
 * calls succeed), and the traces of write attempts and sleeps. A successful
 * `createMemory` of an identifier already present leaves the stored memory
 * as it is.
 */
module Ingestion {
  import opened Types
  import opened Wrappers
  import Seqs
  import Text
  import Wearables

  const WriteAttempts: nat := 3
  const RetrySleepMs: nat := 500
  const RecordSleepMs: nat := 100

  /** The string `stringToUuid` turns into the memory id of a wearable. */
  function MemoryKey(id: string, aiDescription: string, agentId: string): string
  {
    "wearable-" + id + "-" + aiDescription + "-" + agentId
  }

  /** `${_id},${aiDescription},${slots.join(",")}`. */
  function StoredText(w: Wearable): string
  {
    w.id + "," + w.aiDescription + "," + Text.Join(w.slots, ",")
  }

  function MemoryIdOf(w: Wearable, agentId: string, toUuid: string -> Uuid): Uuid
  {
    toUuid(MemoryKey(w.id, w.aiDescription, agentId))
  }

  /** The record written for a normalised wearable. */
  function WearableMemory(w: Wearable, agentId: string, toUuid: string -> Uuid, now: int): (m: Memory)
    ensures m.id == MemoryIdOf(w, agentId, toUuid)
    ensures m.agentId == agentId && m.userId == agentId && m.roomId == toUuid(agentId)
    ensures m.content.text == StoredText(w) && m.content.slots == Some(w.slots) && m.content.metadata.None?
    ensures m.createdAt == Some(now) && m.unique
  {
    Memory(MemoryIdOf(w, agentId, toUuid), agentId, agentId, toUuid(agentId),
      Content(StoredText(w), Some(w.slots), None), Some(now), true)
  }

  /** What ingestion can observe of the host. */
  datatype Host = Host(
    memories: map<Uuid, Memory>,
    lookupFaults: seq<bool>,
    writeFaults: seq<bool>,
    writes: seq<Uuid>,
    sleeps: seq<nat>)

  function NextFault(script: seq<bool>): bool
  {
    script != [] && script[0]
  }

  function RestOf(script: seq<bool>): seq<bool>
  {
    if script == [] then [] else script[1..]
  }

  datatype Lookup = Threw | Found(memory: Memory) | NotFound

  /** `getMemoryById(id)`. */
  function LookupStep(h: Host, id: Uuid): (Host, Lookup)
  {
    var h' := h.(lookupFaults := RestOf(h.lookupFaults));
    if NextFault(h.lookupFaults) then (h', Threw)
    else if id in h.memories then (h', Found(h.memories[id]))
    else (h', NotFound)
  }

  /** `createMemory(m)`: the attempt is recorded; on success the id is stored unless already present. */
  function WriteStep(h: Host, m: Memory): (Host, bool)
  {
    var h' := h.(writeFaults := RestOf(h.writeFaults), writes := h.writes + [m.id]);
    if NextFault(h.writeFaults) then (h', false)
    else if m.id in h.memories then (h', true)
    else (h'.(memories := h.memories[m.id := m]), true)
  }

  /** The `for (retry = 0; retry < 3; retry++)` loop from iteration `retry` on. */
  function WriteWithRetries(h: Host, m: Memory, retry: nat): Host
    decreases WriteAttempts - retry
  {
    if retry >= WriteAttempts then h
    else
      var (h', ok) := WriteStep(h, m);
      if ok then h' else WriteWithRetries(h'.(sleeps := h'.sleeps + [RetrySleepMs]), m, retry + 1)
  }

  /** One iteration of the outer loop, for the wearable `w`. */
  function IngestOne(h: Host, w: Wearable, agentId: string, toUuid: string -> Uuid, now: int): Host
  {
    var (h', existing) := LookupStep(h, MemoryIdOf(w, agentId, toUuid));
    if existing.Found? then h'
    else
      var h'' := WriteWithRetries(h', WearableMemory(w, agentId, toUuid, now), 0);
      h''.(sleeps := h''.sleeps + [RecordSleepMs])
  }

  /**
   * The outer loop over the normalised wearables, in order. `clock(i)` is the
   * instant `Date.now()` reads while the record at index `i` is prepared.
   */
  function Ingest(h: Host, ws: seq<Wearable>, agentId: string, toUuid: string -> Uuid, clock: nat -> int): Host
  {
    if ws == [] then h
    else IngestOne(Ingest(h, ws[..|ws| - 1], agentId, toUuid, clock), ws[|ws| - 1], agentId, toUuid, clock(|ws| - 1))
  }

  /** Number of consecutive faults at the head of a script. */
  function LeadingFaults(script: seq<bool>): nat
  {
    if script != [] && script[0] then 1 + LeadingFaults(script[1..]) else 0
  }

  function Drop(script: seq<bool>, n: nat): seq<bool>
  {
    if n >= |script| then [] else script[n..]
  }

  function Min(a: nat, b: nat): nat
  {
    if a <= b then a else b
  }

  /** Failed attempts among the next `left`: the leading faults of the script, capped. */
  function Failures(script: seq<bool>, left: nat): nat
  {
    Min(LeadingFaults(script), left)
  }

  /** Attempts made among the next `left`: every failure, plus the success if one comes. */
  function Attempts(script: seq<bool>, left: nat): nat
  {
    if Failures(script, left) == left then left else Failures(script, left) + 1
  }

  /**
   * What `left` attempts of the retry loop do to `h`, giving `r`: one more
   * attempt per fault until a write succeeds or the attempts run out, one
   * sleep after each failure, and the record stored if a write succeeded.
   */
  predicate RetriedWrite(h: Host, m: Memory, left: nat, r: Host)
  {
    && r.writes == h.writes + Seqs.Repeat(m.id, Attempts(h.writeFaults, left))
    && r.sleeps == h.sleeps + Seqs.Repeat(RetrySleepMs, Failures(h.writeFaults, left))
    && r.writeFaults == Drop(h.writeFaults, Attempts(h.writeFaults, left))
    && r.lookupFaults == h.lookupFaults
    && r.memories == (if Failures(h.writeFaults, left) == left || m.id in h.memories then h.memories else h.memories[m.id := m])
  }

  /** The retry loop from iteration `retry` on. */
  lemma {:induction false} WriteWithRetriesSpec(h: Host, m: Memory, retry: nat)
    requires retry <= WriteAttempts
    ensures RetriedWrite(h, m, WriteAttempts - retry, WriteWithRetries(h, m, retry))
    decreases WriteAttempts - retry
  {
    if retry < WriteAttempts {
      if NextFault(h.writeFaults) {
        RetryAfterFailure(h, m, retry);
        WriteWithRetriesSpec(FailedWrite(h, m), m, retry + 1);
        RetriedAfterFailure(h, m, WriteAttempts - retry, WriteWithRetries(h, m, retry));
      } else {
        FirstWriteSucceeds(h, m, retry);
      }
    }
  }

  /** A failed write followed by `left - 1` more attempts is `left` attempts. */
  lemma RetriedAfterFailure(h: Host, m: Memory, left: nat, r: Host)
    requires NextFault(h.writeFaults) && 1 <= left
    requires RetriedWrite(FailedWrite(h, m), m, left - 1, r)
    ensures RetriedWrite(h, m, left, r)
  {
    var h2 := FailedWrite(h, m);
    var s, s2 := h.writeFaults, h2.writeFaults;
    assert s2 == s[1..];
    FaultCounts(s, left);
    RepeatCons(m.id, Attempts(s, left));
    RepeatCons(RetrySleepMs, Failures(s, left));
    assert h2.writes + Seqs.Repeat(m.id, Attempts(s2, left - 1)) == h.writes + ([m.id] + Seqs.Repeat(m.id, Attempts(s2, left - 1)));
    assert h2.sleeps + Seqs.Repeat(RetrySleepMs, Failures(s2, left - 1)) == h.sleeps + ([RetrySleepMs] + Seqs.Repeat(RetrySleepMs, Failures(s2, left - 1)));
  }

  lemma RetryAfterFailure(h: Host, m: Memory, retry: nat)
    requires retry < WriteAttempts && NextFault(h.writeFaults)
    ensures WriteWithRetries(h, m, retry) == WriteWithRetries(FailedWrite(h, m), m, retry + 1)
  {
  }

  lemma FirstWriteSucceeds(h: Host, m: Memory, retry: nat)
    requires retry < WriteAttempts && !NextFault(h.writeFaults)
    ensures RetriedWrite(h, m, WriteAttempts - retry, WriteWithRetries(h, m, retry))
  {
    assert Seqs.Repeat(m.id, 1) == [m.id];
    assert LeadingFaults(h.writeFaults) == 0;
  }

  /** The host after a failed write and the 500 ms sleep that follows it. */
  function FailedWrite(h: Host, m: Memory): Host
  {
    h.(writeFaults := RestOf(h.writeFaults), writes := h.writes + [m.id], sleeps := h.sleeps + [RetrySleepMs])
  }

  /** A fault at the head of the script accounts for one failure and one attempt. */
  lemma FaultCounts(s: seq<bool>, left: nat)
    requires NextFault(s) && 1 <= left
    ensures Failures(s, left) == Failures(s[1..], left - 1) + 1
    ensures Attempts(s, left) == Attempts(s[1..], left - 1) + 1
    ensures Drop(s[1..], Attempts(s[1..], left - 1)) == Drop(s, Attempts(s, left))
  {
    assert LeadingFaults(s) == 1 + LeadingFaults(s[1..]);
    DropRest(s, Attempts(s, left));
  }

  lemma RepeatCons<T>(x: T, n: nat)
    requires 1 <= n
    ensures [x] + Seqs.Repeat(x, n - 1) == Seqs.Repeat(x, n)
  {
  }

  lemma DropRest(s: seq<bool>, n: nat)
    requires s != [] && 1 <= n
    ensures Drop(s[1..], n - 1) == Drop(s, n)
  {
    if n < |s| {
      assert s[1..][n - 1..] == s[n..];
    }
  }

  /** A record whose id is found (and whose lookup does not throw) causes no write and no sleep. */
  lemma IngestOneSkipsExisting(h: Host, w: Wearable, agentId: string, toUuid: string -> Uuid, now: int)
    requires !NextFault(h.lookupFaults) && MemoryIdOf(w, agentId, toUuid) in h.memories
    ensures IngestOne(h, w, agentId, toUuid, now) == h.(lookupFaults := RestOf(h.lookupFaults))
  {
  }

  /**
   * Otherwise (the id is absent, or the lookup throws) the record is written
   * with up to three attempts, one 500 ms sleep after each failed attempt,
   * and a final 100 ms sleep.
   */
  lemma IngestOneWrites(h: Host, w: Wearable, agentId: string, toUuid: string -> Uuid, now: int)
    requires NextFault(h.lookupFaults) || MemoryIdOf(w, agentId, toUuid) !in h.memories
    ensures var m := WearableMemory(w, agentId, toUuid, now);
      var failures := Failures(h.writeFaults, WriteAttempts);
      var attempts := Attempts(h.writeFaults, WriteAttempts);
      var r := IngestOne(h, w, agentId, toUuid, now);
      && 1 <= attempts <= WriteAttempts
      && r.writes == h.writes + Seqs.Repeat(m.id, attempts)
      && r.sleeps == h.sleeps + Seqs.Repeat(RetrySleepMs, failures) + [RecordSleepMs]
      && r.lookupFaults == RestOf(h.lookupFaults)
      && r.memories == (if failures == WriteAttempts || m.id in h.memories then h.memories else h.memories[m.id := m])
  {
    var (h', _) := LookupStep(h, MemoryIdOf(w, agentId, toUuid));
    WriteWithRetriesSpec(h', WearableMemory(w, agentId, toUuid, now), 0);
  }

  /** A record whose writes keep failing costs exactly three attempts and three 500 ms sleeps, then moves on. */
  lemma PermanentWriteFailure(h: Host, w: Wearable, agentId: string, toUuid: string -> Uuid, now: int)
    requires NextFault(h.lookupFaults) || MemoryIdOf(w, agentId, toUuid) !in h.memories
    requires LeadingFaults(h.writeFaults) >= WriteAttempts
    ensures var id := MemoryIdOf(w, agentId, toUuid);
      var r := IngestOne(h, w, agentId, toUuid, now);
      && r.writes == h.writes + [id, id, id]
      && r.sleeps == h.sleeps + [RetrySleepMs, RetrySleepMs, RetrySleepMs, RecordSleepMs]
      && r.memories == h.memories
  {
    IngestOneWrites(h, w, agentId, toUuid, now);
    var id := MemoryIdOf(w, agentId, toUuid);
    assert Seqs.Repeat(id, 3) == [id, id, id];
    assert Seqs.Repeat(RetrySleepMs, 3) == [RetrySleepMs, RetrySleepMs, RetrySleepMs];
  }

  lemma IngestOnePreservesExisting(h: Host, w: Wearable, agentId: string, toUuid: string -> Uuid, now: int)
    ensures forall id :: id in h.memories ==>
      id in IngestOne(h, w, agentId, toUuid, now).memories && IngestOne(h, w, agentId, toUuid, now).memories[id] == h.memories[id]
  {
    if NextFault(h.lookupFaults) || MemoryIdOf(w, agentId, toUuid) !in h.memories {
      IngestOneWrites(h, w, agentId, toUuid, now);
    }
  }

  /** Ingestion never changes or removes a memory that was already stored. */
  lemma {:induction false} IngestPreservesExisting(h: Host, ws: seq<Wearable>, agentId: string, toUuid: string -> Uuid, clock: nat -> int)
    ensures forall id :: id in h.memories ==>
      id in Ingest(h, ws, agentId, toUuid, clock).memories && Ingest(h, ws, agentId, toUuid, clock).memories[id] == h.memories[id]
  {
    if ws != [] {
      IngestPreservesExisting(h, ws[..|ws| - 1], agentId, toUuid, clock);
      IngestOnePreservesExisting(Ingest(h, ws[..|ws| - 1], agentId, toUuid, clock), ws[|ws| - 1], agentId, toUuid, clock(|ws| - 1));
    }
  }

  /**
   * Over a whole catalogue, the traces only grow; there are at most three
   * write attempts per record, each for the id of one of the records; and
   * each record consumes one lookup.
   */
  lemma {:induction false} IngestTraces(h: Host, ws: seq<Wearable>, agentId: string, toUuid: string -> Uuid, clock: nat -> int)
    ensures var r := Ingest(h, ws, agentId, toUuid, clock);
      && |h.writes| <= |r.writes| <= |h.writes| + WriteAttempts * |ws|
      && r.writes[..|h.writes|] == h.writes
      && |h.sleeps| <= |r.sleeps| && r.sleeps[..|h.sleeps|] == h.sleeps
      && (forall k :: |h.writes| <= k < |r.writes| ==> exists w :: w in ws && r.writes[k] == MemoryIdOf(w, agentId, toUuid))
      && |r.lookupFaults| == if |h.lookupFaults| <= |ws| then 0 else |h.lookupFaults| - |ws|
  {
    if ws != [] {
      var init, last := ws[..|ws| - 1], ws[|ws| - 1];
      var now := clock(|ws| - 1);
      IngestTraces(h, init, agentId, toUuid, clock);
      var p := Ingest(h, init, agentId, toUuid, clock);
      var r := IngestOne(p, last, agentId, toUuid, now);
      if NextFault(p.lookupFaults) || MemoryIdOf(last, agentId, toUuid) !in p.memories {
        IngestOneWrites(p, last, agentId, toUuid, now);
      }
      assert r.writes[..|p.writes|] == p.writes;
      assert r.sleeps[..|p.sleeps|] == p.sleeps;
      forall k | |h.writes| <= k < |r.writes|
        ensures exists w :: w in ws && r.writes[k] == MemoryIdOf(w, agentId, toUuid)
      {
        if k < |p.writes| {
          assert r.writes[k] == p.writes[k];
          var w :| w in init && p.writes[k] == MemoryIdOf(w, agentId, toUuid);
          assert w in ws;
        } else {
          assert r.writes[k] == MemoryIdOf(last, agentId, toUuid);
        }
      }
    }
  }

  /**
   * Re-ingesting a wearable with the same id and description, once its memory
   * is stored, writes nothing: the id depends only on id, description and agent.
   */
  lemma RepeatedWearableSkipped(h: Host, w1: Wearable, w2: Wearable, agentId: string, toUuid: string -> Uuid, now1: int, now2: int)
    requires w1.id == w2.id && w1.aiDescription == w2.aiDescription
    requires MemoryIdOf(w1, agentId, toUuid) in h.memories && !NextFault(h.lookupFaults)
    ensures var r := IngestOne(h, w2, agentId, toUuid, now2);
      r.writes == h.writes && r.sleeps == h.sleeps && r.memories == h.memories
  {
  }

  /** The id key is ambiguous: `-` inside an id or description can make two wearables share one memory. */
  lemma MemoryKeyCollision(agentId: string)
    ensures MemoryKey("a-b", "c", agentId) == MemoryKey("a", "b-c", agentId)
  {
  }

  /** The first comma token of a stored text is the wearable's `_id`, when the id has no comma. */
  lemma StoredTextFirstToken(w: Wearable)
    requires ',' !in w.id
    ensures Text.FirstToken(StoredText(w), ',') == w.id
  {
    var t := "," + w.aiDescription + "," + Text.Join(w.slots, ",");
    assert StoredText(w) == w.id + t;
    Text.SplitNoSeparatorPrefix(w.id, t, ',');
    assert t[0] == ',';
    assert Text.Split(t, ',')[0] == "";
  }

  /** The host runtime as seen by ingestion. */
  class Runtime {
    const agentId: string
    const toUuid: string -> Uuid
    var memories: map<Uuid, Memory>
    var lookupFaults: seq<bool>
    var writeFaults: seq<bool>
    var writes: seq<Uuid>
    var sleeps: seq<nat>

    function State(): Host
      reads this
    {
      Host(memories, lookupFaults, writeFaults, writes, sleeps)
    }

    constructor (agentId: string, toUuid: string -> Uuid, memories: map<Uuid, Memory>, lookupFaults: seq<bool>, writeFaults: seq<bool>)
      ensures this.agentId == agentId && this.toUuid == toUuid
      ensures State() == Host(memories, lookupFaults, writeFaults, [], [])
    {
      this.agentId := agentId;
      this.toUuid := toUuid;
      this.memories := memories;
      this.lookupFaults := lookupFaults;
      this.writeFaults := writeFaults;
      this.writes := [];
      this.sleeps := [];
    }

    /** `messageManager.getMemoryById(id)`. */
    method GetMemoryById(id: Uuid) returns (r: Lookup)
      modifies this
      ensures (State(), r) == LookupStep(old(State()), id)
    {
      var threw := NextFault(lookupFaults);
      lookupFaults := RestOf(lookupFaults);
      if threw {
        r := Threw;
      } else if id in memories {
        r := Found(memories[id]);
      } else {
        r := NotFound;
      }
    }

    /** `messageManager.createMemory(m)`; `false` when the call throws. */
    method CreateMemory(m: Memory) returns (ok: bool)
      modifies this
      ensures (State(), ok) == WriteStep(old(State()), m)
    {
      ok := !NextFault(writeFaults);
      writeFaults := RestOf(writeFaults);
      writes := writes + [m.id];
      if ok && m.id !in memories {
        memories := memories[m.id := m];
      }
    }

    /** `await new Promise((resolve) => setTimeout(resolve, ms))`. */
    method Sleep(ms: nat)
      modifies this
      ensures State() == old(State()).(sleeps := old(sleeps) + [ms])
    {
      sleeps := sleeps + [ms];
    }
  }

  /** The `wearables.forEach(... transformWearable ...)` loop. */
  method NormalizeAll(wearables: seq<RawWearable>) returns (transformed: seq<Wearable>)
    ensures |transformed| == |wearables|
    ensures forall i :: 0 <= i < |wearables| ==> transformed[i] == Wearables.TransformWearable(wearables[i])
  {
    transformed := [];
    for i := 0 to |wearables|
      invariant |transformed| == i
      invariant forall k :: 0 <= k < i ==> transformed[k] == Wearables.TransformWearable(wearables[k])
    {
      var t := Wearables.TransformWearable(wearables[i]);
      assert (transformed + [t])[..i] == transformed && (transformed + [t])[i] == t;
      transformed := transformed + [t];
    }
  }

  /** One iteration of the `for (const wearable of transformedWearables)` loop. */
  method ProcessWearable(runtime: Runtime, wearable: Wearable, now: int)
    modifies runtime
    ensures runtime.State() == IngestOne(old(runtime.State()), wearable, runtime.agentId, runtime.toUuid, now)
  {
    var memoryId := runtime.toUuid(MemoryKey(wearable.id, wearable.aiDescription, runtime.agentId));
    var existing := runtime.GetMemoryById(memoryId);
    if existing.Found? {
      return;
    }
    var memory := WearableMemory(wearable, runtime.agentId, runtime.toUuid, now);
    ghost var afterLookup := runtime.State();
    var retry := 0;
    while retry < WriteAttempts
      invariant 0 <= retry <= WriteAttempts
      invariant WriteWithRetries(afterLookup, memory, 0) == WriteWithRetries(runtime.State(), memory, retry)
      decreases WriteAttempts - retry
    {
      var ok := runtime.CreateMemory(memory);
      if ok {
        break;
      }
      runtime.Sleep(RetrySleepMs);
      retry := retry + 1;
    }
    runtime.Sleep(RecordSleepMs);
  }

  function Normalized(wearables: seq<RawWearable>): seq<Wearable>
  {
    seq(|wearables|, i requires 0 <= i < |wearables| => Wearables.TransformWearable(wearables[i]))
  }

  lemma NormalizedPointwise(wearables: seq<RawWearable>, transformed: seq<Wearable>)
    requires |transformed| == |wearables|
    requires forall i :: 0 <= i < |wearables| ==> transformed[i] == Wearables.TransformWearable(wearables[i])
    ensures transformed == Normalized(wearables)
  {
  }

  /**
   * `createWearableProcessor(wearablesResponse, runtime)`; `clock(i)` stands
   * for the `Date.now()` read for the record at index `i`.
   */
  method CreateWearableProcessor(response: WearablesResponse, runtime: Runtime, clock: nat -> int)
    modifies runtime
    ensures runtime.State() == Ingest(old(runtime.State()), Normalized(response.wearables), runtime.agentId, runtime.toUuid, clock)
  {
    var transformed := NormalizeAll(response.wearables);
    NormalizedPointwise(response.wearables, transformed);
    IngestAll(runtime, transformed, clock);
  }

  /** The `for (let i = 0; i < transformedObject.length; i++)` loop. */
  method IngestAll(runtime: Runtime, transformed: seq<Wearable>, clock: nat -> int)
    modifies runtime
    ensures runtime.State() == Ingest(old(runtime.State()), transformed, runtime.agentId, runtime.toUuid, clock)
  {
    ghost var h0 := runtime.State();
    var agentId, toUuid := runtime.agentId, runtime.toUuid;
    for i := 0 to |transformed|
      invariant runtime.State() == Ingest(h0, transformed[..i], agentId, toUuid, clock)
    {
      ghost var before := runtime.State();
      ProcessWearable(runtime, transformed[i], clock(i));
      IngestStep(h0, transformed, i, agentId, toUuid, clock, before, runtime.State());
    }
    assert transformed[..|transformed|] == transformed;
  }

  lemma IngestStep(h0: Host, ws: seq<Wearable>, i: nat, agentId: string, toUuid: string -> Uuid, clock: nat -> int, before: Host, after: Host)
    requires i < |ws|
    requires before == Ingest(h0, ws[..i], agentId, toUuid, clock)
    requires after == IngestOne(before, ws[i], agentId, toUuid, clock(i))
    ensures after == Ingest(h0, ws[..i + 1], agentId, toUuid, clock)
  {
    assert ws[..i + 1][..i] == ws[..i];
  }
}
