/**
 * `generateOutfit`: match the agent's stored wearables against the avatar
 * attributes, copy the matches into per-slot rooms, look up the closest
 * wearable for each attribute, record the outfit, submit the wearable names
 * to the backend, and clear the per-slot rooms.
 *
 * The host is a class `Agent` over the store of module `Store`. Its fixed
 * parts are an `Env`: `stringToUuid` is the function `toUuid`, the embedding
 * search is the function `search` from a room and an attribute value to the
 * hits it returns, the submission's `fetch` calls are answered by
 * `submitOutcomes`, the failing `removeMemory` calls are `removeFaults`, and
 * every `Date.now()` reads `now`.
 */
module Outfit {
  import opened Types
  import opened Wrappers
  import Seqs
  import Text
  import Api
  import Store
  import Ingestion

  /** `wearableAttributes`, in the source's order. */
  const AttributeKeys: seq<string> := ["TOP", "HAT", "BOTTOM", "SHOES", "ACCESSORIES", "EYEWEAR"]
  /** The keys whose rooms are cleared after submission. */
  const CleanupKeys: seq<string> := ["TOP", "HAT", "BOTTOM", "SHOES", "ACCESSORY"]
  const OutfitRoomSuffix: string := "OUTFIT"

  function AttributeList(a: AvatarAttributes): seq<(string, AttrValue)>
  {
    [("TOP", a.top), ("HAT", a.hat), ("BOTTOM", a.bottom), ("SHOES", a.shoes),
     ("ACCESSORIES", a.accessories), ("EYEWEAR", a.eyewear)]
  }

  /** One result of `searchMemoriesByEmbedding`: a stored memory and its similarity. */
  datatype Hit = Hit(memory: Memory, similarity: real)

  datatype Env = Env(
    agentId: Uuid,
    characterName: string,
    backend: string,
    toUuid: string -> Uuid,
    search: (Uuid, AttrValue) -> seq<Hit>,
    submitOutcomes: seq<Api.Attempt>,
    removeFaults: set<Uuid>,
    now: int)

  /** What a run changes: the store, the `removeMemory` calls, and the submission. */
  datatype World = World(store: seq<Memory>, removals: seq<Uuid>, submitted: Option<(Api.Request, Api.Run)>)

  datatype Abort =
    | SlotsMissing                      // `mem.content.slots.includes` on a memory without slots
    | UnmatchedAttribute(key: string)   // `search.id` on a `null` search result
    | SubmitFailed(error: Api.FetchError)

  datatype Outcome = NoMemories | NoMatches | Aborted(reason: Abort) | Completed

  function AgentRoom(env: Env): Uuid
  {
    env.toUuid(env.agentId)
  }

  function SlotRoom(env: Env, key: string): Uuid
  {
    env.toUuid(env.agentId + key)
  }

  // ---------------------------------------------------------------- grouping

  predicate AllHaveSlots(ms: seq<Memory>)
  {
    forall i :: 0 <= i < |ms| ==> ms[i].content.slots.Some?
  }

  function HasSlot(key: string): Memory -> bool
  {
    (m: Memory) => m.content.slots.Some? && key in m.content.slots.value
  }

  function Matches(ms: seq<Memory>, key: string): seq<Memory>
  {
    Seqs.Filter(ms, HasSlot(key))
  }

  /** A group holds exactly the memories whose slots include its key, in input order. */
  lemma MatchesSpec(ms: seq<Memory>, key: string)
    ensures forall m :: m in Matches(ms, key) <==> m in ms && m.content.slots.Some? && key in m.content.slots.value
    ensures Seqs.IsSubsequence(Matches(ms, key), ms)
  {
    Seqs.FilterMembers(ms, HasSlot(key));
    Seqs.FilterIsSubsequence(ms, HasSlot(key));
  }

  /** `groupedMemories` as its entries: each key with a non-empty list of matches, in key order. */
  function Grouped(keys: seq<string>, ms: seq<Memory>): seq<(string, seq<Memory>)>
  {
    if keys == [] then []
    else
      var g := Grouped(keys[..|keys| - 1], ms);
      var last := keys[|keys| - 1];
      if Matches(ms, last) != [] then g + [(last, Matches(ms, last))] else g
  }

  function GroupKeys(g: seq<(string, seq<Memory>)>): seq<string>
  {
    seq(|g|, i requires 0 <= i < |g| => g[i].0)
  }

  /**
   * The groups are exactly the keys with at least one match, each with all of
   * its matches, in the order of the key list.
   */
  lemma {:induction false} GroupedSpec(keys: seq<string>, ms: seq<Memory>)
    requires Seqs.Distinct(keys)
    ensures var g := Grouped(keys, ms);
      && (forall i :: 0 <= i < |g| ==> g[i].0 in keys && g[i].1 == Matches(ms, g[i].0) && g[i].1 != [])
      && (forall k :: k in GroupKeys(g) <==> k in keys && Matches(ms, k) != [])
      && Seqs.OrderedByFirstOccurrence(GroupKeys(g), keys)
  {
    if keys != [] {
      var init, last := keys[..|keys| - 1], keys[|keys| - 1];
      assert Seqs.Distinct(init);
      GroupedSpec(init, ms);
      var g := Grouped(init, ms);
      assert keys == init + [last];
      Seqs.OrderedExtendSource(GroupKeys(g), init, [last]);
      if Matches(ms, last) != [] {
        assert GroupKeys(g + [(last, Matches(ms, last))]) == GroupKeys(g) + [last];
        assert last !in init;
        Seqs.OrderedAppendNew(GroupKeys(g), init, last);
      }
    }
  }

  /** The `wearableAttributes.reduce(...)` that builds `groupedMemories`. */
  method GroupBySlot(keys: seq<string>, ms: seq<Memory>) returns (groups: seq<(string, seq<Memory>)>)
    ensures groups == Grouped(keys, ms)
  {
    groups := [];
    for i := 0 to |keys|
      invariant groups == Grouped(keys[..i], ms)
    {
      assert keys[..i + 1][..i] == keys[..i];
      var matches := Matches(ms, keys[i]);
      if |matches| > 0 {
        groups := groups + [(keys[i], matches)];
      }
    }
    assert keys[..|keys|] == keys;
  }

  // ------------------------------------------------------ re-materialisation

  /** The copy of a matched memory written into the room of its slot key. */
  function SlotCopy(env: Env, key: string, item: Memory): (m: Memory)
    ensures m.roomId == SlotRoom(env, key) && m.content == item.content
  {
    Memory(env.toUuid("template-model-response-" + key + "-" + env.agentId + "-" + item.content.text),
      env.agentId, env.agentId, SlotRoom(env, key), item.content, Some(env.now), false)
  }

  function SlotCopies(env: Env, key: string, items: seq<Memory>): seq<Memory>
  {
    seq(|items|, i requires 0 <= i < |items| => SlotCopy(env, key, items[i]))
  }

  /** All copies, group after group. */
  function Copies(env: Env, groups: seq<(string, seq<Memory>)>): seq<Memory>
  {
    if groups == [] then []
    else Copies(env, groups[..|groups| - 1]) + SlotCopies(env, groups[|groups| - 1].0, groups[|groups| - 1].1)
  }

  /** The number of matched memories over all groups. */
  function GroupSizes(groups: seq<(string, seq<Memory>)>): nat
  {
    if groups == [] then 0 else GroupSizes(groups[..|groups| - 1]) + |groups[|groups| - 1].1|
  }

  /**
   * Every matched memory of every group is copied into the room of its
   * group's key, one copy per matched memory; and every copy lands in the
   * room of its group's key, with the content of one of that group's memories.
   */
  lemma {:induction false} CopiesSpec(env: Env, groups: seq<(string, seq<Memory>)>)
    ensures |Copies(env, groups)| == GroupSizes(groups)
    ensures forall i, k :: 0 <= i < |groups| && 0 <= k < |groups[i].1| ==>
      SlotCopy(env, groups[i].0, groups[i].1[k]) in Copies(env, groups)
    ensures forall c :: c in Copies(env, groups) ==>
      exists i :: 0 <= i < |groups| && c.roomId == SlotRoom(env, groups[i].0) && c.content in ContentsOf(groups[i].1)
  {
    CopiesComplete(env, groups);
    CopiesFromGroups(env, groups);
  }

  lemma {:induction false} CopiesComplete(env: Env, groups: seq<(string, seq<Memory>)>)
    ensures |Copies(env, groups)| == GroupSizes(groups)
    ensures forall i, k :: 0 <= i < |groups| && 0 <= k < |groups[i].1| ==>
      SlotCopy(env, groups[i].0, groups[i].1[k]) in Copies(env, groups)
  {
    if groups != [] {
      var init, last := groups[..|groups| - 1], groups[|groups| - 1];
      CopiesComplete(env, init);
      var copies := SlotCopies(env, last.0, last.1);
      forall i, k | 0 <= i < |groups| && 0 <= k < |groups[i].1|
        ensures SlotCopy(env, groups[i].0, groups[i].1[k]) in Copies(env, groups)
      {
        if i < |init| {
          assert groups[i] == init[i];
        } else {
          assert copies[k] == SlotCopy(env, last.0, last.1[k]);
        }
      }
    }
  }

  lemma {:induction false} CopiesFromGroups(env: Env, groups: seq<(string, seq<Memory>)>)
    ensures forall c :: c in Copies(env, groups) ==>
      exists i :: 0 <= i < |groups| && c.roomId == SlotRoom(env, groups[i].0) && c.content in ContentsOf(groups[i].1)
  {
    if groups != [] {
      var init, last := groups[..|groups| - 1], groups[|groups| - 1];
      CopiesFromGroups(env, init);
      forall c | c in Copies(env, groups)
        ensures exists i :: 0 <= i < |groups| && c.roomId == SlotRoom(env, groups[i].0) && c.content in ContentsOf(groups[i].1)
      {
        if c in Copies(env, init) {
          var i :| 0 <= i < |init| && c.roomId == SlotRoom(env, init[i].0) && c.content in ContentsOf(init[i].1);
          assert groups[i] == init[i];
        } else {
          var copies := SlotCopies(env, last.0, last.1);
          assert c in copies;
          var k :| 0 <= k < |copies| && copies[k] == c;
          assert ContentsOf(last.1)[k] == c.content;
          assert groups[|groups| - 1] == last;
        }
      }
    }
  }

  function ContentsOf(ms: seq<Memory>): seq<Content>
  {
    seq(|ms|, i requires 0 <= i < |ms| => ms[i].content)
  }

  // --------------------------------------------------------------- expansion

  /** An attribute is expanded when its value is a non-empty list. */
  predicate Expands(v: AttrValue)
  {
    v.Items? && v.items != []
  }

  function ExpandOne(p: (string, AttrValue)): seq<(string, AttrValue)>
  {
    if Expands(p.1) then seq(|p.1.items|, i requires 0 <= i < |p.1.items| => (p.0, Scalar(p.1.items[i])))
    else [p]
  }

  /** `expandedWearableAttributes`. */
  function Expansion(ps: seq<(string, AttrValue)>): seq<(string, AttrValue)>
  {
    Seqs.FlatMap(ps, ExpandOne)
  }

  function Weight(v: AttrValue): nat
  {
    if Expands(v) then |v.items| else 1
  }

  function TotalWeight(ps: seq<(string, AttrValue)>): nat
  {
    if ps == [] then 0 else TotalWeight(ps[..|ps| - 1]) + Weight(ps[|ps| - 1].1)
  }

  /**
   * One entry per list item for a non-empty list, and the attribute itself
   * otherwise; every entry keeps its attribute's key.
   */
  lemma {:induction false} ExpansionSpec(ps: seq<(string, AttrValue)>)
    ensures |Expansion(ps)| == TotalWeight(ps) >= |ps|
    ensures forall e :: e in Expansion(ps) <==> exists j :: 0 <= j < |ps| && e in ExpandOne(ps[j])
  {
    if ps != [] {
      var init, last := ps[..|ps| - 1], ps[|ps| - 1];
      ExpansionSpec(init);
      forall e
        ensures e in Expansion(ps) <==> exists j :: 0 <= j < |ps| && e in ExpandOne(ps[j])
      {
        if exists j :: 0 <= j < |ps| && e in ExpandOne(ps[j]) {
          var j :| 0 <= j < |ps| && e in ExpandOne(ps[j]);
          if j < |init| {
            assert ps[j] == init[j];
          }
        }
      }
    }
  }

  lemma ExpandOneSpec(p: (string, AttrValue))
    ensures forall e :: e in ExpandOne(p) ==> e.0 == p.0
    ensures Expands(p.1) ==> forall x :: (p.0, Scalar(x)) in ExpandOne(p) <==> x in p.1.items
    ensures Expands(p.1) ==> |ExpandOne(p)| == |p.1.items|
    ensures Expands(p.1) ==> forall i :: 0 <= i < |p.1.items| ==> ExpandOne(p)[i] == (p.0, Scalar(p.1.items[i]))
    ensures !Expands(p.1) ==> ExpandOne(p) == [p]
  {
    if Expands(p.1) {
      forall x | x in p.1.items
        ensures (p.0, Scalar(x)) in ExpandOne(p)
      {
        var k :| 0 <= k < |p.1.items| && p.1.items[k] == x;
        assert ExpandOne(p)[k] == (p.0, Scalar(x));
      }
    }
  }

  lemma ExpansionAppend(a: seq<(string, AttrValue)>, b: seq<(string, AttrValue)>)
    ensures Expansion(a + b) == Expansion(a) + Expansion(b)
  {
    Seqs.FlatMapAppend(a, b, ExpandOne);
  }

  /**
   * The entries of the attribute at index `j` form one block, in the order of
   * its list, after the blocks of the attributes before it.
   */
  lemma ExpansionBlock(ps: seq<(string, AttrValue)>, j: nat)
    requires j < |ps|
    ensures Expansion(ps) == Expansion(ps[..j]) + ExpandOne(ps[j]) + Expansion(ps[j + 1..])
    ensures |Expansion(ps[..j])| == TotalWeight(ps[..j])
  {
    assert ps == ps[..j] + [ps[j]] + ps[j + 1..];
    ExpansionAppend(ps[..j] + [ps[j]], ps[j + 1..]);
    ExpansionAppend(ps[..j], [ps[j]]);
    assert Expansion([ps[j]]) == ExpandOne(ps[j]) by {
      assert [ps[j]][..0] == [];
    }
    ExpansionSpec(ps[..j]);
  }

  /** The `wearableAttributes.forEach(...)` loop that fills `expandedWearableAttributes`. */
  method ExpandAttributes(ps: seq<(string, AttrValue)>) returns (entries: seq<(string, AttrValue)>)
    ensures entries == Expansion(ps)
  {
    entries := [];
    for i := 0 to |ps|
      invariant entries == Expansion(ps[..i])
    {
      assert ps[..i + 1][..i] == ps[..i];
      var (key, value) := ps[i];
      if value.Items? && |value.items| > 0 {
        ghost var before := entries;
        for j := 0 to |value.items|
          invariant entries == before + ExpandOne(ps[i])[..j]
        {
          assert ExpandOne(ps[i])[..j + 1] == ExpandOne(ps[i])[..j] + [(key, Scalar(value.items[j]))];
          entries := entries + [(key, Scalar(value.items[j]))];
        }
        assert ExpandOne(ps[i])[..|value.items|] == ExpandOne(ps[i]);
      } else {
        entries := entries + [(key, value)];
      }
    }
    assert ps[..|ps|] == ps;
  }

  // ------------------------------------------------------- search and record

  /** `searchResults.length > 0 ? searchResults[0] : null` for one expanded attribute. */
  function SearchOf(env: Env, e: (string, AttrValue)): (r: Option<Hit>)
    ensures r.None? <==> env.search(SlotRoom(env, e.0), e.1) == []
    ensures r.Some? ==> r.value == env.search(SlotRoom(env, e.0), e.1)[0]
  {
    var hits := env.search(SlotRoom(env, e.0), e.1);
    if |hits| > 0 then Some(hits[0]) else None
  }

  function Searches(env: Env, entries: seq<(string, AttrValue)>): seq<Option<Hit>>
  {
    seq(|entries|, i requires 0 <= i < |entries| => SearchOf(env, entries[i]))
  }

  predicate AllFound(found: seq<Option<Hit>>)
  {
    forall i :: 0 <= i < |found| ==> found[i].Some?
  }

  /** The outfit memory recorded for one attribute and its closest hit. */
  function OutfitMemory(env: Env, e: (string, AttrValue), h: Hit): (m: Memory)
    ensures m.content.text == h.memory.content.text && m.content.slots == h.memory.content.slots
    ensures m.content.metadata == Some(OutfitMetadata(h.similarity, e.1, h.memory.id))
  {
    Memory(env.toUuid(h.memory.id), env.agentId, env.agentId, SlotRoom(env, OutfitRoomSuffix),
      Content(h.memory.content.text, h.memory.content.slots, Some(OutfitMetadata(h.similarity, e.1, h.memory.id))),
      None, false)
  }

  /** `finalMemories`. */
  function OutfitMemories(env: Env, entries: seq<(string, AttrValue)>, found: seq<Option<Hit>>): seq<Memory>
    requires |found| == |entries| && AllFound(found)
  {
    seq(|entries|, i requires 0 <= i < |entries| => OutfitMemory(env, entries[i], found[i].value))
  }

  /** `search.content.text.split(",")[0].trim()`. */
  function WearableName(h: Hit): string
  {
    Text.Trim(Text.FirstToken(h.memory.content.text, ','))
  }

  function HitNames(found: seq<Option<Hit>>): seq<string>
    requires AllFound(found)
  {
    seq(|found|, i requires 0 <= i < |found| => WearableName(found[i].value))
  }

  /** `Array.from(new Set(...))`: the names without repeats, in order of first occurrence. */
  function WearableList(found: seq<Option<Hit>>): seq<string>
    requires AllFound(found)
  {
    Seqs.Dedup(HitNames(found))
  }

  lemma WearableListSpec(found: seq<Option<Hit>>)
    requires AllFound(found)
    ensures Seqs.Distinct(WearableList(found))
    ensures forall n :: n in WearableList(found) <==> exists i :: 0 <= i < |found| && n == WearableName(found[i].value)
    ensures Seqs.OrderedByFirstOccurrence(WearableList(found), HitNames(found))
  {
    Seqs.DedupDistinct(HitNames(found));
    Seqs.DedupMembers(HitNames(found));
    Seqs.DedupFirstOccurrenceOrder(HitNames(found));
    forall n | n in HitNames(found)
      ensures exists i :: 0 <= i < |found| && n == WearableName(found[i].value)
    {
      var i :| 0 <= i < |found| && HitNames(found)[i] == n;
    }
    forall i | 0 <= i < |found|
      ensures WearableName(found[i].value) in HitNames(found)
    {
      assert HitNames(found)[i] == WearableName(found[i].value);
    }
  }

  /** A hit on a catalogue memory written by ingestion is named by the wearable's trimmed `_id`. */
  lemma NameOfIngestedWearable(h: Hit, w: Wearable)
    requires h.memory.content.text == Ingestion.StoredText(w) && ',' !in w.id
    ensures WearableName(h) == Text.Trim(w.id)
  {
    Ingestion.StoredTextFirstToken(w);
  }

  /** `requestPayload`. */
  function Payload(characterName: string, names: seq<string>, a: AvatarAttributes): Api.Json
  {
    Api.JObj([
      ("elizaUserName", Api.JStr(characterName)),
      ("wearables", Api.JArr(seq(|names|, i requires 0 <= i < |names| => Api.JObj([("wearable", Api.JStr(names[i]))])))),
      ("body", Api.JStr(a.skinTone)),
      ("head", Api.JStr(a.facialFeatures))])
  }

  function WearableOf(j: Api.Json): Option<string>
  {
    if j.JObj? && |j.members| == 1 && j.members[0].0 == "wearable" && j.members[0].1.JStr?
    then Some(j.members[0].1.s) else None
  }

  /** The wearable names a payload carries, as the backend reads them. */
  function PayloadNames(j: Api.Json): Option<seq<string>>
  {
    if j.JObj? && |j.members| == 4 && j.members[1].0 == "wearables" && j.members[1].1.JArr?
       && forall k :: 0 <= k < |j.members[1].1.items| ==> WearableOf(j.members[1].1.items[k]).Some?
    then Some(NamesOf(j.members[1].1.items))
    else None
  }

  function NamesOf(items: seq<Api.Json>): seq<string>
    requires forall k :: 0 <= k < |items| ==> WearableOf(items[k]).Some?
  {
    seq(|items|, k requires 0 <= k < |items| => WearableOf(items[k]).value)
  }

  lemma PayloadRoundTrip(characterName: string, names: seq<string>, a: AvatarAttributes)
    ensures PayloadNames(Payload(characterName, names, a)) == Some(names)
  {
    var j := Payload(characterName, names, a);
    var items := j.members[1].1.items;
    assert |items| == |names|;
    forall k | 0 <= k < |items|
      ensures WearableOf(items[k]) == Some(names[k])
    {
      assert items[k] == Api.JObj([("wearable", Api.JStr(names[k]))]);
    }
    assert NamesOf(items) == names;
  }

  // ---------------------------------------------------------------- cleanup

  function CleanupRooms(env: Env): seq<Uuid>
  {
    seq(|CleanupKeys|, i requires 0 <= i < |CleanupKeys| => SlotRoom(env, CleanupKeys[i]))
  }

  /** `roomIdsToRemove`: the ids of the memories of the cleanup rooms, without repeats. */
  function CleanupIds(env: Env, store: seq<Memory>): seq<Uuid>
  {
    Seqs.Dedup(Store.RoomIds(store, CleanupRooms(env)))
  }

  /**
   * In a store with unique ids, cleanup removes every memory of the cleanup
   * rooms except those whose removal fails, and nothing else.
   */
  lemma CleanupSpec(env: Env, store: seq<Memory>)
    requires Store.UniqueIds(store)
    ensures forall m :: m in Store.RemoveAll(store, CleanupIds(env, store), env.removeFaults) <==>
      m in store && (m.roomId !in CleanupRooms(env) || m.id in env.removeFaults)
  {
    var ids := CleanupIds(env, store);
    Store.RemoveAllMembers(store, ids, env.removeFaults);
    Seqs.DedupMembers(Store.RoomIds(store, CleanupRooms(env)));
    Store.RoomIdsMembers(store, CleanupRooms(env));
    forall m | m in store && m.roomId !in CleanupRooms(env)
      ensures m.id !in ids
    {
      Store.OtherRoomIdNotListed(store, CleanupRooms(env), m);
    }
  }

  /**
   * The cleanup list names `ACCESSORY`, not `ACCESSORIES`, and omits
   * `EYEWEAR`: when those rooms' ids differ from the cleanup rooms', their
   * copies survive cleanup.
   */
  lemma CleanupSparesAccessoriesAndEyewear(env: Env, store: seq<Memory>, m: Memory)
    requires Store.UniqueIds(store) && m in store
    requires m.roomId == SlotRoom(env, "ACCESSORIES") || m.roomId == SlotRoom(env, "EYEWEAR")
    requires forall k :: k in CleanupKeys ==> SlotRoom(env, k) != m.roomId
    ensures m in Store.RemoveAll(store, CleanupIds(env, store), env.removeFaults)
  {
    CleanupSpec(env, store);
    assert forall i :: 0 <= i < |CleanupKeys| ==> CleanupRooms(env)[i] == SlotRoom(env, CleanupKeys[i]);
  }

  // ------------------------------------------------------------ whole run

  /** After the groups are known: copy, expand, search, record, submit and clean up. */
  function AfterGrouping(env: Env, a: AvatarAttributes, w: World, groups: seq<(string, seq<Memory>)>): (Outcome, World)
    requires |env.submitOutcomes| >= Api.DefaultRetries
  {
    var w1 := w.(store := Store.StoreAll(w.store, Copies(env, groups)));
    var entries := Expansion(AttributeList(a));
    var found := Searches(env, entries);
    if !AllFound(found) then
      (Aborted(UnmatchedAttribute(entries[Seqs.FirstIndex(found, None)].0)), w1)
    else
      AfterSearch(env, a, w1, entries, found)
  }

  function AfterSearch(env: Env, a: AvatarAttributes, w: World, entries: seq<(string, AttrValue)>, found: seq<Option<Hit>>): (Outcome, World)
    requires |env.submitOutcomes| >= Api.DefaultRetries
    requires |found| == |entries| && AllFound(found)
  {
    var w2 := w.(store := Store.StoreAll(w.store, OutfitMemories(env, entries, found)));
    var request := Api.UpdateOutfitRequest(env.backend, Payload(env.characterName, WearableList(found), a), env.agentId);
    var run := Api.Retry(env.submitOutcomes, Api.DefaultRetries, Api.DefaultDelayMs, 1);
    var w3 := w2.(submitted := Some((request, run)));
    if run.result.Rejected? then (Aborted(SubmitFailed(run.result.error)), w3)
    else
      (Completed, w3.(store := Store.RemoveAll(w3.store, CleanupIds(env, w3.store), env.removeFaults),
                      removals := w3.removals + CleanupIds(env, w3.store)))
  }

  /** `generateOutfit(avatarAttributes, runtime)`. */
  function GenerateOutfitSpec(env: Env, a: AvatarAttributes, w: World): (Outcome, World)
    requires |env.submitOutcomes| >= Api.DefaultRetries
  {
    var ms := Store.InRooms(w.store, [AgentRoom(env)]);
    if ms == [] then (NoMemories, w)
    else if !AllHaveSlots(ms) then (Aborted(SlotsMissing), w)
    else
      var groups := Grouped(AttributeKeys, ms);
      if groups == [] then (NoMatches, w)
      else AfterGrouping(env, a, w, groups)
  }

  /** The early exits leave the world as it was. */
  lemma EarlyExitsKeepWorld(env: Env, a: AvatarAttributes, w: World)
    requires |env.submitOutcomes| >= Api.DefaultRetries
    requires GenerateOutfitSpec(env, a, w).0 in {NoMemories, NoMatches, Aborted(SlotsMissing)}
    ensures GenerateOutfitSpec(env, a, w).1 == w
  {
    var ms := Store.InRooms(w.store, [AgentRoom(env)]);
    if ms != [] && AllHaveSlots(ms) && Grouped(AttributeKeys, ms) != [] {
      AfterGroupingNotEarly(env, a, w, Grouped(AttributeKeys, ms));
    }
  }

  /** The run stops with `NoMatches` exactly when no agent memory carries any of the six slot keys. */
  lemma NoMatchesIff(env: Env, a: AvatarAttributes, w: World)
    requires |env.submitOutcomes| >= Api.DefaultRetries
    ensures var ms := Store.InRooms(w.store, [AgentRoom(env)]);
      GenerateOutfitSpec(env, a, w).0 == NoMatches <==>
        ms != [] && AllHaveSlots(ms) && forall k :: k in AttributeKeys ==> Matches(ms, k) == []
  {
    var ms := Store.InRooms(w.store, [AgentRoom(env)]);
    if ms != [] && AllHaveSlots(ms) {
      GroupedSpec(AttributeKeys, ms);
      var g := Grouped(AttributeKeys, ms);
      if g != [] {
        assert g[0].0 in GroupKeys(g);
        AfterGroupingNotEarly(env, a, w, g);
      }
      if exists k :: k in AttributeKeys && Matches(ms, k) != [] {
        var k :| k in AttributeKeys && Matches(ms, k) != [];
        assert k in GroupKeys(g);
      }
    }
  }

  lemma AfterGroupingNotEarly(env: Env, a: AvatarAttributes, w: World, groups: seq<(string, seq<Memory>)>)
    requires |env.submitOutcomes| >= Api.DefaultRetries
    ensures AfterGrouping(env, a, w, groups).0 !in {NoMemories, NoMatches, Aborted(SlotsMissing)}
  {
    var e := Expansion(AttributeList(a));
    var found := Searches(env, e);
    if AllFound(found) {
      assert AfterSearch(env, a, w.(store := Store.StoreAll(w.store, Copies(env, groups))), e, found).0 !in {NoMemories, NoMatches, Aborted(SlotsMissing)};
    }
  }

  /**
   * An attribute without any hit aborts the run after the slot copies are
   * written: nothing is recorded for the outfit, submitted or removed.
   */
  lemma UnmatchedAttributeAborts(env: Env, a: AvatarAttributes, w: World, groups: seq<(string, seq<Memory>)>, i: nat)
    requires |env.submitOutcomes| >= Api.DefaultRetries
    requires i < |Expansion(AttributeList(a))| && SearchOf(env, Expansion(AttributeList(a))[i]).None?
    ensures var (o, w') := AfterGrouping(env, a, w, groups);
      && o.Aborted? && o.reason.UnmatchedAttribute?
      && w' == w.(store := Store.StoreAll(w.store, Copies(env, groups)))
  {
    var found := Searches(env, Expansion(AttributeList(a)));
    assert found[i].None?;
  }

  /**
   * A completed run submits exactly once, to the outfit route with the agent's
   * key, and its payload carries each hit's name once.
   */
  lemma SubmissionSpec(env: Env, a: AvatarAttributes, w: World, entries: seq<(string, AttrValue)>, found: seq<Option<Hit>>)
    requires |env.submitOutcomes| >= Api.DefaultRetries
    requires |found| == |entries| && AllFound(found)
    ensures var (o, w') := AfterSearch(env, a, w, entries, found);
      && w'.submitted.Some?
      && Api.RouteOf(env.backend, w'.submitted.value.0.url) == Some(Api.UpdateOutfitRoute)
      && Api.ApiKey(w'.submitted.value.0.headers) == Some(env.agentId)
      && w'.submitted.value.0.body.Some? && w'.submitted.value.0.body.value.JObj?
      && |w'.submitted.value.0.body.value.members| == 1
      && PayloadNames(w'.submitted.value.0.body.value.members[0].1) == Some(WearableList(found))
      && Seqs.Distinct(WearableList(found))
      && (o == Completed <==> !w'.submitted.value.1.result.Rejected?)
  {
    var payload := Payload(env.characterName, WearableList(found), a);
    Api.EndpointBindings(env.backend, env.characterName, env.agentId, payload);
    PayloadRoundTrip(env.characterName, WearableList(found), a);
    WearableListSpec(found);
  }

  /**
   * A completed run over a store with unique ids ends with unique ids, the
   * outfit recorded, and the cleanup rooms cleared except for failed removals.
   */
  lemma CompletedRunSpec(env: Env, a: AvatarAttributes, w: World, entries: seq<(string, AttrValue)>, found: seq<Option<Hit>>)
    requires |env.submitOutcomes| >= Api.DefaultRetries
    requires |found| == |entries| && AllFound(found)
    requires Store.UniqueIds(w.store)
    requires AfterSearch(env, a, w, entries, found).0 == Completed
    ensures var w' := AfterSearch(env, a, w, entries, found).1;
      var stored := Store.StoreAll(w.store, OutfitMemories(env, entries, found));
      && Store.UniqueIds(stored)
      && (forall m :: m in w'.store <==> m in stored && (m.roomId !in CleanupRooms(env) || m.id in env.removeFaults))
      && w'.removals == w.removals + CleanupIds(env, stored)
  {
    var stored := Store.StoreAll(w.store, OutfitMemories(env, entries, found));
    Store.StoreAllSpec(w.store, OutfitMemories(env, entries, found));
    CleanupSpec(env, stored);
  }

  /** `memoriesToRemove.forEach((mem) => roomIdsToRemove.add(mem.id))`. */
  method AddNewIds(ids: seq<Uuid>, found: seq<Memory>, ghost listed: seq<Uuid>) returns (ids': seq<Uuid>)
    requires ids == Seqs.Dedup(listed)
    ensures ids' == Seqs.Dedup(listed + Store.Ids(found))
  {
    ids' := ids;
    assert listed + Store.Ids(found[..0]) == listed;
    for j := 0 to |found|
      invariant ids' == Seqs.Dedup(listed + Store.Ids(found[..j]))
    {
      var prefix, x := listed + Store.Ids(found[..j]), found[j].id;
      assert found[..j + 1] == found[..j] + [found[j]];
      Store.IdsSnoc(found[..j], found[j]);
      assert listed + (Store.Ids(found[..j]) + [x]) == prefix + [x];
      Seqs.DedupSnoc(prefix, x);
      if found[j].id !in ids' {
        ids' := ids' + [found[j].id];
      }
    }
    assert found[..|found|] == found;
  }

  /** The host runtime as seen by `generateOutfit`. */
  class Agent {
    const env: Env
    var store: seq<Memory>
    var removals: seq<Uuid>
    var submitted: Option<(Api.Request, Api.Run)>

    function State(): World
      reads this
    {
      World(store, removals, submitted)
    }

    constructor (env: Env, store: seq<Memory>)
      ensures this.env == env && State() == World(store, [], None)
    {
      this.env := env;
      this.store := store;
      this.removals := [];
      this.submitted := None;
    }

    /** `messageManager.getMemoriesByRoomIds({ roomIds: rooms })`. */
    method GetMemoriesByRoomIds(rooms: seq<Uuid>) returns (ms: seq<Memory>)
      ensures ms == Store.InRooms(store, rooms)
    {
      ms := Store.InRooms(store, rooms);
    }

    /** `messageManager.createMemory(m)`. */
    method CreateMemory(m: Memory)
      modifies this
      ensures State() == old(State()).(store := Store.Stored(old(store), m))
    {
      store := Store.Stored(store, m);
    }

    /** `messageManager.removeMemory(id)` inside its `try`. */
    method RemoveMemory(id: Uuid)
      modifies this
      ensures State() == old(State()).(store := Store.RemoveOne(old(store), id, env.removeFaults), removals := old(removals) + [id])
    {
      removals := removals + [id];
      store := Store.RemoveOne(store, id, env.removeFaults);
    }

    /** The nested loop writing each group's copies into its slot room. */
    method CopyToSlotRooms(groups: seq<(string, seq<Memory>)>)
      modifies this
      ensures State() == old(State()).(store := Store.StoreAll(old(store), Copies(env, groups)))
    {
      ghost var start := store;
      for i := 0 to |groups|
        invariant store == Store.StoreAll(start, Copies(env, groups[..i]))
        invariant removals == old(removals) && submitted == old(submitted)
      {
        assert groups[..i + 1][..i] == groups[..i];
        ghost var done := Copies(env, groups[..i]);
        var (key, items) := groups[i];
        CopyGroup(key, items);
        Store.StoreAllAppend(start, done, SlotCopies(env, key, items));
      }
      assert groups[..|groups|] == groups;
    }

    /** `for (const item of items)`: the copies of one group. */
    method CopyGroup(key: string, items: seq<Memory>)
      modifies this
      ensures State() == old(State()).(store := Store.StoreAll(old(store), SlotCopies(env, key, items)))
    {
      ghost var start := store;
      ghost var copies := SlotCopies(env, key, items);
      for j := 0 to |items|
        invariant store == Store.StoreAll(start, copies[..j])
        invariant removals == old(removals) && submitted == old(submitted)
      {
        assert copies[..j + 1][..j] == copies[..j];
        CreateMemory(SlotCopy(env, key, items[j]));
      }
      assert copies[..|items|] == copies;
    }

    /** `Promise.all(finalMemories.map(createMemory))`, taken in order. */
    method CreateMemories(ms: seq<Memory>)
      modifies this
      ensures State() == old(State()).(store := Store.StoreAll(old(store), ms))
    {
      ghost var start := store;
      for i := 0 to |ms|
        invariant State() == old(State()).(store := Store.StoreAll(start, ms[..i]))
      {
        assert ms[..i + 1][..i] == ms[..i];
        CreateMemory(ms[i]);
      }
      assert ms[..|ms|] == ms;
    }

    /** The loop over the cleanup keys that fills `roomIdsToRemove`. */
    method CollectCleanupIds() returns (ids: seq<Uuid>)
      ensures ids == CleanupIds(env, store)
    {
      ids := [];
      ghost var listed: seq<Uuid> := [];
      var rooms := CleanupRooms(env);
      for i := 0 to |CleanupKeys|
        invariant listed == Store.RoomIds(store, rooms[..i])
        invariant ids == Seqs.Dedup(listed)
      {
        assert rooms[..i + 1][..i] == rooms[..i];
        assert rooms[i] == env.toUuid(env.agentId + CleanupKeys[i]);
        var found := GetMemoriesByRoomIds([env.toUuid(env.agentId + CleanupKeys[i])]);
        ids := AddNewIds(ids, found, listed);
        listed := listed + Store.Ids(found);
      }
      assert rooms[..|CleanupKeys|] == rooms;
    }

    /** `Promise.all(Array.from(roomIdsToRemove).map(removeMemory))`, taken in order. */
    method RemoveMemories(ids: seq<Uuid>)
      modifies this
      ensures State() == old(State()).(store := Store.RemoveAll(old(store), ids, env.removeFaults), removals := old(removals) + ids)
    {
      ghost var start := State();
      for i := 0 to |ids|
        invariant State() == start.(store := Store.RemoveAll(start.store, ids[..i], env.removeFaults), removals := start.removals + ids[..i])
      {
        assert ids[..i + 1][..i] == ids[..i];
        assert start.removals + ids[..i + 1] == start.removals + ids[..i] + [ids[i]];
        RemoveMemory(ids[i]);
      }
      assert ids[..|ids|] == ids;
    }

    /** From the `finalMemories` writes to the end. */
    method RecordSubmitAndClean(a: AvatarAttributes, entries: seq<(string, AttrValue)>, found: seq<Option<Hit>>)
      returns (outcome: Outcome)
      requires |env.submitOutcomes| >= Api.DefaultRetries
      requires |found| == |entries| && AllFound(found)
      modifies this
      ensures (outcome, State()) == AfterSearch(env, a, old(State()), entries, found)
    {
      CreateMemories(OutfitMemories(env, entries, found));
      var names := WearableList(found);
      var request, run := Api.CreateNewOutfit(env.backend, Payload(env.characterName, names, a), env.agentId, env.submitOutcomes);
      submitted := Some((request, run));
      if run.result.Rejected? {
        return Aborted(SubmitFailed(run.result.error));
      }
      var ids := CollectCleanupIds();
      RemoveMemories(ids);
      outcome := Completed;
    }

    /** `generateOutfit(avatarAttributes, runtime)`. */
    method GenerateOutfit(a: AvatarAttributes) returns (outcome: Outcome)
      requires |env.submitOutcomes| >= Api.DefaultRetries
      modifies this
      ensures (outcome, State()) == GenerateOutfitSpec(env, a, old(State()))
    {
      var memories := GetMemoriesByRoomIds([env.toUuid(env.agentId)]);
      if |memories| == 0 {
        return NoMemories;
      }
      if !AllHaveSlots(memories) {
        return Aborted(SlotsMissing);
      }
      var groups := GroupBySlot(AttributeKeys, memories);
      if |groups| == 0 {
        return NoMatches;
      }
      outcome := CopySearchAndSubmit(a, groups);
    }

    /** The part of `generateOutfit` after the groups are built. */
    method CopySearchAndSubmit(a: AvatarAttributes, groups: seq<(string, seq<Memory>)>) returns (outcome: Outcome)
      requires |env.submitOutcomes| >= Api.DefaultRetries
      modifies this
      ensures (outcome, State()) == AfterGrouping(env, a, old(State()), groups)
    {
      CopyToSlotRooms(groups);
      var entries := ExpandAttributes(AttributeList(a));
      var found := Searches(env, entries);
      if !AllFound(found) {
        return Aborted(UnmatchedAttribute(entries[Seqs.FirstIndex(found, None)].0));
      }
      outcome := RecordSubmitAndClean(a, entries, found);
    }
  }
}
