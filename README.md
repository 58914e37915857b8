# ME:ID wearables plugin — a Dafny model

This project models the deterministic core of the BNV ME:ID plugin for an
elizaOS agent, and proves properties of that model. The plugin:

- fetches the user's wearable catalogue from the BNV backend;
- normalises each catalogue entry (`transformWearable`) and stores it in
  the agent's memory under a content-derived id (`createWearableProcessor`);
- selects the agent's recent fashion-related memories for the prompt and
  cleans the language model's JSON reply (`templateGeneration`);
- builds an outfit from the avatar attributes (`generateOutfit`): it groups
  the stored wearables by slot, copies them into per-slot rooms, takes the
  closest hit for each attribute, records the outfit, submits the wearable
  names to the backend, and clears the per-slot rooms;
- talks to the backend through a bounded retry loop around `fetch`
  (`fetchWithRetries`) and four endpoint bindings.

Modules, one per file:

- `Wrappers`: `Option` and `Result`.
- `Seqs`: filter, subsequence, de-duplication in first-occurrence order.
- `Text`: ECMAScript `trim`, the ASCII lowering used by `toLowerCase`,
  `includes`, `split`/`join` on one character, and the first digit run.
- `Types`: the records of `src/types.ts` and the host's `Memory`.
- `Api`: `src/services/api.ts`.
- `Wearables`: `transformWearable`.
- `Ingestion`: `createWearableProcessor`, over a class `Runtime`.
- `Generation`: the selection and the cleanup of `templateGeneration`.
- `Store`: the memory store as `generateOutfit` sees it.
- `Outfit`: `generateOutfit`, over a class `Agent`.

Host services and the network are parameters of the model:

- `fetch` is a sequence of attempt outcomes: the i-th call is answered by the
  i-th element.
- `getMemoryById` and `createMemory` during ingestion are scripted by fault
  sequences: `true` means that call throws, an exhausted script means success.
- A successful `createMemory` for an id that is already stored keeps the stored
  memory.
- `stringToUuid` is an arbitrary function `toUuid`.
- `Date.now()` is a parameter: an instant `now` in `generateOutfit`, and a clock `clock(i)` giving the instant read for the `i`-th record during ingestion.
- The embedding search is an arbitrary function from a room and an attribute
  value to a list of hits.
- Failing `removeMemory` calls are a set of ids.
- Sleeps are recorded in a trace instead of waited for.

The model follows the code as written, including these behaviours:

- An ingested record whose id is found is skipped with `continue`
  (`src/clients/startupClient.ts:376-381`). So it gets no 100 ms sleep;
  only written records end with one.
- `.filter(Boolean)` (`src/clients/startupClient.ts:222`, `:249`) removes
  nothing, because every element is a non-null object. An attribute with
  no search hit therefore makes `search.id` throw: the run aborts after the
  slot-room copies are written, and before anything is recorded or submitted.
- The cleanup loop (`src/clients/startupClient.ts:268`) visits `ACCESSORY`,
  not `ACCESSORIES`, and omits `EYEWEAR`. The copies in those two rooms are
  never removed; `Outfit.CleanupSparesAccessoriesAndEyewear` proves it.
- The memory id key `wearable-<_id>-<aiDescription>-<agentId>` is ambiguous
  when `-` occurs inside the id or the description; `Ingestion.MemoryKeyCollision`
  shows two wearables with the same key.

## Model

| member | source | states |
|---|---|---|
| Api.AttemptOutcome | src/services/api.ts:17-24 | an attempt succeeds iff `fetch` answered with an ok status (200-299) and the body parsed; a non-ok status fails with that status |
| Api.Retry | src/services/api.ts:16-34 | the loop resolves to `undefined` iff no attempt is allowed; otherwise it makes between 1 and `retries` calls and sleeps one time fewer than it calls |
| Api.RetryWithoutAttempts | src/services/api.ts:16 | with `retries <= 0` nothing is fetched, nothing is slept, and the result is `undefined` |
| Api.RetryFirstSuccess | src/services/api.ts:18-23 | when attempt k is the first that succeeds, its body is returned after k calls and exactly one delay per earlier failure |
| Api.RetryAllFail | src/services/api.ts:26-31 | when every attempt fails, `retries` calls and `retries - 1` delays are made and the error of the last attempt is thrown |
| Api.FetchWithRetries | src/services/api.ts:10-35 | the imperative loop with early return computes exactly the run of `Retry` |
| Api.EndpointBindings | src/services/api.ts:48-51 | each endpoint uses its own route under the backend; `api-key: agentId` is sent only to get-wearables and update-outfit; the POST bodies are `{name, agentId}` and `{outfitVariables}` |
| Api.LandingRequest | src/services/api.ts:48-51 | GET `<backend>/api/landing` with the JSON content type and no body |
| Api.AddUserRequest | src/services/api.ts:71-78 | POST `<backend>/api/eliza/add-user` with the JSON content type and the body `{name, agentId}` |
| Api.WearablesRequest | src/services/api.ts:96-105 | GET `<backend>/api/eliza/get-wearables` with the JSON content type and the agent id as `api-key` |
| Api.UpdateOutfitRequest | src/services/api.ts:120-130 | POST `<backend>/api/eliza/update-outfit` with the agent id as `api-key` and the body `{outfitVariables}` |
| Api.GetResponseFromBnv | src/services/api.ts:43-55 | GET `/api/landing` with the JSON content type, run through the retry loop (default 3 attempts, 2000 ms) |
| Api.CreateMeIdUser | src/services/api.ts:64-81 | POST `/api/eliza/add-user` with `{name, agentId}`, default delay 3000 ms |
| Api.GetWearables | src/services/api.ts:90-110 | GET `/api/eliza/get-wearables` with the agent's `api-key` |
| Api.CreateNewOutfit | src/services/api.ts:113-135 | POST `/api/eliza/update-outfit` with `{outfitVariables}` and the agent's `api-key` |
| Text.Trim | src/clients/startupClient.ts:342 | the result is the input without its maximal leading and trailing white space (ECMAScript white space and line terminators) |
| Text.TrimEmptyIffBlank | src/clients/startupClient.ts:342 | `trim()` is empty iff the string is all white space |
| Text.FirstTokenSpec | src/clients/startupClient.ts:250 | `split(",")[0]` is a comma-free prefix that ends at the first comma or at the end of the text |
| Text.SplitPiecesFree | src/clients/startupClient.ts:250 | no piece of a split contains the separator |
| Text.SplitCount | src/clients/startupClient.ts:250 | a split has exactly one piece more than the text has separator characters |
| Text.FirstToken | src/clients/startupClient.ts:250 | `split(c)[0]`: the text up to its first `c` (characterised by `Text.FirstTokenSpec`) |
| Text.ToLower | src/clients/startupClient.ts:39 | `toLowerCase` as far as it matters for the keyword test: ASCII capitals and the Kelvin sign are lowered, every other character is kept |
| Text.Contains | src/clients/startupClient.ts:39 | `includes`: some position of the text starts a copy of the keyword (proved by `Text.ContainsIff`) |
| Text.Join | src/clients/startupClient.ts:50 | `join(sep)`: the parts with `sep` between neighbours; `[].join(sep)` is empty |
| Text.Split | src/clients/startupClient.ts:250 | `split(c)` on one character: pieces none of which contains `c` (`Text.SplitPiecesFree`), one more than there are `c`s in the text (`Text.SplitCount`); with `Text.JoinSplit` the pieces rejoin to the text |
| Text.ToLowerIgnoresAsciiCase | src/clients/startupClient.ts:39 | texts differing only in the case of ASCII letters lower to the same text |
| Text.SplitJoin | src/clients/startupClient.ts:50 | splitting a join of separator-free parts gives the parts back |
| Text.FirstDigitRunAfter | src/clients/startupClient.ts:338 | `match(/\d+/)` finds the first maximal run of digits |
| Text.FirstDigitRun | src/clients/startupClient.ts:338 | `match(/\d+/)?.[0]`: a non-empty run of digits when the text has a digit (characterised by `Text.FirstDigitRunNone` and `Text.FirstDigitRunAfter`) |
| Wearables.SlotIndexOfKey | src/clients/startupClient.ts:338 | the key `slots[N]` sorts with index N |
| Wearables.SlotIndexWithoutDigits | src/clients/startupClient.ts:338 | a key without digits sorts with index 0 |
| Wearables.SlotFields | src/clients/startupClient.ts:335 | `filter(key => key.startsWith("slots["))`: the `slots[` fields, in field order |
| Wearables.SlotIndex | src/clients/startupClient.ts:338 | `parseInt(key.match(/\d+/)?.[0] ?? "0")`: the value of the first digit run, 0 without one |
| Wearables.SortBySpec | src/clients/startupClient.ts:336-340 | the sort (run with the slot index as key) is ordered by key and stable: it keeps the fields of each key in their original order |
| Wearables.SortBy | src/clients/startupClient.ts:336-340 | the comparator sort: a permutation of the fields (its ensures), stable and sorted by key (`Wearables.SortBySpec`) |
| Wearables.StableOrderUnique | src/clients/startupClient.ts:336-340 | any two stable sorted arrangements of the same fields are equal, so the result does not depend on the sorting algorithm |
| Wearables.TransformWearable | src/clients/startupClient.ts:344-348 | `_id` and `aiDescription` are returned unchanged |
| Wearables.SlotsInIndexOrder | src/clients/startupClient.ts:333-349 | `slots` is the non-blank values of the slot fields in stable ascending index order, and a subsequence of those values |
| Wearables.NonBlank | src/clients/startupClient.ts:342 | `filter(slot => slot.trim() !== "")`: the values whose trim is not empty, in order |
| Wearables.SlotsMembers | src/clients/startupClient.ts:334-342 | a value is in `slots` iff it is the value of a `slots[` key and is not blank |
| Wearables.RedCapExample | src/clients/startupClient.ts:342 | a record with a blank second slot yields only its first slot |
| Ingestion.WearableMemory | src/clients/startupClient.ts:386-399 | the stored memory has the derived id, the agent as agent and user, the agent's room, the text `_id,aiDescription,slots joined by commas`, the normalised slots, `createdAt` the instant read for it, and `unique` |
| Ingestion.MemoryKey | src/clients/startupClient.ts:367-369 | the string `wearable-<_id>-<aiDescription>-<agentId>` handed to `stringToUuid` |
| Ingestion.StoredText | src/clients/startupClient.ts:392-394 | the memory text `<_id>,<aiDescription>,<slots joined by commas>` |
| Ingestion.MemoryIdOf | src/clients/startupClient.ts:367-369 | `stringToUuid` of the memory key |
| Ingestion.LookupStep | src/clients/startupClient.ts:371-384 | `getMemoryById` inside `try`: a throw is caught and counts as not found, otherwise the stored memory or nothing |
| Ingestion.WriteStep | src/clients/startupClient.ts:407-409 | `createMemory`: the attempt is recorded; a throw stores nothing, a success stores the memory unless its id is present |
| Ingestion.WriteWithRetries | src/clients/startupClient.ts:401-421 | the retry loop: stop after the first successful write, sleep 500 ms after each failure, at most 3 attempts |
| Ingestion.IngestOne | src/clients/startupClient.ts:366-422 | one record: skip it when its id is found; otherwise build the memory, run the retry loop and sleep 100 ms |
| Ingestion.Ingest | src/clients/startupClient.ts:365-423 | the loop over the normalised records, in order, record `i` stamped with `clock(i)` |
| Ingestion.WriteWithRetriesSpec | src/clients/startupClient.ts:401-421 | the retry loop stops at the first successful write; it makes one attempt more than the leading write faults, at most 3, with one 500 ms sleep per failure; the memory is stored only if a write succeeds and the id is new |
| Ingestion.IngestOneSkipsExisting | src/clients/startupClient.ts:371-381 | a record whose id is found writes nothing and sleeps nothing |
| Ingestion.IngestOneWrites | src/clients/startupClient.ts:382-422 | when the id is missing or the lookup throws, the record is written with 1 to 3 attempts, sleeps of 500 ms after each failure, and then 100 ms |
| Ingestion.PermanentWriteFailure | src/clients/startupClient.ts:415-422 | a record whose writes always fail takes exactly 3 attempts and the sleeps 500, 500, 500, 100, and the store is unchanged |
| Ingestion.IngestPreservesExisting | src/clients/startupClient.ts:365-423 | no memory stored before ingestion is changed or removed |
| Ingestion.IngestTraces | src/clients/startupClient.ts:365-423 | the traces only grow; there are at most 3 attempts per record, each carrying the id of one of the records; one lookup is consumed per record |
| Ingestion.RepeatedWearableSkipped | src/clients/startupClient.ts:367-381 | the id depends only on `_id`, `aiDescription` and the agent, so a re-ingested stored wearable is skipped |
| Ingestion.MemoryKeyCollision | src/clients/startupClient.ts:367-369 | `("a-b", "c")` and `("a", "b-c")` produce the same key |
| Ingestion.StoredTextFirstToken | src/clients/startupClient.ts:392-394 | the first comma token of the stored text is the wearable's `_id`, when that id has no comma |
| Ingestion.Runtime.GetMemoryById | src/clients/startupClient.ts:373-375 | a lookup consumes one script entry and either throws, finds the stored memory, or finds nothing |
| Ingestion.Runtime.CreateMemory | src/clients/startupClient.ts:407-409 | a write is recorded, consumes one script entry, and on success stores the memory if its id is new |
| Ingestion.Runtime.Sleep | src/clients/startupClient.ts:419-422 | an awaited `setTimeout` is recorded in the sleep trace and changes nothing else |
| Ingestion.NormalizeAll | src/clients/startupClient.ts:359-364 | the loop yields `transformWearable` of each record, in order |
| Ingestion.ProcessWearable | src/clients/startupClient.ts:366-422 | one outer iteration, with the lookup, `continue`, retry loop and `break`, performs `IngestOne` |
| Ingestion.CreateWearableProcessor | src/clients/startupClient.ts:351-426 | the final host state is the ingestion of the normalised records, in order, each stamped with the clock reading at its index |
| Ingestion.IngestAll | src/clients/startupClient.ts:365-423 | the outer loop, with one `Date.now()` reading per record, performs `Ingest` of the records in order |
| Generation.RelevantMemoriesSpec | src/clients/startupClient.ts:30-41 | a memory is kept iff it has `createdAt >= now - 8h` and its lower-cased text contains one of the five keywords; the kept list is an order-preserving subsequence |
| Generation.IsRecent | src/clients/startupClient.ts:30-34 | `createdAt >= Date.now() - 8 h`; a memory without `createdAt` is not recent |
| Generation.IsRelevant | src/clients/startupClient.ts:37-40 | some keyword is included in the lower-cased text |
| Generation.RelevantMemories | src/clients/startupClient.ts:30-41 | the recency filter followed by the keyword filter |
| Generation.KeywordMatching | src/clients/startupClient.ts:37-40 | a memory is relevant iff one of the five keywords occurs at some position of its lower-cased text |
| Generation.KeywordInsideWord | src/clients/startupClient.ts:37-40 | a text that is some `p + keyword + q` up to ASCII case is relevant, whatever `p` and `q` are: the match ignores case and word boundaries |
| Generation.RelevanceIgnoresCase | src/clients/startupClient.ts:39 | changing the case of ASCII letters in a memory's text does not change whether it is relevant |
| Generation.CollectTexts | src/clients/startupClient.ts:46-49 | `contents` is the texts of the kept memories, in order |
| Generation.MemoryContent | src/clients/startupClient.ts:50 | `contents.join("-")` |
| Generation.MemoryContentSpec | src/clients/startupClient.ts:50 | an empty selection gives `""`; texts without `-` are recovered by splitting on `-` |
| Generation.StripJsonOpen | src/clients/startupClient.ts:89 | removes leading white space together with an opening ```` ```json ```` fence, and otherwise changes nothing |
| Generation.StripJsonOpenOfSplit | src/clients/startupClient.ts:89 | a reply that is white space, ```` ```json ```` and a rest is stripped to exactly the rest |
| Generation.StripJsonOpenSplits | src/clients/startupClient.ts:89 | the strip changes a reply only by removing white space and ```` ```json ```` in front of the result |
| Generation.StripCloseFence | src/clients/startupClient.ts:90 | removes ```` ``` ```` only at the very end |
| Generation.CleanGenerated | src/clients/startupClient.ts:87-92 | the two `replace` calls and `trim`, in that order |
| Generation.CleanFenced | src/clients/startupClient.ts:87-92 | a reply fenced as JSON yields its trimmed body |
| Generation.CleanUnfenced | src/clients/startupClient.ts:87-92 | a reply without fences is only trimmed |
| Generation.PlainFenceKept | src/clients/startupClient.ts:89-91 | a reply fenced without the `json` tag, after any white space, keeps its opening fence: the parser receives the fence followed by the body without its trailing white space |
| Generation.TemplateGeneration | src/clients/startupClient.ts:17-92 | the prompt uses the selected memories and their `-`-joined texts, and the cleaned reply |
| Store.StoreAllSpec | src/clients/startupClient.ts:161-162 | writes keep every stored memory and unique ids; exactly the new ids are added |
| Store.InRooms | src/clients/startupClient.ts:109-111 | `getMemoriesByRoomIds`: the stored memories whose room is listed, in store order |
| Store.Stored | src/clients/startupClient.ts:162 | `createMemory`: a memory whose id is already stored is not added again |
| Store.StoreAll | src/clients/startupClient.ts:149-164 | `createMemory` of each memory in order (characterised by `Store.StoreAllSpec`) |
| Store.RemoveOne | src/clients/startupClient.ts:278-282 | `removeMemory` inside `try`: a failing call removes nothing, any other removes the id's memory |
| Store.RemoveAll | src/clients/startupClient.ts:276-284 | `removeMemory` of each id (characterised by `Store.RemoveAllMembers`) |
| Store.RemoveAllMembers | src/clients/startupClient.ts:276-284 | exactly the memories whose removal did not fail are gone |
| Store.RoomIdsMembers | src/clients/startupClient.ts:268-274 | the listed ids are exactly the ids of the memories in the given rooms |
| Store.RoomIds | src/clients/startupClient.ts:267-272 | the ids of the memories of each cleanup room, room after room (characterised by `Store.RoomIdsMembers`) |
| Outfit.MatchesSpec | src/clients/startupClient.ts:131-133 | a group holds exactly the memories whose slots include its key, in input order |
| Outfit.Matches | src/clients/startupClient.ts:131-133 | the memories whose `slots` include the key, in store order |
| Outfit.GroupedSpec | src/clients/startupClient.ts:130-138 | groups exist exactly for keys with a match, hold all of their matches, and follow the key order |
| Outfit.Grouped | src/clients/startupClient.ts:130-138 | the `reduce`: each key with a non-empty match list, in key order |
| Outfit.AttributeList | src/clients/startupClient.ts:120-127 | `wearableAttributes`: the six keys in source order, each with its avatar attribute |
| Outfit.GroupBySlot | src/clients/startupClient.ts:130-138 | the `reduce` loop builds exactly those groups |
| Outfit.SlotCopy | src/clients/startupClient.ts:151-160 | a copy is placed in the room of its slot key and keeps the matched memory's content |
| Outfit.SlotCopies | src/clients/startupClient.ts:150-163 | the copies of one group's memories, in match order |
| Outfit.Copies | src/clients/startupClient.ts:149-164 | all copies, group after group (characterised by `Outfit.CopiesSpec`) |
| Outfit.CopiesSpec | src/clients/startupClient.ts:149-164 | every matched memory of every group is copied into the room of its group's key, the copies number the group sizes summed, and every copy lies in the room of its group's key with the content of one of that group's memories |
| Outfit.ExpansionSpec | src/clients/startupClient.ts:166-189 | the expanded length is the sum of the list lengths of non-empty lists and 1 for every other attribute; each entry comes from one attribute |
| Outfit.ExpandOne | src/clients/startupClient.ts:176-189 | one attribute's entries: an entry per item of a non-empty list, else the attribute itself (characterised by `Outfit.ExpandOneSpec`) |
| Outfit.ExpandOneSpec | src/clients/startupClient.ts:176-189 | a non-empty list gives one entry per item, entry `i` carrying the key and item `i`; any other value gives the attribute itself; every entry keeps the key |
| Outfit.Expansion | src/clients/startupClient.ts:166-189 | `expandedWearableAttributes`: the attribute entries, each non-empty list spread into one entry per item |
| Outfit.ExpansionBlock | src/clients/startupClient.ts:168-189 | each attribute's entries form one block, in list order, after the blocks of the attributes before it |
| Outfit.ExpandAttributes | src/clients/startupClient.ts:166-189 | the nested `forEach`/`push` loop yields exactly the expansion |
| Outfit.SearchOf | src/clients/startupClient.ts:205-215 | the search is made in the attribute key's room; the result is its first hit, or `null` when there is none |
| Outfit.Searches | src/clients/startupClient.ts:200-219 | the search of every expanded entry, in entry order |
| Outfit.OutfitMemory | src/clients/startupClient.ts:223-237 | the outfit memory keeps the hit's text and slots and records its similarity, the attribute value and the hit's id |
| Outfit.OutfitMemories | src/clients/startupClient.ts:221-238 | `finalMemories`: one outfit memory per entry, from its hit |
| Outfit.WearableListSpec | src/clients/startupClient.ts:246-252 | the names are distinct, are exactly the first comma tokens (trimmed) of the hits, and follow the order of first occurrence |
| Outfit.WearableList | src/clients/startupClient.ts:246-252 | `Array.from(new Set(...))` of the trimmed first comma tokens of the hits |
| Outfit.WearableName | src/clients/startupClient.ts:250 | `search.content.text.split(",")[0].trim()`: the trimmed first comma token of the hit's text |
| Outfit.NameOfIngestedWearable | src/clients/startupClient.ts:250 | a hit on an ingested catalogue memory is named by the trimmed `_id` of its wearable |
| Outfit.Payload | src/clients/startupClient.ts:254-259 | `requestPayload`: the character name, the wearable names as `{wearable}` objects, skin tone and facial features |
| Outfit.PayloadRoundTrip | src/clients/startupClient.ts:254-259 | the payload's `wearables` list reads back as the name list |
| Outfit.CleanupSpec | src/clients/startupClient.ts:267-284 | cleanup removes every memory of the five cleanup rooms except failed removals, and nothing else |
| Outfit.CleanupRooms | src/clients/startupClient.ts:268-271 | the rooms of the five keys `TOP`, `HAT`, `BOTTOM`, `SHOES` and `ACCESSORY` |
| Outfit.CleanupIds | src/clients/startupClient.ts:267-274 | the distinct ids of the memories in the five cleanup rooms, in discovery order |
| Outfit.CleanupSparesAccessoriesAndEyewear | src/clients/startupClient.ts:268 | copies in the `ACCESSORIES` and `EYEWEAR` rooms survive cleanup |
| Outfit.EarlyExitsKeepWorld | src/clients/startupClient.ts:113-143 | the exits for no memories, no matches, and memories without slots change nothing and submit nothing |
| Outfit.NoMatchesIff | src/clients/startupClient.ts:130-143 | the run stops with no matches iff there are memories, all have slots, and none includes any of the six keys |
| Outfit.UnmatchedAttributeAborts | src/clients/startupClient.ts:215-224 | an attribute without a hit aborts the run with only the slot-room copies written |
| Outfit.SubmissionSpec | src/clients/startupClient.ts:254-265 | the run submits once, to update-outfit with the agent's key, carrying each name once; it completes iff the submission is not rejected |
| Outfit.CompletedRunSpec | src/clients/startupClient.ts:240-284 | a completed run keeps ids unique, records the outfit, clears the cleanup rooms except failed removals, and logs one removal call per listed id |
| Outfit.GenerateOutfitSpec | src/clients/startupClient.ts:103-287 | the whole run: the three early exits, then `AfterGrouping` |
| Outfit.AfterGrouping | src/clients/startupClient.ts:149-219 | copy to the slot rooms, expand, search, and abort on the first attribute without a hit |
| Outfit.AfterSearch | src/clients/startupClient.ts:221-284 | record the outfit memories, submit, and clean up unless the submission is rejected |
| Outfit.AddNewIds | src/clients/startupClient.ts:273 | adding a room's ids to the set keeps first occurrences only |
| Outfit.Agent.CopyToSlotRooms | src/clients/startupClient.ts:149-164 | the nested loop writes every group's copies, in order |
| Outfit.Agent.CreateMemories | src/clients/startupClient.ts:240-244 | the outfit memories are written, in order |
| Outfit.Agent.CreateMemory | src/clients/startupClient.ts:162 | the host write: the store becomes `Stored` of the old store, nothing else changes |
| Outfit.Agent.RemoveMemory | src/clients/startupClient.ts:278-282 | the host removal: the call is recorded and the store loses the id unless the call fails |
| Outfit.Agent.CopyGroup | src/clients/startupClient.ts:150-163 | the inner loop writes the copies of one group, in order |
| Outfit.Agent.CollectCleanupIds | src/clients/startupClient.ts:267-274 | the loop over the five cleanup keys collects exactly the distinct ids of those rooms |
| Outfit.Agent.RemoveMemories | src/clients/startupClient.ts:276-284 | each listed id is removed, and a failure removes nothing |
| Outfit.Agent.RecordSubmitAndClean | src/clients/startupClient.ts:221-284 | records, submits and, unless the submission is rejected, cleans up |
| Outfit.Agent.CopySearchAndSubmit | src/clients/startupClient.ts:149-284 | after grouping, the run ends in the outcome and host state of `AfterGrouping` |
| Outfit.Agent.GetMemoriesByRoomIds | src/clients/startupClient.ts:268-271 | the host query: the stored memories of the listed rooms, `Store.InRooms`, and nothing changes |
| Outfit.Agent.GenerateOutfit | src/clients/startupClient.ts:103-287 | the whole run ends in the outcome and host state of `GenerateOutfitSpec` |

## Left out

- Real `fetch`, `setTimeout` and `Date.now()`: fetch calls are answered from a sequence of outcomes, sleeps are recorded, and time is a parameter.
- JSON serialisation and parsing: request bodies are JSON values, `response.json()` is part of each outcome, and the `JSON.parse` of the cleaned reply is not modelled.
- `composeContext`, `generateText`, `src/templates.ts`, and the character's bio and lore: the prompt is reduced to its memory list, its memory content and the cleaned reply.
- `getRoomsForParticipant` and `getMemoriesByRoomIds` during `templateGeneration`: the memories of the agent's rooms are an input.
- Embeddings and the 0.8-threshold similarity search: the search is an arbitrary function of the room and the attribute value, not tied to the store's contents.
- A rejecting `searchMemoriesByEmbedding` or `addEmbeddingToMemory` (`src/clients/startupClient.ts:200-219`): the model's search always returns a list, so the path where one rejection aborts the `Promise.all` and the run is not modelled.
- Store.InRooms: `getMemoriesByRoomIds` returns rows in an order the host database chooses; the model fixes it as store order, which decides the order of the groups' matches and of the cleanup ids.
- `memoryEntries` ids (`src/clients/startupClient.ts:192-198`): these entries are never stored, so only their key and value are kept.
- `createMemory` and `addEmbeddingToMemory` failures inside `generateOutfit`: those writes always succeed in the model.
- `Promise.all` fan-out (`src/clients/startupClient.ts:200-219`, `240-244`, `276-284`): it is modelled as sequential calls in list order.
- The scheduler `handleTimeoutWithInterval`, `createNewUser`, `updateWearableEntry` and the `start`/`stop` lifecycle: these are timers and host wiring.
- `src/environment.ts` and `src/index.ts`: settings validation and the plugin object.
- Logging and `console.time`.
- Text.ToLower: lowers ASCII letters and the Kelvin sign only. These are the only characters whose lowercase form can create one of the ASCII keywords.
- Wearables.SlotIndex: reads the digit run as an exact natural number. JavaScript's `parseInt` loses precision beyond 2^53, and the sort comparator's subtraction of such values is not modelled.
- Ingestion.CreateWearableProcessor: the clock readings are arbitrary; the model does not tie them to the sleeps and calls between them, so it does not state that `createdAt` grows from record to record.
- Ingestion.CreateWearableProcessor: the store is a map from id to memory, without the host's storage order. `generateOutfit` sees the same kind of memories as an ordered log (module `Store`), because it queries by room.
- Outfit.Agent.GenerateOutfit: every `Date.now()` of one run reads the same instant `now`.
- Outfit.GenerateOutfitSpec: a memory without `slots` aborts the run as soon as the agent room has memories. In the source this is the `TypeError` of `includes` at the first key.
