# KaraokeNight queue core in Dafny

This project models the queue logic of KaraokeNight, a karaoke party app. An MC, a display and many performers share one ordered song queue that lives in a Supabase `songs` table. Two pieces are modelled.

- **The party store** (`src/store/partyStore.ts`). It holds the party id, the passcode and an in-memory `queue: Song[]`. Its operations replace the queue, append a song optimistically, remove songs by id, find a submitter's first position, re-read the party's songs ordered by `created_at`, and reorder. `reorderQueue` sorts a copy of the queue, swaps the `created_at` values of the songs at two ranks in the table, and refreshes.
  - A row is `SongQueue.Song`, the `Song` interface of src/store/partyStore.ts:4-11, with `created_at` as an integer key.
  - The table is a `map` from row id to row, held by a `Table` object that the store gets as an explicit handle.
  - A refresh is any sequence that is in key order and holds each of the party's rows exactly once (`SongTable.IsRefreshOf`). With unique keys there is exactly one such sequence (`RefreshUnique`).
  - The main theorem is `SongTable.ReorderRefreshIsRankSwap`. Start from a synced queue over a table with unique keys. Swapping the keys of ranks `i` and `j` and refreshing gives the old queue with the songs at those ranks exchanged, each rank keeping its key (`SwapRanks`). Doing it twice restores both the queue and the table (`PartyStore.ReorderTwice`).
- **The performer page** (`src/pages/PartyView.tsx`).
  - `extractVideoId` is its regular expression written as functions. They encode JavaScript's leftmost-match rule, its ordered alternatives and its greedy backtracking.
  - `submitSong` is a method with the page's early returns. It computes the next `order` value.
  - The effect that shows or hides the form and raises the position notification is a method.
  - The branch choice of `renderQueueStatus` is a function.

  This page orders songs by an integer `order` column. The store orders by `created_at`. The two keys are kept apart.

Facts about the code that the model keeps:
- `addSong` appends even when a song with the same id is already queued.
- The notification effect remembers no previous position. It fires on every run where the position lies in [0, 2], the user is not the current singer and notifications are granted (`PartyView.PositionAlert`, `PartyView.AlertRepeats`).
- The play, pause, rewind and skip actions only publish a broadcast. No code keeps a playback state.
- `currentSong` is read by the page, but the store never defines it, so at run time it is always `undefined`. The model takes it as an input.
- With no party id, the refresh sends `eq('party_id', null)`, which compares `party_id` with the text `null` rather than testing for NULL. That read either fails (`readOk` false, queue kept) or matches no row (an empty refresh). The model allows both.
- The bar width `100 - 25*p` is kept as an integer. It is below zero from position 5 on.

## Model

| member | source | states |
|---|---|---|
| SongQueue.AppendedShape | src/store/partyStore.ts:38 | appending adds exactly one entry at the end, keeps earlier entries, and raises that song's count even when it is already queued |
| SongQueue.RemoveById | src/store/partyStore.ts:39-41 | the result holds exactly the songs of the queue whose id differs, and is no longer than the queue |
| SongQueue.RemoveByIdAppend | src/store/partyStore.ts:40 | the filter distributes over concatenation, so the survivors keep their relative order |
| SongQueue.RemoveByIdCount | src/store/partyStore.ts:40 | afterwards no song has that id, and every other song keeps its multiplicity |
| SongQueue.RemoveByIdAbsent | src/store/partyStore.ts:39-41 | removing an id no song carries leaves the queue unchanged |
| SongQueue.RemoveByIdIdempotent | src/store/partyStore.ts:39-41 | removing the same id twice equals removing it once |
| SongQueue.RemoveByIdSorted | src/store/partyStore.ts:39-41 | removing songs keeps a key-sorted queue sorted |
| SongQueue.FindIndexBySubmitter | src/store/partyStore.ts:58 | the result is -1 exactly when no song has that submitter; otherwise it is a matching rank with no match before it; always in [-1, length) |
| SongQueue.InsertByKey | src/store/partyStore.ts:45 | inserting into a sorted queue keeps it sorted and adds exactly that song |
| SongQueue.SortByCreatedAt | src/store/partyStore.ts:45 | the sorted copy is ascending by created_at and a permutation of the queue |
| SongQueue.SortSortedIsIdentity | src/store/partyStore.ts:45 | sorting a queue that is already in key order returns it unchanged |
| SongQueue.SwapRanks | src/store/partyStore.ts:46-54 | the rank swap keeps the length and every rank's key |
| SongQueue.SwapRanksSame | src/store/partyStore.ts:46-52 | swapping a rank with itself changes nothing |
| SongQueue.SwapRanksExchanges | src/store/partyStore.ts:46-52 | the songs at the two ranks change places with each other's keys; every other rank is untouched |
| SongQueue.SwapRanksInvolution | src/store/partyStore.ts:46-54 | the rank swap is its own inverse |
| SongQueue.SwapRanksSorted | src/store/partyStore.ts:46-54 | the rank swap keeps a sorted or strictly sorted queue so |
| SongTable.WithKey | src/store/partyStore.ts:51 | an update by id changes only that row's key; a missing id writes nothing |
| SongTable.SwapKeys | src/store/partyStore.ts:49-52 | the two writes keep the table's ids and leave every row other than the two songs' rows unchanged |
| SongTable.SwapKeysFrame | src/store/partyStore.ts:49-52 | the two writes change the keys of those two rows only: b takes a's key, a takes b's |
| SongTable.SwapKeysSame | src/store/partyStore.ts:49-52 | with from == to, when the local song equals its row, the two writes leave the table unchanged; a stale local copy instead writes its own key back, as `ReorderQueue`'s contract states |
| SongTable.SwapKeysKeepsInvariants | src/store/partyStore.ts:49-52 | the key swap keeps rows stored under their ids and keeps keys unique |
| SongTable.SwapKeysRestore | src/store/partyStore.ts:49-52 | swapping back with the new keys restores the table |
| SongTable.RefreshStrictlySorted | src/store/partyStore.ts:86-90 | with unique keys in the table, a refresh is strictly ascending |
| SongTable.StrictlySortedUnique | src/store/partyStore.ts:90 | two strictly sorted sequences with the same elements are equal |
| SongTable.RefreshUnique | src/store/partyStore.ts:84-94 | with unique keys two refreshes of the same table are identical, so reconciliation is deterministic and idempotent |
| SongTable.ReorderRefreshIsRankSwap | src/store/partyStore.ts:42-55 | swapping the keys at ranks i and j and refreshing yields the old queue with ranks i and j exchanged |
| SongTable.RankSwapMembers | src/store/partyStore.ts:46-54 | the rank swap of a refresh holds exactly the party's rows of the key-swapped table |
| SongTable.Table.UpdateCreatedAt | src/store/partyStore.ts:51-52 | the table afterwards is the table with that row's key rewritten |
| SongTable.Table.SelectByParty | src/store/partyStore.ts:86-90 | the rows returned are key-sorted and hold each of the party's rows exactly once |
| PartyStore.PartyStore.constructor | src/store/partyStore.ts:31-34 | no party id, no passcode and an empty queue |
| PartyStore.PartyStore.SetPartyId | src/store/partyStore.ts:35 | sets the party id; the passcode and queue are unchanged |
| PartyStore.PartyStore.SetPasscode | src/store/partyStore.ts:36 | sets the passcode; the party id and queue are unchanged |
| PartyStore.PartyStore.SetQueue | src/store/partyStore.ts:37 | the queue becomes exactly the argument, whatever it held |
| PartyStore.PartyStore.AddSong | src/store/partyStore.ts:38 | the queue becomes the old queue with the song appended |
| PartyStore.PartyStore.RemoveSong | src/store/partyStore.ts:39-41 | the queue becomes the old queue without the songs of that id |
| PartyStore.PartyStore.GetUserQueuePosition | src/store/partyStore.ts:56-59 | first-index semantics with -1 for no match; result in [-1, length); reads the store only |
| PartyStore.PartyStore.UpdateQueueFromPostgres | src/store/partyStore.ts:84-94 | on a successful read the queue is a refresh of the party's rows; on a failed read it is unchanged |
| PartyStore.PartyStore.ReorderQueue | src/store/partyStore.ts:42-55 | out-of-range ranks: no write and no change; otherwise exactly the two key writes, then a refresh; from a synced state the new queue is the rank swap, and the state is still synced |
| PartyStore.AddThenReplace | src/store/partyStore.ts:37-38 | an optimistic append followed by a replacement leaves exactly the replacement |
| PartyStore.ReorderTwice | src/store/partyStore.ts:42-55 | reordering the same ranks twice restores the queue and the table |
| JsText.TrimStart | src/pages/PartyView.tsx:142 | drops exactly the leading whitespace |
| JsText.TrimEnd | src/pages/PartyView.tsx:142 | drops exactly the trailing whitespace |
| JsText.Trim | src/pages/PartyView.tsx:142 | the result is the slice of the name between its leading and its trailing whitespace, and neither starts nor ends with whitespace |
| JsText.TrimSlice | src/pages/PartyView.tsx:142 | trimming the end of a suffix leaves a slice followed by whitespace only |
| JsText.TrimEmptyIff | src/pages/PartyView.tsx:142 | a name trims to empty exactly when every character is whitespace |
| JsText.DecimalString | src/pages/PartyView.tsx:222 | the rendering is a non-empty run of digits with no leading zero |
| JsText.DecimalRoundTrip | src/pages/PartyView.tsx:222 | the decimal rendering reads back as the number |
| VideoId.IdAt | src/pages/PartyView.tsx:125 | a captured id is 11 characters, none of them `"`, `&`, `?`, `/` or whitespace |
| VideoId.RunEnd | src/pages/PartyView.tsx:125 | the greedy `[^/]+` stops at the first slash or at the end |
| VideoId.LineEnd | src/pages/PartyView.tsx:125 | `.` stops at the first line terminator or at the end |
| VideoId.SlashThenId | src/pages/PartyView.tsx:125 | any id found by the backward slash scan is well formed |
| VideoId.SegmentPath | src/pages/PartyView.tsx:125 | any id found by `[^/]+/.+/` is well formed |
| VideoId.ShortPath | src/pages/PartyView.tsx:125 | any id found by `(?:v\|e(?:mbed)?)/` is well formed |
| VideoId.ParamThenId | src/pages/PartyView.tsx:125 | any id found by the backward `[?&]v=` scan is well formed |
| VideoId.QueryPath | src/pages/PartyView.tsx:125 | any id found by `.*[?&]v=` is well formed |
| VideoId.MatchAt | src/pages/PartyView.tsx:125 | a match at a position yields a well-formed id, and a host literal starts there |
| VideoId.Search | src/pages/PartyView.tsx:126 | the leftmost match yields a well-formed id |
| VideoId.ExtractVideoId | src/pages/PartyView.tsx:124-128 | a non-null result is exactly 11 characters, none of them `"`, `&`, `?`, `/` or whitespace |
| VideoId.NoHostNoId | src/pages/PartyView.tsx:125 | a URL containing neither `youtube.com/` nor `youtu.be/` yields null |
| VideoId.RecognisesShortLink | src/pages/PartyView.tsx:125 | `youtu.be/ID` yields ID |
| VideoId.RecognisesWatch | src/pages/PartyView.tsx:125 | `youtube.com/watch?v=ID` yields ID |
| VideoId.RecognisesShortPath | src/pages/PartyView.tsx:125 | `youtube.com/v/ID`, `youtube.com/embed/ID` and `youtube.com/e/ID` yield ID |
| PartyView.MaxOrder | src/pages/PartyView.tsx:159-164 | the descending, limit-1 query returns an existing order that no other order exceeds |
| PartyView.NextOrder | src/pages/PartyView.tsx:166 | 0 for an empty party, otherwise one more than the largest order, so above every existing order |
| PartyView.AlertText | src/pages/PartyView.tsx:87-89 | the text is "You're up next!" exactly at position 0 |
| PartyView.PositionAlert | src/pages/PartyView.tsx:77-92 | an alert is raised exactly for positions 0 to 2 when the user is not the current singer, with the position's text |
| PartyView.AlertCountsSongs | src/pages/PartyView.tsx:87-89 | at positions 1 and 2 the alert says "You're {p+1} songs away from performing!", and the number reads back as p+1 |
| PartyView.SongNoun | src/pages/PartyView.tsx:222 | the noun is singular exactly when its argument is 1; the page passes the position, the corrected heading the count |
| PartyView.HeadingAsWritten | src/pages/PartyView.tsx:220-222 | the page's heading is "You're Up Next!" exactly at position 0 |
| PartyView.HeadingAsWrittenShows | src/pages/PartyView.tsx:220-222 | past the head the page shows p+1, as digits that read back as p+1, with the noun `SongNoun(p)`, which is "song" exactly at position 1 |
| PartyView.HeadingAsWrittenDisagrees | src/pages/PartyView.tsx:220-222 | at position 1 the page shows the count 2 with the singular noun |
| PartyView.Heading | src/pages/PartyView.tsx:220-222 | the corrected heading is "You're Up Next!" exactly at position 0 |
| PartyView.HeadingCountsSongs | src/pages/PartyView.tsx:220-222 | past the head the corrected heading shows p+1 with the plural noun, and the number reads back as p+1 |
| PartyView.HeadingCorrectionOnlyAtOne | src/pages/PartyView.tsx:220-222 | the corrected heading differs from the page's at position 1 only |
| PartyView.BarWidth | src/pages/PartyView.tsx:227 | the width is at most 100, a multiple of 25, and 100 exactly at position 0 |
| PartyView.BarWidthShrinks | src/pages/PartyView.tsx:227 | the bar is 100 at the head and 0 at position 4, shrinks strictly with the position, and never exceeds 100 |
| PartyView.RenderQueueStatus | src/pages/PartyView.tsx:194-237 | the current-singer view wins; otherwise nothing is shown exactly at -1 and the waiting panel at every p >= 0; its heading is the page's own (up next exactly at 0), its width is `BarWidth(p)`, and its hint is the warm-up text for p <= 2 and the practice text otherwise |
| PartyView.AlertAgreesWithStatus | src/pages/PartyView.tsx:84-92 | outside the current-singer view, an alert fires exactly when the panel shows the warm-up hint, and "up next" alert matches "up next" heading |
| PartyView.PartyView.constructor | src/pages/PartyView.tsx:9-15 | empty inputs and messages; the form is shown |
| PartyView.HasPartyId | src/pages/PartyView.tsx:147 | `partyId` is truthy: present and not empty |
| PartyView.IsCurrentSinger | src/pages/PartyView.tsx:196 | the current song exists and was submitted under the user's name |
| PartyView.Verdict.Message | src/pages/PartyView.tsx:143-154 | each failed check has its own message: the name message for a blank name, the party-id message for a missing party id, the URL message for a URL without an id |
| PartyView.CheckSubmission | src/pages/PartyView.tsx:142-156 | the checks run in the page's order. A name that trims to empty, or equivalently is all whitespace, is rejected first. A missing or empty party id is rejected next, then a URL without a video id. Otherwise the URL's id is accepted, and it is well formed |
| PartyView.PartyView.SubmitSong | src/pages/PartyView.tsx:140-192 | a failed check sets its message, requests no insert and changes nothing else. Otherwise the insert carries the party id, the lookup's title, the extracted id, the untrimmed name and the next order. The name and the party id are unchanged |
| PartyView.PartyView.FinishInsert | src/pages/PartyView.tsx:180-190 | an insert error sets the failure message and leaves the queue, URL and success text as they were. A returned row is appended to the store's queue, the URL and error are cleared and the success text is set |
| PartyView.PartyView.OnQueueChange | src/pages/PartyView.tsx:74-95 | with a name set, the form shows exactly at position -1, and the alert is the position's alert when notifications are granted; an empty name changes nothing |
| PartyView.PartyView.QueueStatus | src/pages/PartyView.tsx:194-237 | the current singer sees the performing view with the current song's title; otherwise nothing is shown exactly when no queued song has the user's name, and the waiting panel exactly when one has, with the page's heading, width and hint for the user's first position |
| PartyView.AlertRepeats | src/pages/PartyView.tsx:74-95 | two effect runs over the same queue raise the same alert twice |

## Findings

| source | as written | input that shows it | evidently intended | confidence | as-written member | corrected member |
|---|---|---|---|---|---|---|
| src/pages/PartyView.tsx:222 | the noun is chosen by `position === 1`, but the count shown is `position + 1` | position 1 shows "2 song until your performance" | the noun agrees with the count shown: "2 songs until your performance" | not executed; medium (the author may have meant to show `position`) | PartyView.HeadingAsWrittenDisagrees | PartyView.HeadingCountsSongs |

`PartyView.RenderQueueStatus` renders the page's own heading, `HeadingAsWritten`. `Heading` is the corrected form. `HeadingCorrectionOnlyAtOne` shows that the two differ only at position 1.

## Left out

- `playSong`, `pauseSong`, `rewindSong` and `skipSong` only publish a broadcast on the party channel. Nothing in the code reacts to it, so there is no state to model.
- The realtime subscription and the initial fetch of the page (src/pages/PartyView.tsx:28-72) are Supabase I/O. Their effect on the store is `SetQueue` with a list ordered by `order`.
- `joinParty` and party creation in `Home.tsx` are database lookups and inserts. The random passcode generation is left out too.
- The title lookup over `fetch` is a foreign network call. The title is an opaque input of `SubmitSong`.
- `setTimeout` clearing the success message, the Browser Notification API and JSX rendering are UI. Notification permission is a boolean input.
- PartyStore.PartyStore.ReorderQueue: the two table writes always succeed in the model. Only the refresh read can fail. The source ignores the writes' errors, so a failure would go unnoticed. If the first write succeeds and the second fails, both rows carry the second song's `created_at`. Keys are then no longer unique, and the refresh is not a rank swap. The model does not cover that case.
- PartyStore.PartyStore.ReorderQueue: `created_at` is always an integer. The source's `new Date(...)` parsing, and an undefined `created_at` on an optimistic entry (which gives a NaN comparator), are not modelled.
- SongQueue.SortByCreatedAt: the sort is stable by construction, as JavaScript's is, but stability is not stated as a lemma.
- VideoId.RecognisesWatch: proved for URLs where no host literal comes before the match and no `/`, `?v=` or `&v=` follows the id. Otherwise the greedy `[^/]+/.+/` or `.*[?&]v=` can capture a later id, and the model does the same.
- VideoId.RecognisesShortPath: proved for URLs where no host literal comes before the match and no `/` follows the id, for the same reason.
- The regex runs over UTF-16 code units in JavaScript. The model runs over Unicode scalar values, which only matters for ids holding characters outside the Basic Multilingual Plane.
- Concurrent writers on the table and ordering across channels are not modelled. Each operation runs alone.
