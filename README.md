# Queue and auth stores of queuecruncher, modelled in Dafny

queuecruncher registers walk-in customers in a service queue. Its only
non-presentational logic lives in two client-side stores:

- the **queue store** (`src/store/queue.store.ts`) holds one ordered list of
  `QueueEntry` records and four actions that each replace the list:
  `addToQueue` appends a `waiting` entry whose position is the list length
  plus one and whose expected wait is the list length times 10 minutes;
  `removeFromQueue` filters out the entries with a given id; `markAsServed`
  and `updateStatus` set the status of the entries with a given id;
- the **auth store** (`src/store/auth.store.ts`) holds a session `token` and a
  `user`, both null at first; `setAuth` sets both and `logout` clears both.

Files:

- `optional.dfy` — module `Optional`: `Option`, standing for `T | null` and
  for optional properties such as `phone?`.
- `queue.dfy` — module `Queue`: the entry datatype, the new list each action
  computes as a pure function on `seq<QueueEntry>` (`Added`, `Without`,
  `WithStatus`, `MarkedServed`), lemmas about them, and the class
  `QueueStore` whose `entries` field the four methods overwrite.
- `auth.dfy` — module `Auth`: the state as a value, one step per action,
  runs of actions and their lemmas, and the class `AuthStore` with the two
  fields and the two methods.

The stores enforce no rules beyond these:

- positions are never renumbered after a removal (`NoRenumbering`), and
  `position` counts every entry in the list whatever its status, so after a
  removal a new entry can get a position another entry already holds
  (`PositionsCanRepeat`);
- `updateStatus` accepts any status from any status, `served` back to
  `waiting` included (`WithStatusReversible`); there is no transition table
  and no check that at most one entry is `serving`;
- customer names are not validated; ids are not checked for uniqueness, and
  every entry carrying the id is affected by removal and status updates;
- the wait estimate is fixed at 10 minutes per entry ahead
  (`MinutesPerCustomer`), not a configuration parameter.

What every queue action does keep is that each entry's wait equals
`(position - 1) * 10` with `position >= 1` (`WellFormed`, the class invariant
`QueueStore.Valid`). The auth store keeps "token is null exactly when user is
null" (`Consistent`); every action establishes it from any state.

## Model

| member | source | states |
|---|---|---|
| `Queue.NewEntry` | src/store/queue.store.ts:26-34 | the entry built for a list of length n has the given id, name, phone and time, status waiting, position n + 1 and wait n * 10, which is (position - 1) * 10 |
| `Queue.Added` | src/store/queue.store.ts:24-39 | the new list is one longer, keeps the old list unchanged as its prefix, and ends with the new entry: given id, name, phone and time, status waiting, position old length + 1, wait (position - 1) * 10, never negative |
| `Queue.Without` | src/store/queue.store.ts:41-44 | the filtered list is no longer than the old one and no entry in it carries the removed id |
| `Queue.WithStatus` | src/store/queue.store.ts:53-58 | the mapped list has the same length; at each index the entry with the matching id has the given status and all other fields unchanged, every other entry is identical |
| `Queue.AddedAllPositions` | src/store/queue.store.ts:23-39 | after consecutive adds the old list is a prefix and the k-th new entry is exactly the k-th request's id, name, phone and time with status waiting, position old length + k + 1 and wait (old length + k) * 10 |
| `Queue.FromEmptyPositions` | src/store/queue.store.ts:23-39 | from the empty store, N adds give positions 1..N and waits 0, 10, ..., (N-1)*10 in call order, with status waiting and the requested ids and names |
| `Queue.WithoutMember` | src/store/queue.store.ts:43 | an entry is in the filtered list exactly when it was in the old list and its id differs: surviving entries are untouched, positions included |
| `Queue.WithoutConcat` | src/store/queue.store.ts:43 | filtering a concatenation is the concatenation of the filtered parts, so relative order is kept |
| `Queue.WithoutSingle` | src/store/queue.store.ts:43 | a single entry is dropped exactly when its id matches, and kept as it is otherwise |
| `Queue.WithoutAbsent` | src/store/queue.store.ts:43 | removal leaves the list unchanged exactly when no entry carries the id |
| `Queue.WithoutIdempotent` | src/store/queue.store.ts:41-44 | removing an id twice equals removing it once |
| `Queue.WithoutLength` | src/store/queue.store.ts:43 | the length drops by exactly the number of entries carrying the id |
| `Queue.WithStatusLastWins` | src/store/queue.store.ts:53-58 | a second status update of the same id overrides the first; with equal statuses the update is idempotent |
| `Queue.WithStatusAbsent` | src/store/queue.store.ts:55-57 | updating an id no entry carries leaves the list unchanged |
| `Queue.WithStatusReversible` | src/store/queue.store.ts:53-58 | any status may follow any other: setting an entry (with an id no other entry carries) to any status and then back to its old status restores the list |
| `Queue.MarkedServed` | src/store/queue.store.ts:46-51 | the store's own map for `markAsServed(id)` computes the same list as `updateStatus(id, 'served')`, that is `WithStatus(entries, id, Served)` |
| `Queue.MarkedServedIdempotent` | src/store/queue.store.ts:46-51 | marking an id as served twice equals doing it once |
| `Queue.AddedWellFormed` | src/store/queue.store.ts:30-33 | adding keeps every entry's wait equal to (position - 1) * 10 with position at least 1 |
| `Queue.WithoutWellFormed` | src/store/queue.store.ts:41-44 | removal keeps that wait/position relation |
| `Queue.WithStatusWellFormed` | src/store/queue.store.ts:53-58 | a status update keeps that wait/position relation |
| `Queue.MarkedServedWellFormed` | src/store/queue.store.ts:46-51 | marking as served keeps that wait/position relation |
| `Queue.NoRenumbering` | src/store/queue.store.ts:41-44 | after two joins and removal of the first, the second entry keeps position 2 and wait 10 |
| `Queue.PositionsCanRepeat` | src/store/queue.store.ts:30 | after two joins, removal of the first and a third join, both remaining entries have position 2 |
| `Queue.QueueStore.constructor` | src/store/queue.store.ts:23 | the store starts with an empty list, which satisfies the invariant |
| `Queue.QueueStore.AddToQueue` | src/store/queue.store.ts:24-40 | the list becomes `Added` of the old list; the invariant is kept |
| `Queue.QueueStore.RemoveFromQueue` | src/store/queue.store.ts:41-45 | the list becomes `Without` of the old list; the invariant is kept |
| `Queue.QueueStore.MarkAsServed` | src/store/queue.store.ts:46-52 | the list becomes the served-mapped old list, equal to `WithStatus(old, id, Served)`; the invariant is kept |
| `Queue.QueueStore.UpdateStatus` | src/store/queue.store.ts:53-59 | the list becomes `WithStatus` of the old list for any given status; the invariant is kept |
| `Auth.Step` | src/store/auth.store.ts:21-22 | after any action from any state, token and user are null together; the token is present exactly after `setAuth`, and then token and user are the given ones |
| `Auth.LogoutIdempotent` | src/store/auth.store.ts:22 | logout yields the initial state from any state, and a second logout changes nothing |
| `Auth.SetAuthOverwrites` | src/store/auth.store.ts:21 | a second `setAuth` overwrites the first session completely |
| `Auth.RunConsistent` | src/store/auth.store.ts:6-22 | every sequence of actions from a consistent state ends in a consistent state |
| `Auth.RunLastWins` | src/store/auth.store.ts:21-22 | after a non-empty sequence of actions, the state depends only on the last action, whatever the start |
| `Auth.AuthStore.constructor` | src/store/auth.store.ts:19-20 | the store starts with token and user null |
| `Auth.AuthStore.SetAuth` | src/store/auth.store.ts:21 | token and user become the given ones, as `Step` says; the invariant holds |
| `Auth.AuthStore.Logout` | src/store/auth.store.ts:22 | token and user become null, as `Step` says; the invariant holds |

## Left out

- Id generation with `Math.random().toString(36).substr(2, 9)` (src/store/queue.store.ts:27) is nondeterministic: the id is a parameter of `AddToQueue`, and nothing is claimed about uniqueness.
- The `new Date()` timestamp (src/store/queue.store.ts:32) is a parameter `now` of type `Timestamp`.
- Zustand's `create`/`set` machinery, subscription of components to store changes, and the `persist` middleware writing the auth store to browser storage (src/store/auth.store.ts:16-27) are library plumbing and I/O; only the state transitions are modelled.
- The React pages and components (login, join form, admin layout, sidebar, dashboard, queue, settings, QR code) and the route table are presentation; the login page's simulated sign-in and the join form's `required` attribute are browser-side, not store logic.
- The stores have no concurrency control, per-business queues, change notification, position compaction, transition table or single-server check, so none of these appears in the model.
