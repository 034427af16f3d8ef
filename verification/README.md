# zkteco-logger core, modelled in Dafny

zkteco-logger runs one worker per ZKTeco attendance terminal (`ZKTecoDevice` in
`src/main.py`). Each worker connects to its terminal and reads live punches. It posts
each punch to an attendance API as JSON. A punch whose post is not answered with
status 200 goes into a local failed-log file, keyed by the terminal's IP address. An
hourly sweep retries everything in that file.

This project models that core as pure functions over immutable datatypes and proves
what it does.

- `common.dfy`, module `Common`: `Option`.
- `timestamp.dfy`, module `Timestamp`: calendar date-times (`Instant`, years 1 to
  9999 with real month lengths). It holds the `%Y-%m-%d %H:%M:%S` rendering used for
  payloads and for the per-second index keys, and its inverse parser.
- `delivery.dfy`, module `Delivery`: the attendance event, the posted payload, and the
  acceptance rule of `send_log_to_api`. The HTTP call is an oracle, a sequence of
  `Response`s where call `i` meets entry `i`. A call past the end of the sequence
  meets a transport error.
- `failed_store.dfy`, module `FailedStore`: the failed-log file as a `Snapshot`. It
  is either no file, a file that does not decode, or a map from IP address to queued
  records. The module models `store_failed_log` (`Enqueue`) and `process_failed_logs`
  (`Drain`), including the remove-by-value of Python's `list.remove` (`RemoveFirst`,
  `RemoveEach`).
- `store_properties.dfy`, module `StoreProperties`: lemmas relating several sweep
  outcomes. They cover:
  - all retries accepted;
  - no retry accepted;
  - other addresses left untouched;
  - order kept when the records are distinct;
  - reordering of equal duplicates;
  - a failed punch delivered by the next sweep.
- `session.dfy`, module `Session`:
  - the status machine of `connect` and `disconnect`;
  - the per-batch body of `get_live_logs` (`Dispatch`);
  - one whole pass of the capture loop (`Iterate`) and a run of passes (`RunLoop`).
- `supervisor.dfy`, module `Supervisor`: the hourly sweep over all devices against the
  one shared file.
- `shared_file.dfy`, module `SharedFile`: two devices storing into the one file under their own locks (the second finding below), and the same with one lock for the file.
- `json_persistence.dfy`, module `JsonPersistence`: how a record is actually written to
  JSON. This is the first finding below: the code as written and the corrected encoding.

The outside world is passed in as parameters:
- the terminal's connect result (`ConnectOutcome`);
- the entries `live_capture` yields, and whether it then raised (`Capture`);
- the API's answers (`seq<Response>`);
- the wall-clock second at which each punch was handled (`Event.seenAt`).

`time.sleep` appears as the number of seconds a pass pauses (`Iteration.pause`).

In these places the code behaves in ways a reader might not expect; the model follows
the code:
- No "Connecting" status exists. The status is the configured text until the first
  `connect`, then "Connected", "Connection Failed" or "Disconnected".
- A fault during capture does not clear `conn`. So the loop's guard
  (`if not self.conn`) never reconnects after one, and the same holds after
  `disconnect` (`Session.NoReconnectOnceHeld`).
- Only status code exactly 200 is success. Other 2xx codes are failures.
- A sweep removes accepted records by value, and `list.remove` drops the first equal
  element. So with equal duplicates the remaining list is not always the failed
  records in order (`StoreProperties.DrainDuplicatesReorder`).

## Model

| member | source | states |
|---|---|---|
| Timestamp.Format | src/main.py:116 | the rendered timestamp always has the fixed 19-character shape: digits, with `-` at 4 and 7, a space at 10, and `:` at 13 and 16 |
| Timestamp.Parse | src/main.py:116 | reading a string back yields an instant only when rendering that instant gives the same string |
| Timestamp.ParseFormat | src/main.py:116 | rendering loses nothing: reading back the rendered text gives the same instant |
| Timestamp.FormatInjective | src/main.py:87-91 | two handling times give the same `device_logs` key exactly when they agree to the second |
| Delivery.BuildPayload | src/main.py:113-118 | the payload carries the device id, the event's user id and status, and a timestamp of the fixed shape that reads back as the event's time |
| Delivery.Send | src/main.py:107-130 | it posts the payload built from the device and the event, and reports delivery exactly when the answer is status 200; a request exception is never delivery |
| Delivery.Drop | src/main.py:165-166 | after `n` calls, the next call meets the oracle's answer number `n` |
| FailedStore.Enqueue | src/main.py:132-144 | it appends exactly one record after the existing ones under the IP, and no file becomes a one-record list; every other address keeps its list; a file that does not decode stays as it is |
| FailedStore.FirstIndex | src/main.py:170 | the position it gives holds the value, and no earlier position does |
| FailedStore.RemoveFirst | src/main.py:170 | `list.remove` fails exactly when the value is absent; otherwise it takes out the element at the first position holding the value, which is one copy of it |
| FailedStore.RemoveFirstIsFirst | src/main.py:170 | if position `i` holds the value and no earlier position does, `list.remove` leaves the list without exactly that element |
| FailedStore.RemoveEach | src/main.py:169-170 | removing a sub-multiset of the list never fails and leaves the multiset difference |
| FailedStore.SelectPartition | src/main.py:164-170 | the accepted and the failed records together are exactly the pending records, with multiplicity |
| FailedStore.FlagsAreVerdicts | src/main.py:165-167 | the success flags of the posts made in the retry loop are the verdicts on the answers |
| FailedStore.RetryPending | src/main.py:163-170 | each pending record is posted once, in stored order; what remains is the pending multiset minus the accepted records, which equals the failed records |
| FailedStore.StoreBack | src/main.py:172-175 | an emptied list deletes the key, and otherwise the list replaces it; other keys are untouched |
| FailedStore.Drain | src/main.py:146-180 | with no file, an undecodable file or no entry for the IP, nothing is posted and the snapshot is unchanged; otherwise every pending record is posted once in order, other addresses keep their lists, the remainder is the failed records as a multiset, and the key survives exactly when something failed |
| StoreProperties.DrainRemovesAccepted | src/main.py:164-170 | the remaining multiset equals the pending multiset minus the accepted records |
| StoreProperties.DrainLeaves | src/main.py:164-175 | the list left under the IP is the pending list with each accepted record removed by value, in turn |
| StoreProperties.DrainOtherAddress | src/main.py:160-178 | a sweep for one device never changes the queue of any other address |
| StoreProperties.DrainAllSucceed | src/main.py:169-173 | when every retry is accepted, the device's key disappears and the rest of the map is unchanged |
| StoreProperties.DrainNoneSucceed | src/main.py:164-178 | when no retry is accepted, the snapshot is exactly what it was |
| StoreProperties.RemoveSelectedDistinct | src/main.py:169-170 | with pairwise distinct elements, removing the selected ones by value leaves the unselected ones in their original order |
| StoreProperties.DrainDistinctKeepsOrder | src/main.py:164-175 | with pairwise distinct records, the list left behind is exactly the failed records in their original order |
| StoreProperties.DrainDuplicatesReorder | src/main.py:169-170 | with `[x, y, x]` where only the third retry is accepted, the failed records in order are `[x, y]` but the list left behind is `[y, x]` |
| StoreProperties.FailedEventDeliveredOnRetry | src/main.py:132-178 | a record queued on an empty queue is posted exactly once by the next sweep with an accepting API, and the map returns to what it was without that address |
| StoreProperties.FailedEventKeptOnFailedRetry | src/main.py:132-178 | a sweep whose retries all fail leaves the freshly queued record and everything else in place |
| Session.NewDevice | src/main.py:42-49 | a device starts with its configured id, IP, name and status text and holds no connection |
| Session.Connect | src/main.py:54-65 | success holds a connection, sets "Connected" and returns true; failure sets "Connection Failed", returns false and leaves the held connection as it was |
| Session.Disconnect | src/main.py:182-187 | with a connection held, the status becomes "Disconnected"; without one, nothing changes; the connection is never cleared |
| Session.DisconnectIdempotent | src/main.py:182-187 | calling `disconnect` twice is the same as calling it once |
| Session.Dispatch | src/main.py:83-97 | one post per attendance record of the batch; with the corrected encoding, the store becomes undecodable only if it already was |
| Session.DispatchSends | src/main.py:83-97 | every attendance record of a batch is posted exactly once in batch order; `None` and unknown entries are never posted |
| Session.DispatchQueues | src/main.py:84-95 | with the corrected encoding, after a batch the store has exactly the undelivered attendance records appended under the device's IP, in batch order |
| Session.DispatchIndex | src/main.py:86-91 | each index key holds the last record of the batch handled in that second; keys no punch falls on keep their earlier value |
| Session.SameSecondOverwrites | src/main.py:87-91 | of two punches handled in the same second, the index keeps the later one |
| Session.Iterate | src/main.py:69-105 | `connect` is called exactly when no connection is held; a failed connect pauses 10 seconds with nothing captured; with a connection held, the device is unchanged; once connected, no stream pauses 1 second and changes nothing, a stream is handled as `Dispatch` of its batch (same posts, store and index), then pauses 10 seconds after a fault, 1 second after a batch that yielded something, and 2 seconds after one that did not |
| Session.NoReconnectOnceHeld | src/main.py:71-105 | once a connection has been held, no later pass calls `connect` or changes the status, even after a capture fault |
| Session.NoReconnectAfterDisconnect | src/main.py:182-187 | after `disconnect`, the loop keeps the status "Disconnected" and never reconnects |
| Session.RetriesConnectUntilOpened | src/main.py:71-73 | while connects keep failing, every pass calls `connect` once, nothing is posted or queued, and the status is "Connection Failed" |
| Supervisor.Sweep | src/main.py:311-315 | a pass over the devices keeps a decoded file decoded, and leaves an absent or undecodable file exactly as it is |
| Supervisor.SweepIsolation | src/main.py:311-315 | the queue of an address that no configured device has survives the hourly sweep untouched |
| Supervisor.SweepUnreadable | src/main.py:149-158 | with no file or an undecodable file, the sweep posts nothing and leaves the file as it is |
| SharedFile.Interleaved | src/main.py:132-142 | two devices store under their own locks from the same read; the file ends with the second writer's record appended to what it read |
| SharedFile.PerDeviceLocksLoseRecord | src/main.py:132-142 | in that interleaving, the first writer's record is lost: its address's queue is what it was before |
| SharedFile.Serialised | src/main.py:132-142 | with one lock for the file, the two stores run one after the other; the file stays decodable exactly when it was |
| SharedFile.SharedLockKeepsBoth | src/main.py:132-142 | with one lock for the file, each device's record is appended after its own earlier records |
| JsonPersistence.Write | src/main.py:141-142 | a rewrite stores exactly the given map when every value encodes, and otherwise leaves a file that does not decode |
| JsonPersistence.EnqueueWith | src/main.py:132-144 | a file that does not decode stays so; any other result is a rewrite holding exactly what `FailedStore.Enqueue` gives, or a file that no longer decodes |
| JsonPersistence.EnqueueAsWrittenCorrupts | src/main.py:140-144 | as written, the first stored failure leaves the file undecodable, the sweep then posts nothing, and later failures are lost too |
| JsonPersistence.TextTimestampEncodes | src/main.py:140-142 | with the timestamp stored as text, every record can be dumped |
| JsonPersistence.FixedEncodingPersists | src/main.py:140-166 | with the corrected encoding, storing behaves exactly as `FailedStore.Enqueue`, and a stored event reads back as itself when it is retried |

## Left out

- Threads and locks: the model treats each update of the failed-log file as one atomic step. The source's locks do not make it so across devices, since each device has its own lock but all share one file. `SharedFile` shows the lost update this allows between two stores. A store racing a sweep is not modelled.
- `time.sleep` and `datetime.now()`: a sleep is the number of seconds a pass pauses, and the handling time is a parameter of each punch.
- The pyzk driver (`ZK`, `live_capture`) is a foreign library. It is replaced by a connect outcome and a finite batch of entries.
- `requests.post` and its timeout: an oracle of answers. Only `RequestException` is modelled as a failed post. Other exceptions raised inside `send_log_to_api` are left out.
- `Delivery.Send`: its outcome depends only on the status code; the response body and the log messages are left out.
- The JSON codec, outside `JsonPersistence`: the file is the `Snapshot` abstraction. A file that decodes to the wrong shape (say, a list) is not distinguished from one that does not decode.
- `Delivery.Attendance`: it keeps only the fields the logger reads (`user_id`, `timestamp`, `status`). The pyzk object's other fields are not modelled.
- Record equality: `list.remove` (src/main.py:170) compares whole decoded records, including any pyzk fields such as `uid` and `punch`, while `RemoveFirst` compares only the log time and the three modelled fields. The corrected encoding stores exactly those three fields with the log time, so under it the two equalities coincide. As written, two stored records that differ only in a dropped field would be told apart by the source and not by `StoreProperties.DrainLeaves` or `StoreProperties.DrainDuplicatesReorder`.
- Exceptions raised by `conn.disconnect()` are not modelled.
- The startup connect of every device, signal handling and `graceful_shutdown`, `load_devices`/`save_devices`, `get_base_path`, logging setup, and `install_autostart`/`uninstall_autostart`: configuration and OS side effects.
- Timestamp.Format: renders the year with four zero-padded digits. Some platforms' `strftime("%Y")` leaves years below 1000 unpadded.
- Microseconds of `datetime` values are not modelled. Both the key and the payload truncate to the second.
- Session.RunLoop: a run is a finite sequence of passes, whereas the source loops forever.
- Supervisor.Sweep: one call is one hourly pass. Each device's retries take the next answers of one shared oracle.

## Findings

| source | as written | input that shows it | evidently intended | confidence | as-written member | corrected member |
|---|---|---|---|---|---|---|
| src/main.py:140-142 | the queued record is `log.__dict__`, whose `timestamp` is a `datetime`; `json.dump` raises on it only after `open(..., 'w')` has truncated the file | any failed post, e.g. the first punch while the API is down | the failed punch is kept in the file and retried later, with its timestamp stored as text and read back as a date-time by the retry | not executed | JsonPersistence.EnqueueAsWrittenCorrupts | JsonPersistence.FixedEncodingPersists |
| src/main.py:135-142 | the lock taken around the read-modify-write of the shared file is the device's own (`self.lock`, line 52), while every device uses the same file (line 50) | two devices whose posts fail at the same time: both read the file, B writes its record, then A rewrites the file from its earlier read; the loss shows only once row 1's encoding is fixed, since as written every store already leaves the file undecodable | a record stored by one device survives another device's store | not executed | SharedFile.PerDeviceLocksLoseRecord | SharedFile.SharedLockKeepsBoth |

As written, the truncated file no longer decodes. So every later `store_failed_log`
fails at the load, and every sweep skips the file. The corrected encoding stores the
timestamp in the payload's `%Y-%m-%d %H:%M:%S` form. It parses the timestamp back when
the retry rebuilds the event. Storing only the text would not be enough, because
`Attendance(**log["log"])` would then carry a string, which `send_log_to_api`'s
`strftime` call rejects. The rest of the model (`FailedStore`, `StoreProperties`,
`Supervisor`, `Session` and `SharedFile`) uses the corrected encoding. Outside
`SharedFile.Interleaved`, it also treats each store as one atomic step, which is what
the corrected lock gives.
