/**
  One device's session (`ZKTecoDevice`): its connection status, the per-batch
  body of the live-capture loop, and one full iteration of that loop.

  The device driver is reduced to a connect outcome and a finite batch of raw
  entries; the HTTP call to a response oracle; the clock to the capture time
  carried on each attendance entry; `time.sleep` to the number of seconds an
  iteration pauses before the next one.
 */
module Session {
  import opened Common
  import opened Timestamp
  import opened Delivery
  import opened FailedStore

  /** The device's `status` field: the configured text until the first connect, then one of three. */
  datatype Status = Configured(text: string) | Connected | ConnectionFailed | Disconnected

  /** The text the source stores in `status`. */
  function StatusText(s: Status): string {
    match s
    case Configured(text) => text
    case Connected => "Connected"
    case ConnectionFailed => "Connection Failed"
    case Disconnected => "Disconnected"
  }

  /**
    A configured device. `connHeld` is whether `self.conn` is truthy: it is set
    by the first successful connect and nothing ever clears it.
   */
  datatype Device = Device(id: string, ip: string, name: string, status: Status, connHeld: bool)

  /** A device as built from its configuration record: no connection yet. */
  function NewDevice(id: string, ip: string, name: string, status: string): (d: Device)
    ensures !d.connHeld && StatusText(d.status) == status
    ensures d.id == id && d.ip == ip && d.name == name
  {
    Device(id, ip, name, Configured(status), false)
  }

  /** Same configured identity. */
  predicate SameIdentity(a: Device, b: Device) {
    a.id == b.id && a.ip == b.ip && a.name == b.name
  }

  /** What the driver's `connect()` did: returned a connection, or raised. */
  datatype ConnectOutcome = Opened | Refused

  datatype Connection = Connection(device: Device, connected: bool)

  /**
    `connect`: on success the connection is held and the status is
    "Connected"; on failure the status is "Connection Failed" and `conn` keeps
    whatever it held before.
   */
  function Connect(d: Device, outcome: ConnectOutcome): (r: Connection)
    ensures r.connected <==> outcome.Opened?
    ensures r.connected ==> r.device.status == Connected && r.device.connHeld
    ensures !r.connected ==> r.device.status == ConnectionFailed && r.device.connHeld == d.connHeld
    ensures StatusText(r.device.status) == if r.connected then "Connected" else "Connection Failed"
    ensures SameIdentity(r.device, d)
  {
    match outcome
    case Opened => Connection(d.(status := Connected, connHeld := true), true)
    case Refused => Connection(d.(status := ConnectionFailed), false)
  }

  /**
    `disconnect`: with a connection held, close it and set "Disconnected";
    otherwise do nothing. The source does not clear `conn` afterwards.
   */
  function Disconnect(d: Device): (r: Device)
    ensures d.connHeld ==> r.status == Disconnected && StatusText(r.status) == "Disconnected"
    ensures !d.connHeld ==> r == d
    ensures r.connHeld == d.connHeld
    ensures SameIdentity(r, d)
  {
    if d.connHeld then d.(status := Disconnected) else d
  }

  /** Calling `disconnect` again changes nothing. */
  lemma DisconnectIdempotent(d: Device)
    ensures Disconnect(Disconnect(d)) == Disconnect(d)
  {
  }

  /** An attendance event together with the wall-clock time at which the loop handled it. */
  datatype Event = Event(log: Attendance, seenAt: Instant)

  /** One item yielded by `live_capture`: nothing (`None`), an attendance record, or some other object. */
  datatype RawEntry = Blank | Punch(event: Event) | Unknown(description: string)

  /** The `device_logs` key of an event: its handling time to the second. */
  function KeyOf(e: Event): string {
    Format(e.seenAt)
  }

  /** The record queued for an event whose delivery failed. */
  function RecordOf(e: Event): Record {
    Record(KeyOf(e), e.log)
  }

  /** The attendance events of a batch, in batch order. */
  function Punches(batch: seq<RawEntry>): (ps: seq<Event>)
    ensures |ps| <= |batch|
  {
    if |batch| == 0 then []
    else (if batch[0].Punch? then [batch[0].event] else []) + Punches(batch[1..])
  }

  /** What handling a batch produced: the new index and store, and the payloads posted. */
  datatype Dispatched = Dispatched(index: map<string, Attendance>, store: Snapshot, sent: seq<Payload>)

  /**
    The body of the capture loop for one batch: skip `None`, log and skip
    unknown objects; for an attendance record, file it in the index under its
    handling second, post it, and queue it under the device's IP if the post
    failed. The `i`-th attendance record of the batch meets response `i`.
   */
  function Dispatch(batch: seq<RawEntry>, deviceId: string, ip: string,
                    index: map<string, Attendance>, store: Snapshot, responses: seq<Response>): (r: Dispatched)
    ensures |r.sent| == |Punches(batch)|
    ensures r.store.Corrupt? <==> store.Corrupt?
  {
    if |batch| == 0 then Dispatched(index, store, [])
    else
      match batch[0]
      case Blank => Dispatch(batch[1..], deviceId, ip, index, store, responses)
      case Unknown(_) => Dispatch(batch[1..], deviceId, ip, index, store, responses)
      case Punch(e) =>
        var attempt := Send(deviceId, e.log, ResponseAt(responses, 0));
        var store' := if attempt.delivered then store else Enqueue(store, ip, RecordOf(e));
        var rest := Dispatch(batch[1..], deviceId, ip, index[KeyOf(e) := e.log], store', Drop(responses, 1));
        Dispatched(rest.index, rest.store, [attempt.payload] + rest.sent)
  }

  /** The records of the events whose delivery failed, in order; event `i` meets response `i`. */
  function Undelivered(es: seq<Event>, responses: seq<Response>): (rs: seq<Record>)
    ensures |rs| <= |es|
  {
    if |es| == 0 then []
    else
      (if Accepted(ResponseAt(responses, 0)) then [] else [RecordOf(es[0])])
      + Undelivered(es[1..], Drop(responses, 1))
  }

  /** The store after queuing `recs` under `ip` one after the other. */
  function AppendAll(snap: Snapshot, ip: string, recs: seq<Record>): Snapshot {
    if |recs| == 0 || snap.Corrupt? then snap
    else Ok(Entries(snap)[ip := Pending(snap, ip) + recs])
  }

  /** The log of the last event in `es` whose key is `k`, if any. */
  function LastLogAt(es: seq<Event>, k: string): Option<Attendance> {
    if |es| == 0 then None
    else
      match LastLogAt(es[1..], k)
      case Some(log) => Some(log)
      case None => if KeyOf(es[0]) == k then Some(es[0].log) else None
  }

  lemma DispatchSkip(batch: seq<RawEntry>, deviceId: string, ip: string,
                     index: map<string, Attendance>, store: Snapshot, responses: seq<Response>)
    requires |batch| > 0 && !batch[0].Punch?
    ensures Dispatch(batch, deviceId, ip, index, store, responses) == Dispatch(batch[1..], deviceId, ip, index, store, responses)
    ensures Punches(batch) == Punches(batch[1..])
  {
  }

  /** The store after handling one attendance event whose post met `response`. */
  function StoreAfter(store: Snapshot, ip: string, e: Event, response: Response): Snapshot {
    if Accepted(response) then store else Enqueue(store, ip, RecordOf(e))
  }

  lemma DispatchPunch(batch: seq<RawEntry>, deviceId: string, ip: string,
                      index: map<string, Attendance>, store: Snapshot, responses: seq<Response>)
    requires |batch| > 0 && batch[0].Punch?
    ensures var e := batch[0].event;
      var rest := Dispatch(batch[1..], deviceId, ip, index[KeyOf(e) := e.log],
                           StoreAfter(store, ip, e, ResponseAt(responses, 0)), Drop(responses, 1));
      Dispatch(batch, deviceId, ip, index, store, responses)
        == Dispatched(rest.index, rest.store, [BuildPayload(deviceId, e.log)] + rest.sent)
    ensures Punches(batch) == [batch[0].event] + Punches(batch[1..])
  {
  }

  /** Every attendance record of the batch is posted exactly once, in batch order, and nothing else is. */
  lemma {:induction false} DispatchSends(batch: seq<RawEntry>, deviceId: string, ip: string,
                                         index: map<string, Attendance>, store: Snapshot, responses: seq<Response>)
    ensures var sent := Dispatch(batch, deviceId, ip, index, store, responses).sent;
      && |sent| == |Punches(batch)|
      && forall i :: 0 <= i < |sent| ==> sent[i] == BuildPayload(deviceId, Punches(batch)[i].log)
  {
    if |batch| > 0 {
      if !batch[0].Punch? {
        DispatchSkip(batch, deviceId, ip, index, store, responses);
        DispatchSends(batch[1..], deviceId, ip, index, store, responses);
      } else {
        var e := batch[0].event;
        DispatchPunch(batch, deviceId, ip, index, store, responses);
        var rest := Dispatch(batch[1..], deviceId, ip, index[KeyOf(e) := e.log],
                             StoreAfter(store, ip, e, ResponseAt(responses, 0)), Drop(responses, 1));
        DispatchSends(batch[1..], deviceId, ip, index[KeyOf(e) := e.log],
                      StoreAfter(store, ip, e, ResponseAt(responses, 0)), Drop(responses, 1));
        var sent, ps := [BuildPayload(deviceId, e.log)] + rest.sent, [e] + Punches(batch[1..]);
        assert forall i :: 0 < i < |sent| ==> sent[i] == rest.sent[i - 1] && ps[i] == Punches(batch[1..])[i - 1];
      }
    }
  }

  lemma EnqueueAsUpdate(snap: Snapshot, ip: string, rec: Record)
    requires !snap.Corrupt?
    ensures Enqueue(snap, ip, rec) == Ok(Entries(snap)[ip := Pending(snap, ip) + [rec]])
  {
    assert [] + [rec] == [rec];
  }

  lemma AppendAfterEnqueue(snap: Snapshot, ip: string, rec: Record, recs: seq<Record>)
    ensures AppendAll(Enqueue(snap, ip, rec), ip, recs) == AppendAll(snap, ip, [rec] + recs)
  {
    if !snap.Corrupt? {
      EnqueueAsUpdate(snap, ip, rec);
      var m, p := Entries(snap), Pending(snap, ip);
      var q := Enqueue(snap, ip, rec);
      assert Entries(q) == m[ip := p + [rec]] && Pending(q, ip) == p + [rec];
      if |recs| > 0 {
        assert p + [rec] + recs == p + ([rec] + recs);
        assert m[ip := p + [rec]][ip := p + [rec] + recs] == m[ip := p + ([rec] + recs)];
      } else {
        assert [rec] + recs == [rec];
      }
    }
  }

  /**
    The store after a batch is the store before it with exactly the records of
    the undelivered attendance events appended under the device's IP, in batch
    order; unknown entries and `None` are never queued.
   */
  lemma {:induction false} DispatchQueues(batch: seq<RawEntry>, deviceId: string, ip: string,
                                          index: map<string, Attendance>, store: Snapshot, responses: seq<Response>)
    ensures Dispatch(batch, deviceId, ip, index, store, responses).store
         == AppendAll(store, ip, Undelivered(Punches(batch), responses))
  {
    if |batch| > 0 {
      if !batch[0].Punch? {
        DispatchSkip(batch, deviceId, ip, index, store, responses);
        DispatchQueues(batch[1..], deviceId, ip, index, store, responses);
      } else {
        var e := batch[0].event;
        DispatchPunch(batch, deviceId, ip, index, store, responses);
        DispatchQueues(batch[1..], deviceId, ip, index[KeyOf(e) := e.log],
                       StoreAfter(store, ip, e, ResponseAt(responses, 0)), Drop(responses, 1));
        var ps := Punches(batch);
        assert ps[0] == e && ps[1..] == Punches(batch[1..]);
        var later := Undelivered(Punches(batch[1..]), Drop(responses, 1));
        if Accepted(ResponseAt(responses, 0)) {
          assert Undelivered(ps, responses) == [] + later == later;
        } else {
          assert Undelivered(ps, responses) == [RecordOf(e)] + later;
          AppendAfterEnqueue(store, ip, RecordOf(e), later);
        }
      }
    }
  }

  /**
    For every key, the index after a batch holds the last attendance record of
    the batch handled in that second; keys no event of the batch falls on keep
    their earlier entry, or stay absent.
   */
  lemma {:induction false} DispatchIndex(batch: seq<RawEntry>, deviceId: string, ip: string,
                                         index: map<string, Attendance>, store: Snapshot, responses: seq<Response>, k: string)
    ensures var idx := Dispatch(batch, deviceId, ip, index, store, responses).index;
      match LastLogAt(Punches(batch), k)
      case Some(log) => k in idx && idx[k] == log
      case None => (k in idx <==> k in index) && (k in index ==> idx[k] == index[k])
  {
    if |batch| > 0 {
      if !batch[0].Punch? {
        DispatchSkip(batch, deviceId, ip, index, store, responses);
        DispatchIndex(batch[1..], deviceId, ip, index, store, responses, k);
      } else {
        var e := batch[0].event;
        DispatchPunch(batch, deviceId, ip, index, store, responses);
        DispatchIndex(batch[1..], deviceId, ip, index[KeyOf(e) := e.log],
                      StoreAfter(store, ip, e, ResponseAt(responses, 0)), Drop(responses, 1), k);
        var ps := Punches(batch);
        assert ps[0] == e && ps[1..] == Punches(batch[1..]);
      }
    }
  }

  /** Two attendance events handled in the same second: the index keeps the later one. */
  lemma SameSecondOverwrites(e1: Event, e2: Event, deviceId: string, ip: string,
                             index: map<string, Attendance>, store: Snapshot, responses: seq<Response>)
    requires KeyOf(e1) == KeyOf(e2)
    ensures var idx := Dispatch([Punch(e1), Punch(e2)], deviceId, ip, index, store, responses).index;
      KeyOf(e1) in idx && idx[KeyOf(e1)] == e2.log
  {
    var batch := [Punch(e1), Punch(e2)];
    assert batch[1..] == [Punch(e2)] && batch[1..][1..] == [];
    assert Punches([Punch(e2)]) == [e2] by {
      assert [Punch(e2)][1..] == [];
    }
    assert Punches(batch) == [e1] + Punches([Punch(e2)]);
    assert LastLogAt([e1, e2], KeyOf(e1)) == Some(e2.log) by {
      assert [e1, e2][1..] == [e2] && [e2][1..] == [];
      assert LastLogAt([e2], KeyOf(e1)) == Some(e2.log);
    }
    DispatchIndex(batch, deviceId, ip, index, store, responses, KeyOf(e1));
  }

  /** Seconds slept before the next iteration after a failed connect or a fault. */
  const ErrorPause: nat := 10

  /** Seconds slept when the driver returned no stream, or after a batch that yielded something. */
  const IdlePause: nat := 1

  /** The worker state one capture loop carries from iteration to iteration. */
  datatype Worker = Worker(device: Device, index: map<string, Attendance>, store: Snapshot)

  /**
    What `live_capture` produced in one iteration: no stream at all, or the
    entries it yielded before it stopped, and whether it stopped by raising.
   */
  datatype Capture = NoStream | Stream(batch: seq<RawEntry>, faulted: bool)

  /** The outside world during one iteration. */
  datatype Tick = Tick(connect: ConnectOutcome, capture: Capture, responses: seq<Response>)

  /** What one iteration did: the new state, whether it called `connect`, what it posted, how long it then slept. */
  datatype Iteration = Iteration(worker: Worker, connectAttempted: bool, sent: seq<Payload>, pause: nat)

  /** Whether a batch yielded anything other than `None`. */
  predicate Captured(batch: seq<RawEntry>) {
    exists i :: 0 <= i < |batch| && !batch[i].Blank?
  }

  /** The capture half of an iteration, with a connection already held. */
  function CaptureStep(w: Worker, capture: Capture, responses: seq<Response>, attempted: bool): Iteration {
    match capture
    case NoStream => Iteration(w, attempted, [], IdlePause)
    case Stream(batch, faulted) =>
      var d := Dispatch(batch, w.device.id, w.device.ip, w.index, w.store, responses);
      var pause := if faulted then ErrorPause else if Captured(batch) then IdlePause else IdlePause + IdlePause;
      Iteration(Worker(w.device, d.index, d.store), attempted, d.sent, pause)
  }

  /**
    One pass of `get_live_logs`: connect first only when no connection is
    held; a failed connect sleeps and ends the pass; otherwise capture and
    handle a batch. A fault while capturing is caught, slept on, and changes
    neither the connection nor the status.
   */
  function Iterate(w: Worker, t: Tick): (r: Iteration)
    ensures r.connectAttempted <==> !w.device.connHeld
    ensures SameIdentity(r.worker.device, w.device)
    ensures r.worker.device.connHeld <==> w.device.connHeld || t.connect.Opened?
    ensures w.device.connHeld ==> r.worker.device == w.device
    ensures !w.device.connHeld ==> r.worker.device.status == (if t.connect.Opened? then Connected else ConnectionFailed)
    ensures !w.device.connHeld && t.connect.Refused? ==>
      r.pause == ErrorPause && r.sent == [] && r.worker.index == w.index && r.worker.store == w.store
    ensures t.capture.Stream? && t.capture.faulted && (w.device.connHeld || t.connect.Opened?) ==> r.pause == ErrorPause
    ensures (w.device.connHeld || t.connect.Opened?) && t.capture.NoStream? ==>
      r.pause == IdlePause && r.sent == [] && r.worker.index == w.index && r.worker.store == w.store
    ensures (w.device.connHeld || t.connect.Opened?) && t.capture.Stream? ==>
      var d := Dispatch(t.capture.batch, w.device.id, w.device.ip, w.index, w.store, t.responses);
      r.sent == d.sent && r.worker.index == d.index && r.worker.store == d.store
    ensures (w.device.connHeld || t.connect.Opened?) && t.capture.Stream? && !t.capture.faulted ==>
      r.pause == (if Captured(t.capture.batch) then IdlePause else IdlePause + IdlePause)
  {
    if !w.device.connHeld then
      var c := Connect(w.device, t.connect);
      if !c.connected then Iteration(w.(device := c.device), true, [], ErrorPause)
      else CaptureStep(w.(device := c.device), t.capture, t.responses, true)
    else CaptureStep(w, t.capture, t.responses, false)
  }

  /** What a run of iterations did: the final state, how many times it called `connect`, everything posted. */
  datatype Run = Run(worker: Worker, connectAttempts: nat, sent: seq<Payload>)

  function RunLoop(w: Worker, ticks: seq<Tick>): Run
    decreases |ticks|
  {
    if |ticks| == 0 then Run(w, 0, [])
    else
      var it := Iterate(w, ticks[0]);
      var rest := RunLoop(it.worker, ticks[1..]);
      Run(rest.worker, (if it.connectAttempted then 1 else 0) + rest.connectAttempts, it.sent + rest.sent)
  }

  /**
    Once a connection has been held, the loop never calls `connect` again and
    never changes the device's status, whatever the driver does: a capture
    fault is not followed by a reconnect.
   */
  lemma {:induction false} NoReconnectOnceHeld(w: Worker, ticks: seq<Tick>)
    requires w.device.connHeld
    ensures RunLoop(w, ticks).connectAttempts == 0
    ensures RunLoop(w, ticks).worker.device == w.device
    decreases |ticks|
  {
    if |ticks| > 0 {
      NoReconnectOnceHeld(Iterate(w, ticks[0]).worker, ticks[1..]);
    }
  }

  /** The same after `disconnect`: the status stays "Disconnected" and the loop goes on without reconnecting. */
  lemma NoReconnectAfterDisconnect(w: Worker, ticks: seq<Tick>)
    requires w.device.connHeld
    ensures var r := RunLoop(w.(device := Disconnect(w.device)), ticks);
      r.connectAttempts == 0 && r.worker.device.status == Disconnected
  {
    NoReconnectOnceHeld(w.(device := Disconnect(w.device)), ticks);
  }

  /** Until a connect succeeds, every iteration calls `connect` once and nothing is captured. */
  lemma {:induction false} RetriesConnectUntilOpened(w: Worker, ticks: seq<Tick>)
    requires !w.device.connHeld
    requires forall i :: 0 <= i < |ticks| ==> ticks[i].connect.Refused?
    ensures RunLoop(w, ticks).connectAttempts == |ticks|
    ensures RunLoop(w, ticks).sent == []
    ensures RunLoop(w, ticks).worker.store == w.store
    ensures |ticks| > 0 ==> RunLoop(w, ticks).worker.device.status == ConnectionFailed
    decreases |ticks|
  {
    if |ticks| > 0 {
      var it := Iterate(w, ticks[0]);
      RetriesConnectUntilOpened(it.worker, ticks[1..]);
    }
  }
}
