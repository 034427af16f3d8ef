/**
  The failed-delivery store (`store_failed_log`, `process_failed_logs`).

  The JSON file is abstracted as a `Snapshot`: no file yet, a file that does
  not decode, or a map from a device's IP address to the records queued for
  it, in the order they were queued. Every operation is one atomic step,
  although the source's locks do not make it so across devices: each device
  has its own lock, but all of them share the one file (see `SharedFile`).
 */
module FailedStore {
  import opened Common
  import opened Timestamp
  import opened Delivery

  /** One queued entry: the capture-second key under which it was seen and the event. */
  datatype Record = Record(logTime: string, log: Attendance)

  datatype Snapshot = Missing | Corrupt | Ok(logs: map<string, seq<Record>>)

  /** The decoded contents of a snapshot; an absent file reads as the empty map. */
  function Entries(snap: Snapshot): map<string, seq<Record>> {
    if snap.Ok? then snap.logs else map[]
  }

  /** The records queued under `ip`, in queue order. */
  function Pending(snap: Snapshot, ip: string): seq<Record> {
    if snap.Ok? && ip in snap.logs then snap.logs[ip] else []
  }

  /** Every key other than `ip` is present in both maps or in neither, with the same list. */
  predicate OthersUntouched(m: map<string, seq<Record>>, m': map<string, seq<Record>>, ip: string) {
    && m.Keys - {ip} == m'.Keys - {ip}
    && (forall k :: k in m && k != ip ==> k in m' && m'[k] == m[k])
  }

  /**
    `store_failed_log`: append one record under the device's IP and rewrite the
    file. A file that does not decode makes the load raise before the file is
    reopened for writing, so nothing changes.
   */
  function Enqueue(snap: Snapshot, ip: string, rec: Record): (r: Snapshot)
    ensures snap.Corrupt? ==> r == Corrupt
    ensures !snap.Corrupt? ==> r.Ok? && ip in r.logs
    ensures !snap.Corrupt? ==> |Pending(r, ip)| == |Pending(snap, ip)| + 1
    ensures !snap.Corrupt? ==> Pending(r, ip)[..|Pending(snap, ip)|] == Pending(snap, ip)
    ensures !snap.Corrupt? ==> Pending(r, ip)[|Pending(snap, ip)|] == rec
    ensures !snap.Corrupt? ==> OthersUntouched(Entries(snap), r.logs, ip)
  {
    match snap
    case Corrupt => Corrupt
    case Missing => Ok(map[ip := [rec]])
    case Ok(m) => Ok(m[ip := (if ip in m then m[ip] else []) + [rec]])
  }

  /** The elements of `s` whose flag in `ok` equals `want`, in their original order. */
  function Select<T>(s: seq<T>, ok: seq<bool>, want: bool): (r: seq<T>)
    requires |ok| == |s|
    ensures |r| <= |s|
    ensures multiset(r) <= multiset(s)
  {
    if |s| == 0 then []
    else
      assert s == [s[0]] + s[1..];
      (if ok[0] == want then [s[0]] else []) + Select(s[1..], ok[1..], want)
  }

  /** The position of the first element of `s` equal to `x`. */
  function FirstIndex<T(==)>(s: seq<T>, x: T): (i: nat)
    requires x in s
    ensures i < |s| && s[i] == x && x !in s[..i]
  {
    if s[0] == x then 0
    else
      var tail := s[1..];
      assert x in tail by {
        var k :| 0 <= k < |s| && s[k] == x;
        assert tail[k - 1] == x;
      }
      var k := FirstIndex(tail, x);
      assert s[..k + 1] == [s[0]] + tail[..k];
      k + 1
  }

  /** Python's `list.remove`: drop the first element equal to `x`; `None` where it would raise. */
  function RemoveFirst<T(==)>(s: seq<T>, x: T): (r: Option<seq<T>>)
    ensures r.None? <==> x !in s
    ensures r.Some? ==> multiset(r.value) == multiset(s) - multiset{x}
    ensures x in s ==> r == Some(s[..FirstIndex(s, x)] + s[FirstIndex(s, x) + 1..])
  {
    if |s| == 0 then None
    else if s[0] == x then
      assert s == [s[0]] + s[1..];
      assert s[..0] + s[1..] == s[1..];
      Some(s[1..])
    else
      var tail := s[1..];
      match RemoveFirst(tail, x)
      case None => None
      case Some(t) =>
        assert s == [s[0]] + tail;
        FirstIndexPastHead(s, x);
        DropPastHead(s, FirstIndex(tail, x));
        Some([s[0]] + t)
  }

  /** `list.remove` takes out the first equal element: the one at `i` when no equal element precedes it. */
  lemma RemoveFirstIsFirst<T>(s: seq<T>, x: T, i: int)
    requires 0 <= i < |s| && s[i] == x && x !in s[..i]
    ensures RemoveFirst(s, x) == Some(s[..i] + s[i + 1..])
  {
    var k := FirstIndex(s, x);
    assert forall j :: 0 <= j < i ==> s[..i][j] == s[j];
    assert forall j :: 0 <= j < k ==> s[..k][j] == s[j];
    assert k == i;
  }

  /** Past a head that differs from `x`, the first `x` is one place later than in the tail. */
  lemma FirstIndexPastHead<T>(s: seq<T>, x: T)
    requires |s| > 0 && s[0] != x && x in s[1..]
    ensures x in s && FirstIndex(s, x) == FirstIndex(s[1..], x) + 1
  {
    var k := FirstIndex(s[1..], x);
    assert s[k + 1] == s[1..][k];
  }

  /** Dropping position `k + 1` of `s` is keeping the head and dropping position `k` of the tail. */
  lemma DropPastHead<T>(s: seq<T>, k: nat)
    requires k + 1 < |s|
    ensures s[..k + 1] + s[k + 2..] == [s[0]] + (s[1..][..k] + s[1..][k + 1..])
  {
    assert s[..k + 1] == [s[0]] + s[1..][..k];
    assert s[k + 2..] == s[1..][k + 1..];
  }

  /** `for log in xs: s.remove(log)`, stopping with `None` at the first removal that would raise. */
  function RemoveEach<T(==)>(s: seq<T>, xs: seq<T>): (r: Option<seq<T>>)
    ensures multiset(xs) <= multiset(s) ==> r.Some?
    ensures r.Some? ==> multiset(r.value) == multiset(s) - multiset(xs)
    decreases |xs|
  {
    if |xs| == 0 then Some(s)
    else
      assert xs == [xs[0]] + xs[1..];
      assert xs[0] in multiset(xs);
      match RemoveFirst(s, xs[0])
      case None => None
      case Some(t) => RemoveEach(t, xs[1..])
  }

  /** Whether the API accepted each pending record's retry; call `i` meets response `i`. */
  function Verdicts(pending: seq<Record>, responses: seq<Response>): (v: seq<bool>)
    ensures |v| == |pending|
    ensures forall i :: 0 <= i < |pending| ==> v[i] == Accepted(ResponseAt(responses, i))
    decreases |pending|
  {
    if |pending| == 0 then []
    else
      var later := Verdicts(pending[1..], Drop(responses, 1));
      var v := [Accepted(ResponseAt(responses, 0))] + later;
      assert forall i :: 0 < i < |v| ==> v[i] == later[i - 1] && ResponseAt(Drop(responses, 1), i - 1) == ResponseAt(responses, i);
      v
  }

  /** The pending records whose retry was accepted, in queue order. */
  function Succeeded(pending: seq<Record>, responses: seq<Response>): seq<Record> {
    Select(pending, Verdicts(pending, responses), true)
  }

  /** The pending records whose retry failed, in queue order. */
  function Failed(pending: seq<Record>, responses: seq<Response>): seq<Record> {
    Select(pending, Verdicts(pending, responses), false)
  }

  lemma {:induction false} SelectPartition<T>(s: seq<T>, ok: seq<bool>)
    requires |ok| == |s|
    ensures multiset(Select(s, ok, true)) + multiset(Select(s, ok, false)) == multiset(s)
  {
    if |s| > 0 {
      var t, v := s[1..], ok[1..];
      var heads := if ok[0] then multiset{s[0]} else multiset{};
      var rest := if ok[0] then multiset{} else multiset{s[0]};
      calc {
        multiset(Select(s, ok, true)) + multiset(Select(s, ok, false));
        { SelectStep(s, ok, true); SelectStep(s, ok, false); }
        heads + multiset(Select(t, v, true)) + (rest + multiset(Select(t, v, false)));
        { SelectPartition(t, v); }
        multiset{s[0]} + multiset(t);
        { assert s == [s[0]] + t; }
        multiset(s);
      }
    }
  }

  /** One unfolding of `Select`, counted as a multiset. */
  lemma SelectStep<T>(s: seq<T>, ok: seq<bool>, want: bool)
    requires |ok| == |s| > 0
    ensures multiset(Select(s, ok, want))
         == (if ok[0] == want then multiset{s[0]} else multiset{}) + multiset(Select(s[1..], ok[1..], want))
  {
    var head := if ok[0] == want then [s[0]] else [];
    assert Select(s, ok, want) == head + Select(s[1..], ok[1..], want);
  }

  /** The outcome of retrying one device's pending list: what is left and what was posted. */
  datatype Retry = Retry(remaining: seq<Record>, sent: seq<Payload>)

  /**
    The retry loop of `process_failed_logs`: post every pending record once, in
    order, collect the accepted ones, then `remove` each of them from the list.
   */
  function RetryPending(pending: seq<Record>, deviceId: string, responses: seq<Response>): (r: Retry)
    ensures |r.sent| == |pending|
    ensures forall i :: 0 <= i < |pending| ==> r.sent[i] == BuildPayload(deviceId, pending[i].log)
    ensures multiset(r.remaining) == multiset(pending) - multiset(Succeeded(pending, responses))
    ensures multiset(r.remaining) == multiset(Failed(pending, responses))
  {
    var attempts := Attempts(deviceId, pending, responses);
    var delivered := Flags(attempts);
    FlagsAreVerdicts(deviceId, pending, responses);
    var successes := Select(pending, delivered, true);
    SelectPartition(pending, delivered);
    // every accepted record is still in the list, so no `remove` raises
    Retry(RemoveEach(pending, successes).value, Payloads(attempts))
  }

  /** One `send_log_to_api` call per pending record, in order; call `i` meets response `i`. */
  function Attempts(deviceId: string, pending: seq<Record>, responses: seq<Response>): (a: seq<Attempt>)
    ensures |a| == |pending|
    ensures forall i :: 0 <= i < |pending| ==> a[i] == Send(deviceId, pending[i].log, ResponseAt(responses, i))
    decreases |pending|
  {
    if |pending| == 0 then []
    else
      var later := Attempts(deviceId, pending[1..], Drop(responses, 1));
      AttemptsStep(deviceId, pending, responses, later);
      [Send(deviceId, pending[0].log, ResponseAt(responses, 0))] + later
  }

  /** The attempts for the records after the first, shifted one place, follow the first attempt. */
  lemma AttemptsStep(deviceId: string, pending: seq<Record>, responses: seq<Response>, later: seq<Attempt>)
    requires |pending| > 0 && |later| == |pending| - 1
    requires forall i :: 0 <= i < |later| ==> later[i] == Send(deviceId, pending[1..][i].log, ResponseAt(Drop(responses, 1), i))
    ensures forall i :: 0 <= i < |pending| ==>
      ([Send(deviceId, pending[0].log, ResponseAt(responses, 0))] + later)[i] == Send(deviceId, pending[i].log, ResponseAt(responses, i))
  {
    var a := [Send(deviceId, pending[0].log, ResponseAt(responses, 0))] + later;
    forall i | 0 < i < |pending|
      ensures a[i] == Send(deviceId, pending[i].log, ResponseAt(responses, i))
    {
      assert a[i] == later[i - 1];
      assert pending[1..][i - 1] == pending[i];
      assert ResponseAt(Drop(responses, 1), i - 1) == ResponseAt(responses, i);
    }
  }

  /** What each attempt posted, in order. */
  function Payloads(attempts: seq<Attempt>): (p: seq<Payload>)
    ensures |p| == |attempts|
    ensures forall i :: 0 <= i < |attempts| ==> p[i] == attempts[i].payload
  {
    if |attempts| == 0 then []
    else
      var later := Payloads(attempts[1..]);
      var p := [attempts[0].payload] + later;
      assert forall i :: 0 < i < |p| ==> p[i] == later[i - 1] && attempts[1..][i - 1] == attempts[i];
      p
  }

  /** Whether each attempt was delivered, in order. */
  function Flags(attempts: seq<Attempt>): (f: seq<bool>)
    ensures |f| == |attempts|
    ensures forall i :: 0 <= i < |attempts| ==> f[i] == attempts[i].delivered
  {
    if |attempts| == 0 then []
    else
      var later := Flags(attempts[1..]);
      var f := [attempts[0].delivered] + later;
      assert forall i :: 0 < i < |f| ==> f[i] == later[i - 1] && attempts[1..][i - 1] == attempts[i];
      f
  }

  /** The delivered flags of the attempts are the verdicts on the responses. */
  lemma FlagsAreVerdicts(deviceId: string, pending: seq<Record>, responses: seq<Response>)
    ensures Flags(Attempts(deviceId, pending, responses)) == Verdicts(pending, responses)
  {
    var f, v := Flags(Attempts(deviceId, pending, responses)), Verdicts(pending, responses);
    assert |f| == |v|;
    forall i | 0 <= i < |f| ensures f[i] == v[i] {
      assert f[i] == Send(deviceId, pending[i].log, ResponseAt(responses, i)).delivered;
    }
  }

  /** The tail of `process_failed_logs`: delete the key of an emptied list, otherwise store the list back. */
  function StoreBack(m: map<string, seq<Record>>, ip: string, rest: seq<Record>): (m': map<string, seq<Record>>)
    ensures OthersUntouched(m, m', ip)
    ensures ip in m' <==> |rest| > 0
    ensures ip in m' ==> m'[ip] == rest
  {
    if |rest| == 0 then m - {ip} else m[ip := rest]
  }

  /** What one retry sweep of a device produced: the new snapshot and the payloads posted. */
  datatype DrainResult = DrainResult(snapshot: Snapshot, sent: seq<Payload>)

  /**
    `process_failed_logs` for the device with id `deviceId` and address `ip`.
    Retries the records queued under `ip`, then drops the key if nothing is
    left or stores the remaining list back, and rewrites the file. No file, a
    file that does not decode, or no key for `ip`: nothing happens.
   */
  function Drain(snap: Snapshot, deviceId: string, ip: string, responses: seq<Response>): (r: DrainResult)
    ensures !(snap.Ok? && ip in snap.logs) ==> r.snapshot == snap && r.sent == []
    ensures |r.sent| == |Pending(snap, ip)|
    ensures forall i :: 0 <= i < |r.sent| ==> r.sent[i] == BuildPayload(deviceId, Pending(snap, ip)[i].log)
    ensures snap.Ok? && ip in snap.logs ==> r.snapshot.Ok? && OthersUntouched(snap.logs, r.snapshot.logs, ip)
    ensures snap.Ok? && ip in snap.logs ==>
      multiset(Pending(r.snapshot, ip)) == multiset(Failed(Pending(snap, ip), responses))
    ensures snap.Ok? && ip in snap.logs ==>
      (ip in r.snapshot.logs <==> |Failed(Pending(snap, ip), responses)| > 0)
  {
    match snap
    case Missing => DrainResult(snap, [])
    case Corrupt => DrainResult(snap, [])
    case Ok(m) =>
      if ip !in m then DrainResult(snap, [])
      else
        var retry := RetryPending(m[ip], deviceId, responses);
        assert |retry.remaining| == |multiset(retry.remaining)| == |Failed(m[ip], responses)|;
        DrainResult(Ok(StoreBack(m, ip, retry.remaining)), retry.sent)
  }
}
