/** Properties of the failed-delivery store that relate several calls or several outcomes. */
module StoreProperties {
  import opened Common
  import opened Delivery
  import opened FailedStore

  /** Selecting a verdict that no position carries yields nothing. */
  lemma {:induction false} SelectNone<T>(s: seq<T>, ok: seq<bool>, want: bool)
    requires |ok| == |s|
    requires forall i :: 0 <= i < |ok| ==> ok[i] != want
    ensures Select(s, ok, want) == []
  {
    if |s| > 0 {
      assert ok[0] != want;
      assert forall i :: 0 <= i < |ok| - 1 ==> ok[1..][i] == ok[i + 1];
      SelectNone(s[1..], ok[1..], want);
    }
  }

  lemma DrainFound(snap: Snapshot, deviceId: string, ip: string, responses: seq<Response>)
    requires snap.Ok? && ip in snap.logs
    ensures Drain(snap, deviceId, ip, responses).snapshot
         == Ok(StoreBack(snap.logs, ip, RetryPending(snap.logs[ip], deviceId, responses).remaining))
  {
  }

  lemma RetryRemaining(pending: seq<Record>, deviceId: string, responses: seq<Response>)
    ensures RetryPending(pending, deviceId, responses).remaining == RemoveEach(pending, Succeeded(pending, responses)).value
  {
    FlagsAreVerdicts(deviceId, pending, responses);
  }

  /** A sweep removes from the device's list exactly the records whose retry was accepted, counted with multiplicity. */
  lemma DrainRemovesAccepted(snap: Snapshot, deviceId: string, ip: string, responses: seq<Response>)
    requires snap.Ok? && ip in snap.logs
    ensures multiset(Pending(Drain(snap, deviceId, ip, responses).snapshot, ip))
         == multiset(snap.logs[ip]) - multiset(Succeeded(snap.logs[ip], responses))
  {
    DrainFound(snap, deviceId, ip, responses);
  }

  lemma OthersUntouchedMinus(m: map<string, seq<Record>>, m': map<string, seq<Record>>, ip: string)
    requires OthersUntouched(m, m', ip)
    ensures m' - {ip} == m - {ip}
  {
  }

  /** What a sweep leaves under the device's key: the pending list with each accepted record removed by value. */
  lemma DrainLeaves(snap: Snapshot, deviceId: string, ip: string, responses: seq<Response>)
    requires snap.Ok? && ip in snap.logs
    ensures Pending(Drain(snap, deviceId, ip, responses).snapshot, ip)
         == RemoveEach(snap.logs[ip], Succeeded(snap.logs[ip], responses)).value
  {
    RetryRemaining(snap.logs[ip], deviceId, responses);
    DrainFound(snap, deviceId, ip, responses);
  }

  /** A sweep of one device leaves every other address's queue exactly as it was. */
  lemma DrainOtherAddress(snap: Snapshot, deviceId: string, ip: string, responses: seq<Response>, other: string)
    requires other != ip
    ensures Pending(Drain(snap, deviceId, ip, responses).snapshot, other) == Pending(snap, other)
  {
    if snap.Ok? && ip in snap.logs {
      OthersAt(snap.logs, Drain(snap, deviceId, ip, responses).snapshot.logs, ip, other);
    }
  }

  lemma OthersAt(m: map<string, seq<Record>>, m': map<string, seq<Record>>, ip: string, other: string)
    requires OthersUntouched(m, m', ip) && other != ip
    ensures other in m' <==> other in m
    ensures other in m ==> m'[other] == m[other]
  {
    assert other in m.Keys - {ip} <==> other in m'.Keys - {ip};
  }

  /** Every retry accepted: the device's key disappears, every other key is untouched. */
  lemma DrainAllSucceed(snap: Snapshot, deviceId: string, ip: string, responses: seq<Response>)
    requires snap.Ok? && ip in snap.logs
    requires forall i :: 0 <= i < |snap.logs[ip]| ==> ResponseAt(responses, i) == HttpStatus(200)
    ensures Drain(snap, deviceId, ip, responses).snapshot == Ok(snap.logs - {ip})
  {
    var pending := snap.logs[ip];
    var v := Verdicts(pending, responses);
    assert forall i :: 0 <= i < |v| ==> v[i] != false;
    SelectNone(pending, v, false);
    var r := Drain(snap, deviceId, ip, responses).snapshot;
    assert ip !in r.logs;
    assert r.logs.Keys == r.logs.Keys - {ip} == snap.logs.Keys - {ip};
  }

  /** No retry accepted: the snapshot comes back exactly as it was. */
  lemma DrainNoneSucceed(snap: Snapshot, deviceId: string, ip: string, responses: seq<Response>)
    requires snap.Ok? && ip in snap.logs && |snap.logs[ip]| > 0
    requires forall i :: 0 <= i < |snap.logs[ip]| ==> !Accepted(ResponseAt(responses, i))
    ensures Drain(snap, deviceId, ip, responses).snapshot == snap
  {
    var pending := snap.logs[ip];
    var v := Verdicts(pending, responses);
    assert forall i :: 0 <= i < |v| ==> v[i] != true;
    SelectNone(pending, v, true);
    RetryRemaining(pending, deviceId, responses);
    DrainFound(snap, deviceId, ip, responses);
    StoreBackUnchanged(snap.logs, ip);
  }

  lemma StoreBackUnchanged(m: map<string, seq<Record>>, ip: string)
    requires ip in m && |m[ip]| > 0
    ensures StoreBack(m, ip, m[ip]) == m
  {
    assert m[ip := m[ip]] == m;
  }

  /** No two equal elements. */
  predicate Distinct<T(==)>(s: seq<T>) {
    forall i, j :: 0 <= i < j < |s| ==> s[i] != s[j]
  }

  lemma {:induction false} RemoveEachPrefix<T>(a: T, t: seq<T>, xs: seq<T>)
    requires a !in xs
    ensures RemoveEach([a] + t, xs) == (match RemoveEach(t, xs) case None => None case Some(u) => Some([a] + u))
    decreases |xs|
  {
    if |xs| > 0 {
      assert ([a] + t)[0] == a && ([a] + t)[1..] == t;
      assert xs[0] != a;
      match RemoveFirst(t, xs[0])
      case None =>
      case Some(u) =>
        assert RemoveFirst([a] + t, xs[0]) == Some([a] + u);
        RemoveEachPrefix(a, u, xs[1..]);
    }
  }

  lemma {:induction false} RemoveSelectedDistinct<T>(s: seq<T>, ok: seq<bool>)
    requires |ok| == |s| && Distinct(s)
    ensures RemoveEach(s, Select(s, ok, true)) == Some(Select(s, ok, false))
  {
    if |s| > 0 {
      var t := s[1..];
      DistinctTail(s);
      RemoveSelectedDistinct(t, ok[1..]);
      if ok[0] {
        RemoveAcceptedHead(s, ok);
      } else {
        RemoveFailedHead(s, ok);
      }
    }
  }

  lemma DistinctTail<T>(s: seq<T>)
    requires |s| > 0 && Distinct(s)
    ensures Distinct(s[1..]) && s[0] !in s[1..]
  {
    var t := s[1..];
    forall i, j | 0 <= i < j < |t| ensures t[i] != t[j] {
      assert t[i] == s[i + 1] && t[j] == s[j + 1];
    }
    forall i | 0 <= i < |t| ensures t[i] != s[0] {
      assert t[i] == s[i + 1];
    }
  }

  /** An accepted head is removed first, leaving the tail to the remaining removals. */
  lemma RemoveAcceptedHead<T>(s: seq<T>, ok: seq<bool>)
    requires |ok| == |s| && |s| > 0 && ok[0]
    ensures RemoveEach(s, Select(s, ok, true)) == RemoveEach(s[1..], Select(s[1..], ok[1..], true))
    ensures Select(s, ok, false) == Select(s[1..], ok[1..], false)
  {
    var a, t, xs := s[0], s[1..], Select(s[1..], ok[1..], true);
    assert s == [a] + t;
    assert Select(s, ok, true) == [a] + xs;
    assert RemoveFirst(s, a) == Some(t);
    assert ([a] + xs)[0] == a && ([a] + xs)[1..] == xs;
  }

  /** A failed head that occurs nowhere else stays in front of whatever the removals leave. */
  lemma RemoveFailedHead<T>(s: seq<T>, ok: seq<bool>)
    requires |ok| == |s| && |s| > 0 && !ok[0] && s[0] !in s[1..]
    ensures RemoveEach(s, Select(s, ok, true))
         == (match RemoveEach(s[1..], Select(s[1..], ok[1..], true)) case None => None case Some(u) => Some([s[0]] + u))
    ensures Select(s, ok, false) == [s[0]] + Select(s[1..], ok[1..], false)
  {
    var a, t, xs := s[0], s[1..], Select(s[1..], ok[1..], true);
    assert s == [a] + t;
    assert a !in multiset(t);
    assert a !in multiset(xs);
    assert Select(s, ok, true) == xs;
    RemoveEachPrefix(a, t, xs);
  }

  /**
    With pairwise distinct records, the list a sweep leaves behind is exactly
    the failed records in their original relative order.
   */
  lemma DrainDistinctKeepsOrder(snap: Snapshot, deviceId: string, ip: string, responses: seq<Response>)
    requires snap.Ok? && ip in snap.logs && Distinct(snap.logs[ip])
    ensures Pending(Drain(snap, deviceId, ip, responses).snapshot, ip) == Failed(snap.logs[ip], responses)
  {
    var pending := snap.logs[ip];
    RemoveSelectedDistinct(pending, Verdicts(pending, responses));
    DrainLeaves(snap, deviceId, ip, responses);
  }

  /**
    With equal duplicates, removing accepted records by value drops the first
    equal copy, not the one that was accepted: `[x, y, x]` where only the third
    retry is accepted leaves `[y, x]`, not the failed records in order `[x, y]`.
   */
  lemma DrainDuplicatesReorder(x: Record, y: Record, deviceId: string, ip: string, responses: seq<Response>)
    requires x != y
    requires !Accepted(ResponseAt(responses, 0)) && !Accepted(ResponseAt(responses, 1)) && Accepted(ResponseAt(responses, 2))
    ensures Failed([x, y, x], responses) == [x, y]
    ensures Pending(Drain(Ok(map[ip := [x, y, x]]), deviceId, ip, responses).snapshot, ip) == [y, x]
  {
    DuplicatesOutcome(x, y, responses);
    DrainLeaves(Ok(map[ip := [x, y, x]]), deviceId, ip, responses);
  }

  lemma DuplicatesOutcome(x: Record, y: Record, responses: seq<Response>)
    requires x != y
    requires !Accepted(ResponseAt(responses, 0)) && !Accepted(ResponseAt(responses, 1)) && Accepted(ResponseAt(responses, 2))
    ensures Failed([x, y, x], responses) == [x, y]
    ensures RemoveEach([x, y, x], Succeeded([x, y, x], responses)).value == [y, x]
  {
    VerdictsOfThree(x, y, responses);
    assert Failed([x, y, x], responses) == [x, y] by {
      SelectLastOfThree(x, y, false);
    }
    assert Succeeded([x, y, x], responses) == [x] by {
      SelectLastOfThree(x, y, true);
    }
    RemoveFirstOfThree(x, y);
  }

  lemma VerdictsOfThree(x: Record, y: Record, responses: seq<Response>)
    requires !Accepted(ResponseAt(responses, 0)) && !Accepted(ResponseAt(responses, 1)) && Accepted(ResponseAt(responses, 2))
    ensures Verdicts([x, y, x], responses) == [false, false, true]
  {
    var v := Verdicts([x, y, x], responses);
    assert v[0] == false && v[1] == false && v[2] == true;
  }

  lemma SelectLastOfThree<T>(x: T, y: T, want: bool)
    ensures Select([x, y, x], [false, false, true], want) == if want then [x] else [x, y]
  {
    var pending := [x, y, x];
    var v := [false, false, true];
    assert pending[1..] == [y, x] && v[1..] == [false, true];
    assert pending[1..][1..] == [x] && v[1..][1..] == [true];
    assert Select([x], [true], want) == if want then [x] else [];
    assert Select([y, x], [false, true], want) == if want then [x] else [y];
  }

  lemma RemoveFirstOfThree<T>(x: T, y: T)
    requires x != y
    ensures RemoveEach([x, y, x], [x]) == Some([y, x])
  {
    assert RemoveFirst([x, y, x], x) == Some([y, x]);
    assert [x][1..] == [];
  }

  /**
    An event whose delivery failed is queued for its device; the next sweep
    with an accepting API posts it exactly once and the store returns to its
    earlier contents (an empty file where there was none).
   */
  lemma FailedEventDeliveredOnRetry(snap: Snapshot, deviceId: string, ip: string, rec: Record, responses: seq<Response>)
    requires !snap.Corrupt? && Pending(snap, ip) == []
    requires ResponseAt(responses, 0) == HttpStatus(200)
    ensures rec in Pending(Enqueue(snap, ip, rec), ip)
    ensures Drain(Enqueue(snap, ip, rec), deviceId, ip, responses).sent == [BuildPayload(deviceId, rec.log)]
    ensures Drain(Enqueue(snap, ip, rec), deviceId, ip, responses).snapshot == Ok(Entries(snap) - {ip})
  {
    var queued := Enqueue(snap, ip, rec);
    assert Pending(queued, ip) == [rec];
    assert forall i :: 0 <= i < |queued.logs[ip]| ==> ResponseAt(responses, i) == HttpStatus(200);
    DrainAllSucceed(queued, deviceId, ip, responses);
    OthersUntouchedMinus(Entries(snap), queued.logs, ip);
  }

  /** A sweep with a failing API keeps a freshly queued event queued. */
  lemma FailedEventKeptOnFailedRetry(snap: Snapshot, deviceId: string, ip: string, rec: Record, responses: seq<Response>)
    requires !snap.Corrupt?
    requires forall i :: 0 <= i <= |Pending(snap, ip)| ==> !Accepted(ResponseAt(responses, i))
    ensures Drain(Enqueue(snap, ip, rec), deviceId, ip, responses).snapshot == Enqueue(snap, ip, rec)
  {
    var queued := Enqueue(snap, ip, rec);
    DrainNoneSucceed(queued, deviceId, ip, responses);
  }
}
