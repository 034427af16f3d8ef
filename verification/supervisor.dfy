/**
  The hourly sweep of `periodic_failed_logs`: `process_failed_logs` for every
  configured device in turn, against the one shared store. The thread and the
  hour-long sleep are not modelled; one call is one pass over the devices.
 */
module Supervisor {
  import opened Delivery
  import opened FailedStore
  import opened Session
  import opened StoreProperties

  datatype SweepResult = SweepResult(snapshot: Snapshot, sent: seq<Payload>)

  /** One pass over the devices; each device's retries take the next responses of the oracle. */
  function Sweep(devices: seq<Device>, snap: Snapshot, responses: seq<Response>): (r: SweepResult)
    ensures r.snapshot.Ok? <==> snap.Ok?
    ensures !snap.Ok? ==> r.snapshot == snap
    decreases |devices|
  {
    if |devices| == 0 then SweepResult(snap, [])
    else
      var d := Drain(snap, devices[0].id, devices[0].ip, responses);
      var rest := Sweep(devices[1..], d.snapshot, Drop(responses, |d.sent|));
      SweepResult(rest.snapshot, d.sent + rest.sent)
  }

  /**
    Partition isolation: the records queued under an address no swept device
    has are neither posted nor touched by the sweep, whatever the API answers.
   */
  lemma {:induction false} SweepIsolation(devices: seq<Device>, snap: Snapshot, responses: seq<Response>, ip: string)
    requires forall i :: 0 <= i < |devices| ==> devices[i].ip != ip
    ensures Pending(Sweep(devices, snap, responses).snapshot, ip) == Pending(snap, ip)
    decreases |devices|
  {
    if |devices| > 0 {
      var d := Drain(snap, devices[0].id, devices[0].ip, responses);
      DrainOtherAddress(snap, devices[0].id, devices[0].ip, responses, ip);
      SweepIsolation(devices[1..], d.snapshot, Drop(responses, |d.sent|), ip);
      assert Sweep(devices, snap, responses).snapshot
          == Sweep(devices[1..], d.snapshot, Drop(responses, |d.sent|)).snapshot;
    }
  }

  /** A store that is absent or does not decode survives a sweep unchanged, and nothing is posted. */
  lemma {:induction false} SweepUnreadable(devices: seq<Device>, snap: Snapshot, responses: seq<Response>)
    requires !snap.Ok?
    ensures Sweep(devices, snap, responses) == SweepResult(snap, [])
    decreases |devices|
  {
    if |devices| > 0 {
      SweepUnreadable(devices[1..], snap, Drop(responses, 0));
    }
  }
}
