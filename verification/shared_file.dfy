/**
  Two devices storing failed records in the one shared file.

  Every device writes to the same failed-log file, but each holds only its own
  lock while it reads the file, adds its record and rewrites the file. So two
  devices can both read the file before either writes, and the second write
  then replaces the first. The corrected behaviour holds one lock for the file,
  so the second device reads what the first one wrote.
 */
module SharedFile {
  import opened FailedStore

  /**
    As written: devices A and B each read the same snapshot under their own
    locks, B writes its update first and A's rewrite, made from the stale read,
    is what the file ends up holding.
   */
  function Interleaved(snap: Snapshot, ipA: string, recA: Record, ipB: string, recB: Record): (r: Snapshot)
    ensures !snap.Corrupt? ==> r.Ok? && Pending(r, ipA) == Pending(snap, ipA) + [recA]
  {
    // Both devices read `snap`. B's rewrite, `Enqueue(snap, ipB, recB)`, lands
    // first; A's rewrite from its own stale read then replaces the whole file.
    var writtenByA := Enqueue(snap, ipA, recA);
    assert !snap.Corrupt? ==> Pending(writtenByA, ipA) == Pending(snap, ipA) + [recA] by {
      if !snap.Corrupt? {
        AppendedPending(snap, ipA, recA);
      }
    }
    writtenByA
  }

  /** With one lock for the file: B's update completes before A reads. */
  function Serialised(snap: Snapshot, ipA: string, recA: Record, ipB: string, recB: Record): (r: Snapshot)
    ensures snap.Corrupt? <==> r.Corrupt?
  {
    Enqueue(Enqueue(snap, ipB, recB), ipA, recA)
  }

  lemma AppendedPending(snap: Snapshot, ip: string, rec: Record)
    requires !snap.Corrupt?
    ensures Pending(Enqueue(snap, ip, rec), ip) == Pending(snap, ip) + [rec]
  {
    var p, q := Pending(snap, ip), Pending(Enqueue(snap, ip, rec), ip);
    assert q == q[..|p|] + [q[|p|]];
  }

  /**
    The lost update: B's record, whose post failed and which B stored, is not
    in the file afterwards; B's queue is exactly what it was before.
   */
  lemma PerDeviceLocksLoseRecord(snap: Snapshot, ipA: string, recA: Record, ipB: string, recB: Record)
    requires !snap.Corrupt? && ipA != ipB
    ensures Pending(Interleaved(snap, ipA, recA, ipB, recB), ipB) == Pending(snap, ipB)
    ensures |Pending(Interleaved(snap, ipA, recA, ipB, recB), ipB)| < |Pending(Enqueue(snap, ipB, recB), ipB)|
  {
    var r := Interleaved(snap, ipA, recA, ipB, recB);
    assert r == Enqueue(snap, ipA, recA);
    OtherPending(Entries(snap), r.logs, ipA, ipB);
  }

  /** With one lock for the file, both devices' records are stored, each after its own earlier ones. */
  lemma SharedLockKeepsBoth(snap: Snapshot, ipA: string, recA: Record, ipB: string, recB: Record)
    requires !snap.Corrupt? && ipA != ipB
    ensures Pending(Serialised(snap, ipA, recA, ipB, recB), ipA) == Pending(snap, ipA) + [recA]
    ensures Pending(Serialised(snap, ipA, recA, ipB, recB), ipB) == Pending(snap, ipB) + [recB]
  {
    var mid := Enqueue(snap, ipB, recB);
    var r := Enqueue(mid, ipA, recA);
    AppendedPending(snap, ipB, recB);
    AppendedPending(mid, ipA, recA);
    OtherPending(Entries(snap), mid.logs, ipB, ipA);
    OtherPending(mid.logs, r.logs, ipA, ipB);
  }

  lemma OtherPending(m: map<string, seq<Record>>, m': map<string, seq<Record>>, ip: string, other: string)
    requires OthersUntouched(m, m', ip) && other != ip
    ensures Pending(Ok(m'), other) == Pending(Ok(m), other)
  {
    assert other in m.Keys - {ip} <==> other in m'.Keys - {ip};
  }
}
