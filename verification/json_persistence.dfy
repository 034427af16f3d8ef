/**
  How `store_failed_log` writes a record to the JSON file, as written and as
  evidently intended.

  The record's `log` part is `log.__dict__`, whose `timestamp` is a datetime
  object. The default JSON encoder refuses datetime objects, and it does so
  only after the file has been reopened for writing, so the file is left
  truncated and no longer decodes. The corrected encoding renders the
  timestamp with the payload's `%Y-%m-%d %H:%M:%S` format and reads it back
  when the record is retried; under it the `Snapshot` abstraction used by the
  rest of the model is exact.
 */
module JsonPersistence {
  import opened Common
  import opened Timestamp
  import opened Delivery
  import opened FailedStore

  /** A value of `log.__dict__`, as far as the JSON encoder is concerned. */
  datatype PyValue = PyStr(s: string) | PyInt(i: int) | PyDateTime(t: Instant)

  /** The default JSON encoder handles text and numbers and raises on a datetime. */
  predicate Encodable(v: PyValue) {
    !v.PyDateTime?
  }

  /** The two ways of turning an attendance event into the dictionary that is dumped. */
  datatype Codec = AsWritten | TextTimestamp

  function EncodeLog(codec: Codec, a: Attendance): map<string, PyValue> {
    match codec
    case AsWritten => map["user_id" := PyStr(a.userId), "timestamp" := PyDateTime(a.timestamp), "status" := PyInt(a.status)]
    case TextTimestamp => map["user_id" := PyStr(a.userId), "timestamp" := PyStr(Format(a.timestamp)), "status" := PyInt(a.status)]
  }

  /** `Attendance(**d)` with its timestamp read back as a date-time; `None` if it does not fit. */
  function DecodeLog(d: map<string, PyValue>): Option<Attendance> {
    if "user_id" in d && "timestamp" in d && "status" in d
       && d["user_id"].PyStr? && d["timestamp"].PyStr? && d["status"].PyInt?
    then
      match Parse(d["timestamp"].s)
      case None => None
      case Some(t) => Some(Attendance(d["user_id"].s, t, d["status"].i))
    else None
  }

  predicate RecordEncodable(codec: Codec, r: Record) {
    forall key :: key in EncodeLog(codec, r.log) ==> Encodable(EncodeLog(codec, r.log)[key])
  }

  predicate AllEncodable(codec: Codec, m: map<string, seq<Record>>) {
    forall ip :: ip in m ==> forall i :: 0 <= i < |m[ip]| ==> RecordEncodable(codec, m[ip][i])
  }

  /**
    `open(path, 'w')` then `json.dump`: the map is stored if every value
    encodes; otherwise the dump raises part-way and the file no longer decodes.
   */
  function Write(codec: Codec, m: map<string, seq<Record>>): (r: Snapshot)
    ensures r.Ok? || r.Corrupt?
    ensures r.Ok? <==> AllEncodable(codec, m)
    ensures r.Ok? ==> r.logs == m
  {
    if AllEncodable(codec, m) then Ok(m) else Corrupt
  }

  /** `store_failed_log` with the given encoding of the record's event. */
  function EnqueueWith(codec: Codec, snap: Snapshot, ip: string, rec: Record): (r: Snapshot)
    ensures r.Ok? || r.Corrupt?
    ensures snap.Corrupt? ==> r == Corrupt
    ensures r.Ok? ==> r == Enqueue(snap, ip, rec)
  {
    match snap
    case Corrupt => Corrupt
    case _ =>
      assert [] + [rec] == [rec];
      Write(codec, Entries(snap)[ip := Pending(snap, ip) + [rec]])
  }

  /**
    As written, the first failed delivery leaves the file undecodable, so the
    record is never retried and every later failure is dropped as well.
   */
  lemma EnqueueAsWrittenCorrupts(snap: Snapshot, ip: string, rec: Record, later: Record,
                                 deviceId: string, responses: seq<Response>)
    ensures EnqueueWith(AsWritten, snap, ip, rec) == Corrupt
    ensures Drain(EnqueueWith(AsWritten, snap, ip, rec), deviceId, ip, responses).sent == []
    ensures EnqueueWith(AsWritten, EnqueueWith(AsWritten, snap, ip, rec), ip, later) == Corrupt
  {
    if !snap.Corrupt? {
      var m := Entries(snap)[ip := Pending(snap, ip) + [rec]];
      var n := |Pending(snap, ip)|;
      assert m[ip][n] == rec;
      assert !RecordEncodable(AsWritten, rec) by {
        assert "timestamp" in EncodeLog(AsWritten, rec.log);
      }
    }
  }

  /** With the timestamp written as text, every record encodes. */
  lemma TextTimestampEncodes(m: map<string, seq<Record>>)
    ensures AllEncodable(TextTimestamp, m)
  {
  }

  /**
    The corrected encoding: storing succeeds exactly as the store model's
    `Enqueue` says, and each stored event reads back as the event itself.
   */
  lemma FixedEncodingPersists(snap: Snapshot, ip: string, rec: Record)
    ensures EnqueueWith(TextTimestamp, snap, ip, rec) == Enqueue(snap, ip, rec)
    ensures DecodeLog(EncodeLog(TextTimestamp, rec.log)) == Some(rec.log)
  {
    if !snap.Corrupt? {
      TextTimestampEncodes(Entries(snap)[ip := Pending(snap, ip) + [rec]]);
      assert [] + [rec] == [rec];
    }
    ParseFormat(rec.log.timestamp);
  }
}
