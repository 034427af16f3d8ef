/**
  Upload of one attendance event to the attendance API (`send_log_to_api`).
  The HTTP call itself is not modelled: each call is answered by a `Response`
  drawn from an oracle, and the model records the payload that would be posted.
 */
module Delivery {
  import opened Common
  import opened Timestamp

  /** The fields of a captured attendance event that the logger reads. */
  datatype Attendance = Attendance(userId: string, timestamp: Instant, status: int)

  /** What `requests.post` produced: a response with a status code, or a `RequestException`. */
  datatype Response = HttpStatus(code: int) | RequestError

  /** The JSON body posted to the attendance API. */
  datatype Payload = Payload(deviceId: string, userId: string, timestamp: string, status: int)

  /** One delivery call: what was posted and whether the API accepted it. */
  datatype Attempt = Attempt(payload: Payload, delivered: bool)

  /** The answer to the `i`-th call of a run; calls past the end of the oracle meet a transport error. */
  function ResponseAt(responses: seq<Response>, i: nat): Response {
    if i < |responses| then responses[i] else RequestError
  }

  /** The responses left for later calls once `n` calls have been answered. */
  function Drop(responses: seq<Response>, n: nat): (rest: seq<Response>)
    ensures forall i: nat :: ResponseAt(rest, i) == ResponseAt(responses, n + i)
  {
    if n <= |responses| then responses[n..] else []
  }

  /** The acceptance rule: only a response whose code is exactly 200 counts as delivered. */
  predicate Accepted(response: Response) {
    match response
    case HttpStatus(code) => code == 200
    case RequestError => false
  }

  /** The body built from the device id and the event, timestamp rendered as text. */
  function BuildPayload(deviceId: string, log: Attendance): (p: Payload)
    ensures p.deviceId == deviceId && p.userId == log.userId && p.status == log.status
    ensures Shaped(p.timestamp) && Parse(p.timestamp) == Some(log.timestamp)
  {
    ParseFormat(log.timestamp);
    Payload(deviceId, log.userId, Format(log.timestamp), log.status)
  }

  /** `send_log_to_api`: post the payload, report success iff the answer is exactly status 200. */
  function Send(deviceId: string, log: Attendance, response: Response): (a: Attempt)
    ensures a.payload == BuildPayload(deviceId, log)
    ensures a.delivered <==> response == HttpStatus(200)
    ensures response.RequestError? ==> !a.delivered
  {
    Attempt(BuildPayload(deviceId, log), Accepted(response))
  }
}
