/**
 The envelope the fetch tasks send to the UI and the error-log entry
 (src/utils/mod.rs). The envelope also carries the origin tag of the fetch
 that produced it, which the UI side reads (src/app/mod.rs).
 */
module Remote {
  import Application
  import Timestamp

  datatype Data = Applications(apps: seq<Application.Application>) | ErrorMessage(message: string)

  /** A fetched payload or an error, stamped with its capture time and tagged with its origin. */
  datatype RemoteData = RemoteData(data: Data, updatedAt: Timestamp.Timestamp, origin: string)

  /** One error-log entry: the message and the time it was recorded. */
  datatype Error = Error(error: string, ts: Timestamp.Timestamp)

  /** `RemoteData::new`: the payload stamped with the current time. */
  function NewRemoteData(data: Data, origin: string, now: int): (r: RemoteData)
    ensures r.data == data && r.origin == origin && r.updatedAt.utc == now
  {
    RemoteData(data, Timestamp.Timestamp(now), origin)
  }

  /** `Error::new`: the message stamped with the current time. */
  function NewError(message: string, now: int): (r: Error)
    ensures r.error == message && r.ts.utc == now
  {
    Error(message, Timestamp.Timestamp(now))
  }
}
