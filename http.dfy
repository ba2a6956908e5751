/** The HTTP vocabulary the export workflow sees: a server response reduced to
    its status code, the two headers the client reads and the body as a
    sequence of byte chunks; the errors the workflow can raise; and the events
    (requests, closes, waits) a run produces. */
module Http {

  datatype Option<+T> = None | Some(value: T)

  /** A success value or the error that the Python code would raise. */
  datatype Result<+T> = Ok(value: T) | Err(error: Error)

  /** Completion of a step that returns nothing on success. */
  datatype Outcome = Pass | Fail(error: Error)

  type Byte = bv8

  /** One piece of a streamed response body. */
  type Chunk = seq<Byte>

  /** A server response. `location` and `contentLength` are the raw header
      values, absent when the server did not send the header. */
  datatype Response = Response(
    status: int,
    location: Option<string>,
    contentLength: Option<string>,
    body: seq<Chunk>)

  datatype Error =
    | HttpError(status: int)              // raised by raise_for_status
    | MissingLocation                     // KeyError on headers["location"]
    | InvalidContentLength(header: string) // ValueError from int(header)
    | OpenError                           // opening the destination file failed
    | TransportError                      // reading the body stream failed
    | WriteError                          // writing a chunk to the file failed

  /** An observable action of the client against the server. */
  datatype Event =
    | Post(url: string, behaviors: seq<string>, studies: seq<string>)
    | Get(url: string)
    | Close   // the response is closed, releasing its connection
    | Sleep   // the fixed one-second wait between two polls

  /** The statuses for which `raise_for_status` raises: client errors
      (400-499) and server errors (500-599). */
  predicate IsErrorStatus(status: int) {
    400 <= status < 600
  }

  /** `response.raise_for_status()`. */
  function RaiseForStatus(r: Response): (o: Outcome)
    ensures o.Fail? <==> 400 <= r.status < 600
    ensures o.Fail? ==> o.error == HttpError(r.status)
  {
    if IsErrorStatus(r.status) then Fail(HttpError(r.status)) else Pass
  }
}
