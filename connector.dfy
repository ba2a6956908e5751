/** The export-job workflow of the connector: coercing the requested ids to
    strings, submitting the export job, polling the job until the archive is
    ready, and streaming the archive to a file while counting its bytes.

    The server is abstract: the answer to the submit request is a parameter,
    and the answers to the successive poll requests are a finite sequence.
    When that sequence holds no response that ends the loop, the model stops
    with `StillPolling`: the real client would go on polling. */
module Connector {
  import opened Http
  import opened Numerals
  import opened Progress
  import opened Files

  /** Path of the endpoint that creates export jobs, appended to the connector's endpoint. */
  const ExportsPath: string := "/api/v1/exports"

  // ---------------------------------------------------------------------
  // Identifier coercion
  // ---------------------------------------------------------------------

  /** A behavior or study identifier as a caller passes it: an int, a bool
      (a subclass of int in Python) or a str. */
  datatype Id = Num(n: int) | Flag(b: bool) | Text(s: string)

  /** Python's `str` on an identifier: a string is kept, an integer is
      written as its canonical decimal numeral, which reads back unchanged
      (by `CanonicalUnique` no other string has both properties), and a bool
      is written as its name rather than as a number. */
  function Str(id: Id): (s: string)
    ensures id.Text? ==> s == id.s
    ensures id.Num? ==> IsCanonical(s) && ParseInt(s) == Some(id.n)
    ensures id.Flag? ==> s == (if id.b then "True" else "False") && ParseInt(s).None?
  {
    match id
    case Text(s) => s
    case Num(n) => ParseShowInt(n); ShowInt(n)
    case Flag(b) => if b then "True" else "False"
  }

  /** `list(map(str, ids))`: same length, same order, element i is the
      string form of input element i. */
  function Coerce(ids: seq<Id>): (r: seq<string>)
    ensures |r| == |ids|
    ensures forall i :: 0 <= i < |ids| ==> r[i] == Str(ids[i])
  {
    if ids == [] then [] else [Str(ids[0])] + Coerce(ids[1..])
  }

  /** Integer identifiers survive the coercion: distinct integers give
      distinct strings, and each can be parsed back. */
  lemma CoerceKeepsIntegers(ids: seq<Id>, i: nat, j: nat)
    requires i < |ids| && j < |ids| && ids[i].Num? && ids[j].Num?
    ensures Coerce(ids)[i] == Coerce(ids)[j] <==> ids[i] == ids[j]
  {
    if Coerce(ids)[i] == Coerce(ids)[j] {
      ShowIntInjective(ids[i].n, ids[j].n);
    }
  }

  /** The study ids of the connector's own example: [22, "11", 2]. */
  lemma CoerceExample()
    ensures Coerce([Num(22), Text("11"), Num(2)]) == ["22", "11", "2"]
  {
    var ids := [Num(22), Text("11"), Num(2)];
    assert DigitChar(2) == '2';
    assert ShowNat(22) == ShowNat(2) + [DigitChar(2)] == "22";
    assert ShowNat(2) == "2";
    assert ids[1..] == [Text("11"), Num(2)] && ids[1..][1..] == [Num(2)] && ids[1..][1..][1..] == [];
  }

  // ---------------------------------------------------------------------
  // Submitting the export job
  // ---------------------------------------------------------------------

  /** `_start_export_job`, given the server's answer to the POST: an error
      status raises, otherwise the job's URI is the `location` header,
      whose absence raises a KeyError. */
  function Submit(r: Response): (res: Result<string>)
    ensures res.Ok? <==> !IsErrorStatus(r.status) && r.location.Some?
    ensures res.Ok? ==> res.value == r.location.value
    ensures IsErrorStatus(r.status) ==> res == Err(HttpError(r.status))
    ensures !IsErrorStatus(r.status) && r.location.None? ==> res == Err(MissingLocation)
  {
    match RaiseForStatus(r)
    case Fail(e) => Err(e)
    case Pass =>
      match r.location
      case Some(uri) => Ok(uri)
      case None => Err(MissingLocation)
  }

  // ---------------------------------------------------------------------
  // Polling the export job
  // ---------------------------------------------------------------------

  /** A status that ends the polling loop: the archive is ready (200), or
      `raise_for_status` raises. */
  predicate IsTerminal(status: int) {
    status == 200 || IsErrorStatus(status)
  }

  /** The index of the first response that ends the loop; |rs| when none does. */
  function FirstTerminal(rs: seq<Response>): (k: nat)
    ensures k <= |rs|
    ensures forall j :: 0 <= j < k ==> !IsTerminal(rs[j].status)
    ensures k < |rs| ==> IsTerminal(rs[k].status)
  {
    if rs == [] then 0
    else if IsTerminal(rs[0].status) then 0
    else 1 + FirstTerminal(rs[1..])
  }

  /** What one iteration of the loop does with the response it requested:
      a 202 is closed and followed by the wait; any other status is not. */
  function Round(url: string, r: Response): seq<Event> {
    if r.status == 202 then [Get(url), Close, Sleep] else [Get(url)]
  }

  /** The events of the iterations that requested `rs`, in order. */
  function Rounds(url: string, rs: seq<Response>): seq<Event> {
    if rs == [] then [] else Rounds(url, rs[..|rs| - 1]) + Round(url, rs[|rs| - 1])
  }

  datatype PollOutcome = Ready(response: Response) | PollFailed(error: Error) | StillPolling

  /** `_poll_export_job`: request the job URI until a response ends the loop.
      Returns the outcome, the number of requests issued and the events. */
  method Poll(endpoint: string, jobUri: string, rs: seq<Response>)
    returns (outcome: PollOutcome, requests: nat, trace: seq<Event>)
    ensures requests == (if FirstTerminal(rs) < |rs| then FirstTerminal(rs) + 1 else |rs|)
    ensures outcome.StillPolling? <==> FirstTerminal(rs) == |rs|
    ensures outcome.Ready? ==> outcome.response == rs[requests - 1] && outcome.response.status == 200
    ensures outcome.PollFailed? ==>
      IsErrorStatus(rs[requests - 1].status) && outcome.error == HttpError(rs[requests - 1].status)
    ensures trace == Rounds(endpoint + jobUri, rs[..requests])
  {
    var url := endpoint + jobUri;
    var i := 0;
    trace := [];
    while i < |rs|
      invariant 0 <= i <= |rs|
      invariant forall j :: 0 <= j < i ==> !IsTerminal(rs[j].status)
      invariant trace == Rounds(url, rs[..i])
    {
      var response := rs[i];
      trace := trace + [Get(url)];
      i := i + 1;
      assert rs[..i][..i - 1] == rs[..i - 1];
      var checked := RaiseForStatus(response);
      if checked.Fail? {
        return PollFailed(checked.error), i, trace;
      }
      if response.status == 202 {
        trace := trace + [Close, Sleep];
      } else if response.status == 200 {
        return Ready(response), i, trace;
      }
    }
    return StillPolling, i, trace;
  }

  /** How many times `e` occurs in the trace `t`. */
  function Occurrences(e: Event, t: seq<Event>): nat {
    if t == [] then 0 else Occurrences(e, t[..|t| - 1]) + (if t[|t| - 1] == e then 1 else 0)
  }

  lemma {:induction false} OccurrencesAppend(e: Event, a: seq<Event>, b: seq<Event>)
    ensures Occurrences(e, a + b) == Occurrences(e, a) + Occurrences(e, b)
  {
    if b == [] {
      assert a + b == a;
    } else {
      assert (a + b)[..|a + b| - 1] == a + b[..|b| - 1];
      assert (a + b)[|a + b| - 1] == b[|b| - 1];
      OccurrencesAppend(e, a, b[..|b| - 1]);
    }
  }

  /** The number of 202 (Accepted) responses in `rs`. */
  function Accepted(rs: seq<Response>): nat {
    if rs == [] then 0 else Accepted(rs[..|rs| - 1]) + (if rs[|rs| - 1].status == 202 then 1 else 0)
  }

  lemma OccurrencesSingle(e: Event, x: Event)
    ensures Occurrences(e, [x]) == if x == e then 1 else 0
  {
    assert [x][..0] == [];
  }

  /** The events of one iteration: one request, and one close and one wait
      if and only if the response was a 202. */
  lemma RoundCounts(url: string, r: Response)
    ensures Occurrences(Get(url), Round(url, r)) == 1
    ensures Occurrences(Close, Round(url, r)) == (if r.status == 202 then 1 else 0)
    ensures Occurrences(Sleep, Round(url, r)) == (if r.status == 202 then 1 else 0)
  {
    forall e: Event
      ensures Occurrences(e, [Get(url), Close, Sleep]) ==
        Occurrences(e, [Get(url)]) + Occurrences(e, [Close]) + Occurrences(e, [Sleep])
    {
      OccurrencesAppend(e, [Get(url)], [Close]);
      OccurrencesAppend(e, [Get(url)] + [Close], [Sleep]);
      assert [Get(url)] + [Close] + [Sleep] == [Get(url), Close, Sleep];
    }
    OccurrencesSingle(Get(url), Get(url));
    OccurrencesSingle(Get(url), Close);
    OccurrencesSingle(Get(url), Sleep);
    OccurrencesSingle(Close, Get(url));
    OccurrencesSingle(Close, Close);
    OccurrencesSingle(Close, Sleep);
    OccurrencesSingle(Sleep, Get(url));
    OccurrencesSingle(Sleep, Close);
    OccurrencesSingle(Sleep, Sleep);
  }

  /** Polling `rs` issues one request per response, and closes and waits
      exactly once per 202. */
  lemma {:induction false} RoundsCounts(url: string, rs: seq<Response>)
    ensures Occurrences(Get(url), Rounds(url, rs)) == |rs|
    ensures Occurrences(Close, Rounds(url, rs)) == Accepted(rs)
    ensures Occurrences(Sleep, Rounds(url, rs)) == Accepted(rs)
  {
    if rs != [] {
      var init, last := rs[..|rs| - 1], rs[|rs| - 1];
      RoundsCounts(url, init);
      RoundCounts(url, last);
      OccurrencesAppend(Get(url), Rounds(url, init), Round(url, last));
      OccurrencesAppend(Close, Rounds(url, init), Round(url, last));
      OccurrencesAppend(Sleep, Rounds(url, init), Round(url, last));
    }
  }

  /** When the loop ends on a response, the last event is the request that
      fetched it (no close and no wait after it), and the waits are those of
      the 202s before it. */
  lemma NoWaitAfterTerminal(url: string, rs: seq<Response>)
    requires FirstTerminal(rs) < |rs|
    ensures var k := FirstTerminal(rs);
      var t := Rounds(url, rs[..k + 1]);
      && |t| > 0 && t[|t| - 1] == Get(url)
      && Occurrences(Get(url), t) == k + 1
      && Occurrences(Sleep, t) == Accepted(rs[..k])
  {
    var k := FirstTerminal(rs);
    assert rs[..k + 1][..k] == rs[..k];
    RoundsCounts(url, rs[..k + 1]);
  }

  /** Three responses 202, 202, 200: three requests, a close and a wait
      after each 202, nothing after the 200. */
  lemma PollScenario(url: string, a: Response, b: Response, c: Response)
    requires a.status == 202 && b.status == 202 && c.status == 200
    ensures FirstTerminal([a, b, c]) == 2
    ensures Rounds(url, [a, b, c]) == [Get(url), Close, Sleep, Get(url), Close, Sleep, Get(url)]
  {
    assert [a, b, c][1..] == [b, c] && [b, c][1..] == [c];
    assert FirstTerminal([c]) == 0;
    assert FirstTerminal([b, c]) == 1;
    assert [a, b, c][..2] == [a, b] && [a, b][..1] == [a] && [a][..0] == [];
    assert Rounds(url, [a]) == [Get(url), Close, Sleep];
    assert Rounds(url, [a, b]) == [Get(url), Close, Sleep, Get(url), Close, Sleep];
  }

  // ---------------------------------------------------------------------
  // Streaming the archive
  // ---------------------------------------------------------------------

  /** `int(response.headers.get("content-length", 0))`. */
  function TotalSize(r: Response): (res: Result<int>)
    ensures r.contentLength.None? ==> res == Ok(0)
    ensures r.contentLength.Some? && ParseInt(r.contentLength.value).Some? ==>
      res == Ok(ParseInt(r.contentLength.value).value)
    ensures res.Err? <==> r.contentLength.Some? && !IsNumeral(r.contentLength.value)
    ensures res.Err? ==> res.error == InvalidContentLength(r.contentLength.value)
  {
    match r.contentLength
    case None => Ok(0)
    case Some(h) =>
      match ParseInt(h)
      case Some(n) => Ok(n)
      case None => Err(InvalidContentLength(h))
  }

  /** A content-length header written by a server that states the size n is
      read back as n. */
  lemma TotalSizeOfHeader(r: Response, n: int)
    requires r.contentLength == Some(ShowInt(n))
    ensures TotalSize(r) == Ok(n)
  {
    ParseShowInt(n);
  }

  /** The chunks concatenated in order. */
  function Concat(cs: seq<Chunk>): seq<Byte> {
    if cs == [] then [] else Concat(cs[..|cs| - 1]) + cs[|cs| - 1]
  }

  /** The sum of the chunk lengths. */
  function TotalLength(cs: seq<Chunk>): nat {
    if cs == [] then 0 else TotalLength(cs[..|cs| - 1]) + |cs[|cs| - 1]|
  }

  lemma {:induction false} ConcatLength(cs: seq<Chunk>)
    ensures |Concat(cs)| == TotalLength(cs)
  {
    if cs != [] {
      ConcatLength(cs[..|cs| - 1]);
    }
  }

  /** The bytes of the first k chunks are a prefix of the whole body. */
  lemma {:induction false} ConcatPrefix(cs: seq<Chunk>, k: nat)
    requires k <= |cs|
    ensures Concat(cs[..k]) <= Concat(cs)
  {
    if k < |cs| {
      var init := cs[..|cs| - 1];
      assert init[..k] == cs[..k];
      ConcatPrefix(init, k);
    } else {
      assert cs[..k] == cs;
    }
  }

  /** A failure of the environment while saving the archive: opening the
      destination raises, reading chunk `at` from the response raises, or
      writing chunk `at` to the file raises. */
  datatype Fault = NoFault | OpenFault | ReadFault(at: nat) | WriteFault(at: nat)

  /** Whether the fault happens inside the loop while streaming `cs` (an
      open fault happens before the loop starts). */
  predicate Strikes(cs: seq<Chunk>, fault: Fault) {
    (fault.ReadFault? || fault.WriteFault?) && fault.at < |cs|
  }

  /** The number of chunks appended to the file. */
  function Written(cs: seq<Chunk>, fault: Fault): (w: nat)
    ensures w <= |cs|
  {
    if Strikes(cs, fault) then fault.at else |cs|
  }

  /** The number of chunks added to the progress counter: a failed write
      comes after the counter has been advanced. */
  function Counted(cs: seq<Chunk>, fault: Fault): (c: nat)
    ensures c <= |cs|
  {
    if Strikes(cs, fault) && fault.WriteFault? then fault.at + 1 else Written(cs, fault)
  }

  function StreamOutcome(cs: seq<Chunk>, fault: Fault): Outcome {
    if !Strikes(cs, fault) then Pass
    else if fault.ReadFault? then Fail(TransportError)
    else Fail(WriteError)
  }

  /** The loop of `download_export`: for each chunk, advance the counter by
      its length, then append it to the open file. */
  method Stream(chunks: seq<Chunk>, fault: Fault, bar: ProgressBar, disk: Disk, path: string)
    returns (outcome: Outcome)
    requires disk.Valid() && path in disk.open
    modifies bar`current, disk
    ensures disk.Valid() && disk.open == old(disk.open)
    ensures disk.files == old(disk.files)[path := old(disk.files[path]) + Concat(chunks[..Written(chunks, fault)])]
    ensures bar.current == old(bar.current) + TotalLength(chunks[..Counted(chunks, fault)])
    ensures outcome == StreamOutcome(chunks, fault)
  {
    var i := 0;
    assert chunks[..0] == [];
    assert old(disk.files[path]) + Concat(chunks[..0]) == disk.files[path];
    assert disk.files[path := disk.files[path]] == disk.files;
    while i < |chunks|
      invariant 0 <= i <= |chunks|
      invariant Strikes(chunks, fault) ==> i <= fault.at
      invariant disk.Valid() && path in disk.open && disk.open == old(disk.open)
      invariant disk.files == old(disk.files)[path := old(disk.files[path]) + Concat(chunks[..i])]
      invariant bar.current == old(bar.current) + TotalLength(chunks[..i])
    {
      assert chunks[..i + 1][..i] == chunks[..i];
      if fault == ReadFault(i) {
        return Fail(TransportError);
      }
      bar.Update(|chunks[i]|);
      if fault == WriteFault(i) {
        return Fail(WriteError);
      }
      ghost var before := old(disk.files[path]) + Concat(chunks[..i]);
      disk.Write(path, chunks[i]);
      assert Concat(chunks[..i + 1]) == Concat(chunks[..i]) + chunks[i];
      assert before + chunks[i] == old(disk.files[path]) + Concat(chunks[..i + 1]);
      i := i + 1;
    }
    assert chunks[..i] == chunks;
    return Pass;
  }

  /** What the counter and the file agree on after streaming: the file holds
      a prefix of the body, and the counter exceeds its length only by the
      chunk whose write failed. Without a fault, the file is the whole body
      and the counter is its length. */
  lemma StreamAccounting(cs: seq<Chunk>, fault: Fault)
    ensures Concat(cs[..Written(cs, fault)]) <= Concat(cs)
    ensures TotalLength(cs[..Counted(cs, fault)]) ==
      |Concat(cs[..Written(cs, fault)])| +
      (if Strikes(cs, fault) && fault.WriteFault? then |cs[fault.at]| else 0)
    ensures !Strikes(cs, fault) ==>
      Concat(cs[..Written(cs, fault)]) == Concat(cs) &&
      TotalLength(cs[..Counted(cs, fault)]) == |Concat(cs)|
  {
    var w := Written(cs, fault);
    ConcatPrefix(cs, w);
    ConcatLength(cs[..w]);
    if Strikes(cs, fault) && fault.WriteFault? {
      assert cs[..w + 1][..w] == cs[..w];
    }
    if !Strikes(cs, fault) {
      assert cs[..w] == cs;
    }
  }

  /** Chunks "AB" and "CD" give the file "ABCD" and a count of 4. */
  lemma StreamExample()
    ensures var cs: seq<Chunk> := [[0x41, 0x42], [0x43, 0x44]];
      Concat(cs) == [0x41, 0x42, 0x43, 0x44] && TotalLength(cs) == 4
  {
    var cs: seq<Chunk> := [[0x41, 0x42], [0x43, 0x44]];
    assert cs[..1] == [[0x41, 0x42]];
    assert cs[..1][..0] == [];
  }

  // ---------------------------------------------------------------------
  // The whole download
  // ---------------------------------------------------------------------

  /** The two nested `with` blocks of `download_export`: a progress bar over
      the expected total, the destination opened for writing, the stream loop,
      then the file and the bar closed whether or not the loop raised. If the
      open itself raises, the file is untouched and only the bar is closed.
      Returns the outcome and the count the bar announced on closing. */
  method SaveArchive(total: int, body: seq<Chunk>, fault: Fault, disk: Disk, path: string)
    returns (outcome: Outcome, announced: int)
    requires disk.Valid() && path !in disk.open
    modifies disk
    ensures disk.Valid() && disk.open == old(disk.open)
    ensures fault.OpenFault? ==>
      disk.files == old(disk.files) && announced == 0 && outcome == Fail(OpenError)
    ensures !fault.OpenFault? ==>
      && disk.files == old(disk.files)[path := Concat(body[..Written(body, fault)])]
      && announced == TotalLength(body[..Counted(body, fault)])
      && outcome == StreamOutcome(body, fault)
    ensures outcome.Pass? ==> disk.files[path] == Concat(body) && announced == |Concat(body)|
  {
    var bar := new ProgressBar(total);
    if fault.OpenFault? {
      bar.Exit();
      return Fail(OpenError), bar.report.value;
    }
    disk.Open(path);
    outcome := Stream(body, fault, bar, disk, path);
    assert [] + Concat(body[..Written(body, fault)]) == Concat(body[..Written(body, fault)]);
    disk.Close(path);
    bar.Exit();
    announced := bar.report.value;
    StreamAccounting(body, fault);
  }

  datatype DownloadStatus = Completed | Raised(error: Error) | StillWaiting

  /** `download_export`: coerce the ids, submit the job, poll it, and stream
      the ready response into `path` inside the progress bar's and the
      file's `with` blocks. Returns how it ended, the HTTP events, and the
      byte count the progress bar announced when it was closed (None if it
      was never created). */
  method DownloadExport(
    endpoint: string, path: string, behaviorIds: seq<Id>, studies: seq<Id>,
    submitted: Response, polls: seq<Response>, fault: Fault, disk: Disk)
    returns (status: DownloadStatus, trace: seq<Event>, report: Option<int>)
    requires disk.Valid() && path !in disk.open
    modifies disk
    ensures disk.Valid() && disk.open == old(disk.open)
    ensures |trace| > 0 && trace[0] == Post(endpoint + ExportsPath, Coerce(behaviorIds), Coerce(studies))
    ensures match Submit(submitted) {
      case Err(e) =>
        status == Raised(e) && trace == [trace[0]] && disk.files == old(disk.files) && report == None
      case Ok(uri) =>
        var k := FirstTerminal(polls);
        var n := if k < |polls| then k + 1 else |polls|;
        && trace == [trace[0]] + Rounds(endpoint + uri, polls[..n])
        && (k == |polls| ==>
              status == StillWaiting && disk.files == old(disk.files) && report == None)
        && (k < |polls| && polls[k].status != 200 ==>
              status == Raised(HttpError(polls[k].status)) && disk.files == old(disk.files) && report == None)
        && (k < |polls| && polls[k].status == 200 ==>
              var body := polls[k].body;
              match TotalSize(polls[k]) {
                case Err(e) =>
                  status == Raised(e) && disk.files == old(disk.files) && report == None
                case Ok(_) =>
                  if fault.OpenFault? then
                    status == Raised(OpenError) && disk.files == old(disk.files) && report == Some(0)
                  else
                  && disk.files == old(disk.files)[path := Concat(body[..Written(body, fault)])]
                  && report == Some(TotalLength(body[..Counted(body, fault)]))
                  && (status == Completed <==> !Strikes(body, fault))
                  && (status != Completed ==> status == Raised(StreamOutcome(body, fault).error))
              })
    }
    ensures status == Completed ==>
      path in disk.files && report == Some(|disk.files[path]|)
  {
    trace := [Post(endpoint + ExportsPath, Coerce(behaviorIds), Coerce(studies))];
    report := None;
    var job := Submit(submitted);
    if job.Err? {
      return Raised(job.error), trace, report;
    }
    var outcome, requests, polled := Poll(endpoint, job.value, polls);
    trace := trace + polled;
    match outcome
    case StillPolling =>
      status := StillWaiting;
    case PollFailed(e) =>
      status := Raised(e);
    case Ready(response) =>
      var size := TotalSize(response);
      if size.Err? {
        return Raised(size.error), trace, report;
      }
      var streamed, announced := SaveArchive(size.value, response.body, fault, disk, path);
      report := Some(announced);
      status := if streamed.Pass? then Completed else Raised(streamed.error);
  }
}
