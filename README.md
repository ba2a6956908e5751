# obplatform export workflow in Dafny

This project models the export-job workflow of the `obplatform` client for
the ASHRAE occupant-behavior database (`obplatform/connector.py`). A caller
asks for an archive of some behaviors from some studies. The client coerces
the behavior and study ids to strings and submits an export job. It then
polls the job's URI until the server reports the archive is ready, and
streams the archive into a file while a progress bar counts the bytes.

The server is abstract. A response is a status code, the raw `location` and
`content-length` header values (each may be absent), and a body given as a
sequence of byte chunks. The answer to the submit request is a parameter.
The answers to the successive poll requests are a finite sequence. When that
sequence holds no response that ends the loop, the poll stops with
`StillPolling`: the real client would keep polling.

Modules:

- `Http` (`http.dfy`): responses, errors, the events a run produces
  (`Post`, `Get`, `Close`, `Sleep`), and `raise_for_status`.
- `Numerals` (`numerals.dfy`): Python's `str` on integers and `int` on header
  strings, with the round trip between them.
- `Progress` (`progress.dfy`): class `ProgressBar`, a byte counter updated
  in place.
- `Files` (`files.dfy`): class `Disk`, the destination files by path and the
  set of open paths. The download appends to the open file in place.
- `Connector` (`connector.dfy`): id coercion, submit, the poll loop, the
  stream loop and the whole `download_export`.

The poll and stream loops are methods with loop invariants. Each is proved
against specification functions (`FirstTerminal` and `Rounds` for the poll;
`Concat`, `TotalLength`, `Written` and `Counted` for the stream). The
properties of those functions are proved as lemmas.

Two behaviours of the code are worth noting:

- A poll response that is neither 202, 200 nor an error (for example 204 or
  302) is not rejected. The loop requests again at once, without closing the
  response and without waiting.
- A submit response without a `location` header raises a `KeyError`. It is
  modelled as the error `MissingLocation`.

## Model

| member | source | states |
|---|---|---|
| `Http.RaiseForStatus` | obplatform/connector.py:47 | fails exactly for statuses 400-599, carrying that status; every other status passes |
| `Numerals.ShowInt` | obplatform/connector.py:80-83 | `str(n)` gives a canonical numeral: digits only, or a minus sign then digits; no `+` sign, no leading zero and no `-0`. It starts with a minus sign exactly when n is negative |
| `Numerals.ShowNatDigitsValue` | obplatform/connector.py:80-83 | a nonempty digit string without a leading zero is exactly the numeral `str` writes for its value |
| `Numerals.CanonicalUnique` | obplatform/connector.py:80-83 | a canonical numeral that reads as n is exactly `str(n)`, so `str(n)` is the only canonical spelling of n |
| `Numerals.ParseShowInt` | obplatform/connector.py:80-87 | reading back what `str(n)` wrote gives n, for every integer n |
| `Numerals.ShowIntInjective` | obplatform/connector.py:80-83 | two integers with the same string form are equal |
| `Numerals.ParseInt` | obplatform/connector.py:87 | `int(s)` succeeds exactly on a numeral (an optional `+` or `-` followed by at least one ASCII digit), giving its signed decimal value; any other string is rejected |
| `Connector.Str` | obplatform/connector.py:80-83 | a string id is kept as it is; an integer id becomes a canonical numeral that parses back to that integer, which by `CanonicalUnique` is exactly `str(n)`; a bool becomes `"True"` or `"False"`, which is not a numeral |
| `Connector.Coerce` | obplatform/connector.py:80-83 | the coerced list has the same length and order, and element i is the string form of input element i |
| `Connector.CoerceKeepsIntegers` | obplatform/connector.py:80-83 | two integer ids get equal strings if and only if they are equal |
| `Connector.CoerceExample` | obplatform/connector.py:80-83 | ids `[22, "11", 2]` become `["22", "11", "2"]` |
| `Connector.Submit` | obplatform/connector.py:35-49 | succeeds if and only if the status is not 4xx/5xx and a location header is present, and then returns exactly that header; a 4xx/5xx fails with its status; a missing header fails with `MissingLocation` |
| `Connector.FirstTerminal` | obplatform/connector.py:57-67 | gives the least index whose status is 200 or 4xx/5xx, or the length when there is none |
| `Connector.Poll` | obplatform/connector.py:51-67 | the loop stops at the first 200 or 4xx/5xx response. It returns that 200 response, or fails with that error status, after exactly index+1 requests; later responses are never requested. With no such response, it requests every response. By the contract of `FirstTerminal`, no status before the one it stops at is 200 or an error. The events are those of `Rounds` on the requested prefix |
| `Connector.RoundsCounts` | obplatform/connector.py:57-65 | polling n responses issues n requests, and closes and waits exactly once per 202 among them |
| `Connector.NoWaitAfterTerminal` | obplatform/connector.py:60-67 | when the loop stops at index k, the last event is the request for response k (no close or wait after it); there were k+1 requests, and the waits equal the 202s before k |
| `Connector.PollScenario` | obplatform/connector.py:57-67 | responses 202, 202, 200 stop at index 2, and the events are request, close, wait, request, close, wait, request |
| `Connector.TotalSize` | obplatform/connector.py:87 | the total is 0 when the content-length header is absent, the header's integer value when it parses, and a failure naming the header exactly when the header is present but not a numeral |
| `Connector.TotalSizeOfHeader` | obplatform/connector.py:87 | a header holding the numeral of n gives a total of n |
| `Connector.ConcatLength` | obplatform/connector.py:92-95 | the length of the concatenated chunks is the sum of the chunk lengths |
| `Connector.ConcatPrefix` | obplatform/connector.py:92-95 | the bytes of the first k chunks are a prefix of the whole body |
| `Connector.Stream` | obplatform/connector.py:91-95 | the file receives the concatenation of the chunks it wrote, in order, after its old contents. The counter grows by the sum of the chunk lengths it counted. The outcome fails exactly when a read or write fault strikes a chunk. The set of open files is unchanged |
| `Connector.StreamAccounting` | obplatform/connector.py:93-95 | the file holds a prefix of the body. The counter exceeds the file length only by the chunk whose write failed. Without a fault, the file is the whole body and the counter equals its length |
| `Connector.StreamExample` | obplatform/connector.py:92-95 | chunks "AB" and "CD" give "ABCD" and a count of 4 |
| `Connector.SaveArchive` | obplatform/connector.py:91-95 | inside the two `with` blocks the file is truncated and then receives the streamed prefix of the body. The file is closed and the bar announces the counted bytes whether or not the loop raised. If opening the file raises, the files are unchanged, the bar still closes announcing 0 bytes, and the outcome is a failure. Without a fault, the file is the whole body and the announced count is its length |
| `Connector.DownloadExport` | obplatform/connector.py:69-95 | the first event posts the coerced ids. A failed submit, a failed or unfinished poll, or a malformed content-length leaves the files unchanged and creates no progress bar. Otherwise the bar is created. If opening the file raises, the files are unchanged and the bar reports 0. If not, the file holds the streamed prefix and the bar is closed, reporting the counted bytes. On completion the reported count equals the file length. The file is closed on every path |
| `Progress.ProgressBar.constructor` | obplatform/connector.py:103-105 | the total is as given, the counter starts at 0, and the bar is not yet closed |
| `Progress.ProgressBar.Update` | obplatform/connector.py:122-123 | the counter grows by exactly n; the total is a constant and never changes |
| `Progress.ProgressBar.Close` | obplatform/connector.py:128-131 | the bar reports the current byte count |
| `Progress.ProgressBar.Exit` | obplatform/connector.py:136-137 | leaving the `with` block closes the bar and reports the current count |
| `Files.Disk.Open` | obplatform/connector.py:92 | opening in "wb" mode truncates the file to empty and marks it open |
| `Files.Disk.Write` | obplatform/connector.py:95 | a write appends the data to the open file and changes no other file |
| `Files.Disk.Close` | obplatform/connector.py:92 | leaving the `with open` block closes the file without changing any contents |

## Left out

- The HTTP session, `stream=True`, redirects and transport errors while sending a request. Requests are recorded as `Post`/`Get` events carrying their URL; the server is the scripted responses.
- `iter_content` and its `chunk_size` argument: the body is given as its chunks, so how the library cuts the body into chunks is not modelled.
- `time.sleep(1)` is the `Sleep` event; the passage of time is not modelled.
- The unbounded `while True` loop: the model sees only a finite number of responses and reports `StillPolling` when none of them ends the loop.
- tqdm (`use_tqdm`, the `find_spec` lookup and the meter's update and close): an optional display that never changes the byte counter. `ProgressBar` therefore has no `use_tqdm` parameter.
- `ProgressBar.__enter__`, which only returns the bar itself.
- All logging, including the log lines that `ProgressBar.__init__` and `close` write: `Close` records the reported count in the field `report` instead.
- `list_behaviors`: a single request whose JSON is passed through unchanged.
- The `__main__` demonstration block.
- Faults of the environment are an input (`Fault`): an open fault stands for an exception from `open(filename, "wb")`, a read fault for one from the body stream, a write fault for one from `f.write`. A write fault is taken to write nothing of its chunk (partial writes are not modelled).
- Numerals.ParseInt: accepts an optional sign followed by ASCII digits. Python's `int` also strips surrounding whitespace and accepts underscores between digits and non-ASCII digits; such headers are treated as malformed here.
- Identifiers other than `int`, `bool` and `str`: the annotation `List[int | str]` also admits other subclasses of `int` (such as enum members), whose `str` may differ from the decimal numeral; only `bool` is modelled among them.
- Numerals.ShowInt: converts integers of any size. Python 3.11 and later, and the security releases 3.7.14, 3.8.14, 3.9.14 and 3.10.7, raise ValueError in `str(n)` when n has more than `sys.int_max_str_digits` (by default 4300) digits.
- Numerals.ParseInt: converts numerals of any length. The same Python releases raise ValueError in `int(s)` when s has more than `sys.int_max_str_digits` digits.
