/** The decision logic of the HTTP clients: how a libcurl result code is
    classified, the two-flag cancellation protocol of the curl client, how a
    curl transfer turns into a body or an exception, and the WinINet
    client's cancel check, status switch and read loop. The network calls
    themselves are parameters: what libcurl and WinINet answered. */
module HttpRequest {
  import opened Wrappers
  import opened CInt

  type byte = b: int | 0 <= b < 256

  /** The kinds of the C++ InternetException. InternetOpenError is thrown only
      by the WinINet constructor, whose failures are not modelled, and
      FailedToCloseInternetHandle only when closing a handle fails, which is
      not modelled either: no member produces these two. */
  datatype ErrorType =
    | InternetOpenError
    | FailedToConnect
    | RequestCancelled
    | HttpOpenRequestError
    | HttpQueryInfoError
    | HttpResponseError
    | InternetReadFileError
    | HttpSendRequestExError
    | HttpEndRequestError
    | FailedToCloseInternetHandle
    | CurlError
    | OperationTimedOut

  /** An exception kind with the numeric code it carries, when one is given. */
  datatype InternetException = InternetException(kind: ErrorType, code: Option<int>)

  // ---------------------------------------------------------------------
  // Classification of a libcurl result code.
  // ---------------------------------------------------------------------

  /** None when the call is taken to have succeeded, otherwise the exception
      thrown. The cases follow libcurl's numbering of CURLcode. */
  function HandleCurlResult(res: uint32): (r: Option<InternetException>)
    ensures r.None? <==> res == 0 || res == 52
    ensures r.Some? ==> r.value.code == Some(res)
    ensures r.Some? ==> (r.value.kind == FailedToConnect <==> res == 7)
    ensures r.Some? ==> (r.value.kind == OperationTimedOut <==> 8 <= res <= 28)
    ensures r.Some? ==> (r.value.kind == RequestCancelled <==> res == 42)
    ensures r.Some? ==> (r.value.kind == CurlError <==> !(res == 7 || 8 <= res <= 28 || res == 42))
  {
    match res
    case 0 => None
    case 1 | 2 | 3 | 5 | 6 => Some(InternetException(CurlError, Some(res)))
    case 7 => Some(InternetException(FailedToConnect, Some(res)))
    case 8 | 9 | 10 | 11 | 12 | 13 | 14 | 15 | 16 | 17 | 18 | 19 | 20
       | 21 | 22 | 23 | 24 | 25 | 26 | 27 | 28 =>
      Some(InternetException(OperationTimedOut, Some(res)))
    case 29 | 30 | 31 | 32 | 33 | 34 | 35 | 36 | 37 | 38 | 39 | 40 | 41 =>
      Some(InternetException(CurlError, Some(res)))
    case 42 => Some(InternetException(RequestCancelled, Some(res)))
    case 43 | 44 | 45 | 46 | 47 | 48 | 49 | 50 | 51 =>
      Some(InternetException(CurlError, Some(res)))
    case 52 => None
    case _ => Some(InternetException(CurlError, Some(res)))
  }

  /** The outcome of a run of curl_easy_setopt calls, each passed through
      HandleCurlResult: the first one that throws ends the run. */
  function SetupFailure(codes: seq<uint32>): (r: Option<InternetException>)
    ensures r.None? <==> forall k :: 0 <= k < |codes| ==> HandleCurlResult(codes[k]).None?
    ensures r.Some? ==> exists k :: 0 <= k < |codes| && r == HandleCurlResult(codes[k]) &&
                                    forall j :: 0 <= j < k ==> HandleCurlResult(codes[j]).None?
  {
    if codes == [] then None
    else if HandleCurlResult(codes[0]).Some? then HandleCurlResult(codes[0])
    else
      var r := SetupFailure(codes[1..]);
      assert forall k :: 1 <= k < |codes| ==> codes[k] == codes[1..][k - 1];
      r
  }

  // ---------------------------------------------------------------------
  // What libcurl does during curl_easy_perform, as far as this client sees
  // it: calls of the write callback and of the progress callback, and
  // cancel() calls arriving from another thread between them.
  // ---------------------------------------------------------------------

  datatype CurlEvent =
    | Write(data: seq<byte>, size: nat, nmemb: nat)
    | ProgressTick
    | CancelRequested

  /** libcurl hands the write callback size * nmemb bytes, and the product
      fits the callback's `int`. */
  predicate WriteFits(e: CurlEvent)
  {
    e.Write? ==> e.size * e.nmemb <= |e.data| && e.size * e.nmemb <= IntMax
  }

  predicate AllWritesFit(ev: seq<CurlEvent>)
  {
    forall k :: 0 <= k < |ev| ==> WriteFits(ev[k])
  }

  /** The bytes one event hands to the write callback. */
  function Chunk(e: CurlEvent): seq<byte>
    requires WriteFits(e)
  {
    if e.Write? then e.data[..e.size * e.nmemb] else []
  }

  /** All bytes handed to the write callback, in arrival order. */
  function Chunks(ev: seq<CurlEvent>): seq<byte>
    requires AllWritesFit(ev)
  {
    if ev == [] then [] else Chunks(ev[..|ev| - 1]) + Chunk(ev[|ev| - 1])
  }

  /** The body is the in-order concatenation of the two parts' bodies. */
  lemma {:induction false} ChunksConcat(a: seq<CurlEvent>, b: seq<CurlEvent>)
    requires AllWritesFit(a) && AllWritesFit(b)
    ensures AllWritesFit(a + b)
    ensures Chunks(a + b) == Chunks(a) + Chunks(b)
    decreases |b|
  {
    assert forall k :: 0 <= k < |a + b| ==> (a + b)[k] == if k < |a| then a[k] else b[k - |a|];
    if b == [] {
      assert a + b == a;
    } else {
      var init := b[..|b| - 1];
      assert (a + b)[..|a + b| - 1] == a + init;
      ChunksConcat(a, init);
    }
  }

  /** The value of `_cancel` after the events, starting from c0: a cancel()
      sets it and a progress call consumes it. */
  function CancelAfter(c0: bool, ev: seq<CurlEvent>): bool
  {
    if ev == [] then c0
    else match ev[|ev| - 1]
      case CancelRequested => true
      case ProgressTick => false
      case Write(_, _, _) => CancelAfter(c0, ev[..|ev| - 1])
  }

  /** The value of `_canceled` after the events, starting from c0 and d0: a
      progress call that finds `_cancel` set sets it. */
  function CanceledAfter(c0: bool, d0: bool, ev: seq<CurlEvent>): bool
  {
    if ev == [] then d0
    else match ev[|ev| - 1]
      case ProgressTick => CanceledAfter(c0, d0, ev[..|ev| - 1]) || CancelAfter(c0, ev[..|ev| - 1])
      case _ => CanceledAfter(c0, d0, ev[..|ev| - 1])
  }

  /** `_canceled` ends up set exactly when it was set already or some
      progress call found a cancel pending. */
  lemma {:induction false} CanceledAfterDelivered(c0: bool, d0: bool, ev: seq<CurlEvent>)
    ensures CanceledAfter(c0, d0, ev) <==>
              d0 || exists i :: 0 <= i < |ev| && ev[i] == ProgressTick && CancelAfter(c0, ev[..i])
  {
    if ev != [] {
      var init := ev[..|ev| - 1];
      CanceledAfterDelivered(c0, d0, init);
      assert forall i :: 0 <= i < |init| ==> init[i] == ev[i] && init[..i] == ev[..i];
      if CanceledAfter(c0, d0, ev) && !d0 {
        if CanceledAfter(c0, d0, init) {
          var i :| 0 <= i < |init| && init[i] == ProgressTick && CancelAfter(c0, init[..i]);
          assert ev[i] == ProgressTick && CancelAfter(c0, ev[..i]);
        } else {
          assert ev[|ev| - 1] == ProgressTick && CancelAfter(c0, ev[..|ev| - 1]);
        }
      }
      if !d0 && exists i :: 0 <= i < |ev| && ev[i] == ProgressTick && CancelAfter(c0, ev[..i]) {
        var i :| 0 <= i < |ev| && ev[i] == ProgressTick && CancelAfter(c0, ev[..i]);
        if i < |init| {
          assert init[i] == ProgressTick && CancelAfter(c0, init[..i]);
        }
      }
    }
  }

  /** `_canceled` is never cleared during a transfer: only unCancel() clears it. */
  lemma {:induction false} CanceledIsSticky(c0: bool, ev: seq<CurlEvent>)
    ensures CanceledAfter(c0, true, ev)
  {
    if ev != [] {
      CanceledIsSticky(c0, ev[..|ev| - 1]);
    }
  }

  /** Without a progress call neither flag can be consumed or set by the
      client itself: `_canceled` keeps its value. */
  lemma {:induction false} NoProgressNoCanceled(c0: bool, d0: bool, ev: seq<CurlEvent>)
    requires forall k :: 0 <= k < |ev| ==> ev[k] != ProgressTick
    ensures CanceledAfter(c0, d0, ev) == d0
  {
    if ev != [] {
      NoProgressNoCanceled(c0, d0, ev[..|ev| - 1]);
    }
  }

  /** The tail of get and post once curl_easy_perform has returned: its
      result code first, then the cancelled flag, then the response code. */
  function TransferOutcome(performCode: uint32, canceled: bool, responseCode: int, body: seq<byte>)
    : (r: Result<seq<byte>, InternetException>)
    ensures HandleCurlResult(performCode).Some? ==> r == Failure(HandleCurlResult(performCode).value)
    ensures HandleCurlResult(performCode).None? && canceled ==>
              r == Failure(InternetException(RequestCancelled, Some(-1)))
    ensures HandleCurlResult(performCode).None? && !canceled && responseCode != 200 && responseCode != 0 ==>
              r == Failure(InternetException(HttpResponseError, Some(responseCode)))
    ensures r.Success? <==>
              HandleCurlResult(performCode).None? && !canceled && (responseCode == 200 || responseCode == 0)
    ensures r.Success? ==> r.value == body
  {
    var perform := HandleCurlResult(performCode);
    if perform.Some? then Failure(perform.value)
    else if canceled then Failure(InternetException(RequestCancelled, Some(-1)))
    else if responseCode != 200 && responseCode != 0 then
      Failure(InternetException(HttpResponseError, Some(responseCode)))
    else Success(body)
  }

  /** Once a transfer has been cancelled, every later transfer whose curl
      calls succeed fails as cancelled, whatever the server answered, until
      unCancel() is called. */
  lemma CanceledFailsLaterTransfers(c0: bool, ev: seq<CurlEvent>, performCode: uint32, responseCode: int)
    requires AllWritesFit(ev)
    requires HandleCurlResult(performCode).None?
    ensures TransferOutcome(performCode, CanceledAfter(c0, true, ev), responseCode, Chunks(ev))
         == Failure(InternetException(RequestCancelled, Some(-1)))
  {
    CanceledIsSticky(c0, ev);
  }

  // ---------------------------------------------------------------------
  // The response buffer and the write callback.
  // ---------------------------------------------------------------------

  class ResponseString {
    var str: seq<byte>

    constructor ()
      ensures str == []
    {
      str := [];
    }

    method Append(s: seq<byte>, size: nat)
      requires size <= |s|
      modifies this
      ensures str == old(str) + s[..size]
    {
      str := str + s[..size];
    }
  }

  /** The write callback: appends size * nmemb bytes and reports them all as
      taken. */
  method ResponseCallback(data: seq<byte>, size: nat, nmemb: nat, rs: ResponseString) returns (n: int)
    requires size * nmemb <= |data| && size * nmemb <= IntMax
    modifies rs
    ensures n == size * nmemb
    ensures rs.str == old(rs.str) + data[..n]
  {
    n := size * nmemb;
    rs.Append(data, n);
  }

  // ---------------------------------------------------------------------
  // The curl client.
  // ---------------------------------------------------------------------

  class CurlHTTPRequest {
    /** A cancel has been asked for and not yet seen by a progress call. */
    var cancel: bool
    /** A progress call has aborted a transfer; sticky until UnCancel. */
    var canceled: bool

    constructor ()
      ensures !cancel && !canceled
    {
      cancel, canceled := false, false;
    }

    method Cancel()
      modifies this
      ensures cancel && canceled == old(canceled)
    {
      cancel := true;
    }

    method UnCancel()
      modifies this
      ensures !cancel && !canceled
    {
      cancel := false;
      canceled := false;
    }

    /** The progress callback: 1 (abort the transfer) exactly when a cancel
        is pending, which it then turns into `canceled`. */
    method Progress() returns (r: int)
      modifies this
      ensures old(cancel) ==> r == 1 && !cancel && canceled
      ensures !old(cancel) ==> r == 0 && !cancel && canceled == old(canceled)
    {
      if cancel {
        cancel := false;
        canceled := true;
        r := 1;
      } else {
        r := 0;
      }
    }

    /** get and post from their curl_easy_setopt calls on: `setup` holds
        the results of those calls, `events` what happens while the
        transfer runs, `performCode` the result of curl_easy_perform and
        `responseCode` what curl_easy_getinfo reports. */
    method Request(setup: seq<uint32>, events: seq<CurlEvent>, performCode: uint32, responseCode: int)
      returns (r: Result<seq<byte>, InternetException>)
      requires AllWritesFit(events)
      modifies this
      ensures SetupFailure(setup).Some? ==>
                r == Failure(SetupFailure(setup).value) && cancel == old(cancel) && canceled == old(canceled)
      ensures SetupFailure(setup).None? ==>
                && cancel == CancelAfter(old(cancel), events)
                && canceled == CanceledAfter(old(cancel), old(canceled), events)
                && r == TransferOutcome(performCode, canceled, responseCode, Chunks(events))
    {
      var failed := SetupFailure(setup);
      if failed.Some? {
        return Failure(failed.value);
      }
      var rs := new ResponseString();
      var i := 0;
      while i < |events|
        invariant 0 <= i <= |events|
        invariant rs.str == Chunks(events[..i])
        invariant cancel == CancelAfter(old(cancel), events[..i])
        invariant canceled == CanceledAfter(old(cancel), old(canceled), events[..i])
      {
        var e := events[i];
        assert events[..i + 1][..i] == events[..i];
        assert WriteFits(e);
        match e {
          case Write(data, size, nmemb) =>
            var _ := ResponseCallback(data, size, nmemb, rs);
          case ProgressTick =>
            var _ := Progress();
          case CancelRequested =>
            Cancel();
        }
        i := i + 1;
      }
      assert events[..i] == events;
      return TransferOutcome(performCode, canceled, responseCode, rs.str);
    }
  }

  /** A client: the progress call that sees a cancel aborts the transfer
      (libcurl then reports code 42), and the `canceled` flag it leaves
      fails the next transfer as well, until UnCancel. */
  method CancelThenRetry()
  {
    var req := new CurlHTTPRequest();
    var chunk: seq<byte> := [104, 105];
    var first := req.Request([0, 0], [Write(chunk, 1, 2), CancelRequested, ProgressTick], 42, 0);
    assert first == Failure(InternetException(RequestCancelled, Some(42)));
    var second := req.Request([0], [Write(chunk, 2, 1)], 0, 200);
    assert second == Failure(InternetException(RequestCancelled, Some(-1)));
    req.UnCancel();
    var third := req.Request([0], [Write(chunk, 2, 1)], 52, 200);
    assert [Write(chunk, 2, 1)][..0] == [];
    assert Chunks([Write(chunk, 2, 1)]) == chunk[..2] == chunk;
    assert third == Success(chunk);
  }

  // ---------------------------------------------------------------------
  // The WinINet client.
  // ---------------------------------------------------------------------

  /** The characters of a read buffer up to its first NUL, as appending a
      NUL-terminated buffer to a string takes them. */
  function UpToNul(s: seq<char>): (r: seq<char>)
    ensures |r| <= |s| && r == s[..|r|]
    ensures '\0' !in r
    ensures |r| < |s| ==> s[|r|] == '\0'
  {
    if s == [] || s[0] == '\0' then [] else [s[0]] + UpToNul(s[1..])
  }

  /** Everything appended to the response for these reads, in order. */
  function Received(chunks: seq<seq<char>>): string
  {
    if chunks == [] then [] else Received(chunks[..|chunks| - 1]) + UpToNul(chunks[|chunks| - 1])
  }

  /** The reads the loop performs: up to and including the first that
      returns no bytes. */
  function FirstEmpty(chunks: seq<seq<char>>): (k: nat)
    ensures k <= |chunks|
    ensures k < |chunks| ==> chunks[k] == []
    ensures forall j :: 0 <= j < k ==> chunks[j] != []
  {
    if chunks == [] then 0
    else if chunks[0] == [] then 0
    else
      var k := FirstEmpty(chunks[1..]);
      assert forall j :: 1 <= j < |chunks| ==> chunks[j] == chunks[1..][j - 1];
      k + 1
  }

  /** How the read after the given chunks ends: with zero bytes, or failing. */
  datatype ReadEnd = EndOfData | ReadFailure

  /** What WinINet answers to a GET: one of the calls before the reads
      fails, or a status code with the successive reads (`chunks`, each the
      characters one InternetReadFile call delivered) and how the read after
      them ends. */
  datatype WinInetReply =
    | OpenRequestFailed
    | SendRequestFailed
    | EndRequestFailed
    | QueryInfoFailed
    | Replied(status: uint32, chunks: seq<seq<char>>, end: ReadEnd)

  class CHTTPRequest {
    var cancelling: bool
    var response: string

    constructor ()
      ensures !cancelling && response == []
    {
      cancelling := false;
      response := [];
    }

    method Get(reply: WinInetReply) returns (r: Result<string, InternetException>)
      modifies this
      ensures old(cancelling) ==>
                !cancelling && response == old(response) &&
                r == Failure(InternetException(RequestCancelled, None))
      ensures !old(cancelling) ==> !cancelling
      ensures !old(cancelling) && reply.OpenRequestFailed? ==>
                response == [] && r == Failure(InternetException(HttpOpenRequestError, None))
      ensures !old(cancelling) && reply.SendRequestFailed? ==>
                response == [] && r == Failure(InternetException(HttpSendRequestExError, None))
      ensures !old(cancelling) && reply.EndRequestFailed? ==>
                response == [] && r == Failure(InternetException(HttpEndRequestError, None))
      ensures !old(cancelling) && reply.QueryInfoFailed? ==>
                response == [] && r == Failure(InternetException(HttpQueryInfoError, None))
      ensures !old(cancelling) && reply.Replied? && (reply.status == 400 || reply.status == 404) ==>
                response == [] && r == Failure(InternetException(HttpResponseError, Some(reply.status)))
      ensures !old(cancelling) && reply.Replied? && reply.status != 400 && reply.status != 404 ==>
                var k := FirstEmpty(reply.chunks);
                && response == Received(reply.chunks[..k])
                && (if k == |reply.chunks| && reply.end == ReadFailure
                    then r == Failure(InternetException(InternetReadFileError, None))
                    else r == Success(response))
    {
      if cancelling {
        cancelling := false;
        return Failure(InternetException(RequestCancelled, None));
      }
      response := [];
      match reply
      case OpenRequestFailed =>
        return Failure(InternetException(HttpOpenRequestError, None));
      case SendRequestFailed =>
        return Failure(InternetException(HttpSendRequestExError, None));
      case EndRequestFailed =>
        return Failure(InternetException(HttpEndRequestError, None));
      case QueryInfoFailed =>
        return Failure(InternetException(HttpQueryInfoError, None));
      case Replied(status, chunks, end) =>
        if status == 400 || status == 404 {
          return Failure(InternetException(HttpResponseError, Some(status)));
        }
        ghost var k := FirstEmpty(chunks);
        var i := 0;
        while true
          invariant 0 <= i <= k
          invariant !cancelling
          invariant response == Received(chunks[..i])
          decreases |chunks| - i
        {
          if i == |chunks| {
            assert k == i;
            if end == ReadFailure {
              return Failure(InternetException(InternetReadFileError, None));
            }
            return Success(response);
          }
          var data := chunks[i];
          assert chunks[..i + 1][..i] == chunks[..i];
          response := response + UpToNul(data);
          if data == [] {
            assert k == i;
            assert Received(chunks[..i + 1]) == Received(chunks[..i]);
            return Success(response);
          }
          i := i + 1;
        }
    }
  }
}
