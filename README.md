# Plugin registry core, object counter and HTTP request logic, in Dafny

This project models three parts of a plugin-discovery and configuration
registry and proves properties about them.

- **Plugin identity and exploration** (`plugin.dfy`, module `Plugin`).
  - The identity values every plugin carries: `UniqueId`, `Info`, `Version` and `PluginInfo`.
  - `PluginTreeException`: the append-only list of duplicate-id `Info`s, and the text of its message.
  - `PluginExplorer`: walks a list of plugin roots in order into one shared duplicates list. It throws once at the end, and only when that list is not empty.
  - The per-root traversal has no body in the C++ header, so the model does not describe it. Its effect on the list is a function supplied when the explorer is built. That function sees everything explored before the call.
- **Debug object counter** (`objcounter.dfy`, module `ObjCounter`).
  - `Counter` keeps a per-type count of live objects and hands out increasing indexes that are never reused.
  - Its destructor checks that there is one live index per live object. It reports a leak exactly when objects are still live, listing at most twenty indexes, smallest first.
  - The C++ `Counter` keeps the live indexes in an ordered set. The model keeps them as a strictly increasing sequence, which is that set in the order the C++ code iterates it.
- **HTTP request decisions** (`httprequest.dfy`, module `HttpRequest`).
  - How a libcurl result code is classified.
  - The curl client's two-flag cancellation protocol (`_cancel`, `_canceled`).
  - How a curl transfer ends in a body or an exception: setup calls first, then the perform code, then the cancelled flag, then the response code.
  - The write callback, which accumulates the body in arrival order.
  - The WinINet client's `get`: its entry cancel check, status switch and read loop.
  - What libcurl and WinINet answer is a parameter:
    - for curl, the results of the setup calls, the sequence of callback events during the transfer, the perform code and the response code;
    - for WinINet, a reply datatype.

`wrappers.dfy` holds `Option` and `Result`. A `Failure(e)` stands for "throws `e`".
`cint.dfy` holds the C++ integer widths the model needs: `uint32` and the largest `int`.

## Model

| member | source | states |
|---|---|---|
| Plugin.CopyPluginInfo | src/include/plugin.h:55-56 | the copy keeps both the Info part and the version of the source PluginInfo |
| Plugin.PluginInfoOf | src/include/plugin.h:67 | building from a bare Info keeps that Info and takes the product's current version |
| Plugin.DefaultHasWindow | src/include/plugin.h:255 | by default no configuration offers its own window, for every id |
| Plugin.PluginTreeException.constructor | src/include/plugin.h:267 | a new exception holds no duplicates |
| Plugin.PluginTreeException.FromInfo | src/include/plugin.h:268 | the one-Info constructor holds exactly that Info |
| Plugin.PluginTreeException.FromList | src/include/plugin.h:269-271 | the list constructor holds exactly the given list, in order |
| Plugin.PluginTreeException.Add | src/include/plugin.h:273-274 | add appends at the end and changes nothing else: no merging, no deduplication |
| Plugin.PluginTreeException.Empty | src/include/plugin.h:277 | empty() holds exactly when the list has no entries |
| Plugin.PluginTreeException.Message | src/include/plugin.h:278-289 | the message is the header line followed by one "id, name: name" line per duplicate, in list order |
| Plugin.LinesConcat | src/include/plugin.h:283-285 | the lines of a concatenated list are the lines of the first part followed by those of the second |
| Plugin.LinesSnoc | src/include/plugin.h:273-285 | adding a duplicate appends exactly its line to the message |
| Plugin.LinesCons | src/include/plugin.h:283-285 | the first duplicate's line comes first in the message |
| Plugin.LinesLineCount | src/include/plugin.h:283-285 | when no id or name contains a line break, the entry lines hold exactly one line break per duplicate |
| Plugin.MessageLineCount | src/include/plugin.h:278-289 | when no id or name contains a line break, the message has the header's line breaks plus exactly one per duplicate |
| Plugin.CallsConcat | src/include/plugin.h:320-322 | the per-root calls for a concatenated path list are those of the first part followed by those of the second |
| Plugin.AccumulatedConcat | src/include/plugin.h:319-322 | exploring two path lists back to back collects the first list's duplicates, then the second's, with the second list seeing the first as history |
| Plugin.ExploreConcat | src/include/plugin.h:316-325 | exploring the paths a + b in one call collects what exploring a collects, then what exploring b collects once a has been explored |
| Plugin.AccumulatedSnoc | src/include/plugin.h:321-322 | one more path appends exactly what that per-root call finds, at the end |
| Plugin.AccumulatedNonEmpty | src/include/plugin.h:319-324 | the collected list is non-empty if and only if some per-root call found a duplicate |
| Plugin.PluginExplorer.constructor | src/include/plugin.h:304-307 | a new explorer has explored nothing and uses the given per-root effect |
| Plugin.PluginExplorer.ExploreRoot | src/include/plugin.h:338-341 | one per-root call records that call and appends what it finds to the shared list |
| Plugin.PluginExplorer.Explore | src/include/plugin.h:316-325 | every path is explored once, in order, into one shared list; the exception is raised if and only if the list is non-empty, and it carries exactly that list |
| Plugin.PluginExplorer.ExploreOne | src/include/plugin.h:327-334 | the single-path explore is the multi-path one on a one-element list: one per-root call, raising exactly when it found duplicates |
| ObjCounter.NatDecimalRoundTrip | src/include/objcounter.h:106 | the decimal text of a natural number is all digits and reads back as that number |
| ObjCounter.DecimalRoundTrip | src/include/objcounter.h:106 | the decimal text of an int, sign included, reads back as that int, so distinct indexes never print alike |
| ObjCounter.RemoveAtSorted | src/include/objcounter.h:92 | erasing one element of the ordered index set leaves it ordered, one shorter, holding exactly the other elements |
| ObjCounter.RenderedInjective | src/include/objcounter.h:104-106 | two lists of indexes render to the same decimal texts only when they are the same list |
| ObjCounter.JoinedCons | src/include/objcounter.h:104-106 | the loop's "separator before every entry but the first" is the usual ", " join read from the front |
| ObjCounter.LeakedListCapped | src/include/objcounter.h:100-108 | entries beyond the twentieth never change the leak list |
| ObjCounter.LeakedListBelowCap | src/include/objcounter.h:104-108 | with fewer than twenty entries every entry is listed and no ", ..." is added |
| ObjCounter.Counter.constructor | src/include/objcounter.h:44 | a new counter has count, total and max zero, no live index and no name |
| ObjCounter.Counter.SetName | src/include/objcounter.h:39-41 | the first non-empty name sticks; once a name is set, later names are ignored |
| ObjCounter.Counter.Inc | src/include/objcounter.h:63-80 | total and count go up by one; the new index is the new total and max, exceeds every earlier index, so never collides with a live one, and is added to the live set; the invariant is kept |
| ObjCounter.Counter.RemoveIndex | src/include/objcounter.h:82-97 | count goes down by one and exactly the given index leaves the live set, erased at its position so the others keep their order; total, max and name are unchanged and the invariant is kept |
| ObjCounter.Counter.LeakedIxsAsString | src/include/objcounter.h:100-111 | the text lists the first twenty live indexes, smallest first, separated by ", ", and ends in ", ..." when twenty or more are live |
| ObjCounter.Counter.Destroy | src/include/objcounter.h:46-61 | a leak is reported if and only if an index is still live, with the name, total, max, count and leak list of the counter |
| HttpRequest.HandleCurlResult | src/miscwin/httpreqest.cpp:457-584 | the call returns normally exactly for codes 0 and 52. Code 7 gives FAILED_TO_CONNECT, codes 8 to 28 give OPERATION_TIMEDOUT, code 42 gives REQUEST_CANCELLED, and every other code gives CURL_ERROR. The exception always carries the code |
| HttpRequest.SetupFailure | src/miscwin/httpreqest.cpp:372-425 | the setup calls go through when every result is accepted; otherwise the first rejected result's exception is thrown |
| HttpRequest.ChunksConcat | src/miscwin/httpreqest.cpp:172-183 | the body of a run of callbacks is the body of its first part followed by that of the second, i.e. bytes accumulate in arrival order |
| HttpRequest.CanceledAfterDelivered | src/miscwin/httpreqest.cpp:192-211 | `_canceled` ends up set if and only if it was set before or some progress call found a cancel pending |
| HttpRequest.CanceledIsSticky | src/miscwin/httpreqest.cpp:203-211 | nothing during a transfer clears `_canceled` |
| HttpRequest.NoProgressNoCanceled | src/miscwin/httpreqest.cpp:192-211 | without a progress call `_canceled` keeps its value |
| HttpRequest.TransferOutcome | src/miscwin/httpreqest.cpp:426-439 | a rejected perform code wins. Otherwise a set `_canceled` gives REQUEST_CANCELLED with code -1. Otherwise a response code other than 200 and 0 gives HTTP_RESPONSE_ERROR carrying that code. Otherwise the accumulated body is returned |
| HttpRequest.CanceledFailsLaterTransfers | src/miscwin/httpreqest.cpp:432-433 | once a transfer was cancelled, every later transfer whose curl calls succeed fails as cancelled, whatever the server answered, until unCancel() is called |
| HttpRequest.ResponseString.constructor | src/miscwin/httpreqest.cpp:167-169 | a new response buffer is empty |
| HttpRequest.ResponseString.Append | src/miscwin/httpreqest.cpp:172 | append adds exactly the first `size` bytes at the end |
| HttpRequest.ResponseCallback | src/miscwin/httpreqest.cpp:177-183 | the callback appends exactly size*nmemb bytes and returns that count |
| HttpRequest.CurlHTTPRequest.constructor | src/miscwin/httpreqest.cpp:446-447 | both cancellation flags start clear |
| HttpRequest.CurlHTTPRequest.Cancel | src/miscwin/httpreqest.cpp:192-195 | cancel sets `_cancel` and leaves `_canceled` alone |
| HttpRequest.CurlHTTPRequest.UnCancel | src/miscwin/httpreqest.cpp:197-201 | unCancel clears both flags |
| HttpRequest.CurlHTTPRequest.Progress | src/miscwin/httpreqest.cpp:203-211 | with a cancel pending, progress returns 1, clears `_cancel` and sets `_canceled`; otherwise it returns 0 and changes nothing |
| HttpRequest.CurlHTTPRequest.Request | src/miscwin/httpreqest.cpp:362-440 | a rejected setup call throws before the transfer and leaves both flags alone. Otherwise the flags follow the callbacks, and the result is the transfer outcome on the in-order body of all write callbacks |
| HttpRequest.UpToNul | src/miscwin/httpreqest.cpp:106-112 | appending a NUL-terminated buffer takes its longest NUL-free prefix |
| HttpRequest.FirstEmpty | src/miscwin/httpreqest.cpp:104-113 | the read loop stops at the first read that returns no bytes, and at no earlier one |
| HttpRequest.CHTTPRequest.constructor | src/miscwin/httpreqest.cpp:38-39 | a new request has no cancel pending and an empty response |
| HttpRequest.CHTTPRequest.Get | src/miscwin/httpreqest.cpp:56-130 | a pending cancel is reset and throws REQUEST_CANCELLED without touching the response. Otherwise the response is cleared, and a failed open, send, end or status query throws its own kind. Status 400 or 404 throws HTTP_RESPONSE_ERROR with the status. Every other status reads until the first empty read and appends each read up to its NUL; a failed read throws INTERNET_READ_FILE_ERROR and keeps what was read |

## Left out

- `Plugin<T>` is a class template whose members are pure virtual: `first`, `next`, `get`, `canCreate`, `create`, `canEdit`, `edit`, `canRemove` and `remove`. They have no behaviour in the C++ header, so only the default `hasWindow` is modelled.
- `UniqueId`, `Info` and `Version` are defined outside the modelled files. An id is a value rendered by its text, and a version is an opaque value. Comparing versions is not modelled.
- The private per-root `explore` (plugin.h:338-341) has no body in the modelled files. The directory walk, module loading and `ignoreModule` are outside the model. Only the per-root call's effect on the shared duplicates list is modelled: a function of the call and the explorer's history. The step does not see what the shared list already holds.
- The loading-status handler parameter of `explore` is dropped: the shown code only passes it on.
- `PluginTreeException` keeps shared pointers to `Info`. The model keeps `Info` values, so aliasing between exceptions is not captured.
- ObjCounter.Counter.Inc: requires the total to stay below 2^31 - 1. The C++ code's signed 32-bit `++m_total` would overflow there, and that is not modelled. The `DebugBreak` on `breakIndex` and the debug log line are left out.
- ObjCounter.Counter.RemoveIndex: requires a live index. For an index that is not live, the C++ code decrements the count and then fails its `assert(false)`. The model does not reach that path.
- The counter's mutex, `LOG` output, the `ObjCounterBase` template (which calls `inc` in its constructor and `removeIndex` in its destructor) and the `OBJ_COUNTER` macros are left out. So is the text around the leak list in the destructor's log line: the model returns the fields of that line instead.
- HttpRequest.HandleCurlResult: the message text is left out. It is built from `curl_easy_strerror`, which is foreign. The code is carried as the unsigned value, with no conversion for values above 2^31 - 1.
- HttpRequest.ResponseCallback: requires size*nmemb to fit a 32-bit `int` and the bytes to be at hand. The C++ callback truncates the `size_t` product to `int`; that truncation is not modelled.
- HttpRequest.CurlHTTPRequest.Request stands for both `get` and `post`, which share this tail.
  - The individual `curl_easy_setopt` options, the form post, `setVerify`, proxy and timeout selection, `url()` and logging are left out. They enter only as the list of setup results.
  - libcurl aborting the transfer after a progress callback returns 1 is not imposed on the event list. It shows up only through the perform code passed in.
  - Cancel calls from other threads are modelled only between callbacks.
  - `xprogress` (the static trampoline to `progress()`) is not modelled separately.
- The `CurlHTTPRequest` constructor's `curl_easy_init` failure (throws CURL_ERROR with -1) and its destructor are left out. Both are foreign calls.
- HttpRequest.CHTTPRequest.Get:
  - It returns the wide response as read. The `ws2s` narrowing is not modelled.
  - Reads are given as the characters each `InternetReadFile` call delivered. How the `TCHAR` buffer's size relates to the byte count is not modelled.
  - Turning a `CHandleException` into FAILED_TO_CLOSE_INTERNET_HANDLE is not modelled: handle closing is foreign.
  - The `cancelling()`/`resetCancel()` pair is declared in a header that is not part of this model. It is modelled as a flag that `get` clears.
- The `CHTTPRequest` constructor's `InternetOpen`/`InternetConnect` failures (thrown as INTERNET_OPEN_ERROR and FAILED_TO_CONNECT) are left out, because both calls are foreign. The model's constructor always succeeds, and `ErrorType.InternetOpenError` is kept only to mirror the C++ enumeration: no member produces it.
- The `UseHttpSendReqEx` buffer setup is foreign. The failures of `HttpSendRequestEx` and `HttpEndRequest` enter as the reply variants `SendRequestFailed` and `EndRequestFailed`.
