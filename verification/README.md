# A verified model of the web server's core

The repository is a reactor web server: event loops over edge-triggered epoll, a timer queue, an HTTP
request parser, an asynchronous logger, and a thread pool that is compiled in but not used. This project
models the parts of it whose correctness cannot be seen by reading one function, and proves what they keep
over every input, every interleaving and every run.

How it is laid out, one module a file:

| module | what it models |
|---|---|
| `Sequences` | options and the sequence functions the others share |
| `IntegerFormat` | `convert` and `ConvertHex`: digit loop with truncating division, in-place reverse |
| `LogStream` | `FixedBuffer` and the stream operators that use it |
| `AsyncLogSpec`, `AsyncLogging` | the double-buffered logger, as a machine on values and as the class over its buffer objects |
| `EventLoopSpec`, `EventLoop` | the cross-thread functor queue with its eventfd, as a machine and as the class |
| `ThreadPoolSpec`, `ThreadPool` | the bounded pool with its ring buffer and both shutdowns, as a machine and as the class |
| `HeaderParser` | the nine-state header automaton and the language it accepts |
| `RequestLine` | what `ParseURI` computes once its `npos` arithmetic is resolved |
| `WebBench`, `RoundTrip` | `build_request`, and that the server's parser undoes it |
| `RequestReader`, `Segments` | the parsing phases of one read event; a request that arrives in pieces, or behind another |
| `SocketIo` | `ReadN` and both forms of `WriteN` over scripts of what the kernel answers |
| `Timer`, `TimerSpec` | the timer node with its wrapping clock, and the table of deadlines the lazy queue stands for |
| `Session` | what the events of one connection make of it, as functions on values: reading, answering, writing, and which answers reach the wire |
| `ErrorPages` | the error page, byte for byte |
| `HttpData` | a connection as the class over its buffers, indices and socket, carrying those functions out |
| `Epoll` | registration, interest masks, events, arming, expiry and closing of connections |
| `Delivery` | what a connection promises its peer, said of the kernel's answers alone: reading in order, errors, output, closing, waiting |
| `Serving` | requests that WebBench prints, whole, in two pieces or two in a row, and what they make a connection do |

Threads are modelled as machines whose steps are the locked sections and the pieces of code between them; a
run is any sequence of enabled steps, so a statement about all runs is one about all interleavings. Each
class method that stands for such a step is proved to be exactly that step of the machine. System calls are
scripts given from outside, the clock is a number that never goes back, and the file system and `std::stoi`
are functions given from outside.

What the proofs found that is not as one would expect from the code's comments:

* `ParseURI` never waits for the rest of a request line: its tests for a failed search compare a `size_t`
  with `< 0`. A request that is cut inside its first line is lost (`Segments.CutLineIsLost`).
* `ParseHeaders` keeps its state but not its indices from call to call. A printed request that arrives in
  pieces, however many, is read as sent only if every cut is in the line break behind the request line
  (`Segments.PiecesAreReadIff`, `Segments.CutRequest`, `Serving.CutIsServedIff`).
* A request that follows another in the same read loses its first byte. It is refused, unless its target spells
  a verb; then another request is read (`Segments.NextLosesAByte`, `Segments.NextRequestIs`,
  `Serving.TwoPrintedAre`).
* An answer that waits to be written is overwritten by the fixed answer for `hello`. A read event keeps all
  answers if and only if none of its passes does this (`Session.EventConservesIff`); two requests in one read
  while the socket is full are enough to lose one (`Serving.HelloLosesAnswer`, `Serving.HelloExample`).
* `build_request` checks the length of the URL, not that of its parts. Without a proxy, a host of 64 characters or more, or a port text of ten or
  more, does not fit the array it is copied to (`WebBench.LongHostOverruns`, `WebBench.CopyInto`,
  `RoundTrip.UrlRoundTrip`).
* A functor that the loop's own thread queues before `Loop()` gets no wakeup (`EventLoopSpec.EarlyPushIsLost`);
  which runs lose one is exactly `EventLoopSpec.WakeupIsLostIff`. A request to quit stands if and only if it was
  not made before `Loop()` (`EventLoopSpec.QuitStandsIff`), and then the loop ends
  (`EventLoopSpec.QuitEndsTheLoop`).
* The timer clock wraps around every 10000 seconds. Nothing is ever closed early, but a deadline behind the
  point where it wraps is never reached (`TimerSpec.NeverEarly`, `TimerSpec.CanExpireIff`); which connections an
  expiry closes is decided by the wrapped deadline, whenever they were armed (`TimerSpec.ExpiryIsExact`).
* A second `ThreadPoolDestroy` returns with the mutex held, and after it no worker takes a task or leaves, so
  the first one's join ends if and only if all had left by then (`ThreadPoolSpec.SecondDestroyBlocksJoin`).
* A connection whose peer closes in an event that leaves output has neither a timer any more nor a watch for
  writing: its mask was set when it was still to be read from, and is not changed. So is every open connection
  whose peer has closed, and no other (`Epoll.Epoll.HandleEvents`, `Epoll.Epoll.Discipline`,
  `Epoll.Epoll.StrandedIff`). It stays so until some other event of its own closes it; if a one-shot watch has
  just been disarmed there is none. A request, the end of file and a full socket are enough
  (`Serving.ClosedPeerLingers`).
* An error page has no empty line behind its header, so to a client the header never ends
  (`ErrorPages.PageHasNoEmptyLine`).
* After a report of an error alone, a connection with output left is no longer watched for writing
  (`Epoll.OutputIsWatchedIff`, `Epoll.ErrorForgetsOutput`).

## Model

| member | source | states |
|---|---|---|
| IntegerFormat.Convert | src/base/include/log_stream.h:22-41 | For every signed or unsigned value of up to 64 bits, the minimum included, the buffer holds its decimal numeral and a terminator, in at most 20 characters plus one, and nothing else is written |
| IntegerFormat.ReverseRange | src/base/include/log_stream.h:38-38 | The in-place reverse of a range reverses it and touches nothing outside |
| IntegerFormat.DecimalRoundTrip | src/base/include/log_stream.h:22-41 | Reading the numeral gives the value back; it has no leading zero and at most 20 characters |
| IntegerFormat.ConvertHex | src/base/log_stream.cpp:54-69 | The buffer holds the hexadecimal numeral of the pointer value, at most 16 digits and the terminator |
| IntegerFormat.HexRoundTrip | src/base/log_stream.cpp:54-69 | Reading it gives the value back; it has no leading zero and at most 16 digits |
| IntegerFormat.NumeralRoundTrip | src/base/include/log_stream.h:28-32 | In any base up to 16, reading the digits of a number gives the number |
| IntegerFormat.NumeralUnique | src/base/include/log_stream.h:28-32 | And a digit string without leading zero is the numeral of the number it reads as |
| IntegerFormat.TruncDigit | src/base/include/log_stream.h:29-30 | Truncating division peels off the same digits from a negative number as from its absolute value |
| IntegerFormat.DigitTables | src/base/include/log_stream.h:15-31 | The two-sided digit tables give the right digit for every remainder, negative ones included |
| LogStream.FixedBuffer.Append | src/base/include/log_stream.h:54-59 | A message is appended whole or not at all, and it is if more than its length is free |
| LogStream.FixedBuffer.Add | src/base/include/log_stream.h:80-82 | Text written at the current position becomes part of the buffer |
| LogStream.FixedBuffer.Reset | src/base/include/log_stream.h:85-87 | The buffer is empty again |
| LogStream.LogStream.AppendText | src/base/include/log_stream.h:135-137 | Text is added whole or not at all; a stream never holds more than 3999 bytes |
| LogStream.LogStream.FormatInteger | src/base/include/log_stream.h:151-158 | With 32 bytes free the numeral is added and stays inside the buffer, terminator included; otherwise nothing is |
| LogStream.LogStream.FormatPointer | src/base/log_stream.cpp:71-81 | The same for 0x and the hexadecimal numeral |
| AsyncLogSpec.StepKeepsInv | src/base/async_logging.cpp:31-135 | Every step of a producer or of the backend keeps the invariant on which buffers exist, which are empty, and what they hold |
| AsyncLogSpec.AssertsNeverFail | src/base/async_logging.cpp:77-125 | In every run none of the loop's asserts can fail, that of the second recycling included |
| AsyncLogSpec.ReadyToSwap | src/base/async_logging.cpp:77-91 | Whenever the backend is about to swap there is a current buffer and a spare one to replace it |
| AsyncLogSpec.Conservation | src/base/async_logging.cpp:31-133 | In every run all messages that fit a buffer are, in lock order, those of the batches taken, of the waiting buffers and of the current one; and the file followed by what is unwritten is exactly the batches with buffers 3 onward of each batch over 25 left out |
| AsyncLogSpec.LossThreshold | src/base/async_logging.cpp:31-107 | With messages of at most 3999 bytes, none is dropped by a buffer, and a batch can only be cut if at least 25 * (4000000 - 3999) bytes were appended since the last swap |
| AsyncLogSpec.CompleteIffNoLongBatch | src/base/async_logging.cpp:105-107 | Nothing is lost if and only if no batch was longer than 25 buffers |
| AsyncLogSpec.LongBatchLoses | src/base/async_logging.cpp:105-107 | A cut batch always loses messages |
| AsyncLogSpec.AppendsAs | src/base/async_logging.cpp:31-51 | A message goes to the current buffer if more than its length is free; else that buffer is filled and the message goes to the next, or a new one, unless it fits no buffer |
| AsyncLogSpec.SleepsIff | src/base/async_logging.cpp:82-86 | With the mutex the backend sleeps if and only if no buffer is filled |
| AsyncLogSpec.TakesAll | src/base/async_logging.cpp:84-97 | Else, and on any wakeup, it takes all filled buffers and the current one, in order, and leaves two empty ones |
| AsyncLogSpec.StopEndsTheBackend | src/base/async_logging.cpp:59-135 | Once stopped, the backend ends after at most 30 steps of its own, whatever producers do |
| AsyncLogSpec.BackendCanStep | src/base/async_logging.cpp:76-133 | Until then it can always take a step |
| AsyncLogSpec.EndsOnlyIfStopped | src/base/async_logging.cpp:59-76 | In every run it has ended only if Stop was called |
| AsyncLogging.Logger.constructor | src/base/async_logging.cpp:8-23 | The logger begins with distinct, empty buffer objects in the first state of the machine |
| AsyncLogging.Logger.Append | src/base/async_logging.cpp:31-51 | A producer's locked section is the machine's append step, over real buffer objects that no two places share |
| AsyncLogging.Logger.Stop | src/base/async_logging.cpp:59-63 | Stopping is the machine's stop step |
| AsyncLogging.Logger.Test | src/base/async_logging.cpp:76-79 | The loop test goes on if and only if the logger is running, and the three asserts behind it hold: both spares are there and empty, and nothing waits to be written |
| AsyncLogging.Logger.Lock | src/base/async_logging.cpp:82-97 | Taking the mutex sleeps if and only if no buffer is filled, and swaps otherwise, as the machine does |
| AsyncLogging.Logger.Wake | src/base/async_logging.cpp:84-97 | Waking for whatever reason swaps |
| AsyncLogging.Logger.Erase | src/base/async_logging.cpp:99-107 | The drop rule is the machine's, on a batch that is not empty: of more than 25 buffers the first two stay |
| AsyncLogging.Logger.WriteOne | src/base/async_logging.cpp:109-111 | One buffer goes to the file |
| AsyncLogging.Logger.Recycle | src/base/async_logging.cpp:113-132 | Both spares are empty buffers again, taken from the batch, and the batch is gone |
| EventLoopSpec.StepKeepsInv | src/event_loop.cpp:83-164 | Every step of the loop thread or another keeps the invariant on queue, eventfd, edge and flags |
| EventLoopSpec.NoLostWakeup | src/event_loop.cpp:83-157 | In every run in which the loop's own thread queues functors only in callbacks and functors, whenever functors wait while the loop polls or runs a batch, the eventfd is signalled or some caller still owes its WakeUp; the same for a request to quit in every run |
| EventLoopSpec.WakeupsKeptIff | src/event_loop.cpp:108-141 | In any run no wakeup is ever lost if and only if each functor waiting when Loop() is entered has a signal or a caller who owes one |
| EventLoopSpec.WakeupIsLostIff | src/event_loop.cpp:108-141 | A run loses a wakeup if and only if it enters Loop() after the loop's own thread has queued a functor, and before that no other thread has queued one or woken the loop to quit |
| EventLoopSpec.EarlyPushIsLost | src/event_loop.cpp:108-141 | The shortest such run: the functor waits, and the loop can only return from epoll for some other event |
| EventLoopSpec.QuitStandsIff | src/event_loop.cpp:119-164 | After any run a request to quit stands if and only if some request was not followed by entering Loop() |
| EventLoopSpec.QuitEndsTheLoop | src/event_loop.cpp:119-164 | With a request to quit the loop has ended after at most five of its steps and one for each functor that waits or is queued meanwhile, whatever else happens |
| EventLoopSpec.QuitIsHeard | src/event_loop.cpp:119-164 | And it can take these steps: one is possible that is no return of epoll for another event, or becomes so with a WakeUp that is owed |
| EventLoopSpec.ExactlyOnceInOrder | src/event_loop.cpp:108-157 | In every run the functors queued are those executed, then the rest of the batch, then those pending; each runs in the round after the one it was queued in |
| EventLoopSpec.BoundedResponse | src/event_loop.cpp:119-157 | A queued functor has run after as many steps of the loop thread as its rank says, whatever the other threads do |
| EventLoopSpec.NeverStuck | src/event_loop.cpp:119-157 | While functors wait whose wakeup is not lost, the loop thread can take a step, at once or after one WakeUp that is still owed |
| EventLoopSpec.NoBusyLoop | src/event_loop.cpp:83-98 | In every run epoll reports the eventfd at most as often as it was written, and reading it leaves nothing |
| EventLoop.Loop.QueueInLoop | src/event_loop.cpp:108-117 | Pushing is the machine's push, before Loop() too, and whether a WakeUp must follow is as the machine has it |
| EventLoop.Loop.WakeUp | src/event_loop.cpp:83-89 | Writing the eventfd raises count and edge and settles the caller's debt |
| EventLoop.Loop.Quit | src/event_loop.cpp:159-164 | Setting the flag is the machine's step; another thread owes a WakeUp |
| EventLoop.Loop.WakeUpToQuit | src/event_loop.cpp:159-164 | The WakeUp of a thread that asked to quit settles its debt |
| EventLoop.Loop.EnterLoop | src/event_loop.cpp:119-123 | Entering Loop() is the machine's start, which clears the request to quit |
| EventLoop.Loop.Poll | src/event_loop.cpp:125-134 | A return of epoll_wait consumes the edge |
| EventLoop.Loop.HandleRead | src/event_loop.cpp:91-98 | The eventfd is read empty |
| EventLoop.Loop.SwapFunctors | src/event_loop.cpp:144-151 | The whole queue becomes the batch |
| EventLoop.Loop.RunFunctor | src/event_loop.cpp:153-155 | The next functor of the batch runs |
| EventLoop.Loop.FinishRound | src/event_loop.cpp:125-157 | The batch is over; the loop polls again or ends |
| EventLoop.Loop.DoPendingFunctors | src/event_loop.cpp:144-157 | As a whole, with nothing in between: exactly the functors that waited run, in order, none is left in the queue, and the loop ends if and only if it was asked to quit |
| ThreadPoolSpec.StepKeepsInv | src/thread_pool.cpp:51-163 | Every step of a caller or a worker keeps the invariant on queue, tasks and workers |
| ThreadPoolSpec.TakenInOrder | src/thread_pool.cpp:51-157 | In every run the tasks taken are a prefix of those accepted, the rest is the queue, which never exceeds its size, and every task is where it should be exactly as often as it was accepted |
| ThreadPoolSpec.NoStrandedTask | src/thread_pool.cpp:76-148 | In every run at least min(queued, workers) workers are not asleep before shutdown, and none is asleep after it |
| ThreadPoolSpec.SomeWorkerCanStep | src/thread_pool.cpp:137-163 | So while there is something to do, some worker can take a step |
| ThreadPoolSpec.GracefulDrains | src/thread_pool.cpp:90-163 | When all workers have left after a graceful shutdown, every accepted task has run exactly once and the counters are zero |
| ThreadPoolSpec.ShutdownIsBounded | src/thread_pool.cpp:137-163 | After a shutdown every worker step lowers a measure, so the workers leave after a bounded number of steps |
| ThreadPoolSpec.ShutdownStops | src/thread_pool.cpp:51-157 | After any shutdown nothing more is accepted, and after an immediate one nothing more is taken: what is queued stays |
| ThreadPoolSpec.EntersAs | src/thread_pool.cpp:140-159 | A worker takes the oldest task if and only if there is one and the shutdown is not immediate; else it leaves if there is a shutdown, and sleeps if not |
| ThreadPoolSpec.SecondDestroyBlocksJoin | src/thread_pool.cpp:97-125 | After a second destroy has kept the lock no worker ever takes a task or leaves again, so all workers are gone, as the first one's join waits for, if and only if they were by then |
| ThreadPool.PushBack | src/thread_pool.cpp:59-74 | Through any wraparound, writing at the end index appends to the circular slice |
| ThreadPool.PopFront | src/thread_pool.cpp:149-154 | Clearing the slot at the begin index removes the slice's first task |
| ThreadPool.Pool.constructor | src/thread_pool.cpp:16-49 | Arguments out of range are both replaced by the defaults; the pool begins in the machine's first state |
| ThreadPool.Pool.Add | src/thread_pool.cpp:51-88 | Adding is the machine's step, with its three results |
| ThreadPool.Pool.Enter | src/thread_pool.cpp:140-159 | A worker with the lock sleeps, leaves, or takes the oldest task, as the machine says |
| ThreadPool.Pool.Execute | src/thread_pool.cpp:156-156 | The task taken is the one run |
| ThreadPool.Pool.WakeSpuriously | src/thread_pool.cpp:142-144 | A wakeup without a signal only puts the worker back before the lock |
| ThreadPool.Pool.Destroy | src/thread_pool.cpp:90-109 | The first destroy wakes every sleeper; a later one reports the shutdown and keeps the lock |
| ThreadPool.Pool.Free | src/thread_pool.cpp:126-135 | After the joins it finds no thread started, and after a graceful shutdown everything accepted has run once |
| HeaderParser.BlockAccepted | src/http_data.cpp:384-481 | On line breaks, one or more fields and an empty line the parser succeeds with the last-wins map of exactly those fields; of what follows one byte is lost |
| HeaderParser.ExactLanguage | src/http_data.cpp:384-481 | For every input from the start state: success exactly if it begins with such a block, again exactly if it does not but begins one, error otherwise; and a success has exactly the block's fields |
| HeaderParser.UnmarkedKeyNeverSucceeds | src/http_data.cpp:386-389 | A call that resumes inside a field cannot succeed, since its key was never marked |
| HeaderParser.SplitSafeIff | src/http_data.cpp:384-481 | Two calls agree with one for every continuation if and only if the first piece is nothing but line breaks |
| HeaderParser.ErrorStays | src/http_data.cpp:384-481 | Input behind an error does not change it |
| RequestLine.WordInPart | src/http_data.cpp:322-337 | A verb is found in a line exactly if it is in one of the line's words |
| HttpData.HttpData.ParseURI | src/http_data.cpp:305-382 | With size_t and npos modulo 2^64, and positions put into int, the outcome is the one described without arithmetic; it never asks for more input |
| HttpData.HttpData.TakeLine | src/http_data.cpp:305-320 | The line is what stands before the CR and is taken out with it; without a CR it is the whole buffer, and stays |
| HttpData.FileArithmetic | src/http_data.cpp:340-361 | The wrapped differences of positions select the text between the slash and the next space, or the default file |
| HttpData.VersionArithmetic | src/http_data.cpp:364-381 | After a failed search the three characters taken for the version are the first of the line |
| HttpData.HttpData.ParseHeaders | src/http_data.cpp:384-481 | The loop over live indices is the automaton on text: same result, fields, remaining buffer and state, every index in range wherever the code is defined |
| HttpData.StillMatches | src/http_data.cpp:390-470 | Each turn of the loop keeps the indices delimiting the text the automaton holds |
| WebBench.Bench.BuildRequest | WebBench/webbench.c:223-333 | Refused are exactly the URLs that are too long, not of the http scheme or without a slash behind the host. Of the others, without a proxy, exactly those whose host has 64 or more or whose port has ten or more characters overrun an array; for the rest the buffer holds the request printed for host and target, in the version the options ask for or need, and is never overrun |
| WebBench.TextIs | WebBench/webbench.c:223-333 | For a URL of any host, port and target: the text sent, byte for byte, with the version as asked for or as the method needs, or the overrun |
| WebBench.ProxiedTextIs | WebBench/webbench.c:223-333 | The same through a proxy, with the reload header |
| WebBench.CopyInto | WebBench/webbench.c:273-289 | A cleared array that a text is copied to by its length then holds that text if and only if the text is shorter than the array |
| WebBench.LongHostOverruns | WebBench/webbench.c:55-55 | A URL of the http scheme with a host of 64 characters and a slash behind it passes every check and overruns the array |
| WebBench.HostIs | WebBench/webbench.c:273-289 | Looking for the colon in all of the URL, as the code does, finds the same host as looking before the slash only |
| RoundTrip.LineRead | src/http_data.cpp:305-382 | Of a printed GET or HEAD the parser reads back version, file and verb, and leaves what follows; a HEAD is taken for another verb exactly if its target spells one |
| RoundTrip.HeadersRead | src/http_data.cpp:384-481 | The printed header block is read back exactly, with nothing left, if and only if the host has 1 to 256 bytes and no CR behind the first |
| RoundTrip.FileIs | src/http_data.cpp:340-361 | The file of a target is what is between its slash and the query; of a slash alone, the default one |
| RoundTrip.PrintThenRead | WebBench/webbench.c:223-333 | Printing and reading is the identity if and only if the host is such a value and a HEAD target spells no other verb |
| RoundTrip.UrlRoundTrip | WebBench/webbench.c:223-333 | From an accepted URL without space or CR the server reads the request back if and only if a version is sent, the host has 1 to 63 characters and the port at most nine, and a HEAD target spells no other verb; without a version it reads none |
| RoundTrip.OldRequestRefused | WebBench/webbench.c:304-312 | A request without a version is refused by the server |
| RequestReader.AdvanceRests | src/http_data.cpp:179-251 | A connection that waits is at rest again: past the request line, headers not complete, or waiting for a body; and a complete request has taken something out of the buffer, so HandleRead's recursion ends |
| RequestReader.AdvanceReads | src/http_data.cpp:179-209 | From the request line on, one pass reads exactly the request that the two parsers find |
| RequestReader.FreshVerdict | src/http_data.cpp:179-223 | From the first byte of a request on: refused if the line is or nothing can complete its headers, waiting if they are begun, ready if they are there; a POST only with a length and that many bytes more, and refused without one |
| RequestReader.WaitingPostVerdict | src/http_data.cpp:210-223 | A POST that waits for its body becomes ready exactly when as many bytes are there as it says |
| Segments.CutLineIsLost | src/http_data.cpp:305-320 | A request cut inside its first line is never read, whatever follows |
| Segments.CutRequest | src/http_data.cpp:305-481 | For every cut of a printed request: it is read as if whole if and only if the cut is behind the CR or the LF of the request line |
| Segments.PiecesAreReadIff | src/http_data.cpp:305-481 | For every way to cut a printed request into pieces, one an event: it is read exactly as sent if and only if all cuts are in the line break behind the request line |
| Segments.NeverEarly | src/http_data.cpp:305-481 | No proper beginning of a printed request is complete |
| Segments.NextLosesAByte | src/http_data.cpp:467-476 | A request behind another in the same read is left without its first byte |
| Segments.NextLineIs | src/http_data.cpp:322-381 | Of the line of a GET or HEAD without its first byte: refused unless its target spells a verb with a slash behind it; then read with that verb, the file named from that slash on and the version sent |
| Segments.NextRequestIs | src/http_data.cpp:305-481 | The same for the whole of a printed request behind another, headers included: none is read, or exactly that one |
| SocketIo.Socket.ReadN | src/util.cpp:41-64 | All data up to the first answer that ends the reading is appended in the order it came, none lost or doubled; the result is its length, or -1 on failure, and end of file is told apart |
| SocketIo.Socket.WriteN | src/util.cpp:114-140 | What goes out is a prefix of the buffer; if the call does not fail the rest stays and the result is the number sent, if it fails the buffer is as it was |
| SocketIo.Socket.WriteBytes | src/util.cpp:89-112 | The other form: what goes out is a prefix of the bytes; the result is the number sent, or -1 on failure |
| SocketIo.ReceiveCounts | src/util.cpp:41-64 | Bytes read and bytes still unread are the bytes there were |
| SocketIo.ReceiveIs | src/util.cpp:41-64 | Reading stops at the first answer that is an end of file, would block or fails, interruptions skipped; it takes all data before that, in order; and reports end of file or failure if and only if that was the answer |
| SocketIo.ReceiveInOrder | src/util.cpp:58-61 | What is read followed by what is still to be read is what the peer sent |
| SocketIo.SendIs | src/util.cpp:114-140 | Writing stops when all is out or an answer would block or fails; what goes out is as much as the socket took, and it fails if and only if that was the answer |
| SocketIo.LeftOnlyIfBlocked | src/util.cpp:114-140 | A successful write leaves something only if the kernel said it would block |
| SocketIo.WireIsPrefix | src/http_data.cpp:253-265 | Over every run of appending and writing, the wire is a prefix of all that was appended, and unless a write failed the rest is in the buffer |
| Session.AnalyseConservesIff | src/http_data.cpp:483-561 | With all answers on the wire or in the buffer, an answered request leaves them so if and only if it is not hello while output waits |
| Session.EventConservesIff | src/http_data.cpp:153-265 | A read event without error ends at rest, every byte of the answers on the wire, in the buffer or counted as overwritten; and all answers are on the wire or in the buffer if and only if no pass of it answers hello while output waits |
| Session.SoleRequestKeeps | src/http_data.cpp:153-251 | With nothing waiting and nothing behind the request, nothing is overwritten |
| Session.FirstPass | src/http_data.cpp:153-251 | From any state at rest, a request begun in an earlier event included: the first request completed is served first, and alone if nothing follows it, with room made for the next; without one none is served; failure, waiting and undefined behaviour follow from the pass |
| Session.PassByPass | src/http_data.cpp:153-251 | A read event is one pass, and another on what is left if the pass completes a request with more in the buffer and an open peer; each leaves less |
| Session.WishesFit | src/http_data.cpp:236-249 | A read event that leaves output asks to write, and one that serves nothing asks to read |
| HttpData.HttpData.ParseRequest | src/http_data.cpp:179-223 | The parsing phases are one pass of the specification, with the body only waited for |
| HttpData.HttpData.AnalysisRequest | src/http_data.cpp:483-561 | A request has an answer exactly if it is no POST and is hello or a file; the answer is appended, but hello replaces what was pending, and so much is lost; keep-alive is kept once asked for |
| HttpData.HttpData.ParseAndAnswer | src/http_data.cpp:179-233 | Parsing and answering is the session's step: refused or unanswerable is in error, else it waits or has served exactly the request read; undefined behaviour exactly where the session has none |
| HttpData.HttpData.ReadAndAnswer | src/http_data.cpp:153-234 | The first half of a read event, with what the socket gives, is the session's; a failed read of a peer that is there is an error, and nothing is served or answered |
| HttpData.HttpData.WriteAndReset | src/http_data.cpp:236-251 | The second half is the session's; output that stays asks for the write event; a finished request makes room for the next; an unfinished one asks for the read event |
| HttpData.HttpData.HandleRead | src/http_data.cpp:153-251 | The recursion ends, and the whole new state, what is left of the socket's answers, the events asked for, the error pages sent and whether behaviour is undefined are those of the session's read event, of which the `Session` and `Delivery` rows state what is kept; in an error all but what the error page does to the socket; otherwise the connection is at rest |
| HttpData.HttpData.HandleError | src/http_data.cpp:563-581 | The error page goes to the wire past the buffer, header and body, each as far as the socket takes it |
| ErrorPages.PageHasNoEmptyLine | src/http_data.cpp:563-581 | Nowhere in an error page is an empty line, so its header never ends |
| HttpData.HttpData.HandleWrite | src/http_data.cpp:253-265 | One write event of the session; without error, what was on the wire and in the buffer still is, in order, and something is left only if the socket would block; after an error nothing, and output that stays asks for the write event |
| HttpData.HttpData.Reset | src/http_data.cpp:130-143 | The connection is at its first line again, with no headers and no timer |
| HttpData.HttpData.SeperateTimer | src/http_data.cpp:145-151 | The linked node is deleted and holds no connection |
| HttpData.HttpData.constructor | src/http_data.cpp:113-128 | A new connection is connected, at rest at its first line, without timer or events |
| Timer.TimerNode.constructor | src/timer.cpp:7-13 | A node expires at the wrapped reading plus the timeout |
| Timer.TimerNode.IsValid | src/timer.cpp:32-41 | Valid exactly if the wrapped clock is before its time; else it is marked |
| Timer.TimerNode.ClearReq | src/timer.cpp:43-46 | A cleared node is deleted and holds nothing |
| TimerSpec.InTable | src/timer.cpp:53-79 | The table holds a connection exactly if an arming of it was neither undone, replaced nor carried out, and then the latest |
| TimerSpec.ExpiryIsExact | src/timer.cpp:32-79 | Over every run: an expiry closes only connections whose latest arming is due and was not undone; it closes every one whose wrapped deadline is reached at its last reading of the clock, whenever it was armed, and only those unless the clock wraps between its first reading and its last; of those armed since the clock last wrapped it closes exactly the due ones |
| TimerSpec.NeverEarly | src/timer.cpp:32-41 | A deadline the wrapped clock has reached is due on the real one |
| TimerSpec.ExactInWindow | src/timer.cpp:32-41 | Within one window of the clock, wrapped and real comparison agree |
| TimerSpec.CanExpireIff | src/timer.cpp:7-41 | A deadline can be reached at all if and only if the wrapped sum is below the window |
| Epoll.Epoll.Discipline | src/timer.cpp:15-46 | In every state: at most one node holds a connection, and it is the one its weak link names; a queued node is deleted if and only if it holds none; a connection is closed at most once, and is in the tables exactly until then; while it is, it has a timer if and only if its peer has not closed, its cached mask asks for one thing and is the kernel's unless a one-shot disarmed it; and it is stranded, with no timer and not watched for writing, if and only if its peer has closed |
| Epoll.Epoll.StrandedIff | src/http_data.cpp:297-299 | An open connection has neither a timer nor a watch for writing if and only if its peer has closed |
| Epoll.Epoll.AddTimer | src/timer.cpp:53-57 | Arming a connection enters it in the table of deadlines with the reading just taken |
| Epoll.Epoll.SeperateTimer | src/http_data.cpp:145-151 | Disarming takes it out, though its node stays in the queue |
| Epoll.Epoll.UpdateWatch | src/epoll.cpp:52-61 | After it the kernel watches for the channel's mask, whether or not the call was skipped |
| Epoll.Epoll.EqualAndUpdateLastEvents | src/channel.cpp:72-76 | The cached mask is compared and then is the new one |
| Epoll.Epoll.EpollMod | src/epoll.cpp:48-62 | The kernel's mask is as asked for; the timer too, and with a timeout of 0 none is added |
| Epoll.Epoll.EpollAdd | src/epoll.cpp:29-46 | The connection is known and armed in the kernel with its mask; it has a timer unless the timeout is 0 |
| Epoll.Epoll.EpollDel | src/epoll.cpp:64-74 | The connection is unknown to the tables and to the kernel |
| Epoll.Epoll.NewEvent | src/http_data.cpp:589-592 | A new connection waits one-shot for input, for 2000 ms, and all invariants hold |
| Epoll.Epoll.HandleClose | src/http_data.cpp:583-587 | Closing happens for the first time and takes the connection out of epoll |
| Epoll.Epoll.HandleConn | src/http_data.cpp:267-303 | At the end of an event a connection stays open if and only if it has no error and its peer is there or writing was asked for; with its peer it waits again, for writing if that was asked for and else for reading, for 300 s if kept alive, 2 s if anything was asked for and 150 s otherwise; without it lingers, its watch as it was and its timer given up; every invariant holds again |
| Epoll.Epoll.StrandedStays | src/http_data.cpp:267-303 | A stranded connection stays stranded, with the same watch, through whatever happens to another connection |
| Epoll.ClosingNeverWaits | src/http_data.cpp:267-303 | And through its own events: it lingers on or is closed, but never gets a timer or another watch |
| Epoll.OutputIsWatchedIff | src/channel.cpp:78-98 | A connection that waits with output left is watched for writing if and only if its event had something to read or to write |
| Epoll.ErrorForgetsOutput | src/channel.cpp:84-97 | After a report of an error alone it keeps its output and is watched for input only |
| Epoll.WaitsForOneThing | src/http_data.cpp:270-296 | Whatever was asked for, a connection that waits is watched edge-triggered for exactly one of reading and writing, with a timeout |
| Epoll.Epoll.HandleEvents | src/channel.cpp:78-98 | For events that epoll reports of the mask: the connection becomes what the session's read and write events make of it, in that order, and then waits, lingers or is closed as its state and wishes then say; when it can only be written to, what was on the wire and in the buffer still is, and something is left only if the socket would block; it is stranded if and only if it lingers; others are not touched; a hang-up without input changes nothing, stranded or not; behaviour is undefined exactly where reading is |
| Epoll.Epoll.GetEventsRequest | src/epoll.cpp:94-112 | Delivering an event disarms a one-shot watch only, and clears the wanted events; what is reported was asked for |
| Epoll.Epoll.ExpireTop | src/timer.cpp:68-79 | One turn of the expiry loop drops a cleared node without effect, closes the connection of an expired one, or stops with nothing due |
| Epoll.Epoll.CloseTop | src/timer.cpp:15-19 | An expired node's destructor closes its connection once and voids the weak link |
| Epoll.Epoll.HandleExpired | src/epoll.cpp:90-92 | The lazy queue carries out the table: what it closes is legal for the table with the first and last reading of the clock, is recorded in the history, and every invariant holds again; a stranded connection stays so |
| Epoll.Epoll.HandleExpiredEvent | src/timer.cpp:68-79 | The loop: no wrapped deadline is left reached, and what was closed was due, and reached unless the clock wrapped since the first reading |
| Epoll.Epoll.NothingDue | src/timer.cpp:68-79 | When the earliest node is not expired, no connection's wrapped deadline is reached |
| Epoll.Epoll.Detached | src/http_data.cpp:130-151 | Giving up a timer keeps the one-node-per-connection invariants of queue and links |
| Delivery.PassFailsIff | src/http_data.cpp:153-251 | A pass of HandleRead ends in an error if and only if reading fails with the peer there, or the request is refused or has no answer, or writing fails |
| Delivery.PassSendsPage | src/http_data.cpp:153-234 | Which error page a pass sends: for a failed read, for a request refused, for one without an answer unless it is a POST, and for nothing else |
| Delivery.EventSendsPage | src/http_data.cpp:153-251 | A read event sends at most one, and only in an error |
| Delivery.PassServes | src/http_data.cpp:179-247 | It serves the request that is complete and makes room for the next, waits in the middle of one that is not, and drops what a closed peer sent |
| Delivery.PassGoesOn | src/http_data.cpp:240-246 | It is followed by another if and only if it served a request, bytes are left and the peer is there |
| Delivery.PassWrites | src/http_data.cpp:236-265 | It writes all that is pending, as far as the socket takes it; the rest is in the buffer, only because the socket would block, and asks to be written |
| Delivery.EventReads | src/http_data.cpp:153-178 | A whole read event sees the peer close if and only if it read an end of file, and a failed read is an error |
| Delivery.EventWrites | src/http_data.cpp:236-265 | A failed write is an error; output is left only if the socket would block; and the event asks to write if and only if output is left or a pass was blocked |
| Delivery.EventAsks | src/http_data.cpp:236-249 | It asks to read if and only if it leaves a request unfinished |
| Delivery.FailedReadCloses | src/http_data.cpp:162-167 | After a failed read nothing is served or written, and the connection is closed |
| Delivery.EndOfFileCloses | src/http_data.cpp:168-177 | After an end of file without data nothing is served, and the connection is closed, unless the socket does not take the output that waits: then it lingers |
| Delivery.IdlePeerCloses | src/http_data.cpp:168-177 | So an idle connection whose peer closes is closed |
| Delivery.AfterReadingWaits | src/http_data.cpp:267-296 | How and how long an open connection waits after it has read, from its output, its answers to writes and the phase of its request |
| Delivery.AfterWritingWaits | src/http_data.cpp:253-296 | What a write event puts on the wire, and how and how long the connection then waits |
| Delivery.CallbacksWrite | src/channel.cpp:91-97 | Whenever it can be written to, what waits, after the reading if there is any, goes out as far as the socket takes it |
| Delivery.PrintedIsDelivered | src/http_data.cpp:153-251 | A printed request, read in any number of pieces by one event, with a socket that takes all: served, its answer on the wire behind what was pending, and the connection waiting to read, kept alive if asked to |
| Serving.PrintedIsServed | src/http_data.cpp:153-251 | A printed request that arrives whole on a connection between requests is served, alone, if the server has an answer; unless the write fails the connection is between requests again |
| Serving.CutIsServedIff | src/http_data.cpp:153-251 | When it arrives in two read events the first serves nothing, and after the second exactly the request as sent has been served if and only if the cut is in the line break behind the request line |
| Serving.TwoPrintedAre | src/http_data.cpp:153-251 | Of two printed requests in one read, if the first answer can be written, the first is served, and then exactly the request that is left of the second if there is one and the server has an answer; otherwise the connection is in error |
| Serving.ClosedPeerLingers | src/http_data.cpp:267-303 | A printed request that comes with the end of file, whose answer the socket does not take whole: served, with output left, and lingering |
| Serving.HelloLosesAnswer | src/http_data.cpp:153-251 | A printed request, a spare byte and a request for hello in one read, whose first write would block: both are served, in that order, and unless a write fails not all answers are on the wire or in the buffer; none fails if the second blocks too |
| Serving.HelloExample | src/http_data.cpp:505-508 | Such an input for a new connection, for any readable target with a non-empty answer, on which both writes block: both served, no error, and an answer is lost |

## Left out

- System calls themselves, accepting connections, `Server`, `main`, the loop pool, the latch, the thread wrapper and the mutex and condition classes: plumbing around the parts modelled.
- The log file: an append-only sequence of messages; that all is on disk after `Stop` is not claimed, because the loop ends on its flag without a last swap.
- Reuse of file descriptor numbers: a connection stands for its own table slots.
- Failing `epoll_ctl`, `eventfd` and pthread calls, and an eventfd counter at its maximum.
- Serving of files: whether there is a response, and its text, come from outside; MIME types, the icon and the `stat`, `open`, `mmap` calls are not modelled. The error page is written past the output buffer, so of the wire of a connection in error it is only said that nothing is taken back, and what `HandleError` adds.
- The body of a POST: the code only waits for it, and so does the model; a POST is then an error.
- Buffers of 2 GiB and more: positions are put into `int`, which is only faithful below.
- WebBench's options parsing, the number its port text stands for, forking and sockets; what an array that is overrun does to the memory behind it.
- Floating-point output of the log stream, done by `snprintf`.
- The timer heap: any collection that gives an earliest node.
- `TimerNode::Update` and the node's copy constructor, which nothing calls.
- HttpData.HttpData.ParseHeaders: says only that the result is undefined when a string is built from an index that was never set, because what happens then is not defined.
- Epoll.Epoll.HandleEvents: says nothing about the state after such undefined behaviour.
