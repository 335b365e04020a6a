# goms, verified cores

A Dafny model of the parts of `goms` whose behaviour is hard to see from the code, with proofs about
every input, every run or every reachable state. `dafny verify dfyconfig.toml` checks everything.

| files | what they model | main results |
|---|---|---|
| `ConcurrentMap.dfy`, `ConcurrentMapProof.dfy`, `ConcurrentMapSteps.dfy`, `ConcurrentMapTheorems.dfy`, `ConcurrentMapLinearizable.dfy`, `ConcurrentMapRange.dfy` | `util.Map` under every interleaving: one step per atomic load, compare-and-swap, lock, unlock or plain access under the mutex, with a program counter per running operation | linearizability; no update is lost through a stale snapshot; `Range` goes on exactly as its callback says; the shape of `read`, `dirty` and `misses` |
| `SyncMap.dfy` | `util.Map` as an object with shared `entry` objects, one caller at a time | every operation refines a plain map |
| `Timer.dfy`, `TimerRuns.dfy`, `TimerBound.dfy` | the three containers of `util/timer`, and ticks, sweeps, insertions and runs as concurrent steps against a clock | nothing fires early or late, exactly as long as an insertion takes at most one tick; nothing is lost; exactly N calls; the k-th firing is due k intervals after the first |
| `RpcSession.dfy`, `RpcSessionProof.dfy`, `RpcClient.dfy` | one RPC connection: senders, reader, `Close`, both streams, the server's reader and workers; and the client's state as an object | no call is forgotten; the right reply reaches the right call; exactly when a call is completed twice |
| `Framing.dfy` | length-prefixed frames, header/body pairs, concurrent writers | reading inverts writing; truncation is an error; nothing gets out of step |
| `FreeLists.dfy`, `FreeListRuns.dfy` | the server's intrusive free lists of requests and responses: the linked objects, and the lists under every interleaving of loops and workers | acyclic, disjoint from what is in use, each object given back at most once per use, recycled objects blank, and exactly which are lost |
| `Rand.dfy` | bounded draws, shuffles, weighted choice | unbiased rejection; each permutation from exactly one vector of draws; exact shares |
| `IdGen.dfy` | the bit-packed id generator | exactly when two ids are the same, and from it exactly which clocks, generators and modules keep them distinct |
| `Handshake.dfy` | the Diffie-Hellman handshake | when what they send fills 128 bytes both ends share the secret; exactly what happens when it does not |
| `Gateway.dfy` | gateway messages with padding and cipher block chaining | round trip over any stream, and exactly which messages survive it |
| `BytesCache.dfy` | the size-class buffer pool | pool i holds capacity 2^i exactly as long as nobody puts a buffer of capacity zero |
| `WatchMessage.dfy` | the line protocol of the watch service | round trip over any list of messages, including decimal numbers |
| `Bits.dfy`, `Option.dfy` | bitwise operations on natural numbers; `Option` | |

Clocks, random draws, the outcome of network reads and writes, the order in which goroutines run and
the order in which a Go map is walked are parameters or free choices of the steps. Payload marshalling,
handlers and the block cipher are uninterpreted.

## Where the code and its comments differ

- `CompareAndSwap` and `CompareAndDelete` are documented to compare with `old`, but never look at it
  (util/sync_map.go:168-187, util/sync_map.go:436-444). They are modelled as the code is: replace if
  present, delete if present. `AsDocumented` says exactly when that is what the comments promise, and
  `NotAsDocumented` is the case where it is not.
- A call is meant to be completed once. The loop that ends pending calls leaves them in the table
  (rpc/go_client.go:206-209), so a failing `send` can complete a call again. `CompletedTwice` is such a
  run, `TwiceExactly` says exactly when it happens, and `Completions` bounds it.
- `WriteByteRequest` does not copy `NoResp` (rpc/coder.go:175-181). `RawIsAnswered` is the run in which a raw
  one-way send is answered, `AnsweredExactly` says that one-way calls can be answered exactly if they
  are raw, and `OneWayDiscarded` that the answer reaches no call.
- A frame cut right after its length reads as a plain end of file (rpc/coder.go:55-58); `CutShort` says so.
- The generator's byte in an id overlaps the time and the module (util/id_gen.go:42), the clock is not
  kept from going back (util/id_gen.go:28-35) and a recovered panic leaves the index counting
  (util/id_gen.go:37-40). `PackEqual` says exactly which ids are the same, `UniqueExactly` exactly which
  readings of the clock repeat an id, `CleanExactly` for which generator numbers they otherwise do not,
  and `MeetExactly` which generators and modules can meet.
- `Put` accepts a buffer of capacity zero and files it under pool 0 (util/bytes_cache/cache.go:36-42).
  `ExactExactly` shows that nothing else spoils the pools, and `ZeroHanded` is the run in which `Get(1)`
  then slices past the capacity of what it is handed.
- A request object is not given back when its header cannot be read (rpc/go_server.go:575-584).
  `DroppedExactly` shows that nothing else is lost, and `Loss` is a run in which one is.
- The gateway header is 14 bytes, not the 10 its comment announces (gnet/message.go:20-23, gnet/message.go:63).

## Model

| member | source | states |
|---|---|---|
| ConcurrentMapLinearizable.Linearizable | util/sync_map.go:122-525 | in every state of every run of any number of concurrent operations there is one order of all completed operations (and perhaps some running ones) that gives every returned result on a plain map, ends in the map the structure denotes, and respects real time; `Range` aside |
| ConcurrentMapLinearizable.OrderIsLinearization | util/sync_map.go:122-525 | the order built from the moments at which entries were swung is such an order, from the invariant alone |
| ConcurrentMapLinearizable.ReplayUpto | util/sync_map.go:122-525 | replaying the operations placed before a moment on a plain map gives the plain map of that moment and every result returned by them |
| ConcurrentMapLinearizable.RangeIsWitnessed | util/sync_map.go:448-490 | what `Range` reports for a key, and for every key if it was not stopped, is what the map held for that key at some moment between its call and its return |
| ConcurrentMapRange.RangeStopsExactly | util/sync_map.go:481-489 | a returned `Range` called its callback once for each key it reports, and is incomplete exactly if the last answer was false and all earlier ones true |
| ConcurrentMapRange.RangeIsWhole | util/sync_map.go:481-489 | so a `Range` never told to stop reports, for every key, what that key held at some moment between call and return |
| ConcurrentMapRange.CanBeHeard | util/sync_map.go:481-489 | every run of the map has such a record of answers, so the two results are about all runs |
| ConcurrentMap.PlainMapLaws | util/sync_map.go:119-446 | what the plain map that operations are measured against does, law by law in terms of loads before and after |
| ConcurrentMapLinearizable.StaleSnapshot | util/sync_map.go:492-525 | every entry of any `read` map ever published is still the entry of its key in the current `read` map, or is expunged for the rest of the run and never comes back |
| ConcurrentMapLinearizable.NoLostUpdate | util/sync_map.go:325-335 | a lock-free store that wins its compare-and-swap, through however old a snapshot, is what the map holds for its key at once, and no other key changes |
| ConcurrentMapLinearizable.NoLostDelete | util/sync_map.go:308-319 | a lock-free delete that wins: an entry from a snapshot has not left the map, and then its key is gone at once; an entry that had left leaves its key as it was; no other key changes |
| ConcurrentMapLinearizable.CopiesLive | util/sync_map.go:502-525 | while `dirty` is rebuilt an entry that goes into it holds a value at that step, and one left out is expunged |
| ConcurrentMapLinearizable.MissesCount | util/sync_map.go:492-500 | every operation that had to consult `dirty`, a swap and a first insertion aside, counts a miss before it unlocks |
| ConcurrentMapLinearizable.MissPromotes | util/sync_map.go:492-500 | and the miss promotes `dirty` exactly when it makes as many as `dirty` has keys |
| ConcurrentMapLinearizable.QuietShape | util/sync_map.go:49-103 | whenever the mutex is free: `amended` iff `dirty` exists; a `read` entry is expunged iff `dirty` exists and lacks it; otherwise both share the entry; `dirty` holds no expunged entry; `misses` below the size of `dirty`, or zero without it |
| ConcurrentMapLinearizable.NeverBroken | util/sync_map.go:207-240 | no operation ever writes to a nil `dirty`, dereferences `expunged`, or hands back a made-up zero value |
| ConcurrentMapTheorems.RunInv | util/sync_map.go:122-525 | the whole invariant, with a shape for each stage of the critical section of the lock holder, holds in every reachable state |
| ConcurrentMapTheorems.NextInv | util/sync_map.go:122-525 | each call, return and atomic step keeps that invariant |
| ConcurrentMapProof.SwingShared | util/sync_map.go:325-335 | swinging a live entry from one value to another changes the denoted map at the entry's key and nowhere else, and keeps the invariant |
| ConcurrentMapProof.PromoteShared | util/sync_map.go:492-500 | making `dirty` the new `read` leaves the denoted map unchanged; every entry left behind is expunged and gone for good |
| ConcurrentMapProof.ExpungeShared | util/sync_map.go:502-525 | expunging a nil entry while `dirty` is rebuilt leaves the denoted map unchanged |
| ConcurrentMapProof.UnlinkShared | util/sync_map.go:285-291 | deleting a key from `dirty` removes it from the denoted map at that step, though its entry is emptied only later |
| ConcurrentMapProof.InsertShared | util/sync_map.go:363-376 | a fresh entry in `dirty` adds exactly its key to the denoted map |
| SyncMap.Map.constructor | util/sync_map.go:112-117 | a new map is empty |
| SyncMap.Map.Load | util/sync_map.go:122-146 | the result is the plain map's, which stays as it was; a key not in an amended `read` counts a miss, and only such a key does |
| SyncMap.Map.Swap | util/sync_map.go:339-379 | the plain map is updated at the key and the previous value returned, on the clean hit, the revived entry, the dirty hit and the first insertion alike |
| SyncMap.Map.Store | util/sync_map.go:158-160 | the plain map is updated at the key |
| SyncMap.Map.LoadOrStore | util/sync_map.go:207-240 | returns the present value, or stores the given one; `loaded` says which |
| SyncMap.Map.LoadAndDelete | util/sync_map.go:278-301 | removes the key and returns what was there |
| SyncMap.Map.Delete | util/sync_map.go:304-306 | removes the key |
| SyncMap.Map.CompareAndSwap | util/sync_map.go:384-409 | replaces the value of a present key, whatever it is; false and no change for an absent one |
| SyncMap.Map.CompareAndDelete | util/sync_map.go:416-446 | deletes a present key, whatever its value; false for an absent one |
| SyncMap.AsDocumented | util/sync_map.go:381-416 | result and effect of both are the documented ones exactly if the key is absent or its value equals `old` |
| SyncMap.NotAsDocumented | util/sync_map.go:168-187 | a present value other than `old` is replaced, and deleted, where the comments promise false and no change |
| SyncMap.Map.Range | util/sync_map.go:459-490 | visits live keys with their values, none twice, all of them unless the callback stops it, and nothing after that |
| SyncMap.Map.Keys | util/sync_map.go:537-543 | exactly the keys of the plain map, each once |
| SyncMap.Map.Values | util/sync_map.go:545-551 | one value for each key of the plain map |
| SyncMap.Map.Count | util/sync_map.go:552-558 | the size of the plain map |
| SyncMap.Map.MissLocked | util/sync_map.go:492-500 | the plain map stays; `dirty` is promoted exactly when the misses reach its size |
| SyncMap.Map.Promote | util/sync_map.go:497-499 | `dirty` becomes `read` and the plain map stays |
| SyncMap.Map.DirtyLocked | util/sync_map.go:502-514 | `dirty` gets exactly the entries of `read` that hold a value, all others are expunged, and the plain map stays |
| SyncMap.Map.Insert | util/sync_map.go:368-376 | a new key enters through `dirty`, which is built first if it is missing |
| SyncMap.Map.Revive | util/sync_map.go:353-358 | an expunged entry becomes usable and returns to `dirty` without changing the plain map |
| SyncMap.Map.Unlink | util/sync_map.go:285-297 | a key found only in `dirty` leaves it and its value is handed back |
| SyncMap.Entry.TrySwap | util/sync_map.go:325-335 | swaps unless expunged, returning what was there |
| SyncMap.Entry.TryLoadOrStore | util/sync_map.go:247-274 | loads a value, stores into nil, refuses expunged |
| SyncMap.Entry.TryReplace | util/sync_map.go:168-187 | replaces any value, refuses nil and expunged |
| SyncMap.Entry.Delete | util/sync_map.go:308-319 | empties an entry and returns its value |
| SyncMap.Entry.TryExpungeLocked | util/sync_map.go:516-525 | expunges nil; true iff there is no value |
| SyncMap.Entry.UnexpungeLocked | util/sync_map.go:193-195 | turns expunged into nil, and nothing else |
| SyncMap.VisitOne | util/sync_map.go:481-489 | one turn of the walk of `Range` keeps: live, distinct, and all keys dealt with so far |
| TimerRuns.NeverLate | util/timer/cache.go:41-58 | when a tick has taken the due tasks out of `first`, no task left in any of the three containers was due at the tick's scheduled time, in any interleaving of ticks, sweeps and insertions that each end within one tick |
| TimerRuns.NeverEarly | util/timer/cache.go:41-58 | a task a tick takes is due by the clock, and was not due at the previous tick if it was in a container then |
| TimerBound.LateExactly | util/timer/cache.go:82-98 | for a tick of length T some run leaves a due task behind exactly if an insertion may reach its container later than T after it read the clock |
| TimerBound.LateRun | util/timer/cache.go:82-119 | the run in which it does: an insertion one unit slower than a tick misses a sweep and its task is not taken by the tick it is due at |
| TimerRuns.RunOnTime | util/timer/cache.go:82-134 | in every reachable state everything in `second` is due after the tick that launches its next sweep, and everything in `third` four ticks after the one that launches its next sweep: the 4T and 20T sweeps against the 5T and 25T windows |
| TimerRuns.StepOnTime | util/timer/cache.go:82-134 | each step of the ticker, the sweeps and the insertions keeps that |
| TimerRuns.SweepCadence | util/timer/cache.go:43-47 | in every reachable state the counters agree with the number of ticks: a sweep of `second` every four, of `third` every twenty |
| TimerRuns.BeginCadence | util/timer/cache.go:43-47 | a tick launches a sweep of `second` exactly if its number is a multiple of four |
| TimerRuns.StartCadence | util/timer/cache.go:101-106 | a sweep of `second` launches one of `third` exactly at every twentieth tick |
| TimerRuns.MovesKeepAlive | util/timer/cache.go:82-134 | time, ticks, sweeps and insertions conserve the multiset of tasks over `first`, `second`, `third`, fired, waiting and being inserted |
| TimerRuns.CallsExactly | util/timer/timer.go:16-67 | a task asked for with N calls has been called at most N times, the call made at once included; while calls are owed it is alive in exactly one place with that many left, and when none is owed it is gone; a task without end is never dropped |
| TimerRuns.KthFiring | util/timer/cache.go:64-80 | the k-th firing of a task is due exactly k intervals after its first due time, and happens no earlier |
| TimerRuns.RunLedger | util/timer/cache.go:64-80 | in every reachable state the due time, the runs left and the number of firings of each task agree with what was asked for |
| Timer.TimeSplit | util/timer/common.go:46-56 | the due rows and the others, each in their order |
| Timer.SplitConserves | util/timer/common.go:46-56 | nothing is lost or invented, and the split is exactly at the timestamp |
| Timer.SplitInOrder | util/timer/common.go:46-56 | both sides keep the order of the rows |
| Timer.Windows | util/timer/cache.go:82-98 | the windows of the containers, and that an insertion adds its task and nothing else |
| Timer.MovesConserve | util/timer/cache.go:101-134 | both sweeps conserve the tasks of the three containers, and move exactly what is due by their limit |
| Timer.TimerFunc.Run | util/timer/cache.go:64-80 | how often the function is called, whether the task is inserted again, and with which `times` and `next` |
| Timer.Wheel.constructor | util/timer/cache.go:21-34 | empty containers; `level` 5 unless a positive interval is given |
| Timer.Wheel.CountTick | util/timer/cache.go:43-47 | every fourth tick launches a sweep of `second` |
| Timer.Wheel.SplitFirst | util/timer/cache.go:49-58 | what is due leaves `first`, the rest stays in order |
| Timer.Wheel.CountSweep | util/timer/cache.go:102-106 | every fifth sweep of `second` launches one of `third` |
| Timer.Wheel.CheckSecondCache | util/timer/cache.go:108-119 | what is due within 5T moves from `second` to `first`, and nothing else moves |
| Timer.Wheel.CheckThirdCache | util/timer/cache.go:122-134 | what is due within 25T moves from `third` to `second`, and nothing else moves |
| Timer.Wheel.PutInto | util/timer/cache.go:82-98 | the task goes to the container of its window and nowhere else |
| Timer.Advance | util/timer/timer.go:132-136 | the first value after now on the grid of the start and the step |
| Timer.NewTimer | util/timer/timer.go:16-48 | an error for zero; otherwise the calls made at once and the runs of the inserted task add up to what was asked for |
| Timer.NewRunDuration | util/timer/timer.go:52-67 | first due one duration from now; nothing for zero |
| RpcSessionProof.NothingForgotten | rpc/go_client.go:97-226 | in every state of every run an accepted two-way call is pending, held by exactly one thread about to complete it, or completed; once the reader has stopped it is completed or its sender is about to complete it |
| RpcSessionProof.Completions | rpc/go_client.go:97-226 | the completions of an accepted call are: none, one response, one failed send, one at the end of the connection, or that last followed by a failed send; never anything for a one-way call |
| RpcSessionProof.TwiceExactly | rpc/go_client.go:132-141 | a call has been or is about to be completed twice exactly if its sender, after a failed write, found it in the table of a connection already shut down |
| RpcSessionProof.CompletedTwice | rpc/go_client.go:206-209 | a run in which a call is completed twice |
| RpcSessionProof.NoLateRegistration | rpc/go_client.go:98-112 | once `shutdown` or `closing` is set no call gets a number or enters the table ever again; later calls are refused and never completed otherwise |
| RpcSessionProof.ClosedForGood | rpc/go_client.go:270-279 | so it is from the step of `Close`, and of the reader's end, on |
| RpcSessionProof.FirstErrorEnds | rpc/go_client.go:147-194 | a header or body that cannot be read ends the reader for good: nothing more is read and no call completed by a response |
| RpcSessionProof.RightReply | rpc/go_client.go:153-193 | a call completed by a response sees exactly what came of its own request, which carried its method and arguments: the handler's reply and return value, its error text, "server exception" after a panic, or the reason for refusing it; in whatever order workers finish |
| RpcSessionProof.TwoWayIsAnswered | rpc/go_client.go:97-194 | for every two-way call, return value and reply there is a run in which the call is completed with exactly these |
| RpcSessionProof.WireResponse | rpc/go_server.go:240-258 | every response on the wire carries the return value, error text and reply of the outcome of its request |
| RpcSessionProof.OneCallPerResponse | rpc/go_client.go:153-193 | no response completes two calls, nor one call twice |
| RpcSessionProof.ServedOnce | rpc/go_server.go:443-467 | each request is handed to a handler at most once, with the method and arguments of the call it was sent for |
| RpcSessionProof.OneWayDiscarded | rpc/go_client.go:160-170 | a one-way call is never pending, and a response to it reaches no call |
| RpcSessionProof.AnsweredExactly | rpc/coder.go:175-181 | a one-way call can be answered in some run exactly if it is raw |
| RpcSessionProof.RawIsAnswered | rpc/coder.go:175-181 | the run in which it is, for every raw one-way call and every outcome of its handler |
| RpcSessionProof.NeverAnswered | rpc/go_server.go:390-393 | in every run a one-way call that is not raw has no response, waiting or on the wire |
| RpcSessionProof.RunInv | rpc/go_client.go:97-226 | the invariant over client, streams, server and completions holds in every reachable state |
| RpcSessionProof.NextInv | rpc/go_client.go:97-226 | each step of senders, reader, `Close`, server and workers keeps it |
| RpcClient.ClientState.Send | rpc/go_client.go:97-142 | refusal, numbering, registration and the clean-up after a failed write: whole new state and what is completed; the request has the next number and the call's method, arguments and encoding, and is marked one-way exactly for a one-way call that is not raw |
| RpcClient.ClientState.TakeBack | rpc/go_client.go:155-158 | looks a number up and removes it |
| RpcClient.ClientState.Input | rpc/go_client.go:144-210 | over any responses: the calls completed, in order, then every call left in the table once; the table afterwards; `shutdown` |
| RpcClient.ClientState.Terminate | rpc/go_client.go:196-210 | every pending call is ended exactly once, in any order, and stays in the table |
| RpcClient.ClientState.Close | rpc/go_client.go:270-279 | `closing` is set; an error the second time |
| RpcClient.DoneOnce | rpc/go_client.go:153-193 | over any responses a pending call is completed at most once, by a response with its number, and exactly if it has left the table |
| RpcClient.LeavesExactly | rpc/go_client.go:147-194 | and it leaves the table exactly if a response with its number is read, every one before it having been read whole |
| RpcClient.DoneInOrder | rpc/go_client.go:147-194 | calls are completed in the order of the responses, each by its own |
| Framing.Buffer.WriteFrame | rpc/coder.go:25-40 | the length and the bytes are appended, or nothing if there are 2^30 bytes or more |
| Framing.Buffer.Take | rpc/coder.go:42-62 | the frame, end of file, unexpected end of file or bad length, and how much is consumed |
| Framing.FrameLayout | rpc/coder.go:31-38 | a frame is the length in four bytes, most significant first, and then the buffer |
| Framing.FitsExactly | rpc/coder.go:21-29 | what fits is less than 2^30 bytes |
| Framing.ReadsBack | rpc/coder.go:25-62 | reading a written frame gives its bytes and leaves what follows, for every buffer below 2^30 bytes |
| Framing.CutShort | rpc/coder.go:42-62 | a frame cut anywhere is an error: end of file at the start or right after the length, unexpected end of file elsewhere |
| Framing.ServeInStep | rpc/go_server.go:443-467 | over any list of pairs followed by anything, the server's loop reads exactly those pairs, each header with its own body |
| Framing.InputInStep | rpc/go_client.go:144-194 | likewise for the client's loop |
| Framing.TruncatedStream | rpc/coder.go:42-62 | a stream of pairs cut anywhere gives the whole pairs before the cut and then an error, never a wrong frame, at both ends |
| Framing.ReadRequest | rpc/go_server.go:532-610 | dispatches exactly if the header decodes and is found and the body is read and valid, refuses exactly if the header decodes and one of the others fails, ends the loop otherwise; consumes exactly the header and one body frame |
| Framing.ServeCodec | rpc/go_server.go:443-467 | each turn of the stream is dispatched or refused on these terms, in order, until a header cannot be read or decoded |
| Framing.DispatchedExactly | rpc/go_server.go:443-467 | over a stream of pairs the i-th pair is handed to a worker exactly if its method is known and its body valid |
| Framing.ReadResponse | rpc/go_client.go:147-194 | every branch of the client, no call, error, encoded or raw reply, consumes exactly the header and one body frame |
| Framing.WholePairs | rpc/coder.go:138-153 | however concurrent writers interleave and wherever the connection breaks, the stream is whole pairs followed at most by part of one |
| Framing.ServeUntil | rpc/go_server.go:443-467 | over any pairs and any decoder the server reads the pairs before the first header that does not decode, and goes on past them exactly if there is none |
| Framing.ReaderSeesWhatWasWritten | rpc/coder.go:138-153 | at any moment the server, with any decoder, reads exactly the pairs written so far in the order of the mutex, up to the first header it cannot decode, and after all of them exactly what there is of the pair being pushed or broken |
| Framing.InputUntil | rpc/go_client.go:144-194 | over any pairs, any decoder and any verdict on bodies the client reads up to the first header that does not decode and up to and including the first body it refuses |
| Framing.ClientSeesWhatWasWritten | rpc/coder.go:258-264 | likewise what the client reads of what the server wrote so far |
| FreeLists.FreeList.Get | rpc/go_server.go:492-503 | the object was in nobody's use, every field is zero, and the list stays acyclic and disjoint from what is in use |
| FreeLists.FreeList.Free | rpc/go_server.go:505-510 | only an object in use can be given back; it becomes the head of the list |
| FreeLists.Server.ServeTurn | rpc/go_server.go:443-467 | a request handed to a worker carries exactly the header read; one refused is given back after its answer; one without a header is dropped; no other worker's request is touched |
| FreeLists.Server.GetFilled | rpc/go_server.go:573-588 | the object holds exactly the header read, even when the header has no context |
| FreeLists.Server.Finish | rpc/go_server.go:384-397 | a worker that returns or panics gives its request back exactly once, after its one response unless the request is one-way |
| FreeLists.Server.SendResponse | rpc/go_server.go:240-258 | the response written takes every field from its request and outcome; its object is in use only meanwhile |
| FreeListRuns.NeverShared | rpc/go_server.go:443-530 | in any interleaving of any number of serving loops and workers neither list holds an object twice, no listed object is in use, and no object is used by two threads |
| FreeListRuns.FreedOncePerGet | rpc/go_server.go:443-530 | every object is given back as often as it was got, or once less: at most once per get on the success, lookup-error, bad-body and panic paths |
| FreeListRuns.DroppedExactly | rpc/go_server.go:573-584 | a request object is lost exactly if a loop that had got it failed to read its header |
| FreeListRuns.LostExactly | rpc/go_server.go:443-530 | when no thread holds anything a request object is out of the list exactly if that happened to it, and every response object is in its list |
| FreeListRuns.Loss | rpc/go_server.go:573-584 | a run with two loops in which one object is lost and the other given back |
| FreeListRuns.OneWay | rpc/go_server.go:384-397 | the only way of a request object: a two-way request is answered and its response object given back before it is, a one-way request is given back unanswered |
| FreeListRuns.RunInv | rpc/go_server.go:443-530 | list, holders and counts agree in every reachable state |
| Rand.DrawBelow | util/rand.go:18-46 | the result is below n and is the remainder of the first accepted draw; panic for n not positive |
| Rand.Unbiased | util/rand.go:25-30 | every result is the remainder of equally many accepted draws |
| Rand.Shuffle | util/rand.go:84-101 | the array after n passes with the given draws |
| Rand.OnePass | util/rand.go:86-89 | the array after one pass |
| Rand.PassesPermute | util/rand.go:84-101 | any number of passes permutes |
| Rand.EachPermutationOnce | util/rand.go:86-89 | on distinct elements each permutation arises from exactly one vector of draws |
| Rand.PassInjective | util/rand.go:86-89 | different draws give different arrangements |
| Rand.PassSurjective | util/rand.go:86-89 | every arrangement has draws that make it |
| Rand.PassTop | util/rand.go:86-89 | a pass leaves at the highest index the element its draw chose, and below it the pass of the lower draws over the rest |
| Rand.RandLessWight | util/rand.go:115-152 | the index chosen and the weights left behind, in 64-bit arithmetic; panics for no weights and for a zero total |
| Rand.ExactShares | util/rand.go:142-151 | without overflow index k is chosen for exactly its new weight of the remainders below the total, and the final `return 0` is unreachable |
| Rand.PickExactly | util/rand.go:144-149 | index k is chosen exactly by the remainders from the sum of the weights before it up to its own |
| Rand.RaisedBy | util/rand.go:130-134 | the maximum is raised by ten below ten and by a fifth from there |
| Rand.SharesExactly | util/rand.go:138-151 | every index gets exactly its new weight of the remainders below the total, exactly when the sum of the new weights fits 64 bits |
| Rand.FairWeights | util/rand.go:129-137 | without overflow every new weight is at least 2 and a smaller load never gets a smaller share |
| Rand.FairExactly | util/rand.go:129-137 | a smaller load never gets a smaller share exactly when the raised maximum fits 64 bits or wraps to a value below every load |
| Rand.SharesOverflow | util/rand.go:138-151 | three loads for which they are not exact |
| Rand.FairOverflow | util/rand.go:129-137 | two loads of which the smaller gets the smaller share |
| Rand.NoOverflow32 | util/rand.go:105-112 | 32-bit weights, fewer than 2^31 of them, never overflow |
| Rand.RandLessWight32 | util/rand.go:105-112 | an index for every nonempty list, chosen by the exact shares |
| IdGen.IDGen.NewID | util/id_gen.go:27-43 | the new state and the packed id, or a panic when the 12-bit index is used up |
| IdGen.PackEqual | util/id_gen.go:42-42 | two ids are the same exactly if they agree on four fields: the time or-ed with the generator's high half, the generator's low half or-ed with the module's high half, the module's low half, and the 12-bit index |
| IdGen.SameIdExactly | util/id_gen.go:27-43 | two calls of one generator yield the same id exactly if those fields agree, with the index counting equal readings in a row |
| IdGen.UniqueExactly | util/id_gen.go:27-43 | with no bit of 0xF0 in the generator number and readings below 2^41 ms, the ids returned to one module are all distinct exactly when no reading recurs after a different one and none is taken more than 4096 times in a row; the clock may go back |
| IdGen.IdsDistinct | util/id_gen.go:27-43 | under those conditions returned ids are distinct for any modules |
| IdGen.RecurrenceCollides | util/id_gen.go:28-35 | for one module and any generator number, a reading that recurs after another always repeats an id |
| IdGen.LongBlockCollides | util/id_gen.go:37-40 | so does a reading taken 4097 times in a row, once the panic is recovered from |
| IdGen.NoPanicExactly | util/id_gen.go:37-40 | no call panics exactly when no 4096 readings in a row are the same |
| IdGen.OneMillisecond | util/id_gen.go:32-40 | within one millisecond the n-th call has index n and panics iff 4096 divides n, and two ids are equal exactly if the numbers of their calls agree modulo 4096 |
| IdGen.CleanExactly | util/id_gen.go:42-42 | readings below 2^41 that never recur and never stay for 4096 calls give distinct ids exactly for the generator numbers with no bit of 0xF0 |
| IdGen.SpillCollides | util/id_gen.go:42-42 | for every other generator number, every time that lacks the spilled bits shares its id with a later time |
| IdGen.MeetExactly | util/id_gen.go:42-42 | generators g and g' with modules m and m' can produce the same id exactly if the modules agree in their low halves and generator-or-module agrees in bits 16 to 19; otherwise they never do |
| IdGen.GeneratorsDisjoint | util/id_gen.go:42-42 | so generators with different numbers below 16 never meet for modules below 16 |
| IdGen.ModulesCollide | util/id_gen.go:42-42 | and module 16g + m of generator 0 meets module m of generator g at every time and index |
| IdGen.Module16 | util/id_gen.go:42-42 | with module 16, generators 1 and 0 meet and generators 8 and 0 never do |
| IdGen.TimeRecovered | util/id_gen.go:46-48 | `GetTimeFromId` gives back the second of every time below 2^41 exactly when bit 7 of the generator number is clear |
| IdGen.TimeField | util/id_gen.go:42-42 | above bit 20 an id is the time, or-ed with the high half of the generator's byte |
| IdGen.IndexField | util/id_gen.go:42-42 | below bit 12 an id is the index |
| IdGen.GeneratorField | util/id_gen.go:42-42 | bits 16 to 19 are the generator's low half or-ed with the module's high half |
| IdGen.ModuleField | util/id_gen.go:42-42 | bits 12 to 15 are the module's low half |
| Handshake.SharedSecret | gnet/handshake.go:11-95 | for a modulus and base of 128 bytes and anything following B: the server reads p, g and g^a mod p and finishes exactly when that occupies 128 bytes; when B does too both ends hold g^(ab) mod p; when B is shorter the client finishes exactly if enough follows, on the number made of B and what follows |
| Handshake.SameSecretExactly | gnet/handshake.go:40-50 | after a B that is too short and enough bytes following, the client holds the server's secret exactly if the number it read raises to the same power |
| Handshake.OtherSecret | gnet/handshake.go:40-50 | with a B of 127 bytes, and an exponent that tells remainders apart, some following byte makes the client finish on a secret that is not the server's |
| Handshake.Agreement | gnet/handshake.go:46-48 | (g^a)^b = (g^b)^a modulo p for all g, a, b, p (section 2.1.1 of RFC 2631) |
| Handshake.ExpIsPower | gnet/handshake.go:32-32 | modular exponentiation is repeated multiplication: the equations of powers modulo m |
| Handshake.MinimalDigits | gnet/handshake.go:97-113 | the bytes of a number are its digits to the base 256, most significant first and that one not zero |
| Handshake.ValueOfMinimal | gnet/handshake.go:97-130 | big-endian bytes without leading zeros read back as the number |
| Handshake.Conn.ReadBigInt | gnet/handshake.go:122-130 | 128 bytes as a number, or an error |
| Handshake.Conn.WriteBigInts | gnet/handshake.go:97-105 | the numbers one after the other, each in as few bytes as it needs |
| Handshake.Conn.ClientHello | gnet/handshake.go:30-38 | p, g and A are sent |
| Handshake.Conn.ClientFinish | gnet/handshake.go:40-50 | the secret from B |
| Handshake.Conn.Serve | gnet/handshake.go:54-95 | B is sent and the secret derived, or an error when p, g or A is cut short |
| BytesCache.GetIndex | util/bytes_cache/cache.go:44-62 | the ceiling of the binary logarithm |
| BytesCache.EndsExactly | util/bytes_cache/cache.go:50-56 | shifting a size right reaches zero, so that the loop ends, exactly if it is not negative |
| BytesCache.Cache.Get | util/bytes_cache/cache.go:24-34 | for every 64-bit length and capacity: panics when the capacity is below the length or above 2^62, never ends for a negative size, and otherwise hands out a buffer nobody holds, from the pool of its class or new; while the pools are exact, slicing is out of range only for a negative length |
| BytesCache.Cache.Put | util/bytes_cache/cache.go:36-42 | of any buffer not already pooled: powers of two and zero go to the pool of their class, other capacities are dropped; the pools stay exact exactly if the capacity is not zero |
| BytesCache.RunSound | util/bytes_cache/cache.go:24-42 | in every run, with pools that may forget buffers, pool i holds only unheld buffers of capacity 2^i, or of capacity zero in pool 0 |
| BytesCache.ExactExactly | util/bytes_cache/cache.go:24-42 | in every run the pools hold exact capacities throughout exactly if no buffer of capacity zero was put |
| BytesCache.GetInRange | util/bytes_cache/cache.go:33-33 | in every run a get never hands out a held buffer, and slicing it is out of range exactly if its capacity is zero and the length one, after a buffer of capacity zero was put |
| BytesCache.ZeroHanded | util/bytes_cache/cache.go:33-42 | a run: put a buffer of capacity zero, and a get of length one is handed it |
| BytesCache.SingleIs | util/bytes_cache/cache.go:38-38 | `size & -size == size` holds of zero and the powers of two only |
| Gateway.UnpadInverts | util/crypto.go:36-64 | unpadding undoes padding for every block size below 256 (section 6.3 of RFC 5652) |
| Gateway.PadContent | util/crypto.go:36-40 | the bytes added each hold their number |
| Gateway.ChainBlocks | util/crypto.go:77-79 | each block is the encryption of the plain block xored with the encrypted block before it |
| Gateway.InitialVector | util/crypto.go:76-76 | the block before the first is sixteen characters 0 |
| Gateway.UnchainInverts | util/crypto.go:77-93 | decrypting a chain of blocks undoes encrypting it, for every block cipher (section 6.2 of NIST SP 800-38A) |
| Gateway.DecryptInverts | util/crypto.go:66-96 | decryption undoes encryption for every body |
| Gateway.Layout | gnet/message.go:108-133 | what is written byte by byte; the body is encrypted exactly when there is a key and bit 0 of the mask is set |
| Gateway.ReadLayout | gnet/message.go:60-105 | what is read byte by byte, with its three errors; the body is decrypted exactly when there is a key and bit 0 of the mask is set |
| Gateway.RoundTrip | gnet/message.go:60-133 | reading a written message gives all its fields and its body back and leaves what follows, with or without encryption |
| Gateway.RoundTripExactly | gnet/message.go:60-133 | a message comes back as it was exactly when its application name has four bytes and its encoded body at most 65535 |
| Gateway.ShortName | gnet/message.go:122-133 | a message with a name of three bytes does not |
| Gateway.StreamRoundTrip | gnet/message.go:60-133 | any concatenation of such messages is read back in order |
| Gateway.WriteMessageWithKey | gnet/message.go:108-133 | the bytes written, with the length field cut to 16 bits |
| Gateway.ReadMessageWithKey | gnet/message.go:60-105 | the message read and what is left of the stream, or an error |
| WatchMessage.RoundTrip | watch/message.go:20-82 | reading a written message gives it back and leaves what follows |
| WatchMessage.StreamRoundTrip | watch/message.go:20-82 | any list of messages with trimmed, newline-free commands and newline-free values is read back exactly |
| WatchMessage.RoundTripOnly | watch/message.go:20-82 | with numbers in 64-bit range, a message comes back exactly when its command is trimmed and neither it nor a value holds a newline |
| WatchMessage.NotCarried | watch/message.go:20-82 | a command that ends in a space and a value with a newline do not come back |
| WatchMessage.AtoiItoa | watch/message.go:38-45 | every 64-bit number comes back from its decimal form |
| WatchMessage.ItoaForm | watch/message.go:65-70 | a number is written with a minus sign exactly if it is negative, and without leading zeros |
| WatchMessage.AtoiExactly | watch/message.go:38-45 | a string that is no number reads as zero, one out of range as the nearest 64-bit number |
| WatchMessage.Layout | watch/message.go:59-82 | a message is its command, its number, the count of its values and the values, a line each |
| WatchMessage.BlanksDropped | watch/message.go:31-31 | blanks, tabs and carriage returns around a command are dropped |
| WatchMessage.WriteWatchMessage | watch/message.go:59-82 | the lines written |
| WatchMessage.Reader.ReadWatchMessage | watch/message.go:20-57 | the message read and what is left, or an error when a line is missing |

## Left out

- Sockets, HTTP, websocket and KCP servers, listeners and dialling: plumbing over libraries.
- Protobuf and JSON marshalling, registration and dispatch by reflection: payloads and handlers are uninterpreted; that `encode` may fail is part of a failing write.
- AES, SHA-256 and prime generation: the block cipher is any pair of inverse functions on blocks, the final hash of the handshake is a function of the shared secret, p, g, a and b are arbitrary. The DES path is not modelled.
- Databases, logging, `rpc/rpc_node.go`, `watch/server.go`, `watch/client.go`, `util/hash_set.go`: bookkeeping that would add only easy members.
- Call timeouts and the worker pool: a timeout only stops the caller waiting; a submitted task is a step that may happen at any time.
- The date formats of `checkTime` (util/timer/timer.go:105-126): only its advance loop is modelled.
- `KeysFunc`, `NewRunTime` and the generic-free duplicates of the shuffle: the same code again.
- The `RpcCallBack` closure, which reads a request that may already have been given back (rpc/go_server.go:424-428), is outside the ownership proof.
- The error values with which pending calls are ended (rpc/go_client.go:199-205) and the close callback: an ended call is just `Ended`.
- The capacity of a call's `Done` channel: a completion is the attempt to send on it; a full channel drops it (rpc/go_client.go:218-226).
- Wrap-around of 64-bit sequence numbers, of times in nanoseconds and of the id generator's index: these are unbounded.
- Aliasing of a `TimerFunc` between a run and its insertion (util/timer/cache.go:78-79), and of the slice that padding appends to (util/crypto.go:39): tasks and byte strings are values.
- SyncMap.Map.Range: the callback is a pure function; it does not call back into the map. Re-entrant and concurrent use of `Range` is covered by `ConcurrentMapLinearizable.RangeIsWitnessed`.
- ConcurrentMapLinearizable.Linearizable: leaves `Range` out of the order, because the source does not promise a consistent snapshot.
- TimerRuns.NeverLate: assumes that a tick begins within one tick length of its schedule, that what it launches on the containers ends before the next tick is due, and that an insertion reaches its container within one tick length of reading the clock. The last bound is the exact one (`TimerBound.LateExactly`); of the other two only that they suffice is proved.
- FreeLists.Server.ServeTurn: one turn at a time; finer interleavings are the subject of `FreeListRuns`, which in turn treats objects as numbers and leaves their links to `FreeLists`.
- BytesCache.GetIndex: sizes that are not negative; for the others the source does not terminate (`EndsExactly`), which `Get` reports as an outcome.
- BytesCache.Cache.Put: a buffer put twice is the caller's mistake and outside the model, as are slices that share memory.
- Handshake.OtherSecret: that a prime modulus and an exponent coprime to one less tell remainders apart is a premise (`Separates`), shown only for the exponent 1.
- Handshake.SharedSecret: nothing follows A on the client's stream, because the client sends nothing before it has read B; waiting for bytes that never come is an end without a secret.
