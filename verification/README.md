# Minitouch session core, modelled in Dafny

This project models the core of `Minitouch`, the class that drives the
minitouch touch-injection helper on an Android device: it allocates a
local-to-device port forward with a per-device channel name, launches the
helper, polls the forwarded port until the helper answers, hands the
connected socket to the session, relays touch commands and tears the
session down. The device bridge (ADB), real sockets and threads are outside
the model; their results enter as parameters.

Files and modules:

- `wrappers.dfy` (`Wrappers`): `Option` and `Result`.
- `java_text.dfy` (`JavaText`): the Java library behaviour the allocator
  depends on, written out: `int` wrap-around on `+ 1`, `String.split("_")`
  (trailing empty strings dropped, the whole string when there is no
  separator), `Integer.parseInt` (optional sign, digits, `int` range) and the
  `%d` conversion, with the round trips between them.
- `forward_allocator.dfy` (`ForwardAllocator`): `generateForwardInfo` as a
  method with its loop, proved equal to the function `Allocate`, and the
  properties of `Allocate`: the number is one past the largest counted
  number, or 1 when no counted number is positive, other devices' forwards and channels that do not
  split into three fields are ignored, a three-field channel whose third
  field is not an `int` raises. For a serial without `_`, and as long as the
  largest number is below `INT_MAX`, the new channel differs from every
  channel the device already has; for a serial with `_` the same channel
  name comes out again.
- `connection_bootstrap.dfy` (`ConnectionBootstrap`): the retry loop of
  `startInitialThread` as the function `Run` of the sequence of attempt
  outcomes (`Thrown`, `EndOfStream`, `Data`), and what its result means.
- `session.dfy` (`Session`): the class `Minitouch` with the fields
  `listeners`, `forward`, `isForward`, `socket`, `outputStream`, and a ghost
  log of the effects the session has on the outside world (listener
  callbacks, forward removal, helper launch, socket close, writes). The
  bootstrap loop is a method with a `while` loop proved equal to `Run`.
  `EndToEnd` is a client that walks a session through listener
  registration, start, a send, and two kills using only the contracts.

Where the code departs from what its names and comments suggest, the model
follows the code:

- In the retry loop the exception branch ends in `continue`
  (Minitouch.java:261), which skips the decrement at :263. Only reads that
  return -1 consume the 200-attempt budget. A helper that refuses every
  connection keeps the loop spinning without ever calling `onStartup`
  (`ConnectionBootstrap.ExceptionsNeverEndTheLoop`), rather than failing
  after 200 attempts.
- `kill()` calls `onClose` on every listener and asks for the forward's
  removal on every call, not once (`Session.Minitouch.Kill`, and the two
  kills in `EndToEnd`). It clears `minitouchSocket` but not
  `minitouchOutputStream`, so a later `sendEvent` still attempts a write on
  the closed socket (`Session.Minitouch.Kill` keeps the stream, and
  `EndToEnd` sends after the kills).
- Only channel names that split into a number of fields other than three
  are skipped silently. A three-field channel whose third field is not an
  `int` makes `Integer.parseInt` throw, and the allocation fails.
- `maxNumber` starts at 0 (Minitouch.java:182) and only ever grows, so
  channels numbered 0 or below never affect the result: a device whose only
  channel is `S_touch_-5` gets `S_touch_1`
  (`ForwardAllocator.NonPositiveAllocatesOne`).
- `maxNumber += 1` is Java `int` arithmetic: when some channel of the device
  ends in 2147483647 the new channel ends in -2147483648
  (`ForwardAllocator.AllocationWrapsAtIntMax`).
- For a serial containing `_`, every channel the allocator generates has
  four or more fields and is ignored. The next allocation then gives the
  same name again (`ForwardAllocator.UnderscoreSerialRepeatsChannel`).

`Socket.isConnected()` stays true for a socket once it has connected, even
after it is closed, and the session only ever stores sockets that
connected. The guard in `kill()` (Minitouch.java:148) therefore reduces to
"a socket is stored".

## Model

| member | source | states |
|---|---|---|
| `JavaText.Inc32IsModular` | src/main/java/com/yeetor/minitouch/Minitouch.java:195 | `maxNumber += 1` is two's-complement addition: `n + 1` reduced modulo 2^32 into the `int` range |
| `JavaText.Fields` | src/main/java/com/yeetor/minitouch/Minitouch.java:187 | the `_`-separated pieces, empty ones included, that `split` cuts before it drops trailing empty strings: at least one piece, and at least two when the string holds a `_` |
| `JavaText.Split` | src/main/java/com/yeetor/minitouch/Minitouch.java:187 | `split("_")` gives the whole string when it holds no `_`, and otherwise its pieces without the trailing empty ones: a prefix of the pieces, ending in a non-empty one, with only empty pieces dropped |
| `JavaText.FieldsHaveNoSeparator` | src/main/java/com/yeetor/minitouch/Minitouch.java:187 | no field of a split contains `_` |
| `JavaText.DropTrailingEmpty` | src/main/java/com/yeetor/minitouch/Minitouch.java:187 | `split` keeps a prefix of the fields, drops only empty strings, and the kept list does not end in an empty string |
| `JavaText.JoinFields` | src/main/java/com/yeetor/minitouch/Minitouch.java:187 | joining the pieces of a string (empty ones included, before trimming) with `_` gives the string back |
| `JavaText.FieldsJoin` | src/main/java/com/yeetor/minitouch/Minitouch.java:187 | cutting the `_`-join of separator-free pieces at every `_`, before trailing empty strings are dropped, gives the pieces back |
| `JavaText.FieldsAround` | src/main/java/com/yeetor/minitouch/Minitouch.java:187 | the fields of `x + "_" + u` are the fields of `x` followed by the fields of `u` |
| `JavaText.ParseInt` | src/main/java/com/yeetor/minitouch/Minitouch.java:189 | `Integer.parseInt` accepts a string only when it is an optional sign followed by at least one digit; the empty string is rejected |
| `JavaText.ParseIntAccepts` | src/main/java/com/yeetor/minitouch/Minitouch.java:189 | an optional sign then digits parse to their signed value when it fits an `int`, and are rejected when it does not |
| `JavaText.ParseIntRejects` | src/main/java/com/yeetor/minitouch/Minitouch.java:189 | a non-digit anywhere except a leading sign, or a sign alone, makes `parseInt` throw |
| `JavaText.DigitsOf` | src/main/java/com/yeetor/minitouch/Minitouch.java:197 | `%d` prints at least one decimal digit, and no leading zero unless the number is 0 |
| `JavaText.FormatInt` | src/main/java/com/yeetor/minitouch/Minitouch.java:197 | the printed number is non-empty and contains no `_` |
| `JavaText.DigitsRoundTrip` | src/main/java/com/yeetor/minitouch/Minitouch.java:197 | the digits printed for `n` denote `n` |
| `JavaText.ParseFormatted` | src/main/java/com/yeetor/minitouch/Minitouch.java:189-197 | `parseInt` of what `%d` printed is the original `int` |
| `ForwardAllocator.Read` | src/main/java/com/yeetor/minitouch/Minitouch.java:185-191 | another device's forward, or a channel that does not split into exactly three fields, is ignored; otherwise the third field is parsed to its `int`, or is malformed when `parseInt` rejects it |
| `ForwardAllocator.Scan` | src/main/java/com/yeetor/minitouch/Minitouch.java:182-194 | the loop's `maxNumber` starts at 0 and never becomes negative; its type keeps it an `int` |
| `ForwardAllocator.GenerateForwardInfo` | src/main/java/com/yeetor/minitouch/Minitouch.java:179-201 | the loop returns exactly `Allocate` of the serial, the forward list and the free port; the forward carries the device serial and the free port |
| `ForwardAllocator.FailureSticks` | src/main/java/com/yeetor/minitouch/Minitouch.java:184-190 | once a prefix of the readings has raised, the rest of the list cannot undo it |
| `ForwardAllocator.ScanStep` | src/main/java/com/yeetor/minitouch/Minitouch.java:185-194 | one more forward is ignored, raises its third field, or keeps the larger of `maxNumber` and its number |
| `ForwardAllocator.ScanIsMaximum` | src/main/java/com/yeetor/minitouch/Minitouch.java:182-194 | on success no reading is malformed, every parsed number is at most `maxNumber`, and `maxNumber` is 0 or one of them |
| `ForwardAllocator.ScanFailure` | src/main/java/com/yeetor/minitouch/Minitouch.java:185-190 | the loop raises if and only if some reading is a non-`int` third field; the error names the first such field |
| `ForwardAllocator.ScanOnePastMax` | src/main/java/com/yeetor/minitouch/Minitouch.java:182-194 | without malformed readings, `maxNumber` ends one below `n` whenever `n` is one past the largest parsed number (1 if none is positive) |
| `ForwardAllocator.AllocatesOnePastMax` | src/main/java/com/yeetor/minitouch/Minitouch.java:182-199 | without malformed channels the forward is `(serial, freePort, serial_touch_n)` for `n` one past the largest counted number, or 1 when none is positive |
| `ForwardAllocator.NonPositiveAllocatesOne` | src/main/java/com/yeetor/minitouch/Minitouch.java:182-197 | when no counted number is positive, whatever channels numbered 0 or below exist, the channel is `serial_touch_1` |
| `ForwardAllocator.NoneCountedAllocatesOne` | src/main/java/com/yeetor/minitouch/Minitouch.java:182-197 | with no counted forward the channel is `serial_touch_1` |
| `ForwardAllocator.AllocationWrapsAtIntMax` | src/main/java/com/yeetor/minitouch/Minitouch.java:190-197 | a counted number equal to `INT_MAX` makes the new channel end in `INT_MIN` |
| `ForwardAllocator.IgnoredReadingsDoNotMatter` | src/main/java/com/yeetor/minitouch/Minitouch.java:185-188 | forwards of other devices and channels without exactly three fields do not change `maxNumber` or the error |
| `ForwardAllocator.ChannelNameFields` | src/main/java/com/yeetor/minitouch/Minitouch.java:187-197 | a generated channel splits into the serial's fields, `touch` and the number |
| `ForwardAllocator.OwnChannelReadsBack` | src/main/java/com/yeetor/minitouch/Minitouch.java:185-197 | for a serial without `_`, a generated channel is read back as its own number |
| `ForwardAllocator.UnderscoreSerialChannelIgnored` | src/main/java/com/yeetor/minitouch/Minitouch.java:187-197 | for a serial with `_`, a generated channel is ignored by the allocator |
| `ForwardAllocator.AllocatedChannelIsFresh` | src/main/java/com/yeetor/minitouch/Minitouch.java:181-197 | for a serial without `_` and no wrap-around, the new channel differs from every channel the device already has |
| `ForwardAllocator.UnderscoreSerialRepeatsChannel` | src/main/java/com/yeetor/minitouch/Minitouch.java:181-199 | for a serial with `_`, adding the allocated forward to the list leaves the next allocation unchanged |
| `ConnectionBootstrap.PendingMeaning` | src/main/java/com/yeetor/minitouch/Minitouch.java:234-268 | the loop is still retrying iff no attempt got data and fewer than the budget's reads returned -1; the budget left is the budget minus those reads, exceptions cost nothing |
| `ConnectionBootstrap.ConnectedMeaning` | src/main/java/com/yeetor/minitouch/Minitouch.java:242-251 | a connection is on the first attempt that got data, with budget left at that point |
| `ConnectionBootstrap.GaveUpMeaning` | src/main/java/com/yeetor/minitouch/Minitouch.java:244-266 | giving up happens on the read that takes the count of -1 reads to the budget, with no data before it |
| `ConnectionBootstrap.EofsExhaustBudget` | src/main/java/com/yeetor/minitouch/Minitouch.java:244-266 | `tryTime` consecutive -1 reads end the loop with a failure on the last of them |
| `ConnectionBootstrap.TwoHundredEofsGiveUp` | src/main/java/com/yeetor/minitouch/Minitouch.java:234-266 | 200 reads of -1 in a row give up after attempt 200 |
| `ConnectionBootstrap.FirstDataConnects` | src/main/java/com/yeetor/minitouch/Minitouch.java:242-251 | the first attempt that gets data connects on its socket when fewer than the budget's reads returned -1 before it |
| `ConnectionBootstrap.ExceptionsNeverEndTheLoop` | src/main/java/com/yeetor/minitouch/Minitouch.java:253-262 | any number of attempts that throw leave the budget whole and the loop unfinished |
| `Session.BroadcastInOrder` | src/main/java/com/yeetor/minitouch/Minitouch.java:275-284 | a notification calls each registered listener once per registration, in list order |
| `Session.StartupNoticesOnce` | src/main/java/com/yeetor/minitouch/Minitouch.java:247-279 | an ended loop tells every listener once whether it connected, never success and failure both; a pending loop tells no one |
| `Session.Minitouch.constructor` | src/main/java/com/yeetor/minitouch/Minitouch.java:54-60 | a new session has no listener, forward, socket or output stream |
| `Session.Minitouch.AddEventListener` | src/main/java/com/yeetor/minitouch/Minitouch.java:108-112 | a non-null listener is appended, duplicates included; null is ignored |
| `Session.Minitouch.SendEvent` | src/main/java/com/yeetor/minitouch/Minitouch.java:157-166 | without an output stream nothing happens; otherwise one write to that stream is attempted |
| `Session.Minitouch.OnStartup` | src/main/java/com/yeetor/minitouch/Minitouch.java:275-279 | every listener receives `onStartup(success)` in list order |
| `Session.Minitouch.RemoveForward` | src/main/java/com/yeetor/minitouch/Minitouch.java:125-133 | the forward is removed only when it is set and `isForward()` holds |
| `Session.Minitouch.OnClose` | src/main/java/com/yeetor/minitouch/Minitouch.java:281-286 | every listener receives `onClose` in list order, then the forward is released |
| `Session.Minitouch.Kill` | src/main/java/com/yeetor/minitouch/Minitouch.java:142-155 | every call notifies close and releases the forward; a stored socket is closed and cleared; the output stream is kept, so after killing a connected session it is still that socket's stream |
| `Session.Minitouch.CreateForward` | src/main/java/com/yeetor/minitouch/Minitouch.java:114-123 | the current forward becomes the allocated one; an allocation error propagates and leaves the session unchanged |
| `Session.Minitouch.Bootstrap` | src/main/java/com/yeetor/minitouch/Minitouch.java:230-273 | the loop's result is `Run` of the attempts; connecting stores the socket and its stream and notifies success; giving up notifies failure only |
| `Session.Minitouch.Start` | src/main/java/com/yeetor/minitouch/Minitouch.java:135-140 | allocation failure changes nothing; otherwise the forward is set, the helper launched on its channel and the loop run |

## Left out

- `installMinitouch` and the constructors' installation step: property reads, file push and `chmod` through the ADB bridge and the binary lookup by ABI are calls into code that is not part of this model.
- `sendKeyEvent` and `inputText`: each only runs one shell command through the bridge.
- The bridge call in `createForward` and its printed failure: whether the forward counts as registered enters as the `registered` parameter, the value `isForward()` reports. `AdbForward` is not part of this model, so `RemoveForward` leaves that flag as it was.
- `Util.getFreePort` and `AdbServer.getForwardList`: the free port and the forward list are parameters.
- `startMinitouchThread`: the launch is recorded as a `Launched(command)` effect; the thread, the helper's output and its printing are not modelled.
- Threads: `start()` returns at once in the source and the bootstrap loop runs on its own thread. `Session.Minitouch.Start` runs the loop to the end of the given attempts before anything else touches the session. `Thread.stop()` in `kill()` and the race between `sendEvent` and the loop are not modelled.
- Sockets and reads become the attempt outcomes. An interrupted `Thread.sleep(10)` or a failed `close()` is an exception and so a `Thrown` attempt. The 10 ms sleep itself is timing and is left out.
- `ConnectionBootstrap.Run`: a `Pending` result means the given attempts ran out while the real loop would keep going; nothing in the model runs past them.
- The bytes `sendEvent` writes and write failures: only the attempted write of the command string is recorded.
- Listener callbacks are assumed to return normally and not to call back into the session. In the source, a listener that throws inside `onStartup(true)` would be caught by the loop's handler, closing the socket just stored and retrying.
- `JavaText.ParseInt`: accepts only ASCII digits; Java's `Character.digit` also accepts other Unicode decimal digits.
- `JavaText.FormatInt`: prints ASCII digits; `String.format` in a locale with other digits would print those.
- Null serials, null channel names and a null device (a `NullPointerException` in the source) are not modelled: every string is present.
