/**
 * The session object: the listener list, the current forward, the socket
 * and output stream the bootstrap loop hands over, and the operations that
 * read and update them. Listener callbacks, forward removal, the process
 * launch, the close of the stored socket and writes are recorded, in order,
 * in the ghost log `log`.
 */
module Session {
  import opened Wrappers
  import opened ForwardAllocator
  import opened ConnectionBootstrap
  import JavaText

  /** Identifies a registered listener; the same listener may be registered twice. */
  type ListenerId = nat

  /** The two callbacks of a listener: `onStartup(success)` and `onClose()`. */
  datatype Notice = Startup(success: bool) | Close

  /** One externally visible action of the session. */
  datatype Effect =
    | Notified(listener: ListenerId, notice: Notice)
    | ForwardRemoved(forward: Forward)
    | Launched(command: string)
    | SocketClosed(socket: SocketId)
    | EventWritten(socket: SocketId, command: string)

  /** The callbacks a `for (listener : listenerList)` loop makes, in list order. */
  function Broadcast(ls: seq<ListenerId>, notice: Notice): seq<Effect>
    decreases |ls|
  {
    if ls == [] then []
    else Broadcast(ls[..|ls| - 1], notice) + [Notified(ls[|ls| - 1], notice)]
  }

  /** A broadcast calls every listener once per registration, in registration order. */
  lemma {:induction false} BroadcastInOrder(ls: seq<ListenerId>, notice: Notice)
    ensures |Broadcast(ls, notice)| == |ls|
    ensures forall k :: 0 <= k < |ls| ==> Broadcast(ls, notice)[k] == Notified(ls[k], notice)
    decreases |ls|
  {
    if ls != [] {
      var init := ls[..|ls| - 1];
      BroadcastInOrder(init, notice);
      forall k | 0 <= k < |init| ensures init[k] == ls[k] { }
    }
  }

  /** The startup notices the bootstrap loop sends for a given outcome. */
  function StartupNotices(ls: seq<ListenerId>, r: BootResult): seq<Effect> {
    match r
    case Pending(_) => []
    case Connected(_, _) => Broadcast(ls, Startup(true))
    case GaveUp(_) => Broadcast(ls, Startup(false))
  }

  /**
   * A loop that has ended has told every listener once per registration
   * whether it connected, and never sent a success and a failure; a loop
   * still retrying has told no one.
   */
  lemma StartupNoticesOnce(ls: seq<ListenerId>, r: BootResult)
    ensures r.Pending? ==> StartupNotices(ls, r) == []
    ensures !r.Pending? ==>
      && |StartupNotices(ls, r)| == |ls|
      && forall k :: 0 <= k < |ls| ==> StartupNotices(ls, r)[k] == Notified(ls[k], Startup(r.Connected?))
  {
    if !r.Pending? {
      BroadcastInOrder(ls, Startup(r.Connected?));
    }
  }

  /** `removeForward(forward)`: the bridge is asked to remove it only when it is set and `isForward()` holds. */
  function Release(forward: Option<Forward>, isForward: bool): seq<Effect> {
    if forward.Some? && isForward then [ForwardRemoved(forward.value)] else []
  }

  /** The device shell command that starts the touch helper on a channel. */
  function LaunchCommand(channel: string): string {
    "/data/local/tmp/minitouch -n " + channel
  }

  class Minitouch {
    /** The device's serial number. */
    const serial: string
    /** `listenerList`. */
    var listeners: seq<ListenerId>
    /** `forward`: the last forward `createForward` set. */
    var forward: Option<Forward>
    /** What `forward.isForward()` reports. */
    var isForward: bool
    /** `minitouchSocket`. */
    var socket: Option<SocketId>
    /** `minitouchOutputStream`: the output stream of the socket it belongs to. */
    var outputStream: Option<SocketId>
    /** The effects listed in `Effect`, oldest first. */
    ghost var log: seq<Effect>

    /**
     * The socket is only ever stored together with its own output stream,
     * and the forward belongs to this device.
     */
    ghost predicate Valid()
      reads this
    {
      && (socket.Some? ==> outputStream == socket)
      && (forward.Some? ==> forward.value.serial == serial)
    }

    /** A session for a device, before any listener, forward or connection. */
    constructor (serial: string)
      ensures Valid() && this.serial == serial
      ensures listeners == [] && forward == None && !isForward
      ensures socket == None && outputStream == None && log == []
    {
      this.serial := serial;
      listeners := [];
      forward := None;
      isForward := false;
      socket := None;
      outputStream := None;
      log := [];
    }

    /** Registers a listener at the end of the list; a null listener is ignored. */
    method AddEventListener(listener: Option<ListenerId>)
      requires Valid()
      modifies this`listeners
      ensures Valid()
      ensures listeners == old(listeners) + (if listener.Some? then [listener.value] else [])
    {
      if listener.Some? {
        listeners := listeners + [listener.value];
      }
    }

    /**
     * Writes a command to the output stream; without one it does nothing.
     * A failed write is swallowed, so the attempt is all that is visible.
     */
    method SendEvent(command: string)
      requires Valid()
      modifies this`log
      ensures Valid()
      ensures outputStream.None? ==> log == old(log)
      ensures outputStream.Some? ==> log == old(log) + [EventWritten(outputStream.value, command)]
    {
      if outputStream.None? {
        return;
      }
      log := log + [EventWritten(outputStream.value, command)];
    }

    /** Calls `onStartup(success)` on every listener, in list order. */
    method OnStartup(success: bool)
      modifies this`log
      ensures log == old(log) + Broadcast(listeners, Startup(success))
    {
      for k := 0 to |listeners|
        invariant log == old(log) + Broadcast(listeners[..k], Startup(success))
      {
        assert listeners[..k + 1][..k] == listeners[..k];
        log := log + [Notified(listeners[k], Startup(success))];
      }
      assert listeners[..|listeners|] == listeners;
    }

    /** Removes the current forward from the bridge when it is set and registered. */
    method RemoveForward()
      modifies this`log
      ensures log == old(log) + Release(forward, isForward)
    {
      if forward.None? || !isForward {
        return;
      }
      log := log + [ForwardRemoved(forward.value)];
    }

    /** Calls `onClose()` on every listener, in list order, then removes the forward. */
    method OnClose()
      modifies this`log
      ensures log == old(log) + Broadcast(listeners, Close) + Release(forward, isForward)
    {
      for k := 0 to |listeners|
        invariant log == old(log) + Broadcast(listeners[..k], Close)
      {
        assert listeners[..k + 1][..k] == listeners[..k];
        log := log + [Notified(listeners[k], Close)];
      }
      assert listeners[..|listeners|] == listeners;
      RemoveForward();
    }

    /**
     * Notifies close and releases the forward on every call, then closes and
     * clears the socket if one is stored. The output stream is left as it is.
     */
    method Kill()
      requires Valid()
      modifies this`socket, this`log
      ensures Valid()
      ensures socket == None
      ensures outputStream == old(outputStream)
      ensures old(socket).Some? ==> outputStream == old(socket)
      ensures log == old(log) + Broadcast(listeners, Close) + Release(forward, isForward)
                     + (if old(socket).Some? then [SocketClosed(old(socket).value)] else [])
    {
      OnClose();
      if socket.Some? {
        log := log + [SocketClosed(socket.value)];
        socket := None;
      }
    }

    /**
     * Allocates a forward for this device and makes it the current one; the
     * bridge registration is outside the model and its result is
     * `registered`. An allocation error propagates and changes nothing.
     */
    method CreateForward(forwards: seq<Forward>, freePort: int, registered: bool)
      returns (r: Result<Forward, AllocError>)
      requires Valid()
      modifies this`forward, this`isForward
      ensures Valid()
      ensures r == Allocate(serial, forwards, freePort)
      ensures r.Success? ==> forward == Some(r.value) && isForward == registered
      ensures r.Failure? ==> forward == old(forward) && isForward == old(isForward)
    {
      r := GenerateForwardInfo(serial, forwards, freePort);
      if r.Failure? {
        return;
      }
      forward := Some(r.value);
      isForward := registered;
    }

    /**
     * The bootstrap loop: retries until an attempt receives data (store the
     * socket and its stream, notify success) or the 200th read that returns
     * -1 (notify failure). Exceptions retry without using budget.
     */
    method Bootstrap(attempts: seq<Attempt>) returns (r: BootResult)
      requires Valid()
      modifies this`socket, this`outputStream, this`log
      ensures Valid()
      ensures r == Run(attempts)
      ensures log == old(log) + StartupNotices(listeners, r)
      ensures r.Connected? ==> socket == Some(r.socket) && outputStream == Some(r.socket)
      ensures !r.Connected? ==> socket == old(socket) && outputStream == old(outputStream)
    {
      var tryTime := TRY_TIME;
      var i := 0;
      while i < |attempts|
        invariant 0 <= i <= |attempts| && tryTime > 0
        invariant RunFrom(attempts, i, tryTime) == Run(attempts)
        invariant socket == old(socket) && outputStream == old(outputStream) && log == old(log)
      {
        var attempt := attempts[i];
        i := i + 1;
        match attempt {
          case Thrown =>
            continue;
          case EndOfStream =>
          case Data(s) =>
            socket := Some(s);
            outputStream := Some(s);
            OnStartup(true);
            return Connected(s, i);
        }
        tryTime := tryTime - 1;
        if tryTime == 0 {
          OnStartup(false);
          return GaveUp(i);
        }
      }
      return Pending(tryTime);
    }

    /**
     * `start()` followed by a bootstrap loop that runs to the end of the
     * given attempts before anything else touches the session: allocate and
     * set the forward, launch the helper on its channel, then run the loop.
     */
    method Start(forwards: seq<Forward>, freePort: int, registered: bool, attempts: seq<Attempt>)
      returns (r: Result<BootResult, AllocError>)
      requires Valid()
      modifies this`forward, this`isForward, this`socket, this`outputStream, this`log
      ensures Valid()
      ensures Allocate(serial, forwards, freePort).Failure? ==>
        && r == Failure(Allocate(serial, forwards, freePort).error)
        && forward == old(forward) && isForward == old(isForward)
        && socket == old(socket) && outputStream == old(outputStream) && log == old(log)
      ensures Allocate(serial, forwards, freePort).Success? ==>
        && r == Success(Run(attempts))
        && forward == Some(Allocate(serial, forwards, freePort).value) && isForward == registered
        && log == old(log) + [Launched(LaunchCommand(forward.value.channel))]
                  + StartupNotices(listeners, Run(attempts))
        && (Run(attempts).Connected? ==>
              socket == Some(Run(attempts).socket) && outputStream == socket)
        && (!Run(attempts).Connected? ==>
              socket == old(socket) && outputStream == old(outputStream))
    {
      var created := CreateForward(forwards, freePort, registered);
      if created.Failure? {
        return Failure(created.error);
      }
      log := log + [Launched(LaunchCommand(created.value.channel))];
      var boot := Bootstrap(attempts);
      r := Success(boot);
    }
  }

  /** The facts about the scenario's inputs that `EndToEnd` relies on. */
  lemma ScenarioFacts()
    ensures Run([Thrown, EndOfStream, Data(3)]) == Connected(3, 3)
    ensures ChannelName("0123456789ABCDEF", 1) == "0123456789ABCDEF_touch_1"
    ensures Broadcast([7], Startup(true)) == [Notified(7, Startup(true))]
    ensures Broadcast([7], Close) == [Notified(7, Close)]
  {
    assert [7][..0] == [];
    assert JavaText.FormatInt(1) == "1";
  }

  /**
   * A client of the session: one listener, no existing forwards, one refused
   * connection, one read of -1, then data; after two kills, a send still
   * writes to the closed socket. Only the contracts above are used.
   */
  method EndToEnd()
  {
    var serial := "0123456789ABCDEF";
    var attempts := [Thrown, EndOfStream, Data(3)];
    ScenarioFacts();
    NoneCountedAllocatesOne(serial, [], 4000);
    var f := Forward(serial, 4000, ChannelName(serial, 1));
    var up := [Launched(LaunchCommand(f.channel)), Notified(7, Startup(true))];
    var down := [Notified(7, Close), ForwardRemoved(f)];

    var m := new Minitouch(serial);
    m.AddEventListener(Some(7));
    m.AddEventListener(None);
    assert m.listeners == [7];

    m.SendEvent("d 0 100 200 50\n");
    assert m.log == [];

    var r := m.Start([], 4000, true, attempts);
    assert m.forward == Some(f) && f.channel == "0123456789ABCDEF_touch_1";
    assert r == Success(Connected(3, 3));
    assert m.socket == Some(3);
    assert m.log == up;

    m.SendEvent("d 0 100 200 50\n");
    m.Kill();
    assert m.socket == None && m.outputStream == Some(3);
    assert m.log == up + [EventWritten(3, "d 0 100 200 50\n")] + down + [SocketClosed(3)];
    m.Kill();
    assert m.log == up + [EventWritten(3, "d 0 100 200 50\n")] + down + [SocketClosed(3)] + down;
    m.SendEvent("u 0\n");
    assert m.log[|m.log| - 1] == EventWritten(3, "u 0\n");
  }
}
