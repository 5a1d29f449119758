/**
 * The forward allocator: picks the channel name `<serial>_touch_<n>` for a
 * new local-to-device forward, with `n` one more than the largest number
 * already in use by a forward of the same device.
 */
module ForwardAllocator {
  import opened Wrappers
  import opened JavaText

  /** A registered forward: device serial, local TCP port, abstract socket name. */
  datatype Forward = Forward(serial: string, port: int, channel: string)

  /** `NumberFormatException` thrown by `Integer.parseInt` on a channel's third field. */
  datatype AllocError = NumberFormat(segment: string)

  /** `String.format("%s_touch_%d", serial, n)`. */
  function ChannelName(serial: string, n: int): string {
    serial + "_touch_" + FormatInt(n)
  }

  /** What the allocator's loop makes of one existing forward. */
  datatype Reading = Ignored | Parsed(n: Int32) | Malformed(segment: string)

  /**
   * A forward of another device, or whose channel does not split into
   * exactly three fields, is ignored; otherwise the third field is parsed.
   */
  function Read(serial: string, f: Forward): (r: Reading)
    ensures r != Ignored <==> f.serial == serial && |Split(f.channel)| == 3
    ensures r.Parsed? ==> ParseInt(Split(f.channel)[2]) == Some(r.n)
    ensures r.Malformed? ==> r.segment == Split(f.channel)[2] && ParseInt(r.segment).None?
  {
    if f.serial != serial then Ignored
    else
      var s := Split(f.channel);
      if |s| != 3 then Ignored
      else match ParseInt(s[2])
        case None => Malformed(s[2])
        case Some(n) => Parsed(n)
  }

  /** The readings of a forward list, in list order. */
  function Readings(serial: string, fs: seq<Forward>): seq<Reading> {
    seq(|fs|, i requires 0 <= i < |fs| => Read(serial, fs[i]))
  }

  /**
   * The value of `maxNumber` after the loop has taken in the readings in
   * order, starting from 0, or the exception the first malformed one raises.
   */
  function Scan(rs: seq<Reading>): (r: Result<Int32, AllocError>)
    ensures r.Success? ==> r.value >= 0
    decreases |rs|
  {
    if rs == [] then Success(0)
    else match Scan(rs[..|rs| - 1])
      case Failure(e) => Failure(e)
      case Success(m) =>
        match rs[|rs| - 1]
        case Ignored => Success(m)
        case Malformed(seg) => Failure(NumberFormat(seg))
        case Parsed(n) => Success(if n > m then n else m)
  }

  /** The largest number in use on the device's channels, or the parse error. */
  function MaxSuffix(serial: string, fs: seq<Forward>): Result<Int32, AllocError> {
    Scan(Readings(serial, fs))
  }

  /** The forward `generateForwardInfo` returns, or the exception it throws. */
  function Allocate(serial: string, fs: seq<Forward>, freePort: int): Result<Forward, AllocError> {
    match MaxSuffix(serial, fs)
    case Failure(e) => Failure(e)
    case Success(m) => Success(Forward(serial, freePort, ChannelName(serial, Inc32(m))))
  }

  /** Once a prefix of the readings has raised, the rest cannot undo it. */
  lemma {:induction false} FailureSticks(rs: seq<Reading>, k: nat)
    requires k <= |rs|
    requires Scan(rs[..k]).Failure?
    ensures Scan(rs) == Scan(rs[..k])
    decreases |rs| - k
  {
    if k < |rs| {
      assert rs[..k + 1][..k] == rs[..k];
      FailureSticks(rs, k + 1);
    } else {
      assert rs[..k] == rs;
    }
  }

  /** One more reading: ignored, the larger number kept, or the error raised. */
  lemma ScanStep(rs: seq<Reading>, i: nat, m: Int32)
    requires i < |rs| && Scan(rs[..i]) == Success(m)
    ensures rs[i] == Ignored ==> Scan(rs[..i + 1]) == Success(m)
    ensures rs[i].Parsed? ==> Scan(rs[..i + 1]) == Success(if rs[i].n > m then rs[i].n else m)
    ensures rs[i].Malformed? ==> Scan(rs[..i + 1]) == Failure(NumberFormat(rs[i].segment))
  {
    assert rs[..i + 1][..i] == rs[..i];
  }

  /**
   * The loop of `generateForwardInfo`: scans the forward list, keeps the
   * largest third field of the device's three-field channels, and names the
   * new channel after the next number. The list itself is a value and is
   * left as it was.
   */
  method GenerateForwardInfo(serial: string, forwards: seq<Forward>, freePort: int)
    returns (r: Result<Forward, AllocError>)
    ensures r == Allocate(serial, forwards, freePort)
    ensures r.Success? ==> r.value.serial == serial && r.value.port == freePort
  {
    ghost var rs := Readings(serial, forwards);
    var maxNumber: Int32 := 0;
    var i := 0;
    while i < |forwards|
      invariant 0 <= i <= |forwards|
      invariant Scan(rs[..i]) == Success(maxNumber)
    {
      var f := forwards[i];
      ScanStep(rs, i, maxNumber);
      assert rs[i] == Read(serial, f);
      if f.serial == serial {
        var s := Split(f.channel);
        if |s| == 3 {
          var n := ParseInt(s[2]);
          if n.None? {
            FailureSticks(rs, i + 1);
            return Failure(NumberFormat(s[2]));
          }
          if n.value > maxNumber {
            maxNumber := n.value;
          }
        }
      }
      i := i + 1;
    }
    assert rs[..i] == rs;
    maxNumber := Inc32(maxNumber);
    r := Success(Forward(serial, freePort, ChannelName(serial, maxNumber)));
  }

  // ---------------------------------------------------------------------
  // What the allocated number is
  // ---------------------------------------------------------------------

  /**
   * On success no reading is malformed, every parsed number is at most the
   * result, and the result is 0 or one of those numbers.
   */
  lemma {:induction false} ScanIsMaximum(rs: seq<Reading>, m: int)
    requires Scan(rs) == Success(m)
    ensures forall i :: 0 <= i < |rs| ==> !rs[i].Malformed?
    ensures forall i :: 0 <= i < |rs| && rs[i].Parsed? ==> rs[i].n <= m
    ensures m == 0 || exists i :: 0 <= i < |rs| && rs[i] == Parsed(m)
    decreases |rs|
  {
    if rs != [] {
      var init := rs[..|rs| - 1];
      var m0 := Scan(init).value;
      ScanIsMaximum(init, m0);
      assert forall i :: 0 <= i < |init| ==> rs[i] == init[i];
      if m != m0 {
        assert rs[|rs| - 1] == Parsed(m);
      } else if m0 != 0 {
        var j :| 0 <= j < |init| && init[j] == Parsed(m0);
        assert rs[j] == init[j];
      }
    }
  }

  /**
   * The scan raises exactly when some reading is malformed, and the error
   * names the first malformed one.
   */
  lemma {:induction false} ScanFailure(rs: seq<Reading>)
    ensures Scan(rs).Failure? <==> exists i :: 0 <= i < |rs| && rs[i].Malformed?
    ensures Scan(rs).Failure? ==>
      exists k :: 0 <= k < |rs| && rs[k].Malformed? &&
        Scan(rs).error == NumberFormat(rs[k].segment) &&
        forall j :: 0 <= j < k ==> !rs[j].Malformed?
    decreases |rs|
  {
    if rs != [] {
      var init := rs[..|rs| - 1];
      var last := |rs| - 1;
      ScanFailure(init);
      assert forall i :: 0 <= i < last ==> rs[i] == init[i];
      if Scan(init).Failure? {
        var k :| 0 <= k < |init| && init[k].Malformed? &&
          Scan(init).error == NumberFormat(init[k].segment) &&
          forall j :: 0 <= j < k ==> !init[j].Malformed?;
        assert rs[k] == init[k];
      } else if rs[last].Malformed? {
        assert forall j :: 0 <= j < last ==> !rs[j].Malformed?;
      }
    }
  }

  /** The readings the scan does not ignore, in order. */
  function NotIgnored(rs: seq<Reading>): seq<Reading>
    decreases |rs|
  {
    if rs == [] then []
    else
      var init := NotIgnored(rs[..|rs| - 1]);
      if rs[|rs| - 1] == Ignored then init else init + [rs[|rs| - 1]]
  }

  /**
   * Ignored readings (forwards of other devices, channels that do not split
   * into three fields) change nothing: the result, error included, is that
   * of the other readings alone.
   */
  lemma {:induction false} IgnoredReadingsDoNotMatter(rs: seq<Reading>)
    ensures Scan(rs) == Scan(NotIgnored(rs))
    decreases |rs|
  {
    if rs != [] {
      var init := rs[..|rs| - 1];
      var last := rs[|rs| - 1];
      IgnoredReadingsDoNotMatter(init);
      var c := NotIgnored(init);
      if last != Ignored {
        assert NotIgnored(rs) == c + [last];
        assert (c + [last])[..|c|] == c;
      }
    }
  }

  /**
   * `n` is one more than the largest parsed number, or 1 when no parsed
   * number is positive (the scan starts from 0).
   */
  ghost predicate OnePastMax(rs: seq<Reading>, n: int) {
    && n >= 1
    && (forall i :: 0 <= i < |rs| && rs[i].Parsed? ==> rs[i].n < n)
    && (n == 1 || exists i :: 0 <= i < |rs| && rs[i].Parsed? && rs[i].n == n - 1)
  }

  /**
   * With no malformed reading, the scan ends at the largest parsed number,
   * or at 0 when none is positive.
   */
  lemma ScanOnePastMax(rs: seq<Reading>, n: int)
    requires forall i :: 0 <= i < |rs| ==> !rs[i].Malformed?
    requires OnePastMax(rs, n)
    ensures Scan(rs) == Success(n - 1)
  {
    ScanFailure(rs);
    var m := Scan(rs).value;
    ScanIsMaximum(rs, m);
    if m != 0 {
      var i :| 0 <= i < |rs| && rs[i] == Parsed(m);
    }
    if n != 1 {
      var j :| 0 <= j < |rs| && rs[j].Parsed? && rs[j].n == n - 1;
    }
  }

  /**
   * With no malformed channel, the allocated forward is on the device, on
   * the free port, and named after the number one past the maximum, or 1
   * when no counted number is positive (as long as that number still fits
   * an `int`).
   */
  lemma AllocatesOnePastMax(serial: string, fs: seq<Forward>, freePort: int, n: int)
    requires forall i :: 0 <= i < |fs| ==> !Readings(serial, fs)[i].Malformed?
    requires OnePastMax(Readings(serial, fs), n) && n <= INT_MAX
    ensures Allocate(serial, fs, freePort) == Success(Forward(serial, freePort, ChannelName(serial, n)))
  {
    var rs := Readings(serial, fs);
    assert forall i :: 0 <= i < |rs| ==> !rs[i].Malformed?;
    ScanOnePastMax(rs, n);
    var m: Int32 := n - 1;
    assert Inc32(m) == n;
    AllocateAfter(serial, fs, freePort, m);
  }

  /** The allocated forward is named after the number following the scan's result. */
  lemma AllocateAfter(serial: string, fs: seq<Forward>, freePort: int, m: Int32)
    requires MaxSuffix(serial, fs) == Success(m)
    ensures Allocate(serial, fs, freePort) == Success(Forward(serial, freePort, ChannelName(serial, Inc32(m))))
  {
  }

  /**
   * Channels numbered 0 or below never raise the result above the starting
   * 0: when no counted number is positive, the channel is `<serial>_touch_1`.
   */
  lemma NonPositiveAllocatesOne(serial: string, fs: seq<Forward>, freePort: int)
    requires forall i :: 0 <= i < |fs| ==> !Readings(serial, fs)[i].Malformed?
    requires forall i :: 0 <= i < |fs| && Readings(serial, fs)[i].Parsed? ==> Readings(serial, fs)[i].n <= 0
    ensures Allocate(serial, fs, freePort) == Success(Forward(serial, freePort, ChannelName(serial, 1)))
  {
    AllocatesOnePastMax(serial, fs, freePort, 1);
  }

  /** When no forward of the device is counted, the channel is `<serial>_touch_1`. */
  lemma NoneCountedAllocatesOne(serial: string, fs: seq<Forward>, freePort: int)
    requires forall i :: 0 <= i < |fs| ==> Readings(serial, fs)[i] == Ignored
    ensures Allocate(serial, fs, freePort) == Success(Forward(serial, freePort, ChannelName(serial, 1)))
  {
    AllocatesOnePastMax(serial, fs, freePort, 1);
  }

  /**
   * When the largest number in use is `INT_MAX`, `maxNumber += 1` wraps and
   * the channel is named after `INT_MIN`.
   */
  lemma AllocationWrapsAtIntMax(serial: string, fs: seq<Forward>, freePort: int, k: nat)
    requires forall i :: 0 <= i < |fs| ==> !Readings(serial, fs)[i].Malformed?
    requires k < |fs| && Readings(serial, fs)[k] == Parsed(INT_MAX)
    ensures Allocate(serial, fs, freePort) == Success(Forward(serial, freePort, ChannelName(serial, INT_MIN)))
  {
    var rs := Readings(serial, fs);
    ScanFailure(rs);
    ScanIsMaximum(rs, Scan(rs).value);
  }

  // ---------------------------------------------------------------------
  // The names the allocator produces
  // ---------------------------------------------------------------------

  /** A generated channel splits into the serial's own fields, `touch`, and the number. */
  lemma ChannelNameFields(serial: string, n: int)
    ensures Split(ChannelName(serial, n)) == Fields(serial) + ["touch", FormatInt(n)]
  {
    var d := FormatInt(n);
    var tail := "touch" + [SEP] + d;
    var name := ChannelName(serial, n);
    assert name == serial + [SEP] + tail by {
      assert "_touch_" == [SEP] + "touch" + [SEP];
    }
    assert Plain("touch");
    FieldsAround("touch", d);
    assert Fields(tail) == ["touch", d];
    FieldsAround(serial, tail);
    var parts := Fields(serial) + ["touch", d];
    assert Fields(name) == parts;
    assert name[|serial|] == SEP;
    assert parts[|parts| - 1] == d != "";
    assert DropTrailingEmpty(parts) == parts;
  }

  /**
   * A channel the allocator named for a serial without `_` is read back as
   * the number it was named after.
   */
  lemma OwnChannelReadsBack(serial: string, port: int, n: Int32)
    requires Plain(serial)
    ensures Read(serial, Forward(serial, port, ChannelName(serial, n))) == Parsed(n)
  {
    ChannelNameFields(serial, n);
    ParseFormatted(n);
  }

  /**
   * A serial that contains `_` gives channels of four or more fields, which
   * the allocator ignores: its own channels never raise the next number.
   */
  lemma UnderscoreSerialChannelIgnored(serial: string, port: int, n: int)
    requires !Plain(serial)
    ensures Read(serial, Forward(serial, port, ChannelName(serial, n))) == Ignored
  {
    ChannelNameFields(serial, n);
  }

  /**
   * For a serial without `_`, the allocated channel differs from the channel
   * of every forward already registered for the device, unless the number
   * wrapped past `INT_MAX`.
   */
  lemma AllocatedChannelIsFresh(serial: string, fs: seq<Forward>, freePort: int, f: Forward)
    requires Plain(serial)
    requires Allocate(serial, fs, freePort) == Success(f)
    requires MaxSuffix(serial, fs).value < INT_MAX
    ensures forall i :: 0 <= i < |fs| && fs[i].serial == serial ==> fs[i].channel != f.channel
  {
    var rs := Readings(serial, fs);
    var m := Scan(rs).value;
    ScanIsMaximum(rs, m);
    forall i | 0 <= i < |fs| && fs[i].serial == serial
      ensures fs[i].channel != f.channel
    {
      assert rs[i] == Read(serial, fs[i]);
      OwnChannelReadsBack(serial, fs[i].port, m + 1);
    }
  }

  /**
   * For a serial that contains `_`, registering the allocated forward does
   * not change the next allocation: the same channel name comes out again.
   */
  lemma UnderscoreSerialRepeatsChannel(serial: string, fs: seq<Forward>, port: int, f: Forward)
    requires !Plain(serial)
    requires Allocate(serial, fs, port) == Success(f)
    ensures Allocate(serial, fs + [f], port) == Success(f)
  {
    var m := MaxSuffix(serial, fs).value;
    AllocateAfter(serial, fs, port, m);
    assert f == Forward(serial, port, ChannelName(serial, Inc32(m)));
    UnderscoreSerialChannelIgnored(serial, port, Inc32(m));
    ReadingsSnoc(serial, fs, f);
    ScanIgnoredLast(Readings(serial, fs));
    AllocateAfter(serial, fs + [f], port, m);
  }

  /** Appending a forward appends its reading. */
  lemma ReadingsSnoc(serial: string, fs: seq<Forward>, f: Forward)
    ensures Readings(serial, fs + [f]) == Readings(serial, fs) + [Read(serial, f)]
  {
  }

  /** A trailing ignored reading leaves the scan as it was. */
  lemma ScanIgnoredLast(rs: seq<Reading>)
    ensures Scan(rs + [Ignored]) == Scan(rs)
  {
    assert (rs + [Ignored])[..|rs|] == rs;
  }
}
