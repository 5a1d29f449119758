/**
 * The connection bootstrap loop of `startInitialThread`, as a function of
 * the outcomes of its successive connection attempts. Each attempt opens a
 * socket to the forwarded port and reads once from it.
 */
module ConnectionBootstrap {

  /** The budget the loop starts with (`int tryTime = 200`). */
  const TRY_TIME: nat := 200

  /** Identifies the socket an attempt opened. */
  type SocketId = nat

  /**
   * How one attempt ended: an exception (the socket could not be opened, the
   * read or the sleep threw), a read that returned -1, or a read that
   * returned data on the given socket.
   */
  datatype Attempt = Thrown | EndOfStream | Data(socket: SocketId)

  /**
   * Where the loop stands after the given attempts: still retrying with the
   * budget left, connected on the socket of attempt `used`, or given up
   * after attempt `used`. `used` counts the attempts the loop consumed.
   */
  datatype BootResult = Pending(tryTime: nat) | Connected(socket: SocketId, used: nat) | GaveUp(used: nat)

  /** The number of attempts in `s` whose read returned -1. */
  function EofCount(s: seq<Attempt>): nat
    decreases |s|
  {
    if s == [] then 0
    else (if s[0] == EndOfStream then 1 else 0) + EofCount(s[1..])
  }

  /** No attempt in `s` received data. */
  predicate NoData(s: seq<Attempt>) {
    forall k :: 0 <= k < |s| ==> !s[k].Data?
  }

  /** The loop from attempt `i` on, with `tryTime` left in the budget. */
  function RunFrom(a: seq<Attempt>, i: nat, tryTime: nat): BootResult
    requires i <= |a| && tryTime > 0
    decreases |a| - i
  {
    if i == |a| then Pending(tryTime)
    else match a[i]
      case Thrown => RunFrom(a, i + 1, tryTime)
      case EndOfStream =>
        var left := tryTime - 1;
        if left == 0 then GaveUp(i + 1) else RunFrom(a, i + 1, left)
      case Data(s) => Connected(s, i + 1)
  }

  /** The whole loop, from the first attempt with the full budget. */
  function Run(a: seq<Attempt>): BootResult {
    RunFrom(a, 0, TRY_TIME)
  }

  lemma SliceStep(a: seq<Attempt>, i: nat, j: nat)
    requires i < j <= |a|
    ensures a[i..j][0] == a[i] && a[i..j][1..] == a[i + 1..j]
    ensures EofCount(a[i..j]) == (if a[i] == EndOfStream then 1 else 0) + EofCount(a[i + 1..j])
    ensures NoData(a[i..j]) <==> !a[i].Data? && NoData(a[i + 1..j])
  {
    var whole, rest := a[i..j], a[i + 1..j];
    assert whole[1..] == rest;
    if NoData(rest) && !a[i].Data? {
      forall k | 0 <= k < |whole| ensures !whole[k].Data? {
        if k > 0 { assert whole[k] == rest[k - 1]; }
      }
    }
    if NoData(whole) {
      forall k | 0 <= k < |rest| ensures !rest[k].Data? {
        assert rest[k] == whole[k + 1];
      }
    }
  }

  /** The budget that one attempt leaves for the next. */
  function After(x: Attempt, tryTime: nat): nat {
    if x == EndOfStream && tryTime > 0 then tryTime - 1 else tryTime
  }

  /**
   * The loop is still retrying exactly when no attempt received data and
   * fewer reads than the budget returned -1; the budget left is the budget
   * minus those reads: exceptions consume none of it.
   */
  lemma {:induction false} PendingMeaning(a: seq<Attempt>, i: nat, tryTime: nat)
    requires i <= |a| && tryTime > 0
    ensures RunFrom(a, i, tryTime).Pending? <==> NoData(a[i..]) && EofCount(a[i..]) < tryTime
    ensures RunFrom(a, i, tryTime).Pending? ==> RunFrom(a, i, tryTime).tryTime == tryTime - EofCount(a[i..])
    decreases |a| - i
  {
    if i < |a| {
      assert a[i..] == a[i..|a|] && a[i + 1..] == a[i + 1..|a|];
      SliceStep(a, i, |a|);
      if a[i] == Thrown || (a[i] == EndOfStream && tryTime > 1) {
        assert RunFrom(a, i, tryTime) == RunFrom(a, i + 1, After(a[i], tryTime));
        PendingMeaning(a, i + 1, After(a[i], tryTime));
      }
    }
  }

  /**
   * A connected result names the first attempt that received data, and
   * fewer reads than the budget returned -1 before it.
   */
  lemma {:induction false} ConnectedMeaning(a: seq<Attempt>, i: nat, tryTime: nat)
    requires i <= |a| && tryTime > 0
    ensures var r := RunFrom(a, i, tryTime);
      r.Connected? ==>
        && i < r.used <= |a| && a[r.used - 1] == Data(r.socket)
        && NoData(a[i..r.used - 1]) && EofCount(a[i..r.used - 1]) < tryTime
    decreases |a| - i
  {
    var r := RunFrom(a, i, tryTime);
    if i < |a| && r.Connected? {
      if a[i].Data? {
        assert a[i..i] == [];
      } else {
        assert r == RunFrom(a, i + 1, After(a[i], tryTime));
        ConnectedMeaning(a, i + 1, After(a[i], tryTime));
        SliceStep(a, i, r.used - 1);
      }
    }
  }

  /**
   * A given-up result names the read that used the last of the budget: no
   * attempt up to it received data and exactly the budget's worth of reads
   * returned -1.
   */
  lemma {:induction false} GaveUpMeaning(a: seq<Attempt>, i: nat, tryTime: nat)
    requires i <= |a| && tryTime > 0
    ensures var r := RunFrom(a, i, tryTime);
      r.GaveUp? ==>
        && i < r.used <= |a| && a[r.used - 1] == EndOfStream
        && NoData(a[i..r.used]) && EofCount(a[i..r.used]) == tryTime
    decreases |a| - i
  {
    var r := RunFrom(a, i, tryTime);
    if i < |a| && r.GaveUp? {
      if a[i] == EndOfStream && tryTime == 1 {
        assert r.used == i + 1;
        assert a[i + 1..i + 1] == [];
      } else {
        assert r == RunFrom(a, i + 1, After(a[i], tryTime));
        GaveUpMeaning(a, i + 1, After(a[i], tryTime));
      }
      SliceStep(a, i, r.used);
    }
  }

  /**
   * A run of `tryTime` reads that each return -1 exhausts the budget: the
   * loop gives up on the last of them.
   */
  lemma {:induction false} EofsExhaustBudget(a: seq<Attempt>, i: nat, tryTime: nat)
    requires tryTime > 0 && i + tryTime <= |a|
    requires forall k :: i <= k < i + tryTime ==> a[k] == EndOfStream
    ensures RunFrom(a, i, tryTime) == GaveUp(i + tryTime)
    decreases tryTime
  {
    if tryTime > 1 {
      EofsExhaustBudget(a, i + 1, tryTime - 1);
    }
  }

  /** 200 reads in a row that return -1 end the loop with a failure. */
  lemma TwoHundredEofsGiveUp(a: seq<Attempt>)
    requires |a| >= TRY_TIME
    requires forall k :: 0 <= k < TRY_TIME ==> a[k] == EndOfStream
    ensures Run(a) == GaveUp(TRY_TIME)
  {
    EofsExhaustBudget(a, 0, TRY_TIME);
  }

  /**
   * The first attempt that receives data connects the loop, provided fewer
   * reads than the budget returned -1 before it.
   */
  lemma {:induction false} FirstDataConnects(a: seq<Attempt>, i: nat, tryTime: nat, k: nat)
    requires tryTime > 0 && i <= k < |a| && a[k].Data?
    requires NoData(a[i..k]) && EofCount(a[i..k]) < tryTime
    ensures RunFrom(a, i, tryTime) == Connected(a[k].socket, k + 1)
    decreases k - i
  {
    if i < k {
      SliceStep(a, i, k);
      FirstDataConnects(a, i + 1, if a[i] == EndOfStream then tryTime - 1 else tryTime, k);
    }
  }

  /**
   * Attempts that all throw leave the budget untouched, so the loop never
   * ends and never notifies, however many of them there are.
   */
  lemma {:induction false} ExceptionsNeverEndTheLoop(a: seq<Attempt>, i: nat, tryTime: nat)
    requires tryTime > 0 && i <= |a|
    requires forall k :: i <= k < |a| ==> a[k] == Thrown
    ensures RunFrom(a, i, tryTime) == Pending(tryTime)
    decreases |a| - i
  {
    if i < |a| {
      ExceptionsNeverEndTheLoop(a, i + 1, tryTime);
    }
  }
}
