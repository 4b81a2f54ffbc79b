/**
  The lifecycle supervisor of the IPFS daemon: the BackgroundService and its
  companion object.

  The operating system, the worker threads and the child process are
  abstracted away. Every Android callback and every background event (a chunk
  read by a stream pump, the exit of the process, a timer tick) is a method
  that runs to completion and takes the current wall-clock time `now` in
  milliseconds where the source reads the clock. A call to `stopSelf()` is
  recorded in `stopRequested`; the operating system's later `onDestroy` is the
  separate method `OnDestroy`.
*/
module Supervision {
  import opened Optional
  import opened StreamSearching

  /** Shut down after this much inactivity (milliseconds). */
  const ShutdownAfterMs: int := 5 * 60 * 1000
  /** A node used within this window is shown as running. */
  const RecentUseMs: int := 30000
  /** The "unused" notice is shown from this long before the idle shutdown. */
  const ShutdownWarningMs: int := 120000

  /** The BatteryManager.BATTERY_PLUGGED_* values. */
  const BatteryPluggedAc: int := 1
  const BatteryPluggedUsb: int := 2
  const BatteryPluggedWireless: int := 4

  /** The "service-action" extra of the notification's Shutdown button. */
  const ShutdownAction: string := "shutdown"

  // ---------------------------------------------------------------------------
  // Pure decisions

  /**
    The power receiver's reading of a battery-changed broadcast. `extra` is the
    EXTRA_PLUGGED value, absent when the broadcast or the extra is missing (the
    source then reads -1).
  */
  function PowerPluggedIn(extra: Option<int>): (r: bool)
    ensures r <==> extra.Some? && extra.value in {BatteryPluggedAc, BatteryPluggedUsb, BatteryPluggedWireless}
    ensures extra.None? ==> !r
  {
    var plugged := if extra.Some? then extra.value else -1;
    plugged == BatteryPluggedAc || plugged == BatteryPluggedUsb || plugged == BatteryPluggedWireless
  }

  /** The idle-shutdown predicate evaluated by every timer tick of a ready node. */
  predicate IdleShutdownDue(isPluggedIn: bool, lastActivity: int, now: int)
  {
    !isPluggedIn && now > lastActivity + ShutdownAfterMs
  }

  /** The five states the service notification can show. */
  datatype Notice = Offline | Starting | Running | Unused | Idle

  /** The notification state: the first branch of the source's chain that applies. */
  function NoticeFor(hasProcess: bool, ready: bool, isPluggedIn: bool, lastActivity: int, now: int): (r: Notice)
    ensures r == Offline <==> !hasProcess
    ensures r == Starting <==> hasProcess && !ready
    ensures r == Running <==> hasProcess && ready && now - lastActivity < RecentUseMs
    ensures r == Unused <==>
      hasProcess && ready && now - lastActivity >= RecentUseMs &&
      now > lastActivity + ShutdownAfterMs - ShutdownWarningMs && !isPluggedIn
    ensures r == Idle <==>
      hasProcess && ready && now - lastActivity >= RecentUseMs &&
      (now <= lastActivity + ShutdownAfterMs - ShutdownWarningMs || isPluggedIn)
  {
    if !hasProcess then Offline
    else if !ready then Starting
    else if now - lastActivity < RecentUseMs then Running
    else if now > lastActivity + ShutdownAfterMs - ShutdownWarningMs && !isPluggedIn then Unused
    else Idle
  }

  /** A node on external power is never shut down for idleness, however long it idles. */
  lemma PluggedInNeverIdlesOut(lastActivity: int, now: int)
    ensures !IdleShutdownDue(true, lastActivity, now)
    ensures forall hasProcess: bool, ready: bool ::
      NoticeFor(hasProcess, ready, true, lastActivity, now) != Unused
  {
  }

  /** Once the idle shutdown is due it stays due as time passes without activity. */
  lemma IdleShutdownStaysDue(isPluggedIn: bool, lastActivity: int, now: int, later: int)
    requires IdleShutdownDue(isPluggedIn, lastActivity, now) && now <= later
    ensures IdleShutdownDue(isPluggedIn, lastActivity, later)
  {
  }

  /**
    A running, ready node whose idle shutdown is due is shown as "unused": the
    notice announces every idle shutdown before and while it is due.
  */
  lemma IdleShutdownIsAnnounced(isPluggedIn: bool, lastActivity: int, now: int)
    requires IdleShutdownDue(isPluggedIn, lastActivity, now)
    ensures NoticeFor(true, true, isPluggedIn, lastActivity, now) == Unused
  {
  }

  /** An "unused" notice means the idle shutdown is at most two minutes away. */
  lemma UnusedMeansShutdownSoon(lastActivity: int, now: int)
    requires NoticeFor(true, true, false, lastActivity, now) == Unused
    ensures IdleShutdownDue(false, lastActivity, now + ShutdownWarningMs)
  {
  }

  /** The bandwidth statistics answered by the daemon; every field may be null. */
  datatype BandwidthInfo = BandwidthInfo(rateIn: Option<int>, rateOut: Option<int>, totalIn: Option<int>, totalOut: Option<int>)

  /** The outcome of one stats query: it failed, or it answered a (possibly null) body. */
  datatype StatsReply = StatsFailed | StatsAnswered(info: Option<BandwidthInfo>)

  /** The three bandwidth fields of the service. */
  datatype BandwidthSample = BandwidthSample(down: int, up: int, total: int)

  /** A missing number reads as zero. */
  function OrZero(v: Option<int>): (r: int)
    ensures v.Some? ==> r == v.value
    ensures v.None? ==> r == 0
  {
    if v.Some? then v.value else 0
  }

  /** The fields a successful stats poll stores: rates as given, total as in plus out. */
  function BandwidthOf(info: Option<BandwidthInfo>): (r: BandwidthSample)
    ensures info.None? ==> r == BandwidthSample(0, 0, 0)
    ensures info.Some? ==>
      r.down == OrZero(info.value.rateIn) && r.up == OrZero(info.value.rateOut) &&
      r.total == OrZero(info.value.totalIn) + OrZero(info.value.totalOut)
  {
    if info.None? then BandwidthSample(0, 0, 0)
    else BandwidthSample(OrZero(info.value.rateIn), OrZero(info.value.rateOut),
                   OrZero(info.value.totalIn) + OrZero(info.value.totalOut))
  }

  /** A poll whose answer leaves out every number resets all three fields to zero. */
  lemma EmptyAnswerResetsBandwidth(info: Option<BandwidthInfo>)
    requires info.None? || info.value == BandwidthInfo(None, None, None, None)
    ensures BandwidthOf(info) == BandwidthSample(0, 0, 0)
  {
  }

  /** The daemon's argument vector: the binary, the subcommand and five flags. */
  function DaemonCommand(binaryPath: string): (cmd: seq<string>)
    ensures |cmd| == 7 && cmd[0] == binaryPath && cmd[1] == "daemon"
    ensures forall k :: 2 <= k < |cmd| ==>
      |cmd[k]| > 2 && cmd[k][..2] == "--" && forall l :: k < l < |cmd| ==> cmd[k] != cmd[l]
  {
    [binaryPath, "daemon", "--init", "--enable-gc", "--migrate",
     "--enable-pubsub-experiment", "--enable-namesys-pubsub"]
  }

  const IpfsPathPrefix: string := "IPFS_PATH="

  /** The daemon's environment: one variable naming the repository directory. */
  function DaemonEnvironment(repoPath: string): (env: seq<string>)
    ensures |env| == 1
    ensures |env[0]| == |IpfsPathPrefix| + |repoPath|
    ensures env[0][..|IpfsPathPrefix|] == IpfsPathPrefix && env[0][|IpfsPathPrefix|..] == repoPath
  {
    [IpfsPathPrefix + repoPath]
  }

  // ---------------------------------------------------------------------------
  // Waiters: the pending start promises

  /** A caller of `start` waiting on a pending promise (one fresh Deferred each). */
  type Waiter = nat

  /** A promise resolved with a service. */
  datatype Resolution = Resolution(waiter: Waiter, service: BackgroundService)

  /** What `start` hands back: the running instance, or a pending promise. */
  datatype StartResult = AlreadyRunning(service: BackgroundService) | Queued(waiter: Waiter)

  ghost predicate Distinct(ws: seq<Waiter>)
  {
    forall i, j :: 0 <= i < j < |ws| ==> ws[i] != ws[j]
  }

  function Waiters(rs: seq<Resolution>): (ws: seq<Waiter>)
    ensures |ws| == |rs| && forall k :: 0 <= k < |rs| ==> ws[k] == rs[k].waiter
  {
    seq(|rs|, k requires 0 <= k < |rs| => rs[k].waiter)
  }

  /** Every waiter of `ws` resolved with `svc`, in order. */
  function ResolvedWith(ws: seq<Waiter>, svc: BackgroundService): (rs: seq<Resolution>)
    ensures |rs| == |ws| && forall k :: 0 <= k < |ws| ==> rs[k] == Resolution(ws[k], svc)
  {
    seq(|ws|, k requires 0 <= k < |ws| => Resolution(ws[k], svc))
  }

  lemma DistinctAppend(a: seq<Waiter>, b: seq<Waiter>)
    requires Distinct(a) && Distinct(b)
    requires forall w :: w in a ==> w !in b
    ensures Distinct(a + b)
  {
    forall i, j | 0 <= i < j < |a + b|
      ensures (a + b)[i] != (a + b)[j]
    {
      if j >= |a| && i < |a| {
        assert (a + b)[i] in a && (a + b)[j] in b;
      }
    }
  }

  /**
    The companion object of BackgroundService: the running instance and the
    promises of callers waiting for a service to be created.
  */
  class ServiceRegistry {
    var instance: BackgroundService?
    var pendingStartPromises: seq<Waiter>
    /** The promises resolved so far, in the order they were resolved. */
    var resolved: seq<Resolution>
    /** The identity the next fresh promise gets. */
    var nextWaiter: nat

    /** Every promise is pending or resolved, never both, and none is resolved twice. */
    ghost predicate Valid()
      reads this
    {
      Distinct(pendingStartPromises) && Distinct(Waiters(resolved)) &&
      (forall w :: w in pendingStartPromises ==> w !in Waiters(resolved) && w < nextWaiter) &&
      (forall w :: w in Waiters(resolved) ==> w < nextWaiter)
    }

    constructor ()
      ensures Valid()
      ensures instance == null && pendingStartPromises == [] && resolved == [] && nextWaiter == 0
    {
      instance := null;
      pendingStartPromises := [];
      resolved := [];
      nextWaiter := 0;
    }

    /**
      `start`: with a running instance, mark it active and hand it back; otherwise
      queue one fresh promise after the existing ones (the operating system is
      then asked to start the service, which leads to OnCreate).
    */
    method Start(now: int) returns (r: StartResult)
      requires Valid()
      modifies this, instance
      ensures Valid()
      ensures instance == old(instance) && resolved == old(resolved)
      ensures old(instance) != null ==>
        r == AlreadyRunning(instance) && instance.lastActivity == now &&
        pendingStartPromises == old(pendingStartPromises) && nextWaiter == old(nextWaiter)
      ensures old(instance) == null ==>
        r == Queued(old(nextWaiter)) &&
        pendingStartPromises == old(pendingStartPromises) + [old(nextWaiter)] &&
        nextWaiter == old(nextWaiter) + 1
      ensures old(instance) != null ==>
        instance.dateStarted == old(instance.dateStarted) &&
        instance.ipfsNumConnections == old(instance.ipfsNumConnections) &&
        instance.hasProcess == old(instance.hasProcess) &&
        instance.ipfsProcessReady == old(instance.ipfsProcessReady) &&
        instance.Bandwidth() == old(instance.Bandwidth()) &&
        instance.isPluggedIn == old(instance.isPluggedIn) &&
        instance.stopRequested == old(instance.stopRequested) &&
        instance.checkTimerRunning == old(instance.checkTimerRunning) &&
        instance.readyMatcher == old(instance.readyMatcher) &&
        instance.getBlockMatcher == old(instance.getBlockMatcher) &&
        instance.spawnedCommand == old(instance.spawnedCommand) &&
        instance.spawnedEnvironment == old(instance.spawnedEnvironment)
    {
      if instance != null {
        instance.lastActivity := now;
        return AlreadyRunning(instance);
      }
      var pending := nextWaiter;
      nextWaiter := nextWaiter + 1;
      DistinctAppend(pendingStartPromises, [pending]);
      pendingStartPromises := pendingStartPromises + [pending];
      return Queued(pending);
    }
  }

  // ---------------------------------------------------------------------------
  // The service

  class BackgroundService {
    var lastActivity: int
    var dateStarted: int
    /** True while the service holds a handle on the daemon process. */
    var hasProcess: bool
    var ipfsProcessReady: bool
    var ipfsDownSpeed: int
    var ipfsUpSpeed: int
    var ipfsTotalTransferred: int
    var ipfsNumConnections: int
    /** True while the status-check timer is scheduled. */
    var checkTimerRunning: bool
    var isPluggedIn: bool
    /** True once the service has asked to be stopped (stopSelf). */
    var stopRequested: bool
    /** The matchers of the current run, created afresh by StartNode. */
    var readyMatcher: StreamSearcher?
    var getBlockMatcher: StreamSearcher?
    /** The argument vector and environment of the last daemon spawned; empty before the first. */
    var spawnedCommand: seq<string>
    var spawnedEnvironment: seq<string>

    ghost predicate Valid()
      reads this, readyMatcher, getBlockMatcher
    {
      (hasProcess ==> readyMatcher != null && getBlockMatcher != null) &&
      (readyMatcher != null ==> readyMatcher.Valid() && readyMatcher.bytesToFind == ReadyMarker) &&
      (getBlockMatcher != null ==> getBlockMatcher.Valid() && getBlockMatcher.bytesToFind == ActivityMarker)
    }

    /** The bandwidth fields as one value. */
    function Bandwidth(): BandwidthSample
      reads this
    {
      BandwidthSample(ipfsDownSpeed, ipfsUpSpeed, ipfsTotalTransferred)
    }

    /** The notification state the service shows at time `now`. */
    function Notice(now: int): Notice
      reads this
    {
      NoticeFor(hasProcess, ipfsProcessReady, isPluggedIn, lastActivity, now)
    }

    /** The field initialisers, read at construction time `now`. */
    constructor (now: int)
      ensures Valid()
      ensures lastActivity == now && dateStarted == now
      ensures !hasProcess && !ipfsProcessReady && !checkTimerRunning && !isPluggedIn && !stopRequested
      ensures Bandwidth() == BandwidthSample(0, 0, 0) && ipfsNumConnections == 0
      ensures readyMatcher == null && getBlockMatcher == null
      ensures spawnedCommand == [] && spawnedEnvironment == []
    {
      lastActivity, dateStarted := now, now;
      hasProcess, ipfsProcessReady := false, false;
      ipfsDownSpeed, ipfsUpSpeed, ipfsTotalTransferred, ipfsNumConnections := 0, 0, 0, 0;
      checkTimerRunning, isPluggedIn, stopRequested := false, false, false;
      readyMatcher, getBlockMatcher := null, null;
      spawnedCommand, spawnedEnvironment := [], [];
    }

    /**
      `startNode`: clear the ready flag, spawn the daemon and create the two
      matchers of this run (the pumps feed them). `binaryPath` and `repoPath`
      are the absolute paths of the bundled binary and of the repository
      directory, which the Android context supplies.
    */
    method StartNode(binaryPath: string, repoPath: string)
      modifies this
      ensures Valid()
      ensures hasProcess && !ipfsProcessReady
      ensures spawnedCommand == DaemonCommand(binaryPath) && spawnedEnvironment == DaemonEnvironment(repoPath)
      ensures fresh(readyMatcher) && fresh(getBlockMatcher)
      ensures readyMatcher.matchedCount == 0 && readyMatcher.fed == []
      ensures getBlockMatcher.matchedCount == 0 && getBlockMatcher.fed == []
      ensures lastActivity == old(lastActivity) && dateStarted == old(dateStarted)
      ensures Bandwidth() == old(Bandwidth()) && ipfsNumConnections == old(ipfsNumConnections)
      ensures checkTimerRunning == old(checkTimerRunning) && isPluggedIn == old(isPluggedIn)
      ensures stopRequested == old(stopRequested)
    {
      var ready := new StreamSearcher(ReadyMarker);
      var active := new StreamSearcher(ActivityMarker);
      ipfsProcessReady, hasProcess, readyMatcher, getBlockMatcher, spawnedCommand, spawnedEnvironment :=
        false, true, ready, active, DaemonCommand(binaryPath), DaemonEnvironment(repoPath);
    }

    /**
      `onCreate`: publish this service as the instance, start the node, resolve
      every pending promise with this service (before any readiness is seen)
      and schedule the status timer.
    */
    method OnCreate(registry: ServiceRegistry, binaryPath: string, repoPath: string)
      requires registry.Valid()
      modifies this, registry
      ensures Valid() && registry.Valid()
      ensures registry.instance == this
      ensures registry.pendingStartPromises == []
      ensures registry.resolved == old(registry.resolved) + ResolvedWith(old(registry.pendingStartPromises), this)
      ensures registry.nextWaiter == old(registry.nextWaiter)
      ensures hasProcess && !ipfsProcessReady && checkTimerRunning
      ensures spawnedCommand == DaemonCommand(binaryPath) && spawnedEnvironment == DaemonEnvironment(repoPath)
      ensures fresh(readyMatcher) && fresh(getBlockMatcher)
      ensures readyMatcher.fed == [] && getBlockMatcher.fed == []
      ensures lastActivity == old(lastActivity) && dateStarted == old(dateStarted)
      ensures Bandwidth() == old(Bandwidth()) && isPluggedIn == old(isPluggedIn)
      ensures stopRequested == old(stopRequested) && ipfsNumConnections == old(ipfsNumConnections)
    {
      registry.instance := this;
      StartNode(binaryPath, repoPath);
      var k := 0;
      while k < |registry.pendingStartPromises|
        modifies registry
        invariant 0 <= k <= |registry.pendingStartPromises|
        invariant registry.pendingStartPromises == old(registry.pendingStartPromises)
        invariant registry.instance == this && registry.nextWaiter == old(registry.nextWaiter)
        invariant registry.resolved ==
          old(registry.resolved) + ResolvedWith(registry.pendingStartPromises[..k], this)
      {
        assert registry.pendingStartPromises[..k + 1] ==
          registry.pendingStartPromises[..k] + [registry.pendingStartPromises[k]];
        registry.resolved := registry.resolved + [Resolution(registry.pendingStartPromises[k], this)];
        k := k + 1;
      }
      assert registry.pendingStartPromises[..k] == old(registry.pendingStartPromises);
      ghost var done := old(registry.pendingStartPromises);
      assert Waiters(registry.resolved) == Waiters(old(registry.resolved)) + done;
      DistinctAppend(Waiters(old(registry.resolved)), done);
      registry.pendingStartPromises := [];
      checkTimerRunning := true;
    }

    /**
      `onStartCommand`: somebody interacted with the service; the Shutdown
      button's action, and only it, stops the service.
    */
    method OnStartCommand(serviceAction: Option<string>, now: int)
      modifies this
      ensures lastActivity == now
      ensures stopRequested == (old(stopRequested) || serviceAction == Some(ShutdownAction))
      ensures dateStarted == old(dateStarted) && hasProcess == old(hasProcess)
      ensures ipfsProcessReady == old(ipfsProcessReady) && Bandwidth() == old(Bandwidth())
      ensures checkTimerRunning == old(checkTimerRunning) && isPluggedIn == old(isPluggedIn)
      ensures readyMatcher == old(readyMatcher) && getBlockMatcher == old(getBlockMatcher)
      ensures ipfsNumConnections == old(ipfsNumConnections)
      ensures spawnedCommand == old(spawnedCommand) && spawnedEnvironment == old(spawnedEnvironment)
    {
      lastActivity := now;
      if serviceAction == Some(ShutdownAction) {
        stopRequested := true;
      }
    }

    /**
      `onDestroy`: withdraw this service as the instance, cancel the timer and
      destroy the process. The ready flag is left as it is.
    */
    method OnDestroy(registry: ServiceRegistry)
      modifies this, registry
      ensures registry.instance == (if old(registry.instance) == this then null else old(registry.instance))
      ensures registry.pendingStartPromises == old(registry.pendingStartPromises)
      ensures registry.resolved == old(registry.resolved) && registry.nextWaiter == old(registry.nextWaiter)
      ensures !checkTimerRunning && !hasProcess
      ensures ipfsProcessReady == old(ipfsProcessReady)
      ensures lastActivity == old(lastActivity) && dateStarted == old(dateStarted)
      ensures Bandwidth() == old(Bandwidth()) && isPluggedIn == old(isPluggedIn)
      ensures stopRequested == old(stopRequested) && ipfsNumConnections == old(ipfsNumConnections)
      ensures readyMatcher == old(readyMatcher) && getBlockMatcher == old(getBlockMatcher)
      ensures spawnedCommand == old(spawnedCommand) && spawnedEnvironment == old(spawnedEnvironment)
    {
      if registry.instance == this {
        registry.instance := null;
      }
      checkTimerRunning := false;
      hasProcess := false;
    }

    /** The power receiver: a battery-changed broadcast with EXTRA_PLUGGED `extra`. */
    method OnPowerChanged(extra: Option<int>)
      modifies this`isPluggedIn
      ensures isPluggedIn == PowerPluggedIn(extra)
    {
      var plugged := if extra.Some? then extra.value else -1;
      isPluggedIn := plugged == BatteryPluggedAc || plugged == BatteryPluggedUsb || plugged == BatteryPluggedWireless;
    }

    /**
      One pass of the stdout pump: `amt` bytes were read into `buffer` (a
      negative `amt` is the end of the stream). Until the node is ready the
      bytes are fed to the ready matcher; a match marks the node ready.
    */
    method OnStdout(buffer: array<Byte>, amt: int)
      requires Valid() && amt <= buffer.Length
      modifies this, readyMatcher
      ensures Valid()
      ensures readyMatcher == old(readyMatcher) && getBlockMatcher == old(getBlockMatcher)
      ensures ipfsProcessReady ==
        (old(ipfsProcessReady) ||
         (old(hasProcess) && 0 <= amt &&
          FirstMatch(ReadyMarker, old(readyMatcher.matchedCount), old(buffer[..amt])).Some?))
      ensures old(hasProcess) && 0 <= amt && !old(ipfsProcessReady) ==>
        readyMatcher.fed == old(readyMatcher.fed) + Consumed(ReadyMarker, old(readyMatcher.matchedCount), old(buffer[..amt]))
      ensures (!old(hasProcess) || amt < 0 || old(ipfsProcessReady)) && readyMatcher != null ==>
        readyMatcher.fed == old(readyMatcher.fed) && readyMatcher.matchedCount == old(readyMatcher.matchedCount)
      ensures lastActivity == old(lastActivity) && hasProcess == old(hasProcess)
      ensures Bandwidth() == old(Bandwidth()) && stopRequested == old(stopRequested)
      ensures isPluggedIn == old(isPluggedIn) && checkTimerRunning == old(checkTimerRunning)
      ensures dateStarted == old(dateStarted) && ipfsNumConnections == old(ipfsNumConnections)
      ensures spawnedCommand == old(spawnedCommand) && spawnedEnvironment == old(spawnedEnvironment)
    {
      if !hasProcess || amt < 0 {
        return;
      }
      if !ipfsProcessReady {
        assert Slice(buffer[..], 0, amt) == buffer[..amt];
        var found := readyMatcher.AddRange(buffer, 0, amt);
        if found {
          ipfsProcessReady := true;
        }
      }
    }

    /**
      One pass of the stderr pump: the bytes are fed to the activity matcher and
      a match marks the node as used at `now`.
    */
    method OnStderr(buffer: array<Byte>, amt: int, now: int)
      requires Valid() && amt <= buffer.Length
      modifies this, getBlockMatcher
      ensures Valid()
      ensures readyMatcher == old(readyMatcher) && getBlockMatcher == old(getBlockMatcher)
      ensures lastActivity ==
        if old(hasProcess) && 0 <= amt &&
           FirstMatch(ActivityMarker, old(getBlockMatcher.matchedCount), old(buffer[..amt])).Some?
        then now else old(lastActivity)
      ensures old(hasProcess) && 0 <= amt ==>
        getBlockMatcher.fed == old(getBlockMatcher.fed) + Consumed(ActivityMarker, old(getBlockMatcher.matchedCount), old(buffer[..amt]))
      ensures (!old(hasProcess) || amt < 0) && getBlockMatcher != null ==>
        getBlockMatcher.fed == old(getBlockMatcher.fed) && getBlockMatcher.matchedCount == old(getBlockMatcher.matchedCount)
      ensures ipfsProcessReady == old(ipfsProcessReady) && hasProcess == old(hasProcess)
      ensures Bandwidth() == old(Bandwidth()) && stopRequested == old(stopRequested)
      ensures isPluggedIn == old(isPluggedIn) && checkTimerRunning == old(checkTimerRunning)
      ensures dateStarted == old(dateStarted) && ipfsNumConnections == old(ipfsNumConnections)
      ensures spawnedCommand == old(spawnedCommand) && spawnedEnvironment == old(spawnedEnvironment)
    {
      if !hasProcess || amt < 0 {
        return;
      }
      assert Slice(buffer[..], 0, amt) == buffer[..amt];
      var found := getBlockMatcher.AddRange(buffer, 0, amt);
      if found {
        lastActivity := now;
      }
    }

    /** The exit of the daemon process: clear the flag and the handle, then stop. */
    method OnProcessExit()
      modifies this
      ensures !ipfsProcessReady && !hasProcess && stopRequested
      ensures lastActivity == old(lastActivity) && dateStarted == old(dateStarted)
      ensures Bandwidth() == old(Bandwidth()) && isPluggedIn == old(isPluggedIn)
      ensures checkTimerRunning == old(checkTimerRunning) && ipfsNumConnections == old(ipfsNumConnections)
      ensures readyMatcher == old(readyMatcher) && getBlockMatcher == old(getBlockMatcher)
      ensures spawnedCommand == old(spawnedCommand) && spawnedEnvironment == old(spawnedEnvironment)
    {
      ipfsProcessReady := false;
      hasProcess := false;
      stopRequested := true;
    }

    /**
      `checkStatus`, one tick of the status timer: nothing until the node is
      ready; then either request the idle shutdown, or poll the stats (`reply`
      is the poll's outcome, consulted only here) and store them on success.
      A stop requested here was announced: the notice then shows "unused".
    */
    method CheckStatus(now: int, reply: StatsReply)
      modifies this
      ensures !old(ipfsProcessReady) ==> unchanged(this)
      ensures stopRequested ==
        (old(stopRequested) || (old(ipfsProcessReady) && IdleShutdownDue(old(isPluggedIn), old(lastActivity), now)))
      ensures Bandwidth() ==
        if old(ipfsProcessReady) && !IdleShutdownDue(old(isPluggedIn), old(lastActivity), now) && reply.StatsAnswered?
        then BandwidthOf(reply.info) else old(Bandwidth())
      ensures lastActivity == old(lastActivity) && ipfsProcessReady == old(ipfsProcessReady)
      ensures hasProcess == old(hasProcess) && isPluggedIn == old(isPluggedIn)
      ensures !old(stopRequested) && stopRequested ==>
        old(Notice(now)) == (if old(hasProcess) then Unused else Offline)
      ensures checkTimerRunning == old(checkTimerRunning) && dateStarted == old(dateStarted)
      ensures ipfsNumConnections == old(ipfsNumConnections)
      ensures readyMatcher == old(readyMatcher) && getBlockMatcher == old(getBlockMatcher)
      ensures spawnedCommand == old(spawnedCommand) && spawnedEnvironment == old(spawnedEnvironment)
    {
      if !ipfsProcessReady {
        return;
      }
      if !isPluggedIn && now > lastActivity + ShutdownAfterMs {
        stopRequested := true;
        return;
      }
      match reply
      case StatsFailed =>
      case StatsAnswered(info) =>
        ipfsDownSpeed := if info.Some? then OrZero(info.value.rateIn) else 0;
        ipfsUpSpeed := if info.Some? then OrZero(info.value.rateOut) else 0;
        ipfsTotalTransferred :=
          (if info.Some? then OrZero(info.value.totalIn) else 0) +
          (if info.Some? then OrZero(info.value.totalOut) else 0);
    }
  }
}
