/**
 Processes whose command line is not readable yet wait in a queue and are read again
 after growing delays. Both event sources keep such a queue.
 */
module Pending {
  import opened Prelude

  const BACKOFF_MS: seq<nat> := [100, 300, 1000]
  const MAX_RETRIES: nat := 3
  const PROC_CAPACITY: nat := 64
  const EBPF_CAPACITY: nat := 128

  /** A waiting process, how often it was put back, and the time of its next read. */
  datatype Waiting = Waiting(pid: int, retry: nat, next: nat)

  datatype SourceEvent = Fork(pid: int, pkg: string) | ThreadClone(pid: int, tid: int, pkg: string)

  /** What looking at a due process gives: it is gone, still nameless, or ready with or without an event. */
  datatype Look = Gone | Nameless | Ready(event: Option<SourceEvent>)

  // ---------- one pass over the queue ----------

  function KeptOf(p: Waiting, now: nat, look: Look, retryNow: nat): seq<Waiting> {
    if now < p.next then [p]
    else if look.Nameless? && p.retry < MAX_RETRIES then [Waiting(p.pid, p.retry + 1, retryNow + BACKOFF_MS[p.retry])]
    else []
  }

  function EventsOf(p: Waiting, now: nat, look: Look): seq<SourceEvent> {
    if now >= p.next && look.Ready? && look.event.Some? then [look.event.value] else []
  }

  type Looks = int -> Look
  type Times = int -> nat

  function Kept(q: seq<Waiting>, now: nat, look: Looks, retryNow: Times): seq<Waiting> {
    if q == [] then []
    else
      var last := q[|q| - 1];
      Kept(q[..|q| - 1], now, look, retryNow) + KeptOf(last, now, look(last.pid), retryNow(last.pid))
  }

  function Produced(q: seq<Waiting>, now: nat, look: Looks): seq<SourceEvent> {
    if q == [] then []
    else
      var last := q[|q| - 1];
      Produced(q[..|q| - 1], now, look) + EventsOf(last, now, look(last.pid))
  }

  lemma PassSnoc(q: seq<Waiting>, k: nat, now: nat, look: Looks, retryNow: Times)
    requires k < |q|
    ensures var p := q[k];
            && Kept(q[..k + 1], now, look, retryNow) ==
              Kept(q[..k], now, look, retryNow) + KeptOf(p, now, look(p.pid), retryNow(p.pid))
            && Produced(q[..k + 1], now, look) == Produced(q[..k], now, look) + EventsOf(p, now, look(p.pid))
  {
    assert q[..k + 1][..k] == q[..k];
  }

  lemma {:induction false} NothingPassed(now: nat, look: Looks, retryNow: Times)
    ensures Kept([], now, look, retryNow) == [] && Produced([], now, look) == []
  {
  }

  // ---------- the queue of the /proc source ----------

  /** The kernel's answers about one process, and whether the rules care about its package. */
  datatype ProcIo = ProcIo(alive: bool, cmdline: Option<string>, interested: bool)

  function ProcLook(pid: int, io: ProcIo): Look {
    if !io.alive then Gone
    else if io.cmdline.None? || io.cmdline.value == "" then Nameless
    else Ready(if io.interested then Some(Fork(pid, io.cmdline.value)) else None)
  }

  function ProcLooks(io: int -> ProcIo): Looks { (pid: int) => ProcLook(pid, io(pid)) }

  function Always(t: nat): Times { (pid: int) => t }

  predicate Queued(q: seq<Waiting>, pid: int) { exists i :: 0 <= i < |q| && q[i].pid == pid }

  function Enqueued(q: seq<Waiting>, pid: int, now: nat, capacity: nat): seq<Waiting> {
    if |q| < capacity && !Queued(q, pid) then q + [Waiting(pid, 0, now)] else q
  }

  class ProcQueue {
    var pending: seq<Waiting>

    constructor ()
      ensures pending == []
    {
      pending := [];
    }

    method FlushPending(now: nat, io: int -> ProcIo) returns (events: seq<SourceEvent>)
      requires QueueOk(pending, PROC_CAPACITY)
      modifies this
      ensures pending == Kept(old(pending), now, ProcLooks(io), Always(now))
      ensures events == Produced(old(pending), now, ProcLooks(io))
      ensures ProcEventsAre(events, old(pending), now, io)
      ensures ProcRestIs(pending, old(pending), now, io)
      ensures QueueOk(pending, PROC_CAPACITY)
    {
      NothingPassed(now, ProcLooks(io), Always(now));
      hide Kept, Produced;
      events := [];
      ProcPass([], now, io);
      if pending == [] {
        return;
      }
      var kept: seq<Waiting> := [];
      var q := pending;
      pending := [];
      for k := 0 to |q|
        invariant pending == [] && q == old(pending)
        invariant kept == Kept(q[..k], now, ProcLooks(io), Always(now))
        invariant events == Produced(q[..k], now, ProcLooks(io))
      {
        PassSnoc(q, k, now, ProcLooks(io), Always(now));
        var p := q[k];
        if now < p.next {
          kept := kept + [p];
          continue;
        }
        var a := io(p.pid);
        if !a.alive {
          continue;
        }
        if a.cmdline.Some? && a.cmdline.value != "" {
          if a.interested {
            events := events + [Fork(p.pid, a.cmdline.value)];
          }
        } else if p.retry < MAX_RETRIES {
          kept := kept + [Waiting(p.pid, p.retry + 1, now + BACKOFF_MS[p.retry])];
        }
      }
      assert q[..|q|] == q;
      pending := kept;
      KeptOk(q, now, ProcLooks(io), Always(now), PROC_CAPACITY);
      ProcPass(q, now, io);
    }

    /** The guard of the full scan for a process without a command line. */
    method Enqueue(pid: int, tracked: bool, now: nat)
      requires QueueOk(pending, PROC_CAPACITY)
      modifies this
      ensures pending == if tracked then old(pending) else Enqueued(old(pending), pid, now, PROC_CAPACITY)
      ensures pending == old(pending) +
        if tracked || |old(pending)| >= 64 || (exists p :: p in old(pending) && p.pid == pid) then []
          else [Waiting(pid, 0, now)]
      ensures QueueOk(pending, PROC_CAPACITY)
    {
      EnqueuedOk(pending, pid, now, PROC_CAPACITY);
      QueuedMeaning(pending, pid);
      if |pending| < PROC_CAPACITY && !tracked && !Queued(pending, pid) {
        pending := pending + [Waiting(pid, 0, now)];
      }
    }
  }

  // ---------- the queue of the eBPF source ----------

  /** As for /proc, with the thread group and the package of the group's leader; the clock is read again on retry. */
  datatype EbpfIo = EbpfIo(
    alive: bool,
    cmdline: Option<string>,
    interested: bool,
    tgid: Option<int>,
    leaderCmdline: Option<string>,
    leaderInterested: bool,
    retryNow: nat)

  function EbpfEvent(pid: int, io: EbpfIo): Option<SourceEvent>
    requires io.cmdline.Some?
  {
    var tgid := if io.tgid.Some? then io.tgid.value else pid;
    if tgid == pid then (if io.interested then Some(Fork(pid, io.cmdline.value)) else None)
    else if io.leaderCmdline.Some? && io.leaderInterested then Some(ThreadClone(tgid, pid, io.leaderCmdline.value))
    else None
  }

  function EbpfLook(pid: int, io: EbpfIo): Look {
    if !io.alive then Gone
    else if io.cmdline.None? || io.cmdline.value == "" then Nameless
    else Ready(EbpfEvent(pid, io))
  }

  function EbpfLooks(io: int -> EbpfIo): Looks { (pid: int) => EbpfLook(pid, io(pid)) }

  function EbpfTimes(io: int -> EbpfIo): Times { (pid: int) => io(pid).retryNow }

  function ScanEvent(cmdline: int -> Option<string>, interested: string -> bool): int -> seq<SourceEvent> {
    (pid: int) =>
      match cmdline(pid)
      case None => []
      case Some(pkg) => if pkg != "" && interested(pkg) then [Fork(pid, pkg)] else []
  }

  function Reported(cmdline: int -> Option<string>, interested: string -> bool, pids: seq<int>): set<int> {
    set p | p in pids && ScanEvent(cmdline, interested)(p) != []
  }

  lemma ReportedSnoc(cmdline: int -> Option<string>, interested: string -> bool, pids: seq<int>, pid: int)
    ensures Reported(cmdline, interested, pids + [pid]) ==
      Reported(cmdline, interested, pids) + if ScanEvent(cmdline, interested)(pid) != [] then {pid} else {}
  {
  }

  class EbpfQueue {
    var pending: seq<Waiting>
    var initialScanned: set<int>

    constructor ()
      ensures pending == [] && initialScanned == {}
    {
      pending, initialScanned := [], {};
    }

    /** The scan at start-up: each readable process of interest gives an event, and is remembered. */
    method InitialScan(pids: seq<int>, cmdline: int -> Option<string>, interested: string -> bool)
      returns (events: seq<SourceEvent>)
      modifies this`initialScanned
      ensures events == FlatMap(ScanEvent(cmdline, interested), pids)
      ensures initialScanned == old(initialScanned) + Reported(cmdline, interested, pids)
      ensures forall pid, pkg :: Fork(pid, pkg) in events <==>
        pid in pids && cmdline(pid) == Some(pkg) && pkg != "" && interested(pkg)
      ensures forall pid :: pid in initialScanned <==>
        pid in old(initialScanned) || (exists pkg :: Fork(pid, pkg) in events)
    {
      hide FlatMap;
      events := [];
      ghost var f := ScanEvent(cmdline, interested);
      FlatMapEmpty(f, []);
      for k := 0 to |pids|
        invariant events == FlatMap(f, pids[..k])
        invariant initialScanned == old(initialScanned) + Reported(cmdline, interested, pids[..k])
      {
        var pid := pids[k];
        assert pids[..k + 1] == pids[..k] + [pid];
        FlatMapSnoc(f, pids[..k], pid);
        ReportedSnoc(cmdline, interested, pids[..k], pid);
        var pkg := cmdline(pid);
        if pkg.None? || pkg.value == "" || !interested(pkg.value) {
          continue;
        }
        events := events + [Fork(pid, pkg.value)];
        initialScanned := initialScanned + {pid};
      }
      assert pids[..|pids|] == pids;
      forall e { FlatMapMember(f, pids, e); }
      forall pid | pid in pids ensures f(pid) != [] <==> exists pkg :: Fork(pid, pkg) in f(pid) {
        if f(pid) != [] {
          assert Fork(pid, cmdline(pid).value) in f(pid);
        }
      }
    }

    /** The window of the initial scan ends with the first round of events. */
    method EndInitialWindow()
      modifies this`initialScanned
      ensures initialScanned == {}
    {
      initialScanned := {};
    }

    /** A fork event from the kernel; processes the initial scan covered are skipped. */
    method HandleFork(pid: int, now: nat)
      requires QueueOk(pending, EBPF_CAPACITY)
      modifies this`pending
      ensures pending == if pid in initialScanned then old(pending) else Enqueued(old(pending), pid, now, EBPF_CAPACITY)
      ensures pending == old(pending) +
        if pid in initialScanned || |old(pending)| >= 128 || (exists p :: p in old(pending) && p.pid == pid) then []
        else [Waiting(pid, 0, now)]
      ensures QueueOk(pending, EBPF_CAPACITY)
    {
      EnqueuedOk(pending, pid, now, EBPF_CAPACITY);
      QueuedMeaning(pending, pid);
      if pid in initialScanned {
        return;
      }
      if |pending| < EBPF_CAPACITY && !Queued(pending, pid) {
        pending := pending + [Waiting(pid, 0, now)];
      }
    }

    method OnConfigChanged()
      modifies this`pending
      ensures pending == []
    {
      pending := [];
    }

    method FlushPending(configured: bool, now: nat, io: int -> EbpfIo) returns (events: seq<SourceEvent>)
      requires QueueOk(pending, EBPF_CAPACITY)
      modifies this`pending
      ensures configured ==> pending == Kept(old(pending), now, EbpfLooks(io), EbpfTimes(io))
      ensures configured ==> events == Produced(old(pending), now, EbpfLooks(io))
      ensures configured ==> EbpfEventsAre(events, old(pending), now, io)
      ensures configured ==> EbpfRestIs(pending, old(pending), now, io)
      ensures !configured ==> pending == old(pending) && events == []
      ensures QueueOk(pending, EBPF_CAPACITY)
    {
      NothingPassed(now, EbpfLooks(io), EbpfTimes(io));
      hide Kept, Produced;
      events := [];
      EbpfPass([], now, io);
      if pending == [] || !configured {
        return;
      }
      var kept: seq<Waiting> := [];
      var q := pending;
      pending := [];
      for k := 0 to |q|
        invariant pending == [] && q == old(pending)
        invariant kept == Kept(q[..k], now, EbpfLooks(io), EbpfTimes(io))
        invariant events == Produced(q[..k], now, EbpfLooks(io))
      {
        PassSnoc(q, k, now, EbpfLooks(io), EbpfTimes(io));
        var p := q[k];
        if now < p.next {
          kept := kept + [p];
          continue;
        }
        var a := io(p.pid);
        if !a.alive {
          continue;
        }
        if a.cmdline.None? || a.cmdline.value == "" {
          kept := RetryOrDrop(p, a.retryNow, kept);
          continue;
        }
        var tgid := if a.tgid.Some? then a.tgid.value else p.pid;
        if tgid == p.pid {
          if a.interested {
            events := events + [Fork(p.pid, a.cmdline.value)];
          }
        } else if a.leaderCmdline.Some? {
          if a.leaderInterested {
            events := events + [ThreadClone(tgid, p.pid, a.leaderCmdline.value)];
          }
        }
      }
      assert q[..|q|] == q;
      pending := kept;
      KeptOk(q, now, EbpfLooks(io), EbpfTimes(io), EBPF_CAPACITY);
      EbpfPass(q, now, io);
    }
  }

  method RetryOrDrop(p: Waiting, retryNow: nat, kept: seq<Waiting>) returns (kept': seq<Waiting>)
    ensures kept' == kept +
      if p.retry < MAX_RETRIES then [Waiting(p.pid, p.retry + 1, retryNow + BACKOFF_MS[p.retry])] else []
  {
    kept' := kept;
    if p.retry < MAX_RETRIES {
      kept' := kept' + [Waiting(p.pid, p.retry + 1, retryNow + BACKOFF_MS[p.retry])];
    }
  }

  // ---------- what a pass means ----------

  /** A process of the queue is due. */
  predicate Due(q: seq<Waiting>, pid: int, now: nat) { exists p :: p in q && p.pid == pid && p.next <= now }

  /** Exactly the due, living processes with a name of interest give an event, under that name. */
  ghost predicate ProcEventsAre(events: seq<SourceEvent>, q: seq<Waiting>, now: nat, io: int -> ProcIo) {
    && (forall pid, pkg :: Fork(pid, pkg) in events <==>
         Due(q, pid, now) && io(pid).alive && io(pid).cmdline == Some(pkg) && pkg != "" && io(pid).interested)
    && (forall e :: e in events ==> e.Fork?)
  }

  /** What is not due stays as it is; a due, living, nameless process stays up to three times, each time later. */
  ghost predicate ProcRestIs(rest: seq<Waiting>, q: seq<Waiting>, now: nat, io: int -> ProcIo) {
    forall r :: r in rest <==>
      || (r in q && now < r.next)
      || (exists p :: p in q && p.next <= now && p.retry < 3 && io(p.pid).alive && io(p.pid).cmdline in {None, Some("")}
           && r == Waiting(p.pid, p.retry + 1, now + Delay(p.retry)))
  }

  /** The wait before each retry, in milliseconds. */
  function Delay(retry: nat): nat { if retry == 0 then 100 else if retry == 1 then 300 else 1000 }

  /**
   The same for the kernel's forks. A thread is reported under the leader of its group, with the leader's
   name and interest; its own name only has to be there.
   */
  ghost predicate EbpfEventsAre(events: seq<SourceEvent>, q: seq<Waiting>, now: nat, io: int -> EbpfIo) {
    && (forall pid, pkg :: Fork(pid, pkg) in events <==>
         && Due(q, pid, now) && io(pid).alive && io(pid).cmdline == Some(pkg) && pkg != ""
         && io(pid).tgid in {None, Some(pid)} && io(pid).interested)
    && (forall leader, pid, pkg :: ThreadClone(leader, pid, pkg) in events <==>
         && Due(q, pid, now) && io(pid).alive && io(pid).cmdline !in {None, Some("")}
         && io(pid).tgid == Some(leader) && leader != pid && io(pid).leaderCmdline == Some(pkg) &&
           io(pid).leaderInterested)
  }

  ghost predicate EbpfRestIs(rest: seq<Waiting>, q: seq<Waiting>, now: nat, io: int -> EbpfIo) {
    forall r :: r in rest <==>
      || (r in q && now < r.next)
      || (exists p :: p in q && p.next <= now && p.retry < 3 && io(p.pid).alive && io(p.pid).cmdline in {None, Some("")}
           && r == Waiting(p.pid, p.retry + 1, io(p.pid).retryNow + Delay(p.retry)))
  }

  lemma {:induction false} KeptMember(q: seq<Waiting>, now: nat, look: Looks, retryNow: Times, r: Waiting)
    ensures r in Kept(q, now, look, retryNow) <==>
      exists p :: p in q && r in KeptOf(p, now, look(p.pid), retryNow(p.pid))
  {
    hide KeptOf;
    if q != [] {
      var init, last := q[..|q| - 1], q[|q| - 1];
      assert q == init + [last];
      KeptMember(init, now, look, retryNow, r);
    }
  }

  lemma {:induction false} ProducedMember(q: seq<Waiting>, now: nat, look: Looks, e: SourceEvent)
    ensures e in Produced(q, now, look) <==> exists p :: p in q && e in EventsOf(p, now, look(p.pid))
  {
    hide EventsOf;
    if q != [] {
      var init, last := q[..|q| - 1], q[|q| - 1];
      assert q == init + [last];
      ProducedMember(init, now, look, e);
    }
  }

  lemma KeptOfMeaning(p: Waiting, now: nat, look: Look, retryNow: nat, r: Waiting)
    ensures r in KeptOf(p, now, look, retryNow) <==>
      || (now < p.next && r == p)
      || (p.next <= now && p.retry < 3 && look.Nameless? && r == Waiting(p.pid, p.retry + 1, retryNow + Delay(p.retry)))
  {
  }

  lemma {:induction false} ProcPass(q: seq<Waiting>, now: nat, io: int -> ProcIo)
    ensures ProcEventsAre(Produced(q, now, ProcLooks(io)), q, now, io)
    ensures ProcRestIs(Kept(q, now, ProcLooks(io), Always(now)), q, now, io)
  {
    ProcEvents(q, now, io);
    ProcRest(q, now, io);
  }

  lemma {:induction false} ProcEvents(q: seq<Waiting>, now: nat, io: int -> ProcIo)
    ensures ProcEventsAre(Produced(q, now, ProcLooks(io)), q, now, io)
  {
    hide Produced;
    forall e { ProducedMember(q, now, ProcLooks(io), e); }
    forall p ensures ProcLooks(io)(p) == ProcLook(p, io(p)) {
    }
  }

  lemma {:induction false} ProcRest(q: seq<Waiting>, now: nat, io: int -> ProcIo)
    ensures ProcRestIs(Kept(q, now, ProcLooks(io), Always(now)), q, now, io)
  {
    forall p: int ensures ProcLooks(io)(p).Nameless? <==> io(p).alive && io(p).cmdline in {None, Some("")} {
      assert ProcLooks(io)(p) == ProcLook(p, io(p));
    }
    forall p: int ensures Always(now)(p) == now {
    }
    hide Kept, KeptOf, ProcLooks, Always;
    forall r { KeptMember(q, now, ProcLooks(io), Always(now), r); }
    forall r: Waiting, p: Waiting { KeptOfMeaning(p, now, ProcLooks(io)(p.pid), Always(now)(p.pid), r); }
  }

  lemma {:induction false} EbpfPass(q: seq<Waiting>, now: nat, io: int -> EbpfIo)
    ensures EbpfEventsAre(Produced(q, now, EbpfLooks(io)), q, now, io)
    ensures EbpfRestIs(Kept(q, now, EbpfLooks(io), EbpfTimes(io)), q, now, io)
  {
    EbpfEvents(q, now, io);
    EbpfRest(q, now, io);
  }

  lemma {:induction false} EbpfEvents(q: seq<Waiting>, now: nat, io: int -> EbpfIo)
    ensures EbpfEventsAre(Produced(q, now, EbpfLooks(io)), q, now, io)
  {
    hide Produced;
    forall e { ProducedMember(q, now, EbpfLooks(io), e); }
    forall p ensures EbpfLooks(io)(p) == EbpfLook(p, io(p)) {
    }
  }

  lemma {:induction false} EbpfRest(q: seq<Waiting>, now: nat, io: int -> EbpfIo)
    ensures EbpfRestIs(Kept(q, now, EbpfLooks(io), EbpfTimes(io)), q, now, io)
  {
    forall p: int ensures EbpfLooks(io)(p).Nameless? <==> io(p).alive && io(p).cmdline in {None, Some("")} {
      assert EbpfLooks(io)(p) == EbpfLook(p, io(p));
    }
    forall p: int ensures EbpfTimes(io)(p) == io(p).retryNow {
    }
    hide Kept, KeptOf, EbpfLooks, EbpfTimes;
    forall r { KeptMember(q, now, EbpfLooks(io), EbpfTimes(io), r); }
    forall r: Waiting, p: Waiting { KeptOfMeaning(p, now, EbpfLooks(io)(p.pid), EbpfTimes(io)(p.pid), r); }
  }

  // ---------- the queue stays in bounds ----------

  /** Within capacity, no process twice, and no more than three retries. */
  ghost predicate QueueOk(q: seq<Waiting>, capacity: nat) {
    && |q| <= capacity
    && (forall i, j :: 0 <= i < j < |q| ==> q[i].pid != q[j].pid)
    && (forall i :: 0 <= i < |q| ==> q[i].retry <= MAX_RETRIES)
  }

  lemma QueuedMeaning(q: seq<Waiting>, pid: int)
    ensures Queued(q, pid) <==> exists p :: p in q && p.pid == pid
  {
    if p :| p in q && p.pid == pid {
      var i :| 0 <= i < |q| && q[i] == p;
    }
  }

  lemma EnqueuedOk(q: seq<Waiting>, pid: int, now: nat, capacity: nat)
    requires QueueOk(q, capacity)
    ensures QueueOk(Enqueued(q, pid, now, capacity), capacity)
  {
  }

  lemma {:induction false} KeptFrom(q: seq<Waiting>, now: nat, look: Looks, retryNow: Times, i: nat)
    requires i < |Kept(q, now, look, retryNow)|
    ensures Queued(q, Kept(q, now, look, retryNow)[i].pid)
  {
    var n := |q| - 1;
    var before := Kept(q[..n], now, look, retryNow);
    if i < |before| {
      KeptFrom(q[..n], now, look, retryNow, i);
      var j :| 0 <= j < n && q[..n][j].pid == before[i].pid;
      assert q[j].pid == before[i].pid;
    } else {
      assert q[n].pid == Kept(q, now, look, retryNow)[i].pid;
    }
  }

  lemma {:induction false} KeptOk(q: seq<Waiting>, now: nat, look: Looks, retryNow: Times, capacity: nat)
    requires QueueOk(q, capacity)
    ensures QueueOk(Kept(q, now, look, retryNow), capacity)
    ensures |Kept(q, now, look, retryNow)| <= |q|
  {
    if q != [] {
      var n := |q| - 1;
      KeptOk(q[..n], now, look, retryNow, n);
      var before := Kept(q[..n], now, look, retryNow);
      forall i | 0 <= i < |before| ensures before[i].pid != q[n].pid {
        KeptFrom(q[..n], now, look, retryNow, i);
      }
    }
  }

  // ---------- every process is read at most four times per enqueueing ----------

  /** Reads still due to a waiting process. */
  function Credit(p: Waiting, pid: int): int { if p.pid == pid then 4 - p.retry else 0 }

  function CreditOf(q: seq<Waiting>, pid: int): int {
    if q == [] then 0 else CreditOf(q[..|q| - 1], pid) + Credit(q[|q| - 1], pid)
  }

  function Places(q: seq<Waiting>, pid: int): nat {
    if q == [] then 0 else Places(q[..|q| - 1], pid) + if q[|q| - 1].pid == pid then 1 else 0
  }

  function ReadOf(p: Waiting, now: nat, look: Look, pid: int): nat {
    if p.pid == pid && now >= p.next && !look.Gone? then 1 else 0
  }

  /** Command lines read of one process while flushing. */
  function Reads(q: seq<Waiting>, now: nat, look: Looks, pid: int): nat {
    if q == [] then 0
    else Reads(q[..|q| - 1], now, look, pid) + ReadOf(q[|q| - 1], now, look(q[|q| - 1].pid), pid)
  }

  predicate Concerns(e: SourceEvent, pid: int) {
    match e
    case Fork(p, _) => p == pid
    case ThreadClone(_, tid, _) => tid == pid
  }

  function EventsFor(events: seq<SourceEvent>, pid: int): nat {
    if events == [] then 0
    else EventsFor(events[..|events| - 1], pid) + if Concerns(events[|events| - 1], pid) then 1 else 0
  }

  /** The events a look can give name the process looked at. */
  ghost predicate Honest(look: Looks) {
    forall p, q :: look(p).Ready? && look(p).event.Some? ==> (Concerns(look(p).event.value, q) <==> p == q)
  }

  lemma ProcHonest(io: int -> ProcIo)
    ensures Honest(ProcLooks(io))
  {
    assert forall p :: ProcLooks(io)(p) == ProcLook(p, io(p));
  }

  lemma EbpfHonest(io: int -> EbpfIo)
    ensures Honest(EbpfLooks(io))
  {
    assert forall p :: EbpfLooks(io)(p) == EbpfLook(p, io(p));
  }

  lemma CreditConcat(a: seq<Waiting>, b: seq<Waiting>, pid: int)
    requires |b| <= 1
    ensures CreditOf(a + b, pid) == CreditOf(a, pid) + (if b == [] then 0 else Credit(b[0], pid))
    ensures Places(a + b, pid) == Places(a, pid) + if b != [] && b[0].pid == pid then 1 else 0
  {
    if b != [] {
      assert (a + b)[..|a|] == a;
    } else {
      assert a + b == a;
    }
  }

  lemma EventsConcat(a: seq<SourceEvent>, b: seq<SourceEvent>, pid: int)
    requires |b| <= 1
    ensures EventsFor(a + b, pid) == EventsFor(a, pid) + if b != [] && Concerns(b[0], pid) then 1 else 0
  {
    if b != [] {
      assert (a + b)[..|a|] == a;
    } else {
      assert a + b == a;
    }
  }

  lemma SpendOne(p: Waiting, now: nat, look: Look, retryNow: nat, pid: int)
    requires p.retry <= MAX_RETRIES
    requires look.Ready? && look.event.Some? ==> (Concerns(look.event.value, pid) <==> p.pid == pid)
    ensures var kept, events := KeptOf(p, now, look, retryNow), EventsOf(p, now, look);
            && |kept| <= 1 && |events| <= 1
            && ReadOf(p, now, look, pid) + (if kept == [] then 0 else Credit(kept[0], pid)) <= Credit(p, pid)
            && (if events != [] && Concerns(events[0], pid) then 1 else 0) +
              (if kept != [] && kept[0].pid == pid then 1 else 0)
               <= if p.pid == pid then 1 else 0
  {
  }

  /** Each read of a process lowers the reads still due to it, and its event takes it out of the queue. */
  lemma {:induction false} FlushSpends(q: seq<Waiting>, now: nat, look: Looks, retryNow: Times, pid: int, capacity: nat)
    requires QueueOk(q, capacity) && Honest(look)
    ensures Reads(q, now, look, pid) + CreditOf(Kept(q, now, look, retryNow), pid) <= CreditOf(q, pid)
    ensures EventsFor(Produced(q, now, look), pid) + Places(Kept(q, now, look, retryNow), pid) <= Places(q, pid)
  {
    if q != [] {
      var n := |q| - 1;
      hide KeptOf, EventsOf, ReadOf, Credit, Concerns;
      FlushSpends(q[..n], now, look, retryNow, pid, capacity);
      var p := q[n];
      SpendOne(p, now, look(p.pid), retryNow(p.pid), pid);
      CreditConcat(Kept(q[..n], now, look, retryNow), KeptOf(p, now, look(p.pid), retryNow(p.pid)), pid);
      EventsConcat(Produced(q[..n], now, look), EventsOf(p, now, look(p.pid)), pid);
    }
  }

  /** The steps a queue goes through. */
  datatype Step = Enter(pid: int, when: nat) | Flush(now: nat, look: Looks, retryNow: Times) | Clear

  /** The queue, and for one process how often it was enqueued, read, and turned into an event. */
  datatype Ledger = Ledger(q: seq<Waiting>, entered: nat, readings: nat, events: nat)

  function After(l: Ledger, s: Step, pid: int, capacity: nat): Ledger {
    match s
    case Enter(p, when) =>
      var q := Enqueued(l.q, p, when, capacity);
      l.(q := q, entered := l.entered + if p == pid && q != l.q then 1 else 0)
    case Flush(now, look, retryNow) =>
      Ledger(Kept(l.q, now, look, retryNow), l.entered, l.readings + Reads(l.q, now, look, pid),
             l.events + EventsFor(Produced(l.q, now, look), pid))
    case Clear => l.(q := [])
  }

  function AfterAll(steps: seq<Step>, pid: int, capacity: nat): Ledger {
    if steps == [] then Ledger([], 0, 0, 0)
    else After(AfterAll(steps[..|steps| - 1], pid, capacity), steps[|steps| - 1], pid, capacity)
  }

  ghost predicate HonestSteps(steps: seq<Step>) {
    forall i :: 0 <= i < |steps| && steps[i].Flush? ==> Honest(steps[i].look)
  }

  lemma {:induction false} CreditNonNegative(q: seq<Waiting>, pid: int, capacity: nat)
    requires QueueOk(q, capacity)
    ensures CreditOf(q, pid) >= 0
  {
    if q != [] {
      CreditNonNegative(q[..|q| - 1], pid, capacity);
    }
  }

  lemma {:induction false} RunLedger(steps: seq<Step>, pid: int, capacity: nat)
    requires HonestSteps(steps)
    ensures var l := AfterAll(steps, pid, capacity);
            QueueOk(l.q, capacity) && l.readings + CreditOf(l.q, pid) <= 4 * l.entered &&
              l.events + Places(l.q, pid) <= l.entered
  {
    if steps != [] {
      var n := |steps| - 1;
      RunLedger(steps[..n], pid, capacity);
      var l := AfterAll(steps[..n], pid, capacity);
      CreditNonNegative(l.q, pid, capacity);
      match steps[n] {
        case Enter(p, when) =>
          EnqueuedOk(l.q, p, when, capacity);
          CreditConcat(l.q, [Waiting(p, 0, when)], pid);
        case Flush(now, look, retryNow) =>
          KeptOk(l.q, now, look, retryNow, capacity);
          FlushSpends(l.q, now, look, retryNow, pid, capacity);
        case Clear =>
      }
    }
  }

  /**
   In every run the queue stays in bounds, and for every process: at most four reads for each time it
   was enqueued, and at most one event.
   */
  lemma {:induction false} ReadAtMostFourTimes(steps: seq<Step>, pid: int, capacity: nat)
    requires HonestSteps(steps)
    ensures var l := AfterAll(steps, pid, capacity);
            QueueOk(l.q, capacity) && l.readings <= 4 * l.entered && l.events <= l.entered
  {
    RunLedger(steps, pid, capacity);
    CreditNonNegative(AfterAll(steps, pid, capacity).q, pid, capacity);
  }

  // ---------- runs of the two sources ----------

  /** What happens to the /proc queue: a full scan meets a nameless process, or the queue is flushed. */
  datatype ProcStep = Scanned(pid: int, tracked: bool, now: nat) | ProcFlush(now: nat, io: int -> ProcIo)

  function ProcStepOf(s: ProcStep): seq<Step> {
    match s
    case Scanned(pid, tracked, now) => if tracked then [] else [Enter(pid, now)]
    case ProcFlush(now, io) => [Flush(now, ProcLooks(io), Always(now))]
  }

  /** What happens to the eBPF queue: a fork, a flush, which needs a configuration, or a new configuration. */
  datatype EbpfStep =
    | Forked(pid: int, covered: bool, now: nat)
    | EbpfFlush(configured: bool, now: nat, io: int -> EbpfIo)
    | Reload

  function EbpfStepOf(s: EbpfStep): seq<Step> {
    match s
    case Forked(pid, covered, now) => if covered then [] else [Enter(pid, now)]
    case EbpfFlush(configured, now, io) => if configured then [Flush(now, EbpfLooks(io), EbpfTimes(io))] else []
    case Reload => [Clear]
  }

  /** In every run of the /proc source, whatever the kernel answers. */
  lemma {:induction false} ProcReadAtMostFourTimes(steps: seq<ProcStep>, pid: int)
    ensures var l := AfterAll(FlatMap(ProcStepOf, steps), pid, PROC_CAPACITY);
            QueueOk(l.q, PROC_CAPACITY) && l.readings <= 4 * l.entered && l.events <= l.entered
  {
    hide FlatMap;
    var all := FlatMap(ProcStepOf, steps);
    forall i | 0 <= i < |all| && all[i].Flush? ensures Honest(all[i].look) {
      FlatMapMember(ProcStepOf, steps, all[i]);
      var s :| s in steps && all[i] in ProcStepOf(s);
      ProcHonest(s.io);
    }
    ReadAtMostFourTimes(all, pid, PROC_CAPACITY);
  }

  /** In every run of the eBPF source, whatever the kernel answers. */
  lemma EbpfReadAtMostFourTimes(steps: seq<EbpfStep>, pid: int)
    ensures var l := AfterAll(FlatMap(EbpfStepOf, steps), pid, EBPF_CAPACITY);
            QueueOk(l.q, EBPF_CAPACITY) && l.readings <= 4 * l.entered && l.events <= l.entered
  {
    hide FlatMap;
    var all := FlatMap(EbpfStepOf, steps);
    forall i | 0 <= i < |all| && all[i].Flush? ensures Honest(all[i].look) {
      FlatMapMember(EbpfStepOf, steps, all[i]);
      var s :| s in steps && all[i] in EbpfStepOf(s);
      EbpfHonest(s.io);
    }
    ReadAtMostFourTimes(all, pid, EBPF_CAPACITY);
  }
}
