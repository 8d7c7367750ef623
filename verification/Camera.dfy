/**
  Camera access (lib/camera.cpp): requests that select some content on the device and read it
  block by block under a mutex, from any number of threads.

  The device is taken to select content on command 0xc2 and to return the n-th block of the
  selected content on command 0xc4 with index n.
 */
module Cameras {
  import opened Common

  const BLOCK := 65536
  /** The packet counter is one byte. */
  const PACKETS := 256

  /** What a thread asks the camera for; `Ready` only checks the status. */
  datatype Job = Ready | Information | PictureList | File(name: string)

  /** Block `n` of the content; empty past the end. */
  function Block(c: seq<byte>, n: nat): seq<byte> {
    var from := n * BLOCK;
    if |c| <= from then [] else if |c| < from + BLOCK then c[from..] else c[from..from + BLOCK]
  }

  // ---------------------------------------------------------------- the download loop

  /** Where the download loop stands: before reading the packet, or after the last one. */
  datatype Loop = Reading(packet: nat, buffer: seq<byte>) | Complete(buffer: seq<byte>)

  /** One round of the loop. */
  function ReadOnce(c: seq<byte>, packet: nat, buffer: seq<byte>): Loop {
    var response := Block(c, packet);
    if |response| == BLOCK then Reading((packet + 1) % PACKETS, buffer + response) else Complete(buffer + response)
  }

  function Rounds(c: seq<byte>, n: nat): Loop {
    if n == 0 then Reading(0, [])
    else
      var before := Rounds(c, n - 1);
      if before.Complete? then before else ReadOnce(c, before.packet, before.buffer)
  }

  /** Content that the packet counter can address completely. */
  predicate Addressable(c: seq<byte>) {
    |c| < PACKETS * BLOCK
  }

  /** What the loop maintains: the buffer is the content so far, unless the counter may wrap. */
  ghost predicate GoodLoop(c: seq<byte>, l: Loop) {
    match l
    case Reading(packet, buffer) =>
      packet < PACKETS && (Addressable(c) ==> packet * BLOCK <= |c| && buffer == c[..packet * BLOCK])
    case Complete(buffer) => Addressable(c) && buffer == c
  }

  /** The round as it should be: one more block of the content, or all of it. */
  ghost function NextRound(c: seq<byte>, packet: nat): Loop {
    if (packet + 1) * BLOCK <= |c| then Reading(packet + 1, c[..(packet + 1) * BLOCK]) else Complete(c)
  }

  lemma ReadOnceGood(c: seq<byte>, packet: nat, buffer: seq<byte>)
    requires GoodLoop(c, Reading(packet, buffer))
    ensures GoodLoop(c, ReadOnce(c, packet, buffer))
    ensures Addressable(c) ==> ReadOnce(c, packet, buffer) == NextRound(c, packet)
    ensures !Addressable(c) ==> ReadOnce(c, packet, buffer).Reading?
  {
    var from := packet * BLOCK;
    if Addressable(c) {
      if from + BLOCK <= |c| {
        assert packet + 1 < PACKETS;
        assert c[..from] + c[from..from + BLOCK] == c[..from + BLOCK];
      } else if from < |c| {
        assert c[..from] + c[from..] == c;
      } else {
        assert c[..from] + [] == c;
      }
    }
  }

  lemma {:induction false} RoundsGood(c: seq<byte>, n: nat)
    ensures GoodLoop(c, Rounds(c, n))
    ensures !Addressable(c) ==> Rounds(c, n).Reading?
  {
    hide ReadOnce, GoodLoop;
    if n == 0 {
      StartGood(c);
    } else {
      RoundsGood(c, n - 1);
      var before := Rounds(c, n - 1);
      if before.Reading? {
        ReadOnceGood(c, before.packet, before.buffer);
      }
    }
  }

  lemma StartGood(c: seq<byte>)
    ensures GoodLoop(c, Reading(0, []))
  {
  }

  lemma {:induction false} RoundsProgress(c: seq<byte>, n: nat)
    requires Addressable(c) && n * BLOCK <= |c|
    ensures Rounds(c, n) == Reading(n, c[..n * BLOCK])
  {
    if n > 0 {
      RoundsProgress(c, n - 1);
      RoundsGood(c, n - 1);
      ReadOnceGood(c, n - 1, c[..(n - 1) * BLOCK]);
    }
  }

  /**
    The download loop ends exactly for content shorter than 256 blocks of 65536 bytes, and then
    with that content.  Anything longer is read over and over as the packet counter wraps.
   */
  lemma DownloadEndsIff(c: seq<byte>)
    ensures (exists n :: Rounds(c, n).Complete?) <==> |c| < 256 * 65536
    ensures forall n :: Rounds(c, n).Complete? ==> Rounds(c, n).buffer == c
  {
    hide Rounds;
    forall n
      ensures Rounds(c, n).Complete? ==> Addressable(c) && Rounds(c, n).buffer == c
    {
      RoundsGood(c, n);
    }
    if Addressable(c) {
      LastRound(c);
    }
  }

  lemma LastRound(c: seq<byte>)
    requires Addressable(c)
    ensures Rounds(c, |c| / BLOCK + 1).Complete?
  {
    var n := |c| / BLOCK;
    RoundsProgress(c, n);
    RoundsGood(c, n);
    ReadOnceGood(c, n, c[..n * BLOCK]);
  }

  // ---------------------------------------------------------------- the camera object

  class Camera {
    /** What the device holds, by request. */
    const content: Job -> seq<byte>
    var selected: Option<Job>

    constructor (content: Job -> seq<byte>)
      ensures this.content == content && selected == None
    {
      this.content := content;
      selected := None;
    }

    /** Command 0xc4. */
    method ReadBlock(packet: nat) returns (response: seq<byte>)
      requires selected.Some?
      ensures response == Block(content(selected.value), packet)
    {
      response := Block(content(selected.value), packet);
    }

    /** The download loop; it does not end on longer content. */
    method DownloadData() returns (result: seq<byte>)
      requires selected.Some? && |content(selected.value)| < 256 * 65536
      ensures result == content(selected.value)
    {
      hide Block;
      ghost var c := content(selected.value);
      var packet := 0;
      result := [];
      StartGood(c);
      while true
        invariant packet < PACKETS && packet * BLOCK <= |c| && GoodLoop(c, Reading(packet, result))
        decreases |c| - packet * BLOCK
      {
        ReadOnceGood(c, packet, result);
        var response := ReadBlock(packet);
        result := result + response;
        packet := (packet + 1) % PACKETS;
        if |response| != BLOCK {
          return;
        }
      }
    }

    /** Select the content of a request (command 0xc2) and download it. */
    method Get(job: Job) returns (result: seq<byte>)
      requires !job.Ready? && |content(job)| < 256 * 65536
      modifies this
      ensures result == content(job) && selected == Some(job)
    {
      selected := Some(job);
      result := DownloadData();
    }
  }

  // ---------------------------------------------------------------- many threads

  /** Where the lock holder stands. */
  datatype Pc = Entered | Inquired | Selected | Download(loop: Loop)

  datatype Thread = Idle | Waiting(job: Job) | Holding(job: Job, pc: Pc) | Done(job: Job, result: seq<byte>)

  datatype State = State(owner: Option<nat>, selected: Option<Job>, threads: seq<Thread>)

  predicate Init(s: State) {
    && s.owner == None
    && forall t :: 0 <= t < |s.threads| ==> s.threads[t].Idle?
  }

  function WithThread(s: State, t: nat, th: Thread): State
    requires t < |s.threads|
  {
    s.(threads := s.threads[t := th])
  }

  /** Thread `t` asks for something. */
  ghost predicate Asks(s: State, s': State, t: nat) {
    && t < |s.threads| && (s.threads[t].Idle? || s.threads[t].Done?)
    && exists job :: s' == WithThread(s, t, Waiting(job))
  }

  /** Thread `t` takes the free mutex. */
  ghost predicate Locks(s: State, s': State, t: nat) {
    && t < |s.threads| && s.threads[t].Waiting? && s.owner == None
    && s' == WithThread(s, t, Holding(s.threads[t].job, Entered)).(owner := Some(t))
  }

  /** The lock holder sends its next command, or gives the mutex back. */
  ghost predicate Proceeds(content: Job -> seq<byte>, s: State, s': State, t: nat) {
    && t < |s.threads| && s.threads[t].Holding?
    && var job, pc := s.threads[t].job, s.threads[t].pc;
       match pc
       case Entered =>
         if job.Ready? then s' == WithThread(s, t, Done(job, [])).(owner := None)
         else if job.Information? then s' == WithThread(s, t, Holding(job, Inquired))
         else s' == WithThread(s, t, Holding(job, Selected)).(selected := Some(job))
       case Inquired => s' == WithThread(s, t, Holding(job, Selected)).(selected := Some(job))
       case Selected => s' == WithThread(s, t, Holding(job, Download(Reading(0, []))))
       case Download(Reading(packet, buffer)) =>
         && s.selected.Some?
         && s' == WithThread(s, t, Holding(job, Download(ReadOnce(content(s.selected.value), packet, buffer))))
       case Download(Complete(buffer)) => s' == WithThread(s, t, Done(job, buffer)).(owner := None)
  }

  ghost predicate Next(content: Job -> seq<byte>, s: State, s': State) {
    exists t :: Asks(s, s', t) || Locks(s, s', t) || Proceeds(content, s, s', t)
  }

  /** Any interleaving of any number of threads. */
  ghost predicate Interleaving(content: Job -> seq<byte>, trace: seq<State>) {
    && trace != [] && Init(trace[0])
    && forall i :: 0 <= i < |trace| - 1 ==> Next(content, trace[i], trace[i + 1])
  }

  ghost predicate GoodThread(content: Job -> seq<byte>, s: State, t: nat)
    requires t < |s.threads|
  {
    match s.threads[t]
    case Holding(job, pc) =>
      && s.owner == Some(t)
      && (!pc.Entered? ==> !job.Ready?)
      && (pc.Selected? || pc.Download? ==> s.selected == Some(job))
      && (pc.Download? ==> GoodLoop(content(job), pc.loop))
    case Done(job, result) => !job.Ready? ==> Addressable(content(job)) && result == content(job)
    case _ => true
  }

  ghost predicate Inv(content: Job -> seq<byte>, s: State) {
    && (s.owner.Some? ==> s.owner.value < |s.threads| && s.threads[s.owner.value].Holding?)
    && forall t :: 0 <= t < |s.threads| ==> GoodThread(content, s, t)
  }

  lemma ProceedsKeepsInv(content: Job -> seq<byte>, s: State, s': State, t: nat)
    requires Inv(content, s) && Proceeds(content, s, s', t)
    ensures Inv(content, s')
  {
    hide ReadOnce, GoodLoop;
    var job, pc := s.threads[t].job, s.threads[t].pc;
    assert GoodThread(content, s, t);
    StartGood(content(job));
    if pc.Download? && pc.loop.Reading? {
      ReadOnceGood(content(job), pc.loop.packet, pc.loop.buffer);
    }
    if pc.Download? && pc.loop.Complete? {
      CompleteIs(content(job), pc.loop.buffer);
    }
    forall u | 0 <= u < |s'.threads|
      ensures GoodThread(content, s', u)
    {
      assert GoodThread(content, s, u);
    }
  }

  lemma CompleteIs(c: seq<byte>, buffer: seq<byte>)
    requires GoodLoop(c, Complete(buffer))
    ensures buffer == c && Addressable(c)
  {
  }

  lemma NextKeepsInv(content: Job -> seq<byte>, s: State, s': State)
    requires Inv(content, s) && Next(content, s, s')
    ensures Inv(content, s')
  {
    hide GoodLoop, Proceeds;
    var t :| Asks(s, s', t) || Locks(s, s', t) || Proceeds(content, s, s', t);
    if Proceeds(content, s, s', t) {
      ProceedsKeepsInv(content, s, s', t);
    } else {
      assert Asks(s, s', t) || Locks(s, s', t);
      forall u | 0 <= u < |s'.threads|
        ensures GoodThread(content, s', u)
      {
        assert GoodThread(content, s, u);
      }
    }
  }

  lemma {:induction false} InvThroughout(content: Job -> seq<byte>, trace: seq<State>, i: nat)
    requires Interleaving(content, trace) && i < |trace|
    ensures Inv(content, trace[i])
  {
    hide Inv, Next;
    if i == 0 {
      InitInv(content, trace[0]);
    } else {
      InvThroughout(content, trace, i - 1);
      NextKeepsInv(content, trace[i - 1], trace[i]);
    }
  }

  lemma InitInv(content: Job -> seq<byte>, s: State)
    requires Init(s)
    ensures Inv(content, s)
  {
  }

  /**
    Isolation in every interleaving: a finished request has exactly the content it selected,
    and no two threads are ever inside the critical section.
   */
  lemma RequestsAreIsolated(content: Job -> seq<byte>, trace: seq<State>, i: nat, t: nat)
    requires Interleaving(content, trace) && i < |trace| && t < |trace[i].threads|
    ensures var th := trace[i].threads[t];
            && (th.Done? && !th.job.Ready? ==> th.result == content(th.job))
            && (th.Holding? ==> forall u :: 0 <= u < |trace[i].threads| && trace[i].threads[u].Holding? ==> u == t)
  {
    hide Interleaving;
    InvThroughout(content, trace, i);
    var s := trace[i];
    assert GoodThread(content, s, t);
    forall u | 0 <= u < |s.threads| && s.threads[u].Holding?
      ensures s.owner == Some(u)
    {
      assert GoodThread(content, s, u);
    }
  }

  /** A request for content that the counter cannot address never leaves the download loop. */
  lemma TooLongNeverFinishes(content: Job -> seq<byte>, trace: seq<State>, i: nat, t: nat)
    requires Interleaving(content, trace) && i < |trace| && t < |trace[i].threads|
    ensures var th := trace[i].threads[t];
            && (th.Done? && !th.job.Ready? ==> Addressable(content(th.job)))
            && (th.Holding? && th.pc.Download? && !Addressable(content(th.job)) ==> th.pc.loop.Reading?)
  {
    hide Interleaving;
    InvThroughout(content, trace, i);
    assert GoodThread(content, trace[i], t);
  }

  // ---------------------------------------------------------------- progress

  /** What the lock holder does next. */
  ghost function Proceeded(content: Job -> seq<byte>, s: State, t: nat): (s': State)
    requires Inv(content, s) && t < |s.threads| && s.threads[t].Holding?
    ensures Proceeds(content, s, s', t) && Inv(content, s')
  {
    assert GoodThread(content, s, t);
    var job, pc := s.threads[t].job, s.threads[t].pc;
    var s' := match pc
      case Entered =>
        if job.Ready? then WithThread(s, t, Done(job, [])).(owner := None)
        else if job.Information? then WithThread(s, t, Holding(job, Inquired))
        else WithThread(s, t, Holding(job, Selected)).(selected := Some(job))
      case Inquired => WithThread(s, t, Holding(job, Selected)).(selected := Some(job))
      case Selected => WithThread(s, t, Holding(job, Download(Reading(0, []))))
      case Download(Reading(packet, buffer)) =>
        WithThread(s, t, Holding(job, Download(ReadOnce(content(s.selected.value), packet, buffer))))
      case Download(Complete(buffer)) => WithThread(s, t, Done(job, buffer)).(owner := None);
    ProceedsKeepsInv(content, s, s', t);
    s'
  }

  /** A run of steps of one thread. */
  ghost predicate RunsAlone(content: Job -> seq<byte>, trace: seq<State>, t: nat) {
    trace != [] && forall i :: 0 <= i < |trace| - 1 ==> Proceeds(content, trace[i], trace[i + 1], t)
  }

  /** The thread has its content, the mutex is free, and the other threads are as before. */
  ghost predicate Finished(content: Job -> seq<byte>, s: State, s': State, t: nat, job: Job) {
    && |s'.threads| == |s.threads| && t < |s.threads| && s'.owner == None
    && s'.threads[t] == Done(job, if job.Ready? then [] else content(job))
    && forall u :: 0 <= u < |s.threads| && u != t ==> s'.threads[u] == s.threads[u]
  }

  /** Steps that are left before the download loop is done. */
  ghost function StepsLeft(pc: Pc): nat {
    match pc
    case Entered => PACKETS + 5
    case Inquired => PACKETS + 4
    case Selected => PACKETS + 3
    case Download(Reading(packet, _)) => if packet <= PACKETS then PACKETS + 2 - packet else 2
    case Download(Complete(_)) => 1
  }

  lemma OneStepCloser(content: Job -> seq<byte>, s: State, t: nat)
    requires Inv(content, s) && t < |s.threads| && s.threads[t].Holding?
    requires s.threads[t].job.Ready? || Addressable(content(s.threads[t].job))
    ensures var s', job := Proceeded(content, s, t), s.threads[t].job;
            && |s'.threads| == |s.threads|
            && (forall u :: 0 <= u < |s.threads| && u != t ==> s'.threads[u] == s.threads[u])
            && if s'.threads[t].Holding?
               then s'.threads[t].job == job && StepsLeft(s'.threads[t].pc) < StepsLeft(s.threads[t].pc)
               else Finished(content, s, s', t, job)
  {
    hide ReadOnce;
    var job, pc := s.threads[t].job, s.threads[t].pc;
    assert GoodThread(content, s, t);
    if pc.Download? && pc.loop.Reading? {
      ReadOnceGood(content(job), pc.loop.packet, pc.loop.buffer);
    }
  }

  /** From every reachable state the lock holder can finish addressable content by its own steps. */
  lemma {:induction false} HolderFinishes(content: Job -> seq<byte>, s: State, t: nat) returns (trace: seq<State>)
    requires Inv(content, s) && t < |s.threads| && s.threads[t].Holding?
    requires s.threads[t].job.Ready? || |content(s.threads[t].job)| < 256 * 65536
    ensures RunsAlone(content, trace, t) && trace[0] == s
    ensures Finished(content, s, trace[|trace| - 1], t, s.threads[t].job)
    decreases StepsLeft(s.threads[t].pc)
  {
    hide Proceeds, Inv, Proceeded, StepsLeft;
    OneStepCloser(content, s, t);
    var s' := Proceeded(content, s, t);
    if s'.threads[t].Holding? {
      var rest := HolderFinishes(content, s', t);
      trace := [s] + rest;
    } else {
      trace := [s, s'];
    }
  }

  lemma {:induction false} RunKeepsInv(content: Job -> seq<byte>, trace: seq<State>, t: nat, i: nat)
    requires RunsAlone(content, trace, t) && Inv(content, trace[0]) && i < |trace|
    ensures Inv(content, trace[i])
  {
    hide Inv, Proceeds;
    if i > 0 {
      RunKeepsInv(content, trace, t, i - 1);
      ProceedsKeepsInv(content, trace[i - 1], trace[i - 1 + 1], t);
    }
  }

  /**
    No deadlock: in every state of every interleaving a waiting request for addressable content
    can be finished.  If another thread holds the mutex, and its content is addressable too, that
    thread can run to its end first; then the mutex is free and the request can run.
   */
  lemma {:induction false} WaitingCanFinish(content: Job -> seq<byte>, trace: seq<State>, i: nat, t: nat)
      returns (first: seq<State>, locked: State, second: seq<State>)
    requires Interleaving(content, trace) && i < |trace| && t < |trace[i].threads| && trace[i].threads[t].Waiting?
    requires forall u :: 0 <= u < |trace[i].threads| && (trace[i].threads[u].Waiting? || trace[i].threads[u].Holding?) ==>
               trace[i].threads[u].job.Ready? || |content(trace[i].threads[u].job)| < 256 * 65536
    ensures first != [] && first[0] == trace[i]
    ensures trace[i].owner == None ==> first == [trace[i]]
    ensures trace[i].owner.Some? ==> RunsAlone(content, first, trace[i].owner.value)
    ensures Locks(first[|first| - 1], locked, t)
    ensures RunsAlone(content, second, t) && second[0] == locked
    ensures Finished(content, locked, second[|second| - 1], t, trace[i].threads[t].job)
  {
    hide Interleaving, Next, Proceeds, StepsLeft;
    var s := trace[i];
    InvThroughout(content, trace, i);
    if s.owner == None {
      first := [s];
    } else {
      var u := s.owner.value;
      first := HolderFinishes(content, s, u);
      RunKeepsInv(content, first, u, |first| - 1);
    }
    var free := first[|first| - 1];
    locked := WithThread(free, t, Holding(free.threads[t].job, Entered)).(owner := Some(t));
    LockKeepsInv(content, free, locked, t);
    hide Inv;
    second := HolderFinishes(content, locked, t);
  }

  lemma LockKeepsInv(content: Job -> seq<byte>, s: State, s': State, t: nat)
    requires Inv(content, s) && Locks(s, s', t)
    ensures Inv(content, s')
  {
    hide GoodLoop, Proceeds;
    assert Next(content, s, s');
    NextKeepsInv(content, s, s');
  }
}
