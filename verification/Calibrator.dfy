/** Collecting grids from many threads and the lens list (lib/calibration/calibrator.cpp). */
module Calibrators {
  import opened Common
  import opened LineGrids
  import opened CalibrationDatas
  import GridMath
  import GridAverage
  import GridMappers
  import AverageGrids

  datatype Lens = Lens(zoom: int, focus: int, focalLength: real)

  /** Grids are clustered by zoom and focus step. */
  function KeyOf(lens: Lens): LensConfig {
    LensConfig(lens.zoom, lens.focus)
  }

  /** One call of `addGrid`; the point grid is represented by the line grid that is made from it. */
  datatype Call = Call(grid: LineGrid, serial: string, lens: Lens)

  /** The lens that opened the cluster and the indices of its grids. */
  datatype Cluster = Cluster(lens: Lens, indices: seq<nat>)

  datatype Collected = Collected(serial: string, grids: seq<LineGrid>, clusters: map<LensConfig, Cluster>)

  const EMPTY := Collected("", [], map[])

  /** The check before the lock. */
  predicate Accepts(d: Collected, call: Call) {
    d.serial == "" || d.serial == call.serial
  }

  /** The critical section. */
  function Commit(d: Collected, call: Call): Collected {
    var key := KeyOf(call.lens);
    var cluster := if key in d.clusters then d.clusters[key] else Cluster(call.lens, []);
    var grids := d.grids + [call.grid];
    Collected(if d.serial == "" then call.serial else d.serial,
         grids,
         d.clusters[key := Cluster(cluster.lens, cluster.indices + [|grids| - 1])])
  }

  function CommitAll(calls: seq<Call>): Collected {
    if calls == [] then EMPTY else Commit(CommitAll(calls[..|calls| - 1]), calls[|calls| - 1])
  }

  // ---------------------------------------------------------------- clusters

  /** The positions of the calls with the key, in increasing order. */
  function IndicesOf(calls: seq<Call>, key: LensConfig): seq<nat> {
    if calls == [] then []
    else
      var n := |calls| - 1;
      IndicesOf(calls[..n], key) + if KeyOf(calls[n].lens) == key then [n] else []
  }

  lemma {:induction false} IndicesSpec(calls: seq<Call>, key: LensConfig)
    ensures forall a, b :: 0 <= a < b < |IndicesOf(calls, key)| ==> IndicesOf(calls, key)[a] < IndicesOf(calls, key)[b]
    ensures forall i :: i in IndicesOf(calls, key) <==>
              0 <= i < |calls| && calls[i].lens.zoom == key.zoom && calls[i].lens.focus == key.focus
  {
    if calls != [] {
      var n := |calls| - 1;
      IndicesSpec(calls[..n], key);
      var front := IndicesOf(calls[..n], key);
      assert forall a :: 0 <= a < |front| ==> front[a] in front;
    }
  }

  /** The first call with the key, if there is one. */
  function FirstWith(calls: seq<Call>, key: LensConfig): seq<Call> {
    if calls == [] then []
    else if KeyOf(calls[0].lens) == key then [calls[0]]
    else FirstWith(calls[1..], key)
  }

  lemma {:induction false} FirstWithFront(calls: seq<Call>, key: LensConfig)
    requires calls != []
    ensures var n := |calls| - 1;
            FirstWith(calls, key) ==
            if FirstWith(calls[..n], key) != [] then FirstWith(calls[..n], key)
            else if KeyOf(calls[n].lens) == key then [calls[n]] else []
  {
    if |calls| > 1 && KeyOf(calls[0].lens) != key {
      var n := |calls| - 1;
      FirstWithFront(calls[1..], key);
      assert calls[1..][..n - 1] == calls[..n][1..];
    }
  }

  /**
    After any sequence of critical sections the clusters partition the grid indices by zoom and
    focus, each cluster in increasing order and represented by the lens that opened it.
   */
  lemma {:induction false} ClustersPartition(calls: seq<Call>, key: LensConfig)
    ensures var d := CommitAll(calls);
            && |d.grids| == |calls|
            && (key in d.clusters <==> FirstWith(calls, key) != [])
            && (key in d.clusters ==>
                  d.clusters[key] == Cluster(FirstWith(calls, key)[0].lens, IndicesOf(calls, key)))
            && (key !in d.clusters ==> IndicesOf(calls, key) == [])
  {
    if calls != [] {
      var n := |calls| - 1;
      ClustersPartition(calls[..n], key);
      hide FirstWith;
      FirstWithFront(calls, key);
    }
  }

  /** The grids are stored in the order of the critical sections. */
  lemma {:induction false} GridsInOrder(calls: seq<Call>)
    ensures var d := CommitAll(calls);
            |d.grids| == |calls| && forall i :: 0 <= i < |calls| ==> d.grids[i] == calls[i].grid
  {
    if calls != [] {
      GridsInOrder(calls[..|calls| - 1]);
    }
  }

  // ---------------------------------------------------------------- interleavings

  datatype Phase = Pending | Passed | Rejected | Added

  datatype State = State(data: Collected, phases: seq<Phase>)

  ghost predicate Init(s: State, calls: seq<Call>) {
    s.data == EMPTY && |s.phases| == |calls| && forall t :: 0 <= t < |calls| ==> s.phases[t].Pending?
  }

  /** Thread `t` checks the serial number, without the lock. */
  ghost predicate Checks(s: State, s': State, calls: seq<Call>, t: nat) {
    && t < |calls| == |s.phases| && s.phases[t].Pending?
    && s' == s.(phases := s.phases[t := if Accepts(s.data, calls[t]) then Passed else Rejected])
  }

  /** Thread `t` runs its critical section. */
  ghost predicate Commits(s: State, s': State, calls: seq<Call>, t: nat) {
    && t < |calls| == |s.phases| && s.phases[t].Passed?
    && s' == State(Commit(s.data, calls[t]), s.phases[t := Added])
  }

  ghost predicate Next(s: State, s': State, calls: seq<Call>) {
    exists t: nat :: Checks(s, s', calls, t) || Commits(s, s', calls, t)
  }

  ghost predicate Interleaving(calls: seq<Call>, trace: seq<State>) {
    && trace != [] && Init(trace[0], calls)
    && forall i :: 0 <= i < |trace| - 1 ==> Next(trace[i], trace[i + 1], calls)
  }

  /** The calls of the threads in `order`. */
  function Ordered(calls: seq<Call>, order: seq<nat>): (r: seq<Call>)
    requires forall i :: 0 <= i < |order| ==> order[i] < |calls|
    ensures |r| == |order| && forall i :: 0 <= i < |order| ==> r[i] == calls[order[i]]
  {
    seq(|order|, i requires 0 <= i < |order| => calls[order[i]])
  }

  /** Some of `n` threads, each once. */
  ghost predicate Distinct(order: seq<nat>, n: nat) {
    && (forall i :: 0 <= i < |order| ==> order[i] < n)
    && (forall i, j :: 0 <= i < j < |order| ==> order[i] != order[j])
  }

  ghost predicate IsOrder(s: State, calls: seq<Call>, order: seq<nat>) {
    && |s.phases| == |calls| && Distinct(order, |calls|)
    && (forall t :: 0 <= t < |calls| ==> (s.phases[t].Added? <==> t in order))
    && s.data == CommitAll(Ordered(calls, order))
  }

  /**
    In every interleaving the data is what the critical sections produce one after the other,
    each finished call exactly once; so the clusters partition the grids.
   */
  lemma {:induction false} InterleavingIsSequential(calls: seq<Call>, trace: seq<State>, i: nat) returns (order: seq<nat>)
    requires Interleaving(calls, trace) && i < |trace|
    ensures IsOrder(trace[i], calls, order)
  {
    hide Next, IsOrder;
    if i == 0 {
      order := [];
      NoOrder(trace[0], calls);
    } else {
      order := InterleavingIsSequential(calls, trace, i - 1);
      assert Next(trace[i - 1], trace[i], calls);
      order := NextOrder(trace[i - 1], trace[i], calls, order);
    }
  }

  lemma NoOrder(s: State, calls: seq<Call>)
    requires Init(s, calls)
    ensures IsOrder(s, calls, [])
  {
    NoCommits();
    assert Ordered(calls, []) == [];
  }

  lemma NextOrder(s: State, s': State, calls: seq<Call>, order: seq<nat>) returns (order': seq<nat>)
    requires IsOrder(s, calls, order) && Next(s, s', calls)
    ensures IsOrder(s', calls, order')
  {
    hide CommitAll, Commit, Accepts;
    var t: nat :| Checks(s, s', calls, t) || Commits(s, s', calls, t);
    if Commits(s, s', calls, t) {
      order' := order + [t];
      AnotherCommit(Ordered(calls, order), calls[t]);
      assert Ordered(calls, order') == Ordered(calls, order) + [calls[t]];
    } else {
      assert Checks(s, s', calls, t);
      order' := order;
    }
  }

  lemma NoCommits()
    ensures CommitAll([]) == EMPTY
  {
  }

  lemma AnotherCommit(calls: seq<Call>, call: Call)
    ensures CommitAll(calls + [call]) == Commit(CommitAll(calls), call)
  {
    assert (calls + [call])[..|calls|] == calls;
  }

  // ---------------------------------------------------------------- one camera

  /** The grids added so far are of one camera. */
  ghost predicate AddedOneCamera(s: State, calls: seq<Call>) {
    forall i, j :: IsAdded(s, calls, i) && IsAdded(s, calls, j) ==> calls[i].serial == calls[j].serial
  }

  ghost predicate IsAdded(s: State, calls: seq<Call>, t: int) {
    0 <= t < |calls| && t < |s.phases| && s.phases[t].Added?
  }

  /** Two first calls that overlap both pass the check, and grids of two cameras are mixed. */
  lemma OverlapMixesCameras(calls: seq<Call>, i: nat, j: nat) returns (trace: seq<State>)
    requires i < j < |calls| && calls[i].serial != calls[j].serial
    ensures Interleaving(calls, trace)
    ensures IsAdded(trace[|trace| - 1], calls, i) && IsAdded(trace[|trace| - 1], calls, j)
  {
    hide Commit;
    var p0 := seq(|calls|, _ => Pending);
    var p1 := p0[i := Passed];
    var p2 := p1[j := Passed];
    var s0, s1, s2 := State(EMPTY, p0), State(EMPTY, p1), State(EMPTY, p2);
    var s3 := State(Commit(EMPTY, calls[i]), p2[i := Added]);
    var s4 := State(Commit(s3.data, calls[j]), s3.phases[j := Added]);
    assert Checks(s0, s1, calls, i) && Checks(s1, s2, calls, j);
    assert Commits(s2, s3, calls, i) && Commits(s3, s4, calls, j);
    assert Next(s0, s1, calls) && Next(s1, s2, calls) && Next(s2, s3, calls) && Next(s3, s4, calls);
    trace := [s0, s1, s2, s3, s4];
  }

  ghost predicate OneCamera(calls: seq<Call>) {
    forall i, j :: 0 <= i < j < |calls| ==> calls[i].serial == calls[j].serial
  }

  ghost predicate AlwaysOneCamera(calls: seq<Call>) {
    forall trace :: Interleaving(calls, trace) ==> AddedOneCamera(trace[|trace| - 1], calls)
  }

  /** Overlap is tolerated in every interleaving exactly when all calls are of one camera. */
  lemma OneCameraInterleavedIff(calls: seq<Call>)
    ensures AlwaysOneCamera(calls) <==> OneCamera(calls)
  {
    hide Interleaving;
    if OneCamera(calls) {
      forall trace | Interleaving(calls, trace)
        ensures trace != [] && AddedOneCamera(trace[|trace| - 1], calls)
      {
        NotEmpty(calls, trace);
      }
    } else {
      var i, j :| 0 <= i < j < |calls| && calls[i].serial != calls[j].serial;
      var trace := OverlapMixesCameras(calls, i, j);
    }
  }

  lemma NotEmpty(calls: seq<Call>, trace: seq<State>)
    requires Interleaving(calls, trace)
    ensures trace != []
  {
  }

  /** Calls one after the other: the data, and the calls that were accepted. */
  function Sequential(calls: seq<Call>): (Collected, seq<Call>) {
    if calls == [] then (EMPTY, [])
    else
      var (d, accepted) := Sequential(calls[..|calls| - 1]);
      var call := calls[|calls| - 1];
      if Accepts(d, call) then (Commit(d, call), accepted + [call]) else (d, accepted)
  }

  ghost predicate NoSerial(calls: seq<Call>) {
    forall i :: 0 <= i < |calls| ==> calls[i].serial == ""
  }

  lemma {:induction false} SequentialState(calls: seq<Call>)
    ensures var (d, accepted) := Sequential(calls);
            && (calls != [] ==> accepted != [] && accepted[0] == calls[0])
            && (d.serial == "" <==> NoSerial(calls))
            && (d.serial == "" ==> accepted == calls)
            && (calls != [] && calls[0].serial != "" ==>
                  d.serial == calls[0].serial && forall i :: 0 <= i < |accepted| ==> accepted[i].serial == d.serial)
            && (d.serial != "" ==> exists i :: 0 <= i < |accepted| && accepted[i].serial == d.serial)
  {
    if calls != [] {
      var n := |calls| - 1;
      SequentialState(calls[..n]);
      var (d', accepted') := Sequential(calls[..n]);
      var (d, accepted) := Sequential(calls);
      assert calls == calls[..n] + [calls[n]];
      if d'.serial != "" {
        var i :| 0 <= i < |accepted'| && accepted'[i].serial == d'.serial;
        assert accepted[i].serial == d.serial;
      } else if calls[n].serial != "" {
        assert accepted[n].serial == d.serial;
      }
    }
  }

  /**
    Without overlap the accepted grids are of one camera exactly when the first call has a
    serial number or none has.
   */
  lemma OneCameraIff(calls: seq<Call>)
    ensures OneCamera(Sequential(calls).1) <==> calls == [] || calls[0].serial != "" || NoSerial(calls)
  {
    SequentialState(calls);
    hide Sequential;
    var (d, accepted) := Sequential(calls);
    if calls != [] && calls[0].serial == "" && !NoSerial(calls) {
      var i :| 0 <= i < |accepted| && accepted[i].serial == d.serial;
      assert accepted[0].serial == "";
    }
  }

  // ---------------------------------------------------------------- which calls are accepted

  function WithSerial(calls: seq<Call>, serial: string): seq<Call> {
    if calls == [] then []
    else
      var n := |calls| - 1;
      WithSerial(calls[..n], serial) + if calls[n].serial == serial then [calls[n]] else []
  }

  /**
    Without overlap all calls up to the first one with a serial number are accepted, and after
    it exactly those with that serial number.
   */
  lemma {:induction false} AcceptedAre(calls: seq<Call>, k: nat)
    requires k < |calls| && calls[k].serial != "" && forall i :: 0 <= i < k ==> calls[i].serial == ""
    ensures Sequential(calls).0.serial == calls[k].serial
    ensures Sequential(calls).1 == calls[..k + 1] + WithSerial(calls[k + 1..], calls[k].serial)
  {
    hide Sequential, WithSerial, Commit;
    var n, serial := |calls| - 1, calls[k].serial;
    var front, last := calls[..n], calls[n];
    assert calls == front + [last];
    AnotherCall(front, last);
    CommitSerial(Sequential(front).0, last);
    if k == n {
      SequentialState(front);
      assert NoSerial(front);
      assert calls[..k + 1] == calls && calls[k + 1..] == [];
      WithNone(serial);
      assert calls + [] == calls;
    } else {
      AcceptedAre(front, k);
      assert front[..k + 1] == calls[..k + 1];
      assert calls[k + 1..] == front[k + 1..] + [last];
      WithOneMore(front[k + 1..], last, serial);
      var (d, accepted) := Sequential(front);
      assert accepted + [last] == calls[..k + 1] + (WithSerial(front[k + 1..], serial) + [last]);
    }
  }

  lemma {:induction false} CommitSerial(d: Collected, call: Call)
    ensures Commit(d, call).serial == if d.serial == "" then call.serial else d.serial
  {
  }

  lemma {:induction false} WithNone(serial: string)
    ensures WithSerial([], serial) == []
  {
  }

  lemma {:induction false} WithOneMore(calls: seq<Call>, call: Call, serial: string)
    ensures WithSerial(calls + [call], serial) == WithSerial(calls, serial) + if call.serial == serial then [call] else []
  {
    assert (calls + [call])[..|calls|] == calls;
  }

  /** Calls without any serial number, and calls of one camera, are all accepted. */
  lemma {:induction false} OneCameraAccepted(calls: seq<Call>)
    requires OneCamera(calls)
    ensures Sequential(calls).1 == calls
  {
    if NoSerial(calls) {
      SequentialState(calls);
    } else {
      AcceptedAre(calls, 0);
      AllWithSerial(calls[1..], calls[0].serial);
      assert calls == calls[..1] + calls[1..];
    }
  }

  lemma {:induction false} AllWithSerial(calls: seq<Call>, serial: string)
    requires forall i :: 0 <= i < |calls| ==> calls[i].serial == serial
    ensures WithSerial(calls, serial) == calls
  {
    if calls != [] {
      AllWithSerial(calls[..|calls| - 1], serial);
      assert calls == calls[..|calls| - 1] + [calls[|calls| - 1]];
    }
  }

  ghost predicate IsRejected(s: State, calls: seq<Call>, t: int) {
    0 <= t < |calls| && t < |s.phases| && s.phases[t].Rejected?
  }

  /** The stored serial number is that of the calls, and no call was rejected. */
  ghost predicate NoneRejected(s: State, calls: seq<Call>) {
    && (s.data.serial == "" || forall t :: 0 <= t < |calls| ==> calls[t].serial == s.data.serial)
    && NoRejection(s, calls)
  }

  ghost predicate NoRejection(s: State, calls: seq<Call>) {
    forall t :: !IsRejected(s, calls, t)
  }

  lemma {:induction false} OneCameraStep(s: State, s': State, calls: seq<Call>)
    requires OneCamera(calls) && NoneRejected(s, calls) && Next(s, s', calls)
    ensures NoneRejected(s', calls)
  {
    var t: nat :| Checks(s, s', calls, t) || Commits(s, s', calls, t);
    assert forall u :: 0 <= u < |calls| ==> calls[u].serial == calls[t].serial;
    forall u
      ensures !IsRejected(s', calls, u)
    {
      assert !IsRejected(s, calls, u);
    }
  }

  lemma {:induction false} OneCameraNeverRejected(calls: seq<Call>, trace: seq<State>, i: nat)
    requires OneCamera(calls) && Interleaving(calls, trace) && i < |trace|
    ensures NoneRejected(trace[i], calls)
  {
    hide Next, OneCamera;
    if i > 0 {
      OneCameraNeverRejected(calls, trace, i - 1);
      OneCameraStep(trace[i - 1], trace[i - 1 + 1], calls);
    }
  }

  /** Thread `i` runs to its end before thread `j`, of another camera, checks. */
  lemma {:induction false} SecondRejected(calls: seq<Call>, i: nat, j: nat) returns (trace: seq<State>)
    requires i < |calls| && j < |calls| && i != j && calls[i].serial != "" && calls[j].serial != calls[i].serial
    ensures Interleaving(calls, trace) && IsRejected(trace[|trace| - 1], calls, j)
  {
    var p0 := seq(|calls|, _ => Pending);
    var s0, s1 := State(EMPTY, p0), State(EMPTY, p0[i := Passed]);
    var s2 := State(Commit(EMPTY, calls[i]), s1.phases[i := Added]);
    var s3 := State(s2.data, s2.phases[j := Rejected]);
    assert Checks(s0, s1, calls, i) && Commits(s1, s2, calls, i) && Checks(s2, s3, calls, j);
    assert Next(s0, s1, calls) && Next(s1, s2, calls) && Next(s2, s3, calls);
    trace := [s0, s1, s2, s3];
  }

  ghost predicate NeverRejects(calls: seq<Call>) {
    forall trace :: Interleaving(calls, trace) ==> NoRejection(trace[|trace| - 1], calls)
  }

  /** No call is rejected in any interleaving exactly when all calls are of one camera. */
  lemma {:induction false} NeverRejectedIff(calls: seq<Call>)
    ensures NeverRejects(calls) <==> OneCamera(calls)
  {
    hide Interleaving, IsRejected;
    if OneCamera(calls) {
      forall trace | Interleaving(calls, trace)
        ensures trace != [] && NoRejection(trace[|trace| - 1], calls)
      {
        NotEmpty(calls, trace);
        OneCameraNeverRejected(calls, trace, |trace| - 1);
      }
    } else {
      var i, j :| 0 <= i < j < |calls| && calls[i].serial != calls[j].serial;
      if calls[i].serial != "" {
        var trace := SecondRejected(calls, i, j);
      } else {
        var trace := SecondRejected(calls, j, i);
      }
    }
  }

  // ---------------------------------------------------------------- calls that do not overlap

  ghost predicate NoneInside(s: State) {
    forall t :: 0 <= t < |s.phases| ==> !s.phases[t].Passed?
  }

  /** No call checks the serial number between the check and the critical section of another. */
  ghost predicate NonOverlapping(calls: seq<Call>, trace: seq<State>) {
    forall i, t :: ChecksAt(calls, trace, i, t) ==> NoneInside(trace[i])
  }

  ghost predicate ChecksAt(calls: seq<Call>, trace: seq<State>, i: int, t: nat) {
    0 <= i < |trace| - 1 && Checks(trace[i], trace[i + 1], calls, t)
  }

  /** At some state up to `i` thread `a` has checked the serial number and thread `b` has not. */
  ghost predicate CheckedBefore(trace: seq<State>, i: nat, a: nat, b: nat) {
    exists k :: 0 <= k <= i && HasChecked(trace, k, a) && !HasChecked(trace, k, b)
  }

  ghost predicate HasChecked(trace: seq<State>, k: int, t: nat) {
    0 <= k < |trace| && t < |trace[k].phases| && !trace[k].phases[t].Pending?
  }

  /** `order` lists the threads that have checked by state `i`, the earlier check first. */
  ghost predicate CheckOrder(calls: seq<Call>, trace: seq<State>, i: nat, order: seq<nat>) {
    && Distinct(order, |calls|)
    && (forall t: nat :: t in order <==> HasChecked(trace, i, t))
    && (forall a, b :: 0 <= a < b < |order| ==> CheckedBefore(trace, i, order[a], order[b]))
  }

  /**
    The state is that of the calls one after the other, in `order`; the last of them may still
    be on its way to the critical section.
   */
  ghost predicate InSequence(s: State, calls: seq<Call>, order: seq<nat>, added: seq<nat>) {
    && |s.phases| == |calls| && Distinct(order, |calls|) && Distinct(added, |calls|)
    && (forall t :: 0 <= t < |calls| ==> (t in order <==> !s.phases[t].Pending?))
    && (forall t: nat :: t in added <==> IsAdded(s, calls, t))
    && if NoneInside(s) then Sequential(Ordered(calls, order)) == (s.data, Ordered(calls, added))
       else
         && order != []
         && var n := |order| - 1;
         && s.phases[order[n]].Passed? && Accepts(s.data, calls[order[n]])
         && (forall t :: 0 <= t < |calls| && t != order[n] ==> !s.phases[t].Passed?)
         && Sequential(Ordered(calls, order[..n])) == (s.data, Ordered(calls, added))
  }

  lemma AnotherCall(calls: seq<Call>, call: Call)
    ensures var (d, accepted) := Sequential(calls);
            Sequential(calls + [call]) ==
            if Accepts(d, call) then (Commit(d, call), accepted + [call]) else (d, accepted)
  {
    assert (calls + [call])[..|calls|] == calls;
  }

  lemma CheckInSequence(s: State, s': State, calls: seq<Call>, t: nat, order: seq<nat>, added: seq<nat>)
    requires InSequence(s, calls, order, added) && Checks(s, s', calls, t) && NoneInside(s)
    ensures InSequence(s', calls, order + [t], added)
  {
    hide Sequential, Commit, Accepts;
    var order' := order + [t];
    AnotherCall(Ordered(calls, order), calls[t]);
    assert Ordered(calls, order') == Ordered(calls, order) + [calls[t]];
    assert order'[..|order|] == order;
    assert !Accepts(s.data, calls[t]) ==> NoneInside(s');
    assert Accepts(s.data, calls[t]) ==> s'.phases[t].Passed?;
  }

  lemma CommitInSequence(s: State, s': State, calls: seq<Call>, t: nat, order: seq<nat>, added: seq<nat>)
    requires InSequence(s, calls, order, added) && Commits(s, s', calls, t)
    ensures InSequence(s', calls, order, added + [t])
  {
    hide Sequential, Commit, Accepts;
    var n := |order| - 1;
    assert t == order[n];
    AnotherCall(Ordered(calls, order[..n]), calls[t]);
    assert Ordered(calls, order) == Ordered(calls, order[..n]) + [calls[t]];
    assert Ordered(calls, added + [t]) == Ordered(calls, added) + [calls[t]];
    assert NoneInside(s');
    assert !IsAdded(s, calls, t) && t !in added;
    assert Distinct(added + [t], |calls|);
  }

  /** A state of an interleaving without overlap is that of the calls one after the other, in the order of their checks. */
  lemma {:induction false} NonOverlappingIsSequential(calls: seq<Call>, trace: seq<State>, i: nat)
      returns (order: seq<nat>, added: seq<nat>)
    requires Interleaving(calls, trace) && NonOverlapping(calls, trace) && i < |trace|
    ensures CheckOrder(calls, trace, i, order) && InSequence(trace[i], calls, order, added)
  {
    hide InSequence, CheckOrder, NoneInside;
    if i == 0 {
      order, added := [], [];
      NothingChecked(calls, trace);
    } else {
      order, added := NonOverlappingIsSequential(calls, trace, i - 1);
      var s, s' := trace[i - 1], trace[i];
      assert Next(s, s', calls);
      var t: nat :| Checks(s, s', calls, t) || Commits(s, s', calls, t);
      if Commits(s, s', calls, t) {
        CommitInSequence(s, s', calls, t, order, added);
        SameOrder(calls, trace, i, order, t);
        added := added + [t];
      } else {
        assert ChecksAt(calls, trace, i - 1, t);
        CheckInSequence(s, s', calls, t, order, added);
        NextInOrder(calls, trace, i, order, t);
        order := order + [t];
      }
    }
  }

  lemma NothingChecked(calls: seq<Call>, trace: seq<State>)
    requires Interleaving(calls, trace)
    ensures CheckOrder(calls, trace, 0, []) && InSequence(trace[0], calls, [], [])
  {
    assert Ordered(calls, []) == [];
  }

  lemma SameOrder(calls: seq<Call>, trace: seq<State>, i: nat, order: seq<nat>, t: nat)
    requires 0 < i < |trace| && CheckOrder(calls, trace, i - 1, order) && Commits(trace[i - 1], trace[i], calls, t)
    ensures CheckOrder(calls, trace, i, order)
  {
    hide Commit;
    assert forall u: nat :: HasChecked(trace, i, u) <==> HasChecked(trace, i - 1, u);
  }

  lemma NextInOrder(calls: seq<Call>, trace: seq<State>, i: nat, order: seq<nat>, t: nat)
    requires 0 < i < |trace| && CheckOrder(calls, trace, i - 1, order) && Checks(trace[i - 1], trace[i], calls, t)
    ensures CheckOrder(calls, trace, i, order + [t])
  {
    hide Accepts;
    var order' := order + [t];
    assert forall u: nat :: HasChecked(trace, i, u) <==> HasChecked(trace, i - 1, u) || u == t;
    assert !HasChecked(trace, i - 1, t);
    forall a, b | 0 <= a < b < |order'|
      ensures CheckedBefore(trace, i, order'[a], order'[b])
    {
      if b < |order| {
        assert CheckedBefore(trace, i - 1, order[a], order[b]);
      } else {
        assert HasChecked(trace, i - 1, order[a]);
      }
    }
  }

  /**
    Whenever no call of an interleaving without overlap is between its check and its critical
    section, the added grids are of one camera exactly when the call that checked first has a
    serial number or no call that checked has one.
   */
  lemma OneCameraWithoutOverlapIff(calls: seq<Call>, trace: seq<State>, i: nat) returns (order: seq<nat>)
    requires Interleaving(calls, trace) && NonOverlapping(calls, trace) && i < |trace| && NoneInside(trace[i])
    ensures CheckOrder(calls, trace, i, order)
    ensures AddedOneCamera(trace[i], calls) <==>
            order == [] || calls[order[0]].serial != "" || forall t :: t in order ==> calls[t].serial == ""
  {
    hide Interleaving, NonOverlapping, Sequential, CheckedBefore;
    var added;
    order, added := NonOverlappingIsSequential(calls, trace, i);
    var checked, accepted := Ordered(calls, order), Ordered(calls, added);
    OneCameraIff(checked);
    SameCameras(trace[i], calls, added);
    assert NoSerial(checked) <==> forall t :: t in order ==> calls[t].serial == "";
  }

  lemma SameCameras(s: State, calls: seq<Call>, added: seq<nat>)
    requires Distinct(added, |calls|) && forall t: nat :: t in added <==> IsAdded(s, calls, t)
    ensures AddedOneCamera(s, calls) <==> OneCamera(Ordered(calls, added))
  {
    var accepted := Ordered(calls, added);
    if OneCamera(accepted) {
      forall i, j | IsAdded(s, calls, i) && IsAdded(s, calls, j)
        ensures calls[i].serial == calls[j].serial
      {
        var a :| 0 <= a < |added| && added[a] == i;
        var b :| 0 <= b < |added| && added[b] == j;
        assert accepted[a] == calls[i] && accepted[b] == calls[j];
      }
    } else {
      var a, b :| 0 <= a < b < |accepted| && accepted[a].serial != accepted[b].serial;
      assert added[a] in added && added[b] in added;
      assert IsAdded(s, calls, added[a]) && IsAdded(s, calls, added[b]);
    }
  }

  // ---------------------------------------------------------------- the lens list

  const IMAGE_SIZE := 3280
  const SENSOR_SIZE := 0.0046

  /** The camera matrix estimated from the focal length; the distortion coefficients are zero. */
  function EstimateCameraMatrix(lens: Lens): (m: Matrix)
    ensures Shaped(m) && m.rows == m.cols == 3
    ensures m.at[0][0] == m.at[1][1] && m.at[0][0] * 0.0046 == lens.focalLength * 3280.0
    ensures m.at[0][2] == m.at[1][2] == 1640.0
    ensures m.at[0][1] == m.at[1][0] == m.at[2][0] == m.at[2][1] == 0.0 && m.at[2][2] == 1.0
  {
    var focalLengthPx := lens.focalLength / SENSOR_SIZE * IMAGE_SIZE as real;
    var center := IMAGE_SIZE as real / 2.0;
    Matrix(3, 3, [[focalLengthPx, 0.0, center], [0.0, focalLengthPx, center], [0.0, 0.0, 1.0]])
  }

  const NO_DISTORTION: Matrix := Matrix(8, 1, [[0.0], [0.0], [0.0], [0.0], [0.0], [0.0], [0.0], [0.0]])

  /** The camera matrix of the lens that opened the cluster, and eight zero distortion coefficients. */
  function EntryOf(key: LensConfig, cluster: Cluster): (e: LensEntry)
    ensures e.config == key && e.params.cameraMatrix == EstimateCameraMatrix(cluster.lens)
    ensures Shaped(e.params.distCoeffs) && e.params.distCoeffs.rows == 8 && e.params.distCoeffs.cols == 1
    ensures forall i :: 0 <= i < 8 ==> e.params.distCoeffs.at[i][0] == 0.0
  {
    LensEntry(key, LensParams(EstimateCameraMatrix(cluster.lens), NO_DISTORTION))
  }

  /** One entry per cluster, in the order of an iteration over a hash map. */
  method CollectLenses(clusters: map<LensConfig, Cluster>) returns (list: seq<LensEntry>)
    ensures forall e :: e in list <==> e.config in clusters && e == EntryOf(e.config, clusters[e.config])
    ensures forall i, j :: 0 <= i < j < |list| ==> list[i].config != list[j].config
  {
    hide EntryOf;
    list := [];
    var todo := clusters.Keys;
    while todo != {}
      invariant todo <= clusters.Keys
      invariant forall e :: e in list <==>
                  e.config in clusters && e.config !in todo && e == EntryOf(e.config, clusters[e.config])
      invariant forall i, j :: 0 <= i < j < |list| ==> list[i].config != list[j].config
      decreases todo
    {
      var key :| key in todo;
      var e := EntryFor(key, clusters[key]);
      assert forall i :: 0 <= i < |list| ==> list[i] in list;
      list := list + [e];
      todo := todo - {key};
    }
  }

  method EntryFor(key: LensConfig, cluster: Cluster) returns (e: LensEntry)
    ensures e == EntryOf(key, cluster) && e.config == key
  {
    e := EntryOf(key, cluster);
  }

  lemma DistinctConfigs(list: seq<LensEntry>, sorted: seq<LensEntry>, i: nat, j: nat)
    requires multiset(sorted) == multiset(list) && i < j < |sorted|
    requires forall i, j :: 0 <= i < j < |list| ==> list[i].config != list[j].config
    ensures sorted[i].config != sorted[j].config
  {
    var x, y := sorted[i], sorted[j];
    assert x in multiset(sorted) && y in multiset(sorted);
    assert x in list && y in list;
    if x == y {
      CountedTwice(sorted, x);
      CountedTwice(list, x);
    }
  }

  lemma SortedDistinct(list: seq<LensEntry>, sorted: seq<LensEntry>)
    requires SortedLenses(sorted) && multiset(sorted) == multiset(list)
    requires forall i, j :: 0 <= i < j < |list| ==> list[i].config != list[j].config
    ensures StrictlySorted(sorted) && forall e :: e in sorted <==> e in list
  {
    forall e
      ensures e in sorted <==> e in list
    {
      assert e in multiset(sorted) <==> e in multiset(list);
    }
    forall i, j | 0 <= i < j < |sorted|
      ensures Less(sorted[i].config, sorted[j].config)
    {
      DistinctConfigs(list, sorted, i, j);
    }
  }

  class Calibrator {
    var serial: string
    var pointGridList: seq<LineGrid>
    var clusterMap: map<LensConfig, Cluster>

    function View(): Collected
      reads this
    {
      Collected(serial, pointGridList, clusterMap)
    }

    constructor ()
      ensures View() == EMPTY
    {
      serial, pointGridList, clusterMap := "", [], map[];
    }

    /** `addGrid`; the result is false where the code throws `CameraDiffersException`. */
    method AddGrid(call: Call) returns (ok: bool)
      modifies this
      ensures ok == old(Accepts(View(), call))
      ensures ok <==> old(serial) == "" || old(serial) == call.serial
      ensures pointGridList == old(pointGridList) + if ok then [call.grid] else []
      ensures View() == if ok then Commit(old(View()), call) else old(View())
    {
      if serial != "" && serial != call.serial {
        return false;
      }
      if serial == "" {
        serial := call.serial;
      }
      pointGridList := pointGridList + [call.grid];
      var key := KeyOf(call.lens);
      if key !in clusterMap {
        clusterMap := clusterMap[key := Cluster(call.lens, [])];
      }
      var cluster := clusterMap[key];
      clusterMap := clusterMap[key := cluster.(indices := cluster.indices + [|pointGridList| - 1])];
      ok := true;
    }

    /** The data made from the collected grids: the average grid and the lens list; the library fits are given. */
    method Calibrate(translation: (real, real), rotation: real) returns (data: CalibrationData)
      requires pointGridList != []
      requires GridMath.Mergeable(AverageGrids.AxisOf(pointGridList, GridMappers.Horizontal))
      requires GridMath.Mergeable(AverageGrids.AxisOf(pointGridList, GridMappers.Vertical))
      ensures fresh(data) && data.serial == serial
      ensures data.lensArray.grid.horizontal ==
              GridAverage.TargetLines(AverageGrids.AxisOf(pointGridList, GridMappers.Horizontal), GridAverage.LIMIT_HORIZONTAL)
      ensures data.lensArray.grid.vertical ==
              GridAverage.TargetLines(AverageGrids.AxisOf(pointGridList, GridMappers.Vertical), GridAverage.LIMIT_VERTICAL)
      ensures data.lensArray.translation == translation && data.lensArray.rotation == rotation
      ensures StrictlySorted(data.lens)
      ensures forall i, j :: 0 <= i < j < |data.lens| ==>
                var a, b := data.lens[i].config, data.lens[j].config;
                a.zoom < b.zoom || (a.zoom == b.zoom && a.focus < b.focus)
      ensures forall e :: e in data.lens <==> e.config in clusterMap && e == EntryOf(e.config, clusterMap[e.config])
      ensures GoodData(data.View())
    {
      hide EntryOf, SortedLenses, GoodLens;
      var target, mappers := AverageGrids.AverageGrids(pointGridList);
      var entries := CollectLenses(clusterMap);
      data := new CalibrationData.Create(serial, ArrayParams(target, translation, rotation), entries);
      SortedDistinct(entries, data.lens);
      forall i | 0 <= i < |data.lens|
        ensures GoodLens(data.lens[i])
      {
        var e := data.lens[i];
        assert e in data.lens;
        GoodEntry(e.config, clusterMap[e.config]);
      }
    }
  }

  /** Every entry can be written and read back. */
  lemma GoodEntry(key: LensConfig, cluster: Cluster)
    ensures GoodLens(EntryOf(key, cluster))
  {
  }
}
