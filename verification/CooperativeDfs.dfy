/**
 The cooperative depth-first search: one coroutine per vertex on a FIFO ready queue.

 A coroutine is a frame: the point at which it is suspended and its own stack. `FrameStep` is one
 resume, up to the next suspension. The interleaving has a closed form: in round r every coroutine
 that still needs an r-th resume gets it, in ascending order of vertices.
 */
module DfsFrames {

  type Graph = seq<seq<int>>

  datatype Event = Enter(v: int) | Leave(v: int) | Edge(v: int, to: int)

  /** Where a coroutine continues: at its start, at the head of its loop, or at the test of visited[to]. */
  datatype Point = AtStart | AtLoop | AtVisit(to: int)

  /** `stack` holds pairs of a vertex and the index of its next edge; `failed` is a stored exception. */
  datatype Frame = Frame(start: int, point: Point, stack: seq<(int, nat)>, done: bool, failed: bool)

  /** The effect of one resume: the new frame, what it logs, which vertex it enters, whether it yields and so runs again. */
  datatype Step = Step(frame: Frame, log: seq<Event>, entered: seq<int>, again: bool)

  predicate InRange(g: Graph, to: int) {
    0 <= to < |g|
  }

  predicate GoodFrame(g: Graph, f: Frame) {
    && InRange(g, f.start)
    && (f.point.AtVisit? ==> InRange(g, f.point.to))
    && forall i :: 0 <= i < |f.stack| ==> InRange(g, f.stack[i].0)
  }

  function LoopHead(g: Graph, f: Frame): Step
    requires GoodFrame(g, f)
  {
    if f.stack == [] then Step(f.(point := AtLoop, done := true), [], [], false)
    else
      var last := |f.stack| - 1;
      var (v, k) := f.stack[last];
      if k >= |g[v]| then
        Step(f.(point := AtLoop, stack := f.stack[..last]), [Leave(v)], [], true)
      else
        var to := g[v][k];
        var f' := f.(stack := f.stack[last := (v, k + 1)]);
        if !InRange(g, to) then Step(f'.(point := AtLoop, done := true, failed := true), [], [], false)
        else Step(f'.(point := AtVisit(to)), [Edge(v, to)], [], true)
  }

  function FrameStep(g: Graph, f: Frame, visited: seq<bool>): Step
    requires GoodFrame(g, f) && |visited| == |g|
  {
    match f.point
    case AtStart =>
      Step(f.(point := AtLoop, stack := f.stack + [(f.start, 0)]), [Enter(f.start)], [f.start], true)
    case AtLoop => LoopHead(g, f)
    case AtVisit(to) =>
      if visited[to] then LoopHead(g, f)
      else Step(f.(point := AtLoop, stack := f.stack + [(to, 0)]), [Enter(to)], [to], true)
  }

  // ---------- The closed form ----------

  /** How many resumes the coroutine of v takes: one to enter, one an edge, one to leave, one to end. */
  function Resumes(g: Graph, v: nat): nat
    requires v < |g|
  {
    |g[v]| + 3
  }

  /** The frame of v after r resumes. */
  function FrameAt(g: Graph, v: nat, r: nat): Frame
    requires v < |g| && r <= Resumes(g, v)
  {
    if r == 0 then Frame(v, AtStart, [], false, false)
    else if r == 1 then Frame(v, AtLoop, [(v, 0)], false, false)
    else if r <= |g[v]| + 1 then Frame(v, AtVisit(g[v][r - 2]), [(v, r - 1)], false, false)
    else Frame(v, AtLoop, [], r == Resumes(g, v), false)
  }

  /** What the coroutine of v logs in its r-th resume. */
  function EventAt(g: Graph, v: nat, r: nat): seq<Event>
    requires v < |g|
  {
    if r == 0 || r > |g[v]| + 2 then []
    else if r == 1 then [Enter(v)]
    else if r <= |g[v]| + 1 then [Edge(v, g[v][r - 2])]
    else [Leave(v)]
  }

  /** The log of the vertices below v in round r. */
  function RoundLog(g: Graph, r: nat, v: nat): seq<Event>
    requires v <= |g|
  {
    if v == 0 then [] else RoundLog(g, r, v - 1) + EventAt(g, v - 1, r)
  }

  /** The log of all rounds below r. */
  function LogBefore(g: Graph, r: nat): seq<Event> {
    if r == 0 then [] else LogBefore(g, r - 1) + RoundLog(g, r - 1, |g|)
  }

  function MaxDegree(g: Graph): (d: nat)
    ensures forall v :: 0 <= v < |g| ==> |g[v]| <= d
  {
    if g == [] then 0
    else
      var d := MaxDegree(g[1..]);
      assert forall v :: 1 <= v < |g| ==> g[v] == g[1..][v - 1];
      if |g[0]| > d then |g[0]| else d
  }

  function EdgeCount(g: Graph): nat {
    if g == [] then 0 else |g[|g| - 1]| + EdgeCount(g[..|g| - 1])
  }

  /** The edge the coroutine of v inspects in its r-th resume, if there is one, leads to a vertex. */
  predicate EdgeOk(g: Graph, v: nat, r: nat)
    requires v < |g|
  {
    2 <= r <= |g[v]| + 1 ==> InRange(g, g[v][r - 2])
  }

  predicate ValidGraph(g: Graph) {
    forall v, k :: 0 <= v < |g| && 0 <= k < |g[v]| ==> InRange(g, g[v][k])
  }

  /** Each resume does what the closed form says, provided every vertex was entered in round 1. */
  lemma FrameStepAt(g: Graph, v: nat, r: nat, visited: seq<bool>)
    requires v < |g| && 0 < r <= Resumes(g, v) && |visited| == |g|
    requires r > 1 ==> forall u :: 0 <= u < |g| ==> visited[u]
    requires forall q :: 0 < q < r ==> EdgeOk(g, v, q)
    ensures GoodFrame(g, FrameAt(g, v, r - 1))
    ensures var step := FrameStep(g, FrameAt(g, v, r - 1), visited);
            if EdgeOk(g, v, r) then
              step == Step(FrameAt(g, v, r), EventAt(g, v, r), if r == 1 then [v] else [], r < Resumes(g, v))
            else
              step.frame.failed && step.frame.done && !step.again && step.log == [] && step.entered == []
  {
    var f := FrameAt(g, v, r - 1);
    assert EdgeOk(g, v, r - 1) || r == 1;
    if r == 1 {
      assert [] + [(v as int, 0)] == [(v as int, 0)];
    } else if r <= |g[v]| + 1 {
      assert f.stack == [(v, r - 2)];
      assert f.stack[0 := (v, r - 1)] == [(v as int, (r - 1) as nat)];
    } else if r == |g[v]| + 2 {
      assert f.stack[..0] == [];
    }
  }

  // ---------- The ready queue ----------

  /** The vertices in [a, b) whose coroutine needs an r-th resume, ascending. */
  function Alive(g: Graph, r: nat, a: nat, b: nat): seq<nat>
    requires b <= |g|
    decreases b - a
  {
    if a >= b then [] else (if r <= Resumes(g, a) then [a] else []) + Alive(g, r, a + 1, b)
  }

  lemma {:induction false} AliveSplit(g: Graph, r: nat, a: nat, b: nat, c: nat)
    requires a <= b <= c <= |g|
    ensures Alive(g, r, a, c) == Alive(g, r, a, b) + Alive(g, r, b, c)
    decreases b - a
  {
    if a < b {
      AliveSplit(g, r, a + 1, b, c);
    }
  }

  ghost predicate AllDone(g: Graph, r: nat, a: nat, b: nat)
    requires b <= |g|
  {
    forall u :: a <= u < b ==> r > Resumes(g, u)
  }

  lemma {:induction false} AliveEmpty(g: Graph, r: nat, a: nat, b: nat)
    requires a <= b <= |g|
    ensures Alive(g, r, a, b) == [] <==> AllDone(g, r, a, b)
    decreases b - a
  {
    hide Resumes;
    if a < b {
      AliveEmpty(g, r, a + 1, b);
    }
  }

  /** Coroutines that need no r-th resume log nothing in round r. */
  lemma {:induction false} DoneIsSilent(g: Graph, r: nat, a: nat, b: nat)
    requires a <= b <= |g| && AllDone(g, r, a, b)
    ensures RoundLog(g, r, b) == RoundLog(g, r, a)
    decreases b - a
  {
    if a < b {
      DoneIsSilent(g, r, a, b - 1);
      assert r > Resumes(g, b - 1);
    }
  }

  /** The first vertex still to be resumed in round r. */
  lemma {:induction false} FirstAlive(g: Graph, r: nat, a: nat)
    requires a <= |g| && Alive(g, r, a, |g|) != []
    ensures var v := Alive(g, r, a, |g|)[0];
            && a <= v < |g| && r <= Resumes(g, v)
            && AllDone(g, r, a, v)
            && Alive(g, r, a, |g|) == [v] + Alive(g, r, v + 1, |g|)
    decreases |g| - a
  {
    if r > Resumes(g, a) {
      FirstAlive(g, r, a + 1);
    }
  }

  // ---------- Position in the run ----------

  /** How often u was resumed when round r has reached vertex v. */
  function Count(g: Graph, r: nat, v: nat, u: nat): (c: nat)
    requires u < |g| && r > 0
    ensures c <= Resumes(g, u)
  {
    var c := if u < v then r else r - 1;
    if c <= Resumes(g, u) then c else Resumes(g, u)
  }

  function CountSum(g: Graph, r: nat, v: nat, n: nat): nat
    requires n <= |g| && r > 0
  {
    if n == 0 then 0 else CountSum(g, r, v, n - 1) + Count(g, r, v, n - 1)
  }

  lemma {:induction false} CountSumMoves(g: Graph, r: nat, v: nat, w: nat, n: nat)
    requires v <= w < |g| && n <= |g| && r > 0
    requires r <= Resumes(g, w) && AllDone(g, r, v, w)
    ensures CountSum(g, r, w + 1, n) == CountSum(g, r, v, n) + if w < n then 1 else 0
  {
    if n > 0 {
      CountSumMoves(g, r, v, w, n - 1);
    }
  }

  lemma {:induction false} CountSumRound(g: Graph, r: nat, n: nat, v: nat)
    requires n <= |g| && r > 0 && v <= |g|
    requires AllDone(g, r, v, |g|)
    ensures CountSum(g, r + 1, 0, n) == CountSum(g, r, v, n)
  {
    if n > 0 {
      CountSumRound(g, r, n - 1, v);
    }
  }

  /** The resumes never exceed, and at the end equal, the number of edges plus three per vertex. */
  lemma {:induction false} CountSumBound(g: Graph, r: nat, v: nat, n: nat)
    requires n <= |g| && r > 0
    ensures CountSum(g, r, v, n) <= EdgeCount(g[..n]) + 3 * n
    ensures (forall u :: 0 <= u < n ==> Count(g, r, v, u) == Resumes(g, u)) ==>
              CountSum(g, r, v, n) == EdgeCount(g[..n]) + 3 * n
  {
    if n > 0 {
      CountSumBound(g, r, v, n - 1);
      assert g[..n][..n - 1] == g[..n - 1];
    }
  }

  lemma {:induction false} CountSumStart(g: Graph, n: nat)
    requires n <= |g|
    ensures CountSum(g, 1, 0, n) == 0
  {
    if n > 0 {
      CountSumStart(g, n - 1);
    }
  }

  /** Nothing is logged after the last round. */
  lemma {:induction false} LogStable(g: Graph, r: nat)
    requires r >= MaxDegree(g) + 3
    ensures LogBefore(g, r) == LogBefore(g, MaxDegree(g) + 3)
  {
    hide RoundLog, MaxDegree;
    if r > MaxDegree(g) + 3 {
      LogStable(g, r - 1);
      SilentRound(g, r - 1, |g|);
    }
  }

  lemma {:induction false} SilentRound(g: Graph, r: nat, v: nat)
    requires r >= MaxDegree(g) + 3 && v <= |g|
    ensures RoundLog(g, r, v) == []
  {
    if v > 0 {
      SilentRound(g, r, v - 1);
    }
  }

  // ---------- The state of a run at a position ----------

  /** The scheduler's queue and frames, the shared vectors of the search, the log and the ledger of frames. */
  datatype Progress = Progress(queue: seq<nat>, frames: seq<Frame>, destroyed: seq<nat>, resumed: nat,
                               visited: seq<bool>, order: seq<int>, log: seq<Event>)

  ghost predicate QueueAt(g: Graph, r: nat, v: nat, p: Progress)
    requires 0 < r && v <= |g|
  {
    && p.queue == Alive(g, r, v, |g|) + Alive(g, r + 1, 0, v)
    && p.resumed == CountSum(g, r, v, |g|)
  }

  ghost predicate FramesAt(g: Graph, r: nat, v: nat, p: Progress)
    requires 0 < r && v <= |g|
  {
    && |p.frames| == |p.destroyed| == |g|
    && (forall u :: 0 <= u < |g| ==> p.frames[u] == FrameAt(g, u, Count(g, r, v, u)))
    && (forall u :: 0 <= u < |g| ==> p.destroyed[u] == if p.frames[u].done then 1 else 0)
    && (forall u, q :: 0 <= u < |g| && 0 < q <= Count(g, r, v, u) ==> EdgeOk(g, u, q))
  }

  ghost predicate SharedAt(g: Graph, r: nat, v: nat, p: Progress)
    requires 0 < r && v <= |g|
  {
    && |p.visited| == |g|
    && (forall u :: 0 <= u < |g| ==> p.visited[u] == (r > 1 || u < v))
    && p.order == seq(if r > 1 then |g| else v, i => i)
    && p.log == LogBefore(g, r) + RoundLog(g, r, v)
  }

  /** Everything the run has done when round r has reached vertex v. */
  ghost predicate AtPosition(g: Graph, r: nat, v: nat, p: Progress) {
    0 < r && v <= |g| && QueueAt(g, r, v, p) && FramesAt(g, r, v, p) && SharedAt(g, r, v, p)
  }

  lemma NothingBelowZero(g: Graph, r: nat)
    ensures Alive(g, r, 0, 0) == []
  {
  }

  /** A position with nobody left in its round is the start of the next one. */
  lemma NextRound(g: Graph, r: nat, v: nat, p: Progress)
    requires AtPosition(g, r, v, p) && Alive(g, r, v, |g|) == []
    ensures AtPosition(g, r + 1, 0, p)
  {
    hide Alive, FrameAt, EventAt, EdgeOk;
    AliveEmpty(g, r, v, |g|);
    AliveEmpty(g, r + 1, v, |g|);
    NothingBelowZero(g, r + 2);
    DoneIsSilent(g, r, v, |g|);
    AliveSplit(g, r + 1, 0, v, |g|);
    CountSumRound(g, r, |g|, v);
    if v < |g| {
      assert r > Resumes(g, v);
    }
  }

  lemma SkipQueue(g: Graph, r: nat, v: nat, w: nat, p: Progress)
    requires 0 < r && v <= w < |g| && r <= Resumes(g, w) && AllDone(g, r, v, w) && QueueAt(g, r, v, p)
    ensures QueueAt(g, r, w, p)
  {
    AliveEmpty(g, r, v, w);
    AliveEmpty(g, r + 1, v, w);
    AliveSplit(g, r, v, w, |g|);
    AliveSplit(g, r + 1, 0, v, w);
    CountSumMoves(g, r, v, w, |g|);
    CountSumMoves(g, r, w, w, |g|);
  }

  lemma SkipFrames(g: Graph, r: nat, v: nat, w: nat, p: Progress)
    requires 0 < r && v <= w < |g| && AllDone(g, r, v, w) && FramesAt(g, r, v, p)
    ensures FramesAt(g, r, w, p)
  {
    forall u | 0 <= u < |g|
      ensures Count(g, r, w, u) == Count(g, r, v, u)
    {
    }
  }

  /** Vertices that need no r-th resume can be skipped over. */
  lemma Skip(g: Graph, r: nat, v: nat, w: nat, p: Progress)
    requires AtPosition(g, r, v, p)
    requires v <= w < |g| && r <= Resumes(g, w) && AllDone(g, r, v, w)
    ensures AtPosition(g, r, w, p)
  {
    SkipQueue(g, r, v, w, p);
    SkipFrames(g, r, v, w, p);
    DoneIsSilent(g, r, v, w);
    if v < w {
      assert r > Resumes(g, v);
    }
  }

  /** The queue's front is the next vertex of the round, or the first of the next round. */
  lemma Front(g: Graph, r: nat, v: nat, p: Progress) returns (r': nat, w: nat)
    requires AtPosition(g, r, v, p) && p.queue != []
    ensures w < |g| && 0 < r' <= Resumes(g, w) && p.queue[0] == w
    ensures AtPosition(g, r', w, p)
  {
    r' := r;
    var from := v;
    if Alive(g, r, v, |g|) == [] {
      NextRound(g, r, v, p);
      r', from := r + 1, 0;
    }
    FirstAlive(g, r', from);
    w := Alive(g, r', from, |g|)[0];
    Skip(g, r', from, w, p);
  }

  /** The progress after the front vertex w got its r-th resume. */
  ghost function Resumed(g: Graph, r: nat, w: nat, p: Progress): Progress
    requires w < |g| && 0 < r <= Resumes(g, w) && p.queue != []
    requires |p.frames| == |p.destroyed| == |p.visited| == |g|
  {
    var again := r < Resumes(g, w);
    Progress(p.queue[1..] + (if again then [w] else []),
             p.frames[w := FrameAt(g, w, r)],
             if again then p.destroyed else p.destroyed[w := p.destroyed[w] + 1],
             p.resumed + 1,
             if r == 1 then p.visited[w := true] else p.visited,
             p.order + (if r == 1 then [w] else []),
             p.log + EventAt(g, w, r))
  }

  lemma AdvanceQueue(g: Graph, r: nat, w: nat, p: Progress)
    requires w < |g| && 0 < r <= Resumes(g, w) && QueueAt(g, r, w, p)
    requires |p.frames| == |p.destroyed| == |p.visited| == |g|
    ensures p.queue != [] && p.queue[0] == w && QueueAt(g, r, w + 1, Resumed(g, r, w, p))
  {
    hide FrameAt, EventAt, Alive, Resumes, CountSum, AllDone;
    var later, again := Alive(g, r, w + 1, |g|), if r < Resumes(g, w) then [w] else [];
    AliveFirst(g, r, w);
    assert p.queue[1..] == later + Alive(g, r + 1, 0, w);
    AliveSplit(g, r + 1, 0, w, w + 1);
    assert (later + Alive(g, r + 1, 0, w)) + again == later + (Alive(g, r + 1, 0, w) + again);
    NoneBetween(g, r, w);
    CountSumMoves(g, r, w, w, |g|);
  }

  lemma AliveFirst(g: Graph, r: nat, w: nat)
    requires w < |g| && r <= Resumes(g, w)
    ensures Alive(g, r, w, |g|) == [w] + Alive(g, r, w + 1, |g|)
    ensures Alive(g, r + 1, w, w + 1) == if r < Resumes(g, w) then [w] else []
  {
    hide Resumes;
    assert Alive(g, r + 1, w + 1, w + 1) == [];
  }

  lemma NoneBetween(g: Graph, r: nat, w: nat)
    requires w < |g|
    ensures AllDone(g, r, w, w)
  {
  }

  /** Resuming the front vertex w in round r moves the run one vertex on. */
  lemma Advance(g: Graph, r: nat, w: nat, p: Progress)
    requires w < |g| && 0 < r <= Resumes(g, w) && EdgeOk(g, w, r) && AtPosition(g, r, w, p)
    ensures p.queue != [] && p.queue[0] == w && AtPosition(g, r, w + 1, Resumed(g, r, w, p))
  {
    hide QueueAt, FrameAt, EventAt, Alive, EdgeOk;
    AdvanceQueue(g, r, w, p);
    AdvanceFrames(g, r, w, p);
    AdvanceShared(g, r, w, p);
  }

  lemma AdvanceFrames(g: Graph, r: nat, w: nat, p: Progress)
    requires w < |g| && 0 < r <= Resumes(g, w) && EdgeOk(g, w, r) && FramesAt(g, r, w, p) && p.queue != [] && |p.visited| == |g|
    ensures FramesAt(g, r, w + 1, Resumed(g, r, w, p))
  {
    hide EdgeOk, EventAt, FrameAt, Count;
    CountHere(g, r, w);
    forall u | 0 <= u < |g| && u != w
      ensures Count(g, r, w + 1, u) == Count(g, r, w, u)
    {
      CountElsewhere(g, r, w, u);
    }
  }

  lemma CountHere(g: Graph, r: nat, w: nat)
    requires w < |g| && 0 < r <= Resumes(g, w)
    ensures Count(g, r, w, w) == r - 1 && Count(g, r, w + 1, w) == r
    ensures FrameAt(g, w, r).done == (r == Resumes(g, w)) && !FrameAt(g, w, r - 1).done
  {
  }

  lemma CountElsewhere(g: Graph, r: nat, w: nat, u: nat)
    requires w < |g| && r > 0 && u < |g| && u != w
    ensures Count(g, r, w + 1, u) == Count(g, r, w, u)
  {
  }

  lemma AdvanceShared(g: Graph, r: nat, w: nat, p: Progress)
    requires w < |g| && 0 < r <= Resumes(g, w) && SharedAt(g, r, w, p) && p.queue != [] && |p.frames| == |p.destroyed| == |g|
    ensures SharedAt(g, r, w + 1, Resumed(g, r, w, p))
  {
    hide EventAt, FrameAt, LogBefore;
  }

  lemma {:induction false} AliveMembers(g: Graph, r: nat, a: nat, b: nat)
    requires b <= |g|
    ensures forall u :: u in Alive(g, r, a, b) <==> a <= u < b && r <= Resumes(g, u)
    ensures forall i, j :: 0 <= i < j < |Alive(g, r, a, b)| ==> Alive(g, r, a, b)[i] < Alive(g, r, a, b)[j]
    decreases b - a
  {
    hide Resumes;
    if a < b {
      AliveMembers(g, r, a + 1, b);
      var rest := Alive(g, r, a + 1, b);
      if r <= Resumes(g, a) {
        Prepended(a, rest);
        assert Alive(g, r, a, b) == [a] + rest;
      } else {
        assert Alive(g, r, a, b) == rest;
      }
    }
  }

  /** A smaller number in front of ascending ones. */
  lemma Prepended(a: nat, rest: seq<nat>)
    requires forall u :: u in rest ==> a < u
    requires forall i, j :: 0 <= i < j < |rest| ==> rest[i] < rest[j]
    ensures forall u :: u in [a] + rest <==> u == a || u in rest
    ensures forall i, j :: 0 <= i < j < |[a] + rest| ==> ([a] + rest)[i] < ([a] + rest)[j]
  {
    forall i, j | 0 <= i < j < |[a] + rest|
      ensures ([a] + rest)[i] < ([a] + rest)[j]
    {
      assert rest[j - 1] in rest;
    }
  }

  /** Every frame is either queued once and intact, or destroyed once. */
  ghost predicate Ledger(queue: seq<nat>, destroyed: seq<nat>) {
    && (forall i, j :: 0 <= i < j < |queue| ==> queue[i] != queue[j])
    && (forall i :: 0 <= i < |queue| ==> queue[i] < |destroyed| && destroyed[queue[i]] == 0)
    && (forall u :: 0 <= u < |destroyed| && u !in queue ==> destroyed[u] == 1)
  }

  lemma LedgerAt(g: Graph, r: nat, v: nat, p: Progress)
    requires AtPosition(g, r, v, p)
    ensures Ledger(p.queue, p.destroyed)
  {
    hide Alive, SharedAt, EdgeOk;
    QueueMembers(g, r, v);
    assert forall i :: 0 <= i < |p.queue| ==> p.queue[i] in p.queue;
    forall u | 0 <= u < |g|
      ensures p.destroyed[u] == if Count(g, r, v, u) < Resumes(g, u) then 0 else 1
    {
      assert p.frames[u] == FrameAt(g, u, Count(g, r, v, u));
    }
  }

  /** The queue holds, once each, exactly the vertices whose coroutine is not yet at its end. */
  lemma QueueMembers(g: Graph, r: nat, v: nat)
    requires 0 < r && v <= |g|
    ensures var queue := Alive(g, r, v, |g|) + Alive(g, r + 1, 0, v);
            && (forall u: nat :: u in queue <==> u < |g| && Count(g, r, v, u) < Resumes(g, u))
            && (forall i, j :: 0 <= i < j < |queue| ==> queue[i] != queue[j])
  {
    hide Alive;
    AliveMembers(g, r, v, |g|);
    AliveMembers(g, r + 1, 0, v);
    var now, next := Alive(g, r, v, |g|), Alive(g, r + 1, 0, v);
    assert forall i :: 0 <= i < |now| ==> now[i] in now;
    assert forall i :: 0 <= i < |next| ==> next[i] in next;
    forall u: nat
      ensures u in now + next <==> u < |g| && Count(g, r, v, u) < Resumes(g, u)
    {
      assert u in now + next <==> u in now || u in next;
    }
  }

  /**
   At every point of a run no coroutine's stack is deeper than one, and a coroutine suspended before
   the test of visited[to] will find it true: the branch that would enter `to` is never taken.
   */
  lemma NeverDescends(g: Graph, r: nat, v: nat, p: Progress)
    requires AtPosition(g, r, v, p)
    ensures |p.frames| == |p.visited| == |g|
    ensures forall u :: 0 <= u < |g| ==>
              && |p.frames[u].stack| <= 1
              && (p.frames[u].point.AtVisit? ==> InRange(g, p.frames[u].point.to) && p.visited[p.frames[u].point.to])
  {
    hide QueueAt, LogBefore, RoundLog;
    forall u | 0 <= u < |g|
      ensures |p.frames[u].stack| <= 1
      ensures p.frames[u].point.AtVisit? ==> InRange(g, p.frames[u].point.to) && p.visited[p.frames[u].point.to]
    {
      var c := Count(g, r, v, u);
      assert p.frames[u] == FrameAt(g, u, c);
      assert c > 0 ==> EdgeOk(g, u, c);
    }
  }

  lemma AllFinished(g: Graph, r: nat, v: nat, p: Progress)
    requires AtPosition(g, r, v, p) && p.queue == []
    ensures AllDone(g, r, v, |g|) && AllDone(g, r + 1, 0, v)
    ensures forall u :: 0 <= u < |g| ==> Count(g, r, v, u) == Resumes(g, u)
  {
    AliveEmpty(g, r, v, |g|);
    AliveEmpty(g, r + 1, 0, v);
    forall u | 0 <= u < |g|
      ensures Count(g, r, v, u) == Resumes(g, u)
    {
      if u < v {
        assert r + 1 > Resumes(g, u);
      } else {
        assert r > Resumes(g, u);
      }
    }
  }

  /** With the queue empty, every coroutine has run to its end and every round is in the log. */
  lemma AtEnd(g: Graph, r: nat, v: nat, p: Progress)
    requires AtPosition(g, r, v, p) && p.queue == []
    ensures ValidGraph(g)
    ensures p.order == seq(|g|, i => i)
    ensures p.log == LogBefore(g, MaxDegree(g) + 3)
    ensures p.resumed == EdgeCount(g) + 3 * |g|
  {
    AllFinished(g, r, v, p);
    forall u, k | 0 <= u < |g| && 0 <= k < |g[u]|
      ensures InRange(g, g[u][k])
    {
      assert EdgeOk(g, u, k + 2);
    }
    CountSumBound(g, r, v, |g|);
    assert g[..|g|] == g;
    LogAtEnd(g, r, v);
    assert v < |g| ==> r > Resumes(g, v);
  }

  lemma LogAtEnd(g: Graph, r: nat, v: nat)
    requires 0 < r && v <= |g| && AllDone(g, r, v, |g|) && AllDone(g, r + 1, 0, v)
    ensures LogBefore(g, r) + RoundLog(g, r, v) == LogBefore(g, MaxDegree(g) + 3)
  {
    hide RoundLog, MaxDegree;
    DoneIsSilent(g, r, v, |g|);
    assert LogBefore(g, r + 1) == LogBefore(g, r) + RoundLog(g, r, |g|);
    if |g| > 0 {
      var u := MaxDegreeVertex(g);
      assert r + 1 >= Resumes(g, u);
      LogStable(g, r + 1);
    } else {
      LogOfEmpty(g, r + 1);
      LogOfEmpty(g, MaxDegree(g) + 3);
    }
  }

  lemma {:induction false} LogOfEmpty(g: Graph, r: nat)
    requires g == []
    ensures LogBefore(g, r) == []
  {
    if r > 0 {
      LogOfEmpty(g, r - 1);
    }
  }

  lemma {:induction false} MaxDegreeVertex(g: Graph) returns (u: nat)
    requires g != []
    ensures u < |g| && |g[u]| == MaxDegree(g)
  {
    u := 0;
    if |g[0]| <= MaxDegree(g[1..]) && |g| > 1 {
      var w := MaxDegreeVertex(g[1..]);
      u := w + 1;
    }
  }

  /** The first bad edge in the order of the run: in round r at v, none earlier. */
  ghost predicate FirstBadEdge(g: Graph, r: nat, v: nat) {
    && v < |g| && !EdgeOk(g, v, r)
    && (forall u, q :: 0 <= u < |g| && 0 < q && (q < r || (q == r && u < v)) ==> EdgeOk(g, u, q))
  }

  lemma BadEdgeIsFirst(g: Graph, r: nat, v: nat, p: Progress)
    requires v < |g| && AtPosition(g, r, v, p) && !EdgeOk(g, v, r)
    ensures FirstBadEdge(g, r, v)
  {
    forall u, q | 0 <= u < |g| && 0 < q && (q < r || (q == r && u < v))
      ensures EdgeOk(g, u, q)
    {
      if q <= Resumes(g, u) {
        assert q <= Count(g, r, v, u);
      }
    }
  }
}

/**
 What the closed form of the log means: every coroutine's own events in the order of a plain walk over
 its edges, and all of them interleaved round by round.
 */
module DfsLog {
  import opened DfsFrames

  /** The vertex whose coroutine logs an event. */
  function By(e: Event): int {
    match e
    case Enter(v) => v
    case Leave(v) => v
    case Edge(v, _) => v
  }

  /** The events of one coroutine. */
  function Own(log: seq<Event>, v: int): seq<Event> {
    if log == [] then []
    else Own(log[..|log| - 1], v) + if By(log[|log| - 1]) == v then [log[|log| - 1]] else []
  }

  /** The how-manieth of its coroutine's events the i-th one is. */
  function Rank(log: seq<Event>, i: nat): nat
    requires i < |log|
  {
    |Own(log[..i + 1], By(log[i]))|
  }

  /** Round by round: first events before second events, and in a round by ascending vertex. */
  ghost predicate RoundRobin(log: seq<Event>) {
    forall i, j :: 0 <= i < j < |log| ==> Before(log, i, j)
  }

  ghost predicate Before(log: seq<Event>, i: nat, j: nat)
    requires i < |log| && j < |log|
  {
    Rank(log, i) < Rank(log, j) || (Rank(log, i) == Rank(log, j) && By(log[i]) < By(log[j]))
  }

  /** All a coroutine logs if no edge of its vertex is bad. */
  function Whole(g: Graph, v: nat): (events: seq<Event>)
    requires v < |g|
    ensures |events| == |g[v]| + 2
  {
    [Enter(v)] + seq(|g[v]|, k requires 0 <= k < |g[v]| => Edge(v, g[v][k])) + [Leave(v)]
  }

  /** The first c events of v's coroutine, or all there are. */
  function Part(g: Graph, v: nat, c: nat): seq<Event>
    requires v < |g|
  {
    Whole(g, v)[..if c <= |g[v]| + 2 then c else |g[v]| + 2]
  }

  /** Round r of the log has reached vertex v. */
  ghost predicate Upto(g: Graph, log: seq<Event>, r: nat, v: nat)
    requires r > 0
  {
    && (forall u :: 0 <= u < |g| ==> Own(log, u) == Part(g, u, if u < v then r else r - 1))
    && AllEarlier(log, r, v)
    && RoundRobin(log)
  }

  ghost predicate Earlier(log: seq<Event>, i: nat, r: nat, v: nat)
    requires i < |log|
  {
    Rank(log, i) < r || (Rank(log, i) == r && By(log[i]) < v)
  }

  ghost predicate AllEarlier(log: seq<Event>, r: nat, v: nat) {
    forall i :: 0 <= i < |log| ==> Earlier(log, i, r, v)
  }

  lemma OneMore(log: seq<Event>, e: Event, u: int)
    ensures Own(log + [e], u) == Own(log, u) + if By(e) == u then [e] else []
  {
    assert (log + [e])[..|log|] == log;
  }

  lemma RankKept(log: seq<Event>, e: Event, i: nat)
    requires i < |log|
    ensures Rank(log + [e], i) == Rank(log, i)
  {
    assert (log + [e])[..i + 1] == log[..i + 1];
  }

  lemma RankLast(log: seq<Event>, e: Event)
    ensures Rank(log + [e], |log|) == |Own(log, By(e))| + 1
  {
    assert (log + [e])[..|log| + 1] == log + [e];
    OneMore(log, e, By(e));
  }

  /** An event of v as the r-th of its coroutine keeps the order. */
  lemma OrderKept(log: seq<Event>, e: Event, r: nat, v: nat)
    requires RoundRobin(log) && AllEarlier(log, r, v) && By(e) == v && |Own(log, v)| + 1 == r
    ensures RoundRobin(log + [e]) && AllEarlier(log + [e], r, v + 1)
  {
    hide Own, Rank;
    var log', w := log + [e], v + 1;
    RankLast(log, e);
    forall i | 0 <= i < |log|
      ensures Earlier(log', i, r, w) && Before(log', i, |log|)
    {
      assert Earlier(log, i, r, v);
      RankKept(log, e, i);
    }
    assert Earlier(log', |log|, r, w);
    forall i, j | 0 <= i < j < |log'|
      ensures Before(log', i, j)
    {
      if j < |log| {
        assert Before(log, i, j);
        RankKept(log, e, i);
        RankKept(log, e, j);
      }
    }
  }

  lemma NextEvent(g: Graph, v: nat, r: nat)
    requires v < |g| && r > 0
    ensures EventAt(g, v, r) == if r <= |g[v]| + 2 then [Whole(g, v)[r - 1]] else []
    ensures r <= |g[v]| + 2 ==> By(Whole(g, v)[r - 1]) == v && Part(g, v, r) == Part(g, v, r - 1) + [Whole(g, v)[r - 1]]
    ensures r > |g[v]| + 2 ==> Part(g, v, r) == Part(g, v, r - 1)
    ensures r <= |g[v]| + 2 ==> |Part(g, v, r - 1)| == r - 1
  {
  }

  /** The turn of v in round r. */
  lemma TurnOf(g: Graph, log: seq<Event>, r: nat, v: nat)
    requires r > 0 && v < |g| && Upto(g, log, r, v)
    ensures Upto(g, log + EventAt(g, v, r), r, v + 1)
  {
    hide Own, Part, Whole, EventAt, AllEarlier, RoundRobin;
    NextEvent(g, v, r);
    assert Own(log, v) == Part(g, v, r - 1);
    if r <= |g[v]| + 2 {
      var e := Whole(g, v)[r - 1];
      OrderKept(log, e, r, v);
      forall u | 0 <= u < |g|
        ensures Own(log + [e], u) == Part(g, u, if u < v + 1 then r else r - 1)
      {
        OneMore(log, e, u);
      }
    } else {
      assert log + [] == log;
      LaterStill(log, r, v, r, v + 1);
    }
  }

  lemma LaterStill(log: seq<Event>, r: nat, v: nat, q: nat, w: nat)
    requires AllEarlier(log, r, v) && (r < q || (r == q && v <= w))
    ensures AllEarlier(log, q, w)
  {
    hide Rank;
    forall i | 0 <= i < |log| ensures Earlier(log, i, q, w) {
      assert Earlier(log, i, r, v);
    }
  }

  /** After the last vertex of a round comes the first of the next. */
  lemma TurnOver(g: Graph, log: seq<Event>, r: nat)
    requires r > 0 && Upto(g, log, r, |g|)
    ensures Upto(g, log, r + 1, 0)
  {
    hide Own, Part, RoundRobin, AllEarlier;
    LaterStill(log, r, |g|, r + 1, 0);
  }

  lemma {:induction false} LogUpto(g: Graph, r: nat, v: nat)
    requires r > 0 && v <= |g|
    ensures Upto(g, LogBefore(g, r) + RoundLog(g, r, v), r, v)
    decreases r, v
  {
    hide Upto, EventAt;
    if v > 0 {
      LogUpto(g, r, v - 1);
      TurnOf(g, LogBefore(g, r) + RoundLog(g, r, v - 1), r, v - 1);
      assert LogBefore(g, r) + RoundLog(g, r, v) == LogBefore(g, r) + RoundLog(g, r, v - 1) + EventAt(g, v - 1, r);
    } else if r > 1 {
      LogUpto(g, r - 1, |g|);
      TurnOver(g, LogBefore(g, r - 1) + RoundLog(g, r - 1, |g|), r - 1);
      assert LogBefore(g, r) + RoundLog(g, r, 0) == LogBefore(g, r - 1) + RoundLog(g, r - 1, |g|);
    } else {
      NothingYet(g);
    }
  }

  lemma NothingYet(g: Graph)
    ensures LogBefore(g, 1) + RoundLog(g, 1, 0) == [] && Upto(g, [], 1, 0)
  {
    SilentStart(g, |g|);
  }

  lemma {:induction false} SilentStart(g: Graph, v: nat)
    requires v <= |g|
    ensures RoundLog(g, 0, v) == []
  {
    if v > 0 { SilentStart(g, v - 1); }
  }

  /** The whole log: every coroutine's walk complete, interleaved round by round. */
  lemma WholeLog(g: Graph)
    ensures var log := LogBefore(g, MaxDegree(g) + 3);
            && RoundRobin(log)
            && forall v :: 0 <= v < |g| ==>
                 Own(log, v) == [Enter(v)] + seq(|g[v]|, k requires 0 <= k < |g[v]| => Edge(v, g[v][k])) + [Leave(v)]
  {
    hide Own, RoundRobin, LogBefore, RoundLog;
    var r := MaxDegree(g) + 3;
    LogUpto(g, r, 0);
    NoTurn(g, r);
    assert LogBefore(g, r) + [] == LogBefore(g, r);
  }

  lemma NoTurn(g: Graph, r: nat)
    ensures RoundLog(g, r, 0) == []
  {
  }

  /** The log up to round r and vertex v: of every coroutine the events of its turns so far. */
  lemma PartLog(g: Graph, r: nat, v: nat)
    requires r > 0 && v <= |g|
    ensures var log := LogBefore(g, r) + RoundLog(g, r, v);
            && RoundRobin(log)
            && forall u :: 0 <= u < |g| ==> Own(log, u) == Part(g, u, if u < v then r else r - 1)
  {
    LogUpto(g, r, v);
  }
}

/** The scheduler and the search in the source's own form: a deque of handles, frames, shared vectors. */
module CooperativeDfs {
  import opened DfsFrames
  import opened DfsLog

  const MAX_INT := 0x7fff_ffff

  datatype Outcome = Traversal(order: seq<int>) | OutOfRange

  /** The vectors that all coroutines share by reference. */
  class Shared {
    const visited: array<bool>
    var order: seq<int>
    var log: seq<Event>

    constructor (n: nat)
      ensures fresh(visited) && visited.Length == n && order == [] && log == []
      ensures forall i :: 0 <= i < n ==> !visited[i]
    {
      visited := new bool[n](_ => false);
      order, log := [], [];
    }
  }

  /** Handles are indices into `frames`; `destroyed` counts how often each frame was destroyed. */
  class Scheduler {
    var readyQueue: seq<nat>
    var frames: seq<Frame>
    var destroyed: seq<nat>
    var resumed: nat

    constructor ()
      ensures readyQueue == [] && frames == [] && destroyed == [] && resumed == 0
    {
      readyQueue, frames, destroyed, resumed := [], [], [], 0;
    }

    method Spawn(v: int)
      modifies this
      ensures frames == old(frames) + [Frame(v, AtStart, [], false, false)]
      ensures destroyed == old(destroyed) + [0] && readyQueue == old(readyQueue) + [|old(frames)|]
      ensures resumed == old(resumed)
    {
      frames, destroyed := frames + [Frame(v, AtStart, [], false, false)], destroyed + [0];
      Schedule(|frames| - 1);
    }

    method Schedule(h: nat)
      modifies this`readyQueue
      ensures readyQueue == old(readyQueue) + [h]
    {
      readyQueue := readyQueue + [h];
    }

    /** A frame is destroyed at most once. */
    method Destroy(h: nat)
      requires h < |destroyed| && destroyed[h] == 0
      modifies this`destroyed
      ensures destroyed == old(destroyed)[h := 1]
    {
      destroyed := destroyed[h := 1];
    }

    /** Only a frame that is neither destroyed nor done may be resumed; it runs to its next suspension. */
    method Resume(g: Graph, h: nat, shared: Shared)
      requires h < |frames| == |destroyed| && destroyed[h] == 0 && !frames[h].done
      requires GoodFrame(g, frames[h]) && shared.visited.Length == |g|
      modifies this`frames, this`readyQueue, this`resumed, shared, shared.visited
      ensures var step := FrameStep(g, old(frames[h]), old(shared.visited[..]));
              && frames == old(frames)[h := step.frame]
              && readyQueue == old(readyQueue) + (if step.again then [h] else [])
              && shared.order == old(shared.order) + step.entered
              && shared.log == old(shared.log) + step.log
              && shared.visited[..] ==
                   if step.entered == [] then old(shared.visited[..])
                   else old(shared.visited[..])[step.entered[0] := true]
      ensures resumed == old(resumed) + 1
    {
      resumed := resumed + 1;
      var f := frames[h];
      if f.point.AtStart? || (f.point.AtVisit? && !shared.visited[f.point.to]) {
        var v := if f.point.AtStart? then f.start else f.point.to;
        frames := frames[h := f.(point := AtLoop, stack := f.stack + [(v, 0)])];
        shared.visited[v] := true;
        shared.order := shared.order + [v];
        shared.log := shared.log + [Enter(v)];
        Schedule(h);
        return;
      }
      if f.stack == [] {
        frames := frames[h := f.(point := AtLoop, done := true)];
        return;
      }
      var last := |f.stack| - 1;
      var (v, k) := f.stack[last];
      if k >= |g[v]| {
        shared.log := shared.log + [Leave(v)];
        frames := frames[h := f.(point := AtLoop, stack := f.stack[..last])];
        Schedule(h);
        return;
      }
      var to := g[v][k];
      f := f.(stack := f.stack[last := (v, k + 1)]);
      if to < 0 || to >= |g| {
        frames := frames[h := f.(point := AtLoop, done := true, failed := true)];
        return;
      }
      shared.log := shared.log + [Edge(v, to)];
      frames := frames[h := f.(point := AtVisit(to))];
      Schedule(h);
    }

    ghost function View(shared: Shared): Progress
      reads this, shared, shared.visited
    {
      Progress(readyQueue, frames, destroyed, resumed, shared.visited[..], shared.order, shared.log)
    }

    /** One turn of the scheduler's loop: takes the front handle, resumes it, destroys it if it ended or threw. */
    method RunOne(g: Graph, shared: Shared, ghost r: nat, ghost v: nat) returns (threw: bool)
      requires shared.visited.Length == |g| && AtPosition(g, r, v, View(shared))
      requires v < |g| && r <= Resumes(g, v) && readyQueue != [] && readyQueue[0] == v
      modifies this, shared, shared.visited
      ensures threw == !EdgeOk(g, v, r)
      ensures !threw ==> View(shared) == Resumed(g, r, v, old(View(shared)))
      ensures threw ==> shared.log == old(shared.log) && Ledger(readyQueue, destroyed) && |destroyed| == |g|
    {
      hide Alive, LogBefore, RoundLog;
      LedgerAt(g, r, v, View(shared));
      assert FramesAt(g, r, v, View(shared)) && Count(g, r, v, v) == r - 1;
      FrameStepAt(g, v, r, shared.visited[..]);
      var handle := readyQueue[0];
      readyQueue := readyQueue[1..];
      if !frames[handle].done {
        Resume(g, handle, shared);
      }
      threw := frames[handle].failed;
      if threw || frames[handle].done {
        Destroy(handle);
      }
    }

    /**
     Runs until the queue is empty or a coroutine throws. `r` and `v` are where the run stands at
     the end: past its last round, or at the throwing coroutine of v in round r.
     */
    method Run(g: Graph, shared: Shared) returns (threw: bool, ghost r: nat, ghost v: nat)
      requires shared.visited.Length == |g| && AtPosition(g, 1, 0, View(shared))
      modifies this, shared, shared.visited
      ensures !threw ==> readyQueue == [] && AtPosition(g, r, v, View(shared))
      ensures threw ==> FirstBadEdge(g, r, v) && shared.log == LogBefore(g, r) + RoundLog(g, r, v)
      ensures Ledger(readyQueue, destroyed) && |destroyed| == |g|
    {
      hide FrameAt, EventAt, Alive, EdgeOk, Ledger, FirstBadEdge, EdgeCount, Count;
      r, v := 1, 0;
      while readyQueue != []
        invariant AtPosition(g, r, v, View(shared))
        decreases EdgeCount(g) + 3 * |g| - resumed
      {
        r, v := Front(g, r, v, View(shared));
        ghost var before := View(shared);
        threw := RunOne(g, shared, r, v);
        if threw {
          BadEdgeIsFirst(g, r, v, before);
          return;
        }
        Advance(g, r, v, before);
        v := v + 1;
        CountSumBound(g, r, v, |g|);
        assert g[..|g|] == g;
      }
      threw := false;
      LedgerAt(g, r, v, View(shared));
    }

    /** The destructor destroys what is still queued: after it every frame was destroyed exactly once. */
    method DestroyQueued()
      requires Ledger(readyQueue, destroyed)
      modifies this
      ensures |destroyed| == |old(destroyed)| && forall u :: 0 <= u < |destroyed| ==> destroyed[u] == 1
      ensures resumed == old(resumed)
    {
      while readyQueue != []
        invariant Ledger(readyQueue, destroyed) && |destroyed| == |old(destroyed)| && resumed == old(resumed)
      {
        var h := readyQueue[0];
        readyQueue := readyQueue[1..];
        Destroy(h);
      }
    }
  }

  /**
   The search. It returns the vertices 0 to n-1 in order, after a log that interleaves the
   coroutines round by round, exactly if every edge leads to a vertex, and throws at the first bad
   edge otherwise; either way every frame is destroyed exactly once.
   */
  method Search(g: Graph) returns (outcome: Outcome, log: seq<Event>, resumed: nat, destroyed: seq<nat>,
                                   ghost r: nat, ghost v: nat)
    requires |g| <= MAX_INT
    ensures outcome.Traversal? <==> forall u, k :: 0 <= u < |g| && 0 <= k < |g[u]| ==> 0 <= g[u][k] < |g|
    ensures outcome.Traversal? ==> outcome.order == seq(|g|, i => i)
    ensures outcome.Traversal? ==> log == LogBefore(g, MaxDegree(g) + 3)
    ensures outcome.Traversal? ==>
              RoundRobin(log)
              && forall u :: 0 <= u < |g| ==>
                   Own(log, u) == [Enter(u)] + seq(|g[u]|, k requires 0 <= k < |g[u]| => Edge(u, g[u][k])) + [Leave(u)]
    ensures outcome.Traversal? ==> resumed == EdgeCount(g) + 3 * |g|
    ensures outcome.OutOfRange? ==> FirstBadEdge(g, r, v) && log == LogBefore(g, r) + RoundLog(g, r, v)
    ensures outcome.OutOfRange? ==>
              && r > 0 && v < |g| && 2 <= r <= |g[v]| + 1 && !(0 <= g[v][r - 2] < |g|)
              && (forall u, k :: 0 <= u < |g| && 0 <= k < |g[u]| && (k + 2 < r || (k + 2 == r && u < v)) ==> 0 <= g[u][k] < |g|)
              && RoundRobin(log) && forall u :: 0 <= u < |g| ==> Own(log, u) == Part(g, u, if u < v then r else r - 1)
    ensures destroyed == seq(|g|, _ => 1)
  {
    hide LogBefore, RoundLog, FirstBadEdge, ValidGraph, EdgeCount, MaxDegree, AtPosition, Own, RoundRobin, Part;
    var scheduler := new Scheduler();
    var shared := new Shared(|g|);
    var i := 0;
    while i < |g|
      invariant 0 <= i <= |g|
      invariant forall k :: 0 <= k < |g| ==> !shared.visited[k]
      invariant scheduler.readyQueue == seq(i, k => k)
      invariant scheduler.frames == seq(i, k => Frame(k, AtStart, [], false, false))
      invariant scheduler.destroyed == seq(i, _ => 0)
      invariant shared.order == [] && shared.log == [] && scheduler.resumed == 0
      invariant fresh(shared) && fresh(shared.visited) && fresh(scheduler)
    {
      if !shared.visited[i] {
        scheduler.Spawn(i);
      }
      i := i + 1;
    }
    StartPosition(g, scheduler.View(shared));
    var threw;
    threw, r, v := scheduler.Run(g, shared);
    outcome := if threw then OutOfRange else Traversal(shared.order);
    log := shared.log;
    ValidExactly(g);
    if !threw {
      AtEnd(g, r, v, scheduler.View(shared));
      WholeLog(g);
    } else {
      BadEdgeRefutes(g, r, v);
      PartLog(g, r, v);
    }
    scheduler.DestroyQueued();
    resumed, destroyed := scheduler.resumed, scheduler.destroyed;
  }

  lemma BadEdgeRefutes(g: Graph, r: nat, v: nat)
    requires FirstBadEdge(g, r, v)
    ensures !ValidGraph(g)
    ensures r > 0 && v < |g| && 2 <= r <= |g[v]| + 1 && !(0 <= g[v][r - 2] < |g|)
    ensures forall u, k :: 0 <= u < |g| && 0 <= k < |g[u]| && (k + 2 < r || (k + 2 == r && u < v)) ==> 0 <= g[u][k] < |g|
  {
    assert !EdgeOk(g, v, r) && !InRange(g, g[v][r - 2]);
    forall u, k | 0 <= u < |g| && 0 <= k < |g[u]| && (k + 2 < r || (k + 2 == r && u < v))
      ensures 0 <= g[u][k] < |g|
    {
      assert EdgeOk(g, u, k + 2);
    }
  }

  lemma ValidExactly(g: Graph)
    ensures ValidGraph(g) <==> forall u, k :: 0 <= u < |g| && 0 <= k < |g[u]| ==> 0 <= g[u][k] < |g|
  {
  }

  lemma {:induction false} AllAlive(g: Graph, v: nat)
    requires v <= |g|
    ensures |Alive(g, 1, v, |g|)| == |g| - v && forall k :: 0 <= k < |g| - v ==> Alive(g, 1, v, |g|)[k] == v + k
    decreases |g| - v
  {
    if v < |g| {
      AllAlive(g, v + 1);
      assert Alive(g, 1, v, |g|) == [v] + Alive(g, 1, v + 1, |g|);
    }
  }

  lemma StartPosition(g: Graph, p: Progress)
    requires p.queue == seq(|g|, k => k) && p.frames == seq(|g|, k => Frame(k, AtStart, [], false, false))
    requires p.destroyed == seq(|g|, _ => 0) && p.resumed == 0
    requires |p.visited| == |g| && forall k :: 0 <= k < |g| ==> !p.visited[k]
    requires p.order == [] && p.log == []
    ensures AtPosition(g, 1, 0, p)
  {
    AllAlive(g, 0);
    CountSumStart(g, |g|);
    assert LogBefore(g, 1) == LogBefore(g, 0) + RoundLog(g, 0, |g|);
    SilentStart(g, |g|);
  }
}
