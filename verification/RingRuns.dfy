/**
 Runs of the byte ring built step by step: draining what is in flight, a whole send, a whole receive.
 */
module RingRuns {
  import opened Bytes
  import opened Sums
  import opened RingRecords
  import opened RingMachine
  import opened RingSafety
  import opened RingConsumer
  import opened RingTheorems

  /** A run from s to t in which every reservation fits and every padding is skipped exactly. */
  ghost predicate Leads(s: State, acts: seq<Action>, t: State) {
    ValidRun(s, acts) && Final(s, acts) == t && StepsOk(s, acts)
  }

  lemma LeadsOne(s: State, a: Action)
    requires Enabled(s, a) && StepOk(s, a)
    ensures Leads(s, [a], Apply(s, a))
  {
    hide Enabled, Apply, StepOk;
    var t := Apply(s, a);
    assert ValidRun(t, []) && Final(t, []) == t && StepsOk(t, []);
    assert [a][1..] == [];
  }

  lemma LeadsNowhere(s: State)
    ensures Leads(s, [], s)
  {
    assert ValidRun(s, []) && Final(s, []) == s && StepsOk(s, []);
  }

  lemma LeadsThen(s: State, a: seq<Action>, t: State, b: seq<Action>, u: State)
    requires Leads(s, a, t) && Leads(t, b, u)
    ensures Leads(s, a + b, u)
  {
    RunConcat(s, a, b);
  }

  /** Extends a run by one step. */
  lemma LeadsStep(s: State, acts: seq<Action>, t: State, a: Action)
    requires Leads(s, acts, t) && Enabled(t, a) && StepOk(t, a)
    ensures Leads(s, acts + [a], Apply(t, a))
  {
    hide Enabled, Apply, StepOk;
    LeadsOne(t, a);
    LeadsThen(s, acts, t, [a], Apply(t, a));
  }

  /** Every reservation of such a run fits. */
  lemma {:induction false} LeadsFit(s: State, acts: seq<Action>)
    requires ValidRun(s, acts) && StepsOk(s, acts)
    ensures ReservesFit(s, acts)
    decreases |acts|
  {
    hide Enabled, Apply, SkipOk, FitOk;
    if acts != [] {
      LeadsFit(Apply(s, acts[0]), acts[1..]);
    }
  }

  // ---------- Progress ----------

  /** Only the producer's own copying and publishing. */
  predicate Draining(acts: seq<Action>) {
    forall i :: 0 <= i < |acts| ==> acts[i].WriteByte? || acts[i].Publish?
  }

  lemma {:induction false} PublishesAdd(a: seq<Action>, b: seq<Action>)
    ensures Publishes(a + b) == Publishes(a) + Publishes(b)
  {
    if a == [] {
      assert a + b == b;
    } else {
      assert (a + b)[0] == a[0] && (a + b)[1..] == a[1..] + b;
      PublishesAdd(a[1..], b);
    }
  }

  /** Address a is none of the addresses of bytes [from, to) of a reservation. */
  ghost predicate Outside(a: nat, begin: nat, pad: nat, from: nat, to: nat, capacity: nat)
    requires capacity > 0
  {
    forall k :: from <= k < to ==> Address(begin, pad, k, capacity) != a
  }

  /** What copying the rest of a range changes: the cells of that rest, and how far the producer is. */
  ghost predicate Copied(s: State, t: State, p: nat) {
    && p < |s.producers| && s.producers[p].pc.Writing? && |t.buf| == |s.buf| > 0
    && var pc := s.producers[p].pc; var total := pc.pad + SizeOf(pc.m);
       && t == s.(buf := t.buf, producers := s.producers[p := s.producers[p].(pc := pc.(done := total))])
       && forall a :: 0 <= a < |s.buf| && Outside(a, pc.begin, pc.pad, pc.done, total, |s.buf|) ==> t.buf[a] == s.buf[a]
  }

  lemma CopiedOneMore(s: State, t: State, p: nat)
    requires PEnabled(s, WriteByte(p), p) && Copied(ApplyWrite(s, p), t, p)
    requires s.producers[p].pc.done < s.producers[p].pc.pad + SizeOf(s.producers[p].pc.m)
    ensures Copied(s, t, p)
  {
    hide AlignUp, PaddingFor, Content, Address;
    var pc, s' := s.producers[p].pc, ApplyWrite(s, p);
    var total := pc.pad + SizeOf(pc.m);
    assert t.producers == s.producers[p := s.producers[p].(pc := pc.(done := total))];
    forall a | 0 <= a < |s.buf| && Outside(a, pc.begin, pc.pad, pc.done, total, |s.buf|)
      ensures t.buf[a] == s.buf[a]
    {
      assert Address(pc.begin, pc.pad, pc.done, |s.buf|) != a;
      assert Outside(a, pc.begin, pc.pad, pc.done + 1, total, |s.buf|);
    }
  }

  /** A producer that owns a range can copy all of its bytes. */
  lemma {:induction false} CopyRest(s: State, p: nat) returns (acts: seq<Action>, t: State)
    requires Inv(s) && p < |s.producers| && s.producers[p].pc.Writing?
    ensures Leads(s, acts, t) && Inv(t) && Copied(s, t, p)
    ensures Draining(acts) && Publishes(acts) == 0
    decreases s.producers[p].pc.pad + SizeOf(s.producers[p].pc.m) - s.producers[p].pc.done
  {
    hide AlignUp, PaddingFor, Content, Address, Store, Tiled, Bytewise, Reading, Snapshots, Histories;
    var pc := s.producers[p].pc;
    assert Owned(s, p);
    WritingInside(s, p);
    if pc.done == pc.pad + SizeOf(pc.m) {
      acts, t := [], s;
      assert ValidRun(s, acts);
      assert s.producers[p := s.producers[p]] == s.producers;
    } else {
      var a := WriteByte(p);
      StepInv(s, a);
      LeadsOne(s, a);
      var rest;
      rest, t := CopyRest(Apply(s, a), p);
      LeadsThen(s, [a], Apply(s, a), rest, t);
      CopiedOneMore(s, t, p);
      acts := [a] + rest;
    }
  }

  /** The owner of the range at the commit position can copy the rest of it and publish. */
  lemma PublishNext(s: State) returns (acts: seq<Action>, t: State)
    requires Inv(s) && s.committed < |s.log|
    ensures Leads(s, acts, t) && Inv(t) && Draining(acts) && Publishes(acts) == 1
    ensures t.log == s.log && t.committed == s.committed + 1 && t.reservePos == s.reservePos
  {
    hide AlignUp, PaddingFor, Content, Tiled, Bytewise, Reading, Snapshots, Histories;
    assert Owner(s, s.committed);
    var p := s.log[s.committed].p;
    var mid;
    acts, mid := CopyRest(s, p);
    WritingInside(mid, p);
    PublishIsNext(mid, p);
    LeadsStep(s, acts, mid, Publish(p));
    StepInv(mid, Publish(p));
    PublishesAdd(acts, [Publish(p)]);
    acts, t := acts + [Publish(p)], Apply(mid, Publish(p));
  }

  /**
   Progress: from every reachable state the producers alone can publish everything in flight, and k
   reservations take exactly k publications.
   */
  lemma {:induction false} Drain(s: State) returns (acts: seq<Action>, t: State)
    requires Inv(s)
    ensures Leads(s, acts, t) && Inv(t) && Draining(acts)
    ensures s.committed <= |s.log| && Publishes(acts) == |s.log| - s.committed
    ensures t.log == s.log && t.commitPos == t.reservePos == s.reservePos
    decreases |s.log| - s.committed
  {
    hide AlignUp, PaddingFor, Content, Tile, Owners, Bytewise, Reading, Snapshots, Histories;
    if s.committed == |s.log| {
      acts, t := [], s;
      assert ValidRun(s, acts);
    } else {
      var mid, rest;
      acts, mid := PublishNext(s);
      rest, t := Drain(mid);
      LeadsThen(s, acts, mid, rest, t);
      PublishesAdd(acts, rest);
      acts := acts + rest;
    }
  }

  /** In every run, whatever is in flight at its end can still be published, one publication for each. */
  lemma RunsCanDrain(n: nat, buf: seq<byte>, interested: nat, acts: seq<Action>) returns (more: seq<Action>)
    requires GoodBuffer(buf)
    requires ValidRun(Init(n, buf, interested), acts) && ReservesFit(Init(n, buf, interested), acts)
    ensures var s := Final(Init(n, buf, interested), acts);
            && ValidRun(s, more) && Draining(more)
            && s.committed <= |s.log| && Publishes(more) == |s.log| - s.committed
            && Final(s, more).commitPos == s.reservePos == Final(s, more).reservePos
  {
    hide Inv;
    var s := Reached(n, buf, interested, acts);
    var t;
    more, t := Drain(s);
  }

  // ---------- Draining always ends ----------

  /** How many copies and publications a producer has before it. */
  function Work(p: Producer): nat {
    if p.pc.Writing? && p.pc.done <= |Content(p.pc.m, p.pc.pad)| then |Content(p.pc.m, p.pc.pad)| - p.pc.done + 1 else 0
  }

  lemma DrainStep(s: State, a: Action)
    requires Enabled(s, a) && (a.WriteByte? || a.Publish?)
    ensures Sum(Apply(s, a).producers, Work) + 1 == Sum(s.producers, Work)
  {
    hide Content, Sum;
    SumUpdate(s.producers, a.p, Apply(s, a).producers[a.p], Work);
  }

  /** In a state with something in flight its oldest owner can copy or publish. */
  lemma DrainMoves(s: State)
    requires Inv(s) && s.committed < |s.log|
    ensures exists a: Action :: (a.WriteByte? || a.Publish?) && Enabled(s, a)
  {
    hide AlignUp, PaddingFor, Content, Tiled, Bytewise, Reading, Snapshots, Histories;
    assert Owner(s, s.committed);
    var p := s.log[s.committed].p;
    assert Owned(s, p);
    WritingInside(s, p);
    PublishIsNext(s, p);
    var a := if s.producers[p].pc.done < |Content(s.producers[p].pc.m, s.producers[p].pc.pad)| then WriteByte(p) else Publish(p);
    assert Enabled(s, a);
  }

  /**
   However the producers take turns, each copy and each publication brings down the same count by one:
   no draining run is longer than that count, and one that cannot be continued has published
   everything that was in flight.
   */
  lemma {:induction false} DrainingEnds(s: State, acts: seq<Action>)
    requires Inv(s) && ValidRun(s, acts) && Draining(acts)
    ensures |acts| + Sum(Final(s, acts).producers, Work) == Sum(s.producers, Work)
    ensures s.committed <= |s.log| && Final(s, acts).log == s.log
    ensures Publishes(acts) <= |s.log| - s.committed
    ensures (forall a: Action :: a.WriteByte? || a.Publish? ==> !Enabled(Final(s, acts), a)) ==>
              Publishes(acts) == |s.log| - s.committed
              && Final(s, acts).commitPos == Final(s, acts).reservePos == s.reservePos
    decreases |acts|
  {
    hide Sum, Work, Apply, Enabled;
    DrainBounds(s);
    if acts == [] {
      if s.committed < |s.log| { DrainMoves(s); }
    } else {
      var a, t := acts[0], Apply(s, acts[0]);
      assert a.WriteByte? || a.Publish?;
      DrainStep(s, a);
      DrainKeeps(s, a);
      StepInv(s, a);
      assert Draining(acts[1..]);
      DrainingEnds(t, acts[1..]);
    }
  }

  lemma DrainBounds(s: State)
    requires Inv(s)
    ensures s.committed <= |s.log| && (s.committed == |s.log| ==> s.commitPos == s.reservePos)
  {
    hide AlignUp, PaddingFor, Content, Owners, Bytewise, Reading, Snapshots, Histories, Tile;
  }

  lemma DrainKeeps(s: State, a: Action)
    requires Enabled(s, a) && (a.WriteByte? || a.Publish?)
    ensures Apply(s, a).log == s.log && Apply(s, a).reservePos == s.reservePos
    ensures Apply(s, a).committed == s.committed + (if a.Publish? then 1 else 0)
  {
    hide Content;
  }

  // ---------- A whole send ----------

  /** Loading both positions when nobody interferes. */
  lemma LoadTrip(s: State, p: nat, m: Message) returns (acts: seq<Action>, t: State)
    requires Inv(s) && p < |s.producers| && s.producers[p].pc.Idle? && ValidMessage(m) && SizeOf(m) <= |s.buf|
    ensures Leads(s, acts, t) && Inv(t) && t == Go(s, p, GotBoth(m, s.readPos, s.reservePos))
  {
    hide AlignUp, PaddingFor, Content, Tiled, Owners, Bytewise, Reading, Snapshots, Histories, Admits;
    LeadsOne(s, Begin(p, m));
    StepInv(s, Begin(p, m));
    var s1 := Apply(s, Begin(p, m));
    LeadsStep(s, [Begin(p, m)], s1, LoadRead(p));
    StepInv(s1, LoadRead(p));
    var s2 := Apply(s1, LoadRead(p));
    LeadsStep(s, [Begin(p, m)] + [LoadRead(p)], s2, LoadReserve(p));
    StepInv(s2, LoadReserve(p));
    acts, t := [Begin(p, m)] + [LoadRead(p)] + [LoadReserve(p)], Apply(s2, LoadReserve(p));
  }

  /** The reservation a send makes when nothing is in flight. */
  lemma ReserveTrip(s: State, p: nat, m: Message) returns (acts: seq<Action>, t: State)
    requires Inv(s) && p < |s.producers| && s.producers[p].pc.Idle? && ValidMessage(m) && SizeOf(m) <= |s.buf|
    requires s.reservePos + Required(m, s.reservePos, |s.buf|) <= s.readPos + |s.buf|
    ensures Leads(s, acts, t) && Inv(t)
    ensures var pad := PaddingFor(s.reservePos, SizeOf(m), |s.buf|);
            t == Go(s, p, Writing(m, s.reservePos, pad, FirstWritten(pad), |s.log|)).(
                   reservePos := s.reservePos + pad + SizeOf(m),
                   log := s.log + [Reservation(p, m, s.reservePos, pad)], stream := t.stream)
  {
    hide AlignUp, PaddingFor, Content, Tiled, Owners, Bytewise, Reading, Snapshots, Histories, Admits;
    var mid;
    acts, mid := LoadTrip(s, p, m);
    AdmitsWithin(|s.buf|, s.readPos, s.reservePos, Required(m, s.reservePos, |s.buf|));
    LeadsStep(s, acts, mid, Reserve(p));
    StepInv(mid, Reserve(p));
    acts, t := acts + [Reserve(p)], Apply(mid, Reserve(p));
  }

  /** Copying and publishing the oldest range in flight. */
  lemma PublishTrip(s: State, p: nat) returns (acts: seq<Action>, t: State)
    requires Inv(s) && p < |s.producers| && s.producers[p].pc.Writing? && s.producers[p].pc.ticket == s.committed
    ensures Leads(s, acts, t) && Inv(t) && |t.buf| == |s.buf| > 0
    ensures var pc := s.producers[p].pc; var total := pc.pad + SizeOf(pc.m);
            && (forall a :: 0 <= a < |s.buf| && Outside(a, pc.begin, pc.pad, pc.done, total, |s.buf|) ==> t.buf[a] == s.buf[a])
            && t == s.(buf := t.buf, producers := s.producers[p := Producer(Idle, s.producers[p].sent + [pc.m])],
                       commitPos := pc.begin + total, committed := s.committed + 1)
  {
    hide AlignUp, PaddingFor, Content, Tiled, Bytewise, Reading, Snapshots, Histories, Outside;
    var mid;
    acts, mid := CopyRest(s, p);
    WritingInside(mid, p);
    PublishIsNext(mid, p);
    LeadsStep(s, acts, mid, Publish(p));
    StepInv(mid, Publish(p));
    acts, t := acts + [Publish(p)], Apply(mid, Publish(p));
    assert t.producers == s.producers[p := Producer(Idle, s.producers[p].sent + [s.producers[p].pc.m])];
  }

  /** One send from a state with nothing in flight: the message goes from producer p to the end of the queue. */
  lemma SendTrip(s: State, p: nat, m: Message) returns (acts: seq<Action>, t: State)
    requires Inv(s) && s.committed == |s.log| && p < |s.producers| && s.producers[p].pc.Idle?
    requires ValidMessage(m) && SizeOf(m) <= |s.buf|
    requires s.reservePos + Required(m, s.reservePos, |s.buf|) <= s.readPos + |s.buf|
    ensures Leads(s, acts, t) && Inv(t)
    ensures |t.buf| == |s.buf|
    ensures var pad := PaddingFor(s.reservePos, SizeOf(m), |s.buf|);
            forall a :: 0 <= a < |s.buf| && Outside(a, s.reservePos, pad, FirstWritten(pad), pad + SizeOf(m), |s.buf|) ==>
                          t.buf[a] == s.buf[a]
    ensures t == s.(buf := t.buf, stream := t.stream,
                    producers := s.producers[p := Producer(Idle, s.producers[p].sent + [m])],
                    reservePos := s.reservePos + Required(m, s.reservePos, |s.buf|),
                    commitPos := s.reservePos + Required(m, s.reservePos, |s.buf|),
                    log := s.log + [Reservation(p, m, s.reservePos, PaddingFor(s.reservePos, SizeOf(m), |s.buf|))],
                    committed := s.committed + 1)
  {
    hide AlignUp, PaddingFor, Content, Tiled, Owners, Bytewise, Reading, Snapshots, Histories, Outside;
    var mid, rest;
    acts, mid := ReserveTrip(s, p, m);
    rest, t := PublishTrip(mid, p);
    LeadsThen(s, acts, mid, rest, t);
    acts := acts + rest;
    assert t.producers == s.producers[p := Producer(Idle, s.producers[p].sent + [m])];
  }

  // ---------- A whole receive ----------

  lemma {:induction false} ReadHeader(s: State) returns (acts: seq<Action>, t: State)
    requires Inv(s) && s.consumer.CHeader? && |s.buf| > 0 && |s.buf| - s.consumer.read % |s.buf| >= HEADER
    ensures Leads(s, acts, t) && Inv(t)
    ensures t.consumer.CHeader? && |t.consumer.got| == HEADER && t == s.(consumer := s.consumer.(got := t.consumer.got))
    decreases HEADER - |s.consumer.got|
  {
    hide AlignUp, PaddingFor, Content, Tiled, Owners, Bytewise, Snapshots, Histories, Fetch;
    if |s.consumer.got| == HEADER {
      acts, t := [], s;
      assert ValidRun(s, acts);
    } else {
      StepInv(s, CReadHeader);
      LeadsOne(s, CReadHeader);
      var rest;
      rest, t := ReadHeader(Apply(s, CReadHeader));
      LeadsThen(s, [CReadHeader], Apply(s, CReadHeader), rest, t);
      acts := [CReadHeader] + rest;
    }
  }

  lemma {:induction false} ReadBody(s: State) returns (acts: seq<Action>, t: State)
    requires Inv(s) && s.consumer.CBody?
    ensures Leads(s, acts, t) && Inv(t)
    ensures t.consumer.CBody? && t == s.(consumer := s.consumer.(body := t.consumer.body))
    ensures CEnabled(t, CFinish)
    decreases s.consumer.size - |s.consumer.body|
  {
    hide AlignUp, PaddingFor, Content, Tiled, Owners, Bytewise, Snapshots, Histories, Fetch, Wanted;
    if !Wanted(s.consumer.typ, s.interested) || |s.consumer.body| == s.consumer.size {
      acts, t := [], s;
      assert ValidRun(s, acts);
    } else {
      StepInv(s, CReadBody);
      LeadsOne(s, CReadBody);
      var rest;
      rest, t := ReadBody(Apply(s, CReadBody));
      LeadsThen(s, [CReadBody], Apply(s, CReadBody), rest, t);
      acts := [CReadBody] + rest;
    }
  }

  /** The consumer loads both positions of a queue that is not empty. */
  lemma LoadTurn(s: State) returns (acts: seq<Action>, t: State)
    requires Inv(s) && s.consumer.CLoop? && s.consumed < s.committed
    ensures Leads(s, acts, t) && Inv(t)
    ensures t == s.(consumer := CHeader(s.readPos, s.commitPos, [], s.consumer.skips))
  {
    hide AlignUp, PaddingFor, Content, Tiled, Owners, Bytewise, Snapshots, Histories;
    LeadsOne(s, CLoadRead);
    StepInv(s, CLoadRead);
    var mid := Apply(s, CLoadRead);
    ReadBehind(s);
    LeadsStep(s, [CLoadRead], mid, CLoadCommit);
    StepInv(mid, CLoadCommit);
    acts, t := [CLoadRead] + [CLoadCommit], Apply(mid, CLoadCommit);
  }

  /** One turn of TryReceive's loop: over padding, or up to the parsed header of the message. */
  lemma ParseTurn(s: State) returns (acts: seq<Action>, t: State)
    requires Inv(s) && s.consumer.CLoop? && s.consumed < s.committed <= |s.log| && Skippable(s.log[s.consumed].pad)
    ensures Leads(s, acts, t) && Inv(t)
    ensures var r := s.log[s.consumed];
            if s.readPos == r.begin && r.pad > 0 then t == s.(readPos := r.begin + r.pad, consumer := CLoop(1))
            else t == s.(consumer := CBody(s.readPos, End(r), r.m.typ, |r.m.payload|, []))
  {
    hide AlignUp, PaddingFor, Content, Tiled, Owners, Bytewise, Snapshots, Histories, TypeIn, SizeIn, MessageSize, Positions, Reading,
         Skippable;
    var loaded, header, read;
    acts, loaded := LoadTurn(s);
    ShortTail(loaded);
    ReadBehind(s);
    if |s.buf| - s.readPos % |s.buf| < HEADER {
      StepInv(loaded, CShortTail);
      LeadsStep(s, acts, loaded, CShortTail);
      acts, t := acts + [CShortTail], Apply(loaded, CShortTail);
    } else {
      header, read := ReadHeader(loaded);
      LeadsThen(s, acts, loaded, header, read);
      ParseDecodes(read);
      StepInv(read, CParse);
      LeadsStep(s, acts + header, read, CParse);
      acts, t := acts + header + [CParse], Apply(read, CParse);
    }
  }

  /** The read position is at the first unread record, or at the message behind its padding. */
  lemma ReadBehind(s: State)
    requires Positions(s) && s.consumed < s.committed
    ensures var r := s.log[s.consumed];
            && s.readPos < s.commitPos && r.m.typ != PADDING
            && (s.readPos == r.begin || s.readPos == r.begin + r.pad)
  {
    hide AlignUp, PaddingFor, Content;
    assert Tile(s.log, s.stream, |s.buf|, s.consumed);
    TileShape(s.log, s.stream, |s.buf|, s.consumed);
    BoundsGrow(s.log, s.stream, |s.buf|, s.consumed + 1, s.committed);
  }

  lemma FinishTrip(s: State) returns (acts: seq<Action>, t: State)
    requires Inv(s) && s.consumer.CBody?
    ensures Leads(s, acts, t) && Inv(t) && s.consumed < s.committed
    ensures var m := s.log[s.consumed].m;
            t == s.(readPos := End(s.log[s.consumed]), consumer := CIdle, consumed := s.consumed + 1,
                    delivered := if Wanted(m.typ, s.interested) then s.delivered + [m] else s.delivered)
  {
    hide AlignUp, PaddingFor, Content, Tiled, Owners, Bytewise, Snapshots, Histories, Wanted;
    var mid;
    acts, mid := ReadBody(s);
    LeadsStep(s, acts, mid, CFinish);
    StepInv(mid, CFinish);
    acts, t := acts + [CFinish], Apply(mid, CFinish);
    var m := s.log[s.consumed].m;
    assert mid.consumer.body[..|mid.consumer.body|] == mid.consumer.body;
    assert m.payload[..|m.payload|] == m.payload;
  }

  /** One TryReceive on a non-empty queue: it jumps over padding if there is some, and consumes the head. */
  lemma ReceiveTrip(s: State) returns (acts: seq<Action>, t: State)
    requires Inv(s) && s.consumer.CIdle? && s.consumed < s.committed <= |s.log| && Skippable(s.log[s.consumed].pad)
    ensures Leads(s, acts, t) && Inv(t)
    ensures var m := s.log[s.consumed].m;
            t == s.(readPos := End(s.log[s.consumed]), consumer := CIdle, consumed := s.consumed + 1,
                    delivered := if Wanted(m.typ, s.interested) then s.delivered + [m] else s.delivered)
  {
    hide AlignUp, PaddingFor, Content, Tiled, Owners, Bytewise, Snapshots, Histories, Wanted, Skippable;
    LeadsOne(s, CBegin);
    StepInv(s, CBegin);
    var more, mid := ParseTurn(Apply(s, CBegin));
    LeadsThen(s, [CBegin], Apply(s, CBegin), more, mid);
    acts := [CBegin] + more;
    if mid.consumer.CLoop? {
      var again, next := ParseTurn(mid);
      LeadsThen(s, acts, mid, again, next);
      acts, mid := acts + again, next;
    }
    var last;
    last, t := FinishTrip(mid);
    LeadsThen(s, acts, mid, last, t);
    acts := acts + last;
  }
}
