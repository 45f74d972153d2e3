// Runs of the pipeline built piece by piece: one worker sends whole jobs, the sequencer receives one result at a time.
module PipelineRuns {
  import opened Blocks
  import opened Fetching
  import opened SequencerModel
  import opened SequencerDrain
  import opened SequencerOrder
  import opened SequencerLedger
  import opened Pipeline

  /** What a worker that sends `emit(job)` for every job has sent after all of them. */
  ghost function AllItems(jobs: seq<Job>, emit: Job -> seq<Arrival>): seq<Arrival>
    decreases |jobs|
  {
    if jobs == [] then [] else emit(jobs[0]) + AllItems(jobs[1..], emit)
  }

  ghost predicate Emits(jobs: seq<Job>, emit: Job -> seq<Arrival>) {
    forall i :: 0 <= i < |jobs| ==> EmitsAll(jobs[i], emit(jobs[i]))
  }

  lemma {:induction false} AllItemsConcat(a: seq<Job>, b: seq<Job>, emit: Job -> seq<Arrival>)
    ensures AllItems(a + b, emit) == AllItems(a, emit) + AllItems(b, emit)
    decreases |a|
  {
    if a == [] {
      assert a + b == b;
    } else {
      assert (a + b)[1..] == a[1..] + b;
      AllItemsConcat(a[1..], b, emit);
    }
  }

  /** The results are for the heights from, from + 1, ..., one each. */
  ghost predicate InOrder(items: seq<Arrival>, from: int, to: int) {
    && |items| == to - from + 1
    && forall i :: 0 <= i < |items| ==> Clean(items[i]) && HeightOf(items[i]) == from + i
  }

  lemma TilesRest(jobs: seq<Job>, from: int, to: int)
    requires Tiles(jobs, from, to) && jobs != []
    ensures from <= jobs[0].end <= to && Tiles(jobs[1..], jobs[0].end + 1, to)
  {
    if |jobs| > 1 { TilesOrdered(jobs, from, to, 0, |jobs| - 1); }
  }

  lemma {:induction false} TiledItems(jobs: seq<Job>, emit: Job -> seq<Arrival>, from: int, to: int)
    requires Tiles(jobs, from, to) && Emits(jobs, emit) && from <= to + 1
    ensures InOrder(AllItems(jobs, emit), from, to)
    decreases |jobs|
  {
    if jobs != [] {
      TilesRest(jobs, from, to);
      assert EmitsAll(jobs[0], emit(jobs[0]));
      TiledItems(jobs[1..], emit, jobs[0].end + 1, to);
    }
  }

  lemma RunsOne(c: Config, start: int, end: int, p: Pipe, a: Action)
    requires Enabled(start, end, p, a)
    ensures Runs(c, start, end, p, [a], Apply(c, start, end, p, a))
  {
    assert Runs(c, start, end, Apply(c, start, end, p, a), [], Apply(c, start, end, p, a));
  }

  /** Whatever passes the gate sends what `emit` gives for its job. */
  ghost predicate SendsOnly(actions: seq<Action>, emit: Job -> seq<Arrival>) {
    forall i :: 0 <= i < |actions| && actions[i].Pass? ==> exists job :: actions[i].items == emit(job)
  }

  lemma SendsConcat(a: seq<Action>, b: seq<Action>, emit: Job -> seq<Arrival>)
    requires SendsOnly(a, emit) && SendsOnly(b, emit) && NoRefetch(a) && NoRefetch(b)
    ensures SendsOnly(a + b, emit) && NoRefetch(a + b)
  {
  }

  /** A worker sends everything it holds. */
  lemma {:induction false} EmitRest(c: Config, start: int, end: int, p: Pipe, w: nat)
    returns (actions: seq<Action>, q: Pipe)
    requires w < |p.workers| && p.workers[w].Sending? && p.workers[w].items != []
    ensures Runs(c, start, end, p, actions, q) && forall i :: 0 <= i < |actions| ==> actions[i].Emit?
    ensures q == p.(channel := p.channel + p.workers[w].items, workers := p.workers[w := Idle])
    decreases |p.workers[w].items|
  {
    var items := p.workers[w].items;
    var next := Apply(c, start, end, p, Emit(w));
    RunsOne(c, start, end, p, Emit(w));
    assert items == [items[0]] + items[1..];
    if items[1..] == [] {
      actions, q := [Emit(w)], next;
    } else {
      var more, r := EmitRest(c, start, end, next, w);
      RunsOn(c, start, end, p, [Emit(w)], next, more, r);
      actions, q := [Emit(w)] + more, r;
      assert p.channel + [items[0]] + items[1..] == p.channel + items;
    }
  }

  /** A worker takes the next job and sends all of it. */
  lemma ShipOne(c: Config, start: int, end: int, p: Pipe, w: nat, emit: Job -> seq<Arrival>)
    returns (actions: seq<Action>, q: Pipe)
    requires w < |p.workers| && p.workers[w].Idle? && p.jobs != [] && !p.sequencer.paused
    requires EmitsAll(p.jobs[0], emit(p.jobs[0]))
    ensures Runs(c, start, end, p, actions, q) && NoRefetch(actions) && SendsOnly(actions, emit)
    ensures q == p.(jobs := p.jobs[1..], channel := p.channel + emit(p.jobs[0]))
  {
    var items := emit(p.jobs[0]);
    var taken := Apply(c, start, end, p, Take(w));
    var passed := Apply(c, start, end, taken, Pass(w, items));
    RunsOne(c, start, end, p, Take(w));
    RunsOne(c, start, end, taken, Pass(w, items));
    RunsOn(c, start, end, p, [Take(w)], taken, [Pass(w, items)], passed);
    actions, q := [Take(w)] + [Pass(w, items)], passed;
    if items != [] {
      var more, r := EmitRest(c, start, end, passed, w);
      RunsOn(c, start, end, p, actions, passed, more, r);
      actions, q := actions + more, r;
    }
    assert q.workers == p.workers;
    assert q.channel == p.channel + items;
  }

  lemma RestEmits(jobs: seq<Job>, emit: Job -> seq<Arrival>)
    requires jobs != [] && Emits(jobs, emit)
    ensures EmitsAll(jobs[0], emit(jobs[0])) && Emits(jobs[1..], emit)
  {
  }

  lemma Regroup(a: seq<Arrival>, b: seq<Arrival>, d: seq<Arrival>)
    ensures a + b + d == a + (b + d)
  {
  }

  /** A worker takes and sends all jobs, one after the other. */
  lemma {:induction false} Ship(c: Config, start: int, end: int, p: Pipe, w: nat, emit: Job -> seq<Arrival>)
    returns (actions: seq<Action>, q: Pipe)
    requires w < |p.workers| && p.workers[w].Idle? && !p.sequencer.paused && Emits(p.jobs, emit)
    ensures Runs(c, start, end, p, actions, q) && NoRefetch(actions) && SendsOnly(actions, emit)
    ensures q == p.(jobs := [], channel := p.channel + AllItems(p.jobs, emit))
    decreases |p.jobs|
  {
    if p.jobs == [] {
      actions, q := [], p;
      assert p.channel + [] == p.channel;
    } else {
      RestEmits(p.jobs, emit);
      var sent, rest := emit(p.jobs[0]), AllItems(p.jobs[1..], emit);
      assert AllItems(p.jobs, emit) == sent + rest;
      hide *;
      Regroup(p.channel, sent, rest);
      var first, next := ShipOne(c, start, end, p, w, emit);
      var more, r := Ship(c, start, end, next, w, emit);
      RunsOn(c, start, end, p, first, next, more, r);
      SendsConcat(first, more, emit);
      actions, q := first + more, r;
    }
  }

  ghost predicate OnlyReceives(actions: seq<Action>) {
    forall i :: 0 <= i < |actions| ==> actions[i].Consume?
  }

  lemma ReceivesConcat(a: seq<Action>, b: seq<Action>)
    requires OnlyReceives(a) && OnlyReceives(b)
    ensures OnlyReceives(a + b) && NoRefetch(a + b)
  {
  }

  lemma NothingPasses(actions: seq<Action>, emit: Job -> seq<Arrival>)
    requires OnlyReceives(actions)
    ensures SendsOnly(actions, emit) && NoRefetch(actions)
  {
  }

  /** The sequencer receives the next result alone. */
  lemma ReceiveOne(c: Config, start: int, end: int, p: Pipe) returns (a: Action, q: Pipe)
    requires p.channel != [] && Clean(p.channel[0])
    ensures Runs(c, start, end, p, [a], q) && a.Consume?
    ensures q == p.(channel := p.channel[1..], sequencer := HandleBatch(c, p.sequencer, p.channel[..1]).0,
                    seen := p.seen + {HeightOf(p.channel[0])})
  {
    a := Consume(1, p.channel[..1]);
    RunsOne(c, start, end, p, a);
    q := Apply(c, start, end, p, a);
    assert AllClean(p.channel[..1]) && Heights(p.channel[..1]) == {HeightOf(p.channel[0])};
  }

  /** The sequencer receives the next n results one at a time. */
  lemma {:induction false} Receive(c: Config, start: int, end: int, p: Pipe, n: nat)
    returns (actions: seq<Action>, q: Pipe)
    requires n <= |p.channel| && AllClean(p.channel)
    ensures Runs(c, start, end, p, actions, q) && OnlyReceives(actions)
    ensures q.jobs == p.jobs && q.workers == p.workers && q.channel == p.channel[n..]
    ensures AllClean(p.channel[..n]) && q.seen == p.seen + Heights(p.channel[..n])
    decreases n
  {
    if n == 0 {
      actions, q := [], p;
      assert p.seen + Heights(p.channel[..0]) == p.seen;
    } else {
      assert p.channel[..n][1..] == p.channel[1..][..n - 1] && p.channel[1..][n - 1..] == p.channel[n..];
      HeightsFirst(p.channel[..n]);
      hide Runs;
      hide Heights;
      hide HandleBatch;
      var a, next := ReceiveOne(c, start, end, p);
      var more, r := Receive(c, start, end, next, n - 1);
      RunsOn(c, start, end, p, [a], next, more, r);
      actions, q := [a] + more, r;
    }
  }
}
