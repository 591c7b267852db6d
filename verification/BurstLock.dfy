/**
 The burst buffer under its mutex. Any number of goroutines add and drain; an operation is
 five steps (request, lock, read the slice, write the slice, unlock) and a schedule is any
 interleaving of the steps of all of them.
 */
module BurstLock {
  import opened Text
  import opened Seqs

  datatype Op<T> = Add(item: T) | Drain

  datatype Pc<T> =
    | Idle
    | Requested(op: Op<T>)
    | Locked(op: Op<T>)
    | Read(op: Op<T>, seen: seq<T>)   // holds its own copy of the slice
    | Written(op: Op<T>, out: seq<T>) // `out` is what the operation returns

  /** `added` lists the items in the order of the adds' writes, `batches` what the drains took. */
  datatype State<T> = State(holder: Option<nat>, items: seq<T>, pcs: map<nat, Pc<T>>,
                            added: seq<T>, batches: seq<seq<T>>)

  datatype Step<T> = Request(t: nat, op: Op<T>) | Lock(t: nat) | ReadSlice(t: nat) | WriteSlice(t: nat) | Unlock(t: nat)

  function PcOf<T>(s: State<T>, t: nat): Pc<T> {
    if t in s.pcs then s.pcs[t] else Idle
  }

  function Init<T>(): State<T> {
    State(None, [], map[], [], [])
  }

  /** One step of one goroutine; a step it is not ready for, or blocked in, does nothing. */
  function Next<T>(s: State<T>, step: Step<T>): State<T> {
    var pc := PcOf(s, step.t);
    match step
    case Request(t, op) => if pc.Idle? then s.(pcs := s.pcs[t := Requested(op)]) else s
    case Lock(t) =>
      if pc.Requested? && s.holder == None then s.(holder := Some(t), pcs := s.pcs[t := Locked(pc.op)]) else s
    case ReadSlice(t) => if pc.Locked? then s.(pcs := s.pcs[t := Read(pc.op, s.items)]) else s
    case WriteSlice(t) =>
      if !pc.Read? then s
      else if pc.op.Add? then
        s.(items := pc.seen + [pc.op.item], added := s.added + [pc.op.item], pcs := s.pcs[t := Written(pc.op, [])])
      else
        s.(items := [], batches := s.batches + [pc.seen], pcs := s.pcs[t := Written(pc.op, pc.seen)])
    case Unlock(t) => if pc.Written? then s.(holder := None, pcs := s.pcs[t := Idle]) else s
  }

  function After<T>(steps: seq<Step<T>>): State<T> {
    if steps == [] then Init() else Next(After(steps[..|steps| - 1]), steps[|steps| - 1])
  }

  ghost predicate Critical<T>(pc: Pc<T>) {
    pc.Locked? || pc.Read? || pc.Written?
  }

  ghost predicate PcOk<T>(s: State<T>, t: nat) {
    var pc := PcOf(s, t);
    && (Critical(pc) <==> s.holder == Some(t))
    && (pc.Read? ==> pc.seen == s.items)
    && (pc.Written? && pc.op.Drain? ==> s.batches != [] && s.batches[|s.batches| - 1] == pc.out && s.items == [])
  }

  ghost predicate Inv<T>(s: State<T>) {
    && (forall t: nat :: PcOk(s, t))
    && Concat(s.batches) + s.items == s.added
  }

  lemma NextKeeps<T>(s: State<T>, step: Step<T>)
    requires Inv(s)
    ensures Inv(Next(s, step))
  {
    var s', t := Next(s, step), step.t;
    assert PcOk(s, t);
    forall u: nat ensures PcOk(s', u) {
      assert PcOk(s, u);
    }
    if step.WriteSlice? && PcOf(s, t).Read? && PcOf(s, t).op.Drain? {
      assert s'.batches[..|s.batches|] == s.batches;
      assert Concat(s'.batches) == Concat(s.batches) + s.items;
    }
  }

  /** A step moves its own goroutine only, and the slice only when it writes. */
  lemma Sideways<T>(s: State<T>, step: Step<T>)
    ensures forall u: nat :: u != step.t ==> PcOf(Next(s, step), u) == PcOf(s, u)
    ensures !(step.WriteSlice? && PcOf(s, step.t).Read?) ==> Next(s, step).items == s.items
  {
  }

  lemma {:induction false} AlwaysInv<T>(steps: seq<Step<T>>)
    ensures Inv(After(steps))
  {
    if steps != [] {
      AlwaysInv(steps[..|steps| - 1]);
      NextKeeps(After(steps[..|steps| - 1]), steps[|steps| - 1]);
    }
  }

  /**
   In every interleaving: the batches taken so far, then the buffer, are the added items in order
   (none lost, none twice); at most one goroutine is in its critical section; and what a drain
   returns is the batch it took.
   */
  lemma NothingLost<T>(steps: seq<Step<T>>)
    ensures var s := After(steps);
      && Concat(s.batches) + s.items == s.added
      && (forall t: nat, u: nat :: Critical(PcOf(s, t)) && Critical(PcOf(s, u)) ==> t == u)
      && (forall t: nat :: PcOf(s, t).Written? && PcOf(s, t).op.Drain? ==>
            s.batches != [] && PcOf(s, t).out == s.batches[|s.batches| - 1])
  {
    AlwaysInv(steps);
    var s := After(steps);
    forall t: nat, u: nat | Critical(PcOf(s, t)) && Critical(PcOf(s, u)) ensures t == u {
      assert PcOk(s, t) && PcOk(s, u);
    }
    forall t: nat | PcOf(s, t).Written? && PcOf(s, t).op.Drain?
      ensures s.batches != [] && PcOf(s, t).out == s.batches[|s.batches| - 1]
    {
      assert PcOk(s, t);
    }
  }

  // ----- the critical sections as atomic operations

  function EffectAt<T>(s: State<T>, step: Step<T>): seq<Op<T>> {
    var pc := PcOf(s, step.t);
    if step.WriteSlice? && pc.Read? then [pc.op] else []
  }

  /** The operations in the order in which they write the slice. */
  function Effects<T>(steps: seq<Step<T>>): seq<Op<T>> {
    if steps == [] then []
    else Effects(steps[..|steps| - 1]) + EffectAt(After(steps[..|steps| - 1]), steps[|steps| - 1])
  }

  /** A buffer on which operations act atomically, and the batches that its drains return. */
  function Items<T>(ops: seq<Op<T>>): seq<T> {
    if ops == [] then []
    else
      match ops[|ops| - 1]
      case Add(item) => Items(ops[..|ops| - 1]) + [item]
      case Drain => []
  }

  function Batches<T>(ops: seq<Op<T>>): seq<seq<T>> {
    if ops == [] then []
    else
      var before := ops[..|ops| - 1];
      Batches(before) + if ops[|ops| - 1].Drain? then [Items(before)] else []
  }

  lemma NextEffect<T>(s: State<T>, step: Step<T>)
    requires Inv(s)
    ensures var s', ops := Next(s, step), EffectAt(s, step);
      if ops == [] then s'.items == s.items && s'.batches == s.batches
      else if ops[0].Drain? then s'.items == [] && s'.batches == s.batches + [s.items]
      else s'.items == s.items + [ops[0].item] && s'.batches == s.batches
  {
    assert PcOk(s, step.t);
  }

  lemma OneMoreOp<T>(ops: seq<Op<T>>, op: Op<T>)
    ensures Items(ops + [op]) == if op.Drain? then [] else Items(ops) + [op.item]
    ensures Batches(ops + [op]) == Batches(ops) + if op.Drain? then [Items(ops)] else []
  {
    assert (ops + [op])[..|ops|] == ops;
  }

  /** Every interleaving acts as its operations do one by one, in the order of their writes. */
  lemma {:induction false} Linearizable<T>(steps: seq<Step<T>>)
    ensures After(steps).items == Items(Effects(steps))
    ensures After(steps).batches == Batches(Effects(steps))
  {
    if steps != [] {
      var before, step := steps[..|steps| - 1], steps[|steps| - 1];
      var ops, more := Effects(before), EffectAt(After(before), step);
      Linearizable(before);
      AlwaysInv(before);
      NextEffect(After(before), step);
      if more == [] {
        assert ops + more == ops;
      } else {
        OneMoreOp(ops, more[0]);
      }
    }
  }
}
