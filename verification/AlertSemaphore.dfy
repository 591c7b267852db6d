/** The channel that bounds concurrent alert posts, under any interleaving of its goroutines. */
module AlertSemaphore {
  const MAX_CONCURRENT_ALERTS := 10

  datatype Pc = Blocked | Posting | Done

  /** `tokens` is the number of values in the channel; `posted` lists the posts begun, in order. */
  datatype State<G> = State(tokens: nat, pcs: map<G, Pc>, posted: seq<G>)

  datatype Step<G> = Spawn(g: G) | Acquire(g: G) | Release(g: G)

  function Init<G>(): State<G> {
    State(0, map[], [])
  }

  /** Sending to a full channel blocks; the deferred receive runs when the post returns. */
  predicate Enabled<G(==)>(s: State<G>, step: Step<G>) {
    match step
    case Spawn(g) => g !in s.pcs
    case Acquire(g) => g in s.pcs && s.pcs[g].Blocked? && s.tokens < MAX_CONCURRENT_ALERTS
    case Release(g) => g in s.pcs && s.pcs[g].Posting? && s.tokens > 0
  }

  function Next<G(==)>(s: State<G>, step: Step<G>): State<G> {
    if !Enabled(s, step) then s
    else
      match step
      case Spawn(g) => s.(pcs := s.pcs[g := Blocked])
      case Acquire(g) => State(s.tokens + 1, s.pcs[g := Posting], s.posted + [g])
      case Release(g) => s.(tokens := s.tokens - 1, pcs := s.pcs[g := Done])
  }

  function After<G(==)>(steps: seq<Step<G>>): State<G> {
    if steps == [] then Init() else Next(After(steps[..|steps| - 1]), steps[|steps| - 1])
  }

  function Running<G(==)>(s: State<G>): set<G> {
    set g <- s.pcs | s.pcs[g].Posting?
  }

  ghost predicate Inv<G>(s: State<G>) {
    && s.tokens == |Running(s)| <= MAX_CONCURRENT_ALERTS
    && (forall g <- s.posted :: g in s.pcs)
    && (forall g <- s.pcs :: g in s.posted <==> !s.pcs[g].Blocked?)
    && (forall i, j :: 0 <= i < j < |s.posted| ==> s.posted[i] != s.posted[j])
  }

  lemma SpawnKeeps<G>(s: State<G>, g: G)
    requires Inv(s) && g !in s.pcs
    ensures Inv(Next(s, Spawn(g)))
  {
    assert Running(Next(s, Spawn(g))) == Running(s);
  }

  lemma AcquireKeeps<G>(s: State<G>, g: G)
    requires Inv(s) && Enabled(s, Acquire(g))
    ensures Inv(Next(s, Acquire(g)))
  {
    assert Running(Next(s, Acquire(g))) == Running(s) + {g};
  }

  lemma ReleaseKeeps<G>(s: State<G>, g: G)
    requires Inv(s) && Enabled(s, Release(g))
    ensures Inv(Next(s, Release(g)))
  {
    assert Running(Next(s, Release(g))) == Running(s) - {g};
  }

  lemma NextKeeps<G>(s: State<G>, step: Step<G>)
    requires Inv(s)
    ensures Inv(Next(s, step))
  {
    if Enabled(s, step) {
      match step
      case Spawn(g) => SpawnKeeps(s, g);
      case Acquire(g) => AcquireKeeps(s, g);
      case Release(g) => ReleaseKeeps(s, g);
    }
  }

  lemma {:induction false} AlwaysInv<G>(steps: seq<Step<G>>)
    ensures Inv(After(steps))
  {
    if steps != [] {
      AlwaysInv(steps[..|steps| - 1]);
      NextKeeps(After(steps[..|steps| - 1]), steps[|steps| - 1]);
    }
  }

  /**
   In every interleaving at most ten posts run at once, and while fewer do any waiting one can start;
   the channel holds exactly one token per running post, each spawned alert is posted once and only
   once, and when all are done the channel is empty.
   */
  lemma Bounded<G>(steps: seq<Step<G>>)
    ensures var s := After(steps);
      && s.tokens == |Running(s)| <= 10
      && (forall g <- s.pcs :: s.pcs[g].Blocked? ==> (Enabled(s, Acquire(g)) <==> |Running(s)| < 10))
      && (forall g <- s.pcs :: g in s.posted <==> !s.pcs[g].Blocked?)
      && (forall i, j :: 0 <= i < j < |s.posted| ==> s.posted[i] != s.posted[j])
      && ((forall g <- s.pcs :: s.pcs[g].Done?) ==> s.tokens == 0)
  {
    AlwaysInv(steps);
    if forall g <- After(steps).pcs :: After(steps).pcs[g].Done? {
      assert Running(After(steps)) == {};
    }
  }

  /** No deadlock: while an alert is unfinished some goroutine can move. */
  lemma Progress<G>(steps: seq<Step<G>>, g: G)
    requires g in After(steps).pcs && !After(steps).pcs[g].Done?
    ensures exists h :: Enabled(After(steps), Acquire(h)) || Enabled(After(steps), Release(h))
  {
    AlwaysInv(steps);
    var s := After(steps);
    if s.pcs[g].Posting? {
      assert g in Running(s);
      assert Enabled(s, Release(g));
    } else if s.tokens < MAX_CONCURRENT_ALERTS {
      assert Enabled(s, Acquire(g));
    } else {
      var h :| h in Running(s);
      assert Enabled(s, Release(h));
    }
  }
}
