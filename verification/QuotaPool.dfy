/** The quota refresh: a feeder, workers and one collector over channels (internal/app/quota.go). */
module QuotaPool {
  import opened Model

  // ----- the worker pool -----

  const MAX_WORKERS := 8

  datatype Worker = Waiting | Fetching(item: nat) | Exited

  /**
   n items are handed out in order over an unbuffered channel; `results` is the buffered
   channel between the workers and the collector, `collected` what the collector has seen.
   */
  datatype Pool = Pool(n: nat, handed: nat, jobsClosed: bool, workers: seq<Worker>,
                       results: seq<nat>, resultsClosed: bool, collected: seq<nat>)

  datatype Move = Hand(w: nat) | Finish(w: nat) | CloseJobs | Exit(w: nat) | CloseResults | Collect

  function Start(n: nat): Pool {
    Pool(n, 0, false, seq(if n < MAX_WORKERS then n else MAX_WORKERS, _ => Waiting), [], false, [])
  }

  predicate AllExited(p: Pool) { forall w | 0 <= w < |p.workers| :: p.workers[w] == Exited }

  function Moved(p: Pool, move: Move): Option<Pool> {
    match move
    case Hand(w) =>
      if w < |p.workers| && p.workers[w] == Waiting && p.handed < p.n
      then Some(p.(workers := p.workers[w := Fetching(p.handed)], handed := p.handed + 1)) else None
    case Finish(w) =>
      if w < |p.workers| && p.workers[w].Fetching?
      then Some(p.(workers := p.workers[w := Waiting], results := p.results + [p.workers[w].item])) else None
    case CloseJobs =>
      if p.handed == p.n && !p.jobsClosed then Some(p.(jobsClosed := true)) else None
    case Exit(w) =>
      if w < |p.workers| && p.workers[w] == Waiting && p.jobsClosed
      then Some(p.(workers := p.workers[w := Exited])) else None
    case CloseResults =>
      if p.jobsClosed && AllExited(p) && !p.resultsClosed then Some(p.(resultsClosed := true)) else None
    case Collect =>
      if p.results != [] then Some(p.(results := p.results[1..], collected := p.collected + [p.results[0]])) else None
  }

  /** The collector's loop has ended. */
  predicate Finished(p: Pool) { p.resultsClosed && p.results == [] }

  /** How many workers are fetching item i. */
  function InFlight(workers: seq<Worker>, i: nat): nat {
    if workers == [] then 0
    else InFlight(workers[..|workers| - 1], i) + if workers[|workers| - 1] == Fetching(i) then 1 else 0
  }

  function Times(s: seq<nat>, i: nat): nat { multiset(s)[i] }

  /** In how many places item i is, counting repetitions. */
  function Places(p: Pool, i: nat): nat {
    Times(p.collected, i) + Times(p.results, i) + InFlight(p.workers, i)
  }

  /** Every item handed out so far is in exactly one place, once. */
  ghost predicate PoolInv(p: Pool) {
    && p.handed <= p.n
    && (forall i: nat :: Places(p, i) == if i < p.handed then 1 else 0)
    && (p.jobsClosed ==> p.handed == p.n)
    && (p.resultsClosed ==> p.jobsClosed && AllExited(p))
    && (forall w | 0 <= w < |p.workers| && p.workers[w] == Exited :: p.jobsClosed)
    && (p.n > 0 ==> p.workers != [])
  }

  lemma {:induction false} InFlightUpdate(workers: seq<Worker>, w: nat, to: Worker, i: nat)
    requires w < |workers|
    ensures InFlight(workers[w := to], i) + (if workers[w] == Fetching(i) then 1 else 0)
         == InFlight(workers, i) + (if to == Fetching(i) then 1 else 0)
  {
    var last := |workers| - 1;
    if w == last {
      assert workers[w := to][..last] == workers[..last];
    } else {
      assert workers[w := to][..last] == workers[..last][w := to];
      InFlightUpdate(workers[..last], w, to, i);
    }
  }

  lemma {:induction false} NothingInFlight(workers: seq<Worker>, i: nat)
    requires forall w | 0 <= w < |workers| :: workers[w] != Fetching(i)
    ensures InFlight(workers, i) == 0
  {
    if workers != [] {
      NothingInFlight(workers[..|workers| - 1], i);
    }
  }

  lemma StartIsGood(n: nat)
    ensures PoolInv(Start(n)) && |Start(n).workers| == (if n <= 8 then n else 8)
  {
    forall i: nat ensures Places(Start(n), i) == 0 {
      NothingInFlight(Start(n).workers, i);
    }
  }

  lemma TimesAppend(s: seq<nat>, x: nat, i: nat)
    ensures Times(s + [x], i) == Times(s, i) + if x == i then 1 else 0
  {
  }

  lemma PlacesAfter(p: Pool, move: Move, i: nat)
    requires PoolInv(p) && Moved(p, move).Some?
    ensures var q := Moved(p, move).value; Places(q, i) == if i < q.handed then 1 else 0
  {
    var q := Moved(p, move).value;
    assert Places(p, i) == if i < p.handed then 1 else 0;
    match move {
      case Hand(w) => InFlightUpdate(p.workers, w, Fetching(p.handed), i);
      case Finish(w) =>
        InFlightUpdate(p.workers, w, Waiting, i);
        TimesAppend(p.results, p.workers[w].item, i);
      case Exit(w) => InFlightUpdate(p.workers, w, Exited, i);
      case Collect =>
        assert p.results == [p.results[0]] + q.results;
        TimesAppend(p.collected, p.results[0], i);
      case _ =>
    }
  }

  lemma MoveKeepsPool(p: Pool, move: Move)
    requires PoolInv(p) && Moved(p, move).Some?
    ensures PoolInv(Moved(p, move).value)
    ensures |Moved(p, move).value.workers| == |p.workers| && Moved(p, move).value.n == p.n
  {
    forall i: nat ensures var q := Moved(p, move).value; Places(q, i) == if i < q.handed then 1 else 0 {
      PlacesAfter(p, move, i);
    }
  }

  function UpTo(n: nat): (r: multiset<nat>)
    ensures forall i: nat :: r[i] == if i < n then 1 else 0
    ensures |r| == n
  {
    if n == 0 then multiset{} else UpTo(n - 1) + multiset{n - 1}
  }

  /** The results channel has room for every item, so a worker never waits to deliver. */
  lemma ResultsFit(p: Pool)
    requires PoolInv(p)
    ensures |p.results| <= p.n
  {
    forall i: nat ensures multiset(p.results)[i] <= UpTo(p.handed)[i] {
      assert Places(p, i) == if i < p.handed then 1 else 0;
      assert Times(p.results, i) == multiset(p.results)[i];
    }
    assert multiset(p.results) <= UpTo(p.handed);
    assert UpTo(p.handed) == multiset(p.results) + (UpTo(p.handed) - multiset(p.results));
  }

  /** How much is left to do: a quantity every move lowers. */
  function Left(p: Pool): int {
    3 * (p.n - p.handed) + Pending(p.workers) + |p.results| + (if p.jobsClosed then 0
        else 1) + (if p.resultsClosed then 0 else 1)
  }

  function Pending(workers: seq<Worker>): nat {
    if workers == [] then 0
    else Pending(workers[..|workers| - 1])
         + match workers[|workers| - 1] case Fetching(_) => 3 case Waiting => 1 case Exited => 0
  }

  lemma {:induction false} PendingUpdate(workers: seq<Worker>, w: nat, to: Worker)
    requires w < |workers|
    ensures Pending(workers[w := to]) + (match workers[w] case Fetching(_) => 3 case Waiting => 1 case Exited => 0)
         == Pending(workers) + (match to case Fetching(_) => 3 case Waiting => 1 case Exited => 0)
  {
    var last := |workers| - 1;
    if w == last {
      assert workers[w := to][..last] == workers[..last];
    } else {
      assert workers[w := to][..last] == workers[..last][w := to];
      PendingUpdate(workers[..last], w, to);
    }
  }

  /** The collector always terminates: every move gets closer to the end. */
  lemma MoveGetsCloser(p: Pool, move: Move)
    requires PoolInv(p) && Moved(p, move).Some?
    ensures 0 <= Left(Moved(p, move).value) < Left(p)
  {
    MoveKeepsPool(p, move);
    match move
    case Hand(w) => PendingUpdate(p.workers, w, Fetching(p.handed));
    case Finish(w) => PendingUpdate(p.workers, w, Waiting);
    case Exit(w) => PendingUpdate(p.workers, w, Exited);
    case _ =>
  }

  /** And it never gets stuck: until the collector is done, some move is possible. */
  lemma SomeMoveIsPossible(p: Pool) returns (move: Move)
    requires PoolInv(p) && !Finished(p)
    ensures Moved(p, move).Some?
  {
    if p.results != [] {
      return Collect;
    }
    if w :| 0 <= w < |p.workers| && p.workers[w].Fetching? {
      return Finish(w);
    }
    if p.handed < p.n {
      assert p.workers[0] == Waiting;
      return Hand(0);
    }
    if !p.jobsClosed {
      return CloseJobs;
    }
    if w :| 0 <= w < |p.workers| && p.workers[w] == Waiting {
      return Exit(w);
    }
    return CloseResults;
  }

  /** When the collector is done, it has seen every item exactly once. */
  lemma FinishedSawEverything(p: Pool)
    requires PoolInv(p) && Finished(p)
    ensures multiset(p.collected) == UpTo(p.n)
  {
    forall i: nat ensures multiset(p.collected)[i] == UpTo(p.n)[i] {
      NothingInFlight(p.workers, i);
      assert Places(p, i) == if i < p.handed then 1 else 0;
      assert Times(p.collected, i) == multiset(p.collected)[i];
    }
  }

  function Play(p: Pool, moves: seq<Move>): Option<Pool> {
    if moves == [] then Some(p)
    else
      match Play(p, moves[..|moves| - 1])
      case None => None
      case Some(q) => Moved(q, moves[|moves| - 1])
  }

  lemma {:induction false} PlayKeepsPool(n: nat, moves: seq<Move>)
    requires Play(Start(n), moves).Some?
    ensures var p := Play(Start(n), moves).value;
            PoolInv(p) && p.n == n && |p.workers| <= 8 && |moves| + Left(p) <= Left(Start(n))
  {
    if moves == [] {
      StartIsGood(n);
    } else {
      PlayKeepsPool(n, moves[..|moves| - 1]);
      var q := Play(Start(n), moves[..|moves| - 1]).value;
      MoveKeepsPool(q, moves[|moves| - 1]);
      MoveGetsCloser(q, moves[|moves| - 1]);
    }
  }
}
