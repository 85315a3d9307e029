/** In-order queues: a log of enqueued commands and the order it enforces. */
module Streams {

  datatype Work<N> = Run(node: N) | Marker

  /** A command sits on one queue and carries the log positions it waits for. */
  datatype Command<N> = Command(queue: int, work: Work<N>, waits: seq<nat>)

  /** Command i is ordered before j by one rule of the runtime: queues run in order, and
      a command starts only after its wait list completes. */
  ghost predicate Direct<N>(log: seq<Command<N>>, i: int, j: int) {
    0 <= i < j < |log| && (log[i].queue == log[j].queue || i in log[j].waits)
  }

  /** Happens-before: the transitive closure of `Direct`. */
  ghost predicate Before<N>(log: seq<Command<N>>, i: int, j: int)
    decreases j
  {
    exists k :: i <= k < j && Direct(log, k, j) && (k == i || (0 <= k && Before(log, i, k)))
  }

  lemma BeforeDirect<N>(log: seq<Command<N>>, i: int, j: int)
    requires Direct(log, i, j)
    ensures Before(log, i, j)
  {
  }

  lemma {:induction false} BeforeThrough<N>(log: seq<Command<N>>, i: int, j: int, k: int)
    requires Before(log, i, j) && Before(log, j, k)
    ensures Before(log, i, k)
    decreases k
  {
    var m :| j <= m < k && Direct(log, m, k) && (m == j || (0 <= m && Before(log, j, m)));
    if m != j {
      BeforeThrough(log, i, j, m);
    }
    assert Before(log, i, m);
  }

  lemma {:induction false} BeforeStable<N>(log: seq<Command<N>>, longer: seq<Command<N>>, i: int, j: int)
    requires log <= longer && Before(log, i, j)
    ensures Before(longer, i, j)
    decreases j
  {
    var m :| i <= m < j && Direct(log, m, j) && (m == i || (0 <= m && Before(log, i, m)));
    if m != i {
      BeforeStable(log, longer, i, m);
    }
    assert Direct(longer, m, j);
  }
}
