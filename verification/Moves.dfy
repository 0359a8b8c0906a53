/** Steps forward and backward over a log. */
module Moves {

  datatype Move = Forward | Backward

  /** The moves stay within a log of `last` events. */
  ghost predicate Legal(moves: seq<Move>, n: nat, last: nat) {
    moves == [] ||
    if moves[0].Forward? then n < last && Legal(moves[1..], n + 1, last) else n > 0 && Legal(moves[1..], n - 1, last)
  }

  ghost function End(moves: seq<Move>, n: nat, last: nat): (r: nat)
    requires n <= last && Legal(moves, n, last)
    ensures r <= last
  {
    if moves == [] then n else End(moves[1..], if moves[0].Forward? then n + 1 else n - 1, last)
  }

  /** `k` moves of one kind, and then `tail`. */
  function Times(move: Move, k: nat, tail: seq<Move>): seq<Move> {
    if k == 0 then tail else [move] + Times(move, k - 1, tail)
  }

  lemma FirstOf(move: Move, k: nat, tail: seq<Move>)
    ensures k == 0 ==> Times(move, k, tail) == tail
    ensures k > 0 ==> var r := Times(move, k, tail); r != [] && r[0] == move && r[1..] == Times(move, k - 1, tail)
  {
  }

  lemma {:induction false} ForwardsThen(n: nat, k: nat, tail: seq<Move>, last: nat)
    requires n + k <= last && Legal(tail, n + k, last)
    ensures Legal(Times(Forward, k, tail), n, last)
    ensures End(Times(Forward, k, tail), n, last) == End(tail, n + k, last)
    decreases k
  {
    hide Times;
    FirstOf(Forward, k, tail);
    if k > 0 {
      ForwardsThen(n + 1, k - 1, tail, last);
    }
  }

  /** From `k` above `n` back to `n`. */
  lemma {:induction false} BackwardsThen(n: nat, k: nat, tail: seq<Move>, last: nat)
    requires n + k <= last && Legal(tail, n, last)
    ensures Legal(Times(Backward, k, tail), n + k, last)
    ensures End(Times(Backward, k, tail), n + k, last) == End(tail, n, last)
    decreases k
  {
    hide Times;
    FirstOf(Backward, k, tail);
    if k > 0 {
      BackwardsThen(n, k - 1, tail, last);
    }
  }
}
