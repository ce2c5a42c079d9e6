/** Random draws made explicit. Level generation consumes a supply of draws in the order the
    game calls `random.randint`; a draw of `d` from `randint(lo, hi)` yields `lo + d % (hi-lo+1)`,
    so every value the range allows is reachable. Generation fails when a range is empty (the
    game's `randint` raises) or when the supply runs out (the game's rejection loops would keep
    drawing). */
module Draws {

  datatype GenError =
    | EmptyRange   // randint called with lo > hi
    | NoRooms      // spawning into a level without rooms (rooms[0] on an empty list)
    | OutOfDraws   // the supply of draws is exhausted

  datatype Result<T> = Ok(value: T) | Err(error: GenError) {
    predicate IsFailure() { Err? }

    function PropagateFailure<U>(): Result<U>
      requires Err?
    {
      Err(error)
    }

    function Extract(): T
      requires Ok?
    {
      value
    }
  }

  /** One `randint(lo, hi)`: the value and the remaining supply. */
  function Draw(draws: seq<nat>, lo: int, hi: int): (r: Result<(int, seq<nat>)>)
    ensures lo > hi <==> r == Err(EmptyRange)
    ensures r == Err(OutOfDraws) <==> lo <= hi && |draws| == 0
    ensures r.Ok? ==> |draws| > 0 && lo <= r.value.0 <= hi && r.value.1 == draws[1..]
  {
    if lo > hi then Err(EmptyRange)
    else if |draws| == 0 then Err(OutOfDraws)
    else Ok((lo + draws[0] % (hi - lo + 1), draws[1..]))
  }

  /** Every value of a non-empty range is produced by some draw: the model loses none of the
      outcomes the game's generator can produce. */
  lemma DrawReachesEveryValue(lo: int, hi: int, v: int, rest: seq<nat>)
    requires lo <= v <= hi
    ensures Draw([v - lo] + rest, lo, hi) == Ok((v, rest))
  {
    assert ([v - lo] + rest)[1..] == rest;
  }

  /** `rest` is what is left of `draws` after some prefix has been consumed. */
  predicate SuffixOf(rest: seq<nat>, draws: seq<nat>) {
    |rest| <= |draws| && draws[|draws| - |rest|..] == rest
  }

  lemma SuffixTransitive(a: seq<nat>, b: seq<nat>, c: seq<nat>)
    requires SuffixOf(a, b) && SuffixOf(b, c)
    ensures SuffixOf(a, c)
  {
    assert c[|c| - |a|..] == c[|c| - |b|..][|b| - |a|..];
  }

  lemma DrawConsumesOne(draws: seq<nat>, lo: int, hi: int)
    requires Draw(draws, lo, hi).Ok?
    ensures SuffixOf(Draw(draws, lo, hi).value.1, draws)
    ensures |Draw(draws, lo, hi).value.1| == |draws| - 1
  {
  }
}
