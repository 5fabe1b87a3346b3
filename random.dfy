/** `Math.random()` results enter the model as parameters; these predicates
    say that they lie where the host's generator puts them. */
module Random {

  predicate IsRandom(r: real) { 0.0 <= r < 1.0 }

  predicate AllRandom(rs: seq<real>)
  {
    forall i :: 0 <= i < |rs| ==> IsRandom(rs[i])
  }
}
