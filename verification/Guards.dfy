/** Predicates that are always true. A predicate whose body is guarded by one of them,
    `forall x {:trigger Opened(x)} :: Opened(x) ==> body`, says just what its body says; the prover
    looks into the body only where an instance, as in `assert Opened(true)`, is named. */
module Guards {

  predicate Opened(x: bool) {
    true
  }

  predicate Shown(x: bool) {
    true
  }

  predicate Bared(x: bool) {
    true
  }

  predicate Settled(x: bool) {
    true
  }
}
