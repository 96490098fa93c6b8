/** The three populations of game.js, their letters, the cyclic dominance rule
    used by the conversion pass, and the fixed target sets each kind steers by. */
module Kinds {

  import opened Wrappers

  /** Rock is the letter 'X', Scissors 'O', Paper 'A'. */
  datatype Kind = Rock | Scissors | Paper

  /** The letter the source stores in an entity's `letter` field. */
  function Letter(k: Kind): (c: char)
    ensures c == 'X' || c == 'O' || c == 'A'
  {
    match k
    case Rock => 'X'
    case Scissors => 'O'
    case Paper => 'A'
  }

  /** Reads a letter back; any other letter is not a kind. */
  function KindOfLetter(c: char): (r: Option<Kind>)
    ensures r.Some? <==> (c == 'X' || c == 'O' || c == 'A')
  {
    if c == 'X' then Some(Rock)
    else if c == 'O' then Some(Scissors)
    else if c == 'A' then Some(Paper)
    else None
  }

  lemma LetterRoundTrip(k: Kind)
    ensures KindOfLetter(Letter(k)) == Some(k)
  {
    match k
    case Rock =>
    case Scissors =>
    case Paper =>
  }

  /** The kind that `k` converts on contact: X converts O, O converts A, A converts X. */
  function Beats(k: Kind): (v: Kind)
    ensures v != k
  {
    match k
    case Rock => Scissors
    case Scissors => Paper
    case Paper => Rock
  }

  /** The kind that converts `k` on contact (the inverse of Beats). */
  function Predator(k: Kind): (p: Kind)
    ensures p != k
    ensures Beats(p) == k
  {
    match k
    case Rock => Paper
    case Scissors => Rock
    case Paper => Scissors
  }

  lemma PredatorOfBeats(k: Kind)
    ensures Predator(Beats(k)) == k
  {
  }

  /** The dominance relation is a three-cycle: no kind beats itself in fewer than three steps. */
  lemma DominanceIsCycle(k: Kind)
    ensures Beats(Beats(k)) != k
    ensures Beats(Beats(Beats(k))) == k
  {
  }

  /** The kinds whose snapshot lists an entity of kind `k` is steered away from,
      in the order the source concatenates them (Paper avoids `Os.concat(Xs)`). */
  function AvoidKinds(k: Kind): (r: seq<Kind>)
    ensures Predator(k) in r
    ensures k !in r
  {
    match k
    case Rock => [Paper]
    case Scissors => [Rock]
    case Paper => [Scissors, Rock]
  }

  /** The kind whose snapshot list an entity of kind `k` chases. */
  function ChaseKind(k: Kind): (r: Kind)
    ensures r == Beats(k)
  {
    match k
    case Rock => Scissors
    case Scissors => Paper
    case Paper => Rock
  }

  /** Rock and Scissors avoid exactly their predator; Paper also avoids Rock,
      the very kind it chases. */
  lemma AvoidanceAsymmetry(k: Kind)
    ensures k != Paper ==> AvoidKinds(k) == [Predator(k)]
    ensures k == Paper ==> AvoidKinds(k) == [Predator(k), ChaseKind(k)]
    ensures ChaseKind(k) in AvoidKinds(k) <==> k == Paper
  {
  }
}
