/**
 * The random draws the simulation makes (`kotlin.random.Random`). Each draw is a
 * nondeterministic choice: whatever is proved about a caller holds for every outcome. Only the
 * certain cases of a draw are pinned down; the probabilities themselves are not modelled.
 */
module Random {

  /** `chance(p)`, i.e. `Random.nextFloat() < p`, with `p` given in thousandths. `nextFloat` lies
      in [0, 1), so a zero probability never hits and a probability of one always does. */
  method Chance(permille: nat) returns (hit: bool)
    ensures permille == 0 ==> !hit
    ensures permille >= 1000 ==> hit
  {
    if permille == 0 {
      hit := false;
    } else if permille >= 1000 {
      hit := true;
    } else {
      hit :| true;
    }
  }

  /** `Random.nextBoolean()`. */
  method NextBoolean() returns (b: bool)
  {
    b :| true;
  }

  /** `(lo..hi).random()`: a value of the closed range. */
  method Between(lo: int, hi: int) returns (v: int)
    requires lo <= hi
    ensures lo <= v <= hi
  {
    v :| lo <= v <= hi;
  }

  /** `list.random()`: an element of a non-empty list. */
  method Pick<T>(s: seq<T>) returns (e: T)
    requires |s| > 0
    ensures e in s
  {
    var k := Between(0, |s| - 1);
    e := s[k];
  }
}
