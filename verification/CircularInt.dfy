/** Wrap-around comparison of 32-bit counters (cotamer/circular_int.hh:134-147). */
module CircularInt {
  const WORD := 0x1_0000_0000
  const HALF := 0x8000_0000

  function Wrap(x: int): (r: nat)
    ensures r < WORD
  {
    x % WORD
  }

  /** `a < b`: the 32-bit difference a - b, read as a signed number, is negative. */
  predicate Less(a: nat, b: nat) {
    a != b && Wrap(a - b) >= HALF
  }

  /** How many increments ago the counter, now at `now`, stood at `x`. */
  function Age(now: nat, x: nat): nat {
    Wrap(now - x)
  }

  lemma WrapUnique(x: int, r: int, k: int)
    requires 0 <= r < WORD && x == k * WORD + r
    ensures Wrap(x) == r
  {
  }

  /** Numbers handed out less than half a cycle ago compare in the order they were handed out. */
  lemma LessIsOlder(now: nat, a: nat, b: nat)
    requires now < WORD && a < WORD && b < WORD
    requires Age(now, a) < HALF && Age(now, b) < HALF
    ensures Less(a, b) <==> Age(now, a) > Age(now, b)
    ensures a == b <==> Age(now, a) == Age(now, b)
  {
    var p, q := Age(now, a), Age(now, b);
    var i := if now >= a then 0 else -1;
    var j := if now >= b then 0 else -1;
    WrapUnique(now - a, now - a - i * WORD, i);
    WrapUnique(now - b, now - b - j * WORD, j);
    assert a - b == q - p + (j - i) * WORD;
    if q >= p {
      WrapUnique(a - b, q - p, j - i);
    } else {
      WrapUnique(a - b, q - p + WORD, j - i - 1);
    }
  }

  /** One more increment makes everything one older, and the new number has age zero. */
  lemma Ages(now: nat, x: nat)
    requires now < WORD && x < WORD && Age(now, x) + 1 < WORD
    ensures Age(Wrap(now + 1), x) == Age(now, x) + 1
    ensures Age(Wrap(now + 1), Wrap(now + 1)) == 0
  {
    var next := Wrap(now + 1);
    var i := if now >= x then 0 else -1;
    WrapUnique(now - x, now - x - i * WORD, i);
    var c := if now + 1 == WORD then 1 else 0;
    WrapUnique(now + 1, now + 1 - c * WORD, c);
    assert next - x == (i - c) * WORD + (Age(now, x) + 1);
    WrapUnique(next - x, Age(now, x) + 1, i - c);
  }

  /** The bound of half a cycle is exact: a number handed out up to then compares before the next one, and the
      next one not before it, exactly while it is younger than that. */
  lemma HalfCycleIsExact(now: nat, x: nat)
    requires now < WORD && x < WORD && Age(now, x) < HALF
    ensures var next := Wrap(now + 1); Less(x, next) && !Less(next, x) <==> Age(now, x) + 1 < HALF
  {
    Ages(now, x);
    var next, age := Wrap(now + 1), Age(now, x) + 1;
    var i := if next >= x then 0 else -1;
    WrapUnique(next - x, next - x - i * WORD, i);
    WrapUnique(x - next, WORD - age, -1 - i);
  }
}
