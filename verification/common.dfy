/** What several components share. */
module Common {
  datatype Option<T> = None | Some(value: T)

  type Byte = x: int | 0 <= x < 256

  /** The place of a position counted from the head of a ring. */
  function RingIndex(head: nat, i: nat, cap: nat): (k: nat)
    requires head < cap && i < cap
    ensures k < cap
  {
    if head + i < cap then head + i else head + i - cap
  }

  lemma Wrap(head: nat, i: nat, cap: nat)
    requires head < cap && i < cap
    ensures (head + i) % cap == RingIndex(head, i, cap)
  {
    if head + i >= cap {
      Once(head + i - cap, cap);
    }
  }

  lemma Once(a: nat, m: nat)
    requires a < m
    ensures (a + m) % m == a
  {
    assert a + m == 1 * m + a;
  }
}
