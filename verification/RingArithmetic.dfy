/** Positions of a ring and the cells they fall on. */
module RingArithmetic {

  /** Positions less than a lap apart fall on different cells. */
  lemma DistinctCells(capacity: nat, i: nat, j: nat)
    requires capacity > 0 && i < j < i + capacity
    ensures i % capacity != j % capacity
  {
    var turns := j / capacity - i / capacity;
    assert turns * capacity == (j - i) - (j % capacity - i % capacity);
    if turns > 0 {
      assert turns * capacity >= capacity;
    }
  }

  /** A lap of the ring leads back to the same cell. */
  lemma NextLap(capacity: nat, i: nat)
    requires capacity > 0
    ensures (i + capacity) % capacity == i % capacity
  {
    var turns := (i + capacity) / capacity - i / capacity;
    assert turns * capacity == capacity - ((i + capacity) % capacity - i % capacity);
    assert turns > 1 ==> turns * capacity >= 2 * capacity;
    assert turns < 1 ==> turns * capacity <= 0;
  }

  /** The position on the same cell in the lap that begins at `low`. */
  lemma {:induction false} InLap(capacity: nat, low: nat, position: nat) returns (p: nat)
    requires capacity > 0 && position < low + capacity
    ensures low <= p < low + capacity && p >= position && p % capacity == position % capacity
    ensures position < low ==> p >= position + capacity
    decreases low + capacity - position
  {
    p := position;
    if position < low {
      NextLap(capacity, position);
      p := InLap(capacity, low, position + capacity);
    }
  }
}
