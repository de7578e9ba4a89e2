/**
 * The per-buffer sequence counters behind `NextSequenceNumber` (AR.Network/ARFrame.cs and,
 * separately, AR.App/Frame.cs). The source keeps them in a static dictionary; here that
 * dictionary is one `SequenceTable` object that every session holding it shares.
 */
module SequenceNumbers {
  import opened Bytes

  /** The table after one `NextSequenceNumber(buffer)`: absent counts as 0, then add one modulo 256. */
  function Advance(table: map<int, byte>, buffer: int): (t: map<int, byte>)
    ensures buffer in t && t[buffer] == (if buffer in table then (table[buffer] as int + 1) % 256 else 1)
    ensures t.Keys == table.Keys + {buffer}
    ensures forall b :: b in table && b != buffer ==> t[b] == table[b]
  {
    var current: int := if buffer in table then table[buffer] else 0;
    table[buffer := (current + 1) % 256]
  }

  /** The table after `n` calls for the same buffer. */
  function AdvanceTimes(table: map<int, byte>, buffer: int, n: nat): map<int, byte>
  {
    if n == 0 then table else Advance(AdvanceTimes(table, buffer, n - 1), buffer)
  }

  /**
   * Starting from a buffer never used, the `n`-th call returns `n mod 256`: 1, 2, ..., 255, 0, 1, ...
   * Other buffers' counters are untouched.
   */
  lemma {:induction false} CountsModulo256(table: map<int, byte>, buffer: int, n: nat)
    requires buffer !in table && n > 0
    ensures buffer in AdvanceTimes(table, buffer, n)
    ensures AdvanceTimes(table, buffer, n)[buffer] == n % 256
  {
    if n > 1 {
      CountsModulo256(table, buffer, n - 1);
      var before := AdvanceTimes(table, buffer, n - 1);
      assert before[buffer] == (n - 1) % 256;
      SuccessorModulo256(n - 1);
    }
  }

  lemma SuccessorModulo256(k: nat)
    ensures (k % 256 + 1) % 256 == (k + 1) % 256
  {
  }

  /** Counters of different buffers are independent: calls for `buffer` leave every other key alone. */
  lemma {:induction false} OtherBuffersUntouched(table: map<int, byte>, buffer: int, n: nat, other: int)
    requires other in table && other != buffer
    ensures other in AdvanceTimes(table, buffer, n) && AdvanceTimes(table, buffer, n)[other] == table[other]
  {
    if n > 0 {
      OtherBuffersUntouched(table, buffer, n - 1, other);
    }
  }

  /** The static `_currentSequenceNumber` dictionary. */
  class SequenceTable {
    var current: map<int, byte>

    /** The empty table of a freshly loaded class. */
    constructor ()
      ensures current == map[]
    {
      current := map[];
    }

    /** `NextSequenceNumber(buffer)`. */
    method Next(buffer: int) returns (n: byte)
      modifies this
      ensures current == Advance(old(current), buffer)
      ensures n == current[buffer]
      ensures n == (if buffer in old(current) then (old(current)[buffer] as int + 1) % 256 else 1)
    {
      if buffer !in current {
        current := current[buffer := 0];
      }
      current := current[buffer := (current[buffer] as int + 1) % 256];
      n := current[buffer];
    }
  }
}
