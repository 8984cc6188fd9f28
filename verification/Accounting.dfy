/** The accounting quantum (src/producer/record_storage.cpp:107-114). */
module Accounting {

  const SIZE_MAX: nat := 0xFFFF_FFFF_FFFF_FFFF
  const QUANTUM: nat := 64
  const MAXIMUM_RECORD_BYTES: nat := 16384

  /** Bytes charged for a record: the serialized size rounded up to whole quanta, at least one;
      zero when rounding would overflow. */
  function AccountingCharge(serialized: nat): (charge: nat)
    ensures charge == 0 <==> serialized > SIZE_MAX - 63
    ensures charge != 0 ==> serialized <= charge && QUANTUM <= charge && charge % QUANTUM == 0
  {
    var bytes := if serialized > QUANTUM then serialized else QUANTUM;
    if bytes > SIZE_MAX - 63 then 0 else (bytes + 63) / 64 * 64
  }

  /** The charge is the least non-empty multiple of the quantum that covers the record. */
  lemma ChargeIsLeast(serialized: nat, multiple: nat)
    requires AccountingCharge(serialized) != 0
    requires multiple % QUANTUM == 0 && multiple > 0 && serialized <= multiple
    ensures AccountingCharge(serialized) <= multiple
  {
    var bytes := if serialized > QUANTUM then serialized else QUANTUM;
    assert (bytes + 63) / 64 <= multiple / 64;
  }

  lemma ChargeMonotone(a: nat, b: nat)
    requires a <= b && AccountingCharge(b) != 0
    ensures 0 < AccountingCharge(a) <= AccountingCharge(b)
  {
    ChargeIsLeast(a, AccountingCharge(b));
  }
}
