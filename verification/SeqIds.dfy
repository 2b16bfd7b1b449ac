/** The wrapping sequence-id counter of a backend connection. */
module SeqIds {

  import opened ThriftMessage

  const BACKEND_CONN_MIN_SEQ_ID: int32 := 1
  const BACKEND_CONN_MAX_SEQ_ID: int32 := 100000

  /** The range the counter is meant to stay in. */
  type SeqId = x: int32 | BACKEND_CONN_MIN_SEQ_ID <= x <= BACKEND_CONN_MAX_SEQ_ID witness 1

  /** `IncreaseCurrentSeqId`. */
  function NextId(current: SeqId): (next: SeqId)
  {
    if current + 1 > BACKEND_CONN_MAX_SEQ_ID then BACKEND_CONN_MIN_SEQ_ID else current + 1
  }

  /** The counter after `n` increases from its initial value. */
  function Counter(n: nat): (id: SeqId)
  {
    if n == 0 then BACKEND_CONN_MIN_SEQ_ID else NextId(Counter(n - 1))
  }

  lemma {:induction false} CounterClosedForm(n: nat)
    ensures Counter(n) == 1 + n % 100000
  {
    if n != 0 {
      CounterClosedForm(n - 1);
    }
  }

  lemma SameRemainder(j: nat, k: nat)
    ensures j % 100000 == k % 100000 <==> (k - j) % 100000 == 0
  {
    var q, q' := j / 100000, k / 100000;
    assert k - j == 100000 * (q' - q) + (k % 100000 - j % 100000);
  }

  /** Two sends share an id exactly when a multiple of 100000 sends lies between them. */
  lemma CounterEqualIff(j: nat, k: nat)
    ensures Counter(j) == Counter(k) <==> (k - j) % 100000 == 0
  {
    CounterClosedForm(j);
    CounterClosedForm(k);
    SameRemainder(j, k);
  }

  lemma ModWindow(j: nat, k: nat)
    requires j < k < j + 100000
    ensures j % 100000 != k % 100000
    ensures (j + 100000) % 100000 == j % 100000
  {
    var q, q' := j / 100000, k / 100000;
    assert j == 100000 * q + j % 100000 && k == 100000 * q' + k % 100000;
    assert j + 100000 == 100000 * (q + 1) + j % 100000;
  }

  /** Any window of 100000 consecutive sends uses distinct ids, and a wider one cannot. */
  lemma CounterWindow(j: nat, k: nat)
    requires j < k < j + BACKEND_CONN_MAX_SEQ_ID
    ensures Counter(j) != Counter(k)
    ensures Counter(j + BACKEND_CONN_MAX_SEQ_ID) == Counter(j)
  {
    CounterClosedForm(j);
    CounterClosedForm(k);
    CounterClosedForm(j + BACKEND_CONN_MAX_SEQ_ID);
    ModWindow(j, k);
  }
}
