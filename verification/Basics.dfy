/** Types shared by every component: optional values, results, identifiers and instants. */
module Basics {
  datatype Option<+T> = None | Some(value: T) {
    function GetOr(default: T): T {
      if Some? then value else default
    }
  }

  datatype Result<+T, +E> = Ok(value: T) | Err(error: E)

  /** A 128-bit entry identifier; only equality matters here. */
  datatype Uuid = Uuid(bits: nat)

  /** Account number issued by auther. */
  type UserId = int

  /** One installation of the client. */
  type DeviceId = nat

  /** An instant, counted in nanoseconds since the Unix epoch. */
  type Time = int

  type Byte = n: nat | n < 256

  const NANOS_PER_SECOND: Time := 1_000_000_000

  /** Go's zero time.Time, January 1 of year 1. */
  const ZERO_TIME: Time := -62_135_596_800 * NANOS_PER_SECOND

  /** Two maps agree at a key. */
  ghost predicate SameAt<K, V>(a: map<K, V>, b: map<K, V>, k: K) {
    (k in a <==> k in b) && (k in a ==> a[k] == b[k])
  }

  lemma SameEverywhere<K(!new), V>(a: map<K, V>, b: map<K, V>)
    requires forall k :: SameAt(a, b, k)
    ensures a == b
  {
    assert forall k | k in a :: SameAt(a, b, k);
    assert forall k | k in b :: SameAt(a, b, k);
    assert a.Keys == b.Keys;
  }

  lemma RewriteIsIdle<K, V>(m: map<K, V>, k: K)
    requires k in m
    ensures m[k := m[k]] == m
  {
  }
}
