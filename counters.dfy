/** The Redis "now serving" counters: `clinic:<id>:current` and `doctor:<id>:current`. */
module Counters {
  import opened Wrappers
  import opened Tickets

  datatype CounterKey = ClinicCounter(clinic: ClinicId) | DoctorCounter(doctor: DoctorId)

  type Store = map<CounterKey, int>

  /** `parseInt(await redisClient.get(key) || 0)`: the fallback applies to the value read,
      so a missing key reads as 0. */
  function AwaitedRead(store: Store, key: CounterKey): int {
    if key in store then store[key] else 0
  }

  /** `redisClient.get(key) || 0` inside `Promise.all`: the fallback applies to the (always truthy)
      promise, so a missing key reaches `parseInt` as null and reads as NaN, here None. */
  function RacedRead(store: Store, key: CounterKey): Option<int> {
    if key in store then Some(store[key]) else None
  }

  /** The two reads agree on a present key; on a missing key one gives 0 and the other NaN. */
  lemma ReadsAgreeOnPresentKeys(store: Store, key: CounterKey)
    ensures key in store ==> RacedRead(store, key) == Some(AwaitedRead(store, key))
    ensures key !in store ==> RacedRead(store, key).None? && AwaitedRead(store, key) == 0
  {
  }

  /** A comparison `x > n` where n may be NaN: every comparison with NaN is false. */
  predicate GreaterThan(x: int, n: Option<int>) {
    n.Some? && x > n.value
  }
}
