/** Shared vocabulary of the store-rating client: optional values, the
    store and user records the pages receive, and the rating map every
    page keeps from store id to the user's own rating. */
module Common {

  /** JavaScript `null`/`undefined` versus a present value. */
  datatype Option<+T> = None | Some(value: T)

  type StoreId = int
  type UserId = int

  /** A store row as the pages display it. The average rating is a float
      on the wire and is not modelled. */
  datatype Store = Store(id: StoreId, name: string, address: string)

  /** The logged-in user as the authentication context exposes it. */
  datatype User = User(id: UserId, role: string)

  /** Per-user ratings keyed by store id; an absent key means "not rated". */
  type Ratings = map<StoreId, int>

  /** `ratings[id] || 0`: the value a star widget is given for a store.
      An absent entry and a stored 0 both read as 0. */
  function Displayed(ratings: Ratings, id: StoreId): (v: int)
    ensures id !in ratings ==> v == 0
    ensures id in ratings && ratings[id] != 0 ==> v == ratings[id]
    ensures id in ratings && ratings[id] == 0 ==> v == 0
  {
    if id in ratings && ratings[id] != 0 then ratings[id] else 0
  }

  /** `m2` is `m1` except possibly at key `id`: no other store's entry changes. */
  ghost predicate AgreeExcept(m1: Ratings, m2: Ratings, id: StoreId)
  {
    forall k :: k != id ==> (k in m1 <==> k in m2) && (k in m1 ==> m1[k] == m2[k])
  }

  /** Every stored rating lies in 0..5 (5 stars, 0 written by a rollback). */
  ghost predicate RatingsInRange(m: Ratings)
  {
    forall k :: k in m ==> 0 <= m[k] <= 5
  }

  /** The sequence with the element at position `k` taken out; used for a
      request that has settled and is no longer outstanding. */
  function Remove<T>(xs: seq<T>, k: nat): (r: seq<T>)
    requires k < |xs|
    ensures |r| == |xs| - 1
    ensures forall i :: 0 <= i < k ==> r[i] == xs[i]
    ensures forall i :: k <= i < |r| ==> r[i] == xs[i + 1]
  {
    xs[..k] + xs[k + 1..]
  }
}
