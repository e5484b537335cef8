/**
 * The applied-id helpers (src/utilities/LocalStorage.jsx): a map of job ids
 * marked as applied under `job-applications`, and the read of `shopping-cart`.
 */
module LocalStorageUtil {
  import opened Wrappers
  import opened Decimal
  import opened Storage

  /** The property name a numeric id becomes when used to index a JavaScript object. */
  function KeyOf(id: nat): (key: string) {
    Digits(id)
  }

  /** What `addToDb(id)` makes of the stored map: the id's key set to true if it was not truthy. */
  function MarkApplied(m: map<string, bool>, id: nat): (r: map<string, bool>)
    ensures KeyOf(id) in r && r[KeyOf(id)]
    ensures r.Keys == m.Keys + {KeyOf(id)}
  {
    var key := KeyOf(id);
    if key in m && m[key] then m else m[key := true]
  }

  /** Afterwards the id maps to true, and every other key keeps its presence and value. */
  lemma MarkAppliedSpec(m: map<string, bool>, id: nat)
    ensures KeyOf(id) in MarkApplied(m, id) && MarkApplied(m, id)[KeyOf(id)]
    ensures MarkApplied(m, id).Keys == m.Keys + {KeyOf(id)}
    ensures forall k :: k in m && k != KeyOf(id) ==> MarkApplied(m, id)[k] == m[k]
  {
  }

  /** Marking another job never changes whether, or how, this one is marked. */
  lemma MarkAppliedKeepsOtherIds(m: map<string, bool>, id: nat, other: nat)
    requires other != id
    ensures KeyOf(other) in MarkApplied(m, id) <==> KeyOf(other) in m
    ensures KeyOf(other) in m ==> MarkApplied(m, id)[KeyOf(other)] == m[KeyOf(other)]
  {
    if KeyOf(other) == KeyOf(id) {
      DigitsInjective(other, id);
    }
  }

  /** Marking the same id twice gives the map marking it once gives. */
  lemma MarkAppliedIdempotent(m: map<string, bool>, id: nat)
    ensures MarkApplied(MarkApplied(m, id), id) == MarkApplied(m, id)
  {
  }

  /** `getStoredJobApplication`: the stored map, or {} when the key is absent. */
  method GetStoredJobApplication(store: LocalStore) returns (m: map<string, bool>)
    ensures store.jobApplications.None? ==> m == map[]
    ensures store.jobApplications.Some? ==> m == store.jobApplications.value
  {
    m := map[];
    var stored := store.jobApplications;
    if stored.Some? {
      m := stored.value;
    }
  }

  /** `getShoppingCart`: the stored cart, or {} when the key is absent. */
  method GetShoppingCart(store: LocalStore) returns (m: map<string, nat>)
    ensures store.shoppingCart.None? ==> m == map[]
    ensures store.shoppingCart.Some? ==> m == store.shoppingCart.value
  {
    m := map[];
    var stored := store.shoppingCart;
    if stored.Some? {
      m := stored.value;
    }
  }

  /** `addToDb`: writes the marked map back; it touches no other key, `shopping-cart` included. */
  method AddToDb(store: LocalStore, id: nat)
    modifies store`jobApplications
    ensures store.jobApplications == Some(MarkApplied(old(store.jobApplications).GetOr(map[]), id))
    ensures KeyOf(id) in store.jobApplications.value && store.jobApplications.value[KeyOf(id)]
  {
    var jobApplications := GetStoredJobApplication(store);
    var key := KeyOf(id);
    var exists_ := key in jobApplications && jobApplications[key];
    if !exists_ {
      jobApplications := jobApplications[key := true];
    }
    store.jobApplications := Some(jobApplications);
  }

  /** Two calls with the same id leave the store as one call does. */
  method AddTwice(store: LocalStore, id: nat)
    modifies store`jobApplications
    ensures store.jobApplications == Some(MarkApplied(old(store.jobApplications).GetOr(map[]), id))
  {
    AddToDb(store, id);
    AddToDb(store, id);
    MarkAppliedIdempotent(old(store.jobApplications).GetOr(map[]), id);
  }
}
