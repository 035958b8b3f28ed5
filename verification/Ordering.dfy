/** order_by(key, id): ids kept in the order of an integer column, ties broken by the id. */
module Ordering {

  /** (key, id) comes before (key', id'). */
  predicate Less(key: int, id: nat, key': int, id': nat) { key < key' || (key == key' && id < id') }

  predicate Before(keys: map<nat, int>, a: nat, b: nat)
    requires a in keys && b in keys
  {
    Less(keys[a], a, keys[b], b)
  }

  ghost predicate Ordered(keys: map<nat, int>, ids: seq<nat>) {
    && (forall i | 0 <= i < |ids| :: ids[i] in keys)
    && (forall i, j | 0 <= i < j < |ids| :: Before(keys, ids[i], ids[j]))
  }

  /** Insertion into an ordered list. */
  function Insert(keys: map<nat, int>, ids: seq<nat>, id: nat): seq<nat>
    requires id in keys && forall i | 0 <= i < |ids| :: ids[i] in keys
  {
    if |ids| == 0 || Before(keys, id, ids[0]) then [id] + ids
    else [ids[0]] + Insert(keys, ids[1..], id)
  }

  lemma {:induction false} InsertKeepsOrder(keys: map<nat, int>, ids: seq<nat>, id: nat)
    requires id in keys && id !in ids && Ordered(keys, ids)
    ensures Ordered(keys, Insert(keys, ids, id))
    ensures forall x :: x in Insert(keys, ids, id) <==> x == id || x in ids
  {
    if |ids| > 0 && !Before(keys, id, ids[0]) {
      InsertKeepsOrder(keys, ids[1..], id);
      var rest := Insert(keys, ids[1..], id);
      assert forall x :: x in ids <==> x == ids[0] || x in ids[1..];
      forall j | 0 <= j < |rest| ensures Before(keys, ids[0], rest[j]) {
        if rest[j] != id {
          assert rest[j] in ids[1..];
        }
      }
    }
  }

  /** The given ids in order. */
  method Sort(keys: map<nat, int>, chosen: set<nat>) returns (ids: seq<nat>)
    requires chosen <= keys.Keys
    ensures Ordered(keys, ids) && forall id :: id in ids <==> id in chosen
    ensures forall i, j | 0 <= i < j < |ids| ::
              keys[ids[i]] < keys[ids[j]] || (keys[ids[i]] == keys[ids[j]] && ids[i] < ids[j])
  {
    ids := [];
    var rest := chosen;
    while rest != {}
      invariant rest <= chosen && Ordered(keys, ids)
      invariant forall id :: id in ids <==> id in chosen && id !in rest
    {
      var id :| id in rest;
      InsertKeepsOrder(keys, ids, id);
      ids := Insert(keys, ids, id);
      rest := rest - {id};
    }
    assert forall i, j | 0 <= i < j < |ids| :: Before(keys, ids[i], ids[j]);
  }
}
