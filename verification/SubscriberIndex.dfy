/**
 The reverse indexes of the hub (`topics` and `users`): from a key to the
 connections filed under it. Each function below is one critical section of the
 concurrent map.
 */
module SubscriberIndex {
  import opened Prelude

  type Index<K> = map<K, set<ConnectionId>>

  function Members<K>(index: Index<K>, k: K): set<ConnectionId> {
    if k in index then index[k] else {}
  }

  /** `entry(k).or_default().insert(id)` */
  function Insert<K>(index: Index<K>, k: K, id: ConnectionId): Index<K> {
    index[k := Members(index, k) + {id}]
  }

  /** `if let Some(set) = get_mut(k) { set.remove(id) }` */
  function RemoveMember<K>(index: Index<K>, k: K, id: ConnectionId): Index<K> {
    if k in index then index[k := index[k] - {id}] else index
  }

  /** `remove_if(k, |_, set| set.is_empty())` */
  function DropIfEmpty<K>(index: Index<K>, k: K): Index<K> {
    if k in index && index[k] == {} then index - {k} else index
  }

  ghost predicate NoEmptyEntry<K>(index: Index<K>) {
    forall k :: k in index ==> index[k] != {}
  }

  lemma AfterInsert<K>(index: Index<K>, k: K, id: ConnectionId)
    ensures NoEmptyEntry(index) ==> NoEmptyEntry(Insert(index, k, id))
    ensures forall j, i :: i in Members(Insert(index, k, id), j) <==> i in Members(index, j) || (j == k && i == id)
  {
  }

  /** Both halves of a detach: other members stay, and an emptied entry goes. */
  lemma AfterDetach<K>(index: Index<K>, k: K, id: ConnectionId)
    requires NoEmptyEntry(index)
    ensures var r := DropIfEmpty(RemoveMember(index, k, id), k);
            && NoEmptyEntry(r)
            && forall j, i :: i in Members(r, j) <==> i in Members(index, j) && !(j == k && i == id)
  {
  }
}
