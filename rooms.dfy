/**
  The room registry seen as a value: a map from room id `doc:<docId>` to
  the set of its members, and the two updates the handlers apply to it.
 */
module Rooms {

  /** The registry invariant: no room id is stored with an empty member set. */
  ghost predicate NoEmptyRoom<T>(reg: map<string, set<T>>)
  {
    forall k | k in reg :: reg[k] != {}
  }

  /** The members stored under `k`, or none when the room is absent. */
  function MembersOf<T>(reg: map<string, set<T>>, k: string): set<T>
  {
    if k in reg then reg[k] else {}
  }

  /**
    Join: take the room stored under `k` or a new empty one, add `x` and
    store it under `k`.
   */
  function Enter<T(==)>(reg: map<string, set<T>>, k: string, x: T): (r: map<string, set<T>>)
    ensures r.Keys == reg.Keys + {k}
    ensures r[k] == MembersOf(reg, k) + {x}
    ensures forall j | j in reg && j != k :: r[j] == reg[j]
    ensures NoEmptyRoom(reg) ==> NoEmptyRoom(r)
  {
    reg[k := MembersOf(reg, k) + {x}]
  }

  /**
    Store the set `s` under `k`, then delete the entry if `s` is empty: so
    `k` ends up present exactly when `s` has members.
   */
  function Settle<T(==)>(reg: map<string, set<T>>, k: string, s: set<T>): (r: map<string, set<T>>)
    ensures k in r <==> s != {}
    ensures k in r ==> r[k] == s
    ensures forall j | j != k :: (j in r <==> j in reg) && (j in r ==> r[j] == reg[j])
    ensures NoEmptyRoom(reg) ==> NoEmptyRoom(r)
  {
    if s == {} then reg - {k} else reg[k := s]
  }

  /** Whatever set is settled, a member removed from it is no longer stored under `k`. */
  lemma SettleWithout<T>(reg: map<string, set<T>>, k: string, s: set<T>, x: T)
    ensures x !in MembersOf(Settle(reg, k, s - {x}), k)
  {
  }
}
