// The bounded set of outer event ids that filters duplicate relay deliveries.
module IdSet {
  import opened Prelude

  lemma LastOfAppended(s: seq<string>, x: string, n: nat)
    requires n > 0
    ensures Last(s + [x], n) == (if |s| < n then s else Last(s, n)[1..]) + [x]
  {
  }

  function Elements(s: seq<string>): set<string> {
    set x | x in s
  }

  lemma DropOldest(s: seq<string>)
    requires s != [] && NoRepeats(s)
    ensures NoRepeats(s[1..]) && Elements(s[1..]) == Elements(s) - {s[0]}
  {
    assert s == [s[0]] + s[1..];
  }

  lemma AddNewest(s: seq<string>, x: string)
    requires x !in s && NoRepeats(s)
    ensures NoRepeats(s + [x]) && Elements(s + [x]) == Elements(s) + {x}
  {
  }

  class BoundedIdSet {
    var members: set<string>
    var order: seq<string>
    const cap: nat
    // Every id the set ever accepted, oldest first.
    ghost var accepted: seq<string>

    // A capacity of zero still keeps the newest id: there is nothing to evict
    // before the first insert.
    ghost function Window(): nat {
      if cap == 0 then 1 else cap
    }

    ghost predicate Valid()
      reads this
    {
      && order == Last(accepted, Window())
      && NoRepeats(order)
      && members == Elements(order)
    }

    constructor (cap: nat)
      ensures Valid() && this.cap == cap && accepted == []
    {
      this.cap := cap;
      members := {};
      order := [];
      accepted := [];
    }

    // Refuses exactly the last `Window()` ids it accepted.
    method Insert(id: string) returns (inserted: bool)
      requires Valid()
      modifies this
      ensures Valid()
      ensures inserted <==> id !in Last(old(accepted), Window())
      ensures accepted == if inserted then old(accepted) + [id] else old(accepted)
    {
      if id in members {
        return false;
      }
      if |order| >= cap {
        if |order| > 0 {
          DropOldest(order);
          var evicted := order[0];
          order := order[1..];
          members := members - {evicted};
        }
      }
      LastOfAppended(accepted, id, Window());
      AddNewest(order, id);
      members := members + {id};
      order := order + [id];
      accepted := accepted + [id];
      inserted := true;
    }
  }
}
