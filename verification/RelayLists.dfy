// Which kind 10002 relay lists of a node are applied.
module RelayLists {
  import opened Prelude
  import opened Text
  import opened Revisions

  datatype Generation = Generation(createdAt: int, id: string)

  datatype Note = Note(node: string, generation: Generation)

  predicate GenerationIsNewer(candidate: Generation, applied: Generation) {
    if candidate.createdAt > applied.createdAt then true
    else if candidate.createdAt < applied.createdAt then false
    else Below(candidate.id, applied.id)
  }

  function RevisionOf(g: Generation): Revision {
    Revision(g.createdAt, Some(g.id))
  }

  // The relay lists and the node information share one revision order.
  lemma SameOrderAsNodeInfo(a: Generation, b: Generation)
    ensures GenerationIsNewer(a, b) <==> Supersedes(RevisionOf(a), RevisionOf(b))
  {
    BelowIrreflexive(a.id);
  }

  // `best` is the newest generation noted for `node`.
  ghost predicate NewestNoted(history: seq<Note>, node: string, best: Generation) {
    && Note(node, best) in history
    && forall n :: n in history && n.node == node && n.generation != best ==> GenerationIsNewer(best, n.generation)
  }

  class RelayListSeen {
    var seen: map<string, Generation>
    ghost var history: seq<Note>

    ghost predicate Valid()
      reads this
    {
      && (forall node :: node in seen ==> NewestNoted(history, node, seen[node]))
      && (forall n :: n in history ==> n.node in seen)
    }

    constructor ()
      ensures Valid() && history == []
    {
      seen := map[];
      history := [];
    }

    // Says yes exactly when the list is newer than every one ever seen for the
    // node, so the applied lists of a node strictly improve.
    method NoteGeneration(node: string, generation: Generation) returns (newer: bool)
      requires Valid()
      modifies this
      ensures Valid() && history == old(history) + [Note(node, generation)]
      ensures newer <==> forall n :: n in old(history) && n.node == node ==> GenerationIsNewer(generation, n.generation)
      ensures !newer ==> seen == old(seen)
      ensures newer ==> seen == old(seen)[node := generation]
    {
      ghost var note := Note(node, generation);
      ghost var before := history;
      history := history + [note];
      if node in seen {
        var applied := seen[node];
        forall n | n in before && n.node == node && n.generation != applied
          ensures GenerationIsNewer(generation, applied) ==> GenerationIsNewer(generation, n.generation)
        {
          Chain(generation, applied, n.generation);
        }
        OneIsNewer(generation, applied);
        if !GenerationIsNewer(generation, applied) {
          return false;
        }
      }
      seen := seen[node := generation];
      newer := true;
    }
  }

  lemma Chain(a: Generation, b: Generation, c: Generation)
    ensures GenerationIsNewer(a, b) && GenerationIsNewer(b, c) ==> GenerationIsNewer(a, c)
  {
    if GenerationIsNewer(a, b) && GenerationIsNewer(b, c) {
      SameOrderAsNodeInfo(a, b);
      SameOrderAsNodeInfo(b, c);
      SameOrderAsNodeInfo(a, c);
      SupersedesTransitive(RevisionOf(a), RevisionOf(b), RevisionOf(c));
    }
  }

  lemma OneIsNewer(a: Generation, b: Generation)
    ensures a != b ==> (GenerationIsNewer(a, b) <==> !GenerationIsNewer(b, a))
    ensures a == b ==> !GenerationIsNewer(a, b)
  {
    SameOrderAsNodeInfo(a, b);
    SameOrderAsNodeInfo(b, a);
    SupersedesIsStrictTotal(RevisionOf(a), RevisionOf(b));
  }
}
