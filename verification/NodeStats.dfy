// Node information merged from several relays.
module NodeStats {
  import opened Prelude
  import opened Revisions

  function Get<K, V>(m: map<K, V>, k: K): Option<V> {
    if k in m then Some(m[k]) else None
  }

  // ---- Kind 38385 node information ---------------------------------------------

  type Tags = seq<seq<string>>

  type NodeInfo = Entry<Tags>

  // `dTag` is the trimmed, non-empty value of the first `d` tag, if any.
  datatype InfoEvent = InfoEvent(author: string, createdAt: int, id: string, dTag: Option<string>, tags: Tags)

  predicate Valid(pubkeys: seq<string>, e: InfoEvent) {
    e.author in pubkeys && e.dTag == Some(e.author)
  }

  function InfoOf(e: InfoEvent): NodeInfo {
    Entry(Revision(e.createdAt, Some(e.id)), e.tags)
  }

  // The valid events of `node`, in arrival order.
  function Candidates(pubkeys: seq<string>, events: seq<InfoEvent>, node: string): seq<NodeInfo> {
    if events == [] then []
    else
      var before, e := Candidates(pubkeys, events[..|events| - 1], node), events[|events| - 1];
      if Valid(pubkeys, e) && e.author == node then before + [InfoOf(e)] else before
  }

  // An event counts for a node exactly when the node was asked about, is its author
  // and is named by its `d` tag.
  lemma {:induction false} CandidatesExactly(pubkeys: seq<string>, events: seq<InfoEvent>, node: string, e: NodeInfo)
    ensures e in Candidates(pubkeys, events, node) <==>
      exists i :: 0 <= i < |events| && node in pubkeys && events[i].author == node && events[i].dTag == Some(node)
        && e == Entry(Revision(events[i].createdAt, Some(events[i].id)), events[i].tags)
  {
    if events != [] {
      var n := |events| - 1;
      CandidatesExactly(pubkeys, events[..n], node, e);
      assert forall i :: 0 <= i < n ==> events[i] == events[..n][i];
    }
  }

  method NewestInfo(pubkeys: seq<string>, events: seq<InfoEvent>) returns (newest: map<string, NodeInfo>)
    ensures forall node :: Get(newest, node) == KeepAll(None, Candidates(pubkeys, events, node))
  {
    newest := map[];
    for i := 0 to |events|
      invariant forall node :: Get(newest, node) == KeepAll(None, Candidates(pubkeys, events[..i], node))
    {
      var e := events[i];
      assert events[..i + 1][..i] == events[..i];
      ghost var before := Candidates(pubkeys, events[..i], e.author);
      assert (before + [InfoOf(e)])[..|before|] == before;
      if e.author !in pubkeys {
        continue;
      }
      if e.dTag != Some(e.author) {
        continue;
      }
      var info := InfoOf(e);
      if e.author in newest && !Supersedes(info.revision, newest[e.author].revision) {
        continue;
      }
      newest := newest[e.author := info];
    }
    assert events[..|events|] == events;
  }

  // The fetched entries are visited in no particular order.
  method MergeInfo(cache: map<string, NodeInfo>, fetched: map<string, NodeInfo>)
    returns (merged: map<string, NodeInfo>, changed: bool)
    ensures forall node :: Get(merged, node) == if node in fetched then Keep(Get(cache, node), fetched[node])
      else Get(cache, node)
    ensures changed <==> merged != cache
  {
    merged, changed := cache, false;
    var todo := fetched.Keys;
    while todo != {}
      invariant todo <= fetched.Keys
      invariant forall node :: node in fetched && node !in todo ==>
        Get(merged, node) == Keep(Get(cache, node), fetched[node])
      invariant forall node :: node !in fetched || node in todo ==> Get(merged, node) == Get(cache, node)
      invariant changed <==> exists node :: Get(merged, node) != Get(cache, node)
    {
      var pubkey :| pubkey in todo;
      var info := fetched[pubkey];
      todo := todo - {pubkey};
      if pubkey in merged && !Supersedes(info.revision, merged[pubkey].revision) {
      } else {
        SupersedesIsStrictTotal(info.revision, if pubkey in cache then cache[pubkey].revision else info.revision);
        merged := merged[pubkey := info];
        changed := true;
        assert Get(merged, pubkey) != Get(cache, pubkey);
      }
    }
    if changed {
      var node :| Get(merged, node) != Get(cache, node);
      assert (node in merged) != (node in cache) || merged[node] != cache[node];
    } else {
      assert forall node :: node in merged ==> Get(merged, node).Some?;
      assert forall node :: node in cache ==> Get(cache, node).Some?;
      assert merged == cache;
    }
  }

  // What one fetched batch makes of a node's cached entry.
  function Refresh(held: Option<NodeInfo>, batch: seq<NodeInfo>): Option<NodeInfo> {
    var newest := KeepAll(None, batch);
    if newest.Some? then Keep(held, newest.value) else held
  }

  method RefreshCache(cache: map<string, NodeInfo>, pubkeys: seq<string>, events: seq<InfoEvent>)
    returns (merged: map<string, NodeInfo>, changed: bool)
    ensures forall node :: Get(merged, node) == Refresh(Get(cache, node), Candidates(pubkeys, events, node))
    ensures changed <==> merged != cache
  {
    var fetched := NewestInfo(pubkeys, events);
    assert forall node :: node in fetched <==> Get(fetched, node).Some?;
    merged, changed := MergeInfo(cache, fetched);
  }

  function RefreshAll(held: Option<NodeInfo>, batches: seq<seq<NodeInfo>>): Option<NodeInfo> {
    if batches == [] then held
    else Refresh(RefreshAll(held, batches[..|batches| - 1]), batches[|batches| - 1])
  }

  ghost function Arrived(held: Option<NodeInfo>, batches: seq<seq<NodeInfo>>): iset<NodeInfo> {
    iset e: NodeInfo | held == Some(e) || exists i :: 0 <= i < |batches| && e in batches[i]
  }

  // However the events are ordered and batched, the cache ends on the newest
  // revision among what it held and everything that arrived.
  lemma {:induction false} RefreshAllIsNewest(held: Option<NodeInfo>, batches: seq<seq<NodeInfo>>)
    requires OneContentPerRevision(Arrived(held, batches))
    ensures RefreshAll(held, batches).None? <==> Arrived(held, batches) == iset{}
    ensures RefreshAll(held, batches).Some? ==> IsNewest(RefreshAll(held, batches).value, Arrived(held, batches))
  {
    var all := Arrived(held, batches);
    if batches == [] {
      assert held.Some? ==> held.value in all;
    } else {
      var earlier, batch := batches[..|batches| - 1], batches[|batches| - 1];
      var seen := Arrived(held, earlier);
      forall e ensures e in all <==> e in seen || e in batch {
        if i :| 0 <= i < |batches| && e in batches[i] {
          assert i < |earlier| ==> e in earlier[i];
        }
        if e in seen && held != Some(e) {
          var i :| 0 <= i < |earlier| && e in earlier[i];
          assert e in batches[i];
        }
      }
      RefreshAllIsNewest(held, earlier);
      var was := RefreshAll(held, earlier);
      assert Offered(None, batch) <= all;
      KeepAllIsNewest(None, batch);
      var newest := KeepAll(None, batch);
      if newest.Some? {
        var both := [newest.value];
        assert Offered(was, both) <= all;
        KeepAllIsNewest(was, both);
        assert both[..0] == [];
        assert KeepAll(was, both) == RefreshAll(held, batches);
        var r := RefreshAll(held, batches).value;
        forall other | other in all && other != r
          ensures Supersedes(r.revision, other.revision)
        {
          if other in seen {
            assert was.value in Offered(was, both);
            OlderThanKept(r, was.value, other);
          } else {
            assert newest.value in Offered(was, both);
            OlderThanKept(r, newest.value, other);
          }
        }
      } else {
        assert batch == [];
        assert all == seen;
      }
    }
  }

  lemma OlderThanKept(r: NodeInfo, kept: NodeInfo, other: NodeInfo)
    requires r == kept || Supersedes(r.revision, kept.revision)
    requires kept == other || Supersedes(kept.revision, other.revision)
    requires other != r
    ensures Supersedes(r.revision, other.revision)
  {
    if r != kept && kept != other {
      SupersedesTransitive(r.revision, kept.revision, other.revision);
    }
  }

  lemma RefreshIgnoresOrderAndBatching(held: Option<NodeInfo>, xs: seq<seq<NodeInfo>>, ys: seq<seq<NodeInfo>>)
    requires Arrived(held, xs) == Arrived(held, ys) && OneContentPerRevision(Arrived(held, xs))
    ensures RefreshAll(held, xs) == RefreshAll(held, ys)
  {
    RefreshAllIsNewest(held, xs);
    RefreshAllIsNewest(held, ys);
    if RefreshAll(held, xs).Some? {
      NewestIsUnique(RefreshAll(held, xs).value, RefreshAll(held, ys).value, Arrived(held, xs));
    }
  }
}
