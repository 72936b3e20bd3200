// The order of two revisions of a replaceable event ("Kinds" section of
// NIP-01): the newer timestamp wins and, within one second, the lowest id.
module Revisions {
  import opened Prelude
  import opened Text

  // A revision cached before ids were kept has none.
  datatype Revision = Revision(createdAt: int, eventId: Option<string>)

  predicate Supersedes(r: Revision, held: Revision) {
    if r.createdAt != held.createdAt then r.createdAt > held.createdAt
    else if r.eventId.Some? && held.eventId.Some? then Below(r.eventId.value, held.eventId.value)
    else r.eventId.Some?  && held.eventId.None?
  }

  // The later one wins; within a second the lower id does, and no id loses to any.
  lemma SupersedesExactly(r: Revision, held: Revision)
    ensures Supersedes(r, held) <==>
      || held.createdAt < r.createdAt
      || (held.createdAt == r.createdAt && r.eventId.Some?
          && (held.eventId == None || exists k :: DiffersAt(r.eventId.value, held.eventId.value, k)))
  {
    if r.eventId.Some? && held.eventId.Some? {
      BelowExactly(r.eventId.value, held.eventId.value);
    }
  }

  // A strict total order: exactly one of newer, equal and older holds.
  lemma SupersedesIsStrictTotal(a: Revision, b: Revision)
    ensures a == b ==> !Supersedes(a, b)
    ensures a != b ==> (Supersedes(a, b) <==> !Supersedes(b, a))
  {
    if a.eventId.Some? && b.eventId.Some? {
      var x, y := a.eventId.value, b.eventId.value;
      BelowTotal(x, y);
      BelowIrreflexive(x);
      if Below(x, y) && Below(y, x) {
        BelowTransitive(x, y, x);
      }
    }
  }

  lemma SupersedesTransitive(a: Revision, b: Revision, c: Revision)
    requires Supersedes(a, b) && Supersedes(b, c)
    ensures Supersedes(a, c)
  {
    if a.eventId.Some? && b.eventId.Some? && c.eventId.Some? && a.createdAt == b.createdAt == c.createdAt {
      BelowTransitive(a.eventId.value, b.eventId.value, c.eventId.value);
    }
  }

  // ---- Keeping the newest ------------------------------------------------------

  // Anything that carries a revision.
  datatype Entry<+T> = Entry(revision: Revision, content: T)

  function Keep<T>(held: Option<Entry<T>>, e: Entry<T>): Option<Entry<T>> {
    if held.Some? && !Supersedes(e.revision, held.value.revision) then held else Some(e)
  }

  function KeepAll<T>(held: Option<Entry<T>>, entries: seq<Entry<T>>): Option<Entry<T>> {
    if entries == [] then held
    else Keep(KeepAll(held, entries[..|entries| - 1]), entries[|entries| - 1])
  }

  ghost predicate IsNewest<T(!new)>(e: Entry<T>, among: iset<Entry<T>>) {
    && e in among
    && forall other :: other in among && other != e ==> Supersedes(e.revision, other.revision)
  }

  // Equal revisions are copies of one event, so they carry equal content.
  ghost predicate OneContentPerRevision<T(!new)>(among: iset<Entry<T>>) {
    forall x, y :: x in among && y in among && x.revision == y.revision ==> x == y
  }

  ghost function Offered<T(!new)>(held: Option<Entry<T>>, entries: seq<Entry<T>>): iset<Entry<T>> {
    iset e: Entry<T> | e in entries || held == Some(e)
  }

  lemma {:induction false} KeepAllIsNewest<T(!new)>(held: Option<Entry<T>>, entries: seq<Entry<T>>)
    requires OneContentPerRevision(Offered(held, entries))
    ensures KeepAll(held, entries).None? <==> held.None? && entries == []
    ensures KeepAll(held, entries).Some? ==> IsNewest(KeepAll(held, entries).value, Offered(held, entries))
  {
    if entries != [] {
      var before, last := entries[..|entries| - 1], entries[|entries| - 1];
      assert forall e :: e in Offered(held, before) ==> e in Offered(held, entries);
      KeepAllIsNewest(held, before);
      var kept, r := KeepAll(held, before), KeepAll(held, entries).value;
      forall other | other in Offered(held, entries) && other != r
        ensures Supersedes(r.revision, other.revision)
      {
        assert other in Offered(held, before) || other == last;
        if kept.Some? {
          SupersedesIsStrictTotal(last.revision, kept.value.revision);
          if Supersedes(last.revision, kept.value.revision) && other != kept.value {
            SupersedesTransitive(last.revision, kept.value.revision, other.revision);
          }
        }
      }
    }
  }

  lemma NewestIsUnique<T(!new)>(a: Entry<T>, b: Entry<T>, among: iset<Entry<T>>)
    requires IsNewest(a, among) && IsNewest(b, among)
    ensures a == b
  {
    SupersedesIsStrictTotal(a.revision, b.revision);
  }

  // So what is kept depends only on what was offered, not on the order, the
  // repetitions or what counted as already held.
  lemma KeepAllIgnoresOrder<T(!new)>(held: Option<Entry<T>>, xs: seq<Entry<T>>, held': Option<Entry<T>>,
      ys: seq<Entry<T>>)
    requires Offered(held, xs) == Offered(held', ys)
    requires OneContentPerRevision(Offered(held, xs))
    ensures KeepAll(held, xs) == KeepAll(held', ys)
  {
    KeepAllIsNewest(held, xs);
    KeepAllIsNewest(held', ys);
    var a, b := KeepAll(held, xs), KeepAll(held', ys);
    if a.Some? {
      assert a.value in Offered(held', ys);
      NewestIsUnique(a.value, b.value, Offered(held, xs));
    }
  }
}
