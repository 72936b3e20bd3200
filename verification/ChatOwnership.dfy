// Which task owns the subscription of a chat, by generation.
module ChatOwnership {
  import opened Prelude

  datatype Channel = Peer | Dispute

  const DISPUTE_PREFIX := "dispute-"

  function IdPrefix(c: Channel): string {
    if c.Peer? then "" else DISPUTE_PREFIX
  }

  function GuardKey(c: Channel, order: string): string {
    IdPrefix(c) + order
  }

  // Any task may claim a chat, stop a trade's chats or release a claim, at any
  // time and with any arguments.
  datatype Event =
    | Claim(channel: Channel, order: string)
    | Stop(order: string)
    | Release(channel: Channel, order: string, generation: nat)

  datatype State = State(active: map<string, nat>, generation: nat)

  function Apply(s: State, e: Event): State {
    match e
    case Claim(channel, order) =>
      var key := GuardKey(channel, order);
      if key in s.active then s
      else State(s.active[key := s.generation + 1], s.generation + 1)
    case Stop(order) =>
      s.(active := s.active - {GuardKey(Peer, order), GuardKey(Dispute, order)})
    case Release(channel, order, generation) =>
      var key := GuardKey(channel, order);
      if key in s.active && s.active[key] == generation then s.(active := s.active - {key}) else s
  }

  function After(history: seq<Event>): State {
    if history == [] then State(map[], 0) else Apply(After(history[..|history| - 1]), history[|history| - 1])
  }

  // Event `i` gave `key` to a new task under generation `g`.
  ghost predicate Grants(history: seq<Event>, i: nat, key: string, g: nat)
    requires i < |history|
  {
    && history[i].Claim?
    && GuardKey(history[i].channel, history[i].order) == key
    && key !in After(history[..i]).active
    && g == After(history[..i]).generation + 1
  }

  // Events that end generation `g` of `key`: a stop of its trade, or the
  // task's own release.
  ghost predicate Ends(e: Event, key: string, g: nat) {
    || (e.Stop? && (key == GuardKey(Peer, e.order) || key == GuardKey(Dispute, e.order)))
    || (e.Release? && GuardKey(e.channel, e.order) == key && e.generation == g)
  }

  ghost predicate HeldSince(history: seq<Event>, i: nat, key: string, g: nat)
    requires i < |history|
  {
    Grants(history, i, key, g) && forall j :: i < j < |history| ==> !Ends(history[j], key, g)
  }

  ghost predicate Held(history: seq<Event>, key: string, g: nat) {
    exists i :: 0 <= i < |history| && HeldSince(history, i, key, g)
  }

  ghost predicate Current(history: seq<Event>, key: string, g: nat) {
    key in After(history).active && After(history).active[key] == g
  }

  lemma CurrentStep(before: seq<Event>, e: Event, key: string, g: nat)
    ensures Current(before + [e], key, g) <==>
      || (e.Claim? && GuardKey(e.channel, e.order) == key && key !in After(before).active
          && g == After(before).generation + 1)
      || (Current(before, key, g) && !Ends(e, key, g))
  {
    assert (before + [e])[..|before|] == before;
  }

  lemma HeldSinceStep(before: seq<Event>, e: Event, i: nat, key: string, g: nat)
    requires i < |before|
    ensures HeldSince(before + [e], i, key, g) <==> HeldSince(before, i, key, g) && !Ends(e, key, g)
  {
    var history := before + [e];
    assert history[..i] == before[..i];
    assert history[|before|] == e;
    if HeldSince(history, i, key, g) {
      assert forall j :: i < j < |before| ==> history[j] == before[j];
    }
  }

  lemma HeldStep(before: seq<Event>, e: Event, key: string, g: nat)
    ensures Held(before + [e], key, g) <==>
      Grants(before + [e], |before|, key, g) || (Held(before, key, g) && !Ends(e, key, g))
  {
    var history := before + [e];
    forall i: nat | i < |before|
      ensures HeldSince(history, i, key, g) <==> HeldSince(before, i, key, g) && !Ends(e, key, g)
    {
      HeldSinceStep(before, e, i, key, g);
    }
    if Held(before, key, g) && !Ends(e, key, g) {
      var i :| 0 <= i < |before| && HeldSince(before, i, key, g);
      assert HeldSince(history, i, key, g);
    }
    if Grants(history, |before|, key, g) {
      assert HeldSince(history, |before|, key, g);
    }
  }

  // A generation is current exactly when it was granted and nothing has ended
  // it since.
  lemma {:induction false} CurrentExactlyWhenHeld(history: seq<Event>, key: string, g: nat)
    ensures Current(history, key, g) <==> Held(history, key, g)
  {
    if history != [] {
      var before, e := history[..|history| - 1], history[|history| - 1];
      assert history == before + [e];
      CurrentExactlyWhenHeld(before, key, g);
      CurrentStep(before, e, key, g);
      HeldStep(before, e, key, g);
      assert history[..|before|] == before;
    }
  }

  lemma TakenExactlyWhenHeld(history: seq<Event>, key: string)
    ensures key in After(history).active <==> exists g :: Held(history, key, g)
  {
    if key in After(history).active {
      CurrentExactlyWhenHeld(history, key, After(history).active[key]);
    }
    if g :| Held(history, key, g) {
      CurrentExactlyWhenHeld(history, key, g);
    }
  }

  lemma {:induction false} GenerationOnlyGrows(history: seq<Event>, i: nat)
    requires i <= |history|
    ensures After(history[..i]).generation <= After(history).generation
    decreases |history|
  {
    if i == |history| {
      assert history[..i] == history;
    } else {
      var before := history[..|history| - 1];
      assert history[..i] == before[..i];
      GenerationOnlyGrows(before, i);
    }
  }

  // No generation is granted twice, on the same chat or on different ones.
  lemma GenerationsAreNeverReused(history: seq<Event>, i: nat, j: nat, key: string, key': string, g: nat, g': nat)
    requires i < j < |history| && Grants(history, i, key, g) && Grants(history, j, key', g')
    ensures g < g'
  {
    var after := history[..i + 1];
    assert after[..i] == history[..i] && After(after).generation == g;
    assert history[..j][..i + 1] == after;
    GenerationOnlyGrows(history[..j], i + 1);
  }

  // So once generation `g` was ended, nothing makes it current again: a
  // stopped task can release neither its own claim nor its replacement's.
  lemma EndedStaysEnded(history: seq<Event>, i: nat, k: nat, key: string, g: nat)
    requires i < k < |history| && Grants(history, i, key, g) && Ends(history[k], key, g)
    ensures !Current(history, key, g)
    ensures After(history + [Release(Peer, key, g)]).active == After(history).active
  {
    if Held(history, key, g) {
      var i' :| 0 <= i' < |history| && HeldSince(history, i', key, g);
      if i != i' {
        var first, second := if i < i' then i else i', if i < i' then i' else i;
        GenerationsAreNeverReused(history, first, second, key, key, g, g);
      }
    }
    CurrentExactlyWhenHeld(history, key, g);
    assert (history + [Release(Peer, key, g)])[..|history|] == history;
    assert GuardKey(Peer, key) == key;
  }

  // ---- Chats, not keys -----------------------------------------------------------

  ghost predicate KeysTellChatsApart(orders: iset<string>) {
    forall c, o, c', o' :: o in orders && o' in orders && GuardKey(c, o) == GuardKey(c', o') ==> c == c' && o == o'
  }

  // Two chats share a guard key exactly when one trade's id is the other's
  // behind the dispute prefix.
  lemma KeysCollideOnlyOnThePrefix(orders: iset<string>)
    ensures KeysTellChatsApart(orders) <==> forall o :: o in orders ==> DISPUTE_PREFIX + o !in orders
  {
    if KeysTellChatsApart(orders) {
      forall o | o in orders ensures DISPUTE_PREFIX + o !in orders {
        assert GuardKey(Dispute, o) == GuardKey(Peer, DISPUTE_PREFIX + o);
      }
    } else {
      var c, o, c', o' :| o in orders && o' in orders && GuardKey(c, o) == GuardKey(c', o') && !(c == c' && o == o');
      assert GuardKey(Peer, o) == o && GuardKey(Peer, o') == o';
      SameChannelSameOrder(c, o, o');
    }
  }

  lemma SameChannelSameOrder(c: Channel, o: string, o': string)
    ensures GuardKey(c, o) == GuardKey(c, o') ==> o == o'
  {
    assert o == GuardKey(c, o)[|IdPrefix(c)|..];
    assert o' == GuardKey(c, o')[|IdPrefix(c)|..];
  }

  // The orders a history is about.
  ghost predicate About(history: seq<Event>, orders: iset<string>) {
    forall i :: 0 <= i < |history| ==> history[i].order in orders
  }

  ghost predicate EndsChat(e: Event, channel: Channel, order: string, g: nat) {
    e == Stop(order) || e == Release(channel, order, g)
  }

  ghost predicate KeptSince(history: seq<Event>, i: nat, channel: Channel, order: string, g: nat) {
    forall j :: i < j < |history| ==> !EndsChat(history[j], channel, order, g)
  }

  // With such ids, a chat is current exactly for the task that claimed this
  // very chat and saw neither a stop of its own trade nor its own release.
  lemma CurrentTaskClaimedThisChat(history: seq<Event>, orders: iset<string>, channel: Channel, order: string, g: nat)
    requires About(history, orders) && order in orders
    requires forall o :: o in orders ==> DISPUTE_PREFIX + o !in orders
    ensures Current(history, GuardKey(channel, order), g) <==>
      exists i :: 0 <= i < |history|
        && history[i] == Claim(channel, order)
        && Grants(history, i, GuardKey(channel, order), g)
        && KeptSince(history, i, channel, order, g)
  {
    var key := GuardKey(channel, order);
    KeysCollideOnlyOnThePrefix(orders);
    CurrentExactlyWhenHeld(history, key, g);
    forall j | 0 <= j < |history|
      ensures Ends(history[j], key, g) <==> EndsChat(history[j], channel, order, g)
      ensures Grants(history, j, key, g) ==> history[j] == Claim(channel, order)
    {
      assert history[j].order in orders;
    }
    if Held(history, key, g) {
      var i :| 0 <= i < |history| && HeldSince(history, i, key, g);
      assert history[i] == Claim(channel, order);
    }
    if i :| 0 <= i < |history| && Grants(history, i, key, g) && KeptSince(history, i, channel, order, g) {
      assert HeldSince(history, i, key, g);
    }
  }

  // Without the condition a stop of one trade ends another trade's chat.
  lemma CollidingIdsStopAnotherTrade()
    ensures var mine := DISPUTE_PREFIX + "x";
      && Current([Claim(Peer, mine)], GuardKey(Peer, mine), 1)
      && !Current([Claim(Peer, mine), Stop("x")], GuardKey(Peer, mine), 1)
  {
    var mine := DISPUTE_PREFIX + "x";
    var one, two := [Claim(Peer, mine)], [Claim(Peer, mine), Stop("x")];
    assert After([]) == State(map[], 0);
    assert one[..0] == [] && two[..1] == one;
    assert GuardKey(Peer, mine) == mine == GuardKey(Dispute, "x");
    assert After(one) == State(map[mine := 1], 1);
    assert mine !in After(two).active;
  }

  // ---- The guarded map -------------------------------------------------------------

  class ActiveChats {
    var active: map<string, nat>
    var generation: nat
    ghost var history: seq<Event>

    ghost predicate Valid()
      reads this
    {
      After(history) == State(active, generation)
    }

    constructor ()
      ensures Valid() && history == []
    {
      active := map[];
      generation := 0;
      history := [];
    }

    method ClaimChat(channel: Channel, order: string) returns (claimed: Option<nat>)
      requires Valid()
      modifies this
      ensures Valid() && history == old(history) + [Claim(channel, order)]
      ensures claimed.None? <==> exists g :: Held(old(history), GuardKey(channel, order), g)
      ensures claimed.Some? ==> Grants(history, |old(history)|, GuardKey(channel, order), claimed.value)
    {
      TakenExactlyWhenHeld(history, GuardKey(channel, order));
      Record(Claim(channel, order));
      var key := GuardKey(channel, order);
      if key in active {
        return None;
      }
      generation := generation + 1;
      active := active[key := generation];
      claimed := Some(generation);
    }

    method ChatIsCurrent(channel: Channel, order: string, g: nat) returns (current: bool)
      requires Valid()
      ensures current <==> Held(history, GuardKey(channel, order), g)
    {
      var key := GuardKey(channel, order);
      CurrentExactlyWhenHeld(history, key, g);
      current := key in active && active[key] == g;
    }

    // Yes only to the task that has held the chat ever since its claim.
    method ReleaseChat(channel: Channel, order: string, g: nat) returns (released: bool)
      requires Valid()
      modifies this
      ensures Valid() && history == old(history) + [Release(channel, order, g)]
      ensures released <==> Held(old(history), GuardKey(channel, order), g)
      ensures !released ==> active == old(active)
    {
      var key := GuardKey(channel, order);
      CurrentExactlyWhenHeld(history, key, g);
      Record(Release(channel, order, g));
      if key in active && active[key] == g {
        active := active - {key};
        released := true;
      } else {
        released := false;
      }
    }

    method StopChatSubscriptions(order: string) returns (stopped: seq<Channel>)
      requires Valid()
      modifies this
      ensures Valid() && history == old(history) + [Stop(order)]
      ensures Peer in stopped <==> exists g :: Held(old(history), GuardKey(Peer, order), g)
      ensures Dispute in stopped <==> exists g :: Held(old(history), GuardKey(Dispute, order), g)
      ensures NoRepeats(stopped)
    {
      TakenExactlyWhenHeld(history, GuardKey(Peer, order));
      TakenExactlyWhenHeld(history, GuardKey(Dispute, order));
      Record(Stop(order));
      stopped := [];
      assert GuardKey(Peer, order) != GuardKey(Dispute, order) by {
        assert |GuardKey(Dispute, order)| == 8 + |order|;
      }
      if GuardKey(Peer, order) in active {
        active := active - {GuardKey(Peer, order)};
        stopped := stopped + [Peer];
      }
      if GuardKey(Dispute, order) in active {
        active := active - {GuardKey(Dispute, order)};
        stopped := stopped + [Dispute];
      }
      assert active == After(history).active;
    }

    ghost method Record(e: Event)
      requires Valid()
      modifies this`history
      ensures history == old(history) + [e] && After(history) == Apply(State(active, generation), e)
      ensures history[..|history| - 1] == old(history)
    {
      history := history + [e];
      assert history[..|history| - 1] == old(history);
    }
  }
}
