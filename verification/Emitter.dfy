/** Concurrent event emission (engine/src/core/events.rs): an atomic ticket counter and a broadcast channel shared
    by all clones of an emitter. Taking a ticket and sending are two steps that may interleave. */
module Emitter {
  import opened Basics

  /** What has been sent: the sender, and the ticket its id was made from. */
  datatype Sent = Sent(emitter: nat, ticket: nat)

  /** `taken` counts the tickets handed out, `inFlight` holds the tickets taken and not yet sent. */
  datatype Channel = Channel(taken: nat, inFlight: map<nat, nat>, sent: seq<Sent>)

  datatype Action = Take(emitter: nat) | Send(emitter: nat)

  const EMPTY := Channel(0, map[], [])

  /** The id that goes out with a ticket: the counter wraps around. */
  function EventId(ticket: nat): nat {
    ticket % WRAP
  }

  /** An emitter takes a ticket only when it holds none, and sends only the one it holds. */
  predicate Enabled(c: Channel, a: Action) {
    match a
    case Take(e) => e !in c.inFlight
    case Send(e) => e in c.inFlight
  }

  function Do(c: Channel, a: Action): Channel
    requires Enabled(c, a)
  {
    match a
    case Take(e) => Channel(c.taken + 1, c.inFlight[e := c.taken], c.sent)
    case Send(e) => Channel(c.taken, c.inFlight - {e}, c.sent + [Sent(e, c.inFlight[e])])
  }

  /** The channel after a run of actions from the empty one, if each was enabled when its turn came. */
  function After(run: seq<Action>): Option<Channel>
    decreases |run|
  {
    if run == [] then Some(EMPTY)
    else
      match After(run[..|run| - 1])
      case None => None
      case Some(c) => if Enabled(c, run[|run| - 1]) then Some(Do(c, run[|run| - 1])) else None
  }

  ghost predicate IsSent(c: Channel, ticket: nat) {
    exists i :: 0 <= i < |c.sent| && c.sent[i].ticket == ticket
  }

  ghost predicate IsInFlight(c: Channel, ticket: nat) {
    exists e :: e in c.inFlight && c.inFlight[e] == ticket
  }

  /** The tickets below `taken` are the disjoint union of sent and in-flight ones, none twice, and every
      emitter's tickets come out in the order it took them. */
  ghost predicate Consistent(c: Channel) {
    && (forall t: nat :: t < c.taken <==> IsSent(c, t) || IsInFlight(c, t))
    && (forall t: nat :: !(IsSent(c, t) && IsInFlight(c, t)))
    && (forall i, j :: 0 <= i < j < |c.sent| ==> c.sent[i].ticket != c.sent[j].ticket)
    && (forall e, f :: e in c.inFlight && f in c.inFlight && e != f ==> c.inFlight[e] != c.inFlight[f])
    && (forall i, j :: 0 <= i < j < |c.sent| && c.sent[i].emitter == c.sent[j].emitter ==> c.sent[i].ticket < c.sent[j].ticket)
    && (forall i :: 0 <= i < |c.sent| && c.sent[i].emitter in c.inFlight ==> c.sent[i].ticket < c.inFlight[c.sent[i].emitter])
  }

  lemma TakeKeepsConsistent(c: Channel, e: nat)
    requires Consistent(c) && e !in c.inFlight
    ensures Consistent(Do(c, Take(e)))
  {
    var d := Do(c, Take(e));
    forall t: nat
      ensures IsSent(d, t) <==> IsSent(c, t)
      ensures IsInFlight(d, t) <==> IsInFlight(c, t) || t == c.taken
    {
      if IsInFlight(c, t) {
        var f :| f in c.inFlight && c.inFlight[f] == t;
        assert f in d.inFlight && d.inFlight[f] == t;
      }
      assert e in d.inFlight && d.inFlight[e] == c.taken;
    }
    forall i | 0 <= i < |c.sent|
      ensures c.sent[i].ticket < c.taken
    {
      assert IsSent(c, c.sent[i].ticket);
    }
    forall f | f in c.inFlight
      ensures c.inFlight[f] < c.taken
    {
      assert IsInFlight(c, c.inFlight[f]);
    }
  }

  lemma SendKeepsConsistent(c: Channel, e: nat)
    requires Consistent(c) && e in c.inFlight
    ensures Consistent(Do(c, Send(e)))
  {
    var d, mine := Do(c, Send(e)), c.inFlight[e];
    assert IsInFlight(c, mine);
    forall t: nat
      ensures IsSent(d, t) <==> IsSent(c, t) || t == mine
      ensures IsInFlight(d, t) <==> IsInFlight(c, t) && t != mine
    {
      if IsSent(c, t) {
        var i :| 0 <= i < |c.sent| && c.sent[i].ticket == t;
        assert d.sent[i] == c.sent[i];
      }
      assert d.sent[|c.sent|].ticket == mine;
      if IsInFlight(c, t) && t != mine {
        var f :| f in c.inFlight && c.inFlight[f] == t;
        assert f in d.inFlight && d.inFlight[f] == t;
      }
    }
    forall i | 0 <= i < |c.sent|
      ensures c.sent[i].ticket != mine
    {
      assert IsSent(c, c.sent[i].ticket);
    }
  }

  /** Under every interleaving of any number of emitters the channel stays consistent. */
  lemma {:induction false} EveryRunIsConsistent(run: seq<Action>)
    requires After(run).Some?
    ensures Consistent(After(run).value)
    decreases |run|
  {
    if run != [] {
      var init, last := run[..|run| - 1], run[|run| - 1];
      var before := After(init).value;
      EveryRunIsConsistent(init);
      match last
      case Take(e) => TakeKeepsConsistent(before, e);
      case Send(e) => SendKeepsConsistent(before, e);
    }
  }

  /** Once nothing is in flight every ticket taken has been sent. */
  lemma AllSentAtQuiescence(run: seq<Action>, c: Channel)
    requires After(run) == Some(c) && c.inFlight == map[]
    ensures forall t: nat :: t < c.taken <==> IsSent(c, t)
  {
    EveryRunIsConsistent(run);
    assert forall t: nat :: !IsInFlight(c, t);
  }

  ghost predicate DistinctEventIds(c: Channel) {
    forall i, j :: 0 <= i < j < |c.sent| ==> EventId(c.sent[i].ticket) != EventId(c.sent[j].ticket)
  }

  /** With everything sent, the event ids that went out are pairwise distinct exactly when the counter has not
      gone past its last value. */
  lemma EventIdsDistinctIff(run: seq<Action>, c: Channel)
    requires After(run) == Some(c) && c.inFlight == map[]
    ensures DistinctEventIds(c) <==> c.taken <= WRAP
  {
    EveryRunIsConsistent(run);
    AllSentAtQuiescence(run, c);
    if c.taken <= WRAP {
      forall i | 0 <= i < |c.sent|
        ensures EventId(c.sent[i].ticket) == c.sent[i].ticket
      {
        assert IsSent(c, c.sent[i].ticket);
      }
    } else {
      assert IsSent(c, 0) && IsSent(c, WRAP);
      var i :| 0 <= i < |c.sent| && c.sent[i].ticket == 0;
      var j :| 0 <= j < |c.sent| && c.sent[j].ticket == WRAP;
      assert EventId(0) == EventId(WRAP);
      assert EventId(c.sent[i].ticket) == EventId(c.sent[j].ticket);
    }
  }

  /** One emitter on its own: `emit` and `emit_raw` are a take and a send in a row. */
  class EventEmitter {
    var counter: nat
    var channel: seq<Sent>
    const self: nat

    ghost predicate Valid()
      reads this
    {
      Consistent(Channel(counter, map[], channel))
    }

    constructor (self: nat)
      ensures Valid() && counter == 0 && channel == []
    {
      this.self := self;
      counter, channel := 0, [];
    }

    /** Returns the id the event went out with. */
    method Emit() returns (eventId: nat)
      requires Valid()
      modifies this`counter, this`channel
      ensures Valid()
      ensures eventId == EventId(old(counter)) && counter == old(counter) + 1
      ensures channel == old(channel) + [Sent(self, old(counter))]
    {
      ghost var c := Channel(counter, map[], channel);
      TakeKeepsConsistent(c, self);
      SendKeepsConsistent(Do(c, Take(self)), self);
      assert map[self := counter] - {self} == map[];
      var ticket := counter;
      counter := counter + 1;
      channel := channel + [Sent(self, ticket)];
      return EventId(ticket);
    }
  }
}
