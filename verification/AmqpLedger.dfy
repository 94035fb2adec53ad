/** Which consumer spans are still open?  Each delivery is entered in two maps, one of its consumer
    and one of its AMQP channel, and whichever settles it first ends its span; the entry in the
    other map stays behind.
 */
module AmqpLedger {

  /** Acknowledgers, one for each delivery, by number.  Each has a span. */
  type Ack = nat

  /** The spans and their once-flags; `ends` counts how often each span was ended. */
  class Spans {
    var done: set<Ack>
    var ends: map<Ack, nat>

    constructor ()
      ensures done == {} && ends == map[]
    {
      done, ends := {}, map[];
    }

    /** Ends a span the first time it is called. */
    method End(a: Ack)
      modifies this
      ensures done == old(done) + {a}
      ensures ends == if a in old(done) then old(ends) else old(ends)[a := EndsOf(old(ends), a) + 1]
    {
      if a !in done {
        done := done + {a};
        ends := ends[a := EndsOf(ends, a) + 1];
      }
    }

    /** No span has ended twice, and the flag says which have ended. */
    ghost predicate Once()
      reads this
    {
      forall a: Ack :: EndsOf(ends, a) == if a in done then 1 else 0
    }

    method EndEach(m: map<nat, Ack>)
      requires Once()
      modifies this
      ensures done == old(done) + m.Values && Once()
    {
      var todo := m.Keys;
      while todo != {}
        invariant todo <= m.Keys && Once()
        invariant done == old(done) + (set t | t in m && t !in todo :: m[t])
      {
        var t :| t in todo;
        End(m[t]);
        assert done == old(done) + (set u | u in m && u !in todo - {t} :: m[u]);
        todo := todo - {t};
      }
      assert m.Values == set t | t in m :: m[t];
    }
  }

  function EndsOf(ends: map<Ack, nat>, a: Ack): nat { if a in ends then ends[a] else 0 }

  predicate Covers(tag: nat, multiple: bool, t: nat) {
    if multiple then t <= tag else t == tag
  }

  ghost predicate Injective(m: map<nat, Ack>) {
    forall t, u :: t in m && u in m && t != u ==> m[t] != m[u]
  }

  function Covered(acks: map<nat, Ack>, tag: nat, multiple: bool): map<nat, Ack> {
    map t | t in acks && Covers(tag, multiple, t) :: acks[t]
  }

  function Uncovered(acks: map<nat, Ack>, tag: nat, multiple: bool): map<nat, Ack> {
    map t | t in acks && !Covers(tag, multiple, t) :: acks[t]
  }

  class Pending {
    var acks: map<nat, Ack>

    constructor ()
      ensures acks == map[]
    {
      acks := map[];
    }

    method Add(tag: nat, a: Ack)
      modifies this
      ensures acks == old(acks)[tag := a]
    {
      acks := acks[tag := a];
    }

    /** Take the covered entries out; this part runs under the lock. */
    method Take(tag: nat, multiple: bool) returns (toEnd: map<nat, Ack>)
      modifies this
      ensures acks == Uncovered(old(acks), tag, multiple)
      ensures toEnd == Covered(old(acks), tag, multiple)
    {
      ghost var acks0 := acks;
      toEnd := map[];
      if multiple {
        var todo := acks.Keys;
        while todo != {}
          invariant todo <= acks0.Keys
          invariant toEnd == map t | t in acks0 && t !in todo && Covers(tag, true, t) :: acks0[t]
          invariant acks == map t | t in acks0 && (t in todo || !Covers(tag, true, t)) :: acks0[t]
        {
          var t :| t in todo;
          if t <= tag {
            toEnd := toEnd[t := acks[t]];
            acks := acks - {t};
          }
          todo := todo - {t};
        }
      } else if tag in acks {
        toEnd := toEnd[tag := acks[tag]];
        acks := acks - {tag};
      }
      assert toEnd == Covered(acks0, tag, multiple);
      assert acks == Uncovered(acks0, tag, multiple);
    }

    /** End the spans of the covered entries, after releasing the lock. */
    method Settle(spans: Spans, tag: nat, multiple: bool)
      requires spans.Once()
      modifies this, spans
      ensures acks == Uncovered(old(acks), tag, multiple)
      ensures spans.Once() && spans.done == old(spans.done) + Covered(old(acks), tag, multiple).Values
    {
      var toEnd := Take(tag, multiple);
      spans.EndEach(toEnd);
    }

    /** Take everything out and end it. */
    method EndAll(spans: Spans)
      requires spans.Once()
      modifies this, spans
      ensures acks == map[]
      ensures spans.Once() && spans.done == old(spans.done) + old(acks).Values
    {
      var left := acks;
      acks := map[];
      spans.EndEach(left);
    }
  }

  // ---------------------------------------------------------------- the ledger as a value

  /** The channel's map, the maps of its consumers, every delivery ever made and, in `open`, those
      whose span is not ended. */
  datatype View = View(
    sharedAcks: map<nat, Ack>, consumerAcks: seq<map<nat, Ack>>, running: set<nat>,
    ackOf: map<nat, Ack>, ownerOf: map<nat, nat>, open: set<nat>, registered: bool, closed: bool)

  ghost predicate Agrees(acks: map<nat, Ack>, ackOf: map<nat, Ack>) {
    forall t :: t in acks ==> t in ackOf && acks[t] == ackOf[t]
  }

  ghost predicate ConsumerOk(v: View, c: nat)
    requires c < |v.consumerAcks|
  {
    && Agrees(v.consumerAcks[c], v.ackOf)
    && (forall t :: t in v.consumerAcks[c] ==> t in v.ownerOf && v.ownerOf[t] == c)
    && (c !in v.running ==> v.consumerAcks[c] == map[])
  }

  /** An open delivery is in the channel's map and, if it has a consumer, in the consumer's. */
  ghost predicate OpenOk(v: View, t: nat) {
    && t in v.ackOf && t in v.sharedAcks
    && (t in v.ownerOf ==>
          v.ownerOf[t] in v.running && v.ownerOf[t] < |v.consumerAcks| && t in v.consumerAcks[v.ownerOf[t]])
  }

  ghost predicate Consistent(v: View) {
    && Injective(v.ackOf) && Agrees(v.sharedAcks, v.ackOf) && v.ownerOf.Keys <= v.ackOf.Keys
    && (!v.registered ==> v.sharedAcks == map[]) && (v.closed ==> !v.registered)
    && (forall c :: 0 <= c < |v.consumerAcks| ==> ConsumerOk(v, c))
    && (forall t :: t in v.open ==> OpenOk(v, t))
  }

  function With(m: map<nat, Ack>, tag: nat, a: Ack): map<nat, Ack> { m[tag := a] }

  function Entered(v: View, tag: nat, c: int, a: Ack): View
    requires c < |v.consumerAcks|
  {
    v.(sharedAcks := v.sharedAcks[tag := a],
       consumerAcks := if c < 0 then v.consumerAcks else v.consumerAcks[c := With(v.consumerAcks[c], tag, a)],
       ackOf := v.ackOf[tag := a], ownerOf := if c < 0 then v.ownerOf else v.ownerOf[tag := c], open := v.open + {tag})
  }

  function SettledShared(v: View, tag: nat, multiple: bool): View {
    v.(sharedAcks := Uncovered(v.sharedAcks, tag, multiple), open := v.open - Covered(v.sharedAcks, tag, multiple).Keys)
  }

  function SettledLocal(v: View, c: nat, tag: nat, multiple: bool): View
    requires c < |v.consumerAcks|
  {
    v.(consumerAcks := v.consumerAcks[c := Uncovered(v.consumerAcks[c], tag, multiple)],
       open := v.open - Covered(v.consumerAcks[c], tag, multiple).Keys)
  }

  function EndedLocal(v: View, c: nat): View
    requires c < |v.consumerAcks|
  {
    v.(consumerAcks := v.consumerAcks[c := map[]], running := v.running - {c}, open := v.open - v.consumerAcks[c].Keys)
  }

  function ShutDown(v: View): View {
    v.(sharedAcks := map[], open := v.open - v.sharedAcks.Keys, registered := false, closed := true)
  }

  /** The open deliveries that a settlement covers. */
  ghost function Hit(open: set<nat>, tag: nat, multiple: bool): set<nat> {
    set t | t in open && Covers(tag, multiple, t)
  }

  /** Tag 0 with `multiple` means every delivery to the server, but covers none here: tags start at 1. */
  lemma {:induction false} TagZeroCovers(open: set<nat>, multiple: bool)
    ensures Hit(open, 0, multiple) == open * {0}
  {
  }

  lemma {:induction false} EnterKeeps(v: View, tag: nat, c: int, a: Ack)
    requires Consistent(v) && tag !in v.ackOf && a !in v.ackOf.Values && v.registered && c < |v.consumerAcks|
             && (c >= 0 ==> c in v.running)
    ensures Consistent(Entered(v, tag, c, a))
  {
    var w := Entered(v, tag, c, a);
    forall d | 0 <= d < |w.consumerAcks| ensures ConsumerOk(w, d) { assert ConsumerOk(v, d); }
    forall t | t in w.open ensures OpenOk(w, t) { if t != tag { assert OpenOk(v, t); } }
  }

  /** Settling on the channel ends exactly the open deliveries it covers, although entries in the
      consumers' maps are left behind. */
  lemma {:induction false} SettleSharedKeeps(v: View, tag: nat, multiple: bool)
    requires Consistent(v)
    ensures Consistent(SettledShared(v, tag, multiple))
    ensures SettledShared(v, tag, multiple).open == v.open - Hit(v.open, tag, multiple)
  {
    var w := SettledShared(v, tag, multiple);
    forall t | t in v.open ensures OpenOk(v, t) { }
    forall d | 0 <= d < |w.consumerAcks| ensures ConsumerOk(w, d) { assert ConsumerOk(v, d); }
    forall t | t in w.open ensures OpenOk(w, t) { assert OpenOk(v, t); }
  }

  /** Settling in a consumer's map before the channel's leaves open deliveries where they belong. */
  lemma {:induction false} SettleLocalKeeps(v: View, c: nat, tag: nat, multiple: bool)
    requires Consistent(v) && c < |v.consumerAcks|
    ensures Consistent(SettledLocal(v, c, tag, multiple))
    ensures SettledLocal(v, c, tag, multiple).open - Hit(SettledLocal(v, c, tag, multiple).open, tag, multiple)
            == v.open - Hit(v.open, tag, multiple)
  {
    var w := SettledLocal(v, c, tag, multiple);
    assert ConsumerOk(v, c);
    forall d | 0 <= d < |w.consumerAcks| ensures ConsumerOk(w, d) { assert ConsumerOk(v, d); }
    forall t | t in w.open ensures OpenOk(w, t) { assert OpenOk(v, t); }
  }

  lemma {:induction false} EndLocalKeeps(v: View, c: nat)
    requires Consistent(v) && c < |v.consumerAcks|
    ensures Consistent(EndedLocal(v, c))
    ensures EndedLocal(v, c).open == v.open - set t | t in v.open && t in v.ownerOf && v.ownerOf[t] == c
  {
    var w := EndedLocal(v, c);
    assert ConsumerOk(v, c);
    forall t | t in v.open ensures OpenOk(v, t) { }
    forall d | 0 <= d < |w.consumerAcks| ensures ConsumerOk(w, d) { assert ConsumerOk(v, d); }
    forall t | t in w.open ensures OpenOk(w, t) { assert OpenOk(v, t); }
  }

  lemma {:induction false} ShutDownKeeps(v: View)
    requires Consistent(v)
    ensures Consistent(ShutDown(v)) && ShutDown(v).open == {}
  {
    var w := ShutDown(v);
    forall t | t in v.open ensures OpenOk(v, t) { }
    forall d | 0 <= d < |w.consumerAcks| ensures ConsumerOk(w, d) { assert ConsumerOk(v, d); }
  }

  lemma {:induction false} ConsumeKeeps(v: View)
    requires Consistent(v)
    ensures Consistent(v.(consumerAcks := v.consumerAcks + [map[]], running := v.running + {|v.consumerAcks|}))
  {
    var w := v.(consumerAcks := v.consumerAcks + [map[]], running := v.running + {|v.consumerAcks|});
    forall d | 0 <= d < |w.consumerAcks| ensures ConsumerOk(w, d) { assert d < |v.consumerAcks| ==> ConsumerOk(v, d); }
    forall t | t in w.open ensures OpenOk(w, t) { assert OpenOk(v, t); }
  }

  lemma {:induction false} RegisterKeeps(v: View)
    requires Consistent(v) && !v.closed
    ensures Consistent(v.(registered := true))
  {
    var w := v.(registered := true);
    forall d | 0 <= d < |w.consumerAcks| ensures ConsumerOk(w, d) { assert ConsumerOk(v, d); }
    forall t | t in w.open ensures OpenOk(w, t) { assert OpenOk(v, t); }
  }

  lemma {:induction false} UnregisteredIsQuiet(v: View)
    requires Consistent(v)
    ensures !v.registered ==> v.open == {}
  {
    forall t | t in v.open ensures t in v.sharedAcks { assert OpenOk(v, t); }
  }

  // ---------------------------------------------------------------- the ledger in memory

  /** The deliveries whose span is not ended. */
  ghost function OpenOf(m: map<nat, Ack>, done: set<Ack>): set<nat> {
    set t | t in m && m[t] !in done
  }

  lemma {:induction false} OneMoreOpen(m: map<nat, Ack>, tag: nat, a: Ack, done: set<Ack>)
    requires tag !in m && a !in done
    ensures OpenOf(m[tag := a], done) == OpenOf(m, done) + {tag}
  {
  }

  /** What ending entries of one map means for all deliveries. */
  lemma {:induction false} EndedIn(m: map<nat, Ack>, gone: map<nat, Ack>, done: set<Ack>)
    requires Injective(m) && Agrees(gone, m)
    ensures OpenOf(m, done + gone.Values) == OpenOf(m, done) - gone.Keys
  {
    forall t | t in m ensures m[t] in gone.Values <==> t in gone {
      if m[t] in gone.Values {
        var u :| u in gone && gone[u] == m[t];
        assert m[u] == m[t];
      }
    }
  }

  ghost function AcksOf(ps: seq<Pending>): (r: seq<map<nat, Ack>>)
    reads ps
    ensures |r| == |ps| && forall i :: 0 <= i < |ps| ==> r[i] == ps[i].acks
  {
    if ps == [] then [] else AcksOf(ps[..|ps| - 1]) + [ps[|ps| - 1].acks]
  }

  class Ledger {
    const spans: Spans
    var registry: Pending?              // the channel's entry in the table of all channels
    var consumers: seq<Pending>
    ghost var running: set<nat>         // consumers whose delivery loop has not ended
    var shared: Pending?                // the channel's map, to which its acknowledgers refer for good
    ghost var ackOf: map<nat, Ack>      // all deliveries by tag
    ghost var ownerOf: map<nat, nat>    // the consumer of a delivery
    ghost var closed: bool

    constructor ()
      ensures Valid() && ackOf == map[] && !closed && fresh(spans)
    {
      spans := new Spans();
      registry, consumers, running := null, [], {};
      shared, ackOf, ownerOf, closed := null, map[], map[], false;
    }

    ghost function Now(): View
      reads this, shared, consumers, spans
    {
      View(if shared == null then map[] else shared.acks, AcksOf(consumers), running, ackOf, ownerOf, Open(),
           registry != null, closed)
    }

    /** The deliveries whose span is open. */
    ghost function Open(): set<nat>
      reads this`ackOf, spans
    {
      OpenOf(ackOf, spans.done)
    }

    ghost predicate Shape()
      reads this
    {
      && (registry != null ==> registry == shared) && (registry == null && !closed ==> shared == null)
      && (forall c, d :: 0 <= c < d < |consumers| ==> consumers[c] != consumers[d])
      && (shared != null ==> shared !in consumers) && (shared == null ==> ackOf == map[])
    }

    ghost predicate Valid()
      reads this, shared, consumers, spans
    {
      Shape() && spans.Once() && Consistent(Now())
    }

    /** A consumer starts. */
    method Consume() returns (c: nat)
      requires Valid()
      modifies this`consumers, this`running
      ensures Valid() && c == |old(consumers)| && running == old(running) + {c} && |consumers| == c + 1
      ensures Open() == old(Open()) && ackOf == old(ackOf) && closed == old(closed)
    {
      ghost var v := Now();
      c := AddConsumer();
      ConsumeKeeps(v);
    }

    method AddConsumer() returns (c: nat)
      requires Shape() && spans.Once()
      modifies this`consumers, this`running
      ensures Shape() && spans.Once() && c == |old(consumers)| && |consumers| == c + 1
      ensures Now() == old(Now()).(consumerAcks := old(Now()).consumerAcks + [map[]], running := old(running) + {c})
    {
      ghost var acks := AcksOf(consumers);
      c := |consumers|;
      var p := new Pending();
      consumers := consumers + [p];
      running := running + {c};
      assert AcksOf(consumers) == acks + [map[]];
    }

    /** The channel's entry in the table, made when it is first needed. */
    method AcksFor()
      requires Valid() && !closed
      modifies this`registry, this`shared
      ensures Valid() && registry != null && (old(registry) == null ==> fresh(registry))
              && (old(registry) != null ==> registry == old(registry))
      ensures registry == shared && Open() == old(Open())
    {
      if registry == null {
        ghost var v := Now();
        registry := new Pending();
        shared := registry;
        assert Now() == v.(registered := true);
        RegisterKeeps(v);
      }
    }

    /** A delivery that the application must settle, with an acknowledger of its own; `c` is its
        consumer, negative for a Get. */
    method Deliver(tag: nat, a: Ack, c: int)
      requires Valid() && !closed && tag !in ackOf && a !in ackOf.Values && a !in spans.done
      requires c < |consumers| && (c >= 0 ==> c in running)
      modifies this`registry, this`shared, this`ackOf, this`ownerOf, shared, consumers
      ensures Valid() && ackOf == old(ackOf)[tag := a] && Open() == old(Open()) + {tag}
    {
      AcksFor();
      EnterOpen(tag, a, c);
    }

    method EnterOpen(tag: nat, a: Ack, c: int)
      requires Valid() && registry != null && tag !in ackOf && a !in ackOf.Values && a !in spans.done
      requires c < |consumers| && (c >= 0 ==> c in running)
      modifies this`ackOf, this`ownerOf, registry, consumers
      ensures Valid() && ackOf == old(ackOf)[tag := a] && Open() == old(Open()) + {tag}
    {
      ghost var v := Now();
      OneMoreOpen(ackOf, tag, a, spans.done);
      EnterKeeps(v, tag, c, a);
      Enter(tag, a, c);
      assert Now() == Entered(v, tag, c, a);
    }

    /** Record the delivery and enter it in both maps. */
    method Enter(tag: nat, a: Ack, c: int)
      requires Apart() && registry != null && c < |consumers|
      modifies this`ackOf, this`ownerOf, registry, consumers
      ensures registry.acks == old(registry.acks)[tag := a] && ackOf == old(ackOf)[tag := a]
      ensures ownerOf == if c < 0 then old(ownerOf) else old(ownerOf)[tag := c]
      ensures AcksOf(consumers) == if c < 0 then old(AcksOf(consumers))
              else old(AcksOf(consumers))[c := With(old(AcksOf(consumers))[c], tag, a)]
    {
      ackOf := ackOf[tag := a];
      ownerOf := if c < 0 then ownerOf else ownerOf[tag := c];
      AddBoth(tag, a, c);
    }

    ghost predicate Apart()
      reads this`registry, this`consumers
    {
      (registry != null ==> registry !in consumers) && forall c, d :: 0 <= c < d < |consumers| ==>
        consumers[c] != consumers[d]
    }

    /** First the consumer's map, then the channel's. */
    method AddBoth(tag: nat, a: Ack, c: int)
      requires Apart() && registry != null && c < |consumers|
      modifies registry, consumers
      ensures registry.acks == old(registry.acks)[tag := a]
      ensures AcksOf(consumers) == if c < 0 then old(AcksOf(consumers))
              else old(AcksOf(consumers))[c := With(old(AcksOf(consumers))[c], tag, a)]
    {
      if c >= 0 { consumers[c].Add(tag, a); }
      registry.Add(tag, a);
    }

    /** Settle in the channel's map. */
    method SettleShared(p: Pending, tag: nat, multiple: bool)
      requires Valid() && p == shared
      modifies p, spans
      ensures Valid() && Open() == old(Open()) - Hit(old(Open()), tag, multiple)
    {
      ghost var v := Now();
      p.Settle(spans, tag, multiple);
      EndedIn(ackOf, Covered(v.sharedAcks, tag, multiple), old(spans.done));
      SettleSharedKeeps(v, tag, multiple);
      assert AcksOf(consumers) == v.consumerAcks;
      assert Now() == SettledShared(v, tag, multiple);
    }

    /** Settle in the map of consumer c, leaving the rest to the channel's map. */
    method SettleLocal(c: nat, tag: nat, multiple: bool)
      requires Valid() && c < |consumers|
      modifies consumers[c], spans
      ensures Valid() && Open() - Hit(Open(), tag, multiple) == old(Open()) - Hit(old(Open()), tag, multiple)
    {
      ghost var v := Now();
      consumers[c].Settle(spans, tag, multiple);
      assert ConsumerOk(v, c);
      EndedIn(ackOf, Covered(v.consumerAcks[c], tag, multiple), old(spans.done));
      SettleLocalKeeps(v, c, tag, multiple);
      assert AcksOf(consumers) == SettledLocal(v, c, tag, multiple).consumerAcks;
      assert Now() == SettledLocal(v, c, tag, multiple);
    }

    /** `Channel.Ack`, `Nack` or `Reject`, whether it succeeded or not. */
    method AfterChannelSettle(tag: nat, multiple: bool)
      requires Valid()
      modifies registry, spans
      ensures Valid() && Open() == set t | t in old(Open()) && if multiple then t > tag else t != tag
    {
      if registry != null {
        SettleShared(registry, tag, multiple);
      } else {
        UnregisteredIsQuiet(Now());
      }
    }

    /** Settling through the acknowledger of a delivery: the call it wraps reaches the channel, whose
        hook settles first when it is instrumented, and then both maps are settled. */
    method SettleDelivery(delivery: nat, c: int, tag: nat, multiple: bool, hooked: bool)
      requires Valid() && delivery in ackOf && c == (if delivery in ownerOf then ownerOf[delivery] else -1)
               && c < |consumers|
      modifies registry, shared, consumers, spans
      ensures Valid() && Open() == set t | t in old(Open()) && if multiple then t > tag else t != tag
    {
      if hooked { AfterChannelSettle(tag, multiple); }
      if c >= 0 { SettleLocal(c, tag, multiple); }
      SettleShared(shared, tag, multiple);
    }

    /** The delivery loop of a consumer ends: its unsettled deliveries are over. */
    method ConsumerEnds(c: nat)
      requires Valid() && c < |consumers|
      modifies consumers[c], this`running, spans
      ensures Valid() && c !in running
      ensures Open() == old(Open()) - set t | t in old(Open()) && t in ownerOf && ownerOf[t] == c
    {
      ghost var v := Now();
      consumers[c].EndAll(spans);
      running := running - {c};
      assert ConsumerOk(v, c);
      EndedIn(ackOf, v.consumerAcks[c], old(spans.done));
      EndLocalKeeps(v, c);
      assert AcksOf(consumers) == EndedLocal(v, c).consumerAcks;
      assert Now() == EndedLocal(v, c);
    }

    /** The channel has shut down: its entry goes, and so does every span still open. */
    method AfterShutdown()
      requires Valid()
      modifies this`registry, this`closed, shared, spans
      ensures Valid() && closed && Open() == {}
    {
      ghost var v := Now();
      if registry != null {
        registry.EndAll(spans);
        registry := null;
        EndedIn(ackOf, v.sharedAcks, old(spans.done));
      }
      closed := true;
      ShutDownKeeps(v);
      assert AcksOf(consumers) == v.consumerAcks;
      assert Now() == ShutDown(v);
    }
  }
}
