/**
The message tables and the group channels in one run. A channel is torn down, with
its messages, by the departure of its last member and by nothing else, and a message
is posted to a group by a member of it.
*/
module Teardowns {
  import opened Text
  import opened Lists
  import opened Messages
  import opened Erase
  import opened Retention
  import opened MessageStore
  import Groups
  import MessageRuns

  datatype World = World(groups: Groups.World, messages: MessageRuns.World)

  datatype Event = Membership(rq: Groups.Request) | Message(event: MessageRuns.Event)

  datatype Timed = Timed(at: int, event: Event)

  // The channels a request deletes.
  function Emptied(groups: Groups.World, rq: Groups.Request): set<string> {
    set c | c in groups.channels && c !in Groups.Handle(groups, rq).w.channels
  }

  // What an event does to the message tables.
  function OnMessages(groups: Groups.World, e: Timed): MessageRuns.Timed {
    match e.event
    case Membership(rq) => MessageRuns.Timed(e.at, MessageRuns.CloseChannels(Emptied(groups, rq)))
    case Message(event) => MessageRuns.Timed(e.at, event)
  }

  predicate IsMember(groups: Groups.World, channel: string, address: string) {
    channel in groups.channels && Groups.Find(groups.channels[channel].members, address).Some?
  }

  // A group message is posted by a member; a channel's id is never drawn again.
  predicate Enabled(w: World, e: Timed) {
    && w.messages.clock <= e.at
    && match e.event
       case Membership(rq) => Groups.Enabled(w.groups, rq) && (rq.Create? ==> rq.id !in w.messages.closed)
       case Message(Send(row)) =>
         && row.createdAt == e.at
         && (row.kind.Group? ==> row.target.Some? && IsMember(w.groups, row.target.value, row.sender))
         && forall s :: s in w.messages.sent && s.kind == row.kind ==> s.id < row.id
       case Message(event) => !event.CloseChannels?
  }

  function Step(c: Crypto, w: World, e: Timed): World {
    World(
      if e.event.Membership? then Groups.Handle(w.groups, e.event.rq).w else w.groups,
      MessageRuns.Step(c, w.messages, OnMessages(w.groups, e)))
  }

  predicate Legal(c: Crypto, w: World, es: seq<Timed>)
    decreases |es|
  {
    es == [] || (Enabled(w, es[0]) && Legal(c, Step(c, w, es[0]), es[1..]))
  }

  function Run(c: Crypto, w: World, es: seq<Timed>): World
    decreases |es|
  {
    if es == [] then w else Run(c, Step(c, w, es[0]), es[1..])
  }

  // ---- Who empties a channel ----

  // The only member of a channel leaves it, or leaves every group.
  predicate LastMemberLeaves(groups: Groups.World, rq: Groups.Request, channel: string) {
    && channel in groups.channels && |groups.channels[channel].members| == 1
    && var a := groups.channels[channel].members[0].address;
       || (rq.Remove? && rq.channel == channel && Lower(rq.caller) == a && Lower(rq.address) == a)
       || (rq.LeaveAll? && rq.address == a)
  }

  lemma AloneAt(ch: Groups.Channel, a: string)
    requires Groups.ChannelOk(ch)
    ensures Groups.Depart(ch, a).None? <==> |ch.members| == 1 && ch.members[0].address == a
  {
    Groups.DepartOk(ch, a);
    if Groups.Depart(ch, a).None? {
      forall i | 0 <= i < |ch.members| ensures ch.members[i].address == a {
        assert ch.members[i] in Filter(Groups.Others(a), ch.members) <==> Groups.Others(a)(ch.members[i]);
      }
    }
  }

  lemma RemovalEmpties(groups: Groups.World, caller: string, channel: string, address: string)
    requires channel in groups.channels && Groups.ChannelOk(groups.channels[channel])
    ensures channel !in Groups.DoRemove(groups, caller, channel, address).w.channels
       <==> LastMemberLeaves(groups, Groups.Remove(caller, channel, address), channel)
  {
    AloneAt(groups.channels[channel], Lower(address));
  }

  // Nothing else deletes a channel.
  lemma KeepsChannel(groups: Groups.World, rq: Groups.Request, channel: string)
    requires channel in groups.channels && !rq.LeaveAll? && !(rq.Remove? && rq.channel == channel)
    ensures channel in Groups.Handle(groups, rq).w.channels
  {
  }

  // Main result: a request deletes a channel if and only if its last member leaves.
  lemma EmptiedIffLastLeaves(groups: Groups.World, rq: Groups.Request, channel: string)
    requires Groups.AllOk(groups) && Groups.Enabled(groups, rq)
    ensures channel in Emptied(groups, rq) <==> LastMemberLeaves(groups, rq, channel)
  {
    if channel in groups.channels {
      match rq
      case LeaveAll(address) => AloneAt(groups.channels[channel], address);
      case Remove(caller, _, address) =>
        if rq.channel == channel {
          RemovalEmpties(groups, caller, channel, address);
        } else {
          KeepsChannel(groups, rq, channel);
        }
      case _ => KeepsChannel(groups, rq, channel);
    }
  }

  // ---- What every step keeps ----

  // Every stored group message belongs to a channel there is, and a channel torn
  // down is not there.
  predicate InChannel(w: World, r: Row) { r.kind.Group? ==> r.target.Some? && r.target.value in w.groups.channels }

  ghost predicate Inv(c: Crypto, w: World) {
    && Groups.AllOk(w.groups) && MessageRuns.WellFormed(c, w.messages)
    && (forall channel :: channel in w.messages.closed ==> channel !in w.groups.channels)
    && (forall r :: r in w.messages.rows ==> InChannel(w, r))
  }

  lemma MessageEnabled(c: Crypto, w: World, e: Timed)
    requires Inv(c, w) && Enabled(w, e)
    ensures MessageRuns.Enabled(w.messages, OnMessages(w.groups, e))
  {
  }

  // A row after an event was there before it, or was just posted.
  lemma RowBefore(c: Crypto, w: World, e: Timed, r: Row) returns (r0: Row)
    requires Inv(c, w) && Enabled(w, e) && r in Step(c, w, e).messages.rows
    ensures r0.kind == r.kind && r0.target == r.target
    ensures r0 in w.messages.rows || (e.event.Message? && e.event.event.Send? && r == e.event.event.row)
    ensures e.event.Membership? ==> OutsideChannels(Emptied(w.groups, e.event.rq))(r)
  {
    MessageEnabled(c, w, e);
    r0 := MessageRuns.Predecessor(c, w.messages, OnMessages(w.groups, e), r);
  }

  lemma ChannelsKept(groups: Groups.World, rq: Groups.Request, channel: string)
    requires channel in groups.channels && channel !in Emptied(groups, rq)
    ensures channel in Groups.Handle(groups, rq).w.channels
  {
  }

  lemma StepInChannel(c: Crypto, w: World, e: Timed, r: Row)
    requires Inv(c, w) && Enabled(w, e) && r in Step(c, w, e).messages.rows
    ensures InChannel(Step(c, w, e), r)
  {
    var r0 := RowBefore(c, w, e, r);
    if r0 in w.messages.rows {
      assert InChannel(w, r0);
      if e.event.Membership? && r.kind.Group? { ChannelsKept(w.groups, e.event.rq, r.target.value); }
    }
  }

  lemma NoneReopened(groups: Groups.World, rq: Groups.Request, channel: string)
    requires channel in Groups.Handle(groups, rq).w.channels && channel !in groups.channels
    ensures rq.Create? && rq.id == channel
  {
  }

  lemma ClosedStep(c: Crypto, w: World, e: Timed, channel: string)
    requires Inv(c, w) && Enabled(w, e) && channel in Step(c, w, e).messages.closed
    ensures channel !in Step(c, w, e).groups.channels
  {
    if e.event.Membership? && channel in Step(c, w, e).groups.channels && channel !in w.groups.channels {
      NoneReopened(w.groups, e.event.rq, channel);
    }
  }

  lemma InvStep(c: Crypto, w: World, e: Timed)
    requires Inv(c, w) && Enabled(w, e)
    ensures Inv(c, Step(c, w, e))
  {
    var w' := Step(c, w, e);
    MessageEnabled(c, w, e);
    MessageRuns.WellFormedStep(c, w.messages, OnMessages(w.groups, e));
    if e.event.Membership? { Groups.HandleOk(w.groups, e.event.rq); }
    forall channel | channel in w'.messages.closed ensures channel !in w'.groups.channels {
      ClosedStep(c, w, e, channel);
    }
    forall r | r in w'.messages.rows ensures InChannel(w', r) { StepInChannel(c, w, e, r); }
  }

  lemma {:induction false} InvRun(c: Crypto, w: World, es: seq<Timed>)
    requires Inv(c, w) && Legal(c, w, es)
    ensures Inv(c, Run(c, w, es))
    decreases |es|
  {
    if es != [] {
      InvStep(c, w, es[0]);
      InvRun(c, Step(c, w, es[0]), es[1..]);
    }
  }

  // Main result: over any run, every stored group message belongs to a channel with
  // a member in it.
  lemma StoredHasAMember(c: Crypto, w: World, es: seq<Timed>, r: Row)
    requires Inv(c, w) && Legal(c, w, es) && r in Run(c, w, es).messages.rows && r.kind.Group?
    ensures var groups := Run(c, w, es).groups;
      r.target.Some? && r.target.value in groups.channels && groups.channels[r.target.value].members != []
  {
    InvRun(c, w, es);
    assert InChannel(Run(c, w, es), r);
  }

  // ---- What takes a message with a key ----

  // The message half of a run.
  function Trace(c: Crypto, w: World, es: seq<Timed>): (trace: seq<MessageRuns.Timed>)
    ensures |trace| == |es|
    decreases |es|
  {
    if es == [] then [] else [OnMessages(w.groups, es[0])] + Trace(c, Step(c, w, es[0]), es[1..])
  }

  lemma {:induction false} TraceRuns(c: Crypto, w: World, es: seq<Timed>)
    requires Inv(c, w) && Legal(c, w, es)
    ensures MessageRuns.Legal(c, w.messages, Trace(c, w, es))
    ensures MessageRuns.Run(c, w.messages, Trace(c, w, es)) == Run(c, w, es).messages
    decreases |es|
  {
    if es != [] {
      var next := Step(c, w, es[0]);
      MessageEnabled(c, w, es[0]);
      InvStep(c, w, es[0]);
      TraceRuns(c, next, es[1..]);
      assert Trace(c, w, es)[1..] == Trace(c, next, es[1..]);
    }
  }

  // Event i of a trace is what event i does in the state the run has reached.
  lemma {:induction false} TraceAt(c: Crypto, w: World, es: seq<Timed>, i: nat)
    requires Inv(c, w) && Legal(c, w, es) && i < |es|
    ensures Inv(c, Run(c, w, es[..i])) && Enabled(Run(c, w, es[..i]), es[i])
    ensures Trace(c, w, es)[i] == OnMessages(Run(c, w, es[..i]).groups, es[i])
    decreases |es|
  {
    if i == 0 {
      assert es[..0] == [];
    } else {
      InvStep(c, w, es[0]);
      TraceAt(c, Step(c, w, es[0]), es[1..], i - 1);
      assert es[..i][1..] == es[1..][..i - 1];
    }
  }

  // An event deletes a row's channel because its last member leaves it, or purges the
  // row at its age.
  predicate Ends(groups: Groups.World, e: Timed, r: Row) {
    match e.event
    case Membership(rq) => r.kind.Group? && r.target.Some? && LastMemberLeaves(groups, rq, r.target.value)
    case Message(event) => event.Purge? && e.at - r.createdAt > event.days * 86400000000
  }

  ghost predicate Ended(c: Crypto, w: World, es: seq<Timed>, r: Row) {
    exists i :: 0 <= i < |es| && Ends(Run(c, w, es[..i]).groups, es[i], r)
  }

  // Main result: whatever happens to messages, members and accounts, in whatever
  // order, a stored row with a wrapped key is there at the end with the same key,
  // session, position, sender and conversation, unless the last member left its
  // channel or a purge took it at its age.
  lemma KeysOutliveMembers(c: Crypto, w: World, es: seq<Timed>, r: Row)
    requires Inv(c, w) && Legal(c, w, es) && r in w.messages.rows && MessageRuns.Keyed(r)
    ensures MessageRuns.Kept(c, Run(c, w, es).messages.rows, r) || Ended(c, w, es, r)
  {
    var trace := Trace(c, w, es);
    TraceRuns(c, w, es);
    MessageRuns.NoRunLosesAKey(c, w.messages, trace, r);
    if MessageRuns.Taken(trace, r) {
      var i :| 0 <= i < |trace| && MessageRuns.Takes(trace[i], r);
      TakenEnds(c, w, es, r, i);
    }
  }

  lemma TakenEnds(c: Crypto, w: World, es: seq<Timed>, r: Row, i: nat)
    requires Inv(c, w) && Legal(c, w, es) && i < |es| && MessageRuns.Takes(Trace(c, w, es)[i], r)
    ensures Ends(Run(c, w, es[..i]).groups, es[i], r)
  {
    TraceAt(c, w, es, i);
    if es[i].event.Membership? {
      EmptiedIffLastLeaves(Run(c, w, es[..i]).groups, es[i].event.rq, r.target.value);
    }
  }

  // An erased account's finishing transaction: its messages, then every group. What
  // it leaves is what MessageStore.Store.PerformDeletion leaves, with the channels it
  // empties known: those it was alone in.
  lemma DepartureRows(c: Crypto, w: World, at: int, address: string)
    ensures var leaving := Groups.LeaveAll(address);
      var es := [Timed(at, Message(MessageRuns.FinishErase(address, Everything))), Timed(at, Membership(leaving))];
      Run(c, w, es).messages.rows
        == TearDown(DeleteOwn(w.messages.rows, address, Everything), Emptied(w.groups, leaving))
  {
    var leaving := Groups.LeaveAll(address);
    var es := [Timed(at, Message(MessageRuns.FinishErase(address, Everything))), Timed(at, Membership(leaving))];
    assert es[1..] == [Timed(at, Membership(leaving))] && es[1..][1..] == [];
    var w1 := Step(c, w, es[0]);
    assert Run(c, Step(c, w1, es[1]), []) == Step(c, w1, es[1]);
    assert Run(c, w1, es[1..]) == Step(c, w1, es[1]);
  }
}
