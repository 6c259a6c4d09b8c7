/** messageCreate (Bot/Bot.go): the per-message entry point. It drops
    messages from bots and empty ones, refuses channels that are not guild
    text channels with one advisory reply, resolves the guild's state once
    and runs every registered module in order. A panic anywhere ends the
    handling of that message and the handler returns normally. */
module Dispatch {
  import opened Outcomes
  import opened Gateway
  import opened ServerState
  import Lookups

  const AdvisoryText := "I do currently not work in DMs."

  /** What the session's channel lookup returns: the channel object (None
      is Go's nil) and whether it reported an error. */
  datatype ChannelLookup = ChannelLookup(channel: Option<Channel>, failed: bool)

  /** A plain message sent through the session. */
  datatype Send = Send(channelId: string, text: string)

  /** Where the handler goes once the channel is known. */
  datatype Gate = Proceed(guildId: string) | Advise(send: Send) | Fault

  /** A command module; what it does is not part of this model, only whether
      it panics on a message. */
  datatype Module = Module(name: string)

  /** One call of a module's Execute, with the state it was given. */
  datatype Invocation = Invocation(invoked: Module, message: Message, data: ServerData)

  /** The first filter: the bot's own messages, other bots' messages and
      empty messages are ignored. */
  predicate Ignored(botId: string, m: Message) {
    m.author.id == botId || m.author.bot || |m.content| < 1
  }

  /** The channel check as written: on a lookup error the advisory is sent to
      the id of the channel object, which is nil when the lookup failed. */
  function ChannelGateAsWritten(lookup: ChannelLookup): (g: Gate)
    ensures g.Proceed? <==> !lookup.failed && lookup.channel.Some? && lookup.channel.value.kind == 0
    ensures g.Fault? <==> lookup.channel.None?
  {
    if lookup.failed then
      if lookup.channel.None? then Fault
      else Advise(Send(lookup.channel.value.id, AdvisoryText))
    else if lookup.channel.None? then Fault
    else if lookup.channel.value.kind != 0 then Advise(Send(lookup.channel.value.id, AdvisoryText))
    else Proceed(lookup.channel.value.guildId)
  }

  /** A failed lookup that returns no channel object makes the written
      check panic instead of sending the advisory, which the intended check
      sends to the message's channel. */
  lemma AdvisoryLostOnFailedLookup(m: Message)
    ensures ChannelGateAsWritten(ChannelLookup(None, true)) == Fault
    ensures ChannelGate(m, ChannelLookup(None, true)) == Advise(Send(m.channelId, AdvisoryText))
  {
  }

  /** The channel check as intended: a failed lookup or a channel that is not
      a guild text channel gets exactly one advisory, sent to the channel
      the message came from; only a text channel lets the handler go on. */
  function ChannelGate(m: Message, lookup: ChannelLookup): (g: Gate)
    ensures lookup.failed ==> g == Advise(Send(m.channelId, AdvisoryText))
    ensures !lookup.failed && lookup.channel.Some? && lookup.channel.value.kind != 0 ==>
              g == Advise(Send(m.channelId, AdvisoryText))
    ensures g.Proceed? <==> !lookup.failed && lookup.channel.Some? && lookup.channel.value.kind == 0
    ensures g.Proceed? ==> g.guildId == lookup.channel.value.guildId
    ensures g.Fault? <==> !lookup.failed && lookup.channel.None?
  {
    if lookup.failed then Advise(Send(m.channelId, AdvisoryText))
    else if lookup.channel.None? then Fault
    else if lookup.channel.value.kind != 0 then Advise(Send(m.channelId, AdvisoryText))
    else Proceed(lookup.channel.value.guildId)
  }

  /** Where the lookup did return the message's channel, the intended check
      does what the written one does. */
  lemma GatesAgreeOnChannelObject(m: Message, lookup: ChannelLookup)
    requires lookup.channel.Some? && lookup.channel.value.id == m.channelId
    ensures ChannelGate(m, lookup) == ChannelGateAsWritten(lookup)
  {
  }

  function FaultsOn(m: Message, faults: (Module, Message) -> bool): Module -> bool {
    (mod: Module) => faults(mod, m)
  }

  /** How many modules run on a message: all of them when none panics,
      otherwise those up to and including the first that panics. */
  function RunCount(modules: seq<Module>, m: Message, faults: (Module, Message) -> bool): (n: nat)
    ensures n <= |modules|
    ensures forall j :: 0 <= j < n - 1 ==> !faults(modules[j], m)
    ensures n < |modules| ==> n > 0 && faults(modules[n - 1], m)
    ensures (forall j :: 0 <= j < |modules| ==> !faults(modules[j], m)) <==> n == |modules| && (n == 0 || !faults(modules[n - 1], m))
  {
    var k := Lookups.FirstIndex(modules, FaultsOn(m, faults));
    if k < |modules| then k + 1 else |modules|
  }

  /** The calls made for a run of modules: each module once, in order, all
      with the same message and the same state. */
  function Invocations(ms: seq<Module>, m: Message, data: ServerData): seq<Invocation>
  {
    seq(|ms|, i requires 0 <= i < |ms| => Invocation(ms[i], m, data))
  }

  class Bot {
    const botId: string
    const modules: seq<Module>
    const registry: Registry
    var sent: seq<Send>
    ghost var executed: seq<Invocation>

    ghost predicate Valid()
      reads this, registry
    {
      registry.Valid()
    }

    constructor (id: string, ms: seq<Module>, servers: Registry)
      requires servers.Valid()
      ensures botId == id && modules == ms && registry == servers
      ensures sent == [] && executed == []
      ensures Valid()
    {
      botId := id;
      modules := ms;
      registry := servers;
      sent := [];
      executed := [];
    }

    /** messageCreate. The channel lookup and which modules panic on the
        message are parameters; the channel check is the intended one. */
    method MessageCreate(m: Message, lookup: ChannelLookup, faults: (Module, Message) -> bool)
      requires Valid()
      modifies this, registry
      ensures Valid()
      ensures Ignored(botId, m) || !ChannelGate(m, lookup).Proceed? ==>
                executed == old(executed) && registry.servers == old(registry.servers)
      ensures Ignored(botId, m) ==> sent == old(sent)
      ensures !Ignored(botId, m) && ChannelGate(m, lookup).Advise? ==>
                sent == old(sent) + [ChannelGate(m, lookup).send]
      ensures !Ignored(botId, m) && ChannelGate(m, lookup).Fault? ==> sent == old(sent)
      ensures !Ignored(botId, m) && ChannelGate(m, lookup).Proceed? ==>
                var g := ChannelGate(m, lookup).guildId;
                && sent == old(sent)
                && g in registry.servers
                && (g in old(registry.servers) ==> registry.servers == old(registry.servers))
                && (g !in old(registry.servers) ==> registry.servers == old(registry.servers)[g := registry.servers[g]])
                && executed == old(executed) + Invocations(modules[..RunCount(modules, m, faults)], m, registry.servers[g])
    {
      if m.author.id == botId || m.author.bot || |m.content| < 1 {
        return;
      }
      var gate := ChannelGate(m, lookup);
      if gate.Fault? {
        return;
      }
      if gate.Advise? {
        sent := sent + [gate.send];
        return;
      }
      var data := registry.GetServerData(gate.guildId);
      var i := 0;
      while i < |modules|
        modifies this
        invariant 0 <= i <= |modules|
        invariant executed == old(executed) + Invocations(modules[..i], m, data)
        invariant forall j :: 0 <= j < i ==> !faults(modules[j], m)
        invariant sent == old(sent)
      {
        executed := executed + [Invocation(modules[i], m, data)];
        if faults(modules[i], m) {
          assert modules[..i + 1] == modules[..i] + [modules[i]];
          assert RunCount(modules, m, faults) == i + 1;
          return;
        }
        i := i + 1;
      }
      assert modules[..i] == modules;
    }
  }
}
