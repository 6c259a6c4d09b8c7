/** The per-guild state (ServerData), the process-wide registry of it
    (getServerData over the Servers map) and the custom-command store
    (createCommand, checkCommandsMap, checkChannelsMap), all in
    bot/CommandHelpers.go. */
module ServerState {
  import opened Outcomes
  import opened Text

  /** A user-defined text command. */
  datatype CommandData = CommandData(name: string, message: string)

  /** A per-channel override record; its fields are not read by this core. */
  datatype ChannelData = ChannelData

  /** A map-typed field of a Go struct: nil until it is made. Reading a nil
      map sees no entries; writing into one panics. */
  datatype NilableMap<V> = Nil | Made(entries: map<string, V>) {
    function Entries(): map<string, V> {
      if Nil? then map[] else entries
    }
    function Len(): nat {
      |Entries()|
    }
  }

  /** A command name as the store keeps it: lower case, without a line break. */
  predicate IsStoredName(name: string) {
    '\n' !in name && forall i :: 0 <= i < |name| ==> !IsUpper(name[i])
  }

  /** One guild's state. */
  class ServerData {
    const id: string
    var key: string
    var customCommands: NilableMap<CommandData>
    var channels: NilableMap<ChannelData>

    /** Every stored command sits under its own name, and that name is a
        valid stored name. */
    ghost predicate Valid()
      reads this
    {
      forall name :: name in customCommands.Entries() ==>
        customCommands.Entries()[name].name == name && IsStoredName(name)
    }

    /** The entry getServerData creates: the guild's id, the prefix "!",
        and both maps still nil. */
    constructor (guildId: string)
      ensures id == guildId && key == "!"
      ensures customCommands == Nil && channels == Nil
      ensures Valid()
    {
      id := guildId;
      key := "!";
      customCommands := Nil;
      channels := Nil;
    }

    /** checkCommandsMap: an empty or nil command map is replaced by a new
        empty one; a non-empty map is left alone. */
    method CheckCommandsMap()
      modifies this
      ensures customCommands.Made?
      ensures customCommands.Entries() == old(customCommands.Entries())
      ensures old(customCommands.Len()) > 0 ==> customCommands == old(customCommands)
      ensures old(customCommands.Made?) ==> customCommands == old(customCommands)
      ensures key == old(key) && channels == old(channels)
      ensures old(Valid()) ==> Valid()
    {
      if customCommands.Len() == 0 {
        customCommands := Made(map[]);
      }
    }

    /** checkChannelsMap: the same for the channel map. */
    method CheckChannelsMap()
      modifies this
      ensures channels.Made?
      ensures channels.Entries() == old(channels.Entries())
      ensures old(channels.Len()) > 0 ==> channels == old(channels)
      ensures old(channels.Made?) ==> channels == old(channels)
      ensures key == old(key) && customCommands == old(customCommands)
    {
      if channels.Len() == 0 {
        channels := Made(map[]);
      }
    }

    /** createCommand: stores the command under its lower-cased name,
        overwriting an existing one. A name with a line break is refused and
        changes nothing; writing into a command map never made panics. */
    method CreateCommand(commandName: string, message: string) returns (r: Outcome<Result<()>>)
      requires Valid()
      modifies this
      ensures Valid()
      ensures '\n' in commandName ==> r == Done(Err(InvalidName)) && customCommands == old(customCommands)
      ensures '\n' !in commandName && old(customCommands).Nil? ==>
                r == Panicked && customCommands == old(customCommands)
      ensures '\n' !in commandName && old(customCommands).Made? ==>
                && r == Done(Ok(()))
                && customCommands == Made(old(customCommands).entries[Lower(commandName) := CommandData(Lower(commandName), message)])
      ensures key == old(key) && channels == old(channels)
    {
      var name := Lower(commandName);
      LowerKeepsNewlines(commandName);
      if '\n' in name {
        return Done(Err(InvalidName));
      }
      if customCommands.Nil? {
        return Panicked;
      }
      customCommands := Made(customCommands.entries[name := CommandData(name, message)]);
      r := Done(Ok(()));
    }
  }

  /** The process-wide Servers map from guild id to that guild's state. */
  class Registry {
    var servers: map<string, ServerData>

    /** Each entry is the state of the guild it is filed under. */
    ghost predicate Valid()
      reads this
    {
      forall g :: g in servers ==> servers[g].id == g
    }

    constructor ()
      ensures servers == map[] && Valid()
    {
      servers := map[];
    }

    /** getServerData, with the guild id the channel lookup yields. A known
        guild gets its existing entry and the map is unchanged; an unknown
        one gets a new entry with the prefix "!", filed under its id, and no
        other entry changes. */
    method GetServerData(guildId: string) returns (data: ServerData)
      requires Valid()
      modifies this
      ensures Valid()
      ensures guildId in servers && servers[guildId] == data && data.id == guildId
      ensures guildId in old(servers) ==> data == old(servers)[guildId] && servers == old(servers)
      ensures guildId !in old(servers) ==>
                && fresh(data)
                && servers == old(servers)[guildId := data]
                && data.key == "!" && data.customCommands == Nil && data.channels == Nil
    {
      if |servers| == 0 {
        servers := map[];
      }
      if guildId in servers {
        return servers[guildId];
      }
      data := new ServerData(guildId);
      servers := servers[guildId := data];
    }

    /** No two guilds share one state object. */
    lemma DistinctGuildsDistinctState(g1: string, g2: string)
      requires Valid() && g1 in servers && g2 in servers && g1 != g2
      ensures servers[g1] != servers[g2]
    {
    }
  }
}
