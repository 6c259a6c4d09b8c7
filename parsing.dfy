/** parseMessage and parseMention (bot/CommandHelpers.go): turning an inbound
    message into a command request, and a mention token into a user id. */
module MessageParsing {
  import opened Outcomes
  import opened Gateway
  import opened Text

  /** The structured command request built from one message. */
  datatype SentMessageData = SentMessageData(
    key: string,            // the first character of the raw content
    command: string,        // the lower-cased command name
    content: seq<string>,   // the argument tokens, in order
    messageId: string,
    channelId: string,
    mentions: seq<User>,
    author: User)

  /** The command name taken from the first token: the token without its
      first character, lower-cased, and one trailing line break dropped when
      the name is longer than one character. */
  function CommandName(token: string): (name: string)
    requires token != []
    ensures forall i :: 0 <= i < |name| ==> !IsUpper(name[i])
    ensures var lowered := Lower(token[1..]);
            || name == lowered
            || (|lowered| > 1 && name + "\n" == lowered)
    ensures var lowered := Lower(token[1..]);
            |lowered| > 1 && lowered[|lowered| - 1] == '\n' ==> |name| == |lowered| - 1
  {
    var lowered := Lower(token[1..]);
    if |lowered| > 1 && lowered[|lowered| - 1] == '\n' then
      assert lowered[..|lowered| - 1] + "\n" == lowered;
      lowered[..|lowered| - 1]
    else lowered
  }

  /** parseMessage. A message without any field makes the source index an
      empty split result, which panics. */
  function ParseMessage(m: Message): (r: Outcome<SentMessageData>)
    ensures r.Panicked? <==> NoField(m.content)
    ensures r.Done? ==>
              var fs := Fields(m.content);
              && r.value.key == m.content[..1]
              && r.value.command == CommandName(fs[0])
              && r.value.content == fs[1..]
              && r.value.messageId == m.id
              && r.value.channelId == m.channelId
              && r.value.mentions == m.mentions
              && r.value.author == m.author
  {
    FieldsAreTokens(m.content);
    FieldsEmptyIff(m.content);
    var split := Fields(m.content);
    if split == [] then Panicked
    else
      assert m.content != [];
      Done(SentMessageData(m.content[..1], CommandName(split[0]), split[1..],
                           m.id, m.channelId, m.mentions, m.author))
  }

  /** A message whose text is tokens joined by single spaces parses into
      those tokens: the first gives the command, the others are the
      arguments, unchanged and in order. */
  lemma ParseJoinedTokens(m: Message, first: string, args: seq<string>)
    requires IsToken(first) && AllTokens(args)
    requires m.content == JoinSpace([first] + args)
    ensures ParseMessage(m).Done?
    ensures ParseMessage(m).value.key == first[..1]
    ensures ParseMessage(m).value.command == CommandName(first)
    ensures ParseMessage(m).value.content == args
  {
    var tokens := [first] + args;
    assert tokens[1..] == args;
    FieldsOfJoin(tokens);
    JoinedStartsWithFirst(first, args);
  }

  lemma JoinedStartsWithFirst(first: string, args: seq<string>)
    requires first != []
    ensures JoinSpace([first] + args)[..1] == first[..1]
  {
    var tokens := [first] + args;
    if args != [] {
      JoinSpaceCons(tokens);
    }
  }

  lemma ColorCommandName()
    ensures CommandName("!color") == "color"
  {
    var lowered := Lower("color");
    assert lowered == "color";
  }

  /** The color command in a guild: "!color #aabbcc" is the command "color"
      with the one argument "#aabbcc". */
  lemma ParseColorExample(m: Message)
    requires m.content == "!color #aabbcc"
    ensures ParseMessage(m).Done?
    ensures ParseMessage(m).value.key == "!"
    ensures ParseMessage(m).value.command == "color"
    ensures ParseMessage(m).value.content == ["#aabbcc"]
  {
    ColorMessageIsJoined();
    ParseJoinedTokens(m, "!color", ["#aabbcc"]);
    ColorCommandName();
  }

  lemma ColorMessageIsJoined()
    ensures JoinSpace(["!color"] + ["#aabbcc"]) == "!color #aabbcc"
    ensures IsToken("!color") && AllTokens(["#aabbcc"])
    ensures "!color"[..1] == "!"
  {
    assert IsToken("#aabbcc");
  }

  /** The shape parseMention accepts: at least five characters, "<@" first
      and ">" last. */
  predicate IsMentionShaped(str: string) {
    |str| >= 5 && str[0] == '<' && str[1] == '@' && str[|str| - 1] == '>'
  }

  /** parseMention: the id inside <@ID> or <@!ID>. */
  function ParseMention(str: string): (r: Result<string>)
    ensures r.Ok? <==> IsMentionShaped(str)
    ensures r.Err? ==> r.error == NotAMention
    ensures r.Ok? ==> r.value != []
    ensures r.Ok? ==> str == "<@" + r.value + ">" || str == "<@!" + r.value + ">"
  {
    if |str| < 5 || str[0] != '<' || str[1] != '@' || str[|str| - 1] != '>' then
      Err(NotAMention)
    else
      var res := str[2..|str| - 1];
      assert str == "<@" + res + ">";
      if res[0] == '!' then
        assert str == "<@!" + res[1..] + ">";
        Ok(res[1..])
      else Ok(res)
  }

  /** The nickname form round-trips for every non-empty id. */
  lemma NicknameMentionRoundTrip(id: string)
    requires id != []
    ensures ParseMention("<@!" + id + ">") == Ok(id)
  {
    var str := "<@!" + id + ">";
    assert str[2..|str| - 1] == "!" + id;
  }

  /** The plain form round-trips when the id has two or more characters and
      does not itself start with '!'. */
  lemma PlainMentionRoundTrip(id: string)
    requires |id| >= 2 && id[0] != '!'
    ensures ParseMention("<@" + id + ">") == Ok(id)
  {
    var str := "<@" + id + ">";
    assert str[2..|str| - 1] == id;
  }
}
