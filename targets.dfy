/** getClosestUserByName and getCommandTarget (bot/CommandHelpers.go): who a
    command is about. A mention wins; otherwise the argument text is matched
    against the guild's members by edit distance; otherwise the author. */
module Targets {
  import opened Outcomes
  import opened Gateway
  import opened Text
  import opened MessageParsing

  /** Go's math.MaxInt64, the starting "best distance" of the search. */
  const MaxInt64: int := 0x7FFF_FFFF_FFFF_FFFF

  /** The name a member is matched by: the server nickname when set, else
      the account's username. */
  function DisplayName(m: Member): string {
    if m.nick != "" then m.nick else m.user.username
  }

  /** What the session's guild lookup returns: the members of the guild
      object (None when it returned no guild object) and whether it
      reported an error. */
  datatype GuildLookup = GuildLookup(members: Option<seq<Member>>, failed: bool)

  /** getClosestUserByName's two results: the user found (None is Go's nil)
      and whether the guild lookup reported an error. */
  datatype ClosestUser = ClosestUser(user: Option<User>, failed: bool)

  /** Member k is the one the search settles on: its distance is below the
      starting bound, no member is closer, and every member before it is
      strictly farther (the first of equally close members wins). */
  ghost predicate IsClosest(ms: seq<Member>, name: string, distance: (string, string) -> nat, k: int) {
    && 0 <= k < |ms|
    && distance(DisplayName(ms[k]), name) < MaxInt64
    && (forall j :: 0 <= j < |ms| ==> distance(DisplayName(ms[j]), name) >= distance(DisplayName(ms[k]), name))
    && (forall j :: 0 <= j < k ==> distance(DisplayName(ms[j]), name) > distance(DisplayName(ms[k]), name))
  }

  /** At most one member is the closest, so the search's answer is determined. */
  lemma ClosestIsUnique(ms: seq<Member>, name: string, distance: (string, string) -> nat, k1: int, k2: int)
    requires IsClosest(ms, name, distance, k1) && IsClosest(ms, name, distance, k2)
    ensures k1 == k2
  {
  }

  /** getClosestUserByName: one pass over the members keeping the first
      member of smallest distance seen so far. The distance function stands
      for the Levenshtein library. */
  method GetClosestUserByName(guild: GuildLookup, name: string, distance: (string, string) -> nat)
    returns (r: Outcome<ClosestUser>)
    ensures r.Panicked? <==> guild.members.None?
    ensures r.Done? ==> r.value.failed == guild.failed
    ensures r.Done? ==>
              var ms := guild.members.value;
              r.value.user.None? <==> forall i :: 0 <= i < |ms| ==> distance(DisplayName(ms[i]), name) >= MaxInt64
    ensures r.Done? && r.value.user.Some? ==>
              var ms := guild.members.value;
              exists k :: IsClosest(ms, name, distance, k) && ms[k].user == r.value.user.value
  {
    if guild.members.None? {
      return Panicked;
    }
    var ms := guild.members.value;
    var currentMaxDistance := MaxInt64;
    var foundUser: Option<User> := None;
    ghost var best := -1;
    var i := 0;
    while i < |ms|
      invariant 0 <= i <= |ms|
      invariant foundUser.None? <==> forall j :: 0 <= j < i ==> distance(DisplayName(ms[j]), name) >= MaxInt64
      invariant foundUser.None? ==> currentMaxDistance == MaxInt64
      invariant foundUser.Some? ==>
                  && 0 <= best < i
                  && foundUser.value == ms[best].user
                  && currentMaxDistance == distance(DisplayName(ms[best]), name) < MaxInt64
                  && (forall j :: 0 <= j < i ==> distance(DisplayName(ms[j]), name) >= currentMaxDistance)
                  && (forall j :: 0 <= j < best ==> distance(DisplayName(ms[j]), name) > currentMaxDistance)
    {
      var userName := ms[i].user.username;
      if ms[i].nick != "" {
        userName := ms[i].nick;
      }
      var levenDistance := distance(userName, name);
      if levenDistance < currentMaxDistance {
        currentMaxDistance := levenDistance;
        foundUser := Some(ms[i].user);
        best := i;
      }
      i := i + 1;
    }
    if foundUser.Some? {
      assert IsClosest(ms, name, distance, best);
    }
    r := Done(ClosestUser(foundUser, guild.failed));
  }

  /** getCommandTarget: the first mention; else, when there are arguments,
      the member closest to them joined by single spaces, or the author when
      the guild lookup reported an error; else the author. None is Go's nil
      user, which the search yields when no member is close enough. */
  method GetCommandTarget(msg: SentMessageData, guild: GuildLookup, distance: (string, string) -> nat)
    returns (r: Outcome<Option<User>>)
    ensures |msg.mentions| > 0 ==> r == Done(Some(msg.mentions[0]))
    ensures |msg.mentions| == 0 && msg.content == [] ==> r == Done(Some(msg.author))
    ensures |msg.mentions| == 0 && msg.content != [] ==>
              && (guild.members.None? <==> r.Panicked?)
              && (guild.members.Some? && guild.failed ==> r == Done(Some(msg.author)))
    ensures |msg.mentions| == 0 && msg.content != [] && guild.members.Some? && !guild.failed ==>
              var ms := guild.members.value;
              var text := JoinSpace(msg.content);
              && r.Done?
              && (r.value.None? <==> forall i :: 0 <= i < |ms| ==> distance(DisplayName(ms[i]), text) >= MaxInt64)
              && (r.value.Some? ==> exists k :: IsClosest(ms, text, distance, k) && ms[k].user == r.value.value)
  {
    if |msg.mentions| > 0 {
      r := Done(Some(msg.mentions[0]));
    } else if |msg.content| > 0 {
      var trg := GetClosestUserByName(guild, JoinSpace(msg.content), distance);
      if trg.Panicked? {
        return Panicked;
      }
      r := Done(trg.value.user);
      if trg.value.failed {
        r := Done(Some(msg.author));
      }
    } else {
      r := Done(Some(msg.author));
    }
  }
}
