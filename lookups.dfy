/** The first-match scans of bot/CommandHelpers.go: userInSlice,
    getRoleByName, getRolePermissions, getRolePermissionsByName, getRoleById
    and the scan of findLastMessageWithAttachOrEmbed. Each walks its list in
    order and stops at the first element that matches. */
module Lookups {
  import opened Outcomes
  import opened Gateway

  /** The index of the first element satisfying p, or |s| when none does. */
  function FirstIndex<T>(s: seq<T>, p: T -> bool): (k: nat)
    ensures k <= |s|
    ensures k < |s| ==> p(s[k])
    ensures forall j :: 0 <= j < k ==> !p(s[j])
  {
    if s == [] then 0
    else if p(s[0]) then 0
    else 1 + FirstIndex(s[1..], p)
  }

  /** The first-match index is the only index that matches with nothing
      matching before it. */
  lemma {:induction false} FirstIndexUnique<T>(s: seq<T>, p: T -> bool, i: nat)
    requires i < |s| && p(s[i]) && forall j :: 0 <= j < i ==> !p(s[j])
    ensures FirstIndex(s, p) == i
  {
    if i > 0 {
      assert !p(s[0]);
      assert forall j :: 0 <= j < i - 1 ==> s[1..][j] == s[j + 1];
      FirstIndexUnique(s[1..], p, i - 1);
    }
  }

  function RoleNamed(name: string): Role -> bool {
    (r: Role) => r.name == name
  }

  function RoleIdIs(id: string): Role -> bool {
    (r: Role) => r.id == id
  }

  function OverwriteIdIs(id: string): PermissionOverwrite -> bool {
    (p: PermissionOverwrite) => p.id == id
  }

  /** A history message carries media when it has an embed or an attachment. */
  predicate HasMedia(m: HistoryMessage) {
    |m.embeds| > 0 || |m.attachments| > 0
  }

  /** The URL findLastMessageWithAttachOrEmbed reports for a message with
      media: the first embed's when there is one, else the first attachment's. */
  function MediaUrl(m: HistoryMessage): string
    requires HasMedia(m)
  {
    if |m.embeds| > 0 then m.embeds[0].url else m.attachments[0].url
  }

  /** userInSlice: whether some user of the list has the id. */
  method UserInSlice(a: string, list: seq<User>) returns (found: bool)
    ensures found <==> exists i :: 0 <= i < |list| && list[i].id == a
  {
    var i := 0;
    while i < |list|
      invariant 0 <= i <= |list|
      invariant forall j :: 0 <= j < i ==> list[j].id != a
    {
      if list[i].id == a {
        return true;
      }
      i := i + 1;
    }
    return false;
  }

  /** getRoleByName: the first role with the name; otherwise Go's zero role
      and a not-found error. */
  method GetRoleByName(name: string, roles: seq<Role>) returns (r: Role, e: Option<Error>)
    ensures var k := FirstIndex(roles, RoleNamed(name));
            if k < |roles| then r == roles[k] && e == None
            else r == ZeroRole && e == Some(NotFound)
    ensures e.None? <==> exists i :: 0 <= i < |roles| && roles[i].name == name
  {
    var i := 0;
    while i < |roles|
      invariant 0 <= i <= |roles|
      invariant forall j :: 0 <= j < i ==> roles[j].name != name
    {
      if roles[i].name == name {
        FirstIndexUnique(roles, RoleNamed(name), i);
        return roles[i], None;
      }
      i := i + 1;
    }
    return ZeroRole, Some(NotFound);
  }

  /** getRolePermissions: the first overwrite with the id; otherwise Go's
      zero overwrite and a not-found error. */
  method GetRolePermissions(id: string, perms: seq<PermissionOverwrite>) returns (p: PermissionOverwrite, e: Option<Error>)
    ensures var k := FirstIndex(perms, OverwriteIdIs(id));
            if k < |perms| then p == perms[k] && e == None
            else p == ZeroOverwrite && e == Some(NotFound)
    ensures e.None? <==> exists i :: 0 <= i < |perms| && perms[i].id == id
  {
    var i := 0;
    while i < |perms|
      invariant 0 <= i <= |perms|
      invariant forall j :: 0 <= j < i ==> perms[j].id != id
    {
      if perms[i].id == id {
        FirstIndexUnique(perms, OverwriteIdIs(id), i);
        return perms[i], None;
      }
      i := i + 1;
    }
    return ZeroOverwrite, Some(NotFound);
  }

  /** The role id getRolePermissionsByName searches for: that of the first
      role with the name, or "" (the zero role's id) when there is none. */
  function RoleIdForName(name: string, roles: seq<Role>): (id: string)
    ensures (forall i :: 0 <= i < |roles| ==> roles[i].name != name) ==> id == ""
    ensures (exists i :: 0 <= i < |roles| && roles[i].name == name) ==>
              exists i :: && 0 <= i < |roles| && roles[i].name == name && roles[i].id == id
                          && forall j :: 0 <= j < i ==> roles[j].name != name
  {
    var k := FirstIndex(roles, RoleNamed(name));
    if k < |roles| then roles[k].id else ""
  }

  /** getRolePermissionsByName: the role lookup's error is dropped, so a
      missing role makes the search look for the empty id. */
  method GetRolePermissionsByName(overwrites: seq<PermissionOverwrite>, roles: seq<Role>, name: string)
    returns (p: PermissionOverwrite, e: Option<Error>)
    ensures var k := FirstIndex(overwrites, OverwriteIdIs(RoleIdForName(name, roles)));
            if k < |overwrites| then p == overwrites[k] && e == None
            else p == ZeroOverwrite && e == Some(NotFound)
  {
    var role, _ := GetRoleByName(name, roles);
    p, e := GetRolePermissions(role.id, overwrites);
  }

  /** getRoleById over the guild the session returns: the first role with the
      id, a not-found error when there is none, and a panic when the session
      returned no guild. */
  method GetRoleById(guildRoles: Option<seq<Role>>, id: string) returns (r: Outcome<Result<Role>>)
    ensures guildRoles.None? <==> r.Panicked?
    ensures guildRoles.Some? ==>
              var roles := guildRoles.value;
              var k := FirstIndex(roles, RoleIdIs(id));
              r == Done(if k < |roles| then Ok(roles[k]) else Err(NotFound))
  {
    if guildRoles.None? {
      return Panicked;
    }
    var roles := guildRoles.value;
    var i := 0;
    while i < |roles|
      invariant 0 <= i <= |roles|
      invariant forall j :: 0 <= j < i ==> roles[j].id != id
    {
      if roles[i].id == id {
        FirstIndexUnique(roles, RoleIdIs(id), i);
        return Done(Ok(roles[i]));
      }
      i := i + 1;
    }
    return Done(Err(NotFound));
  }

  /** The scan of findLastMessageWithAttachOrEmbed over the fetched history:
      the media URL of the first message carrying an embed or an attachment,
      or "" and an error when none does. */
  method FindLastMessageWithAttachOrEmbed(history: seq<HistoryMessage>) returns (result: string, e: Option<Error>)
    ensures var k := FirstIndex(history, HasMedia);
            if k < |history| then result == MediaUrl(history[k]) && e == None
            else result == "" && e == Some(NotFound)
    ensures e.None? <==> exists i :: 0 <= i < |history| && HasMedia(history[i])
  {
    var i := 0;
    while i < |history|
      invariant 0 <= i <= |history|
      invariant forall j :: 0 <= j < i ==> !HasMedia(history[j])
    {
      var x := history[i];
      if |x.embeds| > 0 {
        FirstIndexUnique(history, HasMedia, i);
        return x.embeds[0].url, None;
      } else if |x.attachments| > 0 {
        FirstIndexUnique(history, HasMedia, i);
        return x.attachments[0].url, None;
      }
      i := i + 1;
    }
    return "", Some(NotFound);
  }
}
