/**
 * Role menus of extensions/rolemenu.py.
 *
 * A menu is stored as the hash rolemenu:{channel}:{message} with the fields
 * name, desc, message_id, channel_id and one "emoji:{emoji}" field per mapped
 * emoji, and is listed in the set rolemenu:list as "{channel}:{message}".
 * Reacting to the menu message with a mapped emoji hands out the role.
 */
module RoleMenu {
  import opened Wrappers
  import Strings

  type RoleId = int

  /** A menu: emoji -> role id (as the text the store keeps) and the message it is posted as. */
  datatype Menu = Menu(name: string, desc: string, mapping: map<string, string>, channel: string, message: string)

  /** A role of the guild, as ctx.guild.roles lists it. */
  datatype Role = Role(id: RoleId, name: string)

  /** The emoji of a reaction: its name, and whether it is a custom (guild) emoji. */
  datatype Emoji = Emoji(name: string, custom: bool)

  /** What the commands and listeners raise. */
  datatype Error =
    | NoSuchMenu       // Fail: Role Menu with ID {channel}:{message} does not exist
    | MissingField     // KeyError: a hash without "name" or "desc"
    | MalformedLink    // ValueError: not four path pieces, or the guild piece is not a number
    | OtherGuild       // Fail: That role menu belongs to a different guild!
    | NoSuchRole       // Fail: Role {role} does not exist
    | UnmappedEmoji    // KeyError: del menu.mapping[emoji] for an unmapped emoji
    | BadRoleId        // ValueError: int(role_id)

  const EmojiPrefix: string := "emoji:"
  const DefaultName: string := "Under Construction"
  const DefaultDesc: string := "Role menu currently under construction."

  /** rolemenu:{channel}:{message} */
  function HashKey(channel: string, message: string): string
  {
    "rolemenu:" + channel + ":" + message
  }

  /** The member of rolemenu:list that names a menu. */
  function ListMember(channel: string, message: string): string
  {
    channel + ":" + message
  }

  /**
   * A field name of a menu hash: a plain name ("name", "desc", ...) or the
   * field "emoji:{e}" that holds the role of emoji e.
   */
  datatype Field = Plain(name: string) | EmojiField(emoji: string)

  /** key.startswith("emoji:") */
  predicate HasEmojiPrefix(k: string)
  {
    |k| >= |EmojiPrefix| && k[..|EmojiPrefix|] == EmojiPrefix
  }

  /** The text of a field name in the store. */
  function FieldText(f: Field): string
  {
    match f
    case Plain(n) => n
    case EmojiField(e) => EmojiPrefix + e
  }

  /** How from_redis reads a stored field name: the prefix test, then key[len("emoji:"):]. */
  function ParseField(k: string): Field
  {
    if HasEmojiPrefix(k) then EmojiField(k[|EmojiPrefix|..]) else Plain(k)
  }

  /** Reading back the text of a field gives the field, as long as a plain name lacks the prefix. */
  lemma FieldTextParses(f: Field)
    requires f.Plain? ==> !HasEmojiPrefix(f.name)
    ensures ParseField(FieldText(f)) == f
  {
    if f.EmojiField? {
      assert FieldText(f)[..|EmojiPrefix|] == EmojiPrefix;
      assert FieldText(f)[|EmojiPrefix|..] == f.emoji;
    }
  }

  /** The four plain fields of the hash to_redis writes. */
  function BaseFields(m: Menu): (h: map<Field, string>)
    ensures h.Keys == {Plain("name"), Plain("desc"), Plain("message_id"), Plain("channel_id")}
    ensures h[Plain("name")] == m.name && h[Plain("desc")] == m.desc
    ensures forall f :: f in h ==> f.Plain? && !HasEmojiPrefix(f.name)
  {
    assert "message_id"[0] != EmojiPrefix[0] && "channel_id"[0] != EmojiPrefix[0];
    map[Plain("name") := m.name, Plain("desc") := m.desc,
        Plain("message_id") := m.message, Plain("channel_id") := m.channel]
  }

  /** The hash to_redis writes for a menu: the plain fields and one emoji field per mapped emoji. */
  function ToHash(m: Menu): (h: map<Field, string>)
    ensures Plain("name") in h && Plain("desc") in h
    ensures h[Plain("name")] == m.name && h[Plain("desc")] == m.desc
    ensures forall e :: EmojiField(e) in h <==> e in m.mapping
    ensures forall e :: e in m.mapping ==> h[EmojiField(e)] == m.mapping[e]
  {
    BaseFields(m) + map e | e in m.mapping :: EmojiField(e) := m.mapping[e]
  }

  /** No plain field of the hash carries the "emoji:" prefix, so every field name reads back as itself. */
  ghost predicate Unprefixed(h: map<Field, string>)
  {
    forall n :: Plain(n) in h ==> !HasEmojiPrefix(n)
  }

  /**
   * The invariant of the store: every hash is Unprefixed. The empty store
   * has it, to_redis's merge keeps it (MergeKeepsUnprefixed) and so does
   * delete (DeleteKeepsUnprefixed), since every write goes through ToHash.
   */
  ghost predicate AllUnprefixed(hashes: map<string, map<Field, string>>)
  {
    forall key :: key in hashes ==> Unprefixed(hashes[key])
  }


  /** hset of a menu's hash into a hash without prefixed plain fields adds none. */
  lemma MergeUnprefixed(h: map<Field, string>, m: Menu)
    requires Unprefixed(h)
    ensures Unprefixed(h + ToHash(m))
  {
    forall n | Plain(n) in h + ToHash(m)
      ensures !HasEmojiPrefix(n)
    {
      if Plain(n) !in h {
        assert Plain(n) in BaseFields(m);
      }
    }
  }

  /** to_redis's hset of a menu keeps every hash of the store Unprefixed. */
  lemma MergeKeepsUnprefixed(hashes: map<string, map<Field, string>>, key: string, m: Menu)
    ensures AllUnprefixed(hashes) ==>
      AllUnprefixed(hashes[key := (if key in hashes then hashes[key] else map[]) + ToHash(m)])
  {
    if AllUnprefixed(hashes) {
      MergeUnprefixed(if key in hashes then hashes[key] else map[], m);
    }
  }

  /** Menu.delete's removal of a hash keeps every remaining hash Unprefixed. */
  lemma DeleteKeepsUnprefixed(hashes: map<string, map<Field, string>>, key: string)
    requires AllUnprefixed(hashes)
    ensures AllUnprefixed(hashes - {key})
  {
  }

  /**
   * In an Unprefixed hash every field name reads back as itself, so
   * EmojiMapping's emoji fields are exactly the ones from_redis parses.
   */
  lemma UnprefixedReadsBack(h: map<Field, string>)
    requires Unprefixed(h)
    ensures forall f :: f in h ==> ParseField(FieldText(f)) == f
  {
    forall f | f in h
      ensures ParseField(FieldText(f)) == f
    {
      FieldTextParses(f);
    }
  }

  /** The mapping from_redis reads: the emoji fields, prefix stripped, values unchanged. */
  function EmojiMapping(h: map<Field, string>): (mapping: map<string, string>)
    ensures forall e :: e in mapping <==> EmojiField(e) in h
    ensures forall e :: e in mapping ==> mapping[e] == h[EmojiField(e)]
  {
    map f | f in h && f.EmojiField? :: f.emoji := h[f]
  }

  /** Maps with the same keys and values are equal. */
  lemma SameMap<K, V>(a: map<K, V>, b: map<K, V>)
    requires forall k :: k in a <==> k in b
    requires forall k :: k in a ==> a[k] == b[k]
    ensures a == b
  {
  }

  /** Writing over a map with a map that covers all of its keys leaves only the new map. */
  lemma UnionCovered<K, V>(a: map<K, V>, b: map<K, V>)
    requires forall k :: k in a ==> k in b
    ensures a + b == b
  {
    SameMap(a + b, b);
  }

  /** Writing a map minus one key over the map gives the map back. */
  lemma UnionRestores<K, V>(a: map<K, V>, k: K)
    ensures a + (a - {k}) == a
  {
    SameMap(a + (a - {k}), a);
  }

  /** Menu.from_redis on the hash read back: a missing (empty) hash is an error. */
  function FromHash(h: map<Field, string>, channel: string, message: string): (r: Result<Menu, Error>)
    ensures r == Failure(NoSuchMenu) <==> h == map[]
    ensures r == Failure(MissingField) <==> h != map[] && (Plain("name") !in h || Plain("desc") !in h)
    ensures r.Success? ==>
      r.value == Menu(h[Plain("name")], h[Plain("desc")], EmojiMapping(h), channel, message)
  {
    if h == map[] then Failure(NoSuchMenu)
    else if Plain("name") !in h || Plain("desc") !in h then Failure(MissingField)
    else Success(Menu(h[Plain("name")], h[Plain("desc")], EmojiMapping(h), channel, message))
  }

  /**
   * Writing a menu over an existing hash (hset merges) and reading it back
   * gives the menu, except that emoji fields of the old hash survive.
   */
  lemma RoundTrip(existing: map<Field, string>, m: Menu)
    ensures FromHash(existing + ToHash(m), m.channel, m.message)
         == Success(m.(mapping := EmojiMapping(existing) + m.mapping))
  {
    MergedMapping(existing, ToHash(m), m.mapping);
  }

  /**
   * The emoji mapping of a hash after hset merges `written` into it: the old
   * entries overwritten by the emoji fields written.
   */
  lemma MergedMapping(existing: map<Field, string>, written: map<Field, string>, mapping: map<string, string>)
    requires forall e :: EmojiField(e) in written <==> e in mapping
    requires forall e :: e in mapping ==> written[EmojiField(e)] == mapping[e]
    ensures EmojiMapping(existing + written) == EmojiMapping(existing) + mapping
  {
    SameMap(EmojiMapping(existing + written), EmojiMapping(existing) + mapping);
  }

  /** On a fresh hash the round trip is exact. */
  lemma RoundTripFresh(m: Menu)
    ensures FromHash(ToHash(m), m.channel, m.message) == Success(m)
  {
    RoundTrip(map[], m);
    SameMap(map[] + ToHash(m), ToHash(m));
    SameMap(EmojiMapping(map[]) + m.mapping, m.mapping);
  }

  /** modifymenu: only "name" and "desc" are changed; any other field name is ignored. */
  function Modify(m: Menu, field: string, value: string): (r: Menu)
    ensures r.mapping == m.mapping && r.channel == m.channel && r.message == m.message
    ensures field == "name" ==> r.name == value && r.desc == m.desc
    ensures field == "desc" ==> r.desc == value && r.name == m.name
    ensures field != "name" && field != "desc" ==> r == m
  {
    if field == "name" then m.(name := value)
    else if field == "desc" then m.(desc := value)
    else m
  }

  /** The path pieces of a message link after the leading slashes: "channels", guild, channel, message. */
  function LinkParts(path: string): seq<string>
  {
    Strings.Split(Strings.LStrip(path, '/'), '/')
  }

  /** The first role of the guild with that name (addrole's for ... break ... else). */
  function RoleNamed(roles: seq<Role>, name: string): (r: Option<RoleId>)
    ensures r.None? <==> forall i :: 0 <= i < |roles| ==> roles[i].name != name
    ensures r.Some? ==>
      exists i :: 0 <= i < |roles| && roles[i] == Role(r.value, name)
                  && forall j :: 0 <= j < i ==> roles[j].name != name
  {
    if |roles| == 0 then None
    else if roles[0].name == name then Some(roles[0].id)
    else
      var rest := RoleNamed(roles[1..], name);
      assert forall i :: 1 <= i < |roles| ==> roles[i] == roles[1..][i - 1];
      if rest.Some? then
        var i :| 0 <= i < |roles[1..]| && roles[1..][i] == Role(rest.value, name)
                 && forall j :: 0 <= j < i ==> roles[1..][j].name != name;
        assert roles[i + 1] == Role(rest.value, name);
        assert forall j :: 0 <= j < i + 1 ==> roles[j].name != name;
        rest
      else rest
  }

  /** addrole's search through the guild's roles. */
  method FindRole(roles: seq<Role>, name: string) returns (r: Option<RoleId>)
    ensures r == RoleNamed(roles, name)
  {
    var i := 0;
    while i < |roles|
      invariant 0 <= i <= |roles|
      invariant RoleNamed(roles, name) == RoleNamed(roles[i..], name)
    {
      if roles[i].name == name {
        return Some(roles[i].id);
      }
      assert roles[i..][1..] == roles[i + 1..];
      i := i + 1;
    }
    return None;
  }

  /**
   * on_raw_reaction_add once the menu is loaded: the member's roles after the
   * reaction. A custom emoji, an unmapped emoji, an empty role id or a role
   * already held leave the roles as they are; otherwise the role is appended.
   */
  function ReactionAdd(m: Menu, emoji: Emoji, roles: seq<RoleId>): (r: Result<seq<RoleId>, Error>)
    ensures r.Failure? <==>
      !emoji.custom && emoji.name in m.mapping && m.mapping[emoji.name] != ""
      && Strings.ParseInt(m.mapping[emoji.name]).None?
    ensures r.Failure? ==> r.error == BadRoleId
    ensures r.Success? && r.value != roles ==>
      && !emoji.custom && emoji.name in m.mapping
      && Strings.ParseInt(m.mapping[emoji.name]).Some?
      && Strings.ParseInt(m.mapping[emoji.name]).value !in roles
      && r.value == roles + [Strings.ParseInt(m.mapping[emoji.name]).value]
    ensures r.Success? && !emoji.custom && emoji.name in m.mapping && m.mapping[emoji.name] != "" ==>
      Strings.ParseInt(m.mapping[emoji.name]).value in r.value
  {
    if emoji.custom then Success(roles)
    else if emoji.name !in m.mapping || m.mapping[emoji.name] == "" then Success(roles)
    else match Strings.ParseInt(m.mapping[emoji.name])
      case None => Failure(BadRoleId)
      case Some(role) =>
        if role in roles then Success(roles) else Success(roles + [role])
  }

  /** Reacting twice hands out the role once. */
  lemma ReactionAddIdempotent(m: Menu, emoji: Emoji, roles: seq<RoleId>)
    requires ReactionAdd(m, emoji, roles).Success?
    ensures ReactionAdd(m, emoji, ReactionAdd(m, emoji, roles).value) == ReactionAdd(m, emoji, roles)
  {
  }

  /** The store: the menu hashes and rolemenu:list. */
  class Store {
    var hashes: map<string, map<Field, string>>   // rolemenu:{channel}:{message}
    var listed: set<string>                        // rolemenu:list

    constructor ()
      ensures hashes == map[] && listed == {}
      ensures AllUnprefixed(hashes)
    {
      hashes, listed := map[], {};
    }

    /** hgetall: a missing key reads as the empty hash. */
    function HashAt(key: string): map<Field, string>
      reads this
    {
      if key in hashes then hashes[key] else map[]
    }

    /** Menu.from_redis(redis, channel, message) */
    function FromRedis(channel: string, message: string): (r: Result<Menu, Error>)
      reads this
      ensures r.Success? ==> r.value.channel == channel && r.value.message == message
      ensures r.Success? ==> r.value.mapping == EmojiMapping(HashAt(HashKey(channel, message)))
      ensures r == Failure(NoSuchMenu) <==> HashAt(HashKey(channel, message)) == map[]
    {
      FromHash(HashAt(HashKey(channel, message)), channel, message)
    }

    /** Menu.to_redis: hset merges the menu's fields into the hash, and the menu is listed. */
    method ToRedis(m: Menu)
      modifies this`hashes, this`listed
      ensures FromRedis(m.channel, m.message)
           == Success(m.(mapping := old(EmojiMapping(HashAt(HashKey(m.channel, m.message)))) + m.mapping))
      ensures hashes == old(hashes)[HashKey(m.channel, m.message) := old(HashAt(HashKey(m.channel, m.message))) + ToHash(m)]
      ensures listed == old(listed) + {ListMember(m.channel, m.message)}
    {
      var key := HashKey(m.channel, m.message);
      ghost var existing := HashAt(key);
      var merged := HashAt(key) + ToHash(m);
      hashes := hashes[key := merged];
      assert HashAt(key) == merged;
      RoundTrip(existing, m);
      listed := listed + {ListMember(m.channel, m.message)};
    }

    /**
     * Menu.delete: the hash is removed, but the member removed from
     * rolemenu:list lacks the ':' separator, so the listed member stays.
     */
    method Delete(m: Menu)
      modifies this`hashes, this`listed
      ensures listed == old(listed) - {m.channel + m.message}
      ensures hashes == old(hashes) - {HashKey(m.channel, m.message)}
      ensures FromRedis(m.channel, m.message) == Failure(NoSuchMenu)
      ensures ListMember(m.channel, m.message) in old(listed) ==> ListMember(m.channel, m.message) in listed
    {
      assert |m.channel + m.message| != |ListMember(m.channel, m.message)|;
      listed := listed - {m.channel + m.message};
      hashes := hashes - {HashKey(m.channel, m.message)};
    }

    /**
     * get_menu_from_link on the link's path: four pieces, a numeric guild
     * piece equal to the caller's guild, then the menu of channel and message.
     */
    function MenuFromLink(path: string, guild: int): (r: Result<Menu, Error>)
      reads this
      ensures r == Failure(MalformedLink) <==>
        |LinkParts(path)| != 4 || Strings.ParseInt(LinkParts(path)[1]).None?
      ensures r == Failure(OtherGuild) <==>
        |LinkParts(path)| == 4 && Strings.ParseInt(LinkParts(path)[1]).Some?
        && Strings.ParseInt(LinkParts(path)[1]).value != guild
      ensures r.Success? ==>
        |LinkParts(path)| == 4 && Strings.ParseInt(LinkParts(path)[1]) == Some(guild)
        && r == FromRedis(LinkParts(path)[2], LinkParts(path)[3])
    {
      var parts := LinkParts(path);
      if |parts| != 4 then Failure(MalformedLink)
      else match Strings.ParseInt(parts[1])
        case None => Failure(MalformedLink)
        case Some(g) =>
          if g != guild then Failure(OtherGuild)
          else
            var r := FromRedis(parts[2], parts[3]);
            assert r != Failure(MalformedLink) && r != Failure(OtherGuild);
            r
    }

    /** The `menu` command: a new default menu posted as (channel, message) is stored. */
    method CreateMenu(channel: string, message: string)
      modifies this`hashes, this`listed
      ensures hashes == old(hashes)[HashKey(channel, message) :=
        old(HashAt(HashKey(channel, message))) + ToHash(Menu(DefaultName, DefaultDesc, map[], channel, message))]
      ensures listed == old(listed) + {ListMember(channel, message)}
      ensures old(HashAt(HashKey(channel, message))) == map[] ==>
        FromRedis(channel, message) == Success(Menu(DefaultName, DefaultDesc, map[], channel, message))
    {
      ghost var before := EmojiMapping(HashAt(HashKey(channel, message)));
      ToRedis(Menu(DefaultName, DefaultDesc, map[], channel, message));
      if old(HashAt(HashKey(channel, message))) == map[] {
        SameMap(before, map[]);
        UnionCovered(before, map[]);
      }
    }

    /** The `modifymenu` command. */
    method ModifyMenu(path: string, guild: int, field: string, value: string) returns (r: Result<(), Error>)
      modifies this`hashes, this`listed
      ensures old(MenuFromLink(path, guild)).Failure? ==>
        r == Failure(old(MenuFromLink(path, guild)).error) && hashes == old(hashes) && listed == old(listed)
      ensures old(MenuFromLink(path, guild)).Success? ==>
        var m := old(MenuFromLink(path, guild)).value;
        && r.Success? && FromRedis(m.channel, m.message) == Success(Modify(m, field, value))
        && hashes == old(hashes)[HashKey(m.channel, m.message) :=
             old(HashAt(HashKey(m.channel, m.message))) + ToHash(Modify(m, field, value))]
        && listed == old(listed) + {ListMember(m.channel, m.message)}
    {
      var got := MenuFromLink(path, guild);
      if got.Failure? {
        return Failure(got.error);
      }
      var m := Modify(got.value, field, value);
      ghost var before := EmojiMapping(HashAt(HashKey(m.channel, m.message)));
      UnionCovered(before, m.mapping);
      ToRedis(m);
      return Success(());
    }

    /** The `addrole` command: the role is looked up by name before the menu is loaded. */
    method AddRole(path: string, guild: int, emoji: string, roleName: string, roles: seq<Role>)
      returns (r: Result<(), Error>)
      modifies this`hashes, this`listed
      ensures RoleNamed(roles, roleName).None? ==>
        r == Failure(NoSuchRole) && hashes == old(hashes) && listed == old(listed)
      ensures RoleNamed(roles, roleName).Some? && old(MenuFromLink(path, guild)).Failure? ==>
        r == Failure(old(MenuFromLink(path, guild)).error) && hashes == old(hashes) && listed == old(listed)
      ensures RoleNamed(roles, roleName).Some? && old(MenuFromLink(path, guild)).Success? ==>
        var m := old(MenuFromLink(path, guild)).value;
        var m' := m.(mapping := m.mapping[emoji := Strings.IntToString(RoleNamed(roles, roleName).value)]);
        && r.Success? && FromRedis(m.channel, m.message) == Success(m')
        && hashes == old(hashes)[HashKey(m.channel, m.message) := old(HashAt(HashKey(m.channel, m.message))) + ToHash(m')]
        && listed == old(listed) + {ListMember(m.channel, m.message)}
    {
      var role := FindRole(roles, roleName);
      if role.None? {
        return Failure(NoSuchRole);
      }
      var got := MenuFromLink(path, guild);
      if got.Failure? {
        return Failure(got.error);
      }
      var m := got.value.(mapping := got.value.mapping[emoji := Strings.IntToString(role.value)]);
      ghost var before := EmojiMapping(HashAt(HashKey(m.channel, m.message)));
      UnionCovered(before, m.mapping);
      ToRedis(m);
      return Success(());
    }

    /**
     * The `remrole` command. The emoji is dropped from the menu, but hset
     * keeps the old "emoji:" field, so the stored menu still maps it.
     */
    method RemRole(path: string, guild: int, emoji: string) returns (r: Result<(), Error>)
      modifies this`hashes, this`listed
      ensures old(MenuFromLink(path, guild)).Failure? ==>
        r == Failure(old(MenuFromLink(path, guild)).error) && hashes == old(hashes) && listed == old(listed)
      ensures old(MenuFromLink(path, guild)).Success? && emoji !in old(MenuFromLink(path, guild)).value.mapping ==>
        r == Failure(UnmappedEmoji) && hashes == old(hashes) && listed == old(listed)
      ensures old(MenuFromLink(path, guild)).Success? && emoji in old(MenuFromLink(path, guild)).value.mapping ==>
        var m := old(MenuFromLink(path, guild)).value;
        && r.Success?
        && FromRedis(m.channel, m.message) == Success(m)
        && hashes == old(hashes)[HashKey(m.channel, m.message) :=
             old(HashAt(HashKey(m.channel, m.message))) + ToHash(m.(mapping := m.mapping - {emoji}))]
        && listed == old(listed) + {ListMember(m.channel, m.message)}
      ensures r.Success? ==> old(MenuFromLink(path, guild)).Success? && emoji in old(MenuFromLink(path, guild)).value.mapping
    {
      var got := MenuFromLink(path, guild);
      if got.Failure? {
        return Failure(got.error);
      }
      if emoji !in got.value.mapping {
        return Failure(UnmappedEmoji);
      }
      var m := got.value.(mapping := got.value.mapping - {emoji});
      ghost var before := EmojiMapping(HashAt(HashKey(m.channel, m.message)));
      UnionRestores(before, emoji);
      ToRedis(m);
      return Success(());
    }

    /** on_raw_message_delete: a listed menu is loaded and deleted. */
    method OnMessageDelete(channel: string, message: string) returns (r: Result<(), Error>)
      modifies this`hashes, this`listed
      ensures ListMember(channel, message) !in old(listed) ==>
        r.Success? && hashes == old(hashes) && listed == old(listed)
      ensures ListMember(channel, message) in old(listed) && old(FromRedis(channel, message)).Failure? ==>
        r == Failure(old(FromRedis(channel, message)).error) && hashes == old(hashes) && listed == old(listed)
      ensures ListMember(channel, message) in old(listed) && old(FromRedis(channel, message)).Success? ==>
        r.Success? && hashes == old(hashes) - {HashKey(channel, message)}
        && listed == old(listed) - {channel + message}
    {
      if ListMember(channel, message) !in listed {
        return Success(());
      }
      var got := FromRedis(channel, message);
      if got.Failure? {
        return Failure(got.error);
      }
      Delete(got.value);
      return Success(());
    }

    /** on_raw_reaction_add: the roles of the member after reacting to a listed menu. */
    method OnReactionAdd(channel: string, message: string, emoji: Emoji, roles: seq<RoleId>)
      returns (r: Result<seq<RoleId>, Error>)
      ensures ListMember(channel, message) !in listed ==> r == Success(roles)
      ensures ListMember(channel, message) in listed && FromRedis(channel, message).Failure? ==>
        r == Failure(FromRedis(channel, message).error)
      ensures ListMember(channel, message) in listed && FromRedis(channel, message).Success? ==>
        r == ReactionAdd(FromRedis(channel, message).value, emoji, roles)
    {
      if ListMember(channel, message) !in listed {
        return Success(roles);
      }
      var got := FromRedis(channel, message);
      if got.Failure? {
        return Failure(got.error);
      }
      r := ReactionAdd(got.value, emoji, roles);
    }
  }

  /** The path of a message link as Discord writes it: /channels/{guild}/{channel}/{message}. */
  function LinkPath(guild: nat, channel: string, message: string): string
  {
    "/" + Strings.Join(["channels", Strings.IntToString(guild), channel, message], "/")
  }

  /** get_menu_from_link on a well-formed link of the caller's guild reads that menu. */
  lemma LinkRoundTrip(s: Store, guild: nat, channel: string, message: string)
    requires '/' !in channel && '/' !in message
    ensures s.MenuFromLink(LinkPath(guild, channel, message), guild) == s.FromRedis(channel, message)
  {
    var g := Strings.IntToString(guild);
    var body := Strings.Join(["channels", g, channel, message], "/");
    assert body[0] == 'c';
    assert Strings.LStrip(LinkPath(guild, channel, message), '/') == body;
    assert forall i :: 0 <= i < |g| ==> Strings.IsDigit(g[i]);
    assert '/' !in g;
    Strings.SplitJoin(["channels", g, channel, message], '/');
    Strings.ParseIntToString(guild);
  }
}
