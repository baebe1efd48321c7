/**
 * The portal registry and the paid-invocation gate of bot/connections/portal.py.
 *
 * A portal is a hash record keyed by its id, with four cross indexes per
 * (portal, guild) pair: the guild's set of portals, the portal's set of guilds,
 * alias -> id and id -> alias. Each key family is a map field of Registry.
 */
module Portal {
  import opened Wrappers
  import opened KeyValue
  import Strings
  import Economy

  type PortalId = string
  type GuildId = int
  type UserId = int
  type Alias = string

  /** The hash stored under portal:{id}; `price` may be missing from it. */
  datatype PortalHash = PortalHash(
    id: PortalId, name: string, desc: string, price: Option<int>,
    owner: UserId, token: string, status: string)

  /** The record get_portal hands out: `price` always present. */
  datatype PortalInfo = PortalInfo(
    id: PortalId, name: string, desc: string, price: int,
    owner: UserId, token: string, status: string)

  /** The error each command raises as a CommandError. */
  datatype Error =
    | NoSuchPortal       // Portal {id} does not exist.
    | NotOwner           // You do not own the portal {id}.
    | NameTaken          // A portal with the name {name} already exists.
    | AlreadyInGuild     // That portal already exists in this server.
    | NoSuchAlias        // The portal {name} does not exist. / Portal {name} does not exist!
    | InvalidField       // Invalid field {field}
    | NotAnInteger       // int(value) raised ValueError
    | InsufficientFunds  // the wallet refused the price

  /** What hmset_dict writes for a record: every field, price included. */
  function Stored(p: PortalInfo): (h: PortalHash)
    ensures h.price.Some? && h.id == p.id && h.owner == p.owner
  {
    PortalHash(p.id, p.name, p.desc, Some(p.price), p.owner, p.token, p.status)
  }

  /** The hash as get_portal returns it: a missing price becomes 0. */
  function Normalized(h: PortalHash): (p: PortalInfo)
    ensures p.price == (if h.price.Some? then h.price.value else 0)
    ensures Stored(p) == h.(price := Some(p.price))
  {
    PortalInfo(h.id, h.name, h.desc, h.price.GetOr(0), h.owner, h.token, h.status)
  }

  /** Storing a record and reading it back gives the record. */
  lemma NormalizedStored(p: PortalInfo)
    ensures Normalized(Stored(p)) == p
  {
  }

  /**
   * `if user_id and int(portal["owner"]) != user_id`: the filter applies only
   * when a user id is given and is non-zero (Python truthiness).
   */
  predicate FilterRejects(h: PortalHash, user: Option<UserId>)
  {
    user.Some? && user.value != 0 && h.owner != user.value
  }

  /** The name stored by create for a new portal. */
  const DefaultName: string := "A Breqbot Portal"
  const DefaultDesc: string := "Example Description"

  /** f"{name}" of the alias read by remove_portal: a missing key formats as "None". */
  function AliasText(a: Option<Alias>): string
  {
    if a.Some? then a.value else "None"
  }

  /** `redis.get(f"portal:from_id:{guild}:{id}")`: the alias of `id` in `guild`, if any. */
  function StoredAlias(fromId: map<(GuildId, PortalId), Alias>, guild: GuildId, id: PortalId): Option<Alias>
  {
    if (guild, id) in fromId then Some(fromId[(guild, id)]) else None
  }

  /** The from_id keys of portal `id` in each of `guilds`. */
  function IdKeys(guilds: set<GuildId>, id: PortalId): set<(GuildId, PortalId)>
  {
    set g | g in guilds :: (g, id)
  }

  /** The from_name keys remove_portal deletes for `id` in each of `guilds`, read through `fromId`. */
  function AliasKeys(guilds: set<GuildId>, id: PortalId, fromId: map<(GuildId, PortalId), Alias>): set<(GuildId, Alias)>
  {
    set g | g in guilds :: (g, AliasText(StoredAlias(fromId, g, id)))
  }

  /**
   * A portal is in a guild's set exactly when the guild is in the portal's
   * set exactly when the portal has an alias in that guild.
   */
  ghost predicate SetsFollowAliases(
    inGuild: map<GuildId, set<PortalId>>, guildsOf: map<PortalId, set<GuildId>>,
    fromId: map<(GuildId, PortalId), Alias>)
  {
    && (forall g, p :: p in Members(inGuild, g) <==> (g, p) in fromId)
    && (forall g, p :: g in Members(guildsOf, p) <==> (g, p) in fromId)
  }

  /** alias -> id and id -> alias are inverse within each guild. */
  ghost predicate AliasesInverse(fromName: map<(GuildId, Alias), PortalId>, fromId: map<(GuildId, PortalId), Alias>)
  {
    && (forall g, p :: (g, p) in fromId ==> (g, fromId[(g, p)]) in fromName && fromName[(g, fromId[(g, p)])] == p)
    && (forall g, a :: (g, a) in fromName ==> (g, fromName[(g, a)]) in fromId && fromId[(g, fromName[(g, a)])] == a)
  }

  /** Detaching from one more guild adds that guild's two keys. */
  lemma KeysGrow(done: set<GuildId>, g: GuildId, id: PortalId, fromId: map<(GuildId, PortalId), Alias>)
    ensures IdKeys(done + {g}, id) == IdKeys(done, id) + {(g, id)}
    ensures AliasKeys(done + {g}, id, fromId) == AliasKeys(done, id, fromId) + {(g, AliasText(StoredAlias(fromId, g, id)))}
  {
  }

  /** The four cross indexes agree. */
  ghost predicate IndexesAgree(
    inGuild: map<GuildId, set<PortalId>>, guildsOf: map<PortalId, set<GuildId>>,
    fromName: map<(GuildId, Alias), PortalId>, fromId: map<(GuildId, PortalId), Alias>)
  {
    SetsFollowAliases(inGuild, guildsOf, fromId) && AliasesInverse(fromName, fromId)
  }

  /**
   * Removing one present (guild, portal) association, as remove_portal does,
   * keeps the indexes in agreement.
   */
  lemma RemoveAssociationAgrees(
    inGuild: map<GuildId, set<PortalId>>, guildsOf: map<PortalId, set<GuildId>>,
    fromName: map<(GuildId, Alias), PortalId>, fromId: map<(GuildId, PortalId), Alias>,
    g: GuildId, id: PortalId)
    requires IndexesAgree(inGuild, guildsOf, fromName, fromId)
    requires (g, id) in fromId
    ensures IndexesAgree(SRem(inGuild, g, id), SRem(guildsOf, id, g),
                         fromName - {(g, fromId[(g, id)])}, fromId - {(g, id)})
  {
    RemoveAliasInverse(fromName, fromId, g, id);
  }

  lemma RemoveAliasInverse(fromName: map<(GuildId, Alias), PortalId>, fromId: map<(GuildId, PortalId), Alias>,
                           g: GuildId, id: PortalId)
    requires AliasesInverse(fromName, fromId)
    requires (g, id) in fromId
    ensures AliasesInverse(fromName - {(g, fromId[(g, id)])}, fromId - {(g, id)})
  {
  }

  /**
   * Adding a (guild, portal) association under a free alias, as add does,
   * keeps the indexes in agreement.
   */
  lemma AddAssociationAgrees(
    inGuild: map<GuildId, set<PortalId>>, guildsOf: map<PortalId, set<GuildId>>,
    fromName: map<(GuildId, Alias), PortalId>, fromId: map<(GuildId, PortalId), Alias>,
    g: GuildId, id: PortalId, a: Alias)
    requires IndexesAgree(inGuild, guildsOf, fromName, fromId)
    requires (g, a) !in fromName && id !in Members(inGuild, g)
    ensures IndexesAgree(SAdd(inGuild, g, id), SAdd(guildsOf, id, g),
                         fromName[(g, a) := id], fromId[(g, id) := a])
  {
    AddAliasInverse(fromName, fromId, g, id, a);
  }

  lemma AddAliasInverse(fromName: map<(GuildId, Alias), PortalId>, fromId: map<(GuildId, PortalId), Alias>,
                        g: GuildId, id: PortalId, a: Alias)
    requires AliasesInverse(fromName, fromId)
    requires (g, a) !in fromName && (g, id) !in fromId
    ensures AliasesInverse(fromName[(g, a) := id], fromId[(g, id) := a])
  {
    var fn := fromName[(g, a) := id];
    var fi := fromId[(g, id) := a];
    forall h, p | (h, p) in fi
      ensures (h, fi[(h, p)]) in fn && fn[(h, fi[(h, p)])] == p
    {
      if (h, p) != (g, id) {
        assert (h, fromId[(h, p)]) in fromName;
      }
    }
    forall h, b | (h, b) in fn
      ensures (h, fn[(h, b)]) in fi && fi[(h, fn[(h, b)])] == b
    {
      if (h, b) != (g, a) {
        assert (h, fromName[(h, b)]) in fromId;
      }
    }
  }

  /** The answer of the caller to the price prompt. */
  datatype Reaction = NoReaction | Confirm | Decline   // 120 s timeout, ✅, ❌

  /** How the payment step of an invocation ends. */
  datatype Payment =
    | Free                  // price 0 (or negative): no prompt at all
    | Refused               // the wallet does not hold the price
    | Abandoned             // no reaction within 120 s: return silently
    | Cancelled             // ❌: "Transaction cancelled"
    | Charged(left: int)    // ✅: the price is taken; `left` is the new balance

  /** The payment gate of the portal command (portal.py:54-85). */
  function PaymentGate(price: int, balance: int, reaction: Reaction): (g: Payment)
    ensures g == Free <==> price <= 0
    ensures g == Refused <==> price > 0 && balance < price
    ensures g.Charged? <==> price > 0 && balance >= price && reaction == Confirm
    ensures g.Charged? ==> g.left == balance - price && 0 <= g.left < balance
    ensures g == Abandoned <==> price > 0 && balance >= price && reaction == NoReaction
  {
    if price <= 0 then Free
    else if balance < price then Refused
    else match reaction
      case NoReaction => Abandoned
      case Decline => Cancelled
      case Confirm => Charged(balance - price)
  }

  /** The query envelope {"type": "query", "job": ..., "portal": ..., "data": ...}. */
  datatype Query = Query(job: string, portal: PortalId, data: string)

  /** The twelve clock faces of the waiting animation. */
  const Clocks: string := "🕐🕑🕒🕓🕔🕕🕖🕗🕘🕙🕚🕛"

  /**
   * The clock face index shown at animation frame `frame` (one frame per
   * 0.2 s): a new face every fifth frame, cycling through the twelve.
   */
  function ClockIndex(frame: nat): (r: Option<nat>)
    ensures r.Some? <==> frame % 5 == 0
    ensures r.Some? ==> r.value < |Clocks|
  {
    if frame % 5 == 0 then Some((frame / 5) % |Clocks|) else None
  }

  /** The face shown advances by one every fifth frame and wraps after twelve. */
  lemma ClockAdvances(frame: nat)
    requires frame % 5 == 0
    ensures ClockIndex(frame + 5) == Some((ClockIndex(frame).value + 1) % 12)
    ensures ClockIndex(frame + 60) == ClockIndex(frame)
  {
    assert (frame + 5) / 5 == frame / 5 + 1;
    assert (frame + 60) / 5 == frame / 5 + 12;
  }

  /**
   * portal_status_to_emoji: int(status) must parse; 0, 1 and 2 have an emoji
   * and any other number gives None.
   */
  function StatusToEmoji(status: string): (r: Result<Option<string>, Error>)
    ensures r.Failure? <==> Strings.ParseInt(status).None?
    ensures r.Failure? ==> r.error == NotAnInteger
    ensures r.Success? ==> (r.value.Some? <==> 0 <= Strings.ParseInt(status).value <= 2)
  {
    match Strings.ParseInt(status)
    case None => Failure(NotAnInteger)
    case Some(n) =>
      if n == 0 then Success(Some(":x:"))
      else if n == 1 then Success(Some(":orange_circle:"))
      else if n == 2 then Success(Some(":green_circle:"))
      else Success(None)
  }

  /** The three statuses have three different emoji. */
  lemma StatusEmojiDistinct()
    ensures StatusToEmoji("0") == Success(Some(":x:"))
    ensures StatusToEmoji("1") == Success(Some(":orange_circle:"))
    ensures StatusToEmoji("2") == Success(Some(":green_circle:"))
  {
    assert Strings.ParseDigits("0") == Some(0);
    assert Strings.ParseDigits("1") == Some(1);
    assert Strings.ParseDigits("2") == Some(2);
  }

  class Registry {
    var records: map<PortalId, PortalHash>           // portal:{id}
    var all: set<PortalId>                           // portal:list
    var byOwner: map<UserId, set<PortalId>>          // portal:from_owner:{owner}
    var guildsOf: map<PortalId, set<GuildId>>        // portal:guilds:{id}
    var inGuild: map<GuildId, set<PortalId>>         // portal:list:{guild}
    var fromName: map<(GuildId, Alias), PortalId>    // portal:from_name:{guild}:{alias}
    var fromId: map<(GuildId, PortalId), Alias>      // portal:from_id:{guild}:{id}

    /** An empty registry. */
    constructor ()
      ensures records == map[] && all == {} && byOwner == map[]
      ensures guildsOf == map[] && inGuild == map[] && fromName == map[] && fromId == map[]
      ensures Consistent()
    {
      records, all, byOwner := map[], {}, map[];
      guildsOf, inGuild, fromName, fromId := map[], map[], map[], map[];
    }

    /**
     * The registry's invariant: each record is stored under its own id, the
     * cross indexes agree, and every alias names a live portal.
     */
    ghost predicate Consistent()
      reads this
    {
      && "" !in records
      && (forall p :: p in records ==> records[p].id == p)
      && IndexesAgree(inGuild, guildsOf, fromName, fromId)
      && (forall g, a :: (g, a) in fromName ==> fromName[(g, a)] in records)
    }

    /**
     * Consistent, except that aliases may still name the portal `x`: the
     * state while delete is detaching `x` guild by guild.
     */
    ghost predicate ConsistentBut(x: PortalId)
      reads this
    {
      && "" !in records
      && (forall p :: p in records ==> records[p].id == p)
      && IndexesAgree(inGuild, guildsOf, fromName, fromId)
      && (forall g, a :: (g, a) in fromName ==> fromName[(g, a)] in records || fromName[(g, a)] == x)
    }

    /** get_portal(id, user_id) */
    function GetPortal(id: PortalId, user: Option<UserId>): (r: Result<PortalInfo, Error>)
      reads this
      ensures r.Success? <==> id in records && !FilterRejects(records[id], user)
      ensures id !in records ==> r == Failure(NoSuchPortal)
      ensures id in records && FilterRejects(records[id], user) ==> r == Failure(NotOwner)
      ensures r.Success? ==> Stored(r.value) == records[id].(price := Some(r.value.price))
      ensures r.Success? && user.Some? && user.value != 0 ==> r.value.owner == user.value
    {
      if id !in records then Failure(NoSuchPortal)
      else if FilterRejects(records[id], user) then Failure(NotOwner)
      else Success(Normalized(records[id]))
    }

    /** set_portal: upsert the record, list it and index it under its owner. */
    method SetPortal(p: PortalInfo)
      modifies this`records, this`all, this`byOwner
      ensures records == old(records)[p.id := Stored(p)]
      ensures all == old(all) + {p.id}
      ensures byOwner == SAdd(old(byOwner), p.owner, p.id)
      ensures GetPortal(p.id, None) == Success(p)
      ensures (p.id in old(records) && old(records)[p.id] == Stored(p) && p.id in old(all)
               && p.id in old(Members(byOwner, p.owner))) ==>
        records == old(records) && all == old(all) && byOwner == old(byOwner)
    {
      if p.id in records && records[p.id] == Stored(p) && p.id in Members(byOwner, p.owner) {
        assert records[p.id := Stored(p)] == records;
        SAddPresent(byOwner, p.owner, p.id);
      }
      records := records[p.id := Stored(p)];
      all := all + {p.id};
      byOwner := SAdd(byOwner, p.owner, p.id);
    }

    /** Whether check_name reports the alias free: unmapped, mapped to "" or to a dead portal. */
    predicate AliasFree(guild: GuildId, name: Alias)
      reads this
    {
      (guild, name) !in fromName || fromName[(guild, name)] == "" || fromName[(guild, name)] !in records
    }

    /** The alias map after check_name: an alias that names a dead portal is deleted. */
    function PurgedNames(guild: GuildId, name: Alias): (r: map<(GuildId, Alias), PortalId>)
      reads this
      ensures (guild, name) in r ==> r[(guild, name)] == "" || r[(guild, name)] in records
      ensures forall k :: k != (guild, name) ==> (k in r <==> k in fromName) && (k in r ==> r[k] == fromName[k])
    {
      var k := (guild, name);
      if k in fromName && fromName[k] != "" && fromName[k] !in records then fromName - {k} else fromName
    }

    /** check_name(name, guild_id) */
    method CheckName(name: Alias, guild: GuildId) returns (free: bool)
      modifies this`fromName
      ensures free == old(AliasFree(guild, name))
      ensures fromName == old(PurgedNames(guild, name))
      ensures !free ==> fromName == old(fromName)
    {
      var k := (guild, name);
      if k !in fromName || fromName[k] == "" {
        return true;
      }
      if fromName[k] !in records {
        fromName := fromName - {k};
        return true;
      }
      return false;
    }

    /** remove_portal(id, guild_id): drop the four index entries of the pair. */
    method RemovePortal(id: PortalId, guild: GuildId)
      modifies this`inGuild, this`guildsOf, this`fromName, this`fromId
      ensures inGuild == SRem(old(inGuild), guild, id)
      ensures guildsOf == SRem(old(guildsOf), id, guild)
      ensures fromId == old(fromId) - {(guild, id)}
      ensures fromName == old(fromName) - {(guild, AliasText(StoredAlias(old(fromId), guild, id)))}
      ensures (guild, id) in old(fromId) && old(Consistent()) ==> Consistent()
      ensures (guild, id) in old(fromId) && old(ConsistentBut(id)) ==> ConsistentBut(id)
    {
      var name := StoredAlias(fromId, guild, id);
      if (guild, id) in fromId && IndexesAgree(inGuild, guildsOf, fromName, fromId) {
        RemoveAssociationAgrees(inGuild, guildsOf, fromName, fromId, guild, id);
      }
      inGuild := SRem(inGuild, guild, id);
      guildsOf := SRem(guildsOf, id, guild);
      fromName := fromName - {(guild, AliasText(name))};
      fromId := fromId - {(guild, id)};
    }

    /** The `portal create` command; `id` and `token` are the two fresh uuids. */
    method Create(caller: UserId, id: PortalId, token: string)
      modifies this`records, this`all, this`byOwner
      ensures records == old(records)[id := PortalHash(id, DefaultName, DefaultDesc, Some(0), caller, token, "0")]
      ensures all == old(all) + {id}
      ensures byOwner == SAdd(old(byOwner), caller, id)
      ensures old(Consistent()) && id != "" ==> Consistent()
    {
      SetPortal(PortalInfo(id, DefaultName, DefaultDesc, 0, caller, token, "0"));
    }

    /** The `portal retoken` command; `token` is the fresh uuid. */
    method Retoken(caller: UserId, id: PortalId, token: string) returns (r: Result<(), Error>)
      modifies this`records, this`all, this`byOwner
      ensures old(GetPortal(id, Some(caller))).Failure? ==>
        r == Failure(old(GetPortal(id, Some(caller))).error)
        && records == old(records) && all == old(all) && byOwner == old(byOwner)
      ensures old(GetPortal(id, Some(caller))).Success? ==>
        var p := old(GetPortal(id, Some(caller))).value;
        r.Success? && records == old(records)[p.id := Stored(p.(token := token))]
        && all == old(all) + {p.id} && byOwner == SAdd(old(byOwner), p.owner, p.id)
      ensures old(Consistent()) ==> Consistent()
    {
      var got := GetPortal(id, Some(caller));
      if got.Failure? {
        return Failure(got.error);
      }
      var p := got.value;
      assert p.id == records[id].id;
      SetPortal(p.(token := token));
      return Success(());
    }

    /** The `portal set` command: only name, desc and price may be changed. */
    method Set(caller: UserId, id: PortalId, field: string, value: string) returns (r: Result<(), Error>)
      modifies this`records, this`all, this`byOwner
      ensures r.Failure? ==> records == old(records) && all == old(all) && byOwner == old(byOwner)
      ensures old(GetPortal(id, Some(caller))).Failure? ==> r == Failure(old(GetPortal(id, Some(caller))).error)
      ensures old(GetPortal(id, Some(caller))).Success? ==>
        var p := old(GetPortal(id, Some(caller))).value;
        && (field !in {"name", "desc", "price"} ==> r == Failure(InvalidField))
        && (field == "price" && Strings.ParseInt(value).None? ==> r == Failure(NotAnInteger))
        && (r.Success? ==>
              && records == old(records)[p.id := Stored(
                   if field == "name" then p.(name := value)
                   else if field == "desc" then p.(desc := value)
                   else p.(price := Strings.ParseInt(value).value))]
              && all == old(all) + {p.id} && byOwner == SAdd(old(byOwner), p.owner, p.id))
        && (field in {"name", "desc"} || Strings.ParseInt(value).Some? ==> field in {"name", "desc", "price"} ==> r.Success?)
      ensures old(Consistent()) ==> Consistent()
    {
      var got := GetPortal(id, Some(caller));
      if got.Failure? {
        return Failure(got.error);
      }
      var p := got.value;
      assert p.id == records[id].id;
      if field == "name" {
        p := p.(name := value);
      } else if field == "desc" {
        p := p.(desc := value);
      } else if field == "price" {
        var n := Strings.ParseInt(value);
        if n.None? {
          return Failure(NotAnInteger);
        }
        p := p.(price := n.value);
      } else {
        return Failure(InvalidField);
      }
      SetPortal(p);
      return Success(());
    }

    /** The `portal add` command: make a portal available in a guild under an alias. */
    method Add(caller: UserId, guild: GuildId, id: PortalId, name: Alias) returns (r: Result<(), Error>)
      modifies this`inGuild, this`guildsOf, this`fromName, this`fromId
      ensures old(GetPortal(id, Some(caller))).Failure? ==>
        r == Failure(old(GetPortal(id, Some(caller))).error)
        && inGuild == old(inGuild) && guildsOf == old(guildsOf) && fromName == old(fromName) && fromId == old(fromId)
      ensures old(GetPortal(id, Some(caller))).Success? && !old(AliasFree(guild, name)) ==>
        r == Failure(NameTaken)
        && inGuild == old(inGuild) && guildsOf == old(guildsOf) && fromName == old(fromName) && fromId == old(fromId)
      ensures old(GetPortal(id, Some(caller))).Success? && old(AliasFree(guild, name)) ==>
        var pid := old(GetPortal(id, Some(caller))).value.id;
        if pid in old(Members(inGuild, guild)) then
          r == Failure(AlreadyInGuild)
          && inGuild == old(inGuild) && guildsOf == old(guildsOf) && fromId == old(fromId)
          && fromName == old(PurgedNames(guild, name))
        else
          r.Success?
          && inGuild == SAdd(old(inGuild), guild, pid)
          && guildsOf == SAdd(old(guildsOf), pid, guild)
          && fromName == old(PurgedNames(guild, name))[(guild, name) := pid]
          && fromId == old(fromId)[(guild, pid) := name]
      ensures old(Consistent()) ==> Consistent()
    {
      var got := GetPortal(id, Some(caller));
      if got.Failure? {
        return Failure(got.error);
      }
      var pid := got.value.id;
      ghost var wasConsistent := Consistent();
      var free := CheckName(name, guild);
      if !free {
        return Failure(NameTaken);
      }
      if pid in Members(inGuild, guild) {
        return Failure(AlreadyInGuild);
      }
      Associate(guild, pid, name);
      return Success(());
    }

    /** The four writes of `portal add`: the portal joins the guild under the alias. */
    method Associate(guild: GuildId, pid: PortalId, name: Alias)
      modifies this`inGuild, this`guildsOf, this`fromName, this`fromId
      ensures inGuild == SAdd(old(inGuild), guild, pid)
      ensures guildsOf == SAdd(old(guildsOf), pid, guild)
      ensures fromName == old(fromName)[(guild, name) := pid]
      ensures fromId == old(fromId)[(guild, pid) := name]
      ensures (old(Consistent()) && pid in records && (guild, name) !in old(fromName)
               && pid !in old(Members(inGuild, guild))) ==> Consistent()
    {
      if Consistent() && pid in records && (guild, name) !in fromName && pid !in Members(inGuild, guild) {
        AddAssociationAgrees(inGuild, guildsOf, fromName, fromId, guild, pid, name);
      }
      inGuild := SAdd(inGuild, guild, pid);
      guildsOf := SAdd(guildsOf, pid, guild);
      fromName := fromName[(guild, name) := pid];
      fromId := fromId[(guild, pid) := name];
    }

    /** The `portal remove` command: the owner takes a portal out of a guild by its alias. */
    method Remove(caller: UserId, guild: GuildId, name: Alias) returns (r: Result<(), Error>)
      modifies this`inGuild, this`guildsOf, this`fromName, this`fromId
      ensures ((guild, name) !in old(fromName) || old(fromName)[(guild, name)] == "") ==>
        r == Failure(NoSuchAlias)
      ensures r.Failure? ==>
        inGuild == old(inGuild) && guildsOf == old(guildsOf) && fromName == old(fromName) && fromId == old(fromId)
      ensures (guild, name) in old(fromName) && old(fromName)[(guild, name)] != "" ==>
        var got := old(GetPortal(fromName[(guild, name)], Some(caller)));
        && (got.Failure? ==> r == Failure(got.error))
        && (got.Success? ==>
              r.Success? && fromId == old(fromId) - {(guild, got.value.id)}
              && inGuild == SRem(old(inGuild), guild, got.value.id)
              && guildsOf == SRem(old(guildsOf), got.value.id, guild)
              && fromName == old(fromName) - {(guild, AliasText(StoredAlias(old(fromId), guild, got.value.id)))})
      ensures old(Consistent()) ==> Consistent()
      ensures old(Consistent()) && r.Success? ==> fromName == old(fromName) - {(guild, name)}
    {
      var k := (guild, name);
      if k !in fromName || fromName[k] == "" {
        return Failure(NoSuchAlias);
      }
      var got := GetPortal(fromName[k], Some(caller));
      if got.Failure? {
        return Failure(got.error);
      }
      RemovePortal(got.value.id, guild);
      return Success(());
    }

    /**
     * The `portal delete` command: after the ownership check, unlist the
     * portal, delete its record and remove it from every guild it was added to.
     */
    method Delete(caller: UserId, id: PortalId) returns (r: Result<(), Error>)
      modifies this
      ensures old(GetPortal(id, Some(caller))).Failure? ==>
        r == Failure(old(GetPortal(id, Some(caller))).error)
        && records == old(records) && all == old(all) && byOwner == old(byOwner)
        && inGuild == old(inGuild) && guildsOf == old(guildsOf) && fromName == old(fromName) && fromId == old(fromId)
      ensures old(GetPortal(id, Some(caller))).Success? ==>
        && r.Success?
        && records == old(records) - {id}
        && all == old(all) - {id}
        && byOwner == SRem(old(byOwner), caller, id)
        && Members(guildsOf, id) == {}
        && (forall p :: p != id ==> Members(guildsOf, p) == old(Members(guildsOf, p)))
        && (forall g :: Members(inGuild, g) ==
              (if g in old(Members(guildsOf, id)) then old(Members(inGuild, g)) - {id} else old(Members(inGuild, g))))
        && fromId == old(fromId) - IdKeys(old(Members(guildsOf, id)), id)
        && fromName == old(fromName) - AliasKeys(old(Members(guildsOf, id)), id, old(fromId))
      ensures old(Consistent()) ==> Consistent()
      ensures old(Consistent()) && r.Success? ==> forall g, a :: (g, a) in fromName ==> fromName[(g, a)] != id
    {
      var got := GetPortal(id, Some(caller));
      if got.Failure? {
        return Failure(got.error);
      }
      ghost var wasConsistent := Consistent();
      all := all - {id};
      byOwner := SRem(byOwner, caller, id);
      records := records - {id};

      assert wasConsistent ==> ConsistentBut(id);
      DetachEverywhere(id);
      if wasConsistent {
        forall g, a | (g, a) in fromName
          ensures fromName[(g, a)] in records
        {
          assert (g, fromName[(g, a)]) in fromId;
        }
      }
      return Success(());
    }

    /**
     * The indexes are the ones given, with portal `id` detached from exactly
     * the guilds `done` as remove_portal detaches it, and nothing else changed.
     */
    ghost predicate DetachedFrom(id: PortalId, done: set<GuildId>,
                                 inGuild0: map<GuildId, set<PortalId>>, guildsOf0: map<PortalId, set<GuildId>>,
                                 fromName0: map<(GuildId, Alias), PortalId>, fromId0: map<(GuildId, PortalId), Alias>)
      reads this
    {
      && (forall p :: p != id ==> Members(guildsOf, p) == Members(guildsOf0, p))
      && (forall g :: Members(inGuild, g) ==
            (if g in done then Members(inGuild0, g) - {id} else Members(inGuild0, g)))
      && fromId == fromId0 - IdKeys(done, id)
      && fromName == fromName0 - AliasKeys(done, id, fromId0)
    }

    /** One turn of delete's loop: remove_portal(id, g) for a guild not yet detached. */
    method DetachOne(id: PortalId, g: GuildId, ghost done: set<GuildId>,
                     ghost inGuild0: map<GuildId, set<PortalId>>, ghost guildsOf0: map<PortalId, set<GuildId>>,
                     ghost fromName0: map<(GuildId, Alias), PortalId>, ghost fromId0: map<(GuildId, PortalId), Alias>)
      requires g !in done
      requires DetachedFrom(id, done, inGuild0, guildsOf0, fromName0, fromId0)
      modifies this`inGuild, this`guildsOf, this`fromName, this`fromId
      ensures DetachedFrom(id, done + {g}, inGuild0, guildsOf0, fromName0, fromId0)
      ensures Members(guildsOf, id) == old(Members(guildsOf, id)) - {g}
      ensures (g, id) in old(fromId) && old(ConsistentBut(id)) ==> ConsistentBut(id)
    {
      assert StoredAlias(fromId, g, id) == StoredAlias(fromId0, g, id);
      RemovePortal(id, g);
      KeysGrow(done, g, id, fromId0);
    }

    /** The loop of delete: remove_portal(id, guild) for every guild the portal is in. */
    method DetachEverywhere(id: PortalId)
      modifies this`inGuild, this`guildsOf, this`fromName, this`fromId
      ensures Members(guildsOf, id) == {}
      ensures forall p :: p != id ==> Members(guildsOf, p) == old(Members(guildsOf, p))
      ensures forall g ::
        Members(inGuild, g) ==
        (if g in old(Members(guildsOf, id)) then old(Members(inGuild, g)) - {id} else old(Members(inGuild, g)))
      ensures fromId == old(fromId) - IdKeys(old(Members(guildsOf, id)), id)
      ensures fromName == old(fromName) - AliasKeys(old(Members(guildsOf, id)), id, old(fromId))
      ensures old(ConsistentBut(id)) ==> ConsistentBut(id)
    {
      ghost var wasConsistent := ConsistentBut(id);
      ghost var attached := Members(guildsOf, id);
      ghost var done: set<GuildId> := {};
      var remaining := Members(guildsOf, id);
      while remaining != {}
        invariant remaining <= attached && done == attached - remaining
        invariant Members(guildsOf, id) == remaining
        invariant DetachedFrom(id, done, old(inGuild), old(guildsOf), old(fromName), old(fromId))
        invariant wasConsistent ==> ConsistentBut(id)
        decreases remaining
      {
        ghost var some := NonEmptyHasMember(remaining);
        var g :| g in remaining;
        if wasConsistent {
          assert (g, id) in fromId;
        }
        DetachOne(id, g, done, old(inGuild), old(guildsOf), old(fromName), old(fromId));
        remaining := remaining - {g};
        done := done + {g};
      }
      assert done == old(Members(guildsOf, id));
    }

    /**
     * The `portal` command up to publishing: resolve the alias in the guild,
     * run the payment gate against the caller's balance, and build the query
     * envelope for job `job`. `reaction` is the caller's answer to the prompt.
     */
    method Invoke(bank: Economy.Ledger, guild: GuildId, caller: UserId, name: Alias,
                  command: string, job: string, reaction: Reaction)
      returns (r: Result<Option<Query>, Error>)
      modifies bank`balances
      ensures ((guild, name) !in fromName || fromName[(guild, name)] == "") ==>
        r == Failure(NoSuchAlias) && bank.balances == old(bank.balances)
      ensures (guild, name) in fromName && fromName[(guild, name)] != "" ==>
        var pid := fromName[(guild, name)];
        var price := if pid in records then records[pid].price.GetOr(0) else 0;
        var acct := Economy.Account(guild, caller);
        match PaymentGate(price, old(bank.Balance(acct)), reaction)
        case Free => r == Success(Some(Query(job, pid, command))) && bank.balances == old(bank.balances)
        case Refused => r == Failure(InsufficientFunds) && bank.balances == old(bank.balances)
        case Abandoned => r == Success(None) && bank.balances == old(bank.balances)
        case Cancelled => r == Success(None) && bank.balances == old(bank.balances)
        case Charged(left) =>
          r == Success(Some(Query(job, pid, command)))
          && bank.balances == old(bank.balances)[acct := left]
    {
      var k := (guild, name);
      if k !in fromName || fromName[k] == "" {
        return Failure(NoSuchAlias);
      }
      var pid := fromName[k];
      var price := if pid in records then records[pid].price.GetOr(0) else 0;
      var acct := Economy.Account(guild, caller);
      if price > 0 {
        if bank.Balance(acct) < price {
          return Failure(InsufficientFunds);
        }
        if reaction == NoReaction || reaction == Decline {
          return Success(None);
        }
        bank.balances := IncrBy(bank.balances, acct, -price);
      }
      return Success(Some(Query(job, pid, command)));
    }
  }
}
