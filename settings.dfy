/**
 * The guild-prefix commands of cogs/settings.py over the `guilds` table. The
 * table is unique on `guild_id` (models.py:10), so it is a map from the guild's
 * id, as text, to its prefix; a commit is taken to be atomic.
 */
module Settings {
  import opened Wrappers
  import opened Replies
  import Text
  import CommandErrors

  /** The rows of the `guilds` table: guild_id to prefix. */
  type Table = map<string, string>

  /** `str(interaction.guild.id)`, the value the table is keyed by. */
  function GuildKey(guildId: nat): (r: string)
    ensures Text.ParseDecimal(r) == Some(guildId)
  {
    Text.ParseDecimalOfDecimal(guildId);
    Text.Decimal(guildId)
  }

  /**
   * The reply of an invoker without the manage-guild permission: the check at
   * cogs/settings.py:24 raises MissingPermissions before the handler runs and
   * the command tree's error hook answers it.
   */
  function PermissionDenied(): (r: Reply)
    ensures r.ephemeral && r.key == "error_missing_permissions" && r.args == map[]
  {
    CommandErrors.OnAppCommandError(CommandErrors.MissingPermissions(["manage_guild"])).reply
  }

  /** The table after `set_prefix` (cogs/settings.py:24-46). */
  function SetPrefixTable(t: Table, canManage: bool, guild: Option<nat>, prefix: string): (r: Table)
    ensures canManage && guild.Some? ==> GuildKey(guild.value) in r && r[GuildKey(guild.value)] == prefix
    ensures !canManage || guild.None? ==> r == t
    ensures forall k :: k in r && (guild.None? || k != GuildKey(guild.value)) ==> k in t && r[k] == t[k]
    ensures t.Keys <= r.Keys
  {
    if !canManage || guild.None? then t else t[GuildKey(guild.value) := prefix]
  }

  /** The reply of `set_prefix`; both upsert branches send the same success message. */
  function SetPrefixReply(canManage: bool, guild: Option<nat>, prefix: string): (r: Reply)
    ensures r.ephemeral
    ensures r.key == "setprefix_response_success" <==> canManage && guild.Some?
    ensures r.key == "setprefix_response_success" ==> r.args == map["prefix" := prefix]
    ensures !canManage ==> r.key == "error_missing_permissions"
  {
    if !canManage then PermissionDenied()
    else if guild.None? then Ephemeral("setprefix_response_guild_only")
    else EphemeralWith("setprefix_response_success", "prefix", prefix)
  }

  /** The reply of `get_prefix` (cogs/settings.py:54-70). */
  function GetPrefixReply(t: Table, guild: Option<nat>, defaultPrefix: string): (r: Reply)
    ensures r.ephemeral
    ensures r.key == "getprefix_response_guild_only" <==> guild.None?
    ensures r.key == "getprefix_response_current" <==> guild.Some? && GuildKey(guild.value) in t
    ensures r.key == "getprefix_response_current" ==> r.args == map["prefix" := t[GuildKey(guild.value)]]
    ensures r.key == "getprefix_response_no_custom" ==> r.args == map["default_prefix" := defaultPrefix]
  {
    if guild.None? then Ephemeral("getprefix_response_guild_only")
    else if GuildKey(guild.value) in t then EphemeralWith("getprefix_response_current", "prefix", t[GuildKey(guild.value)])
    else EphemeralWith("getprefix_response_no_custom", "default_prefix", defaultPrefix)
  }

  class GuildSettings {
    var prefixes: Table

    constructor ()
      ensures prefixes == map[]
    {
      prefixes := map[];
    }

    /**
     * `set_prefix`: `canManage` is whether the invoker has the manage-guild
     * permission and `guild` the guild the command runs in, if any.
     */
    method SetPrefix(canManage: bool, guild: Option<nat>, prefix: string) returns (reply: Reply)
      modifies this
      ensures prefixes == SetPrefixTable(old(prefixes), canManage, guild, prefix)
      ensures reply == SetPrefixReply(canManage, guild, prefix)
    {
      if !canManage {
        reply := PermissionDenied();
        return;
      }
      if guild.None? {
        reply := Ephemeral("setprefix_response_guild_only");
        return;
      }
      var key := GuildKey(guild.value);
      if key in prefixes {
        // the fetched row's prefix is overwritten in place
        prefixes := prefixes[key := prefix];
        reply := EphemeralWith("setprefix_response_success", "prefix", prefix);
      } else {
        // a new row is added with this guild id and prefix
        prefixes := prefixes[key := prefix];
        reply := EphemeralWith("setprefix_response_success", "prefix", prefix);
      }
    }

    /** `get_prefix`; `defaultPrefix` is `bot.command_prefix`. */
    method GetPrefix(guild: Option<nat>, defaultPrefix: string) returns (reply: Reply)
      ensures reply == GetPrefixReply(prefixes, guild, defaultPrefix)
    {
      if guild.None? {
        reply := Ephemeral("getprefix_response_guild_only");
        return;
      }
      var key := GuildKey(guild.value);
      if key in prefixes {
        reply := EphemeralWith("getprefix_response_current", "prefix", prefixes[key]);
      } else {
        reply := EphemeralWith("getprefix_response_no_custom", "default_prefix", defaultPrefix);
      }
    }
  }

  /** Read-after-write on one store: a committed `set_prefix` is what `get_prefix` reports. */
  method SetThenGet(store: GuildSettings, guildId: nat, prefix: string, defaultPrefix: string)
    returns (setReply: Reply, getReply: Reply)
    modifies store
    ensures setReply == EphemeralWith("setprefix_response_success", "prefix", prefix)
    ensures getReply == EphemeralWith("getprefix_response_current", "prefix", prefix)
  {
    setReply := store.SetPrefix(true, Some(guildId), prefix);
    getReply := store.GetPrefix(Some(guildId), defaultPrefix);
  }

  // ----- The store as written -----

  /** What an invocation ends with: the table after it, the reply sent, and whether an error was logged. */
  datatype Outcome = Outcome(table: Table, reply: Reply, logged: bool)

  /**
   * The error both commands raise as written: `get_session` (database.py:20-21)
   * is a coroutine function, so `async with self.bot.db.get_session()` is
   * handed a coroutine, which is no asynchronous context manager. The
   * TypeError reaches the error hook wrapped as a CommandInvokeError, before any
   * query runs.
   */
  const SessionError := CommandErrors.OtherError("CommandInvokeError")

  /** `set_prefix` as written: a permitted call in a guild fails at the session and writes nothing. */
  function SetPrefixAsWritten(t: Table, canManage: bool, guild: Option<nat>, prefix: string): (o: Outcome)
    ensures o.table == t
    ensures o.logged <==> canManage && guild.Some?
    ensures canManage && guild.Some? ==> o.reply == Ephemeral(CommandErrors.UnexpectedKey)
    ensures !canManage || guild.None? ==> o.reply == SetPrefixReply(canManage, guild, prefix)
  {
    if !canManage || guild.None? then Outcome(t, SetPrefixReply(canManage, guild, prefix), false)
    else
      var h := CommandErrors.OnAppCommandError(SessionError);
      Outcome(t, h.reply, h.logged)
  }

  /** `get_prefix` as written: a call in a guild fails at the session whatever the table holds. */
  function GetPrefixAsWritten(t: Table, guild: Option<nat>, defaultPrefix: string): (o: Outcome)
    ensures o.table == t
    ensures o.logged <==> guild.Some?
    ensures guild.Some? ==> o.reply == Ephemeral(CommandErrors.UnexpectedKey)
    ensures guild.None? ==> o.reply == GetPrefixReply(t, guild, defaultPrefix)
  {
    if guild.None? then Outcome(t, GetPrefixReply(t, guild, defaultPrefix), false)
    else
      var h := CommandErrors.OnAppCommandError(SessionError);
      Outcome(t, h.reply, h.logged)
  }

  /**
   * As written, a permitted `set_prefix` in a guild never stores the prefix and
   * never sends the success reply that the intended store sends; `get_prefix`
   * then still fails instead of reporting the prefix.
   */
  lemma SessionErrorLosesWrite(t: Table, guildId: nat, prefix: string, defaultPrefix: string)
    ensures var o := SetPrefixAsWritten(t, true, Some(guildId), prefix);
      && o.reply != SetPrefixReply(true, Some(guildId), prefix)
      && (GuildKey(guildId) !in t ==> o.table != SetPrefixTable(t, true, Some(guildId), prefix))
      && GetPrefixAsWritten(o.table, Some(guildId), defaultPrefix).reply
         != GetPrefixReply(SetPrefixTable(t, true, Some(guildId), prefix), Some(guildId), defaultPrefix)
  {
  }

  // ----- Properties of the store -----

  /** After `set_prefix(g, P)`, `get_prefix(g)` replies with the current-prefix message formatted with P. */
  lemma ReadAfterWrite(t: Table, guildId: nat, prefix: string, defaultPrefix: string)
    ensures GetPrefixReply(SetPrefixTable(t, true, Some(guildId), prefix), Some(guildId), defaultPrefix)
      == EphemeralWith("getprefix_response_current", "prefix", prefix)
  {
  }

  /** `set_prefix` on one guild leaves what every other guild reads unchanged. */
  lemma OtherGuildsUnchanged(t: Table, canManage: bool, guildId: nat, other: nat, prefix: string, defaultPrefix: string)
    requires other != guildId
    ensures GetPrefixReply(SetPrefixTable(t, canManage, Some(guildId), prefix), Some(other), defaultPrefix)
      == GetPrefixReply(t, Some(other), defaultPrefix)
  {
    Text.DecimalInjective(guildId, other);
  }

  /** An update adds no row; a first write adds exactly one. */
  lemma UpsertRowCount(t: Table, guildId: nat, prefix: string)
    ensures var t' := SetPrefixTable(t, true, Some(guildId), prefix);
      t'.Keys == t.Keys + {GuildKey(guildId)}
      && |t'| == if GuildKey(guildId) in t then |t| else |t| + 1
  {
  }

  /** Writing P1 and then P2 for one guild leaves one row, holding P2. */
  lemma LastWriteWins(t: Table, guildId: nat, p1: string, p2: string)
    ensures SetPrefixTable(SetPrefixTable(t, true, Some(guildId), p1), true, Some(guildId), p2)
      == SetPrefixTable(t, true, Some(guildId), p2)
  {
  }

  /** Without a guild, or without the permission, nothing is written and the matching refusal is sent. */
  lemma RejectionsWriteNothing(t: Table, canManage: bool, prefix: string, defaultPrefix: string)
    ensures SetPrefixTable(t, canManage, None, prefix) == t
    ensures SetPrefixReply(canManage, None, prefix)
      == if canManage then Ephemeral("setprefix_response_guild_only") else Ephemeral("error_missing_permissions")
    ensures forall g :: SetPrefixTable(t, false, g, prefix) == t
    ensures GetPrefixReply(t, None, defaultPrefix) == Ephemeral("getprefix_response_guild_only")
  {
  }

  /** A guild that never set a prefix reads the bot's default prefix. */
  lemma UnwrittenGuildReadsDefault(t: Table, guildId: nat, defaultPrefix: string)
    requires GuildKey(guildId) !in t
    ensures GetPrefixReply(t, Some(guildId), defaultPrefix)
      == EphemeralWith("getprefix_response_no_custom", "default_prefix", defaultPrefix)
  {
  }
}
