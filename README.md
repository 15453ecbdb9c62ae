# Folium bot: verified model of its plain logic

Folium is a chat-platform bot. Almost all of it is glue around the platform client, an ORM and an AI SDK.
This project models in Dafny the few pieces of it that are self-contained logic, and proves what they promise:

- **Configuration overrides** (`config.dfy`). `override_config_with_env` walks the loaded YAML tree. Each leaf
  at key path k1, ..., kn is overridden by the variable `UPPER(k1)_..._UPPER(kn)` when that variable is set.
  The new value is coerced by the leaf's original type. Python's `bool` is a subclass of `int`, so a boolean leaf
  takes the integer branch. The walk is a pure function (`OverrideMap`) and a method with the source's loop
  (`OverrideConfigWithEnv`). The method also returns the set of variable names that draw the "invalid integer"
  warning.
- **Localization** (`localization.dfy`). `get_localized_name` builds the per-locale name map of a command.
  `ResolveMessages` is the message-table choice that every handler repeats. It falls back to the whole `en-US`
  table, never key by key.
- **Database URL** (`database_url.dfy`). This is the URL `MyBot.__init__` builds from the `database` section,
  with its two errors. A parser reads the URL back. A round-trip lemma shows that the URL names exactly the
  configured target. A SQLite URL always does. A PostgreSQL URL does when no field contains the separator
  written after it. The user must have no `:`,
  the password no `@`, the host no `:` and the port no `/`. The values are not escaped, so user `u` with
  password `p@x` gives a URL that reads back as another target.
- **Slash-command error hook** (`command_errors.dfy`). `on_app_command_error` tests the error class in order and
  sends an ephemeral message. Only an unclassified error is logged.
- **Guild prefix store** (`settings.dfy`). The `guilds` table is unique on `guild_id`, so it is a map from the
  guild id's decimal text to the prefix. The class `GuildSettings` has `SetPrefix` (an upsert) and `GetPrefix`
  (a lookup with the bot's default). Each method is tied to a specification function. Lemmas prove
  read-after-write, that other guilds are left alone, the row count, and that refusals write nothing.
- **Uptime** (`ping.dfy`). The `divmod` split into hours, minutes and seconds, and its text. The split is proved
  unique, and the text is proved injective.
- Helpers: `text.dfy` holds ASCII `upper`/`lower`, one-character `replace`, `join`, and `str(int)` with a parser
  that inverts it. `replies.dfy` holds the reply a handler sends. `wrappers.dfy` holds `Option`/`Result`.

Inputs that the program reads from the outside world are parameters:

- the environment, as `map<string, string>`;
- Python's `int()`, as a function to `Option<int>`;
- the set of locale codes the platform accepts;
- whether `interaction.locale in TRANSLATIONS` holds;
- the permission check's outcome;
- the guild the command runs in, if any;
- `bot.command_prefix`;
- the uptime in whole seconds.

Two behaviours of the code may surprise a reader. The model follows the code in both:

- A missing message key is not filled in from `en-US`. The whole `en-US` table is used only when the locale's
  table is absent (`Localization.NoPerKeyFallback`).
- A boolean leaf overridden with `"YES"` stays `False`, because it goes through the integer branch. This is
  recorded under Findings.

The prefix commands are modelled both ways. As written, they fail at `async with self.bot.db.get_session()`,
because `get_session` is a coroutine function. `Settings.GuildSettings` models the intended working store, and
`Settings.SetPrefixAsWritten` models the failure. This is recorded under Findings.

## Model

| member | source | states |
|---|---|---|
| `Config.OverrideConfigWithEnv` | main.py:36-54 | The mapping it returns is the walked mapping `OverrideMap`. The set it returns is exactly the set of variable names warned about. |
| `Config.OverrideMap` | main.py:36-54 | The walk neither adds nor removes a key of the mapping it rewrites. |
| `Config.EntryName` | main.py:38 | The variable name of an entry is the prefix followed by the upper-cased key. It starts with the prefix, and its length is the two lengths added. |
| `Config.OverrideEntry` | main.py:39-53 | An entry is a mapping after the walk exactly when it was one before, and a mapping keeps its keys. A leaf whose variable is unset is unchanged. |
| `Config.OverrideLeaf` | main.py:42-53 | A leaf stays a leaf whether or not its variable is set. |
| `Config.CoerceLeaf` | main.py:44-53 | Coercing a leaf never turns it into a mapping. |
| `Config.OverridePreservesShape` | main.py:37-40 | After the walk the tree has the same mappings with the same keys at every level. Mappings are walked into and never replaced. Leaves stay leaves. |
| `Config.SameShapeGet` | main.py:39-40 | Two trees of the same shape have values at exactly the same key paths. Those values again have the same shape. |
| `Config.OverrideAtPath` | main.py:37-53 | A leaf at path k1..kn of the top-level config becomes the coercion of `env[UPPER(k1)_..._UPPER(kn)]` when that variable is set. Otherwise it is unchanged. |
| `Config.OverrideAtPathUnder` | main.py:36-43 | Under prefix p, the leaf at a path is looked up as p + the path's variable name. Each level adds `UPPER(key) + "_"` to the prefix. |
| `Config.EnvVarNameStep` | main.py:38-40 | The variable name of a path of two or more keys is `UPPER(first) + "_"` followed by the name of the rest. |
| `Config.TopLevelName` | main.py:38 | A top-level leaf's variable is its upper-cased key, with no leading underscore. |
| `Config.EntryWarnings` | main.py:45-49 | Every name one entry warns about is a set variable whose string the parser rejects. It starts with the entry's own variable name. |
| `Config.InvalidIntegerNames` | main.py:36-49 | Every warned name under a prefix is a set variable whose string the parser rejects, and it starts with that prefix. |
| `Config.WarningsExactly` | main.py:45-49 | A name is warned about exactly when it is the variable of some integer-typed leaf (booleans included) that is set to a string the parser rejects. |
| `Config.WarnedAtIsLogged` | main.py:45-49 | Such a leaf's variable name is in the warning set, under any prefix. |
| `Config.LoggedIsWarnedAt` | main.py:45-49 | Every name in the warning set comes from such a leaf. The lemma returns that leaf's path. |
| `Config.IntegerLeafCoercion` | main.py:45-49 | An integer leaf takes `int(env)` when the parser accepts the string. Otherwise it keeps its old value. |
| `Config.OtherLeafCoercion` | main.py:52-53 | A string, float, null or list leaf is replaced by the raw variable string. |
| `Config.BoolLeafTakesIntegerBranch` | main.py:45-51 | A boolean leaf passes the `int` test. It becomes the parsed integer, or keeps its value. The truthy-token branch is never reached. |
| `Config.FalseLeafOverrides` | main.py:45-49 | As written: `False` with `"YES"` stays `False`, and with `"1"` becomes the integer 1. |
| `Config.CoerceLeafIntended` | main.py:45-53 | The corrected coercion, with the boolean test placed before the integer test. It never turns a leaf into a mapping. `Config.IntendedBoolCoercion` and `Config.IntendedAgreesOnOtherLeaves` state what it computes. |
| `Config.IntendedBoolCoercion` | main.py:50-51 | Corrected coercion: a boolean leaf becomes whether the lower-cased string is one of true/1/t/y/yes. So `False` with `"YES"` becomes `True`. |
| `Config.IntendedAgreesOnOtherLeaves` | main.py:45-53 | The corrected coercion differs from the written one on boolean leaves only. |
| `Localization.PlatformCode` | main.py:78 | The normalised code has the same length as the language code and contains no `-`. |
| `Localization.LocalizedNames` | main.py:75-83 | The fold over the visiting order that `get_localized_name` computes. Its keys are all platform-accepted locales. `Localization.LocalizedNamesExactly` characterises its entries. |
| `Localization.GetLocalizedName` | main.py:73-83 | The loop returns the map `LocalizedNames` builds by visiting the language codes in order. |
| `Localization.LocalizedNamesExactly` | main.py:73-83 | A platform locale is in the map exactly when some table that contains the key normalises to that locale and the platform accepts it. Its value is `messages[key]` of the last such table visited. Other codes are skipped. |
| `Localization.LocalizedNamesOfTable` | main.py:75-83 | When the codes visited are all the loaded codes, a platform locale is in the map exactly when some loaded table contains the key, normalises to that locale, and is accepted by the platform. |
| `Localization.ResolveMessages` | main.py:124-125 | It fails exactly when there is no `en-US` table. Otherwise the result is the table of the normalised code when that table exists, and else the whole `en-US` table. A locale not found in the table always gets `en-US`. |
| `Localization.NoPerKeyFallback` | main.py:125 | A key missing from an existing non-default table stays missing, even when `en-US` has it. |
| `DatabaseUrl.FirstMissing` | main.py:105 | It returns None exactly when every field is present. Otherwise it returns the first absent field in f-string order. |
| `DatabaseUrl.PostgresFieldsPresent` | main.py:105 | All five fields user, password, host, port and dbname are present exactly when each listed field is. |
| `DatabaseUrl.PostgresUrl` | main.py:105 | The PostgreSQL f-string starts with `postgresql+asyncpg://` and never with the SQLite scheme. Its length is the scheme, the five fields and the four separators. |
| `DatabaseUrl.DatabaseUrlOf` | main.py:101-107 | A URL is built exactly for type `sqlite` with a path, or type `postgresql` with all five fields. A missing `type` is a KeyError. Any other type is the unsupported-type error. Every KeyError names a missing key. |
| `DatabaseUrl.SplitFirst` | main.py:105 | It splits at the first occurrence of the separator, and finds nothing when the separator is absent. |
| `DatabaseUrl.DatabaseUrlRoundTrip` | main.py:102-105 | Reading back the URL built from a section gives the SQLite path for every SQLite section. For a PostgreSQL section it gives user, password, host, port and dbname when no field contains the separator that follows it. |
| `DatabaseUrl.SchemesDistinct` | main.py:103-105 | A SQLite URL never equals a PostgreSQL URL. |
| `CommandErrors.OnAppCommandError` | main.py:127-139 | Every reply is ephemeral. CommandNotFound, MissingPermissions, BotMissingPermissions and CommandOnCooldown get their own messages. Cooldown is formatted with `retry_after`. Other CheckFailures and everything else get `error_unexpected`. Only the catch-all is logged. |
| `CommandErrors.GenericRepliesAgree` | main.py:135-139 | A CheckFailure and the catch-all send the same reply, and only the catch-all logs. The CheckFailure subclasses tested first never get the generic message. |
| `CommandErrors.SpecificRepliesDistinct` | main.py:127-134 | The four specific error classes are told apart by their message. |
| `Settings.GuildKey` | cogs/settings.py:34 | `str(interaction.guild.id)` reads back as the guild id, so distinct guilds get distinct keys. |
| `Settings.PermissionDenied` | cogs/settings.py:24 | A caller without the manage-guild permission gets the error hook's ephemeral `error_missing_permissions` reply, with no arguments (main.py:129-130). |
| `Settings.SetPrefixTable` | cogs/settings.py:24-46 | A permitted call in a guild stores the prefix under the guild's key. A refused call leaves the table as it was. No other guild's row changes, and no row is removed. |
| `Settings.SetPrefixReply` | cogs/settings.py:24-44 | The reply is ephemeral. It is the success message, formatted with the prefix, exactly for a permitted call in a guild. Without the permission it is the missing-permissions message. |
| `Settings.GetPrefixReply` | cogs/settings.py:54-70 | The reply is ephemeral. It is the guild-only message exactly outside a guild. It is the current-prefix message, formatted with the stored prefix, exactly when the guild has a row. The no-custom message is formatted with the default prefix. |
| `Settings.SetPrefixAsWritten` | cogs/settings.py:33 | As written, `set_prefix` never writes the table. A permitted call in a guild is logged and answered with `error_unexpected`. Refusals send their usual replies. |
| `Settings.GetPrefixAsWritten` | cogs/settings.py:62 | As written, `get_prefix` in a guild is logged and answered with `error_unexpected`, whatever the table holds. Outside a guild it sends the guild-only message. |
| `Settings.SessionErrorLosesWrite` | database.py:20-21 | As written, a permitted `set_prefix` in a guild sends a reply the intended store does not send. A new guild's row is not added, and a following `get_prefix` does not report the prefix. |
| `Settings.GuildSettings.constructor` | models.py:6-11 | A new store has no rows. |
| `Settings.GuildSettings.SetPrefix` | cogs/settings.py:24-46 | Without the permission, the store is unchanged and the missing-permissions reply is sent. Without a guild, the store is unchanged and the guild-only reply is sent. Otherwise the guild's row is updated or inserted with the prefix, and the success reply carries the new prefix. |
| `Settings.GuildSettings.GetPrefix` | cogs/settings.py:54-70 | Without a guild it sends the guild-only reply. Otherwise it sends the current prefix, or the no-custom message with the bot's default when the guild has no row. |
| `Settings.SetThenGet` | cogs/settings.py:33-68 | On one store, `set_prefix(g, P)` followed by `get_prefix(g)` sends the success reply and then the current-prefix reply, both carrying P. |
| `Settings.ReadAfterWrite` | cogs/settings.py:33-68 | After a permitted `set_prefix(g, P)`, `get_prefix(g)` replies with the current-prefix message formatted with P. |
| `Settings.OtherGuildsUnchanged` | cogs/settings.py:34-43 | `set_prefix` on guild g leaves what every other guild reads unchanged. Distinct guild ids have distinct decimal keys. |
| `Settings.UpsertRowCount` | cogs/settings.py:36-43 | The upsert adds exactly the guild's key. The row count grows by one for a new guild and stays the same for an existing one. |
| `Settings.LastWriteWins` | cogs/settings.py:38-39 | Writing P1 and then P2 for one guild leaves the same table as writing P2 once. |
| `Settings.RejectionsWriteNothing` | cogs/settings.py:24-31 | With no guild, or with no permission, `set_prefix` writes nothing. The refusal is the guild-only or missing-permissions message. `get_prefix` without a guild sends its guild-only message. |
| `Settings.UnwrittenGuildReadsDefault` | cogs/settings.py:69-70 | A guild with no row reads the no-custom message formatted with the default prefix. |
| `Ping.DivMod` | cogs/ping.py:31-32 | quotient * divisor + remainder equals the dividend, and 0 <= remainder < divisor. |
| `Ping.SplitUptime` | cogs/ping.py:31-32 | hours*3600 + minutes*60 + seconds equals the total. Minutes and seconds are in [0, 60). hours*3600 <= total < (hours+1)*3600. |
| `Ping.HoursAreFloor` | cogs/ping.py:31 | The hours are the largest h with h*3600 <= total, with no upper bound. This holds for negative totals too. |
| `Ping.SplitUptimeUnique` | cogs/ping.py:31-32 | The split is the only one with minutes and seconds below 60 that adds up to the total. |
| `Ping.UptimeText` | cogs/ping.py:33 | The text opens with the hours numeral and its unit and closes with `秒`. It contains a minus sign exactly when the uptime is negative. |
| `Ping.UptimeTextInjective` | cogs/ping.py:33 | Two totals with the same `"{hours}時間 {minutes}分 {seconds}秒"` text are equal. |
| `Text.IntToString` | cogs/ping.py:33 | `str(i)` is non-empty. It starts with `-` exactly when i is negative, and every other character is a digit. |
| `Text.ParseIntOfIntToString` | cogs/ping.py:33 | The numeral `str(i)` prints reads back as i. |
| `Text.IntToStringInjective` | cogs/ping.py:33 | Distinct integers print differently. |
| `Text.NumeralPrefixUnique` | cogs/ping.py:33 | Two numerals, each followed by text that starts with a non-numeric character, are equal only if the numerals are equal and the rests are equal. |
| `Text.DecimalInjective` | cogs/settings.py:34 | `str(guild.id)` is injective on guild ids. |
| `Text.ParseDecimalOfDecimal` | cogs/settings.py:34 | The decimal text of a non-negative integer reads back as that integer. |
| `Text.Upper` | main.py:38 | `key.upper()` keeps the length and upper-cases every ASCII letter. |
| `Text.Lower` | main.py:78 | `.lower()` keeps the length and lower-cases every ASCII letter. |
| `Text.ReplaceChar` | main.py:78 | `.replace(a, b)` keeps the length, leaves no `a` behind, and changes only the occurrences of `a`. |

## Left out

- Config.OverrideConfigWithEnv: it returns the rewritten mapping instead of mutating the caller's dictionaries in place, so aliasing of nested dictionaries is not modelled. Keys are visited in an arbitrary order rather than insertion order. The result does not depend on the order, because each entry's new value depends only on its old value and the environment.
- Config.OverrideConfigWithEnv: it returns the logged warnings as a set of variable names, which drops their order and repetitions. The info line logged for every overridden leaf (main.py:54) is not modelled.
- Python's `int()` grammar (whitespace, `+`, underscores, non-ASCII digits) is not modelled. The parser is a parameter. `Text.ParseInt` accepts only an optional minus sign and ASCII digits. It is used as the `int()` parser only in the concrete example `Config.FalseLeafOverrides`. Elsewhere it is the reader of `str(i)` in `Text.ParseIntOfIntToString` and `Text.IntToStringInjective`.
- Config.OverrideConfigWithEnv: keys are strings. YAML can load non-string keys, such as `yes:` as `True` or `8080:` as an integer. On those, `key.upper()` (main.py:38) raises AttributeError at start-up, and that failure is not modelled.
- `str.upper` and `str.lower` are modelled on ASCII letters only. Other characters are left unchanged.
- Localization.ResolveMessages: the model assumes that the platform library has a member `discord.Locale.english_us`, and that its text is `en-US`. If the member does not exist, the fallback branch at main.py:124 and its copies in the cogs raise AttributeError instead. That case is not modelled.
- What `discord.Locale` accepts is the parameter `accepted`. Whether a `Locale` compares equal to a string key of the translation table is the parameter `localeFound`.
- DatabaseUrl.DatabaseUrlOf: the `database` section is taken with its values already rendered as f-string text. The lookup `config['database']` and Python's `str()` of YAML values are not modelled.
- Replies are a message key with its format arguments and the ephemeral flag. Looking the key up in the resolved table and `str.format` rendering are not modelled. `retry_after` is taken as its rendered text.
- File and environment I/O (`.env`, `config.yaml`), the translation directory loading (main.py:60-71), and the rotating log handler (main.py:19-28) are not modelled. These are I/O.
- The gateway client, extension loading, command-tree sync, the `setup_hook`/`on_ready` callbacks, the token check and `bot.run` (main.py:85-119, 141-146) are not modelled. These are platform library behaviour. The error hook is modelled as installed.
- Settings.GuildSettings.SetPrefix: the model takes `get_session()` to yield a working session, which is the evidently intended store. As written the call fails (see Findings, `Settings.SetPrefixAsWritten` and `Settings.GetPrefixAsWritten`). The same holds for `Settings.GuildSettings.GetPrefix`.
- Settings.GuildSettings.SetPrefix: the commit is taken to be atomic. The source sends the reply before `session.commit()` (cogs/settings.py:45). Storage-driver errors and concurrent sessions are not modelled. The info line logged after the commit (cogs/settings.py:46) is not modelled.
- Settings.GuildSettings.SetPrefix: the manage-guild check (cogs/settings.py:24) is the input `canManage`. How the platform computes it is not modelled.
- The `guilds` table's surrogate `id` column and the column default `"!"` (models.py:9-11) are not modelled. Every write supplies a prefix, so the default never applies.
- Ping.SplitUptime: the uptime starts from a whole number of seconds. The clock reading and the float-to-int truncation of `total_seconds()` are omitted. The latency, memory, CPU and platform probes, the `.2f` formatting and the embed (cogs/ping.py:28-63) are not modelled.
- cogs/ai_commands.py, cogs/interactive_ui.py and cogs/tasks.py are not part of this model. They are external AI calls, UI components with library-managed timeouts and a timed background loop. Of database.py only the `async def` of `get_session` is modelled, through its effect on the two commands. The engine and `init_db` are ORM set-up.

## Findings

| source | as written | input that shows it | evidently intended | confidence | as-written member | corrected member |
|---|---|---|---|---|---|---|
| main.py:45-51 | The `isinstance(value, int)` test comes before `isinstance(value, bool)`. A boolean leaf is therefore parsed with `int()`, and the truthy-token branch is unreachable. | A boolean leaf `False` with its variable set to `"YES"` stays `False`. With `"1"` it becomes the integer `1`. | A boolean leaf becomes `env.lower() in ('true', '1', 't', 'y', 'yes')`, so `"YES"` gives `True`. | high; not executed | `Config.FalseLeafOverrides` | `Config.CoerceLeafIntended` |
| database.py:20-21 | `get_session` is declared `async def`, so `self.bot.db.get_session()` in cogs/settings.py:33 and 62 is a coroutine. `async with` on a coroutine raises TypeError before any query runs. The error hook receives it as an unclassified error, logs it and sends `error_unexpected`. | A member with the manage-guild permission runs `/setprefix "?"` in a guild. No row is written, and `/getprefix` also fails. | `get_session` returns the session maker's session synchronously, and the commands upsert and read the `guilds` row. | high; not executed | `Settings.SessionErrorLosesWrite` | `Settings.GuildSettings.SetPrefix` |

The override walk keeps the as-written coercion (`Config.CoerceLeaf`), because that is the program's behaviour.
`Config.CoerceLeafIntended` is the corrected coercion. `Config.IntendedBoolCoercion` and
`Config.IntendedAgreesOnOtherLeaves` prove its properties.

The prefix store (`Settings.GuildSettings`) models the evidently intended working session.
`Settings.ReadAfterWrite`, `Settings.OtherGuildsUnchanged`, `Settings.UpsertRowCount` and `Settings.LastWriteWins`
prove its properties. `Settings.SetPrefixAsWritten` and `Settings.GetPrefixAsWritten` give the behaviour as written.
