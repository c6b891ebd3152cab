/**
 * The guild cache of the older Postgres-backed database class: a map from
 * guild id to the cached prefix and link lists, kept so that the prefix is
 * not queried on every message. The prefix upsert's reply is a parameter;
 * `addGuild` starts from the row its insert returned.
 */
module PgDatabase {
  import opened Wrappers
  import opened Platform
  import Text

  /** A cached guild; a field the code never assigned is `None` (undefined). */
  datatype CachedGuild = CachedGuild(prefix: Option<string>, blacklistedLinks: Option<seq<string>>, whitelistedInvites: Option<seq<string>>)

  /** The `{}` record `initializeGuildIfNone` stores. */
  const EmptyGuild: CachedGuild := CachedGuild(None, None, None)

  type GuildCache = map<Snowflake, CachedGuild>

  /** The longest prefix accepted. */
  const MaxPrefixLength: int := 1

  /** The login object, seen only through the names of the fields it carries. */
  datatype DatabaseConfig = DatabaseConfig(fields: set<string>)

  /** A row of the guilds table as an upsert or insert returns it. */
  datatype GuildRow = GuildRow(id: Snowflake, prefix: string)

  /** `getDatabaseType`: a login carrying an `ssl` field, whatever its value, is the hosted one. */
  function GetDatabaseType(config: DatabaseConfig): (r: string)
    ensures r == "heroku" <==> "ssl" in config.fields
    ensures r != "heroku" ==> r == "localhost"
  {
    if "ssl" in config.fields then "heroku" else "localhost"
  }

  /** `initializeGuildIfNone`: whether the guild was already cached, and the cache with an entry for it. */
  function InitializeGuildIfNone(cache: GuildCache, guildId: Snowflake): (r: (bool, GuildCache))
    ensures r.0 <==> guildId in cache
    ensures guildId in r.1
    ensures r.0 ==> r.1 == cache
    ensures !r.0 ==> r.1 == cache[guildId := EmptyGuild]
  {
    if guildId !in cache then (false, cache[guildId := EmptyGuild]) else (true, cache)
  }

  /** Initializing twice is initializing once, and the second call finds the entry. */
  lemma InitializeGuildIfNoneIdempotent(cache: GuildCache, guildId: Snowflake)
    ensures var once := InitializeGuildIfNone(cache, guildId).1;
            InitializeGuildIfNone(once, guildId) == (true, once)
  {
  }

  /**
   * `cacheNewGuild`: the guild's prefix is set and both link lists emptied.
   * `None` when the guild has no entry: assigning a field of undefined throws.
   */
  function CacheNewGuild(cache: GuildCache, row: GuildRow): (r: Option<GuildCache>)
    ensures r.Some? <==> row.id in cache
    ensures r.Some? ==> r.value.Keys == cache.Keys
    ensures r.Some? ==> r.value[row.id] == CachedGuild(Some(row.prefix), Some([]), Some([]))
    ensures r.Some? ==> forall g :: g in cache && g != row.id ==> r.value[g] == cache[g]
  {
    if row.id in cache then
      Some(cache[row.id := CachedGuild(Some(row.prefix), Some([]), Some([]))])
    else None
  }

  /** `getPrefix`: the whole cached record for the guild, not just its prefix. */
  function GetPrefix(cache: GuildCache, guildId: Snowflake): (r: Option<CachedGuild>)
    ensures r.Some? <==> guildId in cache
    ensures r.Some? ==> r.value == cache[guildId]
  {
    if guildId in cache then Some(cache[guildId]) else None
  }

  /** What the upsert of a prefix came back with. */
  datatype UpsertReply = Upserted(row: GuildRow) | QueryFailed(message: string)

  datatype SetPrefixResult =
    | RejectedMinusOne        // `Promise.reject(-1)`: the prefix is too long
    | ResolvedRow(row: GuildRow)
    | ResolvedError(message: string)   // the query's error, caught and returned
    | ResolvedTypeError               // the cache update threw, caught and returned

  /**
   * `setPrefix`: a prefix longer than one character is refused before any
   * query; otherwise the upserted row's prefix replaces the cached one. A
   * failed query, or a row for a guild with no cache entry (the field
   * assignment throws inside the promise chain), resolves with the error.
   */
  function SetPrefix(cache: GuildCache, prefix: string, reply: UpsertReply): (r: (SetPrefixResult, GuildCache))
    ensures r.0 == RejectedMinusOne <==> Text.Utf16Length(prefix) > MaxPrefixLength
    ensures Text.Utf16Length(prefix) > MaxPrefixLength ==> r.1 == cache
    ensures r.0.ResolvedRow? <==> Text.Utf16Length(prefix) <= MaxPrefixLength && reply.Upserted? && reply.row.id in cache
    ensures r.0.ResolvedRow? ==>
              && r.0.row == reply.row
              && r.1.Keys == cache.Keys
              && r.1[reply.row.id] == cache[reply.row.id].(prefix := Some(reply.row.prefix))
              && (forall g :: g in cache && g != reply.row.id ==> r.1[g] == cache[g])
    ensures !r.0.ResolvedRow? ==> r.1 == cache
    ensures Text.Utf16Length(prefix) <= MaxPrefixLength && reply.QueryFailed? ==> r.0 == ResolvedError(reply.message)
    ensures r.0.ResolvedTypeError? <==> Text.Utf16Length(prefix) <= MaxPrefixLength && reply.Upserted? && reply.row.id !in cache
  {
    if Text.Utf16Length(prefix) > MaxPrefixLength then (RejectedMinusOne, cache)
    else match reply
      case QueryFailed(message) => (ResolvedError(message), cache)
      case Upserted(row) =>
        if row.id in cache then
          (ResolvedRow(row), cache[row.id := cache[row.id].(prefix := Some(row.prefix))])
        else
          (ResolvedTypeError, cache)
  }

  /** After a successful prefix change, `getPrefix` reports the new prefix and the guild's lists as they were. */
  lemma SetPrefixThenGetPrefix(cache: GuildCache, prefix: string, reply: UpsertReply)
    requires SetPrefix(cache, prefix, reply).0.ResolvedRow?
    ensures var g := GetPrefix(SetPrefix(cache, prefix, reply).1, reply.row.id);
            && g.Some? && g.value.prefix == Some(reply.row.prefix)
            && g.value.blacklistedLinks == cache[reply.row.id].blacklistedLinks
            && g.value.whitelistedInvites == cache[reply.row.id].whitelistedInvites
  {
  }

  /** `addGuild`, as written: the inserted guild's row goes straight to `cacheNewGuild`. */
  function AddGuildAsWritten(cache: GuildCache, inserted: GuildRow): (r: Option<GuildCache>)
    ensures r.Some? <==> inserted.id in cache
    ensures r.Some? ==> GetPrefix(r.value, inserted.id) == Some(CachedGuild(Some(inserted.prefix), Some([]), Some([])))
  {
    CacheNewGuild(cache, inserted)
  }

  /** A guild the bot has just joined has no cache entry, so the as-written `addGuild` never caches it. */
  lemma AddGuildAsWrittenLosesNewGuild(cache: GuildCache, inserted: GuildRow)
    requires inserted.id !in cache
    ensures AddGuildAsWritten(cache, inserted).None?
  {
  }

  /** `addGuild`, corrected: make sure the entry exists, then cache the inserted row. */
  function AddGuild(cache: GuildCache, inserted: GuildRow): (r: GuildCache)
    ensures r.Keys == cache.Keys + {inserted.id}
    ensures GetPrefix(r, inserted.id) == Some(CachedGuild(Some(inserted.prefix), Some([]), Some([])))
    ensures forall g :: g in cache && g != inserted.id ==> r[g] == cache[g]
  {
    var initialized := InitializeGuildIfNone(cache, inserted.id).1;
    CacheNewGuild(initialized, inserted).value
  }

  /** A one-emoji prefix is one character but two code units, so it is refused before any query. */
  lemma OneEmojiPrefixRejected(cache: GuildCache, reply: UpsertReply)
    ensures SetPrefix(cache, "\U{1F600}", reply) == (RejectedMinusOne, cache)
  {
  }
}
