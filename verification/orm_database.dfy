/**
 * The in-memory parts of the ORM-backed database class: the per-guild list
 * of welcome messages, the prefix guard, and the pure mapping and filtering
 * done around queries. Tables are plain values; where a query's outcome
 * changes what the code does, that outcome is a parameter.
 */
module OrmDatabase {
  import opened Wrappers
  import opened Platform
  import Seqs
  import Text

  /** A welcome message posted for a member who joined, kept so it can be found again. */
  datatype WelcomeEntry = WelcomeEntry(userId: Snowflake, messageId: Snowflake)

  /** `welcomeMessages`: guild id to that guild's welcome messages, oldest first. */
  type WelcomeCache = map<Snowflake, seq<WelcomeEntry>>

  /** A row of the users table. */
  datatype User = User(id: Snowflake, guildId: Snowflake, ignoring: bool)

  /** The key columns written for a member. */
  datatype UserKey = UserKey(id: Snowflake, guildId: Snowflake)

  /** The longest prefix accepted. */
  const MaxPrefixLength: int := 1

  /** The error text whose presence marks a unique-key violation. */
  const DuplicateKeyText: string := "duplicate key"

  /**
   * `cacheWelcomeMessage`: the entry goes to the end of the guild's list.
   * `None` when the guild has no list: `push` on undefined throws.
   */
  function CacheWelcomeMessage(cache: WelcomeCache, member: Member, messageId: Snowflake): (r: Option<WelcomeCache>)
    ensures r.None? <==> member.guildId !in cache
    ensures r.Some? ==> r.value.Keys == cache.Keys
    ensures r.Some? ==> r.value[member.guildId] == cache[member.guildId] + [WelcomeEntry(member.id, messageId)]
    ensures r.Some? ==> forall g :: g in cache && g != member.guildId ==> r.value[g] == cache[g]
  {
    if member.guildId in cache then
      Some(cache[member.guildId := cache[member.guildId] + [WelcomeEntry(member.id, messageId)]])
    else None
  }

  /**
   * `unCacheWelcomeMessage`: the message of the first entry for this member,
   * or nothing when the guild's list is missing or empty (an error is logged)
   * or has no entry for the member. It only reads: nothing is removed.
   */
  function UnCacheWelcomeMessage(cache: WelcomeCache, member: Member): (r: Option<Snowflake>)
    ensures member.guildId !in cache || |cache[member.guildId]| == 0 ==> r.None?
    ensures r.Some? <==> member.guildId in cache && exists i | 0 <= i < |cache[member.guildId]| :: cache[member.guildId][i].userId == member.id
    ensures r.Some? ==> exists i | 0 <= i < |cache[member.guildId]| ::
              && cache[member.guildId][i] == WelcomeEntry(member.id, r.value)
              && forall j :: 0 <= j < i ==> cache[member.guildId][j].userId != member.id
  {
    if member.guildId !in cache || |cache[member.guildId]| == 0 then None
    else
      var target := cache[member.guildId];
      match Seqs.FirstIndex((e: WelcomeEntry) => e.userId == member.id, target)
      case None => None
      case Some(i) => Some(target[i].messageId)
  }

  /** A cached message is found again, even when the list held other members' messages before it. */
  lemma CachedWelcomeMessageIsFound(cache: WelcomeCache, member: Member, messageId: Snowflake)
    requires member.guildId in cache
    requires forall i :: 0 <= i < |cache[member.guildId]| ==> cache[member.guildId][i].userId != member.id
    ensures var c := CacheWelcomeMessage(cache, member, messageId);
            c.Some? && UnCacheWelcomeMessage(c.value, member) == Some(messageId)
  {
    var c := CacheWelcomeMessage(cache, member, messageId).value;
    var list := c[member.guildId];
    assert list[|list| - 1] == WelcomeEntry(member.id, messageId);
  }

  /** `addGuild`, in-memory part: the guild's welcome list starts out empty. */
  function AddGuild(cache: WelcomeCache, guildId: Snowflake): (r: WelcomeCache)
    ensures guildId in r && r[guildId] == []
    ensures r.Keys == cache.Keys + {guildId}
    ensures forall g :: g in cache && g != guildId ==> r[g] == cache[g]
  {
    cache[guildId := []]
  }

  /** `addMembers`: one key per member, in order, each carrying the member's own guild. */
  function AddMembers(targets: seq<Member>): (r: seq<UserKey>)
    ensures |r| == |targets|
    ensures forall i :: 0 <= i < |targets| ==> r[i].id == targets[i].id && r[i].guildId == targets[i].guildId
  {
    seq(|targets|, i requires 0 <= i < |targets| => UserKey(targets[i].id, targets[i].guildId))
  }

  /**
   * How many guilds `sync` gets through: it awaits each guild's queries in
   * turn, so the first guild whose queries fail ends the loop.
   */
  function SyncedCount(guilds: seq<Guild>, queriesSucceed: Guild -> bool): (n: nat)
    ensures n <= |guilds|
    ensures forall i :: 0 <= i < n ==> queriesSucceed(guilds[i])
    ensures n < |guilds| ==> !queriesSucceed(guilds[n])
    decreases |guilds|
  {
    if |guilds| == 0 || !queriesSucceed(guilds[0]) then 0
    else 1 + SyncedCount(guilds[1..], queriesSucceed)
  }

  /** The guilds whose welcome list `sync` resets: those it got through, and the one it stopped at. */
  function ResetCount(guilds: seq<Guild>, queriesSucceed: Guild -> bool): (n: nat)
    ensures n <= |guilds|
  {
    var synced := SyncedCount(guilds, queriesSucceed);
    if synced < |guilds| then synced + 1 else synced
  }

  /** The welcome lists after `sync`, the member keys it wrote, and whether it ran to the end. */
  datatype SyncResult = SyncResult(cache: WelcomeCache, keys: seq<UserKey>, completed: bool)

  /**
   * `sync`, in-memory part: guild by guild, the welcome list is reset and the
   * guild's members' keys are written. `queriesSucceed` says whether a
   * guild's insert and its members' insert both succeed; the first failure
   * rejects the awaited promise and ends the loop, so the database is never
   * marked ready.
   */
  function Sync(cache: WelcomeCache, guilds: seq<Guild>, queriesSucceed: Guild -> bool): (r: SyncResult)
    ensures r.completed <==> forall i :: 0 <= i < |guilds| ==> queriesSucceed(guilds[i])
    ensures forall i :: 0 <= i < ResetCount(guilds, queriesSucceed) ==> guilds[i].id in r.cache && r.cache[guilds[i].id] == []
    ensures forall g :: g in r.cache <==> g in cache || exists i | 0 <= i < ResetCount(guilds, queriesSucceed) :: guilds[i].id == g
    ensures forall g :: g in cache && (forall i :: 0 <= i < ResetCount(guilds, queriesSucceed) ==> guilds[i].id != g) ==>
              r.cache[g] == cache[g]
    decreases |guilds|
  {
    if |guilds| == 0 then SyncResult(cache, [], true)
    else
      var g := guilds[0];
      var reset := AddGuild(cache[g.id := []], g.id);
      if !queriesSucceed(g) then SyncResult(reset, [], false)
      else
        var rest := Sync(reset, guilds[1..], queriesSucceed);
        SyncResult(rest.cache, AddMembers(g.members) + rest.keys, rest.completed)
  }

  /** Every member of every guild, guild after guild. */
  function AllMembers(guilds: seq<Guild>): seq<Member>
    decreases |guilds|
  {
    if |guilds| == 0 then [] else guilds[0].members + AllMembers(guilds[1..])
  }

  /** Mapping members to keys commutes with concatenation. */
  lemma AddMembersAppend(a: seq<Member>, b: seq<Member>)
    ensures AddMembers(a + b) == AddMembers(a) + AddMembers(b)
  {
  }

  /**
   * The keys `sync` writes are those of every member of every guild it got
   * through, in guild order; when every query succeeds, of every guild.
   */
  lemma {:induction false} SyncCollectsEveryMember(cache: WelcomeCache, guilds: seq<Guild>, queriesSucceed: Guild -> bool)
    ensures Sync(cache, guilds, queriesSucceed).keys == AddMembers(AllMembers(guilds[..SyncedCount(guilds, queriesSucceed)]))
    decreases |guilds|
  {
    var n := SyncedCount(guilds, queriesSucceed);
    if n == 0 {
      assert guilds[..n] == [];
      assert AddMembers([]) == [];
    } else {
      var reset := AddGuild(cache[guilds[0].id := []], guilds[0].id);
      SyncCollectsEveryMember(reset, guilds[1..], queriesSucceed);
      assert guilds[..n][1..] == guilds[1..][..n - 1];
      assert AllMembers(guilds[..n]) == guilds[0].members + AllMembers(guilds[1..][..n - 1]);
      AddMembersAppend(guilds[0].members, AllMembers(guilds[1..][..n - 1]));
    }
  }

  /**
   * After a failed `sync`, a guild beyond the one it stopped at that had no
   * welcome list still has none, so caching a welcome message there fails.
   */
  lemma {:induction false} SyncFailureLeavesLaterGuildsUnlisted(cache: WelcomeCache, guilds: seq<Guild>, queriesSucceed: Guild -> bool, j: int, member: Member, messageId: Snowflake)
    requires ResetCount(guilds, queriesSucceed) <= j < |guilds|
    requires guilds[j].id !in cache
    requires forall i :: 0 <= i < j ==> guilds[i].id != guilds[j].id
    requires member.guildId == guilds[j].id
    ensures !Sync(cache, guilds, queriesSucceed).completed
    ensures CacheWelcomeMessage(Sync(cache, guilds, queriesSucceed).cache, member, messageId).None?
  {
  }

  datatype SetPrefixResult = PrefixTooLong | Saved(prefixes: map<Snowflake, string>)

  /** `setPrefix`: a prefix longer than one character is refused before storage is touched. */
  function SetPrefix(prefixes: map<Snowflake, string>, guildId: Snowflake, prefix: string): (r: SetPrefixResult)
    ensures r.PrefixTooLong? <==> Text.Utf16Length(prefix) > MaxPrefixLength
    ensures r.Saved? ==> guildId in r.prefixes && r.prefixes[guildId] == prefix
    ensures r.Saved? ==> forall g :: g != guildId ==> (g in r.prefixes <==> g in prefixes)
    ensures r.Saved? ==> forall g :: g in prefixes && g != guildId ==> r.prefixes[g] == prefixes[g]
  {
    if Text.Utf16Length(prefix) > MaxPrefixLength then PrefixTooLong
    else Saved(prefixes[guildId := prefix])
  }

  /** `getIgnoredUsers`: the guild's users that are ignored, in table order. */
  function GetIgnoredUsers(users: seq<User>, guildId: Snowflake): (r: seq<User>)
    ensures |r| <= |users|
    ensures forall i :: 0 <= i < |r| ==> r[i] in users && r[i].guildId == guildId && r[i].ignoring
    ensures forall i :: 0 <= i < |users| && users[i].guildId == guildId && users[i].ignoring ==> users[i] in r
  {
    var guildUsers := Seqs.Filter((u: User) => u.guildId == guildId, users);
    Seqs.Filter((u: User) => u.ignoring, guildUsers)
  }

  /** Ignored users keep table order: those of a table split in two are those of each part, in turn. */
  lemma GetIgnoredUsersKeepsOrder(front: seq<User>, back: seq<User>, guildId: Snowflake)
    ensures GetIgnoredUsers(front + back, guildId) == GetIgnoredUsers(front, guildId) + GetIgnoredUsers(back, guildId)
  {
    var inGuild := (u: User) => u.guildId == guildId;
    var ignoring := (u: User) => u.ignoring;
    Seqs.FilterAppend(inGuild, front, back);
    Seqs.FilterAppend(ignoring, Seqs.Filter(inGuild, front), Seqs.Filter(inGuild, back));
  }

  /** What the save of a member came back with. */
  datatype SaveReply = SavedRow(row: UserKey) | SaveFailed(message: string)

  datatype AddMemberResult = Resolved(user: UserKey) | RejectedWith(message: string)

  /**
   * `addMember`, as written: a unique-key violation is swallowed and answered
   * with a user whose guild column holds the member's own id.
   */
  function AddMemberAsWritten(target: Member, reply: SaveReply): (r: AddMemberResult)
    ensures reply.SavedRow? ==> r == Resolved(reply.row)
    ensures reply.SaveFailed? && Text.Contains(reply.message, DuplicateKeyText) ==> r == Resolved(UserKey(target.id, target.id))
    ensures reply.SaveFailed? && !Text.Contains(reply.message, DuplicateKeyText) ==> r == RejectedWith(reply.message)
  {
    match reply
    case SavedRow(row) => Resolved(row)
    case SaveFailed(message) =>
      if Text.Contains(message, DuplicateKeyText) then Resolved(UserKey(target.id, target.id))
      else RejectedWith(message)
  }

  /** The duplicate-key answer names the wrong guild whenever a member's id differs from its guild's. */
  lemma AddMemberAsWrittenMisnamesGuild()
    ensures var target := Member("111", "222", "someone", None);
            var r := AddMemberAsWritten(target, SaveFailed(DuplicateKeyText + " value violates unique constraint"));
            r.Resolved? && r.user.guildId != target.guildId
  {
    var message := DuplicateKeyText + " value violates unique constraint";
    assert message[0..|DuplicateKeyText|] == DuplicateKeyText;
    assert Text.OccursAt(message, DuplicateKeyText, 0);
  }

  /**
   * `addMember`, corrected: a unique-key violation means the row already
   * exists, so the answer is the key that was being saved.
   */
  function AddMember(target: Member, reply: SaveReply): (r: AddMemberResult)
    ensures reply.SaveFailed? && Text.Contains(reply.message, DuplicateKeyText) ==>
              r == Resolved(AddMembers([target])[0])
    ensures reply.SavedRow? ==> r == Resolved(reply.row)
    ensures reply.SaveFailed? && !Text.Contains(reply.message, DuplicateKeyText) ==> r == RejectedWith(reply.message)
  {
    match reply
    case SavedRow(row) => Resolved(row)
    case SaveFailed(message) =>
      if Text.Contains(message, DuplicateKeyText) then Resolved(UserKey(target.id, target.guildId))
      else RejectedWith(message)
  }
}
