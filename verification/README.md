# Hifumi moderation core, modelled in Dafny

This project models six small pieces of the Hifumi chat bot's moderation and
bookkeeping logic as pure Dafny functions over immutable values, and proves
what each promises:

- **Abuse escalation** (`Cleverbot`). The chat-response module keeps a record
  per user: a warning count and an ignore window. The token bucket's decision
  drives it. An open window drops the request. A lapsed window is cleared
  lazily. Every third denial opens a window of 30 minutes per warning. The
  module also has two string helpers: the first-occurrence keyword
  replacement and the "user is repeating" test.
- **Member resolution** (`MemberResolver`). A first-match-wins procedure: an
  argument of 18 UTF-16 code units that `Number()` reads as an integer (which
  includes "-10000000000000000" and "100000000000000e+3"), then a member mention, then an abort on a channel mention, then
  a lazy name match. The name match may raise a yes/no or numbered
  confirmation prompt, each with a 30 second timeout.
- **Macro validation** (`Macros`). An ordered chain of rejections: content
  length, reserved command name, mentions, the 50-macro cap, duplicate name.
  It ends in one insert, which keeps the guild's names unique and its count at
  most 50.
- **Mute arguments** (`Mute`). Arity check, target choice, duration check,
  reason assembly and unit conversion, then exactly one entry on the mute
  queue.
- **ORM database caches** (`OrmDatabase`, `src/database/Database.ts`). The
  per-guild welcome-message list, the prefix guard, the users filter, the
  member-to-key mapping and the duplicate-key fallback.
- **Postgres guild cache** (`PgDatabase`, `src/Database/Database.ts`). The
  guild cache map: initialization, new-guild caching, the prefix update, the
  prefix lookup and the login-type test.

Shared modules: `Wrappers` (the optional value), `Platform` (members, guilds,
time units), `Seqs` (order-preserving filter, first match) and `Text` (ASCII
case folding, substring test, `join`/`split` with their round trips).

Modelling conventions:

- Times are integer milliseconds, and the clock reading is a parameter `now`.
  Adding `m` minutes adds `m * 60000`.
- A `string` holds the Unicode scalar values of a JavaScript string, one
  `char` each. JavaScript's `s.length` counts UTF-16 code units, so it is
  `Text.Utf16Length(s)`, which counts a character outside the Basic
  Multilingual Plane twice. Every `length` guard of the core uses it.
- Unseen collaborators are parameters. These are the token bucket's decision,
  `Number()`, the name matchers and the prompt answers. Only three database
  replies are parameters: the member save, the prefix upsert, and whether
  each guild's queries in `sync` succeed. Every other query is taken to
  succeed, and "## Left out" lists where that matters.
- A JavaScript `TypeError` on `undefined` is an explicit `None` or error
  variant. It is never excluded by a precondition.
- The keyword regex `/hifumi/i` has no `u` flag. Under that rule, a non-ASCII
  character whose upper case is ASCII does not match an ASCII letter. So
  ASCII-only case folding is exact for this keyword.
- An ignore window is open while `!(ignoreUntil < now)`. The lapse test is
  a strict `ignoreUntil < now`, so at `now == ignoreUntil` the user is still
  ignored.

## Model

| member | source | states |
|---|---|---|
| Cleverbot.IsRateLimited | src/API/Cleverbot.ts:152-196 | An open window drops the request without asking the bucket and changes no record. A lapsed window is cleared, the request passes unasked and warnings are kept. Neither ignore path sends a notice. Otherwise the result is the bucket's decision, and an allowed request changes nothing. A denial adds exactly one warning (an unknown user starts at 1). It ignores the user iff the count is a multiple of 3, until now + 30·count minutes. Other users are untouched. The record invariant is kept. |
| Cleverbot.WarningsNeverDecrease | src/API/Cleverbot.ts:166-178 | Over any sequence of calls, no user record is dropped and no warning count decreases. |
| Cleverbot.ReplayKeepsWellFormed | src/API/Cleverbot.ts:152-196 | Over any sequence of calls, every record has at least one warning and has a window end exactly while ignoring. Only a multiple of three warnings is ever ignoring. |
| Cleverbot.ThreeDenialsIgnoreFor90Minutes | src/API/Cleverbot.ts:166-192 | Three denials for a fresh user give warnings 1 and 2 with no ignore, then a 90 minute window from the third call. |
| Cleverbot.FindKeywordFrom | src/API/Cleverbot.ts:20 | Finds the leftmost case-insensitive "hifumi" at or after a position, or reports that there is none. |
| Cleverbot.ReplaceKeyword | src/API/Cleverbot.ts:47-49 | Text without the keyword is returned unchanged. Otherwise the leftmost occurrence, and only it, becomes "cleverbot". |
| Cleverbot.ReplaceKeywordFixesExactlyKeywordFree | src/API/Cleverbot.ts:47-49 | The replacement leaves text unchanged iff the text holds no keyword. |
| Cleverbot.ReplaceKeywordOnlyFirst | src/API/Cleverbot.ts:47-49 | The result has no keyword up to the end of the inserted "cleverbot". After that, its keyword positions are exactly the original's, shifted by 3. |
| Cleverbot.IsUserRepeating | src/API/Cleverbot.ts:105-129 | False without a configured client, without a session or with fewer than 2 inputs. Otherwise true iff the user's first session ends with two inputs equal to the keyword-replaced message. |
| Platform.LookupMember | src/resolvers/memberResolver.ts:22 | The id lookup returns a guild member with that id, or nothing only when no member has it. |
| MemberResolver.Defaulted | src/resolvers/memberResolver.ts:11-15 | A missing `fail` or `strict` option is true; a given one is kept. |
| MemberResolver.Candidates | src/resolvers/memberResolver.ts:36-41 | The candidates are guild members the lazy matcher accepts, every accepted member is among them, and there are no more candidates than guild members. |
| MemberResolver.CandidatesKeepGuildOrder | src/resolvers/memberResolver.ts:36-41 | Candidates keep guild order: those of a concatenation are those of each part, in turn. |
| MemberResolver.ResolveMember | src/resolvers/memberResolver.ts:9-73 | An argument that is an integer of 18 UTF-16 code units is id-shaped, and gives exactly the id lookup, with no prompt. Else the first mentioned member is returned. Else a channel mention gives nothing. A failure is reported iff name matching finds nothing and `fail` holds. A yes/no prompt (30000 ms) is raised iff, by name under `strict`, the single candidate is not an exact match, and its answer decides. A numbered prompt (30000 ms) lists all candidates and only happens under `strict`. Without `strict` there is never a prompt. |
| MemberResolver.NameMatchOutcomes | src/resolvers/memberResolver.ts:44-72 | One exact candidate is returned directly. One inexact candidate under `strict` raises the yes/no prompt, whose answer decides. Several candidates under `strict` raise exactly one numbered prompt over all of them. Without `strict`, the first matching guild member is taken unprompted. With no candidates and `fail` off, `strict` raises a numbered prompt over the empty list, and otherwise nothing is resolved. |
| MemberResolver.AnswersOnlyMatterWhenPrompted | src/resolvers/memberResolver.ts:49-72 | When no prompt is raised, the prompt answers cannot change the result. |
| Macros.PreCheck | src/commands/utility/addMacro.ts:12-27 | The length, command-name and mention rules are tried in that order, and the first failing one is reported. Length is counted in UTF-16 code units, and exactly 200 passes. |
| Macros.AddMacro | src/commands/utility/addMacro.ts:10-45 | The pre-checks decide first, then the cap of 50, then the duplicate name. A macro is inserted iff all rules pass. The insert adds exactly the requested macro to that guild alone, and keeps the guild's list valid. |
| Macros.AddMacroKeepsStoreValid | src/commands/utility/addMacro.ts:29-45 | If every guild's list has unique names, at most 50 entries and short contents, it still does after a successful add. |
| Macros.LengthBoundIsInclusive | src/commands/utility/addMacro.ts:12-16 | 200 UTF-16 code units pass the length rule and 201 fail it. |
| Macros.AstralCharacterCountsTwice | src/commands/utility/addMacro.ts:12-16 | 199 ASCII letters and one emoji are 200 characters but 201 code units, and are refused as too long. |
| Mute.MuteTarget | src/commands/moderation/mute.ts:17-31 | A mentioned member takes precedence. Otherwise the member whose id is the first argument is chosen, if any. |
| Mute.UnmuteDate | src/commands/moderation/mute.ts:42 | The unmute time is `now` plus the minutes in milliseconds, or an Invalid Date exactly when that lies beyond ±8.64e15 ms, the range of a `Date`. |
| Mute.MuteUser | src/commands/moderation/mute.ts:13-52 | Fewer than 3 arguments, no target, or a zero or non-numeric duration leave the queue as it was. Otherwise exactly one entry is appended: (target, issuer, now + minutes or an Invalid Date, remaining words joined by spaces, minutes·60 seconds). |
| Mute.QueuedEntryFaithful | src/commands/moderation/mute.ts:40-50 | The queued reason splits back into the arguments from the third on. A valid unmute time and the queued seconds describe the same span, and the time is invalid exactly when that span leaves the `Date` range. |
| Mute.HugeDurationQueuesInvalidDate | src/commands/moderation/mute.ts:33-50 | A duration of 10^12 minutes passes the number check, and then an Invalid Date is queued together with 6·10^13 seconds. |
| Text.Utf16Length | src/commands/utility/addMacro.ts:12 | The code-unit count lies between the number of characters and twice it, and equals the number of characters iff no character lies outside the Basic Multilingual Plane. |
| Text.Utf16LengthAppend | src/commands/utility/addMacro.ts:12 | Code units add up over concatenation. |
| Text.SplitJoin | src/commands/moderation/mute.ts:40 | Splitting a space-joined list of space-free words gives the words back. |
| Text.JoinSplit | src/commands/moderation/mute.ts:40 | Joining the pieces of a split gives the string back. |
| Mute.ReasonIsMessageTail | src/commands/moderation/mute.ts:17-40 | When the arguments are the message text split on spaces, the queued reason is exactly the text after the target and duration words. |
| OrmDatabase.CacheWelcomeMessage | src/database/Database.ts:290-292 | The entry goes to the end of the guild's list, and every other list is unchanged. A guild with no list is an error. |
| OrmDatabase.UnCacheWelcomeMessage | src/database/Database.ts:294-302 | A missing or empty list gives nothing. Otherwise the result is the message of the member's first entry, or nothing when there is none. |
| OrmDatabase.CachedWelcomeMessageIsFound | src/database/Database.ts:290-302 | A message cached for a member with no earlier entry is found by the lookup. |
| OrmDatabase.AddGuild | src/database/Database.ts:232-242 | The guild's welcome list becomes empty and the other guilds' lists are unchanged. |
| OrmDatabase.AddMembers | src/database/Database.ts:216-220 | One key per member, in order, each with the member's id and guild id. |
| OrmDatabase.AddMembersAppend | src/database/Database.ts:216-220 | Mapping members to keys commutes with concatenation. |
| OrmDatabase.SyncedCount | src/database/Database.ts:110-129 | The awaited loop gets through exactly the guilds before the first one whose queries fail. |
| OrmDatabase.Sync | src/database/Database.ts:110-129 | It completes, which lets the constructor set `ready`, iff every guild's queries succeed. Every guild up to the one it stopped at ends with an empty welcome list. No other guild's list changes, and no other guild is added. |
| OrmDatabase.SyncCollectsEveryMember | src/database/Database.ts:110-129 | The keys written are those of every member of every guild the loop got through, in guild order. When all queries succeed, that is every guild. |
| OrmDatabase.SyncFailureLeavesLaterGuildsUnlisted | src/database/Database.ts:110-129 | After a failed sync, a guild beyond the failing one that had no welcome list still has none, so caching a welcome message there fails. |
| OrmDatabase.SetPrefix | src/database/Database.ts:183-193 | A prefix longer than 1 UTF-16 code unit is refused with no write. Otherwise only that guild's stored prefix changes. |
| OrmDatabase.GetIgnoredUsers | src/database/Database.ts:413-417 | The result holds exactly the guild's users with `ignoring` set, and no more entries than the table. |
| OrmDatabase.GetIgnoredUsersKeepsOrder | src/database/Database.ts:413-417 | Ignored users keep table order: those of a concatenated table are those of each part, in turn. |
| OrmDatabase.AddMemberAsWritten | src/database/Database.ts:203-214 | A saved row is returned. A duplicate-key error resolves with `{id: member id, guild_id: member id}`. Any other error rejects. |
| OrmDatabase.AddMemberAsWrittenMisnamesGuild | src/database/Database.ts:206-211 | For member "111" of guild "222", the duplicate-key answer names guild "111". |
| OrmDatabase.AddMember | src/database/Database.ts:203-214 | Corrected: a duplicate-key error resolves with the key that was being saved, which has the member's own guild. |
| PgDatabase.GetDatabaseType | src/Database/Database.ts:42-48 | "heroku" iff the login has an `ssl` field, whatever its value, and "localhost" otherwise. |
| PgDatabase.InitializeGuildIfNone | src/Database/Database.ts:90-98 | True iff an entry existed. Afterwards an entry exists. An existing one is untouched, and a new one is the empty record. |
| PgDatabase.InitializeGuildIfNoneIdempotent | src/Database/Database.ts:90-98 | A second initialization changes nothing and reports that the entry exists. |
| PgDatabase.CacheNewGuild | src/Database/Database.ts:117-121 | For a cached guild, the prefix is set and both link lists emptied, and other guilds are unchanged. A guild without an entry is an error. |
| PgDatabase.GetPrefix | src/Database/Database.ts:149-151 | Gives the whole cached record, or nothing for an uncached guild. |
| PgDatabase.SetPrefix | src/Database/Database.ts:133-147 | A prefix longer than 1 UTF-16 code unit is rejected with -1 before any query. A successful upsert changes only the cached prefix of the returned row's guild. A failed query resolves with that query's own error, and a row for an uncached guild resolves with a type error. Either way the cache is left alone. |
| PgDatabase.OneEmojiPrefixRejected | src/Database/Database.ts:133-136 | A one-emoji prefix is two code units, so it is rejected with -1 and the cache is unchanged. |
| PgDatabase.SetPrefixThenGetPrefix | src/Database/Database.ts:139-151 | After a successful prefix change, the lookup reports the new prefix and the old link lists. |
| PgDatabase.AddGuildAsWritten | src/Database/Database.ts:153-157 | As written, the inserted guild is cached only if it already had a cache entry. |
| PgDatabase.AddGuildAsWrittenLosesNewGuild | src/Database/Database.ts:153-157 | A guild with no cache entry, such as one just joined, is never cached by it. |
| PgDatabase.AddGuild | src/Database/Database.ts:153-157 | Corrected: the guild is always cached afterwards with its prefix and empty link lists, and other guilds are unchanged. |

## Findings

| source | as written | input that shows it | evidently intended | confidence | as-written member | corrected member |
|---|---|---|---|---|---|---|
| src/Database/Database.ts:153-157 | `addGuild` passes the inserted row to `cacheNewGuild`, which assigns fields of `this.guilds[guild.id]` without creating it | any guild id not yet in the cache, i.e. a guild the bot has just joined: the assignment throws and the guild is never cached | create the entry first (`initializeGuildIfNone`), then cache the prefix and empty lists | medium, not executed | PgDatabase.AddGuildAsWritten (shown by PgDatabase.AddGuildAsWrittenLosesNewGuild) | PgDatabase.AddGuild |
| src/database/Database.ts:206-211 | the duplicate-key fallback resolves `{id: target.id, guild_id: target.id}` | a member with id "111" in guild "222" whose row already exists: the answer names guild "111" | `guild_id: target.guild.id`, the key that was being saved | high, not executed | OrmDatabase.AddMemberAsWritten (shown by OrmDatabase.AddMemberAsWrittenMisnamesGuild) | OrmDatabase.AddMember |

## Left out

- Chat I/O is not modelled: sending messages and embeds, reactions, logging. Only the notice kind and the failure flags are kept.
- `checkMessage` is left out. It returns unconditionally after its first guard (src/API/Cleverbot.ts:61), so the rest of its body is dead code.
- `say` is left out. It is an external API call that retries without bound on an empty reply.
- The `setTimeout` echo of a repeated message is left out, because it is part of the same I/O path.
- `getMood` and the client constructor are left out: they are configuration only.
- The token bucket is not modelled. Its decision for one request is the `bucketDenies` parameter.
- The mute queue that later lifts mutes is not part of this model. This includes its persistence and restart recovery. The model ends at the single enqueue.
- The confirmation prompts are not modelled. Their answers are parameters. The numbered prompt's answer is passed through unchecked, because how it treats out-of-range or late replies is not visible.
- The `UserUtils` name matchers are predicate parameters.
- `formattedTimeString` is not modelled. The notice keeps the number of seconds.
- `Number()` parsing is the `isInteger` predicate in the resolver and the `parseNumber` function in the mute command, where `None` means NaN.
- Mute.MuteUser: durations are whole minutes. The code also accepts fractional ones and `Infinity` (`Number("Infinity")` passes the check at mute.ts:35 and queues an Invalid Date with infinite seconds). Neither is modelled, because the arithmetic on them is floating point. Negative durations are accepted, as in the code. Finite integers too large for a double to hold exactly are taken at their exact value.
- Mute.MuteUser: the two `args.shift()` calls remove the target and duration words from the caller's array, so afterwards it holds only the reason words. That in-place change is not modelled, because `args` is taken as a value.
- Macros.AddMacro: the count, the duplicate lookup and the save are queries. If one of them is rejected, the catch logs it and nothing is inserted. The model takes all three to succeed.
- OrmDatabase.GetIgnoredUsers: the users query is taken to succeed. When it is rejected, the code rejects too, with no list.
- Cleverbot.IsRateLimited: the ignore window end is computed exactly. A `Date` past ±8.64e15 ms would be invalid, but that needs billions of warnings, so it is not modelled.
- MemberResolver.ResolveMember: the defaults are also written back into the caller's options object, and that side effect is not modelled. The unused `global` option is carried but has no effect.
- MemberResolver.ResolveMember: with no candidates and both options false, the code passes `undefined` to the exact matcher. Whatever that matcher returns, the result is undefined, and that is what is modelled. A possible throw from the matcher is not.
- A JavaScript string may hold a lone surrogate code unit, and a Dafny `char` cannot. Such strings are not modelled. Every other string has the same `length` here as in JavaScript.
- User records sit in a plain JavaScript object. Ids are numeric strings, so clashes with inherited property names such as `constructor` are not modelled.
- SQL, ORM and Redis plumbing is not modelled: connection setup, the `ormconfig.json` write, cache invalidation and the query bodies. Tables are plain maps or sequences. Storage failures in `OrmDatabase.SetPrefix` are not modelled.
- PgDatabase.AddGuildAsWritten and PgDatabase.AddGuild start from the inserted row. A failed insert caches nothing and is an unhandled rejection, and that path is not modelled.
- OrmDatabase.Sync: a guild whose queries fail has its welcome list reset and none of its members written. A partly applied member insert is not modelled, because the insert is one statement.
- The remaining getters and setters of both database classes are not modelled. These are channels, notes, infractions, hints, reactions, counters and invite strikes. They are single queries with no logic of their own, and the four link-list methods of the Postgres class are empty.
- `cacheGuilds` in src/Database/Database.ts is left out, because it is an asynchronous per-row query loop. So is `updateDefaultChannel`.
- The race between the count and duplicate checks and the save in `addMacro` is not modelled. Neither is the overlap of the asynchronous `forEach` in `cacheGuilds`. Each operation is modelled as one atomic step.
- src/actions/UpdatePresence.ts is left out: it is a thin wrapper that sums member counts and sets the presence text.
- src/interfaces/injectables/commandHandler.interface.ts has declarations only, so there is nothing to model.
