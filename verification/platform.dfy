/**
 * The chat-platform entities the moderation core reads. Identity is the
 * platform id (a numeric "snowflake" string); names are read only through
 * matcher predicates supplied by callers.
 */
module Platform {
  import opened Wrappers

  type Snowflake = string

  /** Milliseconds in one minute: the source adds minutes to `Date` values. */
  const MinuteMs: int := 60000

  /** Seconds in one minute: the mute queue takes its duration in seconds. */
  const MinuteSeconds: int := 60

  datatype Member = Member(id: Snowflake, guildId: Snowflake, username: string, nickname: Option<string>)

  datatype Guild = Guild(id: Snowflake, name: string, members: seq<Member>)

  /** `guild.members.get(id)`: the guild's member collection is keyed by id. */
  function LookupMember(members: seq<Member>, id: Snowflake): (r: Option<Member>)
    ensures r.Some? ==> r.value in members && r.value.id == id
    ensures r.None? ==> forall m :: m in members ==> m.id != id
  {
    if |members| == 0 then None
    else if members[0].id == id then Some(members[0])
    else LookupMember(members[1..], id)
  }
}
