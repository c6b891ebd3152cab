/**
 * `resolveMember`: turning a command argument into a guild member, first
 * match wins: an 18-digit id, then a member mention, then (aborting on a
 * channel mention) a lazy name match that may ask the invoker to confirm.
 *
 * Everything the procedure cannot see is a parameter: `Number.isInteger(Number(arg))`,
 * the two name matchers, and the answers the two prompts would come back with.
 */
module MemberResolver {
  import opened Wrappers
  import opened Platform
  import Seqs
  import Text

  /** Length of a platform user id written in decimal. */
  const UserIdLength: int := 18

  /** How long either confirmation prompt waits for the invoker. */
  const PromptTimeoutMs: int := 30000

  /** The caller's options; an absent field takes its default. */
  datatype ResolveOptions = ResolveOptions(fail: Option<bool>, strict: Option<bool>, global: Option<bool>)

  /** The parts of the invoking message the procedure reads. */
  datatype Context = Context(guildMembers: seq<Member>, mentionedMembers: seq<Member>, mentionedChannels: nat)

  /** The unseen collaborators, and what the prompts would answer. */
  datatype Oracles = Oracles(
    isInteger: string -> bool,                  // Number.isInteger(Number(arg))
    lazyMatches: (string, Member) -> bool,      // UserUtils.lazyMatchesNickOrUsername
    exactMatches: (string, Member) -> bool,     // UserUtils.matchesNickOrUsername
    yesNoAnswer: bool,                          // truthiness of resolveBooleanUncertainty's answer
    numberedAnswer: Option<Member>)             // what resolveNumberedUncertainty resolves to

  datatype Prompt =
    | NoPrompt
    | YesNo(candidate: Member, query: string, timeoutMs: int)
    | Numbered(candidates: seq<Member>, query: string, timeoutMs: int)

  /** The member resolved (if any), the prompt raised, and whether a failure was reported. */
  datatype Resolution = Resolution(member: Option<Member>, prompt: Prompt, failureReported: bool)

  /** A missing `fail` or `strict` option means true. */
  function Defaulted(flag: Option<bool>): (r: bool)
    ensures flag.None? ==> r
    ensures flag.Some? ==> r == flag.value
  {
    flag.GetOr(true)
  }

  /** The argument has the shape of a platform user id. */
  predicate IsIdShaped(arg: string, o: Oracles) {
    o.isInteger(arg) && Text.Utf16Length(arg) == UserIdLength
  }

  /** The guild members the lazy matcher accepts, in guild order. */
  function Candidates(arg: string, members: seq<Member>, o: Oracles): (r: seq<Member>)
    ensures |r| <= |members|
    ensures forall i :: 0 <= i < |r| ==> r[i] in members && o.lazyMatches(arg, r[i])
    ensures forall i :: 0 <= i < |members| && o.lazyMatches(arg, members[i]) ==> members[i] in r
  {
    Seqs.Filter((m: Member) => o.lazyMatches(arg, m), members)
  }

  /**
   * Candidates keep guild order: the candidates of a list split in two are
   * those of the first part followed by those of the second.
   */
  lemma CandidatesKeepGuildOrder(arg: string, front: seq<Member>, back: seq<Member>, o: Oracles)
    ensures Candidates(arg, front + back, o) == Candidates(arg, front, o) + Candidates(arg, back, o)
  {
    Seqs.FilterAppend((m: Member) => o.lazyMatches(arg, m), front, back);
  }

  function ResolveMember(arg: string, ctx: Context, options: ResolveOptions, o: Oracles): (r: Resolution)
    // An id-shaped argument is looked up directly, whatever the lookup finds.
    ensures IsIdShaped(arg, o) ==>
              r == Resolution(LookupMember(ctx.guildMembers, arg), NoPrompt, false)
    // Otherwise the first mentioned member wins.
    ensures !IsIdShaped(arg, o) && |ctx.mentionedMembers| > 0 ==>
              r == Resolution(Some(ctx.mentionedMembers[0]), NoPrompt, false)
    // Otherwise a channel mention aborts.
    ensures !IsIdShaped(arg, o) && |ctx.mentionedMembers| == 0 && ctx.mentionedChannels > 0 ==>
              r == Resolution(None, NoPrompt, false)
    // Name matching is all that is left; a failure report happens only when nothing matched and `fail` holds.
    ensures r.failureReported <==>
              && !IsIdShaped(arg, o) && |ctx.mentionedMembers| == 0 && ctx.mentionedChannels == 0
              && |Candidates(arg, ctx.guildMembers, o)| == 0 && Defaulted(options.fail)
    ensures r.failureReported ==> r.member.None? && r.prompt.NoPrompt?
    // Any member resolved without a prompt is one of the guild's or the mentioned ones.
    ensures r.member.Some? && r.prompt.NoPrompt? ==> r.member.value in ctx.guildMembers + ctx.mentionedMembers
    // A yes/no prompt is about the one candidate the exact matcher rejected, and its answer decides.
    ensures r.prompt.YesNo? ==>
              var cs := Candidates(arg, ctx.guildMembers, o);
              && Defaulted(options.strict) && |cs| == 1 && r.prompt == YesNo(cs[0], arg, PromptTimeoutMs)
              && !o.exactMatches(arg, cs[0])
              && r.member == (if o.yesNoAnswer then Some(cs[0]) else None)
    // and conversely, by name, `strict` with one candidate the exact matcher rejects raises it.
    ensures var cs := Candidates(arg, ctx.guildMembers, o);
            !IsIdShaped(arg, o) && |ctx.mentionedMembers| == 0 && ctx.mentionedChannels == 0
            && Defaulted(options.strict) && |cs| == 1 && !o.exactMatches(arg, cs[0]) ==>
              r.prompt == YesNo(cs[0], arg, PromptTimeoutMs)
    // A numbered prompt lists every candidate, only under `strict`, and its answer is the result.
    ensures r.prompt.Numbered? ==>
              && Defaulted(options.strict)
              && r.prompt == Numbered(Candidates(arg, ctx.guildMembers, o), arg, PromptTimeoutMs)
              && r.member == o.numberedAnswer
    // Without `strict` no prompt is ever raised.
    ensures !Defaulted(options.strict) ==> r.prompt.NoPrompt?
  {
    var fail := Defaulted(options.fail);
    var strict := Defaulted(options.strict);
    if IsIdShaped(arg, o) then
      Resolution(LookupMember(ctx.guildMembers, arg), NoPrompt, false)
    else if |ctx.mentionedMembers| > 0 then
      Resolution(Some(ctx.mentionedMembers[0]), NoPrompt, false)
    else if ctx.mentionedChannels > 0 then
      Resolution(None, NoPrompt, false)
    else
      var candidates := Candidates(arg, ctx.guildMembers, o);
      if |candidates| == 0 && fail then
        Resolution(None, NoPrompt, true)
      else if |candidates| == 1 || !strict then
        if |candidates| == 0 then
          // `resolvedNick[0]` is undefined, and both remaining branches return it
          Resolution(None, NoPrompt, false)
        else
          var target := candidates[0];
          if o.exactMatches(arg, target) then Resolution(Some(target), NoPrompt, false)
          else if strict then
            Resolution(if o.yesNoAnswer then Some(target) else None, YesNo(target, arg, PromptTimeoutMs), false)
          else Resolution(Some(target), NoPrompt, false)
      else
        Resolution(o.numberedAnswer, Numbered(candidates, arg, PromptTimeoutMs), false)
  }

  /** Name matching is reached: nothing id-shaped and nothing mentioned. */
  predicate ByName(arg: string, ctx: Context, o: Oracles) {
    !IsIdShaped(arg, o) && |ctx.mentionedMembers| == 0 && ctx.mentionedChannels == 0
  }

  /**
   * The name-matching outcomes by number of candidates: one exact match is
   * returned directly; one inexact match under `strict` raises the yes/no
   * prompt; several under `strict` raise exactly one numbered prompt;
   * without `strict` the first matching member in guild order is taken
   * without asking. With no candidates and `fail` unset, `strict` raises a
   * numbered prompt over the empty list and its absence gives nothing.
   */
  lemma NameMatchOutcomes(arg: string, ctx: Context, options: ResolveOptions, o: Oracles)
    requires ByName(arg, ctx, o)
    ensures var cs := Candidates(arg, ctx.guildMembers, o);
            var r := ResolveMember(arg, ctx, options, o);
            && (|cs| == 1 && o.exactMatches(arg, cs[0]) ==> r == Resolution(Some(cs[0]), NoPrompt, false))
            && (|cs| == 1 && !o.exactMatches(arg, cs[0]) && Defaulted(options.strict) ==>
                  r == Resolution(if o.yesNoAnswer then Some(cs[0]) else None, YesNo(cs[0], arg, PromptTimeoutMs), false))
            && (|cs| == 0 && !Defaulted(options.fail) && Defaulted(options.strict) ==>
                  r == Resolution(o.numberedAnswer, Numbered([], arg, PromptTimeoutMs), false))
            && (|cs| == 0 && !Defaulted(options.fail) && !Defaulted(options.strict) ==>
                  r == Resolution(None, NoPrompt, false))
            && (|cs| > 1 && Defaulted(options.strict) ==> r.prompt == Numbered(cs, arg, PromptTimeoutMs))
            && (|cs| > 0 && !Defaulted(options.strict) ==>
                  var k := Seqs.FirstIndex((m: Member) => o.lazyMatches(arg, m), ctx.guildMembers);
                  k.Some? && r == Resolution(Some(ctx.guildMembers[k.value]), NoPrompt, false))
  {
    Seqs.FilterHeadIsFirstMatch((m: Member) => o.lazyMatches(arg, m), ctx.guildMembers);
  }

  /**
   * The prompt answers only matter when a prompt is raised: with no prompt,
   * any other answers give the same resolution.
   */
  lemma AnswersOnlyMatterWhenPrompted(arg: string, ctx: Context, options: ResolveOptions, o: Oracles, yes: bool, pick: Option<Member>)
    requires ResolveMember(arg, ctx, options, o).prompt.NoPrompt?
    ensures ResolveMember(arg, ctx, options, o.(yesNoAnswer := yes, numberedAnswer := pick)) == ResolveMember(arg, ctx, options, o)
  {
  }
}
