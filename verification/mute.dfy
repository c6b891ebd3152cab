/**
 * `muteUser`: argument checks for the mute command and the single entry it
 * puts on the mute queue. The queue itself (which later lifts the mute) is
 * a sequence the entry is appended to; `Number()` is the `parseNumber`
 * parameter, `None` standing for NaN.
 */
module Mute {
  import opened Wrappers
  import opened Platform
  import Text

  /** Target, duration and at least one word of reason. */
  const MinArgs: int := 3

  /** The largest distance from the epoch, in milliseconds, a JavaScript `Date` can hold. */
  const MaxDateMs: int := 8_640_000_000_000_000

  /** A queued mute; `unmuteAt` is `None` for an Invalid Date. */
  datatype MuteEntry = MuteEntry(target: Member, issuer: Member, unmuteAt: Option<int>, reason: string, seconds: int)

  /**
   * `moment(now).add(minutes, 'm').toDate()`: the time `minutes` later, or an
   * Invalid Date when that time lies outside the range a `Date` can hold.
   */
  function UnmuteDate(now: int, minutes: int): (r: Option<int>)
    ensures r.Some? <==> -MaxDateMs <= now + minutes * MinuteMs <= MaxDateMs
    ensures r.Some? ==> r.value == now + minutes * MinuteMs
  {
    var at := now + minutes * MinuteMs;
    if -MaxDateMs <= at <= MaxDateMs then Some(at) else None
  }

  datatype MuteError =
    | InvalidParameters            // fewer than three arguments
    | UserNotFound(input: string)  // no mention and no member with that id
    | NotANumber(input: string)    // duration zero or not a number

  datatype MuteOutcome = MuteOutcome(error: Option<MuteError>, queue: seq<MuteEntry>)

  /** The parts of the invoking message the command reads. */
  datatype Invocation = Invocation(issuer: Member, mention: Option<Member>, guildMembers: seq<Member>, now: int)

  /** The member to mute: the first mentioned member, else the member whose id is the first argument. */
  function MuteTarget(inv: Invocation, userInput: string): (r: Option<Member>)
    ensures inv.mention.Some? ==> r == inv.mention
    ensures inv.mention.None? ==> r == LookupMember(inv.guildMembers, userInput)
  {
    if inv.mention.Some? then inv.mention else LookupMember(inv.guildMembers, userInput)
  }

  function MuteUser(queue: seq<MuteEntry>, inv: Invocation, args: seq<string>, parseNumber: string -> Option<int>): (r: MuteOutcome)
    // Nothing is queued unless there are three arguments, a target and a non-zero number of minutes.
    ensures |args| < MinArgs ==> r == MuteOutcome(Some(InvalidParameters), queue)
    ensures |args| >= MinArgs && MuteTarget(inv, args[0]).None? ==>
              r == MuteOutcome(Some(UserNotFound(args[0])), queue)
    ensures |args| >= MinArgs && MuteTarget(inv, args[0]).Some?
              && (parseNumber(args[1]).None? || parseNumber(args[1]) == Some(0)) ==>
              r == MuteOutcome(Some(NotANumber(args[1])), queue)
    ensures r.error.Some? ==> r.queue == queue
    // On success exactly one entry is added: the target, the issuer, now + minutes
    // (an Invalid Date outside the `Date` range), the remaining words joined by
    // spaces, and the minutes converted to seconds.
    ensures r.error.None? <==>
              |args| >= MinArgs && MuteTarget(inv, args[0]).Some?
              && parseNumber(args[1]).Some? && parseNumber(args[1]).value != 0
    ensures r.error.None? ==>
              var minutes := parseNumber(args[1]).value;
              r.queue == queue + [MuteEntry(MuteTarget(inv, args[0]).value, inv.issuer,
                                            UnmuteDate(inv.now, minutes),
                                            Text.Join(args[2..], ' '),
                                            minutes * MinuteSeconds)]
  {
    if |args| < MinArgs then MuteOutcome(Some(InvalidParameters), queue)
    else
      var userInput := args[0];
      match MuteTarget(inv, userInput)
      case None => MuteOutcome(Some(UserNotFound(userInput)), queue)
      case Some(member) =>
        var durationInput := args[1];
        match parseNumber(durationInput)
        case None => MuteOutcome(Some(NotANumber(durationInput)), queue)
        case Some(minutes) =>
          if minutes == 0 then MuteOutcome(Some(NotANumber(durationInput)), queue)
          else
            var reason := Text.Join(args[2..], ' ');
            var entry := MuteEntry(member, inv.issuer, UnmuteDate(inv.now, minutes), reason, minutes * MinuteSeconds);
            MuteOutcome(None, queue + [entry])
  }

  /**
   * The queued reason keeps the reason words: split on spaces it gives back
   * the arguments from the third on (which, coming from a split on spaces,
   * hold no space). The unmute time and the queued seconds describe the same
   * span of time, and the time is an Invalid Date exactly when that span
   * reaches past the range of a `Date`.
   */
  lemma QueuedEntryFaithful(queue: seq<MuteEntry>, inv: Invocation, args: seq<string>, parseNumber: string -> Option<int>)
    requires forall i :: 0 <= i < |args| ==> ' ' !in args[i]
    requires MuteUser(queue, inv, args, parseNumber).error.None?
    ensures var e := MuteUser(queue, inv, args, parseNumber).queue[|queue|];
            && Text.Split(e.reason, ' ') == args[2..]
            && (e.unmuteAt.Some? ==> e.unmuteAt.value - inv.now == e.seconds * 1000)
            && (e.unmuteAt.None? <==> !(-MaxDateMs <= inv.now + e.seconds * 1000 <= MaxDateMs))
  {
    Text.SplitJoin(args[2..], ' ');
  }

  /**
   * When the arguments are the words of the message text split on spaces,
   * the queued reason is exactly the text after the target and duration
   * words, spaces and all.
   */
  lemma ReasonIsMessageTail(queue: seq<MuteEntry>, inv: Invocation, text: string, parseNumber: string -> Option<int>)
    requires MuteUser(queue, inv, Text.Split(text, ' '), parseNumber).error.None?
    ensures var args := Text.Split(text, ' ');
            var e := MuteUser(queue, inv, args, parseNumber).queue[|queue|];
            text == args[0] + [' '] + args[1] + [' '] + e.reason
  {
    var args := Text.Split(text, ' ');
    Text.JoinSplit(text, ' ');
    assert args[1..][1..] == args[2..];
  }

  /**
   * A duration of 10^12 minutes is a non-zero number and is accepted, but the
   * unmute time lies past the `Date` range: an Invalid Date is queued with a
   * finite number of seconds.
   */
  lemma HugeDurationQueuesInvalidDate(queue: seq<MuteEntry>, inv: Invocation, args: seq<string>, parseNumber: string -> Option<int>)
    requires |args| >= MinArgs && MuteTarget(inv, args[0]).Some?
    requires parseNumber(args[1]) == Some(1_000_000_000_000)
    requires 0 <= inv.now <= MaxDateMs
    ensures var r := MuteUser(queue, inv, args, parseNumber);
            && r.error.None?
            && r.queue[|queue|].unmuteAt.None?
            && r.queue[|queue|].seconds == 60_000_000_000_000
  {
  }
}
