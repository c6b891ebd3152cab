/**
 * The abuse gate of the chat-response module: the per-user escalation
 * record (warnings and an ignore window) driven by the token bucket's
 * decision, plus the two string helpers used on incoming text.
 *
 * The token bucket is not modelled: its decision for the request is the
 * parameter `bucketDenies`, and the result says whether it was consulted.
 * Times are integer milliseconds; `now` is the clock reading of the call.
 */
module Cleverbot {
  import opened Wrappers
  import opened Text
  import opened Platform
  import Seqs

  /** Every third warning opens an ignore window. */
  const EscalationInterval: int := 3

  /** Each warning adds this many minutes to the window it opens. */
  const MinutesPerWarning: int := 30

  /** The bot's own name, matched case-insensitively in incoming text. */
  const Keyword: string := "hifumi"

  /** What the keyword is replaced with before text is sent on. */
  const Replacement: string := "cleverbot"

  datatype Ignores = Ignores(ignoring: bool, ignoreUntil: Option<int>)

  datatype UserRecord = UserRecord(warnings: int, ignores: Ignores)

  /** The per-user escalation records, keyed by member id. */
  type Users = map<Snowflake, UserRecord>

  /** The notice sent to the channel on a denial. */
  datatype Notice =
    | Silent
    | Warned(count: int)          // "Warning #count/3"
    | Ignoring(seconds: int)      // "Ignoring <member> for <seconds as time>"

  datatype Decision = Decision(limited: bool, users: Users, bucketConsulted: bool, notice: Notice)

  /** One call of the gate: who asked, when, and what the bucket would say. */
  datatype Request = Request(id: Snowflake, now: int, bucketDenies: bool)

  /** Length in milliseconds of the window opened at the given warning count. */
  function IgnoreWindowMs(warnings: int): int {
    MinutesPerWarning * warnings * MinuteMs
  }

  predicate IsIgnoring(users: Users, id: Snowflake) {
    id in users && users[id].ignores.ignoring
  }

  /** The ignore window is still open at `now` (an absent end never lapses). */
  predicate WindowOpen(users: Users, id: Snowflake, now: int) {
    IsIgnoring(users, id)
    && !(users[id].ignores.ignoreUntil.Some? && users[id].ignores.ignoreUntil.value < now)
  }

  /** The warning count a user has before this call (zero for an unknown user). */
  function WarningsOf(users: Users, id: Snowflake): int {
    if id in users then users[id].warnings else 0
  }

  /**
   * The record invariant: at least one warning; a window end is recorded
   * exactly while ignoring; and only a multiple of three warnings can ignore.
   */
  predicate WellFormed(rec: UserRecord) {
    && rec.warnings >= 1
    && (rec.ignores.ignoring <==> rec.ignores.ignoreUntil.Some?)
    && (rec.ignores.ignoring ==> rec.warnings % EscalationInterval == 0)
  }

  predicate AllWellFormed(users: Users) {
    forall id :: id in users ==> WellFormed(users[id])
  }

  /** `isRateLimited`: whether the user's request is to be dropped, and the new records. */
  function IsRateLimited(users: Users, id: Snowflake, now: int, bucketDenies: bool): (r: Decision)
    // An open window drops the request without asking the bucket or touching any record.
    ensures WindowOpen(users, id, now) ==> r.limited && !r.bucketConsulted && r.users == users
    // A lapsed window is cleared, the request goes through, and warnings stay as they were.
    ensures IsIgnoring(users, id) && !WindowOpen(users, id, now) ==>
              && !r.limited && !r.bucketConsulted
              && id in r.users
              && r.users[id] == UserRecord(users[id].warnings, Ignores(false, None))
    // Neither ignore path sends anything.
    ensures IsIgnoring(users, id) ==> r.notice == Silent
    // Otherwise the answer is the bucket's.
    ensures !IsIgnoring(users, id) ==> r.bucketConsulted && r.limited == bucketDenies
    ensures !IsIgnoring(users, id) && !bucketDenies ==> r.users == users && r.notice == Silent
    // A denial adds exactly one warning (an unknown user starts at one).
    ensures !IsIgnoring(users, id) && bucketDenies ==>
              id in r.users && r.users[id].warnings == WarningsOf(users, id) + 1
    // A denial ignores the user iff the new count is a multiple of three, for 30 minutes per warning.
    ensures !IsIgnoring(users, id) && bucketDenies ==>
              var w := WarningsOf(users, id) + 1;
              && (r.users[id].ignores.ignoring <==> w % EscalationInterval == 0)
              && (w % EscalationInterval == 0 ==>
                    r.users[id].ignores.ignoreUntil == Some(now + IgnoreWindowMs(w))
                    && r.notice == Ignoring(w * MinutesPerWarning * MinuteSeconds))
              && (w % EscalationInterval != 0 ==> r.notice == Warned(w))
    // No path forgets a user or lowers a warning count, and other users are untouched.
    ensures forall k :: k in users ==> k in r.users && r.users[k].warnings == users[k].warnings + (if k == id && !IsIgnoring(users, id) && bucketDenies then 1 else 0)
    ensures forall k :: k in r.users ==> k in users || k == id
    ensures forall k :: k in users && k != id ==> r.users[k] == users[k]
    // The record invariant is kept.
    ensures AllWellFormed(users) ==> AllWellFormed(r.users)
  {
    if IsIgnoring(users, id) then
      var until := users[id].ignores.ignoreUntil;
      if until.Some? && until.value < now then
        var cleared := users[id].(ignores := Ignores(false, None));
        Decision(false, users[id := cleared], false, Silent)
      else
        Decision(true, users, false, Silent)
    else if !bucketDenies then
      Decision(false, users, true, Silent)
    else
      var prior := if id in users then users[id] else UserRecord(0, Ignores(false, None));
      var w := prior.warnings + 1;
      if w % EscalationInterval == 0 then
        var rec := UserRecord(w, Ignores(true, Some(now + IgnoreWindowMs(w))));
        Decision(true, users[id := rec], true, Ignoring(w * MinutesPerWarning * MinuteSeconds))
      else
        Decision(true, users[id := prior.(warnings := w)], true, Warned(w))
  }

  /** The records after a sequence of gate calls. */
  function Replay(users: Users, reqs: seq<Request>): Users
    decreases |reqs|
  {
    if |reqs| == 0 then users
    else Replay(IsRateLimited(users, reqs[0].id, reqs[0].now, reqs[0].bucketDenies).users, reqs[1..])
  }

  /** Over any sequence of calls, no user is forgotten and no warning count goes down. */
  lemma {:induction false} WarningsNeverDecrease(users: Users, reqs: seq<Request>)
    ensures forall k :: k in users ==> k in Replay(users, reqs) && Replay(users, reqs)[k].warnings >= users[k].warnings
    decreases |reqs|
  {
    if |reqs| > 0 {
      var next := IsRateLimited(users, reqs[0].id, reqs[0].now, reqs[0].bucketDenies).users;
      WarningsNeverDecrease(next, reqs[1..]);
    }
  }

  /** Over any sequence of calls, the record invariant is kept. */
  lemma {:induction false} ReplayKeepsWellFormed(users: Users, reqs: seq<Request>)
    requires AllWellFormed(users)
    ensures AllWellFormed(Replay(users, reqs))
    decreases |reqs|
  {
    if |reqs| > 0 {
      var next := IsRateLimited(users, reqs[0].id, reqs[0].now, reqs[0].bucketDenies).users;
      ReplayKeepsWellFormed(next, reqs[1..]);
    }
  }

  /**
   * Three denials in a row for a user with no record: warnings one and two,
   * then an ignore window of 90 minutes from the third call.
   */
  lemma ThreeDenialsIgnoreFor90Minutes(users: Users, id: Snowflake, t1: int, t2: int, t3: int)
    requires id !in users
    ensures var d1 := IsRateLimited(users, id, t1, true);
            var d2 := IsRateLimited(d1.users, id, t2, true);
            var d3 := IsRateLimited(d2.users, id, t3, true);
            && d1.limited && d1.notice == Warned(1) && !d1.users[id].ignores.ignoring
            && d2.limited && d2.notice == Warned(2) && !d2.users[id].ignores.ignoring
            && d3.limited && d3.users[id].warnings == 3
            && d3.users[id].ignores == Ignores(true, Some(t3 + 90 * MinuteMs))
  {
  }

  /** `identifier.test(s)` at index `i`: the keyword, ASCII letters in either case. */
  predicate KeywordAt(s: string, i: int) {
    0 <= i && i + |Keyword| <= |s|
    && forall k :: 0 <= k < |Keyword| ==> AsciiLower(s[i + k]) == Keyword[k]
  }

  predicate HasKeyword(s: string) {
    exists i | 0 <= i <= |s| :: KeywordAt(s, i)
  }

  /** `i` is where the regex's leftmost match starts. */
  predicate IsFirstKeyword(s: string, i: int) {
    KeywordAt(s, i) && forall j :: 0 <= j < i ==> !KeywordAt(s, j)
  }

  /** The leftmost match at or after `from`. */
  function FindKeywordFrom(s: string, from: nat): (r: Option<nat>)
    requires from <= |s|
    ensures r.Some? ==> from <= r.value && KeywordAt(s, r.value)
    ensures r.Some? ==> forall j :: from <= j < r.value ==> !KeywordAt(s, j)
    ensures r.None? ==> forall j :: from <= j ==> !KeywordAt(s, j)
    decreases |s| - from
  {
    if from + |Keyword| > |s| then None
    else if KeywordAt(s, from) then Some(from)
    else FindKeywordFrom(s, from + 1)
  }

  /** `replaceKeyword`: only the leftmost occurrence of the keyword becomes "cleverbot". */
  function ReplaceKeyword(s: string): (r: string)
    ensures !HasKeyword(s) ==> r == s
    ensures forall i :: IsFirstKeyword(s, i) ==> r == s[..i] + Replacement + s[i + |Keyword|..]
  {
    match FindKeywordFrom(s, 0)
    case None => s
    case Some(i) => s[..i] + Replacement + s[i + |Keyword|..]
  }

  /** Text is left as it is exactly when it holds no keyword. */
  lemma ReplaceKeywordFixesExactlyKeywordFree(s: string)
    ensures ReplaceKeyword(s) == s <==> !HasKeyword(s)
  {
  }

  /**
   * Only the leftmost occurrence is replaced: the result has no keyword up to
   * the end of the inserted text, and from there on its matches are exactly
   * those of the original text, shifted by the three extra characters.
   */
  lemma ReplaceKeywordOnlyFirst(s: string, i: int)
    requires IsFirstKeyword(s, i)
    ensures forall j :: 0 <= j < i + |Replacement| ==> !KeywordAt(ReplaceKeyword(s), j)
    ensures forall j :: i + |Keyword| <= j ==> (KeywordAt(ReplaceKeyword(s), j + 3) <==> KeywordAt(s, j))
  {
    var r := ReplaceKeyword(s);
    assert r == s[..i] + Replacement + s[i + |Keyword|..];
    forall j | 0 <= j < i + |Replacement|
      ensures !KeywordAt(r, j)
    {
      if j >= i {
        assert r[j] == Replacement[j - i];
        assert forall x :: 0 <= x < |Replacement| ==> AsciiLower(Replacement[x]) != 'h';
        assert AsciiLower(r[j + 0]) != Keyword[0];
      } else if j + |Keyword| <= i {
        assert !KeywordAt(s, j);
        var k :| 0 <= k < |Keyword| && AsciiLower(s[j + k]) != Keyword[k];
        assert r[j + k] == s[j + k];
      } else {
        assert r[i] == 'c';
        assert forall x :: 1 <= x < |Keyword| ==> Keyword[x] != 'c';
        assert AsciiLower(r[j + (i - j)]) != Keyword[i - j];
      }
    }
    forall j | i + |Keyword| <= j
      ensures KeywordAt(r, j + 3) <==> KeywordAt(s, j)
    {
      assert forall m :: j <= m < |s| ==> r[m + 3] == s[m];
    }
  }

  /** A cleverbot session as the client library keeps it: the user and their past inputs. */
  datatype Session = Session(id: Snowflake, history: seq<string>)

  /**
   * `isUserRepeating`: the user's two latest inputs both equal the keyword-replaced
   * message. `client` is `None` when the client library was never configured, in
   * which case reading its sessions throws and the source answers false.
   */
  function IsUserRepeating(client: Option<seq<Session>>, memberId: Snowflake, content: string): (r: bool)
    ensures client.None? ==> !r
    ensures r <==>
              && client.Some?
              && (exists k | 0 <= k < |client.value| ::
                    && client.value[k].id == memberId
                    && (forall j :: 0 <= j < k ==> client.value[j].id != memberId)
                    && |client.value[k].history| >= 2
                    && client.value[k].history[|client.value[k].history| - 2..] == [ReplaceKeyword(content), ReplaceKeyword(content)])
  {
    match client
    case None => false
    case Some(sessions) =>
      match Seqs.FirstIndex((u: Session) => u.id == memberId, sessions)
      case None => false
      case Some(k) =>
        var history := sessions[k].history;
        if |history| < 2 then false
        else
          var phrase := ReplaceKeyword(content);
          history[|history| - 1] == phrase && history[|history| - 2] == phrase
  }
}
