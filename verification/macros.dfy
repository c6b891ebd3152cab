/**
 * `addMacro`: the ordered rejection rules for a new per-guild macro and the
 * single insert that follows them. The macro table is a map from guild id to
 * that guild's macros; the count and the duplicate lookup read it directly.
 */
module Macros {
  import opened Wrappers
  import opened Platform
  import Text

  /** Longest macro content accepted, in UTF-16 code units. */
  const MaxContentLength: int := 200

  /** A guild with this many macros gets no more. */
  const MaxMacros: int := 50

  datatype Macro = Macro(guildId: Snowflake, name: string, content: string, creatorId: Snowflake, created: int)

  /** The macros table, grouped by guild. */
  type MacroStore = map<Snowflake, seq<Macro>>

  /** The reason a macro was refused, in the order the rules are tried. */
  datatype Rejection = TooLong | CommandName | HasMentions | LimitReached | Duplicate

  datatype AddResult = Rejected(reason: Rejection) | Added(macro: Macro, store: MacroStore)

  /** The parts of the invoking message the command reads. */
  datatype Request = Request(guildId: Snowflake, authorId: Snowflake, mentionsUsers: bool, now: int)

  function MacrosOf(store: MacroStore, guildId: Snowflake): seq<Macro> {
    if guildId in store then store[guildId] else []
  }

  predicate HasMacroNamed(macros: seq<Macro>, name: string) {
    exists i | 0 <= i < |macros| :: macros[i].name == name
  }

  /** A guild's macro list as the command keeps it: unique names, at most 50, short contents. */
  predicate ValidGuildMacros(macros: seq<Macro>) {
    && |macros| <= MaxMacros
    && (forall i, j :: 0 <= i < j < |macros| ==> macros[i].name != macros[j].name)
    && (forall i :: 0 <= i < |macros| ==> Text.Utf16Length(macros[i].content) <= MaxContentLength)
  }

  /** The pre-checks, tried in order; the first that fails is reported. */
  function PreCheck(name: string, content: string, commandNames: seq<string>, mentionsUsers: bool): (r: Option<Rejection>)
    ensures r == Some(TooLong) <==> Text.Utf16Length(content) > MaxContentLength
    ensures r == Some(CommandName) <==> Text.Utf16Length(content) <= MaxContentLength && name in commandNames
    ensures r == Some(HasMentions) <==> Text.Utf16Length(content) <= MaxContentLength && name !in commandNames && mentionsUsers
    ensures r.None? <==> Text.Utf16Length(content) <= MaxContentLength && name !in commandNames && !mentionsUsers
  {
    if Text.Utf16Length(content) > MaxContentLength then Some(TooLong)
    else if name in commandNames then Some(CommandName)
    else if mentionsUsers then Some(HasMentions)
    else None
  }

  function AddMacro(store: MacroStore, req: Request, name: string, content: string, commandNames: seq<string>): (r: AddResult)
    // The pre-checks decide first.
    ensures PreCheck(name, content, commandNames, req.mentionsUsers).Some? ==>
              r == Rejected(PreCheck(name, content, commandNames, req.mentionsUsers).value)
    // Then the 50-macro cap, then the duplicate lookup.
    ensures PreCheck(name, content, commandNames, req.mentionsUsers).None? ==>
              && (|MacrosOf(store, req.guildId)| >= MaxMacros ==> r == Rejected(LimitReached))
              && (|MacrosOf(store, req.guildId)| < MaxMacros && HasMacroNamed(MacrosOf(store, req.guildId), name) ==>
                    r == Rejected(Duplicate))
    // An insert happens exactly when every rule passes, and adds exactly the requested macro.
    ensures r.Added? <==>
              && PreCheck(name, content, commandNames, req.mentionsUsers).None?
              && |MacrosOf(store, req.guildId)| < MaxMacros
              && !HasMacroNamed(MacrosOf(store, req.guildId), name)
    ensures r.Added? ==>
              && r.macro == Macro(req.guildId, name, content, req.authorId, req.now)
              && MacrosOf(r.store, req.guildId) == MacrosOf(store, req.guildId) + [r.macro]
              && (forall g :: g != req.guildId ==> MacrosOf(r.store, g) == MacrosOf(store, g))
    // A successful add keeps the guild's macro list valid.
    ensures r.Added? && ValidGuildMacros(MacrosOf(store, req.guildId)) ==> ValidGuildMacros(MacrosOf(r.store, req.guildId))
  {
    match PreCheck(name, content, commandNames, req.mentionsUsers)
    case Some(reason) => Rejected(reason)
    case None =>
      var existing := MacrosOf(store, req.guildId);
      if |existing| >= MaxMacros then Rejected(LimitReached)
      else if HasMacroNamed(existing, name) then Rejected(Duplicate)
      else
        var macro := Macro(req.guildId, name, content, req.authorId, req.now);
        Added(macro, store[req.guildId := existing + [macro]])
  }

  /** Only a successful add changes the table, so every guild's list stays valid whatever is asked. */
  lemma AddMacroKeepsStoreValid(store: MacroStore, req: Request, name: string, content: string, commandNames: seq<string>)
    requires forall g :: g in store ==> ValidGuildMacros(store[g])
    ensures var r := AddMacro(store, req, name, content, commandNames);
            r.Added? ==> forall g :: g in r.store ==> ValidGuildMacros(r.store[g])
  {
  }

  /** Content of exactly 200 UTF-16 code units passes the length rule; one more does not. */
  lemma LengthBoundIsInclusive(name: string, content: string, commandNames: seq<string>, mentionsUsers: bool)
    ensures Text.Utf16Length(content) == MaxContentLength ==> PreCheck(name, content, commandNames, mentionsUsers) != Some(TooLong)
    ensures Text.Utf16Length(content) == MaxContentLength + 1 ==> PreCheck(name, content, commandNames, mentionsUsers) == Some(TooLong)
  {
  }

  /**
   * A character outside the Basic Multilingual Plane counts twice: 199 ASCII
   * letters and one emoji are 200 characters but 201 code units, too long.
   */
  lemma AstralCharacterCountsTwice(name: string, commandNames: seq<string>, mentionsUsers: bool)
    ensures var content := seq(199, _ => 'a') + "\U{1F600}";
            |content| == MaxContentLength && PreCheck(name, content, commandNames, mentionsUsers) == Some(TooLong)
  {
    var letters: string := seq(199, _ => 'a');
    assert forall i :: 0 <= i < |letters| ==> letters[i] as int < Text.FirstAstral;
    assert Text.Utf16Length("\U{1F600}") == 2;
    Text.Utf16LengthAppend(letters, "\U{1F600}");
  }
}
