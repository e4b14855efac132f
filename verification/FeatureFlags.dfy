/** The comma-separated feature flag list: names, name=value pairs, and overrides. */
module FeatureFlags {
  import opened Common
  import opened Text

  datatype Flag = WebhookBatching | DeliveryPooling | Chat | Milestones

  type Values = map<Flag, bool>

  const DEFAULTS: Values := map f | f in {WebhookBatching, DeliveryPooling, Chat, Milestones} :: DefaultOf(f)

  datatype FlagError = InvalidEntry(token: string) | UnknownFlag(name: string) | InvalidBoolean(name: string, value: string)

  function Name(f: Flag): string {
    match f
    case WebhookBatching => "webhookBatching"
    case DeliveryPooling => "deliveryPooling"
    case Chat => "chat"
    case Milestones => "milestones"
  }

  function Lookup(name: string): Option<Flag> {
    if name == Name(WebhookBatching) then Some(WebhookBatching)
    else if name == Name(DeliveryPooling) then Some(DeliveryPooling)
    else if name == Name(Chat) then Some(Chat)
    else if name == Name(Milestones) then Some(Milestones)
    else None
  }

  datatype Mention = Mention(flag: Flag, enabled: bool)

  /** One entry between commas; a blank one mentions nothing. */
  function ParseEntry(entry: string): Result<Option<Mention>, FlagError> {
    var token := Trim(entry);
    if token == "" then Ok(None)
    else
      var parts := Split(token, '=');
      if |parts| > 2 then Err(InvalidEntry(token))
      else
        var name := Trim(parts[0]);
        match Lookup(name)
        case None => Err(UnknownFlag(name))
        case Some(flag) =>
          if |parts| == 1 then Ok(Some(Mention(flag, true)))
          else
            var value := ToLower(Trim(parts[1]));
            if value == "true" then Ok(Some(Mention(flag, true)))
            else if value == "false" then Ok(Some(Mention(flag, false)))
            else Err(InvalidBoolean(name, parts[1]))
  }

  /** The value of a flag after the mentions of these entries, if any names it. */
  function LastMention(entries: seq<string>, f: Flag): Option<bool> {
    if entries == [] then None
    else
      var last := ParseEntry(entries[|entries| - 1]);
      if last.Ok? && last.value.Some? && last.value.value.flag == f then Some(last.value.value.enabled)
      else LastMention(entries[..|entries| - 1], f)
  }

  predicate AllParse(entries: seq<string>) {
    forall i :: 0 <= i < |entries| ==> ParseEntry(entries[i]).Ok?
  }

  /** The entry is the first that does not parse. */
  ghost predicate FirstError(entries: seq<string>, i: nat) {
    i < |entries| && ParseEntry(entries[i]).Err? && AllParse(entries[..i])
  }

  function DefaultOf(f: Flag): bool {
    match f
    case WebhookBatching => true
    case DeliveryPooling => true
    case Chat => true
    case Milestones => false
  }

  /** The last mention, else the default. */
  function Listed(entries: seq<string>, f: Flag): bool {
    match LastMention(entries, f)
    case Some(enabled) => enabled
    case None => DefaultOf(f)
  }

  /** The override, else the last mention, else the default. */
  function Resolve(entries: seq<string>, overrides: map<Flag, Option<bool>>, f: Flag): bool {
    if f in overrides && overrides[f].Some? then overrides[f].value else Listed(entries, f)
  }

  /** `flags` gives every flag the value it has in the list. */
  ghost predicate IsListed(flags: Values, entries: seq<string>) {
    forall f: Flag :: f in flags && flags[f] == Listed(entries, f)
  }

  lemma DefaultsAreListed()
    ensures IsListed(DEFAULTS, [])
  {
    forall f: Flag ensures f in DEFAULTS && DEFAULTS[f] == DefaultOf(f) {
      match f case WebhookBatching => case DeliveryPooling => case Chat => case Milestones =>
    }
  }

  lemma MentionUpdates(flags: Values, entries: seq<string>, entry: string)
    requires IsListed(flags, entries) && ParseEntry(entry).Ok?
    ensures match ParseEntry(entry).value
            case None => IsListed(flags, entries + [entry])
            case Some(m) => IsListed(flags[m.flag := m.enabled], entries + [entry])
  {
    var longer := entries + [entry];
    assert longer[..|longer| - 1] == entries && longer[|longer| - 1] == entry;
    forall f: Flag
      ensures LastMention(longer, f)
           == match ParseEntry(entry).value
              case None => LastMention(entries, f)
              case Some(m) => if m.flag == f then Some(m.enabled) else LastMention(entries, f)
    {
    }
  }

  method ParseEntries(entries: seq<string>) returns (result: Result<Values, FlagError>)
    ensures result.Ok? <==> AllParse(entries)
    ensures result.Ok? ==> IsListed(result.value, entries)
    ensures result.Err? ==> exists i: nat :: FirstError(entries, i) && ParseEntry(entries[i]) == Err(result.error)
  {
    var flags := DEFAULTS;
    DefaultsAreListed();
    for i := 0 to |entries|
      invariant AllParse(entries[..i]) && IsListed(flags, entries[..i])
    {
      assert entries[..i + 1] == entries[..i] + [entries[i]];
      var parsed := ParseEntry(entries[i]);
      if parsed.Err? {
        assert FirstError(entries, i);
        return Err(parsed.error);
      }
      MentionUpdates(flags, entries[..i], entries[i]);
      if parsed.value.Some? {
        flags := flags[parsed.value.value.flag := parsed.value.value.enabled];
      }
    }
    assert entries[..|entries|] == entries;
    return Ok(flags);
  }

  /**
   * Parses the list. Each flag gets its override if there is one, else its last mention,
   * else its default; the first bad entry makes the parse fail.
   */
  method ParseFeatureFlags(input: string, overrides: map<Flag, Option<bool>>)
    returns (result: Result<Values, FlagError>)
    ensures result.Ok? <==> AllParse(Split(input, ','))
    ensures result.Ok? ==>
              forall f: Flag :: f in result.value && result.value[f] == Resolve(Split(input, ','), overrides, f)
    ensures result.Err? ==>
              exists i: nat :: FirstError(Split(input, ','), i) && ParseEntry(Split(input, ',')[i]) == Err(result.error)
  {
    var flags := DEFAULTS;
    if Trim(input) != "" {
      result := ParseEntries(Split(input, ','));
      if result.Err? { return; }
      flags := result.value;
    } else {
      BlankInputMentionsNothing(input);
    }
    var rest := overrides.Keys;
    while rest != {}
      invariant rest <= overrides.Keys
      invariant forall f: Flag :: f in flags &&
                  flags[f] == if f in overrides.Keys - rest && overrides[f].Some? then overrides[f].value
                              else Listed(Split(input, ','), f)
      decreases |rest|
    {
      var f :| f in rest;
      if overrides[f].Some? { flags := flags[f := overrides[f].value]; }
      rest := rest - {f};
    }
    return Ok(flags);
  }

  lemma BlankInputMentionsNothing(input: string)
    requires Trim(input) == ""
    ensures AllParse(Split(input, ',')) && IsListed(DEFAULTS, Split(input, ','))
  {
    TrimsToNothing(input);
    SpacesAreClean(input);
    SplitWithout(input, ',');
    DefaultsAreListed();
    assert [input][..0] == [];
    MentionUpdates(DEFAULTS, [], input);
    assert [] + [input] == [input];
  }

  // --------------------------------------------------------------------- round trip

  /** A way to write one entry; pads are blanks, `word` spells the value in any case. */
  datatype Spelling =
    | Blank(spaces: string)
    | Bare(flag: Flag, before: string, after: string)
    | Pair(flag: Flag, enabled: bool, word: string, before: string, beforeSign: string, afterSign: string, after: string)

  predicate IsSpelling(sp: Spelling) {
    match sp
    case Blank(spaces) => AllSpaces(spaces)
    case Bare(_, before, after) => AllSpaces(before) && AllSpaces(after)
    case Pair(_, enabled, word, a, b, c, d) =>
      && AllSpaces(a) && AllSpaces(b) && AllSpaces(c) && AllSpaces(d)
      && ToLower(word) == (if enabled then "true" else "false")
  }

  function Print(sp: Spelling): string {
    match sp
    case Blank(spaces) => spaces
    case Bare(flag, before, after) => before + Name(flag) + after
    case Pair(flag, _, word, a, b, c, d) => a + (Name(flag) + b + ['='] + c + word) + d
  }

  function Meaning(sp: Spelling): Option<Mention> {
    match sp
    case Blank(_) => None
    case Bare(flag, _, _) => Some(Mention(flag, true))
    case Pair(flag, enabled, _, _, _, _, _) => Some(Mention(flag, enabled))
  }

  function PrintAll(spellings: seq<Spelling>): seq<string> {
    seq(|spellings|, i requires 0 <= i < |spellings| => Print(spellings[i]))
  }

  /** What the last spelling that mentions `f` says. */
  function LastSaid(spellings: seq<Spelling>, f: Flag): Option<bool> {
    if spellings == [] then None
    else
      var m := Meaning(spellings[|spellings| - 1]);
      if m.Some? && m.value.flag == f then Some(m.value.enabled) else LastSaid(spellings[..|spellings| - 1], f)
  }

  lemma NamesAreClean(f: Flag)
    ensures IsTrimmed(Name(f)) && Name(f) != "" && ',' !in Name(f) && '=' !in Name(f)
    ensures Lookup(Name(f)) == Some(f)
  {
  }

  lemma SpacesAreClean(s: string)
    requires AllSpaces(s)
    ensures ',' !in s && '=' !in s
  {
  }

  lemma WordsAreClean(word: string)
    requires ToLower(word) == "true" || ToLower(word) == "false"
    ensures |word| >= 4 && IsTrimmed(word) && ',' !in word && '=' !in word
  {
    forall i | 0 <= i < |word| ensures !IsSpace(word[i]) && word[i] != ',' && word[i] != '=' {
      assert LowerChar(word[i]) == ToLower(word)[i];
      assert ToLower(word)[i] in "truefals";
    }
  }

  lemma SplitUnpads(name: string, b: string, c: string, word: string)
    requires '=' !in name && AllSpaces(b) && AllSpaces(c) && '=' !in word
    ensures Split(name + b + ['='] + c + word, '=') == [name + b, c + word]
  {
    SpacesAreClean(b);
    SpacesAreClean(c);
    assert name + b + ['='] + c + word == (name + b) + ['='] + (c + word);
    SplitAtFirst(name + b, '=', c + word);
    SplitWithout(c + word, '=');
  }

  /** Parsing an entry recovers what was written, however it is spelled. */
  lemma ParseUndoesPrint(sp: Spelling)
    requires IsSpelling(sp)
    ensures ParseEntry(Print(sp)) == Ok(Meaning(sp))
    ensures ',' !in Print(sp)
  {
    match sp
    case Blank(spaces) =>
      SpacesAreClean(spaces);
      TrimUnpads(spaces, "", "");
      assert spaces + "" + "" == spaces;
    case Bare(flag, before, after) =>
      NamesAreClean(flag);
      SpacesAreClean(before);
      SpacesAreClean(after);
      TrimUnpads(before, Name(flag), after);
      SplitWithout(Name(flag), '=');
      TrimUnpads("", Name(flag), "");
      assert "" + Name(flag) + "" == Name(flag);
    case Pair(flag, _, _, _, _, _, _) =>
      PairParses(sp);
  }

  lemma PairParses(sp: Spelling)
    requires IsSpelling(sp) && sp.Pair?
    ensures ParseEntry(Print(sp)) == Ok(Some(Mention(sp.flag, sp.enabled)))
    ensures ',' !in Print(sp)
  {
    var name, b, c, word := Name(sp.flag), sp.beforeSign, sp.afterSign, sp.word;
    NamesAreClean(sp.flag);
    WordsAreClean(word);
    SpacesAreClean(sp.before);
    SpacesAreClean(b);
    SpacesAreClean(c);
    SpacesAreClean(sp.after);
    var core := name + b + ['='] + c + word;
    assert core[0] == name[0] && core[|core| - 1] == word[|word| - 1];
    TrimUnpads(sp.before, core, sp.after);
    SplitUnpads(name, b, c, word);
    TrimUnpads("", name, b);
    assert "" + name + b == name + b;
    TrimUnpads(c, word, "");
    assert c + word + "" == c + word;
  }

  lemma {:induction false} LastMentionIsLastSaid(spellings: seq<Spelling>, f: Flag)
    requires forall i :: 0 <= i < |spellings| ==> IsSpelling(spellings[i])
    ensures LastMention(PrintAll(spellings), f) == LastSaid(spellings, f)
  {
    if spellings != [] {
      var n := |spellings| - 1;
      assert PrintAll(spellings)[..n] == PrintAll(spellings[..n]);
      ParseUndoesPrint(spellings[n]);
      LastMentionIsLastSaid(spellings[..n], f);
    }
  }

  /**
   * Printing undone by parsing: any list of spellings, with blank entries, blanks around
   * the parts, any case and earlier mentions that are overruled, parses without error,
   * and every flag gets what its last spelling says.
   */
  lemma ParseRecoversPrinted(spellings: seq<Spelling>, f: Flag)
    requires spellings != [] && forall i :: 0 <= i < |spellings| ==> IsSpelling(spellings[i])
    ensures var entries := Split(Join(PrintAll(spellings), ','), ',');
            && AllParse(entries)
            && Resolve(entries, map[], f) == match LastSaid(spellings, f)
                                             case Some(enabled) => enabled
                                             case None => DefaultOf(f)
  {
    forall i | 0 <= i < |spellings| ensures ParseEntry(PrintAll(spellings)[i]).Ok? && ',' !in PrintAll(spellings)[i] {
      ParseUndoesPrint(spellings[i]);
    }
    SplitUndoesJoin(PrintAll(spellings), ',');
    LastMentionIsLastSaid(spellings, f);
  }
}
