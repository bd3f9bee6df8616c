/**
  sample/core.py: a parameter's alias list (derived with deduplication and an
  optional prefix, its primary aliases, its short/long partition) and a
  command node that adopts its children, classifies them and builds its
  `Usage: ...` line.
*/
module Core {
  import opened Outcomes
  import opened Sequences
  import opened AliasSpec
  import Cmdar

  /** Each character of `name` as a one-character string: what iterating a Python string yields. */
  function Characters(name: string): (r: seq<string>)
    ensures |r| == |name|
    ensures forall k :: 0 <= k < |r| ==> r[k] == [name[k]]
  {
    seq(|name|, k requires 0 <= k < |name| => [name[k]])
  }

  /**
    sample/core.py's classification: an alias starting with `-` is long when it
    starts with `--`; one without a `-` is long when longer than one
    character; reading the first character of an empty alias raises.
  */
  function Kind(alias: string): (r: AliasKind)
    ensures r == Unreadable <==> alias == ""
    ensures r == LongKind <==> HasLongPrefix(alias) || (alias != "" && alias[0] != '-' && |alias| > 1)
  {
    if alias == "" then Unreadable
    else if alias[0] == '-' then (if HasLongPrefix(alias) then LongKind else ShortKind)
    else if |alias| > 1 then LongKind
    else ShortKind
  }

  /** `short_aliases` keeps an alias unless it starts with `--`. */
  predicate IsShortAlias(alias: string) {
    !HasLongPrefix(alias)
  }

  /** `long_aliases` keeps an alias exactly when it starts with `--`. */
  predicate IsLongAlias(alias: string) {
    HasLongPrefix(alias)
  }

  /** The derived alias list: the raw list with repeats dropped, or the first failed check. */
  function CreatedAliases(name: string, shortName: string, longName: string, others: seq<string>,
                          createShort: bool, createLong: bool, addPrefix: bool): Result<seq<string>, ConfigError>
  {
    match RawAliases(name, shortName, longName, others, createShort, createLong, addPrefix)
    case Ok(all) => Ok(Dedup(all))
    case Err(e) => Err(e)
  }

  /** A parameter (flag or option) and the views of its alias list. */
  class Parameter {
    const name: string
    const description: string
    /** The aliases the getters iterate over. */
    const aliases: seq<string>

    /** `create`: an empty alias list falls back to the name, whose characters are then the aliases iterated. */
    constructor (name: string, description: string, aliases: seq<string>)
      ensures this.name == name && this.description == description
      ensures this.aliases == if aliases == [] then Characters(name) else aliases
    {
      this.name := name;
      this.description := description;
      this.aliases := if aliases == [] then Characters(name) else aliases;
    }

    /**
      First short and first long alias, in list order; `None` where the source
      raises `IndexError`, i.e. an empty alias reached before one of each kind.
    */
    method MainAliases() returns (al: Option<seq<string>>)
      ensures al == Picks(Kind, aliases, false, false)
      ensures al == Primary(Kind, aliases, false, false)
    {
      PicksIsPrimary(Kind, aliases, false, false);
      var kept: seq<string> := [];
      var hasShortAlias, hasLongAlias := false, false;
      assert aliases[0..] == aliases;
      ExtendEmpty(Picks(Kind, aliases, false, false));
      var i := 0;
      while i < |aliases|
        invariant i <= |aliases|
        invariant Picks(Kind, aliases, false, false) == Extend(kept, Picks(Kind, aliases[i..], hasShortAlias, hasLongAlias))
      {
        if hasShortAlias && hasLongAlias {
          break;
        }
        var alias := aliases[i];
        assert aliases[i..][1..] == aliases[i + 1..];
        if alias == "" {
          // `alias[0]` raises IndexError
          return None;
        }
        i := i + 1;
        var hasPrefix := alias[0] == '-';
        var isLongName := false;
        if hasPrefix {
          isLongName := HasLongPrefix(alias);
        } else {
          isLongName := |alias| > 1;
        }
        if isLongName {
          if hasLongAlias {
            continue;
          }
          hasLongAlias := true;
        } else {
          if hasShortAlias {
            continue;
          }
          hasShortAlias := true;
        }
        ExtendTwice(kept, [alias], Picks(Kind, aliases[i..], hasShortAlias, hasLongAlias));
        kept := kept + [alias];
      }
      assert Picks(Kind, aliases[i..], hasShortAlias, hasLongAlias) == Some([]);
      assert kept + [] == kept;
      al := Some(kept);
    }

    /** The aliases not starting with `--`, in list order. */
    method ShortAliases() returns (sa: seq<string>)
      ensures sa == Filter(aliases, IsShortAlias)
    {
      sa := [];
      for i := 0 to |aliases|
        invariant sa == Filter(aliases[..i], IsShortAlias)
      {
        var alias := aliases[i];
        assert aliases[..i + 1][..i] == aliases[..i];
        var add := if |alias| == 1 then true else !HasLongPrefix(alias);
        if add {
          sa := sa + [alias];
        }
      }
      assert aliases[..|aliases|] == aliases;
    }

    /** The aliases starting with `--`, in list order. */
    method LongAliases() returns (la: seq<string>)
      ensures la == Filter(aliases, IsLongAlias)
    {
      la := [];
      for i := 0 to |aliases|
        invariant la == Filter(aliases[..i], IsLongAlias)
      {
        var alias := aliases[i];
        assert aliases[..i + 1][..i] == aliases[..i];
        if HasLongPrefix(alias) {
          la := la + [alias];
        }
      }
      assert aliases[..|aliases|] == aliases;
    }

    /**
      Derives the alias list by appending (prefixed or bare), then drops
      repeats keeping first occurrences; fails like cmdar.py's version.
    */
    static method CreateAliases(name: string, shortName: string, longName: string, otherAliases: seq<string>,
                                createShortNameIfAbsent: bool, createLongNameIfAbsent: bool, addPrefix: bool)
      returns (r: Result<seq<string>, ConfigError>)
      ensures r == CreatedAliases(name, shortName, longName, otherAliases,
                                  createShortNameIfAbsent, createLongNameIfAbsent, addPrefix)
    {
      if name == "" {
        return Err(EmptyName);
      }
      var aliases: seq<string> := [];
      if shortName != "" {
        if |shortName| != 1 {
          return Err(ShortNameLength);
        }
        aliases := aliases + [if addPrefix then "-" + shortName else shortName];
      } else if createShortNameIfAbsent {
        aliases := aliases + [if addPrefix then "-" + name[..1] else name[..1]];
      }
      if longName != "" {
        if |longName| <= 1 {
          return Err(LongNameLength);
        }
        aliases := aliases + [if addPrefix then "--" + longName else longName];
      } else if createLongNameIfAbsent {
        aliases := aliases + [if addPrefix then "--" + name else name];
      }
      ghost var named := aliases;
      assert named == ShortPart(name, shortName, createShortNameIfAbsent, addPrefix)
                    + LongPart(name, longName, createLongNameIfAbsent, addPrefix);
      assert otherAliases[..0] == [];
      for i := 0 to |otherAliases|
        invariant aliases == named + OtherPart(otherAliases[..i], addPrefix)
      {
        var alias := otherAliases[i];
        ghost var done := OtherPart(otherAliases[..i], addPrefix);
        OtherPartSnoc(otherAliases, i, addPrefix);
        if alias == "" {
          // the source prints a warning here and skips the entry
          assert done + [] == done;
          continue;
        }
        var entry := alias;
        if addPrefix {
          var wordLength := |alias|;
          var prefix := if wordLength == 1 then "-" else "--";
          entry := prefix + alias;
        }
        assert entry == Prefixed(alias, addPrefix);
        AppendAssoc(named, done, [entry]);
        aliases := aliases + [entry];
      }
      assert otherAliases[..|otherAliases|] == otherAliases;
      if aliases == [] {
        return Err(NoAliases);
      }
      return Ok(Dedup(aliases));
    }
  }

  /**
    `short_aliases` and `long_aliases` partition the alias list: together they
    hold every alias exactly as often as the list does, each keeps list order,
    and no alias is in both.
  */
  lemma ShortLongPartition(aliases: seq<string>)
    ensures multiset(Filter(aliases, IsShortAlias)) + multiset(Filter(aliases, IsLongAlias)) == multiset(aliases)
    ensures IsSubsequence(Filter(aliases, IsShortAlias), aliases)
    ensures IsSubsequence(Filter(aliases, IsLongAlias), aliases)
    ensures forall a :: a in aliases ==> (a in Filter(aliases, IsShortAlias) <==> a !in Filter(aliases, IsLongAlias))
  {
    FilterPartition(aliases, IsShortAlias, IsLongAlias);
    FilterIsSubsequence(aliases, IsShortAlias);
    FilterIsSubsequence(aliases, IsLongAlias);
  }

  /** Derivation drops repeats and fails exactly as the undeduplicated list does. */
  lemma {:induction false} CreatedAliasesDistinct(name: string, shortName: string, longName: string, others: seq<string>,
                                                  createShort: bool, createLong: bool, addPrefix: bool)
    ensures var raw := RawAliases(name, shortName, longName, others, createShort, createLong, addPrefix);
            var r := CreatedAliases(name, shortName, longName, others, createShort, createLong, addPrefix);
            r.Err? == raw.Err? && (r.Err? ==> r.error == raw.error) &&
            (r.Ok? ==>
              r.value != [] &&
              (forall i, j :: 0 <= i < j < |r.value| ==> r.value[i] != r.value[j]) &&
              (forall x :: x in r.value <==> x in raw.value) &&
              IsSubsequence(r.value, raw.value) &&
              (forall i, j :: 0 <= i < j < |r.value| ==>
                 IndexOf(raw.value, r.value[i]) < IndexOf(raw.value, r.value[j])))
  {
    var raw := RawAliases(name, shortName, longName, others, createShort, createLong, addPrefix);
    if raw.Ok? {
      DedupIsSubsequence(raw.value);
      DedupKeepsFirstOccurrenceOrder(raw.value);
      assert raw.value[0] in Dedup(raw.value);
    }
  }

  /** A name repeated as an extra alias collapses to one entry. */
  lemma RepeatedAliasCollapses()
    ensures CreatedAliases("x", "", "", ["x"], true, true, true) == Ok(["-x", "--x"])
  {
    Cmdar.NoDeduplication();
    var one, two, three := ["-x"], ["-x", "--x"], ["-x", "--x", "-x"];
    assert one[..0] == [];
    assert Dedup(one) == [] + one;
    assert "-x"[1] != "--x"[1];
    assert "--x" !in one;
    assert two[..1] == one;
    assert Dedup(two) == one + ["--x"];
    assert three[..2] == two && three[2] == "-x";
    assert "-x" in two;
    assert Dedup(three) == two;
  }

  /** Every alias derivation emits is non-empty. */
  lemma RawAliasesNonEmpty(name: string, shortName: string, longName: string, others: seq<string>,
                           createShort: bool, createLong: bool, addPrefix: bool)
    requires RawAliases(name, shortName, longName, others, createShort, createLong, addPrefix).Ok?
    ensures forall a :: a in RawAliases(name, shortName, longName, others, createShort, createLong, addPrefix).value ==> a != ""
  {
    var sp, lp := ShortPart(name, shortName, createShort, addPrefix), LongPart(name, longName, createLong, addPrefix);
    assert forall a :: a in sp ==> a != "";
    assert forall a :: a in lp ==> a != "";
    OtherPartNonEmpty(others, addPrefix);
  }

  /** Selection only raises on an empty alias: over non-empty aliases it always succeeds. */
  lemma {:induction false} PicksOfNonEmptySucceeds(s: seq<string>, seenShort: bool, seenLong: bool)
    requires forall a :: a in s ==> a != ""
    ensures Picks(Kind, s, seenShort, seenLong).Some?
    decreases |s|
  {
    if !(seenShort && seenLong) && s != [] {
      assert s[0] in s;
      assert forall a :: a in s[1..] ==> a in s;
      PicksOfNonEmptySucceeds(s[1..], seenShort || Kind(s[0]) == ShortKind, seenLong || Kind(s[0]) == LongKind);
    }
  }

  /** Every derived alias is non-empty, so selecting the primary aliases of a derived list never raises. */
  lemma PrimaryOfDerivedNeverFails(name: string, shortName: string, longName: string, others: seq<string>,
                                   createShort: bool, createLong: bool, addPrefix: bool)
    requires CreatedAliases(name, shortName, longName, others, createShort, createLong, addPrefix).Ok?
    ensures Picks(Kind, CreatedAliases(name, shortName, longName, others, createShort, createLong, addPrefix).value,
                  false, false).Some?
  {
    RawAliasesNonEmpty(name, shortName, longName, others, createShort, createLong, addPrefix);
    var raw := RawAliases(name, shortName, longName, others, createShort, createLong, addPrefix).value;
    PicksOfNonEmptySucceeds(Dedup(raw), false, false);
  }

  /** Two kind functions that agree on a list find the same first positions. */
  lemma {:induction false} FirstOfAgree(k1: string -> AliasKind, k2: string -> AliasKind, s: seq<string>, k: AliasKind)
    requires forall a :: a in s ==> k1(a) == k2(a)
    ensures FirstOf(k1, s, k) == FirstOf(k2, s, k)
  {
    if s != [] {
      FirstOfAgree(k1, k2, s[1..], k);
    }
  }

  /** On `-`-prefixed aliases the two versions of primary-alias selection pick the same aliases. */
  lemma AgreesWithCmdarOnPrefixed(aliases: seq<string>)
    requires forall a :: a in aliases ==> a != "" && a[0] == '-'
    ensures Picks(Kind, aliases, false, false) == Picks(Cmdar.Kind, aliases, false, false)
  {
    PicksIsPrimary(Kind, aliases, false, false);
    PicksIsPrimary(Cmdar.Kind, aliases, false, false);
    FirstOfAgree(Kind, Cmdar.Kind, aliases, LongKind);
    FirstOfAgree(Kind, Cmdar.Kind, aliases, ShortKind);
    FirstOfAgree(Kind, Cmdar.Kind, aliases, Unreadable);
  }

  /** On unprefixed names the versions differ: sample/core.py counts `ab` as long, cmdar.py as short. */
  lemma VersionsDisagreeOnBareNames()
    ensures Picks(Kind, ["ab", "--c"], false, false) == Some(["ab"])
    ensures Picks(Cmdar.Kind, ["ab", "--c"], false, false) == Some(["ab", "--c"])
  {
    var s := ["ab", "--c"];
    assert s[1..] == ["--c"] && s[1..][1..] == [];
    assert "ab"[..2][0] == 'a';
    assert "--c"[..2] == "--";
    assert HasLongPrefix("--c") && !HasLongPrefix("ab");
    assert Kind("ab") == LongKind && Kind("--c") == LongKind;
    assert Picks(Kind, s[1..], false, true) == Some([]);
    assert ["ab"] + [] == ["ab"];
    assert Cmdar.Kind("ab") == ShortKind && Cmdar.Kind("--c") == LongKind;
    assert Picks(Cmdar.Kind, s[1..][1..], true, true) == Some([]);
    assert ["--c"] + [] == ["--c"];
    assert Picks(Cmdar.Kind, s[1..], true, false) == Some(["--c"]);
    assert ["ab"] + ["--c"] == s;
  }

  /** The type tag of a command's child: option, flag, positional parameter, or any other (a sub-command). */
  datatype CommandType = OptionCommand | FlagCommand | ParameterCommand | SubCommand

  predicate IsParameter(c: Command) {
    c.commandType == ParameterCommand
  }

  /** Some command in `cs` has type tag `t`. */
  predicate AnyOfType(cs: seq<Command>, t: CommandType) {
    exists c :: c in cs && c.commandType == t
  }

  /** Whether a scan of `cs` in order meets a child of type `t`. */
  function TypeSeen(cs: seq<Command>, t: CommandType): bool {
    cs != [] && (TypeSeen(cs[..|cs| - 1], t) || cs[|cs| - 1].commandType == t)
  }

  /** The scan meets a child of type `t` exactly when there is one. */
  lemma {:induction false} TypeSeenIff(cs: seq<Command>, t: CommandType)
    ensures TypeSeen(cs, t) <==> AnyOfType(cs, t)
  {
    if cs != [] {
      var front, last := cs[..|cs| - 1], cs[|cs| - 1];
      TypeSeenIff(front, t);
      assert cs == front + [last];
      if AnyOfType(cs, t) && last.commandType != t {
        var d :| d in cs && d.commandType == t;
        assert d in front;
      }
    }
  }

  /** The names of some commands, in order. */
  function Names(cs: seq<Command>): (r: seq<string>)
    ensures |r| == |cs|
    ensures forall k :: 0 <= k < |cs| ==> r[k] == cs[k].name
  {
    seq(|cs|, k requires 0 <= k < |cs| => cs[k].name)
  }

  /** The names of the positional-parameter children, in declaration order. */
  function ParamNames(cs: seq<Command>): seq<string> {
    if cs == [] then []
    else ParamNames(cs[..|cs| - 1]) + (if IsParameter(cs[|cs| - 1]) then [cs[|cs| - 1].name] else [])
  }

  /** `ParamNames` lists exactly the names of the children tagged as parameters, in order. */
  lemma {:induction false} ParamNamesAreParameterChildren(cs: seq<Command>)
    ensures ParamNames(cs) == Names(Filter(cs, IsParameter))
  {
    if cs != [] {
      var front, last := cs[..|cs| - 1], cs[|cs| - 1];
      ParamNamesAreParameterChildren(front);
      var f := Filter(front, IsParameter);
      if IsParameter(last) {
        assert Names(f + [last]) == Names(f) + [last.name];
      } else {
        assert f + [] == f;
      }
    }
  }

  /** Python's `s.replace('\n', '\n       ')`: seven spaces after every line break. */
  function Indent(s: string): (r: string)
    ensures '\n' !in s ==> r == s
    ensures '\n' in s ==> |r| > |s|
  {
    if s == [] then []
    else (if s[0] == '\n' then "\n       " else [s[0]]) + Indent(s[1..])
  }

  /** Undoes `Indent`: drops the seven spaces after every line break. */
  function Unindent(t: string): string
    decreases |t|
  {
    if t == [] then []
    else if |t| >= 8 && t[..8] == "\n       " then "\n" + Unindent(t[8..])
    else [t[0]] + Unindent(t[1..])
  }

  /** ` <p1> <p2> ...` for the parameter names. */
  function ParamList(params: seq<string>): string {
    if params == [] then ""
    else ParamList(params[..|params| - 1]) + (" <" + params[|params| - 1] + ">")
  }

  /** The usage lines derived from the children when no usage text is given. */
  function GeneratedUsage(name: string, params: seq<string>, hasFlags: bool, hasSubcommands: bool): string {
    (if params != [] then name + ParamList(params) + "\n" else "")
    + name
    + (if hasFlags then " -[flags]" else "")
    + (if hasSubcommands then " <command> [argument]" else "")
  }

  /** The usage message before indenting. */
  function UsageMessage(name: string, usage: string, info: string, hasChildren: bool,
                        params: seq<string>, hasFlags: bool, hasSubcommands: bool): string
  {
    "Usage: "
    + (if info == "" then "" else info + (if usage != "" || hasChildren then "\n" else ""))
    + (if usage != "" then usage
       else if hasChildren then GeneratedUsage(name, params, hasFlags, hasSubcommands)
       else "")
  }

  lemma {:induction false} IndentConcat(a: string, b: string)
    ensures Indent(a + b) == Indent(a) + Indent(b)
    decreases |a|
  {
    if a == [] {
      assert a + b == b;
    } else {
      assert (a + b)[0] == a[0];
      assert (a + b)[1..] == a[1..] + b;
      var head := if a[0] == '\n' then "\n       " else [a[0]];
      assert Indent(a + b) == head + Indent(a[1..] + b);
      IndentConcat(a[1..], b);
      AppendAssoc(head, Indent(a[1..]), Indent(b));
    }
  }

  /** Un-indenting gives back the text before `Indent`. */
  lemma {:induction false} IndentRoundTrip(s: string)
    ensures Unindent(Indent(s)) == s
  {
    if s != [] {
      IndentRoundTrip(s[1..]);
      var t := Indent(s);
      if s[0] == '\n' {
        assert t[..8] == "\n       ";
        assert t[8..] == Indent(s[1..]);
      } else {
        assert t[0] == s[0];
        assert t[1..] == Indent(s[1..]);
      }
    }
  }

  /** Every line break is followed by seven spaces. */
  predicate BreaksIndented(t: string) {
    forall k :: 0 <= k < |t| && t[k] == '\n' ==> k + 8 <= |t| && t[k + 1..k + 8] == "       "
  }

  lemma {:induction false} IndentBreaksIndented(s: string)
    ensures BreaksIndented(Indent(s))
  {
    if s != [] {
      IndentBreaksIndented(s[1..]);
      var head := if s[0] == '\n' then "\n       " else [s[0]];
      var rest := Indent(s[1..]);
      var t := head + rest;
      assert t == Indent(s);
      forall k | 0 <= k < |t| && t[k] == '\n'
        ensures k + 8 <= |t| && t[k + 1..k + 8] == "       "
      {
        if k < |head| {
          assert k == 0;
          assert t[1..8] == head[1..8];
        } else {
          var j := k - |head|;
          assert rest[j] == '\n';
          assert t[k + 1..k + 8] == rest[j + 1..j + 8];
        }
      }
    }
  }

  /**
    The stored usage starts with `Usage: `, has seven spaces after every line
    break, and un-indenting it gives back the assembled message.
  */
  lemma UsageShape(name: string, usage: string, info: string, hasChildren: bool,
                   params: seq<string>, hasFlags: bool, hasSubcommands: bool)
    ensures var m := UsageMessage(name, usage, info, hasChildren, params, hasFlags, hasSubcommands);
            var u := Indent(m);
            |u| >= 7 && u[..7] == "Usage: " && BreaksIndented(u) && Unindent(u) == m
  {
    var m := UsageMessage(name, usage, info, hasChildren, params, hasFlags, hasSubcommands);
    var prefix := "Usage: ";
    assert m == prefix + m[7..];
    IndentConcat(prefix, m[7..]);
    assert Indent(prefix) == prefix;
    IndentBreaksIndented(m);
    IndentRoundTrip(m);
  }

  /** A node of the command tree. */
  class Command {
    const name: string
    const identifier: string
    const description: string
    const commandType: CommandType
    const shortName: string
    const longName: string
    const commands: seq<Command>
    var parent: Command?
    var hasFlags: bool
    var hasSubcommands: bool
    var hasOptions: bool
    var paramNames: seq<string>
    var usage: string

    /** `is_sub_command`: a command is a sub-command exactly when a parent adopted it. */
    predicate IsSubCommand()
      reads this
      ensures IsSubCommand() <==> parent != null
    {
      parent != null
    }

    /**
      Adopts every child, records the names of the positional-parameter
      children in order and whether any child is a flag, an option or a
      sub-command, then builds the usage line.
    */
    constructor (name: string, description: string, usage: string, commands: seq<Command>,
                 additionalUsageInfo: string, identifier: string, commandType: Option<CommandType>,
                 shortName: string, longName: string)
      requires name != ""
      modifies commands`parent
      ensures this.name == name && this.description == description
      ensures this.identifier == if identifier == "" then name else identifier
      ensures this.commandType == if commandType.Some? then commandType.value else OptionCommand
      ensures this.shortName == shortName && this.longName == longName && this.commands == commands
      ensures parent == null && !IsSubCommand()
      ensures forall c :: c in commands ==> c.parent == this && c.IsSubCommand()
      ensures paramNames == ParamNames(commands)
      ensures hasFlags == AnyOfType(commands, FlagCommand)
      ensures hasOptions == AnyOfType(commands, OptionCommand)
      ensures hasSubcommands == AnyOfType(commands, SubCommand)
      ensures this.usage == Indent(UsageMessage(name, usage, additionalUsageInfo, commands != [],
                                                paramNames, hasFlags, hasSubcommands))
    {
      this.name := name;
      this.identifier := if identifier == "" then name else identifier;
      this.description := description;
      this.commandType := if commandType.Some? then commandType.value else OptionCommand;
      this.shortName := shortName;
      this.longName := longName;
      this.commands := commands;
      parent := null;
      hasFlags, hasSubcommands, hasOptions := false, false, false;
      paramNames := [];
      this.usage := "";
      new;
      AdoptChildren();
      GenerateUsageInstructions(usage, additionalUsageInfo);
    }

    /**
      The constructor's pass over the children: sets each child's parent to
      this command, appends the name of each parameter child, and notes
      whether a flag, an option or another kind of child was met.
    */
    method AdoptChildren()
      requires this !in commands && paramNames == [] && !hasFlags && !hasOptions && !hasSubcommands
      modifies commands`parent, this`paramNames, this`hasFlags, this`hasOptions, this`hasSubcommands
      ensures forall c :: c in commands ==> c.parent == this
      ensures paramNames == ParamNames(commands)
      ensures hasFlags == AnyOfType(commands, FlagCommand)
      ensures hasOptions == AnyOfType(commands, OptionCommand)
      ensures hasSubcommands == AnyOfType(commands, SubCommand)
    {
      for i := 0 to |commands|
        invariant forall k :: 0 <= k < i ==> commands[k].parent == this
        invariant paramNames == ParamNames(commands[..i])
        invariant hasFlags == TypeSeen(commands[..i], FlagCommand)
        invariant hasOptions == TypeSeen(commands[..i], OptionCommand)
        invariant hasSubcommands == TypeSeen(commands[..i], SubCommand)
      {
        var command := commands[i];
        assert commands[..i + 1][..i] == commands[..i];
        command.SetParent(this);
        if command.commandType == ParameterCommand {
          paramNames := paramNames + [command.name];
        } else if command.commandType == FlagCommand {
          hasFlags := true;
        } else {
          if command.commandType == OptionCommand {
            hasOptions := true;
          } else {
            hasSubcommands := true;
          }
        }
      }
      assert commands[..|commands|] == commands;
      TypeSeenIff(commands, FlagCommand);
      TypeSeenIff(commands, OptionCommand);
      TypeSeenIff(commands, SubCommand);
    }

    /** `__set_parent`. */
    method SetParent(obj: Command)
      modifies this`parent
      ensures parent == obj
    {
      parent := obj;
    }

    /**
      Grows the message: `Usage: `, then the additional info (and a line
      break if more follows), then the given usage text verbatim or, for a
      command with children, the lines derived from its children; finally
      indents every line break by seven spaces.
    */
    method GenerateUsageInstructions(usage: string, additionalUsageInfo: string)
      modifies this`usage
      ensures this.usage == Indent(UsageMessage(name, usage, additionalUsageInfo, commands != [],
                                                paramNames, hasFlags, hasSubcommands))
    {
      var message := "Usage: ";
      if additionalUsageInfo != "" {
        message := message + additionalUsageInfo;
        if usage != "" || commands != [] {
          message := message + "\n";
        }
      }
      ghost var head := message;
      assert head == "Usage: " + (if additionalUsageInfo == "" then ""
                                  else additionalUsageInfo + (if usage != "" || commands != [] then "\n" else ""));
      if usage != "" {
        message := message + usage;
      } else if commands != [] {
        var lines := DerivedLines();
        message := message + lines;
      }
      assert message == UsageMessage(name, usage, additionalUsageInfo, commands != [],
                                     paramNames, hasFlags, hasSubcommands) by {
        assert head + "" == head;
      }
      this.usage := Indent(message);
    }

    /**
      The part of the message derived from the children, in the order the
      usage builder appends it: `name <p1> <p2>...` and a line break when
      there are parameters, then `name`, ` -[flags]` if there are flags and
      ` <command> [argument]` if there are sub-commands.
    */
    method DerivedLines() returns (lines: string)
      requires commands != []
      ensures lines == GeneratedUsage(name, paramNames, hasFlags, hasSubcommands)
    {
      lines := "";
      if paramNames != [] {
        lines := lines + name;
        assert paramNames[..0] == [];
        assert lines == name + ParamList(paramNames[..0]);
        for i := 0 to |paramNames|
          invariant lines == name + ParamList(paramNames[..i])
        {
          var entry := " <" + paramNames[i] + ">";
          assert ParamList(paramNames[..i + 1]) == ParamList(paramNames[..i]) + entry by {
            assert paramNames[..i + 1][..i] == paramNames[..i];
          }
          AppendAssoc(name, ParamList(paramNames[..i]), entry);
          lines := lines + entry;
        }
        assert paramNames[..|paramNames|] == paramNames;
      }
      if commands != [] {
        if paramNames != [] {
          lines := lines + "\n";
        }
        lines := lines + name;
        if hasFlags {
          lines := lines + " -[flags]";
        }
        if hasSubcommands {
          lines := lines + " <command> [argument]";
        }
      }
    }
  }
}
