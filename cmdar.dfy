/**
  The module-level helpers of cmdar.py: deriving the `-x`/`--name` aliases of
  a parameter (always prefixed, no deduplication) and picking its primary
  short and long alias (an alias is long exactly when it starts with `--`).
*/
module Cmdar {
  import opened Outcomes
  import opened Sequences
  import opened AliasSpec

  /**
    Builds the alias list by appending: the short alias, the long alias, then
    each non-empty extra alias (`-e` for one character, `--e` for more).
    Fails on an empty name, a short name that is not one character, a long
    name that is not longer than one, or an empty result.
  */
  method CreateAliases(name: string, shortName: string, longName: string, otherAliases: seq<string>,
                       createShortNameIfAbsent: bool, createLongNameIfAbsent: bool)
    returns (r: Result<seq<string>, ConfigError>)
    ensures r == RawAliases(name, shortName, longName, otherAliases,
                            createShortNameIfAbsent, createLongNameIfAbsent, true)
  {
    if name == "" {
      return Err(EmptyName);
    }
    var aliases: seq<string> := [];
    if shortName != "" {
      if |shortName| != 1 {
        return Err(ShortNameLength);
      }
      aliases := aliases + ["-" + shortName];
    } else if createShortNameIfAbsent {
      aliases := aliases + ["-" + name[..1]];
    }
    if longName != "" {
      if |longName| <= 1 {
        return Err(LongNameLength);
      }
      aliases := aliases + ["--" + longName];
    } else if createLongNameIfAbsent {
      aliases := aliases + ["--" + name];
    }
    ghost var named := aliases;
    assert named == ShortPart(name, shortName, createShortNameIfAbsent, true)
                  + LongPart(name, longName, createLongNameIfAbsent, true);
    assert otherAliases[..0] == [];
    for i := 0 to |otherAliases|
      invariant aliases == named + OtherPart(otherAliases[..i], true)
    {
      var alias := otherAliases[i];
      ghost var done := OtherPart(otherAliases[..i], true);
      OtherPartSnoc(otherAliases, i, true);
      if alias == "" {
        // the source prints a warning here and skips the entry
        assert done + [] == done;
        continue;
      }
      var wordLength := |alias|;
      if wordLength == 1 {
        AppendAssoc(named, done, ["-" + alias]);
        aliases := aliases + ["-" + alias];
      } else if wordLength > 1 {
        AppendAssoc(named, done, ["--" + alias]);
        aliases := aliases + ["--" + alias];
      }
    }
    assert otherAliases[..|otherAliases|] == otherAliases;
    if aliases == [] {
      return Err(NoAliases);
    }
    return Ok(aliases);
  }

  /** cmdar.py's classification: long exactly when the alias starts with `--`, short otherwise. */
  function Kind(alias: string): (r: AliasKind)
    ensures r != Unreadable
    ensures r == LongKind <==> |alias| >= 2 && alias[0] == '-' && alias[1] == '-'
  {
    if HasLongPrefix(alias) then LongKind else ShortKind
  }

  /**
    The first long and the first short alias, in their order in the list:
    never fails, and the scan stops once it holds one of each.
  */
  method MainAliases(aliases: seq<string>) returns (al: seq<string>)
    ensures Some(al) == Picks(Kind, aliases, false, false)
    ensures al == InOrder(aliases, FirstOf(Kind, aliases, LongKind), FirstOf(Kind, aliases, ShortKind))
  {
    al := [];
    var hasShortAlias, hasLongAlias := false, false;
    assert aliases[0..] == aliases;
    ExtendEmpty(Picks(Kind, aliases, false, false));
    var i := 0;
    while i < |aliases|
      invariant i <= |aliases|
      invariant Picks(Kind, aliases, false, false) == Extend(al, Picks(Kind, aliases[i..], hasShortAlias, hasLongAlias))
    {
      if hasShortAlias && hasLongAlias {
        break;
      }
      var alias := aliases[i];
      assert aliases[i..][1..] == aliases[i + 1..];
      i := i + 1;
      var isLongName := HasLongPrefix(alias);
      if isLongName {
        if hasLongAlias {
          continue;
        }
        hasLongAlias := true;
      } else {
        if hasShortAlias {
          continue;
        }
        hasShortAlias := true;
      }
      ExtendTwice(al, [alias], Picks(Kind, aliases[i..], hasShortAlias, hasLongAlias));
      al := al + [alias];
    }
    assert Picks(Kind, aliases[i..], hasShortAlias, hasLongAlias) == Some([]);
    assert al + [] == al;
    PicksIsPrimary(Kind, aliases, false, false);
    assert FirstOf(Kind, aliases, Unreadable) == |aliases|;
  }

  /** cmdar.py never fails to pick: at most one long and one short alias, each the first of its kind. */
  lemma PrimaryAliasesAreFirsts(aliases: seq<string>)
    ensures Picks(Kind, aliases, false, false).Some?
    ensures var r := Picks(Kind, aliases, false, false).value;
            |r| <= 2 && IsSubsequence(r, aliases) &&
            (|r| == 2 ==> HasLongPrefix(r[0]) != HasLongPrefix(r[1])) &&
            (forall a :: a in aliases && HasLongPrefix(a) ==> exists b :: b in r && HasLongPrefix(b)) &&
            (forall a :: a in aliases && !HasLongPrefix(a) ==> exists b :: b in r && !HasLongPrefix(b)) &&
            (aliases == [] ==> r == [])
  {
    PicksIsPrimary(Kind, aliases, false, false);
    assert FirstOf(Kind, aliases, Unreadable) == |aliases|;
    PrimaryShape(Kind, aliases);
    var r := Picks(Kind, aliases, false, false).value;
    forall a | a in aliases && HasLongPrefix(a)
      ensures exists b :: b in r && HasLongPrefix(b)
    {
      var l := FirstOf(Kind, aliases, LongKind);
      assert aliases[l] in r && Kind(aliases[l]) == LongKind;
    }
    forall a | a in aliases && !HasLongPrefix(a)
      ensures exists b :: b in r && !HasLongPrefix(b)
    {
      var h := FirstOf(Kind, aliases, ShortKind);
      assert aliases[h] in r && Kind(aliases[h]) == ShortKind;
    }
  }

  /** Derivation never merges repeats: `name = "x"` with extra alias `"x"` keeps `-x` twice. */
  lemma NoDeduplication()
    ensures RawAliases("x", "", "", ["x"], true, true, true) == Ok(["-x", "--x", "-x"])
  {
    assert ["x"][..0] == [];
    assert Prefixed("x", true) == "-x";
    assert "x"[..1] == "x";
    assert ShortPart("x", "", true, true) == ["-x"];
    assert "--" + "x" == "--x";
    assert LongPart("x", "", true, true) == ["--x"];
    assert ["-x"] + ["--x"] + ["-x"] == ["-x", "--x", "-x"];
    assert OtherPart(["x"], true) == ["-x"];
  }
}
