/**
  The argument accessors and the flag scanner of sample/base.py: what an
  action reads back from a parsed command line, and the loop that picks the
  flag and option tokens out of an argument list.
*/
module Base {
  import opened Outcomes
  import opened Sequences
  import opened AliasSpec

  /** The first of a list of values, or nothing when the list is empty (`None` and `[]` are both falsy). */
  function FirstValue(vs: seq<string>): (r: Option<string>)
    ensures r.None? <==> vs == []
    ensures r.Some? ==> r.value == vs[0] && r.value in vs
  {
    if vs == [] then None else Some(vs[0])
  }

  /** The whole list of values, or nothing when it is empty. */
  function AllValues(vs: seq<string>): (r: Option<seq<string>>)
    ensures r.None? <==> vs == []
    ensures r.Some? ==> r.value == vs
  {
    if vs == [] then None else Some(vs)
  }

  /** The two accessors agree: a first value exists exactly when the list does, and it is the list's head. */
  lemma FirstOfAll(vs: seq<string>)
    ensures FirstValue(vs).Some? <==> AllValues(vs).Some?
    ensures AllValues(vs).Some? ==> FirstValue(vs).value == AllValues(vs).value[0]
  {
  }

  /** The exception `values_of` raises: `x in d.keys` tests membership in an uncalled method object. */
  datatype LookupError = NotIterable

  /**
    What an action is given: the flags that were enabled, the positional
    values in order, and the values given to each option, by option name.
  */
  datatype ArgumentContext = ArgumentContext(enabledFlags: seq<string>, values: seq<string>,
                                             options: map<string, seq<string>>)
  {
    /** Whether the flag was enabled. */
    predicate IsFlagEnabled(flagName: string)
      ensures IsFlagEnabled(flagName) <==> multiset(enabledFlags)[flagName] > 0
    {
      flagName in enabledFlags
    }

    /** The values of an option: nothing when the name is not an option key, else the stored list (possibly empty). */
    function ValuesOf(optionName: string): (r: Option<seq<string>>)
      ensures r.None? <==> optionName !in options
      ensures r.Some? ==> r.value == options[optionName]
    {
      if optionName in options then Some(options[optionName]) else None
    }

    /**
      `values_of` as the source writes it: membership is tested against the
      method `keys` itself, not against its result, so every call raises.
    */
    function ValuesOfAsWritten(optionName: string): (r: Result<Option<seq<string>>, LookupError>)
      ensures r == Err(NotIterable)
    {
      Err(NotIterable)
    }

    /** The value of an option: the first of its values, nothing when it has none or is not an option. */
    function ValueOf(optionName: string): (r: Option<string>)
      ensures r.Some? <==> optionName in options && options[optionName] != []
      ensures r.Some? ==> r.value == options[optionName][0]
    {
      match ValuesOf(optionName)
      case None => None
      case Some(vs) => FirstValue(vs)
    }

    /** The first positional value, nothing when there are none. */
    function Value(): (r: Option<string>)
      ensures r.None? <==> values == []
      ensures r.Some? ==> r.value == values[0]
    {
      FirstValue(values)
    }

    /** The positional values in order, nothing when there are none. */
    function Values(): (r: Option<seq<string>>)
      ensures r.None? <==> values == []
      ensures r.Some? ==> r.value == values
    {
      AllValues(values)
    }
  }

  /** A flag lookup succeeds exactly for names at some position of the enabled list. */
  lemma FlagEnabledIff(c: ArgumentContext, flagName: string)
    ensures c.IsFlagEnabled(flagName) <==> exists k :: 0 <= k < |c.enabledFlags| && c.enabledFlags[k] == flagName
  {
    if c.IsFlagEnabled(flagName) {
      var k :| 0 <= k < |c.enabledFlags| && c.enabledFlags[k] == flagName;
    }
  }

  /** `value_of` reads the head of what `values_of` returns. */
  lemma ValueOfIsFirstOfValuesOf(c: ArgumentContext, optionName: string)
    ensures c.ValueOf(optionName).Some? ==>
              (c.ValuesOf(optionName).Some? && c.ValueOf(optionName).value == c.ValuesOf(optionName).value[0])
    ensures c.ValuesOf(optionName).Some? && c.ValuesOf(optionName).value != [] ==> c.ValueOf(optionName).Some?
  {
  }

  /** `value` and `values` agree: both are absent together, and `value` is the head of `values`. */
  lemma ValueIsFirstOfValues(c: ArgumentContext)
    ensures c.Value().Some? <==> c.Values().Some?
    ensures c.Values().Some? ==> c.Value().value == c.Values().value[0]
  {
  }

  /** A lookup of one option does not depend on the values stored for other options. */
  lemma ValuesOfIgnoresOtherOptions(c: ArgumentContext, optionName: string, other: string, vs: seq<string>)
    requires other != optionName
    ensures c.(options := c.options[other := vs]).ValuesOf(optionName) == c.ValuesOf(optionName)
    ensures c.(options := c.options[other := vs]).ValueOf(optionName) == c.ValueOf(optionName)
  {
  }

  /** As written, `values_of` raises even for an option that was given: the key is present, yet the lookup fails. */
  lemma ValuesOfAsWrittenFailsOnPresentKey()
    ensures var c := ArgumentContext([], [], map["out" := ["a.txt"]]);
            c.ValuesOf("out") == Some(["a.txt"]) && c.ValuesOfAsWritten("out").Err?
  {
  }

  /** An option as sample/base.py declares it: a name and the values given to it (an unset list is empty). */
  datatype OptionArgument = OptionArgument(name: string, values: seq<string>)
  {
    /** The first value, nothing when there are none. */
    function Value(): (r: Option<string>)
      ensures r.None? <==> values == []
      ensures r.Some? ==> r.value == values[0]
    {
      FirstValue(values)
    }

    /** All values in order, nothing when there are none. */
    function Values(): (r: Option<seq<string>>)
      ensures r.None? <==> values == []
      ensures r.Some? ==> r.value == values
    {
      AllValues(values)
    }
  }

  /** An option's accessors answer as the context's positional accessors do for the same list. */
  lemma OptionAgreesWithContext(o: OptionArgument, c: ArgumentContext)
    requires c.values == o.values
    ensures o.Value() == c.Value() && o.Values() == c.Values()
  {
  }

  /** A token that starts with `-`. */
  predicate StartsWithDash(t: string) {
    |t| >= 1 && t[0] == '-'
  }

  /** What the scanner emits for one non-empty token: once if it starts with `-`, once more if with `--`. */
  function Emitted(t: string): seq<string>
    requires t != ""
  {
    (if t[0] == '-' then [t] else []) + (if HasLongPrefix(t) then [t] else [])
  }

  /**
    The outcome of scanning the argument list: the emitted tokens in input
    order, or nothing when some token is empty (indexing its first character
    raises `IndexError`).
  */
  function ScanFlags(arguments: seq<string>): Option<seq<string>>
  {
    if arguments == [] then Some([])
    else
      var t := arguments[|arguments| - 1];
      match ScanFlags(arguments[..|arguments| - 1])
      case None => None
      case Some(flags) => if t == "" then None else Some(flags + Emitted(t))
  }

  /** The scan fails exactly when an empty token is present. */
  lemma {:induction false} ScanFailsIff(arguments: seq<string>)
    ensures ScanFlags(arguments).None? <==> "" in arguments
  {
    if arguments != [] {
      var front := arguments[..|arguments| - 1];
      ScanFailsIff(front);
      assert arguments == front + [arguments[|arguments| - 1]];
    }
  }

  /** Filtering a sequence extended by one element. */
  lemma FilterSnoc(front: seq<string>, t: string, p: string -> bool)
    ensures Filter(front + [t], p) == Filter(front, p) + (if p(t) then [t] else [])
  {
    assert (front + [t])[..|front|] == front;
  }

  /** The last step of a successful scan: what the shorter scan gave, then what the last token emits. */
  lemma ScanStep(arguments: seq<string>, flags: seq<string>)
    requires arguments != [] && ScanFlags(arguments) == Some(flags)
    ensures var front, t := arguments[..|arguments| - 1], arguments[|arguments| - 1];
            ScanFlags(front).Some? && t != "" &&
            flags == ScanFlags(front).value + ((if StartsWithDash(t) then [t] else []) + (if HasLongPrefix(t) then [t] else []))
  {
  }

  /**
    The scan emits every `-` token once and every `--` token once more, and
    nothing else: as multisets, the output is the dash tokens plus the
    double-dash tokens.
  */
  lemma {:induction false} ScanCounts(arguments: seq<string>, flags: seq<string>)
    requires ScanFlags(arguments) == Some(flags)
    ensures multiset(flags) == multiset(Filter(arguments, StartsWithDash)) + multiset(Filter(arguments, HasLongPrefix))
  {
    if arguments == [] {
      assert flags == [];
    } else {
      var front, t := arguments[..|arguments| - 1], arguments[|arguments| - 1];
      assert arguments == front + [t];
      ScanStep(arguments, flags);
      var before := ScanFlags(front).value;
      ScanCounts(front, before);
      var once := if StartsWithDash(t) then [t] else [];
      var twice := if HasLongPrefix(t) then [t] else [];
      var dashes, longs := Filter(front, StartsWithDash), Filter(front, HasLongPrefix);
      FilterSnoc(front, t, StartsWithDash);
      FilterSnoc(front, t, HasLongPrefix);
      calc {
        multiset(flags);
        multiset(before) + multiset(once + twice);
        (multiset(dashes) + multiset(longs)) + (multiset(once) + multiset(twice));
        { MultisetRegroup(multiset(dashes), multiset(longs), multiset(once), multiset(twice)); }
        (multiset(dashes) + multiset(once)) + (multiset(longs) + multiset(twice));
        multiset(dashes + once) + multiset(longs + twice);
      }
    }
  }

  /** The dash tokens are emitted in their input order. */
  lemma {:induction false} ScanKeepsOrder(arguments: seq<string>, flags: seq<string>)
    requires ScanFlags(arguments) == Some(flags)
    ensures IsSubsequence(Filter(arguments, StartsWithDash), flags)
  {
    if arguments != [] {
      var front, t := arguments[..|arguments| - 1], arguments[|arguments| - 1];
      assert arguments == front + [t];
      ScanStep(arguments, flags);
      var before := ScanFlags(front).value;
      ScanKeepsOrder(front, before);
      var once := if StartsWithDash(t) then [t] else [];
      var twice := if HasLongPrefix(t) then [t] else [];
      FilterSnoc(front, t, StartsWithDash);
      assert IsSubsequence(once, once + twice);
      SubsequenceConcat(Filter(front, StartsWithDash), before, once, once + twice);
    }
  }

  /** The emitted tokens are exactly the arguments that start with `-`. */
  lemma {:induction false} ScanMembers(arguments: seq<string>, flags: seq<string>)
    requires ScanFlags(arguments) == Some(flags)
    ensures forall t :: t in flags <==> t in arguments && StartsWithDash(t)
  {
    if arguments != [] {
      var front, last := arguments[..|arguments| - 1], arguments[|arguments| - 1];
      assert arguments == front + [last];
      ScanStep(arguments, flags);
      var before := ScanFlags(front).value;
      ScanMembers(front, before);
      var emitted := (if StartsWithDash(last) then [last] else []) + (if HasLongPrefix(last) then [last] else []);
      forall t
        ensures t in flags <==> t in arguments && StartsWithDash(t)
      {
        assert t in flags <==> t in before || t in emitted;
        assert t in emitted <==> t == last && StartsWithDash(t);
        assert t in arguments <==> t in front || t == last;
      }
    }
  }

  /** One output token per dash token, plus one per double-dash token. */
  lemma ScanLength(arguments: seq<string>, flags: seq<string>)
    requires ScanFlags(arguments) == Some(flags)
    ensures |flags| == |Filter(arguments, StartsWithDash)| + |Filter(arguments, HasLongPrefix)|
  {
    ScanCounts(arguments, flags);
    var dashes, longs := Filter(arguments, StartsWithDash), Filter(arguments, HasLongPrefix);
    calc {
      |flags|;
      |multiset(flags)|;
      |multiset(dashes) + multiset(longs)|;
      |multiset(dashes)| + |multiset(longs)|;
      |dashes| + |longs|;
    }
  }

  /** The flag scanner: one pass over the arguments, appending each `-` token, and each `--` token a second time. */
  method FlagsAndOptions(arguments: seq<string>) returns (r: Option<seq<string>>)
    ensures r == ScanFlags(arguments)
  {
    var flags: seq<string> := [];
    for i := 0 to |arguments|
      invariant ScanFlags(arguments[..i]) == Some(flags)
    {
      var t := arguments[i];
      assert arguments[..i + 1] == arguments[..i] + [t];
      if t == "" {
        ScanFailsIff(arguments);
        return None;
      }
      ghost var before := flags;
      if t[0] == '-' {
        flags := flags + [t];
      }
      if |t| >= 2 && t[..2] == "--" {
        flags := flags + [t];
      }
      assert flags == before + Emitted(t);
      assert arguments[..i + 1][..i] == arguments[..i];
    }
    assert arguments[..|arguments|] == arguments;
    return Some(flags);
  }

  /** A worked scan: a short flag once, a long option twice, a plain value dropped. */
  lemma ScanExample()
    ensures ScanFlags(["-v", "--out", "file"]) == Some(["-v", "--out", "--out"])
  {
    var one, two, three := ["-v"], ["-v", "--out"], ["-v", "--out", "file"];
    assert one[..0] == [];
    assert "-v"[1] == 'v';
    assert Emitted("-v") == ["-v"];
    assert ScanFlags(one) == Some([] + ["-v"]);
    assert [] + ["-v"] == ["-v"];
    assert two[..1] == one;
    assert "--out"[..2] == "--";
    assert Emitted("--out") == ["--out", "--out"];
    assert ScanFlags(two) == Some(["-v"] + ["--out", "--out"]);
    assert three[..2] == two;
    assert two[1] == "--out" && three[2] == "file";
    assert "file"[..2] == "fi";
    assert Emitted("file") == [];
    assert ["-v"] + ["--out", "--out"] == ["-v", "--out", "--out"];
    assert ScanFlags(three) == Some(["-v", "--out", "--out"] + []);
    assert ["-v", "--out", "--out"] + [] == ["-v", "--out", "--out"];
  }
}
