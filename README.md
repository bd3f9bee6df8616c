# cmdar — a verified model of the alias, usage and lookup logic

cmdar is a small, unfinished declarative command-line parser written in Python.
This project models the parts of it that hold real logic. It proves what
each part promises.

- **Alias derivation.** A parameter has a name, an optional one-character
  short name, an optional long name of two or more characters, extra aliases
  and two "create if absent" switches. These become an ordered list of
  `-x` / `--name` aliases. There are two versions:
  - `cmdar.py` always prefixes and keeps repeats. It is modelled in module
    `Cmdar`.
  - `sample/core.py` can emit bare names (`addPrefix` off) and drops repeats,
    keeping first occurrences. It is modelled in module `Core`.

  `Cmdar.CreateAliases` is proved equal to the reference derivation
  `AliasSpec.RawAliases`. `Core.Parameter.CreateAliases` is proved equal to
  `Core.CreatedAliases`, which is `AliasSpec.Dedup` applied to that same
  reference derivation.
  The failed assertions become a `ConfigError`, checked in the source's order:
  empty name, short name length, long name length, empty result.
- **Primary aliases.** This step keeps the first short and the first long alias,
  and stops once it has one of each. The reference is `AliasSpec.Picks`. It is
  parameterised by the classification each version uses:
  - `cmdar.py`: long exactly when the alias starts with `--`;
  - `sample/core.py`: long also when the alias is bare and longer than one
    character; reading an empty alias raises, which happens only when the
    scan reaches it before it has one alias of each kind.

  `AliasSpec.Primary` is a closed form built from the first index of each
  kind. The two are proved to agree.
- **Short/long views** of a parameter's aliases (`short_aliases`,
  `long_aliases`). They are proved to partition the list.
- **Command nodes** (`Command` in `sample/core.py`). The constructor adopts
  each child, collects the parameter children's names and sets the
  has-flags / has-options / has-subcommands switches. It then builds the
  `Usage: ...` text, with seven spaces after every line break.
- **Lookups and the token scanner** of `sample/base.py`:
  - the `ArgumentContext` accessors;
  - `Option.value` / `values`;
  - `__Runner.flags_and_options`.

Modules:
- `Outcomes`: `Option` and `Result`.
- `Sequences`: subsequences, `Filter`, small list facts.
- `AliasSpec`: the reference derivation, deduplication and primary-alias
  selection, with their properties.
- `Cmdar`: `cmdar.py`.
- `Core`: `sample/core.py`.
- `Base`: `sample/base.py`.

The loops of the source are methods with loops. Each is proved equal to its
reference function. The objects whose fields the source updates are classes:
`Core.Parameter` and `Core.Command`.

## Model

| member | source | states |
|---|---|---|
| Cmdar.CreateAliases | cmdar.py:4-39 | The appending loop returns exactly the reference derivation with prefixes on: each assertion that fails becomes its error, in source order. |
| AliasSpec.CreateFailsIff | cmdar.py:5-37 | Derivation fails with each error exactly when that check is the first one to fail. This covers the empty name, a short name that is not one character, a long name of at most one character, and no derivable alias. |
| AliasSpec.AliasLayout | cmdar.py:7-39 | A derived list is, in order: the given or created short alias, the given or created long alias, then each non-empty extra alias, prefixed. Its length is the sum of those counts, so nothing is dropped or merged. |
| AliasSpec.OtherPartIsPrefixedNonEmpty | cmdar.py:23-35 | The extra aliases contribute exactly the non-empty entries, in input order, each prefixed by its length. |
| AliasSpec.OtherPartEmptyIff | cmdar.py:23-37 | No extra alias survives exactly when every entry is empty. |
| AliasSpec.PrefixedAliasShapes | cmdar.py:9-35 | With prefixes on, every derived alias is either `-` plus one character or `--` plus at least one character. |
| AliasSpec.BareAliases | sample/core.py:259-284 | With prefixes off, the list holds the raw short name or first letter, the raw long name or name, and the non-empty extra aliases, with no `-` added. |
| Cmdar.NoDeduplication | cmdar.py:7-39 | cmdar.py keeps repeats: name `x` with extra alias `x` gives `-x`, `--x`, `-x`. |
| Cmdar.Kind | cmdar.py:49 | cmdar.py never fails to classify an alias. An alias is long exactly when its first two characters are `--`. |
| Cmdar.MainAliases | cmdar.py:41-59 | The loop returns the reference selection. That equals the first long and the first short alias, in their list order. |
| Cmdar.PrimaryAliasesAreFirsts | cmdar.py:41-59 | Selection in cmdar.py never fails. It returns at most two aliases, one of each kind, as a subsequence of the input. Each kind present in the input is represented, and an empty input gives an empty result. |
| AliasSpec.PicksIsPrimary | cmdar.py:46-57 | For any classification, the stop-when-both scan equals the closed form: the first alias of each kind still missing, in list order, or a failure if an unclassifiable alias is read first. |
| AliasSpec.PicksIsSubsequence | sample/core.py:211-229 | A successful selection is a subsequence of its input. |
| AliasSpec.PrimaryShape | sample/core.py:206-231 | A successful selection has at most two aliases, of different kinds, none unclassifiable, in input order. The first alias of each kind is among them. |
| Core.Parameter.constructor | sample/core.py:181-185 | A parameter keeps its name and description. An empty alias list falls back to the name, iterated as its characters. |
| Core.Kind | sample/core.py:214-219 | Classification fails exactly on the empty alias, where `alias[0]` raises. An alias is long exactly when it starts with `--`, or when it is longer than one character and does not start with `-`. |
| Core.Parameter.MainAliases | sample/core.py:205-231 | The loop of sample/core.py returns the reference selection under its own classification and its closed form. It fails exactly when the scan reads an empty alias before it has one alias of each kind; an empty alias after that point is never read. |
| Core.Parameter.ShortAliases | sample/core.py:233-240 | Returns the aliases that do not start with `--`, in list order. |
| Core.Parameter.LongAliases | sample/core.py:242-248 | Returns the aliases that start with `--`, in list order. |
| Core.ShortLongPartition | sample/core.py:233-248 | The short and long views together hold every alias exactly once, each in input order, and no alias is in both. |
| Core.Parameter.CreateAliases | sample/core.py:251-287 | The appending loop returns the reference derivation with repeats dropped, or the first failed check. |
| AliasSpec.DedupIsSubsequence | sample/core.py:287 | Dropping repeats keeps a subsequence of the list. |
| AliasSpec.Dedup | sample/core.py:287 | The deduplicated list holds exactly the input's elements, with no repeats. |
| AliasSpec.DedupKeepsFirstOccurrenceOrder | sample/core.py:287 | The deduplicated list orders its elements by where each first occurs in the input. |
| AliasSpec.DedupOfDistinct | sample/core.py:287 | A list without repeats is left unchanged. |
| AliasSpec.DedupIdempotent | sample/core.py:287 | Deduplicating twice is the same as deduplicating once. |
| Core.CreatedAliasesDistinct | sample/core.py:251-287 | The derived list has no repeats and keeps first-occurrence order. It fails exactly when the undeduplicated list does. |
| Core.RepeatedAliasCollapses | sample/core.py:287 | Name `x` with extra alias `x` gives just `-x`, `--x`. |
| Core.RawAliasesNonEmpty | sample/core.py:252-284 | Every alias that derivation emits is non-empty. |
| Core.PicksOfNonEmptySucceeds | sample/core.py:214 | Selection only raises on an empty alias. Over non-empty aliases it always succeeds. |
| Core.PrimaryOfDerivedNeverFails | sample/core.py:205-287 | Selecting the primary aliases of any derived list never raises. |
| Core.AgreesWithCmdarOnPrefixed | sample/core.py:214-219 | On `-`-prefixed aliases the two versions of selection pick the same aliases. |
| Core.VersionsDisagreeOnBareNames | sample/core.py:218-219 | On bare names they differ. For `ab`, `--c`, sample/core.py picks only `ab` (long), while cmdar.py picks both. |
| Core.Command.constructor | sample/core.py:80-121 | The constructor keeps the inputs, defaults the identifier to the name and the type to option, and starts with no parent. Every child's parent becomes the new command, so each child is a sub-command. Of each child, only the parent field may change. It records the parameter children's names and the three has-type switches, and stores the indented usage message. |
| Core.Command.AdoptChildren | sample/core.py:103-115 | After the loop over the children, each has this command as parent. The parameter names are those of the parameter children. Each switch is true exactly when some child has that type. Of each child, only the parent field may change. |
| Core.TypeSeenIff | sample/core.py:105-115 | The in-order scan meets a child of a type exactly when such a child exists. |
| Core.ParamNamesAreParameterChildren | sample/core.py:103-108 | The collected names are the names of the children tagged as parameters, in declaration order. |
| Core.Command.IsSubCommand | sample/core.py:126-128 | A command is a sub-command exactly when its parent is set. Any set parent is a command object, and Python treats every such object as true. |
| Core.Command.SetParent | sample/core.py:123-124 | Sets the parent and nothing else. |
| Core.Command.GenerateUsageInstructions | sample/core.py:138-171 | The stored usage is the indented message. The message is `Usage: `, then any extra info, then a line break if more follows, then the given usage verbatim. If no usage is given but there are children, the derived lines follow instead. |
| Core.Command.DerivedLines | sample/core.py:151-168 | The derived lines are the parameter line `name <p1> <p2>...` when there are parameters, then a line break, then the name, with ` -[flags]` if there are flags and ` <command> [argument]` if there are sub-commands. |
| Core.Indent | sample/core.py:170 | A text without line breaks is unchanged. A text with a line break grows, because spaces are added after each break. |
| Core.IndentRoundTrip | sample/core.py:170 | Removing the seven spaces after each line break gives back the message before indenting. |
| Core.IndentBreaksIndented | sample/core.py:170 | After indenting, every line break is followed by seven spaces. |
| Core.UsageShape | sample/core.py:139-171 | Every usage text starts with `Usage: `, indents every line break, and un-indents to its message. |
| Base.ArgumentContext.IsFlagEnabled | sample/base.py:10-12 | A flag is enabled exactly when it occurs in the enabled list at least once. |
| Base.FlagEnabledIff | sample/base.py:10-12 | A flag is enabled exactly when it appears at some position of the enabled list. |
| Base.ArgumentContext.ValuesOf | sample/base.py:21-25 | Returns nothing exactly when the name is not an option key; otherwise returns the stored list, even an empty one. |
| Base.ArgumentContext.ValueOf | sample/base.py:14-19 | Over the corrected `values_of`, returns a value exactly when the option exists and has values, and that value is the first one. As written, `value_of` calls the faulty `values_of` (sample/base.py:16) and so raises on every call too. |
| Base.ValueOfIsFirstOfValuesOf | sample/base.py:14-19 | `value_of` is the head of what `values_of` returns, and it is present whenever that is non-empty. |
| Base.ValuesOfIgnoresOtherOptions | sample/base.py:21-25 | A lookup does not depend on the values stored under other option names. |
| Base.ArgumentContext.Value | sample/base.py:27-32 | Returns nothing exactly when there are no positional values; otherwise returns the first one. |
| Base.ArgumentContext.Values | sample/base.py:34-39 | Returns nothing exactly when there are no positional values; otherwise returns the list unchanged. |
| Base.ValueIsFirstOfValues | sample/base.py:27-39 | `value` and `values` are absent together, and `value` is the head of `values`. |
| Base.OptionArgument.Value | sample/base.py:97-101 | Returns nothing exactly when the option has no values; otherwise returns the first. |
| Base.OptionArgument.Values | sample/base.py:103-107 | Returns nothing exactly when the option has no values; otherwise returns the list. |
| Base.OptionAgreesWithContext | sample/base.py:97-107 | An option's accessors answer as the context's positional accessors do over the same list. |
| Base.FirstOfAll | sample/base.py:27-39 | The first-value and all-values rules agree: present together, head of the list. |
| Base.FlagsAndOptions | sample/base.py:133-141 | The scanning loop returns the reference scan. Each `-` token is kept once, each `--` token twice, others are dropped, and an empty token fails. |
| Base.ScanFailsIff | sample/base.py:137 | The scan fails exactly when some token is empty (indexing it raises). |
| Base.ScanCounts | sample/base.py:136-140 | The output holds each `-` token once plus each `--` token once more, as multisets. |
| Base.ScanKeepsOrder | sample/base.py:136-140 | The `-` tokens appear in the output in their input order. |
| Base.ScanMembers | sample/base.py:136-140 | A token is in the output exactly when it is an argument starting with `-`. |
| Base.ScanLength | sample/base.py:136-140 | The output length is the number of `-` tokens plus the number of `--` tokens. |
| Base.ScanExample | sample/base.py:133-141 | `-v`, `--out`, `file` scans to `-v`, `--out`, `--out`. |
| Base.ArgumentContext.ValuesOfAsWritten | sample/base.py:21-25 | As written, every lookup raises, because membership is tested against the uncalled `keys` method. |
| Base.ValuesOfAsWrittenFailsOnPresentKey | sample/base.py:23 | Even a present key (`out` mapped to `a.txt`) makes the lookup as written raise. |

## Left out

- The `run` methods of `sample/core.py` and `sample/base.py` have no row. They read the process arguments and loop over `pass`, so there is nothing to state.
- The module-level `print(argv)` in `cmdar.py` and the warning printed for an empty extra alias are output only. The model skips the alias silently.
- `__generate_help` is incomplete and returns nothing. The `help` field and the `enableHelp` switch are not modelled.
- The `action` field of a command is not modelled, because nothing reads it.
- The `Action` and `Parameter` base classes, `PositionalParameter`, `NamedParameter`, `Flags` and the empty constructors in `sample/base.py` have no logic and are not modelled.
- The `Flag`/`Option` constructors of `sample/core.py` pass keyword arguments that `create` does not accept. Only the alias derivation they call is modelled (`Core.Parameter.CreateAliases`).
- `valueType` and the `isinstance` assertions are dynamic typing, so they are not modelled. Every alias is a string by its type.
- The `aliases` getter only returns the stored field, which the model reads directly.
- `None` and `""` are the same for the short and long names, so absent means `""`. An absent extra-alias list is `[]`. An option with `None` values is an empty list, because both are falsy in the accessors.
- Core.Command.constructor: the name assertion is a precondition, not an error result. The identifier, type, short and long names come in as inputs, because the source reads them from undefined names. A child's type is a tag with four values.
- Core.Command.constructor: the loop over the children is the method `AdoptChildren`. Python's private field names are plain fields.
- Core.Command.GenerateUsageInstructions: the derived lines are built by `DerivedLines`. The source appends them to the message piece by piece. Concatenation is associative, so the text is the same.
- Core.Command.AdoptChildren: it assumes the command is not its own child. That always holds while it is being constructed.
- There is no token-stream resolver in the source, so none is modelled.

## Findings

| source | as written | input that shows it | evidently intended | confidence | as-written member | corrected member |
|---|---|---|---|---|---|---|
| sample/base.py:23 | `optionName in self.__options.keys` tests membership in the uncalled `keys` method, which raises a TypeError on every call; `value_of` (sample/base.py:16) calls `values_of` and raises with it | options `{"out": ["a.txt"]}`, `values_of("out")` | test membership in the option keys: nothing for an unknown name, else the stored list | high, not executed | Base.ArgumentContext.ValuesOfAsWritten (shown by Base.ValuesOfAsWrittenFailsOnPresentKey) | Base.ArgumentContext.ValuesOf |
