/**
  What alias derivation and primary-alias selection compute, stated once for
  both copies of the code (cmdar.py and sample/core.py), and what is proved
  about it: the layout of a derived alias list, when derivation fails, what
  deduplication keeps, and which aliases are primary.
*/
module AliasSpec {
  import opened Outcomes
  import opened Sequences

  /** The assertion failures of alias derivation, in the order the checks run. */
  datatype ConfigError =
    | EmptyName        // `name` is empty
    | ShortNameLength  // a given short name is not exactly one character long
    | LongNameLength   // a given long name is not longer than one character
    | NoAliases        // nothing was derived

  /** Python's `s[:2] == '--'`, which is false on strings shorter than two characters. */
  predicate HasLongPrefix(s: string) {
    |s| >= 2 && s[..2] == "--"
  }

  predicate IsNonEmpty(s: string) {
    s != ""
  }

  /** An extra alias as derivation emits it: `-e` for one character, `--e` for more, `e` unprefixed. */
  function Prefixed(alias: string, addPrefix: bool): string {
    if !addPrefix then alias else if |alias| == 1 then "-" + alias else "--" + alias
  }

  /** The short alias: the given short name, else the first character of `name` when asked to create one. */
  function ShortPart(name: string, shortName: string, createShort: bool, addPrefix: bool): seq<string>
    requires name != ""
  {
    if shortName != "" then [if addPrefix then "-" + shortName else shortName]
    else if createShort then [if addPrefix then "-" + name[..1] else name[..1]]
    else []
  }

  /** The long alias: the given long name, else `name` itself when asked to create one. */
  function LongPart(name: string, longName: string, createLong: bool, addPrefix: bool): seq<string> {
    if longName != "" then [if addPrefix then "--" + longName else longName]
    else if createLong then [if addPrefix then "--" + name else name]
    else []
  }

  /** The extra aliases in input order, empty entries skipped. */
  function OtherPart(others: seq<string>, addPrefix: bool): seq<string> {
    if others == [] then []
    else
      var last := others[|others| - 1];
      OtherPart(others[..|others| - 1], addPrefix) + (if last == "" then [] else [Prefixed(last, addPrefix)])
  }

  /** One more extra alias: it is appended, prefixed, unless it is empty. */
  lemma OtherPartSnoc(others: seq<string>, i: nat, addPrefix: bool)
    requires i < |others|
    ensures OtherPart(others[..i + 1], addPrefix) ==
              OtherPart(others[..i], addPrefix) + (if others[i] == "" then [] else [Prefixed(others[i], addPrefix)])
  {
    assert others[..i + 1][..i] == others[..i];
  }

  /** The extra aliases derivation keeps are non-empty. */
  lemma {:induction false} OtherPartNonEmpty(others: seq<string>, addPrefix: bool)
    ensures forall a :: a in OtherPart(others, addPrefix) ==> a != ""
  {
    if others != [] {
      OtherPartNonEmpty(others[..|others| - 1], addPrefix);
    }
  }

  /** The alias list before deduplication, or the first assertion that fails. */
  function RawAliases(name: string, shortName: string, longName: string, others: seq<string>,
                      createShort: bool, createLong: bool, addPrefix: bool): Result<seq<string>, ConfigError>
  {
    if name == "" then Err(EmptyName)
    else if shortName != "" && |shortName| != 1 then Err(ShortNameLength)
    else if longName != "" && |longName| <= 1 then Err(LongNameLength)
    else
      var all := ShortPart(name, shortName, createShort, addPrefix)
               + LongPart(name, longName, createLong, addPrefix)
               + OtherPart(others, addPrefix);
      if all == [] then Err(NoAliases) else Ok(all)
  }

  /** How many aliases the short and long parts contribute. */
  function ShortCount(shortName: string, createShort: bool): nat {
    if shortName != "" || createShort then 1 else 0
  }

  function LongCount(longName: string, createLong: bool): nat {
    if longName != "" || createLong then 1 else 0
  }

  /** The extra aliases are the non-empty entries, in order, each prefixed. */
  lemma {:induction false} OtherPartIsPrefixedNonEmpty(others: seq<string>, addPrefix: bool)
    ensures |OtherPart(others, addPrefix)| == |Filter(others, IsNonEmpty)|
    ensures forall k :: 0 <= k < |OtherPart(others, addPrefix)| ==>
              OtherPart(others, addPrefix)[k] == Prefixed(Filter(others, IsNonEmpty)[k], addPrefix)
  {
    if others != [] {
      OtherPartIsPrefixedNonEmpty(others[..|others| - 1], addPrefix);
    }
  }

  /** No extra alias survives exactly when every entry is empty. */
  lemma OtherPartEmptyIff(others: seq<string>, addPrefix: bool)
    ensures OtherPart(others, addPrefix) == [] <==> forall a :: a in others ==> a == ""
  {
    OtherPartIsPrefixedNonEmpty(others, addPrefix);
    var kept := Filter(others, IsNonEmpty);
    if kept != [] {
      assert kept[0] in kept;
    }
  }

  /**
    Derivation fails exactly when the name is empty, a given short or long
    name has the wrong length, or nothing is derived (no create flag, no
    names and only empty extra aliases); the first failing check is reported.
  */
  lemma CreateFailsIff(name: string, shortName: string, longName: string, others: seq<string>,
                       createShort: bool, createLong: bool, addPrefix: bool)
    ensures RawAliases(name, shortName, longName, others, createShort, createLong, addPrefix) == Err(EmptyName)
            <==> name == ""
    ensures RawAliases(name, shortName, longName, others, createShort, createLong, addPrefix) == Err(ShortNameLength)
            <==> name != "" && shortName != "" && |shortName| != 1
    ensures RawAliases(name, shortName, longName, others, createShort, createLong, addPrefix) == Err(LongNameLength)
            <==> name != "" && (shortName == "" || |shortName| == 1) && longName != "" && |longName| <= 1
    ensures RawAliases(name, shortName, longName, others, createShort, createLong, addPrefix) == Err(NoAliases)
            <==> name != "" && shortName == "" && !createShort && longName == "" && !createLong &&
                 forall a :: a in others ==> a == ""
  {
    OtherPartEmptyIff(others, addPrefix);
  }

  /**
    A derived list holds the short alias (given or created) first, the long
    alias next, then the non-empty extra aliases in input order; its length is
    the sum of the three and nothing is dropped or merged.
  */
  lemma {:induction false} AliasLayout(name: string, shortName: string, longName: string, others: seq<string>,
                                       createShort: bool, createLong: bool, addPrefix: bool)
    requires RawAliases(name, shortName, longName, others, createShort, createLong, addPrefix).Ok?
    ensures var r := RawAliases(name, shortName, longName, others, createShort, createLong, addPrefix).value;
            var s := ShortCount(shortName, createShort);
            var l := LongCount(longName, createLong);
            var extra := Filter(others, IsNonEmpty);
            |r| == s + l + |extra| &&
            (shortName != "" ==> r[0] == (if addPrefix then "-" + shortName else shortName)) &&
            (shortName == "" && createShort ==> r[0] == (if addPrefix then "-" + name[..1] else name[..1])) &&
            (longName != "" ==> r[s] == (if addPrefix then "--" + longName else longName)) &&
            (longName == "" && createLong ==> r[s] == (if addPrefix then "--" + name else name)) &&
            forall k :: 0 <= k < |extra| ==> r[s + l + k] == Prefixed(extra[k], addPrefix)
  {
    OtherPartIsPrefixedNonEmpty(others, addPrefix);
  }

  /** `-` and one character, or `--` and at least one character. */
  predicate IsPrefixedShape(a: string) {
    (|a| == 2 && a[0] == '-') || (HasLongPrefix(a) && |a| >= 3)
  }

  lemma PrefixedShape(alias: string)
    requires alias != ""
    ensures IsPrefixedShape(Prefixed(alias, true))
  {
    if |alias| > 1 {
      assert ("--" + alias)[..2] == "--";
    }
  }

  lemma {:induction false} OtherPartShapes(others: seq<string>)
    ensures forall a :: a in OtherPart(others, true) ==> IsPrefixedShape(a)
  {
    if others != [] {
      OtherPartShapes(others[..|others| - 1]);
      if others[|others| - 1] != "" {
        PrefixedShape(others[|others| - 1]);
      }
    }
  }

  /**
    With prefixing, every alias is `-` and one character, or `--` and at least
    one character (a created long alias of a one-character name is `--x`).
  */
  lemma {:induction false} PrefixedAliasShapes(name: string, shortName: string, longName: string, others: seq<string>,
                                               createShort: bool, createLong: bool)
    requires RawAliases(name, shortName, longName, others, createShort, createLong, true).Ok?
    ensures forall a :: a in RawAliases(name, shortName, longName, others, createShort, createLong, true).value ==>
              IsPrefixedShape(a)
  {
    if shortName != "" {
      PrefixedShape(shortName);
    } else if createShort {
      PrefixedShape(name[..1]);
    }
    if longName != "" {
      PrefixedShape(longName);
      assert "--" + longName == Prefixed(longName, true);
    } else if createLong {
      assert ("--" + name)[..2] == "--";
    }
    OtherPartShapes(others);
  }

  /** Without prefixing, the list is the raw names and the non-empty extra aliases, with no `-` added. */
  lemma {:induction false} BareAliases(name: string, shortName: string, longName: string, others: seq<string>,
                                       createShort: bool, createLong: bool)
    requires RawAliases(name, shortName, longName, others, createShort, createLong, false).Ok?
    ensures RawAliases(name, shortName, longName, others, createShort, createLong, false).value ==
            (if shortName != "" then [shortName] else if createShort then [name[..1]] else []) +
            (if longName != "" then [longName] else if createLong then [name] else []) +
            Filter(others, IsNonEmpty)
  {
    OtherPartIsPrefixedNonEmpty(others, false);
    assert OtherPart(others, false) == Filter(others, IsNonEmpty);
  }

  /** `list(dict.fromkeys(s))`: each string once, at its first occurrence. */
  function Dedup(s: seq<string>): (r: seq<string>)
    ensures forall x :: x in r <==> x in s
    ensures forall i, j :: 0 <= i < j < |r| ==> r[i] != r[j]
  {
    if s == [] then []
    else
      var d, last := Dedup(s[..|s| - 1]), s[|s| - 1];
      assert s == s[..|s| - 1] + [last];
      if last in d then d else d + [last]
  }

  /** Index of the first occurrence of `x` in `s`. */
  function IndexOf(s: seq<string>, x: string): (k: nat)
    requires x in s
    ensures k < |s| && s[k] == x
    ensures forall j :: 0 <= j < k ==> s[j] != x
  {
    if s[0] == x then 0 else 1 + IndexOf(s[1..], x)
  }

  lemma IndexOfExtend(front: seq<string>, last: string, y: string)
    requires y in front
    ensures IndexOf(front + [last], y) == IndexOf(front, y)
  {
    var s := front + [last];
    var k, k' := IndexOf(s, y), IndexOf(front, y);
    assert s[k'] == y;
  }

  /** Deduplication keeps the order of its input. */
  lemma {:induction false} DedupIsSubsequence(s: seq<string>)
    ensures IsSubsequence(Dedup(s), s)
  {
    if s != [] {
      var front, last := s[..|s| - 1], s[|s| - 1];
      assert s == front + [last];
      var d := Dedup(front);
      DedupIsSubsequence(front);
      if last in d {
        assert IsSubsequence([], [last]);
        SubsequenceConcat(d, front, [], [last]);
        assert d + [] == d;
      } else {
        assert IsSubsequence([last], [last]);
        SubsequenceConcat(d, front, [last], [last]);
      }
    }
  }

  /** Deduplication lists the distinct strings ordered by where each first occurs. */
  lemma {:induction false} DedupKeepsFirstOccurrenceOrder(s: seq<string>)
    ensures forall i, j :: 0 <= i < j < |Dedup(s)| ==> IndexOf(s, Dedup(s)[i]) < IndexOf(s, Dedup(s)[j])
  {
    if s != [] {
      var front, last := s[..|s| - 1], s[|s| - 1];
      assert s == front + [last];
      var d := Dedup(front);
      DedupKeepsFirstOccurrenceOrder(front);
      forall y | y in front
        ensures IndexOf(s, y) == IndexOf(front, y)
      {
        IndexOfExtend(front, last, y);
      }
      if last !in d {
        var k := IndexOf(s, last);
        assert k == |front|;
        var r := d + [last];
        forall i, j | 0 <= i < j < |r|
          ensures IndexOf(s, r[i]) < IndexOf(s, r[j])
        {
          if j < |d| {
            assert r[i] == d[i] && r[j] == d[j];
          } else {
            assert r[i] == d[i] && d[i] in front;
          }
        }
      }
    }
  }

  /** A list without repeats is its own deduplication. */
  lemma {:induction false} DedupOfDistinct(s: seq<string>)
    requires forall i, j :: 0 <= i < j < |s| ==> s[i] != s[j]
    ensures Dedup(s) == s
  {
    if s != [] {
      var front, last := s[..|s| - 1], s[|s| - 1];
      DedupOfDistinct(front);
      assert last !in front;
      assert s == front + [last];
    }
  }

  /** Deduplicating twice changes nothing. */
  lemma DedupIdempotent(s: seq<string>)
    ensures Dedup(Dedup(s)) == Dedup(s)
  {
    DedupOfDistinct(Dedup(s));
  }

  /** How primary-alias selection classifies one alias. */
  datatype AliasKind =
    | ShortKind
    | LongKind
    | Unreadable  // classifying it raises (indexing an empty string)

  /** Index of the first alias of kind `k`, or `|s|` when there is none. */
  function FirstOf(kind: string -> AliasKind, s: seq<string>, k: AliasKind): (i: nat)
    ensures i <= |s|
    ensures i < |s| ==> kind(s[i]) == k
    ensures forall j :: 0 <= j < i ==> kind(s[j]) != k
  {
    if s == [] then 0 else if kind(s[0]) == k then 0 else 1 + FirstOf(kind, s[1..], k)
  }

  /** `prefix` put in front of a list that may not exist (the call raised). */
  function Extend(prefix: seq<string>, rest: Option<seq<string>>): Option<seq<string>> {
    match rest
    case None => None
    case Some(r) => Some(prefix + r)
  }

  lemma ExtendEmpty(rest: Option<seq<string>>)
    ensures Extend([], rest) == rest
  {
    if rest.Some? {
      assert [] + rest.value == rest.value;
    }
  }

  lemma ExtendTwice(a: seq<string>, b: seq<string>, rest: Option<seq<string>>)
    ensures Extend(a, Extend(b, rest)) == Extend(a + b, rest)
  {
    if rest.Some? {
      assert a + (b + rest.value) == (a + b) + rest.value;
    }
  }

  /**
    The primary-alias scan from some point on, given whether a short and a
    long alias were already kept: stop once both are kept, skip an alias of a
    kind already kept, keep the rest; `None` when an alias cannot be classified.
  */
  function Picks(kind: string -> AliasKind, s: seq<string>, seenShort: bool, seenLong: bool): Option<seq<string>>
    decreases |s|
  {
    if seenShort && seenLong then Some([])
    else if s == [] then Some([])
    else match kind(s[0])
      case Unreadable => None
      case LongKind =>
        if seenLong then Picks(kind, s[1..], seenShort, true)
        else Extend([s[0]], Picks(kind, s[1..], seenShort, true))
      case ShortKind =>
        if seenShort then Picks(kind, s[1..], true, seenLong)
        else Extend([s[0]], Picks(kind, s[1..], true, seenLong))
  }

  /** The entries of `s` at positions `i` and `j` that lie inside `s`, in index order. */
  function InOrder(s: seq<string>, i: int, j: int): seq<string> {
    var a := if 0 <= i < |s| then [s[i]] else [];
    var b := if 0 <= j < |s| then [s[j]] else [];
    if i <= j then a + b else b + a
  }

  /**
    Primary-alias selection in closed form: the first long alias and the first
    short alias (of the kinds not yet kept), in their input order; it fails
    exactly when an unclassifiable alias comes before the scan has both.
  */
  function Primary(kind: string -> AliasKind, s: seq<string>, seenShort: bool, seenLong: bool): Option<seq<string>> {
    var l := if seenLong then -1 else FirstOf(kind, s, LongKind);
    var h := if seenShort then -1 else FirstOf(kind, s, ShortKind);
    var e := FirstOf(kind, s, Unreadable);
    if e < l || e < h then None else Some(InOrder(s, l, h))
  }

  /** Past a first alias of another kind, the first alias of kind `m` is one further along. */
  lemma FirstOfStep(kind: string -> AliasKind, s: seq<string>, m: AliasKind)
    requires s != [] && kind(s[0]) != m
    ensures FirstOf(kind, s, m) == 1 + FirstOf(kind, s[1..], m)
  {
  }

  /** The closed form over a list whose first alias is long, in terms of the rest of the list. */
  lemma PrimaryAfterLong(kind: string -> AliasKind, s: seq<string>, seenShort: bool, seenLong: bool)
    requires s != [] && kind(s[0]) == LongKind && !(seenShort && seenLong)
    ensures Primary(kind, s, seenShort, seenLong) ==
              if seenLong then Primary(kind, s[1..], seenShort, true)
              else Extend([s[0]], Primary(kind, s[1..], seenShort, true))
  {
    var t := s[1..];
    FirstOfStep(kind, s, Unreadable);
    if !seenShort {
      FirstOfStep(kind, s, ShortKind);
      var h := FirstOf(kind, t, ShortKind);
      if h < |t| {
        assert t[h] == s[h + 1];
      }
      if !seenLong {
        assert InOrder(s, 0, h + 1) == [s[0]] + InOrder(t, -1, h);
      } else {
        assert InOrder(s, -1, h + 1) == InOrder(t, -1, h);
      }
    } else {
      assert InOrder(t, -1, -1) == [];
      assert [s[0]] + [] == [s[0]];
      assert InOrder(s, 0, -1) == [s[0]];
    }
  }

  /** The closed form over a list whose first alias is short, in terms of the rest of the list. */
  lemma PrimaryAfterShort(kind: string -> AliasKind, s: seq<string>, seenShort: bool, seenLong: bool)
    requires s != [] && kind(s[0]) == ShortKind && !(seenShort && seenLong)
    ensures Primary(kind, s, seenShort, seenLong) ==
              if seenShort then Primary(kind, s[1..], true, seenLong)
              else Extend([s[0]], Primary(kind, s[1..], true, seenLong))
  {
    var t := s[1..];
    FirstOfStep(kind, s, Unreadable);
    if !seenLong {
      FirstOfStep(kind, s, LongKind);
      var l := FirstOf(kind, t, LongKind);
      if l < |t| {
        assert t[l] == s[l + 1];
      }
      if !seenShort {
        assert InOrder(s, l + 1, 0) == [s[0]] + InOrder(t, l, -1);
      } else {
        assert InOrder(s, l + 1, -1) == InOrder(t, l, -1);
      }
    } else {
      assert InOrder(t, -1, -1) == [];
      assert [s[0]] + [] == [s[0]];
      assert InOrder(s, -1, 0) == [s[0]];
    }
  }

  /** The scan computes the closed form. */
  lemma {:induction false} PicksIsPrimary(kind: string -> AliasKind, s: seq<string>, seenShort: bool, seenLong: bool)
    ensures Picks(kind, s, seenShort, seenLong) == Primary(kind, s, seenShort, seenLong)
    decreases |s|
  {
    if seenShort && seenLong {
      assert InOrder(s, -1, -1) == [];
    } else if s == [] {
      var l := if seenLong then -1 else FirstOf(kind, s, LongKind);
      var h := if seenShort then -1 else FirstOf(kind, s, ShortKind);
      assert InOrder(s, l, h) == [];
    } else {
      match kind(s[0])
      case Unreadable =>
        assert FirstOf(kind, s, Unreadable) == 0;
        if !seenLong {
          FirstOfStep(kind, s, LongKind);
        }
        if !seenShort {
          FirstOfStep(kind, s, ShortKind);
        }
      case LongKind =>
        PicksIsPrimary(kind, s[1..], seenShort, true);
        PrimaryAfterLong(kind, s, seenShort, seenLong);
      case ShortKind =>
        PicksIsPrimary(kind, s[1..], true, seenLong);
        PrimaryAfterShort(kind, s, seenShort, seenLong);
    }
  }

  /** The primary aliases are a subsequence of the alias list. */
  lemma {:induction false} PicksIsSubsequence(kind: string -> AliasKind, s: seq<string>, seenShort: bool, seenLong: bool)
    requires Picks(kind, s, seenShort, seenLong).Some?
    ensures IsSubsequence(Picks(kind, s, seenShort, seenLong).value, s)
    decreases |s|
  {
    if !(seenShort && seenLong) && s != [] {
      var k := kind(s[0]);
      var seenShort', seenLong' := seenShort || k == ShortKind, seenLong || k == LongKind;
      PicksIsSubsequence(kind, s[1..], seenShort', seenLong');
      var rest := Picks(kind, s[1..], seenShort', seenLong').value;
      if (k == LongKind && !seenLong) || (k == ShortKind && !seenShort) {
        assert ([s[0]] + rest)[1..] == rest;
      }
    }
  }

  /**
    At most two primary aliases, at most one of each kind, none
    unclassifiable, in input order; a kind occurring in the list before the
    scan stops is represented by its first alias.
  */
  lemma PrimaryShape(kind: string -> AliasKind, s: seq<string>)
    requires Picks(kind, s, false, false).Some?
    ensures var r := Picks(kind, s, false, false).value;
            |r| <= 2 &&
            IsSubsequence(r, s) &&
            (|r| == 2 ==> kind(r[0]) != kind(r[1])) &&
            (forall x :: x in r ==> kind(x) != Unreadable) &&
            (FirstOf(kind, s, LongKind) < |s| ==> s[FirstOf(kind, s, LongKind)] in r) &&
            (FirstOf(kind, s, ShortKind) < |s| ==> s[FirstOf(kind, s, ShortKind)] in r)
  {
    PicksIsPrimary(kind, s, false, false);
    PicksIsSubsequence(kind, s, false, false);
  }
}
