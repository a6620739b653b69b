/** One step of an automation flow: choice names, their normalisation and the step's own checks (app/schemas.py). */
module FlowNodes {
  import opened Common
  import opened Text

  datatype NodeKind = Message | Question | Choice | Handoff | End

  datatype FlowChoice = FlowChoice(labelText: string, aliases: seq<string>, nextNodeId: string)

  datatype FlowNode = FlowNode(
    id: string, kind: NodeKind, text: Option<string>, field: Option<string>, nextNodeId: Option<string>,
    options: seq<FlowChoice>, skipIfPresent: bool)

  predicate Truthy(s: Option<string>) { s.Some? && s.value != "" }

  // ----- alias normalisation

  /** The non-blank normal forms of the given names, each at its first occurrence. */
  function FirstOccurrences(norm: string -> string, values: seq<string>): seq<string>
  {
    if values == [] then [] else
      var before := FirstOccurrences(norm, values[..|values| - 1]);
      var item := norm(values[|values| - 1]);
      if item != "" && item !in before then before + [item] else before
  }

  function Names(norm: string -> string, c: FlowChoice): seq<string>
  {
    FirstOccurrences(norm, [c.labelText] + c.aliases)
  }

  function Tail(s: seq<string>): seq<string> { if s == [] then [] else s[1..] }

  function NormalizedChoice(norm: string -> string, c: FlowChoice): FlowChoice { c.(aliases := Tail(Names(norm, c))) }

  method NormalizeAliases(norm: string -> string, c: FlowChoice) returns (r: FlowChoice)
    ensures r == NormalizedChoice(norm, c) && r.labelText == c.labelText && r.nextNodeId == c.nextNodeId
  {
    var values := [c.labelText] + c.aliases;
    var normalized: seq<string>, seen: set<string> := [], {};
    for k := 0 to |values|
      invariant normalized == FirstOccurrences(norm, values[..k])
      invariant seen == set item | item in normalized
    {
      assert values[..k + 1][..k] == values[..k];
      var item := norm(values[k]);
      if item != "" && item !in seen {
        normalized := normalized + [item];
        seen := seen + {item};
      }
    }
    assert values[..|values|] == values;
    r := c.(aliases := if normalized == [] then [] else normalized[1..]);
  }

  ghost predicate Normal(norm: string -> string, s: seq<string>)
  {
    Distinct(s) && forall i :: 0 <= i < |s| ==> s[i] != "" && norm(s[i]) == s[i]
  }

  lemma {:induction false} FirstOccurrencesMembers(norm: string -> string, values: seq<string>)
    ensures Distinct(FirstOccurrences(norm, values))
    ensures forall name :: name in FirstOccurrences(norm, values) <==>
              name != "" && exists v :: v in values && norm(v) == name
  {
    if values != [] {
      var n := |values| - 1;
      var last := values[n];
      FirstOccurrencesMembers(norm, values[..n]);
      assert values == values[..n] + [last];
      forall name
        ensures name in FirstOccurrences(norm, values) <==> name != "" && exists v :: v in values && norm(v) == name
      {
        if name == norm(last) { assert last in values; }
        if v :| v in values && norm(v) == name { assert v == last || v in values[..n]; }
      }
    }
  }

  lemma FirstOccurrencesNormal(norm: string -> string, values: seq<string>)
    requires Idempotent(norm)
    ensures Normal(norm, FirstOccurrences(norm, values))
    ensures forall name :: name in FirstOccurrences(norm, values) <==>
              name != "" && exists v :: v in values && norm(v) == name
  {
    FirstOccurrencesMembers(norm, values);
    var names := FirstOccurrences(norm, values);
    assert forall i :: 0 <= i < |names| ==> names[i] in names;
  }

  /** Somewhere the name occurs, and the other does not occur up to there. */
  ghost predicate OccursFirst(norm: string -> string, values: seq<string>, name: string, other: string)
  {
    exists p :: 0 <= p < |values| && norm(values[p]) == name && forall q :: 0 <= q <= p ==> norm(values[q]) != other
  }

  /** The names are listed in the order in which they first occur. */
  lemma {:induction false} OccurrencesInOrder(norm: string -> string, values: seq<string>, i: nat, j: nat)
    requires i < j < |FirstOccurrences(norm, values)|
    ensures OccursFirst(norm, values, FirstOccurrences(norm, values)[i], FirstOccurrences(norm, values)[j])
  {
    var n := |values| - 1;
    var before, names := FirstOccurrences(norm, values[..n]), FirstOccurrences(norm, values);
    FirstOccurrencesMembers(norm, values[..n]);
    if j < |before| {
      OccurrencesInOrder(norm, values[..n], i, j);
      var p :| 0 <= p < n && norm(values[..n][p]) == names[i]
               && forall q :: 0 <= q <= p ==> norm(values[..n][q]) != names[j];
      assert forall q :: 0 <= q <= p ==> values[..n][q] == values[q];
    } else {
      assert names[i] in before && names[j] !in before && names[j] != "";
      var v :| v in values[..n] && norm(v) == names[i];
      var p :| 0 <= p < n && values[..n][p] == v;
      assert forall q :: 0 <= q <= p ==> values[q] in values[..n];
    }
  }

  ghost predicate Occurs(norm: string -> string, values: seq<string>, name: string)
  {
    exists v :: v in values && norm(v) == name
  }

  lemma OccursAfter(norm: string -> string, labelText: string, aliases: seq<string>, name: string)
    ensures Occurs(norm, [labelText] + aliases, name) <==> norm(labelText) == name || Occurs(norm, aliases, name)
  {
    assert labelText in [labelText] + aliases && forall a :: a in aliases ==> a in [labelText] + aliases;
  }

  /** The aliases kept under a label that names something: the other names given; and under a blank label, the names
      after the first. */
  lemma KeptAliasesAre(norm: string -> string, c: FlowChoice, a: string)
    ensures var aliases := NormalizedChoice(norm, c).aliases;
            && Distinct(aliases)
            && (norm(c.labelText) != "" ==>
                 (a in aliases <==> a != "" && a != norm(c.labelText) && exists v :: v in c.aliases && norm(v) == a))
            && (norm(c.labelText) == "" ==> aliases == Tail(FirstOccurrences(norm, c.aliases)))
  {
    var names, aliases := Names(norm, c), NormalizedChoice(norm, c).aliases;
    FirstOccurrencesMembers(norm, [c.labelText] + c.aliases);
    LabelComesFirst(norm, c.labelText, c.aliases);
    OccursAfter(norm, c.labelText, c.aliases, a);
    assert a in names <==> a != "" && Occurs(norm, [c.labelText] + c.aliases, a);
    assert forall i :: 0 <= i < |aliases| ==> aliases[i] == names[i + 1];
    if norm(c.labelText) != "" { HeadAndTail(names); }
  }

  lemma {:induction false} FirstOccurrencesFixed(norm: string -> string, s: seq<string>)
    requires Normal(norm, s)
    ensures FirstOccurrences(norm, s) == s
  {
    if s != [] {
      FirstOccurrencesFixed(norm, s[..|s| - 1]);
      assert s == s[..|s| - 1] + [s[|s| - 1]];
    }
  }

  lemma {:induction false} LabelComesFirst(norm: string -> string, labelText: string, aliases: seq<string>)
    ensures var names := FirstOccurrences(norm, [labelText] + aliases);
            if norm(labelText) == "" then names == FirstOccurrences(norm, aliases)
            else names != [] && names[0] == norm(labelText)
  {
    if aliases == [] {
      assert ([labelText] + aliases)[..0] == [];
    } else {
      var n := |aliases| - 1;
      LabelComesFirst(norm, labelText, aliases[..n]);
      assert ([labelText] + aliases)[..n + 1] == [labelText] + aliases[..n];
    }
  }

  lemma {:induction false} SameNormalForms(norm: string -> string, a: seq<string>, b: seq<string>)
    requires |a| == |b| && forall i :: 0 <= i < |a| ==> norm(a[i]) == norm(b[i])
    ensures FirstOccurrences(norm, a) == FirstOccurrences(norm, b)
  {
    if a != [] {
      SameNormalForms(norm, a[..|a| - 1], b[..|b| - 1]);
    }
  }

  lemma NormalAfterLabel(norm: string -> string, labelText: string, aliases: seq<string>)
    requires norm(labelText) != "" && Normal(norm, [norm(labelText)] + aliases)
    ensures FirstOccurrences(norm, [labelText] + aliases) == [norm(labelText)] + aliases
  {
    var names := [norm(labelText)] + aliases;
    assert names[0] == norm(labelText);
    SameNormalForms(norm, [labelText] + aliases, names);
    FirstOccurrencesFixed(norm, names);
  }

  /** Normalising aliases again changes nothing, except under a blank label: there each pass drops the
      first remaining alias, so a second pass is harmless only when at most one was left to drop. */
  lemma NormalizeAliasesIdempotentIff(norm: string -> string, c: FlowChoice)
    requires Idempotent(norm)
    ensures NormalizedChoice(norm, NormalizedChoice(norm, c)) == NormalizedChoice(norm, c) <==>
            norm(c.labelText) != "" || |FirstOccurrences(norm, c.aliases)| <= 1
  {
    var names, once := Names(norm, c), NormalizedChoice(norm, c);
    FirstOccurrencesNormal(norm, [c.labelText] + c.aliases);
    LabelComesFirst(norm, c.labelText, c.aliases);
    LabelComesFirst(norm, once.labelText, once.aliases);
    if norm(c.labelText) != "" {
      assert [norm(c.labelText)] + once.aliases == names;
      NormalAfterLabel(norm, c.labelText, once.aliases);
    } else {
      FirstOccurrencesFixed(norm, once.aliases);
    }
  }

  /** Normalisation keeps a choice's set of names exactly when its label is not blank or it has no non-blank alias. */
  lemma NormalizeAliasesKeepsNamesIff(norm: string -> string, c: FlowChoice)
    requires Idempotent(norm)
    ensures (forall name :: name in Names(norm, NormalizedChoice(norm, c)) <==> name in Names(norm, c)) <==>
            norm(c.labelText) != "" || FirstOccurrences(norm, c.aliases) == []
  {
    var names, once := Names(norm, c), NormalizedChoice(norm, c);
    FirstOccurrencesNormal(norm, [c.labelText] + c.aliases);
    LabelComesFirst(norm, c.labelText, c.aliases);
    LabelComesFirst(norm, once.labelText, once.aliases);
    if norm(c.labelText) != "" {
      assert [norm(c.labelText)] + once.aliases == names;
      NormalAfterLabel(norm, c.labelText, once.aliases);
    } else {
      FirstOccurrencesFixed(norm, once.aliases);
      if names != [] {
        assert names[0] in names;
        assert forall i :: 0 <= i < |once.aliases| ==> once.aliases[i] == names[i + 1];
        assert names[0] !in once.aliases;
      }
    }
  }

  /** A blank label with two different names: reading the stored choice back loses the first, and reading it again
      loses the second. */
  lemma BlankLabelLosesNames(norm: string -> string, c: FlowChoice, a: string, b: string)
    requires norm(c.labelText) == "" && norm(a) == a != "" && norm(b) == b != "" && a != b && c.aliases == [a, b]
    ensures var once := NormalizedChoice(norm, c);
            Names(norm, c) == [a, b] && Names(norm, once) == once.aliases == [b]
                && NormalizedChoice(norm, once).aliases == []
  {
    assert [c.labelText] + c.aliases == [c.labelText, a, b] && [c.labelText] + [b] == [c.labelText, b];
    NamesOfThree(norm, c.labelText, a, b);
    NamesOfTwo(norm, c.labelText, b);
    assert [a, b][1..] == [b] && [b][1..] == [];
  }

  lemma NamesOfTwo(norm: string -> string, a: string, b: string)
    requires norm(a) == "" && norm(b) == b != ""
    ensures FirstOccurrences(norm, [a, b]) == [b]
  {
    assert [a, b][..1] == [a] && [a][..0] == [];
    assert FirstOccurrences(norm, [a]) == [];
  }

  lemma NamesOfThree(norm: string -> string, a: string, b: string, c: string)
    requires norm(a) == "" && norm(b) == b != "" && norm(c) == c != "" && b != c
    ensures FirstOccurrences(norm, [a, b, c]) == [b, c]
  {
    NamesOfTwo(norm, a, b);
    assert [a, b, c][..2] == [a, b];
  }

  /** For instance the names a and b under a label that is one space, which normalises to nothing. */
  lemma SpaceLabelLosesNames(norm: string -> string)
    requires norm(" ") == "" && norm("a") == "a" && norm("b") == "b"
    ensures var c := FlowChoice(" ", ["a", "b"], "next");
            Names(norm, c) == ["a", "b"] && Names(norm, NormalizedChoice(norm, c)) == ["b"]
  {
    BlankLabelLosesNames(norm, FlowChoice(" ", ["a", "b"], "next"), "a", "b");
  }

  /** With the service's normal form every blank label and any two lower-case words will do. */
  lemma BlankLabelLosesWords(lower: string -> string, c: FlowChoice, a: string, b: string)
    requires LowersByWord(lower) && forall i :: 0 <= i < |c.labelText| ==> IsSpace(c.labelText[i])
    requires IsWord(a) && IsWord(b) && lower(a) == a && lower(b) == b && a != b && c.aliases == [a, b]
    ensures var norm := Normalizer(lower);
            var once := NormalizedChoice(norm, c);
            Names(norm, c) == [a, b] && once.aliases == [b] && NormalizedChoice(norm, once).aliases == []
  {
    BlankIsNothing(lower, c.labelText);
    WordIsNormal(lower, a);
    WordIsNormal(lower, b);
    BlankLabelLosesNames(Normalizer(lower), c, a, b);
  }

  // ----- uniqueness of choice names

  function NormalizeAll(norm: string -> string, values: seq<string>): seq<string>
  {
    Map(norm, values)
  }

  /** Every name the uniqueness check meets, in the order it meets them. */
  function AllNames(norm: string -> string, options: seq<FlowChoice>): seq<string>
  {
    if options == [] then [] else
      var last := options[|options| - 1];
      AllNames(norm, options[..|options| - 1]) + NormalizeAll(norm, [last.labelText] + last.aliases)
  }

  method ChoicesAreUnique(norm: string -> string, options: seq<FlowChoice>) returns (unique: bool)
    ensures unique <==> Distinct(AllNames(norm, options))
  {
    var aliases: set<string> := {};
    ghost var met: seq<string> := [];
    for i := 0 to |options|
      invariant met == AllNames(norm, options[..i]) && Collected(met, aliases)
    {
      var values := [options[i].labelText] + options[i].aliases;
      ghost var names, before := NormalizeAll(norm, values), met;
      NamesOneMore(norm, options, i);
      for j := 0 to |values|
        invariant met == before + names[..j] && Collected(met, aliases)
      {
        var normalized := norm(values[j]);
        if normalized in aliases {
          DuplicateFound(norm, options, i, j);
          return false;
        }
        MetOneMore(before, names, j);
        CollectOneMore(met, aliases, normalized);
        aliases := aliases + {normalized};
        met := met + [normalized];
      }
    }
    assert options[..|options|] == options;
    return true;
  }

  /** The names met so far were all different, and the set holds them. */
  ghost predicate Collected(met: seq<string>, aliases: set<string>)
  {
    Distinct(met) && forall name :: name in aliases <==> name in met
  }

  lemma CollectOneMore(met: seq<string>, aliases: set<string>, name: string)
    requires Collected(met, aliases) && name !in aliases
    ensures Collected(met + [name], aliases + {name})
  {
  }

  lemma NamesOneMore(norm: string -> string, options: seq<FlowChoice>, i: nat)
    requires i < |options|
    ensures AllNames(norm, options[..i + 1]) ==
            AllNames(norm, options[..i]) + NormalizeAll(norm, [options[i].labelText] + options[i].aliases)
  {
    assert options[..i + 1][..i] == options[..i];
  }

  lemma MetOneMore(before: seq<string>, names: seq<string>, j: nat)
    requires j < |names|
    ensures before + names[..j + 1] == before + names[..j] + [names[j]]
  {
  }

  /** A name met before makes the whole list of names repeat itself. */
  lemma DuplicateFound(norm: string -> string, options: seq<FlowChoice>, i: nat, j: nat)
    requires i < |options| && j < |[options[i].labelText] + options[i].aliases|
    requires var names := NormalizeAll(norm, [options[i].labelText] + options[i].aliases);
             names[j] in AllNames(norm, options[..i]) + names[..j]
    ensures !Distinct(AllNames(norm, options))
  {
    var names := NormalizeAll(norm, [options[i].labelText] + options[i].aliases);
    var met := AllNames(norm, options[..i]) + names[..j];
    NamesOneMore(norm, options, i);
    AllNamesPrefix(norm, options, i + 1);
    var all := AllNames(norm, options);
    var k :| 0 <= k < |met| && met[k] == names[j];
    assert all[k] == met[k] && all[|met|] == names[j];
  }

  lemma {:induction false} AllNamesPrefix(norm: string -> string, options: seq<FlowChoice>, n: nat)
    requires n <= |options|
    ensures AllNames(norm, options[..n]) <= AllNames(norm, options)
  {
    if n < |options| {
      AllNamesPrefix(norm, options[..|options| - 1], n);
      assert options[..|options| - 1][..n] == options[..n];
    } else {
      assert options[..n] == options;
    }
  }

  function NormalizedChoices(norm: string -> string, options: seq<FlowChoice>): seq<FlowChoice>
  {
    Map(c => NormalizedChoice(norm, c), options)
  }

  /** The names under which an option is checked: its normalised label, blank or not, and the aliases it keeps. */
  function CheckedNames(norm: string -> string, c: FlowChoice): seq<string>
  {
    [norm(c.labelText)] + NormalizedChoice(norm, c).aliases
  }

  /** The names an option can be chosen by once it is normalised: blanks name nothing. */
  function KeptNames(norm: string -> string, c: FlowChoice): seq<string>
  {
    if norm(c.labelText) == "" then NormalizedChoice(norm, c).aliases else Names(norm, c)
  }

  /** At most one of the two labels is blank, and no name is kept by both options. */
  ghost predicate Apart(norm: string -> string, a: FlowChoice, b: FlowChoice)
  {
    !(norm(a.labelText) == "" && norm(b.labelText) == "") && Disjoint(KeptNames(norm, a), KeptNames(norm, b))
  }

  ghost predicate AllApart(norm: string -> string, options: seq<FlowChoice>)
  {
    forall i, j :: 0 <= i < j < |options| ==> Apart(norm, options[i], options[j])
  }

  /** The aliases an option keeps are normal, and the label's own name is none of them. */
  lemma KeptAliases(norm: string -> string, c: FlowChoice)
    requires Idempotent(norm)
    ensures var aliases := NormalizedChoice(norm, c).aliases;
            && Normal(norm, aliases) && norm(c.labelText) !in aliases
            && (norm(c.labelText) != "" ==> Names(norm, c) == [norm(c.labelText)] + aliases)
  {
    var names, aliases := Names(norm, c), NormalizedChoice(norm, c).aliases;
    FirstOccurrencesNormal(norm, [c.labelText] + c.aliases);
    LabelComesFirst(norm, c.labelText, c.aliases);
    assert forall k :: 0 <= k < |aliases| ==> aliases[k] == names[k + 1];
  }

  lemma CheckedNamesFacts(norm: string -> string, c: FlowChoice)
    requires Idempotent(norm)
    ensures var r := NormalizedChoice(norm, c); NormalizeAll(norm, [r.labelText] + r.aliases) == CheckedNames(norm, c)
    ensures Distinct(CheckedNames(norm, c))
    ensures norm(c.labelText) != "" ==> CheckedNames(norm, c) == Names(norm, c)
  {
    var r := NormalizedChoice(norm, c);
    KeptAliases(norm, c);
    forall k | 0 <= k < |CheckedNames(norm, c)|
      ensures NormalizeAll(norm, [r.labelText] + r.aliases)[k] == CheckedNames(norm, c)[k]
    {
      if k > 0 { assert ([r.labelText] + r.aliases)[k] == r.aliases[k - 1]; }
    }
  }

  lemma ApartIffCheckedDisjoint(norm: string -> string, a: FlowChoice, b: FlowChoice)
    requires Idempotent(norm)
    ensures Apart(norm, a, b) <==> Disjoint(CheckedNames(norm, a), CheckedNames(norm, b))
  {
    CheckedNamesFacts(norm, a);
    CheckedNamesFacts(norm, b);
    CheckedMembers(norm, a);
    CheckedMembers(norm, b);
  }

  /** The checked names are the kept ones, and the blank if the label is blank. */
  lemma CheckedMembers(norm: string -> string, c: FlowChoice)
    requires Idempotent(norm)
    ensures forall name :: name in CheckedNames(norm, c) <==>
              name in KeptNames(norm, c) || (name == "" && norm(c.labelText) == "")
    ensures "" !in KeptNames(norm, c)
  {
    KeptAliases(norm, c);
  }

  lemma {:induction false} AllNamesMember(norm: string -> string, options: seq<FlowChoice>, name: string)
    requires Idempotent(norm)
    ensures name in AllNames(norm, NormalizedChoices(norm, options)) <==>
            exists i :: 0 <= i < |options| && name in CheckedNames(norm, options[i])
  {
    if options != [] {
      var n := |options| - 1;
      AllNamesMember(norm, options[..n], name);
      NormalizedGrows(norm, options);
      SomeCheckedGrows(norm, options, name);
    }
  }

  lemma SomeCheckedGrows(norm: string -> string, options: seq<FlowChoice>, name: string)
    requires options != []
    ensures var n := |options| - 1;
            (exists i :: 0 <= i < |options| && name in CheckedNames(norm, options[i])) <==>
            (exists i :: 0 <= i < n && name in CheckedNames(norm, options[..n][i]))
                || name in CheckedNames(norm, options[n])
  {
    var n := |options| - 1;
    assert forall i :: 0 <= i < n ==> options[..n][i] == options[i];
    if i :| 0 <= i < |options| && name in CheckedNames(norm, options[i]) {
      if i < n { assert name in CheckedNames(norm, options[..n][i]); }
    }
  }

  lemma NormalizedGrows(norm: string -> string, options: seq<FlowChoice>)
    requires Idempotent(norm) && options != []
    ensures var n := |options| - 1;
            AllNames(norm, NormalizedChoices(norm, options)) ==
            AllNames(norm, NormalizedChoices(norm, options[..n])) + CheckedNames(norm, options[n])
    ensures Distinct(CheckedNames(norm, options[|options| - 1]))
  {
    var n := |options| - 1;
    CheckedNamesFacts(norm, options[n]);
    assert NormalizedChoices(norm, options)[..n] == NormalizedChoices(norm, options[..n]);
  }

  lemma DisjointFromAll(norm: string -> string, init: seq<FlowChoice>, c: FlowChoice)
    requires Idempotent(norm)
    ensures Disjoint(AllNames(norm, NormalizedChoices(norm, init)), CheckedNames(norm, c)) <==>
            forall i :: 0 <= i < |init| ==> Apart(norm, init[i], c)
  {
    var before := AllNames(norm, NormalizedChoices(norm, init));
    forall name ensures name in before <==> exists i :: 0 <= i < |init| && name in CheckedNames(norm, init[i]) {
      AllNamesMember(norm, init, name);
    }
    forall i | 0 <= i < |init|
      ensures Apart(norm, init[i], c) <==> Disjoint(CheckedNames(norm, init[i]), CheckedNames(norm, c))
    {
      ApartIffCheckedDisjoint(norm, init[i], c);
    }
  }

  lemma AllApartGrows(norm: string -> string, options: seq<FlowChoice>)
    requires options != []
    ensures var n := |options| - 1;
            AllApart(norm, options) <==>
            AllApart(norm, options[..n]) && forall i :: 0 <= i < n ==> Apart(norm, options[..n][i], options[n])
  {
    var n := |options| - 1;
    assert forall i :: 0 <= i < n ==> options[..n][i] == options[i];
  }

  /** The uniqueness check on normalised options accepts exactly when at most one label is blank and no two options
      keep a name in common; a name repeated inside one option never causes rejection. */
  lemma {:induction false} UniqueIffApart(norm: string -> string, options: seq<FlowChoice>)
    requires Idempotent(norm)
    ensures Distinct(AllNames(norm, NormalizedChoices(norm, options))) <==> AllApart(norm, options)
  {
    if options != [] {
      var n := |options| - 1;
      UniqueIffApart(norm, options[..n]);
      NormalizedGrows(norm, options);
      DistinctConcat(AllNames(norm, NormalizedChoices(norm, options[..n])), CheckedNames(norm, options[n]));
      DisjointFromAll(norm, options[..n], options[n]);
      AllApartGrows(norm, options);
    }
  }

  /** The same for the normal form the service uses. */
  lemma ServiceNamesUniqueIffApart(lower: string -> string, options: seq<FlowChoice>)
    requires LowersByWord(lower)
    ensures Distinct(AllNames(Normalizer(lower), NormalizedChoices(Normalizer(lower), options))) <==>
            AllApart(Normalizer(lower), options)
  {
    NormalizerIsIdempotent(lower);
    UniqueIffApart(Normalizer(lower), options);
  }

  ghost predicate NamesDisjoint(norm: string -> string, options: seq<FlowChoice>)
  {
    forall i, j :: 0 <= i < j < |options| ==> Disjoint(Names(norm, options[i]), Names(norm, options[j]))
  }

  /** So where no label is blank it accepts exactly when the options' name sets are disjoint. */
  lemma UniqueIffDisjoint(norm: string -> string, options: seq<FlowChoice>)
    requires Idempotent(norm) && forall o :: o in options ==> norm(o.labelText) != ""
    ensures Distinct(AllNames(norm, NormalizedChoices(norm, options))) <==> NamesDisjoint(norm, options)
  {
    UniqueIffApart(norm, options);
    assert forall i :: 0 <= i < |options| ==> options[i] in options;
  }

  /** With blank labels that fails: two options with different names under blank labels share no name and are
      refused. */
  lemma BlankLabelsAreRefused(norm: string -> string, c: FlowChoice, d: FlowChoice, a: string, b: string)
    requires Idempotent(norm) && norm(c.labelText) == "" && norm(d.labelText) == "" && c.aliases == [a]
    requires d.aliases == [b]
    requires norm(a) == a != "" && norm(b) == b != "" && a != b
    ensures NamesDisjoint(norm, [c, d]) && !Distinct(AllNames(norm, NormalizedChoices(norm, [c, d])))
  {
    NameUnderBlank(norm, c, a);
    NameUnderBlank(norm, d, b);
    PairIsDisjoint(norm, c, d);
    TwoBlanksClash(norm, c, d);
    UniqueIffApart(norm, [c, d]);
  }

  lemma NameUnderBlank(norm: string -> string, c: FlowChoice, a: string)
    requires norm(c.labelText) == "" && c.aliases == [a] && norm(a) == a != ""
    ensures Names(norm, c) == [a]
  {
    assert [c.labelText] + c.aliases == [c.labelText, a];
    NamesOfTwo(norm, c.labelText, a);
  }

  lemma PairIsDisjoint(norm: string -> string, c: FlowChoice, d: FlowChoice)
    requires Disjoint(Names(norm, c), Names(norm, d))
    ensures NamesDisjoint(norm, [c, d])
  {
  }

  lemma TwoBlanksClash(norm: string -> string, c: FlowChoice, d: FlowChoice)
    requires norm(c.labelText) == "" && norm(d.labelText) == ""
    ensures !AllApart(norm, [c, d])
  {
    assert !Apart(norm, [c, d][0], [c, d][1]);
  }

  /** For instance two options labelled with a space, with the aliases a and b. */
  lemma SpaceLabelsAreRefused(norm: string -> string)
    requires Idempotent(norm) && norm(" ") == "" && norm("a") == "a" && norm("b") == "b"
    ensures var options := [FlowChoice(" ", ["a"], "next"), FlowChoice(" ", ["b"], "next")];
            NamesDisjoint(norm, options) && !Distinct(AllNames(norm, NormalizedChoices(norm, options)))
  {
    BlankLabelsAreRefused(norm, FlowChoice(" ", ["a"], "next"), FlowChoice(" ", ["b"], "next"), "a", "b");
  }

  // ----- one step's checks

  datatype NodeError =
    | TextMissing | NextMissing | FieldMissing | TooFewOptions | AmbiguousOptions
    | OptionsNotAllowed | TerminalContinues | FieldNotAllowed

  predicate IsTerminal(n: FlowNode) { n.kind in {Handoff, End} }

  ghost predicate NodeOk(norm: string -> string, n: FlowNode)
  {
    && Truthy(n.text)
    && (n.kind in {Message, Question} ==> Truthy(n.nextNodeId))
    && (n.kind in {Question, Choice} <==> n.field.Some?)
    && (n.kind == Choice ==> |n.options| >= 2 && Distinct(AllNames(norm, n.options)))
    && (n.kind != Choice ==> n.options == [])
    && (IsTerminal(n) ==> !Truthy(n.nextNodeId))
  }

  /** Why a step is refused, in the order the checks are made. */
  ghost predicate NodeExplains(norm: string -> string, n: FlowNode, r: Result<(), NodeError>)
  {
    if !Truthy(n.text) then r == Err(TextMissing)
    else if n.kind in {Message, Question} && !Truthy(n.nextNodeId) then r == Err(NextMissing)
    else if n.kind in {Question, Choice} && n.field.None? then r == Err(FieldMissing)
    else if n.kind == Choice && |n.options| < 2 then r == Err(TooFewOptions)
    else if n.kind == Choice && !Distinct(AllNames(norm, n.options)) then r == Err(AmbiguousOptions)
    else if n.kind != Choice && n.options != [] then r == Err(OptionsNotAllowed)
    else if IsTerminal(n) && Truthy(n.nextNodeId) then r == Err(TerminalContinues)
    else if n.kind !in {Question, Choice} && n.field.Some? then r == Err(FieldNotAllowed)
    else r == Ok(())
  }

  method ValidateNode(norm: string -> string, n: FlowNode) returns (r: Result<(), NodeError>)
    ensures r.Ok? <==> NodeOk(norm, n)
    ensures NodeExplains(norm, n, r)
  {
    if !Truthy(n.text) { return Err(TextMissing); }
    if n.kind in {Message, Question} && !Truthy(n.nextNodeId) { return Err(NextMissing); }
    if n.kind in {Question, Choice} && n.field.None? { return Err(FieldMissing); }
    if n.kind == Choice {
      if |n.options| < 2 { return Err(TooFewOptions); }
      var unique := ChoicesAreUnique(norm, n.options);
      if !unique { return Err(AmbiguousOptions); }
    } else if n.options != [] {
      return Err(OptionsNotAllowed);
    }
    if IsTerminal(n) && Truthy(n.nextNodeId) { return Err(TerminalContinues); }
    if n.kind !in {Question, Choice} && n.field.Some? { return Err(FieldNotAllowed); }
    return Ok(());
  }
}
