/** In-place insertion of blocks into a list of lines, from the last to the first, and what it amounts to. */
module Splicing {
  import opened Common

  /** For every line, the block to put before it, if any. */
  type Plan = seq<Option<seq<string>>>

  function Block(plan: Plan, i: nat): seq<string>
    requires i < |plan|
  {
    if plan[i].Some? then plan[i].value else []
  }

  /** The first n lines, each after its block. */
  function Interleaved(lines: seq<string>, plan: Plan, n: nat): seq<string>
    requires n <= |lines| == |plan|
  {
    if n == 0 then [] else Interleaved(lines, plan, n - 1) + Block(plan, n - 1) + [lines[n - 1]]
  }

  /** The lines from i on, each after its block. */
  ghost function Rest(lines: seq<string>, plan: Plan, i: nat): seq<string>
    requires i <= |lines| == |plan|
    decreases |lines| - i
  {
    if i == |lines| then [] else Block(plan, i) + ([lines[i]] + Rest(lines, plan, i + 1))
  }

  /** The planned places before n, in order. */
  function Places(plan: Plan, n: nat): (r: seq<nat>)
    requires n <= |plan|
    ensures forall k :: 0 <= k < |r| ==> r[k] < n && plan[r[k]].Some?
  {
    if n == 0 then [] else Places(plan, n - 1) + (if plan[n - 1].Some? then [n - 1] else [])
  }

  lemma {:induction false} RestFromStart(lines: seq<string>, plan: Plan, n: nat)
    requires n <= |lines| == |plan|
    ensures Rest(lines, plan, 0) == Interleaved(lines, plan, n) + Rest(lines, plan, n)
  {
    if n > 0 { RestFromStart(lines, plan, n - 1); }
  }

  lemma {:induction false} NothingPlanned(plan: Plan, n: nat)
    requires n <= |plan|
    ensures Places(plan, n) == [] <==> forall i :: 0 <= i < n ==> plan[i].None?
  {
    if n > 0 { NothingPlanned(plan, n - 1); }
  }

  lemma {:induction false} LastPlace(plan: Plan, bound: nat)
    requires bound <= |plan| && Places(plan, bound) != []
    ensures var all := Places(plan, bound);
            var last := all[|all| - 1];
            (forall i :: last < i < bound ==> plan[i].None?) && Places(plan, last) == all[..|all| - 1]
  {
    if plan[bound - 1].Some? {
      assert Places(plan, bound) == Places(plan, bound - 1) + [bound - 1];
    } else {
      assert Places(plan, bound) == Places(plan, bound - 1);
      LastPlace(plan, bound - 1);
    }
  }

  lemma {:induction false} QuietStretch(lines: seq<string>, plan: Plan, i: nat, bound: nat)
    requires i <= bound <= |lines| == |plan|
    requires forall k :: i <= k < bound ==> plan[k].None?
    ensures Rest(lines, plan, i) == lines[i..bound] + Rest(lines, plan, bound)
    decreases bound - i
  {
    if i < bound {
      QuietStretch(lines, plan, i + 1, bound);
      QuietLine(lines, plan, i);
      AppendAssociates([lines[i]], lines[i + 1..bound], Rest(lines, plan, bound));
      assert lines[i..bound] == [lines[i]] + lines[i + 1..bound];
    } else {
      assert lines[i..bound] == [];
      EmptyFirst(Rest(lines, plan, bound));
    }
  }

  lemma EmptyFirst(s: seq<string>)
    ensures [] + s == s
  {
  }

  lemma QuietLine(lines: seq<string>, plan: Plan, i: nat)
    requires i < |lines| == |plan| && plan[i].None?
    ensures Rest(lines, plan, i) == [lines[i]] + Rest(lines, plan, i + 1)
  {
    EmptyFirst([lines[i]] + Rest(lines, plan, i + 1));
  }

  /** One splice moves the finished part down to its place. */
  lemma SpliceStep(lines: seq<string>, plan: Plan, bound: nat)
    requires bound <= |lines| == |plan| && Places(plan, bound) != []
    ensures var all := Places(plan, bound);
            var last := all[|all| - 1];
            var out := lines[..bound] + Rest(lines, plan, bound);
            && last <= |out|
            && out[..last] + plan[last].value + out[last..] == lines[..last] + Rest(lines, plan, last)
            && Places(plan, last) == all[..|all| - 1]
  {
    LastPlace(plan, bound);
    var all := Places(plan, bound);
    var last := all[|all| - 1];
    QuietStretch(lines, plan, last + 1, bound);
    CutBefore(lines, last, bound, Rest(lines, plan, bound));
    AppendAssociates(lines[..last], plan[last].value, [lines[last]] + Rest(lines, plan, last + 1));
  }

  lemma CutBefore(lines: seq<string>, last: nat, bound: nat, rest: seq<string>)
    requires last < bound <= |lines|
    ensures var out := lines[..bound] + rest;
            out[..last] == lines[..last] && out[last..] == [lines[last]] + (lines[last + 1..bound] + rest)
  {
    CutInside(lines[..bound], rest, last);
    assert lines[..bound][last..] == [lines[last]] + lines[last + 1..bound];
    AppendAssociates([lines[last]], lines[last + 1..bound], rest);
  }

  /** Splicing the blocks in at their original indices, last one first, is interleaving them. */
  method SpliceInReverse(lines: seq<string>, insertions: seq<(nat, seq<string>)>, ghost plan: Plan)
    returns (out: seq<string>)
    requires |plan| == |lines| && |insertions| == |Places(plan, |plan|)|
    requires forall k :: 0 <= k < |insertions| ==>
               insertions[k].0 == Places(plan, |plan|)[k] && Some(insertions[k].1) == plan[insertions[k].0]
    ensures out == Interleaved(lines, plan, |lines|)
  {
    out := lines;
    ghost var bound: nat := |lines|;
    var k := |insertions|;
    while k > 0
      invariant 0 <= k <= |insertions| && bound <= |lines|
      invariant Places(plan, bound) == Places(plan, |plan|)[..k]
      invariant out == lines[..bound] + Rest(lines, plan, bound)
    {
      k := k - 1;
      var (index, payload) := insertions[k];
      SpliceStep(lines, plan, bound);
      assert Places(plan, bound)[k] == index;
      out := out[..index] + payload + out[index..];
      bound := index;
    }
    NothingPlanned(plan, bound);
    QuietStretch(lines, plan, 0, bound);
    RestFromStart(lines, plan, |lines|);
    assert lines[..bound] == lines[0..bound];
  }

  lemma NoPlace(plan: Plan, n: nat)
    requires 0 < n <= |plan| && plan[n - 1].None?
    ensures Places(plan, n) == Places(plan, n - 1)
  {
    AppendNothing(Places(plan, n - 1));
  }

  lemma NoBlock(lines: seq<string>, plan: Plan, n: nat, before: seq<string>)
    requires 0 < n <= |lines| == |plan| && plan[n - 1].None? && Interleaved(lines, plan, n - 1) == before
    ensures Interleaved(lines, plan, n) == before + [lines[n - 1]]
  {
    AppendNothing(before);
  }

  /** Where nothing is planned, nothing is spliced. */
  lemma {:induction false} NothingSpliced(lines: seq<string>, plan: Plan, n: nat)
    requires n <= |lines| == |plan| && forall i :: 0 <= i < n ==> plan[i].None?
    ensures Places(plan, n) == []
    ensures Interleaved(lines, plan, n) == lines[..n]
  {
    if n > 0 {
      NothingSpliced(lines, plan, n - 1);
      NoPlace(plan, n);
      NoBlock(lines, plan, n, lines[..n - 1]);
      TakeUpTo(lines, n);
    } else {
      NothingAtStart(lines, plan);
    }
  }

  lemma NothingAtStart(lines: seq<string>, plan: Plan)
    requires |lines| == |plan|
    ensures Places(plan, 0) == [] && Interleaved(lines, plan, 0) == lines[..0]
  {
  }

  lemma TakeUpTo(lines: seq<string>, n: nat)
    requires 0 < n <= |lines|
    ensures lines[..n] == lines[..n - 1] + [lines[n - 1]]
  {
  }

  /** What is spliced before a line does not depend on what comes after it. */
  lemma {:induction false} InterleavedPrefix(lines: seq<string>, plan: Plan, i: nat, n: nat)
    requires i <= n <= |lines| == |plan|
    ensures Interleaved(lines, plan, i) <= Interleaved(lines, plan, n)
  {
    if i < n { InterleavedPrefix(lines, plan, i, n - 1); }
  }

  /** A line stands directly behind its own block, where the lines interleaved up to it end. */
  lemma InterleavedAt(lines: seq<string>, plan: Plan, i: nat, place: nat)
    requires i < |lines| == |plan| && |Interleaved(lines, plan, i + 1)| == place + 1
    ensures var out, block := Interleaved(lines, plan, |lines|), Block(plan, i);
            |block| <= place < |out| && out[place - |block|..place] == block && out[place] == lines[i]
  {
    var upTo := Interleaved(lines, plan, i + 1);
    InterleavedPrefix(lines, plan, i + 1, |lines|);
    EndsWithBlock(Interleaved(lines, plan, i), Block(plan, i), lines[i], upTo, Interleaved(lines, plan, |lines|));
  }

  lemma EndsWithBlock(before: seq<string>, block: seq<string>, line: string, upTo: seq<string>, out: seq<string>)
    requires upTo == before + block + [line] && upTo <= out
    ensures var place := |upTo| - 1; |block| <= place && out[place - |block|..place] == block && out[place] == line
  {
    assert upTo[|before|..|before| + |block|] == block;
  }

  /** The planned places are as many as the lines with a block. */
  lemma {:induction false} PlacesCount(plan: Plan, n: nat)
    requires n <= |plan|
    ensures |Places(plan, n)| == |set i: nat | i < n && plan[i].Some?|
  {
    if n > 0 {
      PlacesCount(plan, n - 1);
      var before, all := set i: nat | i < n - 1 && plan[i].Some?, set i: nat | i < n && plan[i].Some?;
      if plan[n - 1].Some? { assert all == before + {n - 1}; } else { assert all == before; }
    }
  }

  // ----- undoing

  /** Deletes, in order, blocks of the planned lengths at the planned places. */
  function Undone(lines: seq<string>, plan: Plan, at: seq<nat>): seq<string>
    requires forall k :: 0 <= k < |at| ==> at[k] < |plan|
    decreases |at|
  {
    if at == [] then lines else
      var end := at[0] + |Block(plan, at[0])|;
      if end <= |lines| then Undone(lines[..at[0]] + lines[end..], plan, at[1..]) else lines
  }

  lemma CutBlock(lines: seq<string>, plan: Plan, bound: nat)
    requires bound < |lines| == |plan|
    ensures var out := lines[..bound] + Rest(lines, plan, bound);
            var end := bound + |Block(plan, bound)|;
            end <= |out| && out[..bound] + out[end..] == lines[..bound + 1] + Rest(lines, plan, bound + 1)
  {
    var above, block := lines[..bound], Block(plan, bound);
    var rest := Rest(lines, plan, bound + 1);
    CutOut(above, block, [lines[bound]] + rest);
    AppendAssociates(above, [lines[bound]], rest);
    TakeOneMore(lines, bound);
  }

  lemma CutOut(a: seq<string>, b: seq<string>, c: seq<string>)
    ensures var s := a + (b + c); s[..|a|] + s[|a| + |b|..] == a + c
  {
    AppendAssociates(a, b, c);
    CutAppend(a + b, c);
    CutAppend(a, b + c);
  }

  lemma UndoneStep(lines: seq<string>, plan: Plan, at: seq<nat>, bound: nat)
    requires bound < |lines| == |plan| && at != [] && at[0] == bound && forall k :: 0 <= k < |at| ==> at[k] < |plan|
    ensures Undone(lines[..bound] + Rest(lines, plan, bound), plan, at)
         == Undone(lines[..bound + 1] + Rest(lines, plan, bound + 1), plan, at[1..])
  {
    CutBlock(lines, plan, bound);
  }

  lemma SkipStep(lines: seq<string>, plan: Plan, bound: nat)
    requires bound < |lines| == |plan| && plan[bound].None?
    ensures lines[..bound] + Rest(lines, plan, bound) == lines[..bound + 1] + Rest(lines, plan, bound + 1)
  {
    CutBlock(lines, plan, bound);
    var out := lines[..bound] + Rest(lines, plan, bound);
    assert out[..bound] + out[bound..] == out;
  }

  /** The planned places from n on. */
  function PlacesFrom(plan: Plan, n: nat): (r: seq<nat>)
    requires n <= |plan|
    ensures forall k :: 0 <= k < |r| ==> r[k] < |plan|
    decreases |plan| - n
  {
    if n == |plan| then [] else (if plan[n].Some? then [n] else []) + PlacesFrom(plan, n + 1)
  }

  lemma {:induction false} PlacesMeet(plan: Plan, n: nat)
    requires n <= |plan|
    ensures Places(plan, n) + PlacesFrom(plan, n) == PlacesFrom(plan, 0)
  {
    if n > 0 { PlacesMeet(plan, n - 1); }
  }

  lemma {:induction false} UndoneFrom(lines: seq<string>, plan: Plan, bound: nat)
    requires bound <= |lines| == |plan|
    ensures Undone(lines[..bound] + Rest(lines, plan, bound), plan, PlacesFrom(plan, bound)) == lines
    decreases |lines| - bound
  {
    if bound == |lines| {
      assert lines[..bound] + Rest(lines, plan, bound) == lines;
    } else {
      UndoneFrom(lines, plan, bound + 1);
      if plan[bound].Some? {
        assert PlacesFrom(plan, bound)[1..] == PlacesFrom(plan, bound + 1);
        UndoneStep(lines, plan, PlacesFrom(plan, bound), bound);
      } else {
        SkipStep(lines, plan, bound);
        assert PlacesFrom(plan, bound) == PlacesFrom(plan, bound + 1);
      }
    }
  }

  lemma AllPlaces(plan: Plan)
    ensures Places(plan, |plan|) == PlacesFrom(plan, 0)
  {
    PlacesMeet(plan, |plan|);
    assert PlacesFrom(plan, |plan|) == [];
  }

  lemma WholeFile(lines: seq<string>, plan: Plan)
    requires |plan| == |lines|
    ensures lines[..0] + Rest(lines, plan, 0) == Interleaved(lines, plan, |lines|)
  {
    RestFromStart(lines, plan, |lines|);
  }

  /** Deleting the inserted blocks restores the lines. */
  lemma UndoRestores(lines: seq<string>, plan: Plan)
    requires |plan| == |lines|
    ensures Undone(Interleaved(lines, plan, |lines|), plan, Places(plan, |plan|)) == lines
  {
    WholeFile(lines, plan);
    AllPlaces(plan);
    UndoneFrom(lines, plan, 0);
  }
}
