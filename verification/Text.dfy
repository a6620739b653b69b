/** The string operations the service relies on: `lower`, `strip`, `split` and `" ".join`. */
module Text {
  import C = Common

  /** Python's `str.isspace` characters. */
  predicate IsSpace(c: char)
  {
    var code := c as int;
    || 9 <= code <= 13 || 28 <= code <= 32 || code == 0x85 || code == 0xA0 || code == 0x1680
    || 0x2000 <= code <= 0x200A || code == 0x2028 || code == 0x2029 || code == 0x202F
    || code == 0x205F || code == 0x3000
  }

  /** Lower case of Latin and Russian letters, and of the Kelvin sign, the one other character that becomes an ASCII
      letter. */
  function LowerChar(c: char): (r: char)
    ensures IsSpace(r) <==> IsSpace(c)
  {
    var code := c as int;
    if 'A' <= c <= 'Z' then (code + 32) as char
    else if 0x410 <= code <= 0x42F then (code + 32) as char
    else if code == 0x401 then 0x451 as char
    else if code == 0x212A then 'k'
    else c
  }

  function Lower(s: string): (r: string)
    ensures |r| == |s| && forall i :: 0 <= i < |s| ==> r[i] == LowerChar(s[i])
  {
    seq(|s|, i requires 0 <= i < |s| => LowerChar(s[i]))
  }

  predicate Contains(s: string, part: string)
  {
    part <= s || (s != [] && Contains(s[1..], part))
  }

  ghost predicate HasPart(s: string, part: string) { exists a, b :: s == a + part + b }

  lemma {:induction false} ContainsIff(s: string, part: string)
    ensures Contains(s, part) <==> HasPart(s, part)
  {
    if part <= s {
      assert s == [] + part + s[|part|..];
    } else if s != [] {
      ContainsIff(s[1..], part);
      if a, b :| s == a + part + b {
        assert a == [] ==> s == part + b;
        assert s[1..] == a[1..] + part + b;
      }
      if a, b :| s[1..] == a + part + b {
        assert s == ([s[0]] + a) + part + b;
      }
    }
  }

  function StripLeft(s: string): (r: string)
    ensures |r| <= |s| && (r != [] ==> !IsSpace(r[0]))
  {
    if s != [] && IsSpace(s[0]) then StripLeft(s[1..]) else s
  }

  function StripRight(s: string): (r: string)
    ensures |r| <= |s| && (r != [] ==> !IsSpace(r[|r| - 1]))
  {
    if s != [] && IsSpace(s[|s| - 1]) then StripRight(s[..|s| - 1]) else s
  }

  function Strip(s: string): string { StripRight(StripLeft(s)) }

  predicate IsWord(w: string) { w != [] && forall i :: 0 <= i < |w| ==> !IsSpace(w[i]) }

  function WordLength(s: string): (n: nat)
    ensures n <= |s| && (forall i :: 0 <= i < n ==> !IsSpace(s[i])) && (n < |s| ==> IsSpace(s[n]))
  {
    if s == [] || IsSpace(s[0]) then 0 else 1 + WordLength(s[1..])
  }

  function Split(s: string): seq<string>
    decreases |s|
  {
    var t := StripLeft(s);
    if t == [] then [] else
      var n := WordLength(t);
      [t[..n]] + Split(t[n..])
  }

  function Join(words: seq<string>): string
  {
    if words == [] then "" else if |words| == 1 then words[0] else words[0] + " " + Join(words[1..])
  }

  // ----- lower case

  /** What is used of `str.lower`: it works blank-delimited word by word, never touches blanks, turns words into words,
      and has nothing left to do on what it returns. How it maps letters, and whether that takes their neighbours in
      the word into account, is left open. */
  ghost predicate LowersByWord(lower: string -> string)
  {
    && lower("") == ""
    && (forall a, c, b {:trigger lower(a + [c] + b)} :: IsSpace(c) ==> lower(a + [c] + b) == lower(a) + [c] + lower(b))
    && (forall w {:trigger lower(w)} :: IsWord(w) ==> IsWord(lower(w)))
    && (forall w {:trigger lower(lower(w))} :: IsWord(w) ==> lower(lower(w)) == lower(w))
  }

  /** The simple letter-by-letter mapping is of that kind. */
  lemma LowerIsByWord()
    ensures LowersByWord(Lower)
  {
    assert Lower("") == "";
    forall a: string, c: char, b: string | IsSpace(c) ensures Lower(a + [c] + b) == Lower(a) + [c] + Lower(b) {
      assert LowerChar(c) == c;
    }
    forall w | IsWord(w) ensures IsWord(Lower(w)) && Lower(Lower(w)) == Lower(w) {
      assert forall i :: 0 <= i < |w| ==> LowerChar(LowerChar(w[i])) == LowerChar(w[i]);
    }
  }

  function LowerAll(lower: string -> string, words: seq<string>): seq<string>
  {
    C.Map(lower, words)
  }

  ghost predicate AllWords(words: seq<string>) { forall i :: 0 <= i < |words| ==> IsWord(words[i]) }

  lemma {:induction false} SplitWords(s: string)
    ensures AllWords(Split(s))
    decreases |s|
  {
    var t := StripLeft(s);
    if t != [] {
      var n := WordLength(t);
      SplitWords(t[n..]);
      assert Split(s) == [t[..n]] + Split(t[n..]);
    }
  }

  lemma {:induction false} WordLengthIs(w: string, rest: string)
    requires forall i :: 0 <= i < |w| ==> !IsSpace(w[i])
    requires rest != [] ==> IsSpace(rest[0])
    ensures WordLength(w + rest) == |w|
  {
    if w != [] {
      assert (w + rest)[1..] == w[1..] + rest;
      WordLengthIs(w[1..], rest);
    } else {
      assert w + rest == rest;
    }
  }

  lemma JoinStep(words: seq<string>)
    requires |words| > 1
    ensures Join(words) == words[0] + (" " + Join(words[1..]))
  {
    C.AppendAssociates(words[0], " ", Join(words[1..]));
  }

  /** A text that starts with a word splits into that word and the rest. */
  lemma SplitFirst(w: string, rest: string)
    requires IsWord(w) && (rest != [] ==> IsSpace(rest[0]))
    ensures Split(w + rest) == [w] + Split(rest)
  {
    WordLengthIs(w, rest);
    C.CutAppend(w, rest);
    assert StripLeft(w + rest) == w + rest;
  }

  lemma {:induction false} SplitJoin(words: seq<string>)
    requires AllWords(words)
    ensures Split(Join(words)) == words
  {
    if |words| == 1 {
      SplitFirst(words[0], []);
      C.AppendNothing(words[0]);
      assert Split([]) == [];
      C.HeadAndTail(words);
    } else if |words| > 1 {
      var rest := Join(words[1..]);
      JoinStep(words);
      SplitFirst(words[0], " " + rest);
      SplitSkips(' ', rest);
      SplitJoin(words[1..]);
      C.HeadAndTail(words);
    }
  }

  lemma SplitSkips(c: char, rest: string)
    requires IsSpace(c)
    ensures Split([c] + rest) == Split(rest)
  {
    assert ([c] + rest)[1..] == rest;
    assert StripLeft([c] + rest) == StripLeft(rest);
  }

  lemma LowerAllCons(lower: string -> string, word: string, words: seq<string>)
    ensures LowerAll(lower, [word] + words) == [lower(word)] + LowerAll(lower, words)
  {
  }

  lemma SplitWord(w: string)
    requires IsWord(w)
    ensures Split(w) == [w]
  {
    SplitFirst(w, []);
    C.AppendNothing(w);
    assert Split([]) == [];
  }

  lemma SplitAtBlank(w: string, tail: string)
    requires IsWord(w) && tail != [] && IsSpace(tail[0])
    ensures Split(w + tail) == [w] + Split(tail[1..])
  {
    SplitFirst(w, tail);
    SkipBlank(tail);
  }

  lemma LowerAtBlank(lower: string -> string, w: string, tail: string)
    requires LowersByWord(lower) && tail != [] && IsSpace(tail[0])
    ensures lower(w + tail) == lower(w) + ([tail[0]] + lower(tail[1..]))
  {
    assert w + [tail[0]] + tail[1..] == w + tail;
    C.AppendAssociates(lower(w), [tail[0]], lower(tail[1..]));
  }

  /** Survives a blank in front, with or without a word before it. */
  ghost predicate Inductive(holds: string -> bool)
  {
    && (forall tail :: tail != [] && IsSpace(tail[0]) && holds(tail[1..]) ==> holds(tail))
    && (forall w, tail :: IsWord(w) && tail != [] && IsSpace(tail[0]) && holds(tail[1..]) ==> holds(w + tail))
  }

  /** What holds of the empty text and of words, and is inductive, holds of all texts. */
  lemma {:induction false} ByWords(holds: string -> bool, s: string)
    requires Inductive(holds) && holds("") && (forall w :: IsWord(w) ==> holds(w))
    ensures holds(s)
    decreases |s|
  {
    var n := WordLength(s);
    if n < |s| {
      var w, tail := s[..n], s[n..];
      C.CutAndJoin(s, n);
      ByWords(holds, tail[1..]);
    }
  }

  ghost predicate SplitsAlike(lower: string -> string, s: string) { Split(lower(s)) == LowerAll(lower, Split(s)) }

  ghost function Alike(lower: string -> string): string -> bool { s => SplitsAlike(lower, s) }

  lemma AlikeIsInductive(lower: string -> string)
    requires LowersByWord(lower)
    ensures Inductive(Alike(lower))
  {
    forall tail | tail != [] && IsSpace(tail[0]) && Alike(lower)(tail[1..]) ensures Alike(lower)(tail) {
      SplitLowerBlank(lower, tail);
    }
    forall w, tail | IsWord(w) && tail != [] && IsSpace(tail[0]) && Alike(lower)(tail[1..])
      ensures Alike(lower)(w + tail)
    {
      SplitLowerStep(lower, w + tail, w, tail);
    }
  }

  /** Words can be lowered before or after splitting. */
  lemma SplitLower(lower: string -> string, s: string)
    requires LowersByWord(lower)
    ensures SplitsAlike(lower, s)
  {
    forall w | IsWord(w) ensures Alike(lower)(w) { SplitLowerWord(lower, w); }
    AlikeIsInductive(lower);
    ByWords(Alike(lower), s);
  }

  lemma SplitLowerWord(lower: string -> string, w: string)
    requires LowersByWord(lower) && IsWord(w)
    ensures SplitsAlike(lower, w)
  {
    SplitWord(w);
    SplitWord(lower(w));
  }

  lemma SplitLowerBlank(lower: string -> string, s: string)
    requires LowersByWord(lower) && s != [] && IsSpace(s[0])
    ensures SplitsAlike(lower, s[1..]) ==> SplitsAlike(lower, s)
  {
    LowerAtStart(lower, s);
    SkipBlank(lower(s));
    SkipBlank(s);
  }

  lemma SkipBlank(s: string)
    requires s != [] && IsSpace(s[0])
    ensures Split(s) == Split(s[1..])
  {
    C.HeadAndTail(s);
    SplitSkips(s[0], s[1..]);
  }

  lemma LowerAtStart(lower: string -> string, s: string)
    requires LowersByWord(lower) && s != [] && IsSpace(s[0])
    ensures lower(s) != [] && lower(s)[0] == s[0] && lower(s)[1..] == lower(s[1..])
  {
    assert "" + s == s;
    LowerAtBlank(lower, "", s);
  }

  lemma SplitLowerStep(lower: string -> string, s: string, w: string, tail: string)
    requires LowersByWord(lower) && s == w + tail && IsWord(w) && tail != [] && IsSpace(tail[0])
    ensures SplitsAlike(lower, tail[1..]) ==> SplitsAlike(lower, s)
  {
    var lowered := [tail[0]] + lower(tail[1..]);
    LowerAtBlank(lower, w, tail);
    SplitAtBlank(w, tail);
    SplitAtBlank(lower(w), lowered);
    C.CutAppend([tail[0]], lower(tail[1..]));
    LowerAllCons(lower, w, Split(tail[1..]));
  }

  lemma {:induction false} LowerJoin(lower: string -> string, words: seq<string>)
    requires LowersByWord(lower)
    ensures lower(Join(words)) == Join(LowerAll(lower, words))
  {
    if |words| > 1 {
      LowerJoin(lower, words[1..]);
      assert LowerAll(lower, words)[1..] == LowerAll(lower, words[1..]);
      var first, rest := words[0], Join(words[1..]);
      assert lower(first + [' '] + rest) == lower(first) + [' '] + lower(rest);
    }
  }

  lemma {:induction false} StripLeftAllSpaces(s: string)
    requires forall i :: 0 <= i < |s| ==> IsSpace(s[i])
    ensures StripLeft(s) == []
  {
    if s != [] { StripLeftAllSpaces(s[1..]); }
  }

  lemma {:induction false} SplitTrailing(s: string, tail: string)
    requires forall i :: 0 <= i < |tail| ==> IsSpace(tail[i])
    ensures Split(s + tail) == Split(s)
    decreases |s|
  {
    StripLeftTrailing(s, tail);
    var t := StripLeft(s);
    if t != [] {
      var n := WordLength(t);
      WordLengthTrailing(t, tail);
      C.CutInside(t, tail, n);
      SplitTrailing(t[n..], tail);
      assert Split(s) == [t[..n]] + Split(t[n..]);
      assert Split(s + tail) == [(t + tail)[..n]] + Split((t + tail)[n..]);
    }
  }

  lemma {:induction false} StripLeftTrailing(s: string, tail: string)
    requires forall i :: 0 <= i < |tail| ==> IsSpace(tail[i])
    ensures StripLeft(s + tail) == if StripLeft(s) == [] then [] else StripLeft(s) + tail
  {
    if s == [] {
      StripLeftAllSpaces(tail);
      assert s + tail == tail;
    } else if IsSpace(s[0]) {
      assert (s + tail)[1..] == s[1..] + tail;
      StripLeftTrailing(s[1..], tail);
    }
  }

  lemma {:induction false} WordLengthTrailing(s: string, tail: string)
    requires s != [] && forall i :: 0 <= i < |tail| ==> IsSpace(tail[i])
    ensures WordLength(s + tail) == WordLength(s)
  {
    var n := WordLength(s);
    assert s + tail == s[..n] + (s[n..] + tail);
    WordLengthIs(s[..n], s[n..] + tail);
  }

  lemma StripLeftTwice(s: string)
    ensures StripLeft(StripLeft(s)) == StripLeft(s)
  {
  }

  /** `StripRight` cuts off blanks and nothing else. */
  lemma {:induction false} StripRightIsPrefix(s: string)
    ensures StripRight(s) <= s && forall i :: |StripRight(s)| <= i < |s| ==> IsSpace(s[i])
  {
    if s != [] && IsSpace(s[|s| - 1]) { StripRightIsPrefix(s[..|s| - 1]); }
  }

  lemma StripRightCuts(t: string)
    ensures Split(StripRight(t)) == Split(t)
  {
    var r := StripRight(t);
    StripRightIsPrefix(t);
    assert t[..|r|] == r;
    SplitTrailing(r, t[|r|..]);
    C.CutAndJoin(t, |r|);
  }

  /** `split` already ignores what `strip` removes. */
  lemma SplitStrip(s: string)
    ensures Split(Strip(s)) == Split(s)
  {
    StripLeftTwice(s);
    StripRightCuts(StripLeft(s));
  }

  /** The normal form of a choice name or an answer. */
  function Normalize(lower: string -> string, value: string): string { Join(Split(lower(Strip(value)))) }

  function Normalizer(lower: string -> string): string -> string { (value: string) => Normalize(lower, value) }

  lemma NormalizeIsLowerSplit(lower: string -> string, value: string)
    requires LowersByWord(lower)
    ensures Normalize(lower, value) == Join(LowerAll(lower, Split(value)))
  {
    SplitLower(lower, Strip(value));
    SplitStrip(value);
  }

  lemma WordIsNormal(lower: string -> string, w: string)
    requires LowersByWord(lower) && IsWord(w) && lower(w) == w
    ensures Normalize(lower, w) == w
  {
    NormalizeIsLowerSplit(lower, w);
    SplitWord(w);
    assert LowerAll(lower, [w]) == [w];
  }

  lemma BlankIsNothing(lower: string -> string, s: string)
    requires LowersByWord(lower) && forall i :: 0 <= i < |s| ==> IsSpace(s[i])
    ensures Normalize(lower, s) == ""
  {
    NormalizeIsLowerSplit(lower, s);
    StripLeftAllSpaces(s);
    assert LowerAll(lower, []) == [];
  }

  lemma LoweredWords(lower: string -> string, words: seq<string>)
    requires LowersByWord(lower) && AllWords(words)
    ensures LowerAll(lower, LowerAll(lower, words)) == LowerAll(lower, words)
    ensures AllWords(LowerAll(lower, words))
  {
  }

  lemma NormalizeTwice(lower: string -> string, value: string)
    requires LowersByWord(lower)
    ensures Normalize(lower, Normalize(lower, value)) == Normalize(lower, value)
  {
    NormalizeIsLowerSplit(lower, value);
    NormalizeIsLowerSplit(lower, Normalize(lower, value));
    SplitWords(value);
    LoweredWords(lower, Split(value));
    SplitJoin(LowerAll(lower, Split(value)));
  }

  /** Applying it twice changes nothing. */
  ghost predicate Idempotent(norm: string -> string)
  {
    forall v :: norm(norm(v)) == norm(v)
  }

  lemma NormalizerIsIdempotent(lower: string -> string)
    requires LowersByWord(lower)
    ensures Idempotent(Normalizer(lower))
  {
    forall v ensures Normalizer(lower)(Normalizer(lower)(v)) == Normalizer(lower)(v) {
      NormalizeTwice(lower, v);
    }
  }

  /** The conversation engine collapses an answer's blanks before lowering it; the normal form is the same. */
  lemma AnswerNormalForm(lower: string -> string, raw: string)
    requires LowersByWord(lower)
    ensures lower(Join(Split(Strip(raw)))) == Normalize(lower, raw)
  {
    SplitStrip(raw);
    LowerJoin(lower, Split(raw));
    NormalizeIsLowerSplit(lower, raw);
  }

  /** ... and it compares it with labels it normalises without stripping; that is the same form too. */
  lemma LabelNormalForm(lower: string -> string, value: string)
    requires LowersByWord(lower)
    ensures Join(Split(lower(value))) == Normalize(lower, value)
  {
    SplitLower(lower, value);
    NormalizeIsLowerSplit(lower, value);
  }
}
