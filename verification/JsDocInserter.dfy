/** The comment inserter for JavaScript files (scripts/document_functions.py), on a file's list of lines. */
module JsDocInserter {
  import opened Common
  import opened Text
  import opened Splicing
  import opened JsDefinitions

  /** How definitions, blank lines and comments are recognised, and how a name is phrased. */
  datatype Style = Style(
    define: string -> Option<Definition>, phrase: string -> string, blank: string -> bool, comment: string -> bool)

  /** The nearest non-blank line of the lines above a position is a comment. */
  predicate Commented(style: Style, above: seq<string>)
  {
    above != [] &&
    if style.blank(above[|above| - 1]) then Commented(style, above[..|above| - 1])
        else style.comment(above[|above| - 1])
  }

  method HasPrecedingComment(style: Style, lines: seq<string>, index: nat) returns (r: bool)
    requires index <= |lines|
    ensures r <==> Commented(style, lines[..index])
    ensures r <==> CommentAbove(style, lines, index)
  {
    CommentedMeans(style, lines, index);
    var cursor: int := index - 1;
    while cursor >= 0 && style.blank(lines[cursor])
      invariant -1 <= cursor < index
      invariant Commented(style, lines[..index]) <==> Commented(style, lines[..cursor + 1])
    {
      assert lines[..cursor + 1][..cursor] == lines[..cursor];
      cursor := cursor - 1;
    }
    if cursor < 0 { return false; }
    return style.comment(lines[cursor]);
  }

  /** A definition without a comment above it. */
  predicate Needy(style: Style, lines: seq<string>, i: nat)
    requires i < |lines|
  {
    style.define(lines[i]).Some? && !Commented(style, lines[..i])
  }

  function Comment(style: Style, d: Definition): (r: seq<string>)
    ensures |r| == 3
  {
    [d.indent + "/**\n",
     d.indent + " * " + style.phrase(d.name) + "\n",
     d.indent + " */\n"]
  }

  /** A comment before each needy line. */
  function CommentPlan(style: Style, lines: seq<string>, n: nat): (r: Plan)
    requires n <= |lines|
    ensures |r| == n
    ensures forall i :: 0 <= i < n ==>
              r[i] == if Needy(style, lines, i) then Some(Comment(style, style.define(lines[i]).value)) else None
  {
    seq(n, i requires 0 <= i < n => if Needy(style, lines, i)
        then Some(Comment(style, style.define(lines[i]).value)) else None)
  }

  /** The documented file: every line in order, a comment before each needy one. */
  function Documented(style: Style, lines: seq<string>): seq<string>
  {
    Interleaved(lines, CommentPlan(style, lines, |lines|), |lines|)
  }

  /** The needy lines, in order. */
  function NeedyLines(style: Style, lines: seq<string>): seq<nat>
  {
    Places(CommentPlan(style, lines, |lines|), |lines|)
  }

  method DocumentJavaScript(style: Style, lines: seq<string>) returns (out: seq<string>, count: nat)
    ensures out == Documented(style, lines)
    ensures count == |NeedyLines(style, lines)| == |Undocumented(style, lines, |lines|)|
    ensures |out| == |lines| + 3 * count && forall i :: 0 <= i < |lines| ==> LineDocumented(style, lines, out, i)
  {
    var insertions: seq<(nat, seq<string>)> := [];
    ghost var plan := CommentPlan(style, lines, |lines|);
    for index := 0 to |lines|
      invariant |insertions| == |Places(plan, index)|
      invariant forall k :: 0 <= k < |insertions| ==>
                  insertions[k].0 == Places(plan, index)[k] && Some(insertions[k].1) == plan[insertions[k].0]
    {
      var definition := style.define(lines[index]);
      var commented := HasPrecedingComment(style, lines, index);
      if definition.Some? && !commented {
        insertions := insertions + [(index, Comment(style, definition.value))];
      }
    }
    out := SpliceInReverse(lines, insertions, plan);
    count := |insertions|;
    DocumentedLines(style, lines);
  }

  // ----- the documented file, line by line

  /** The nearest line above the n-th that is not blank is a comment. */
  ghost predicate CommentAbove(style: Style, lines: seq<string>, n: nat)
    requires n <= |lines|
  {
    exists k :: 0 <= k < n && style.comment(lines[k]) && !style.blank(lines[k])
                && forall m :: k < m < n ==> style.blank(lines[m])
  }

  lemma {:induction false} CommentedMeans(style: Style, lines: seq<string>, n: nat)
    requires n <= |lines|
    ensures Commented(style, lines[..n]) <==> CommentAbove(style, lines, n)
  {
    if n > 0 {
      CommentedMeans(style, lines, n - 1);
      assert lines[..n][..n - 1] == lines[..n - 1];
    }
  }

  /** The definitions among the first n lines that have no comment above them. */
  ghost function Undocumented(style: Style, lines: seq<string>, n: nat): set<nat>
    requires n <= |lines|
  {
    set i: nat | i < n && style.define(lines[i]).Some? && !CommentAbove(style, lines, i)
  }

  lemma {:induction false} NeedyCount(style: Style, lines: seq<string>, n: nat)
    requires n <= |lines|
    ensures |Places(CommentPlan(style, lines, |lines|), n)| == |Undocumented(style, lines, n)|
  {
    var plan := CommentPlan(style, lines, |lines|);
    PlacesCount(plan, n);
    forall i: nat | i < n ensures plan[i].Some? <==> i in Undocumented(style, lines, n) {
      CommentedMeans(style, lines, i);
    }
    assert (set i: nat | i < n && plan[i].Some?) == Undocumented(style, lines, n);
  }

  /** Line i of the file stands in the documented file behind three lines for each undocumented definition up to it,
      its own comment directly above it. */
  ghost predicate LineDocumented(style: Style, lines: seq<string>, out: seq<string>, i: nat)
    requires i < |lines|
  {
    var place := i + 3 * |Undocumented(style, lines, i + 1)|;
    && place < |out| && out[place] == lines[i]
    && (style.define(lines[i]).Some? && !CommentAbove(style, lines, i) ==>
         var d := style.define(lines[i]).value;
         && place >= 3
         && out[place - 3] == d.indent + "/**\n"
         && out[place - 2] == d.indent + " * " + style.phrase(d.name) + "\n"
         && out[place - 1] == d.indent + " */\n")
  }

  lemma {:induction false} PlaceOf(style: Style, lines: seq<string>, plan: Plan, i: nat, place: nat)
    requires plan == CommentPlan(style, lines, |lines|)
    requires i < |lines| && place == i + 3 * |Undocumented(style, lines, i + 1)|
    ensures var out := Documented(style, lines);
            && place < |out| && out[place] == lines[i]
            && |Block(plan, i)| <= place && out[place - |Block(plan, i)|..place] == Block(plan, i)
  {
    NeedyCount(style, lines, i + 1);
    LengthIs(style, lines, plan, i + 1, |Undocumented(style, lines, i + 1)|);
    InterleavedAt(lines, plan, i, place);
  }

  lemma {:induction false} LengthIs(style: Style, lines: seq<string>, plan: Plan, n: nat, count: nat)
    requires plan == CommentPlan(style, lines, |lines|) && n <= |lines| && |Places(plan, n)| == count
    ensures |Interleaved(lines, plan, n)| == n + 3 * count
  {
    DocumentedLength(style, lines, n);
  }

  lemma ThreeLines(out: seq<string>, place: nat, block: seq<string>)
    requires 3 <= place < |out| && |block| == 3 && out[place - 3..place] == block
    ensures out[place - 3] == block[0] && out[place - 2] == block[1] && out[place - 1] == block[2]
  {
  }

  lemma {:induction false} DocumentedMeans(style: Style, lines: seq<string>, i: nat)
    requires i < |lines|
    ensures LineDocumented(style, lines, Documented(style, lines), i)
  {
    var place := i + 3 * |Undocumented(style, lines, i + 1)|;
    PlaceOf(style, lines, CommentPlan(style, lines, |lines|), i, place);
    CommentedMeans(style, lines, i);
    if Needy(style, lines, i) {
      ThreeLines(Documented(style, lines), place, Comment(style, style.define(lines[i]).value));
    }
  }

  /** Line by line and in length, what the documented file is. */
  lemma {:induction false} DocumentedLines(style: Style, lines: seq<string>)
    ensures forall i :: 0 <= i < |lines| ==> LineDocumented(style, lines, Documented(style, lines), i)
    ensures |Documented(style, lines)| == |lines| + 3 * |Undocumented(style, lines, |lines|)|
    ensures |NeedyLines(style, lines)| == |Undocumented(style, lines, |lines|)|
  {
    forall i | 0 <= i < |lines| ensures LineDocumented(style, lines, Documented(style, lines), i) {
      DocumentedMeans(style, lines, i);
    }
    DocumentedLength(style, lines, |lines|);
    NeedyCount(style, lines, |lines|);
  }

  /** Deleting the inserted comments, three lines at each place one was missing, restores the original file. */
  lemma {:induction false} UndoRestoresFile(style: Style, lines: seq<string>)
    ensures Undone(Documented(style, lines), CommentPlan(style, lines, |lines|), NeedyLines(style, lines)) == lines
    ensures |Documented(style, lines)| == |lines| + 3 * |NeedyLines(style, lines)|
  {
    UndoRestores(lines, CommentPlan(style, lines, |lines|));
    DocumentedLength(style, lines, |lines|);
  }

  lemma {:induction false} DocumentedLength(style: Style, lines: seq<string>, n: nat)
    requires n <= |lines|
    ensures var plan := CommentPlan(style, lines, |lines|);
            |Interleaved(lines, plan, n)| == n + 3 * |Places(plan, n)|
  {
    if n > 0 { DocumentedLength(style, lines, n - 1); }
  }

  // ----- every definition ends up documented

  /** A definition is not blank and is indented by blanks; an inserted comment holds no definition and ends like a
      comment. */
  ghost predicate Sensible(style: Style)
  {
    && (forall s :: style.define(s).Some? ==> !style.blank(s) && AllSpace(style.define(s).value.indent))
    && (forall indent, name, k :: AllSpace(indent) && 0 <= k < 3 ==>
         style.define(Comment(style, Definition(indent, name))[k]).None?)
    && (forall indent, name :: AllSpace(indent) ==>
          style.comment(Comment(style, Definition(indent, name))[2])
              && !style.blank(Comment(style, Definition(indent, name))[2]))
  }

  ghost predicate AllDocumented(style: Style, lines: seq<string>)
  {
    forall j :: 0 <= j < |lines| && style.define(lines[j]).Some? ==> Commented(style, lines[..j])
  }

  lemma {:induction false} AppendLine(style: Style, lines: seq<string>, line: string)
    ensures AllDocumented(style, lines) && (style.define(line).Some? ==> Commented(style, lines)) ==>
              AllDocumented(style, lines + [line])
    ensures Commented(style, lines + [line]) <==>
              if style.blank(line) then Commented(style, lines) else style.comment(line)
  {
    var next := lines + [line];
    assert next[..|lines|] == lines;
    assert forall j :: 0 <= j <= |lines| ==> next[..j] == lines[..j];
  }

  lemma {:induction false} AppendComment(style: Style, lines: seq<string>, d: Definition)
    requires Sensible(style) && AllSpace(d.indent) && AllDocumented(style, lines)
    ensures AllDocumented(style, lines + Comment(style, d)) && Commented(style, lines + Comment(style, d))
  {
    var c := Comment(style, d);
    assert d == Definition(d.indent, d.name);
    assert style.define(c[0]).None? && style.define(c[1]).None? && style.define(c[2]).None?;
    AppendLine(style, lines, c[0]);
    AppendLine(style, lines + [c[0]], c[1]);
    AppendLine(style, lines + [c[0]] + [c[1]], c[2]);
    assert lines + c == lines + [c[0]] + [c[1]] + [c[2]];
  }

  lemma {:induction false} DocumentOneMore(style: Style, lines: seq<string>, plan: Plan, n: nat, before: seq<string>)
    requires Sensible(style) && plan == CommentPlan(style, lines, |lines|) && n < |lines|
    requires AllDocumented(style, before) && (Commented(style, before) <==> Commented(style, lines[..n]))
    ensures var out := before + Block(plan, n) + [lines[n]];
            AllDocumented(style, out) && (Commented(style, out) <==> Commented(style, lines[..n + 1]))
  {
    var line := lines[n];
    assert lines[..n + 1] == lines[..n] + [line];
    AppendLine(style, lines[..n], line);
    if Needy(style, lines, n) {
      var d := style.define(line).value;
      AppendComment(style, before, d);
      AppendLine(style, before + Comment(style, d), line);
    } else {
      AppendLine(style, before, line);
      assert before + [] == before;
    }
  }

  /** The documented part so far is documented, and what it leaves above the next line is what stood there before. */
  ghost predicate Faithful(style: Style, out: seq<string>, above: seq<string>)
  {
    AllDocumented(style, out) && (Commented(style, out) <==> Commented(style, above))
  }

  lemma {:induction false} DocumentedSoFar(style: Style, lines: seq<string>, plan: Plan, n: nat)
    requires Sensible(style) && plan == CommentPlan(style, lines, |lines|) && n <= |lines|
    ensures Faithful(style, Interleaved(lines, plan, n), lines[..n])
  {
    if n == 0 {
      assert lines[..n] == [];
    } else {
      DocumentedSoFar(style, lines, plan, n - 1);
      DocumentOneMore(style, lines, plan, n - 1, Interleaved(lines, plan, n - 1));
    }
  }

  /** After one run every definition, old or moved, has a comment above it, so a second run inserts nothing. */
  lemma {:induction false} SecondRunInsertsNothing(style: Style, lines: seq<string>)
    requires Sensible(style)
    ensures var out := Documented(style, lines);
            AllDocumented(style, out) && NeedyLines(style, out) == [] && Documented(style, out) == out
  {
    var out := Documented(style, lines);
    DocumentedSoFar(style, lines, CommentPlan(style, lines, |lines|), |lines|);
    NothingSpliced(out, CommentPlan(style, out, |out|), |out|);
    assert out[..|out|] == out;
  }

  // ----- the tests the script actually makes

  predicate IsBlank(line: string) { Strip(line) == [] }

  predicate IsComment(line: string)
  {
    var value := Strip(line);
    "//" <= value || (|value| >= 2 && value[|value| - 2..] == "*/")
  }

  /** Blanks behind a text do not hide what it starts with. */
  lemma StartSurvives(t: string, mark: string)
    requires mark != [] && !IsSpace(mark[|mark| - 1])
    ensures mark <= StripRight(t) <==> mark <= t
  {
    StripRightIsPrefix(t);
    if mark <= t { assert t[|mark| - 1] == mark[|mark| - 1]; }
  }

  ghost predicate MarkBefore(s: string, mark: string, start: string, gap: string)
  {
    AllSpace(gap) && s == start + mark + gap
  }

  ghost predicate ClosesComment(s: string) { exists start, gap :: MarkBefore(s, "*/", start, gap) }

  lemma StripIsCut(line: string) returns (before: string, after: string)
    ensures AllSpace(before) && AllSpace(after) && line == before + Strip(line) + after
  {
    before := BlankInFront(line);
    after := BlankBehind(StripLeft(line));
    AppendAssociates(before, Strip(line), after);
  }

  lemma EndIsClosed(line: string, value: string)
    requires value == Strip(line) && |value| >= 2 && value[|value| - 2..] == "*/"
    ensures ClosesComment(line)
  {
    var before, after := StripIsCut(line);
    var start := before + value[..|value| - 2];
    CutAndJoin(value, |value| - 2);
    AppendAssociates(before, value[..|value| - 2], "*/");
    assert MarkBefore(line, "*/", start, after);
  }

  lemma ClosedEnds(line: string, value: string, start: string, gap: string)
    requires value == Strip(line) && MarkBefore(line, "*/", start, gap)
    ensures |value| >= 2 && value[|value| - 2..] == "*/"
  {
    var before, after := StripIsCut(line);
    var text := start + "*/";
    assert text[|text| - 1] == '/' && text[|text| - 2] == '*' && line[|start|] == '*';
    StripRightPast(text, gap);
    assert value != [];
    StripRightPast(before + value, after);
    assert before + value == text;
    assert |start| >= |before|;
  }

  /** A line is a comment when behind blanks it starts with two slashes or before blanks it ends with a star and a
      slash. */
  lemma CommentMeans(line: string)
    ensures IsComment(line) <==> (exists gap, rest :: MarkBehind(line, "//", gap, rest)) || ClosesComment(line)
  {
    var value := Strip(line);
    StartSurvives(StripLeft(line), "//");
    MarkBehindBlanks(line, "//");
    if |value| >= 2 && value[|value| - 2..] == "*/" { EndIsClosed(line, value); }
    if start, gap :| MarkBefore(line, "*/", start, gap) { ClosedEnds(line, value, start, gap); }
  }

  /** And blank when it holds blanks only. */
  lemma BlankMeans(line: string)
    ensures IsBlank(line) <==> AllSpace(line)
  {
    if AllSpace(line) {
      StripLeftBlank(line);
    } else if IsBlank(line) {
      var _, _ := StripIsCut(line);
    }
  }

  /** The script's own style; `word` is the pattern class of word characters, `phrase` words a name. */
  function ScriptStyle(word: char -> bool, phrase: string -> string): Style
  {
    Style((line: string) => Define(word, line), phrase, IsBlank, IsComment)
  }

  lemma ClosingLine(indent: string)
    requires AllSpace(indent)
    ensures Strip(indent + " */\n") == "*/"
  {
    assert indent + " */\n" == (indent + " ") + "*/\n";
    StripLeftPast(indent + " ", "*/\n");
    assert "*/\n" == "*/" + "\n";
    StripRightPast("*/", "\n");
  }

  lemma {:induction false} CommentFirstChar(style: Style, d: Definition, k: nat)
    requires AllSpace(d.indent) && k < 3
    ensures StripLeft(Comment(style, d)[k]) != [] && StripLeft(Comment(style, d)[k])[0] in {'/', '*'}
  {
    if k == 0 {
      StripLeftPast(d.indent, "/**\n");
    } else if k == 1 {
      var rest := "* " + style.phrase(d.name) + "\n";
      assert Comment(style, d)[1] == (d.indent + " ") + rest;
      StripLeftPast(d.indent + " ", rest);
    } else {
      assert Comment(style, d)[2] == (d.indent + " ") + "*/\n";
      StripLeftPast(d.indent + " ", "*/\n");
    }
  }

  lemma CodeIsNotBlank(line: string)
    requires StripLeft(line) != []
    ensures !IsBlank(line)
  {
    var t := StripLeft(line);
    StripRightIsPrefix(t);
    assert !IsSpace(t[0]);
  }

  lemma CommentDefinesNothing(word: char -> bool, phrase: string -> string, d: Definition, k: nat)
    requires AllSpace(d.indent) && k < 3
    ensures Define(word, Comment(ScriptStyle(word, phrase), d)[k]).None?
  {
    var line := Comment(ScriptStyle(word, phrase), d)[k];
    CommentFirstChar(ScriptStyle(word, phrase), d, k);
    if Define(word, line).Some? { DefinitionShape(word, line); }
  }

  /** The script's patterns and its blank and comment tests make a sensible style. */
  lemma ScriptIsSensible(word: char -> bool, phrase: string -> string)
    ensures Sensible(ScriptStyle(word, phrase))
  {
    var style := ScriptStyle(word, phrase);
    forall s | style.define(s).Some? ensures !style.blank(s) && AllSpace(style.define(s).value.indent) {
      DefinitionShape(word, s);
      CodeIsNotBlank(s);
    }
    forall indent, name, k | AllSpace(indent) && 0 <= k < 3
      ensures style.define(Comment(style, Definition(indent, name))[k]).None?
    {
      CommentDefinesNothing(word, phrase, Definition(indent, name), k);
    }
    forall indent, name | AllSpace(indent)
      ensures style.comment(Comment(style, Definition(indent, name))[2])
      ensures !style.blank(Comment(style, Definition(indent, name))[2])
    {
      ClosingLine(indent);
    }
  }

  /** So on any file the script's second run inserts nothing, every definition has a comment above it by then, and
      taking the inserted lines out again gives back the file. */
  lemma ScriptRunsOnce(word: char -> bool, phrase: string -> string, lines: seq<string>)
    ensures var style := ScriptStyle(word, phrase);
            var out := Documented(style, lines);
            && AllDocumented(style, out) && Documented(style, out) == out
            && Undone(out, CommentPlan(style, lines, |lines|), NeedyLines(style, lines)) == lines
  {
    ScriptIsSensible(word, phrase);
    SecondRunInsertsNothing(ScriptStyle(word, phrase), lines);
    UndoRestoresFile(ScriptStyle(word, phrase), lines);
  }
}
