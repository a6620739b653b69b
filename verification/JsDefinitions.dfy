/** How the comment inserter recognises a JavaScript definition: its three patterns (scripts/document_functions.py). */
module JsDefinitions {
  import opened Common
  import opened Text

  datatype Definition = Definition(indent: string, name: string)

  const CONTROL_WORDS: set<string> := {"if", "for", "while", "switch", "catch", "with"}

  predicate AllSpace(s: string) { forall i :: 0 <= i < |s| ==> IsSpace(s[i]) }

  /** `[A-Za-z_$]` */
  predicate IsNameStart(c: char) { 'a' <= c <= 'z' || 'A' <= c <= 'Z' || c == '_' || c == '$' }

  function NameLength(word: char -> bool, s: string): (n: nat)
    ensures n <= |s| && forall i :: 0 <= i < n ==> word(s[i]) || s[i] == '$'
    ensures n < |s| ==> !word(s[n]) && s[n] != '$'
  {
    if s != [] && (word(s[0]) || s[0] == '$') then 1 + NameLength(word, s[1..]) else 0
  }

  predicate IsName(word: char -> bool, name: string)
  {
    name != [] && IsNameStart(name[0]) && forall i :: 1 <= i < |name| ==> word(name[i]) || name[i] == '$'
  }

  /** A keyword or a name in front: a text that begins neither blank nor with a slash or star. */
  predicate BeginsLikeCode(code: string) { code != [] && IsNameStart(code[0]) }

  /** `[A-Za-z_$][\w$]*`, with the text behind it; `word` is `\w`. */
  function ReadName(word: char -> bool, s: string): (r: Option<(string, string)>)
    ensures r.Some? <==> BeginsLikeCode(s)
    ensures r.Some? ==> IsName(word, r.value.0) && s == r.value.0 + r.value.1
  {
    if s == [] || !IsNameStart(s[0]) then None else
      var n := 1 + NameLength(word, s[1..]);
      Some((s[..n], s[n..]))
  }

  /** The text behind a keyword and at least one blank. */
  function AfterKeyword(keyword: string, s: string): (r: Option<string>)
    requires BeginsLikeCode(keyword)
    ensures r.Some? ==> BeginsLikeCode(s)
  {
    if keyword < s && IsSpace(s[|keyword|]) then Some(StripLeft(s[|keyword|..])) else None
  }

  /** The name, if the text behind it starts with an opening parenthesis. */
  function CalledName(word: char -> bool, s: string): (r: Option<(string, string)>)
    ensures r.Some? ==> BeginsLikeCode(s) && IsName(word, r.value.0)
  {
    var r := ReadName(word, s);
    if r.None? then None else
      var rest := StripLeft(r.value.1);
      if "(" <= rest then Some((r.value.0, rest[1..])) else None
  }

  // ----- function f(

  function FunctionName(word: char -> bool, code: string): (r: Option<string>)
    ensures r.Some? ==> BeginsLikeCode(code) && IsName(word, r.value)
  {
    var plain := AfterKeyword("async", code);
    var r := AfterKeyword("function", if plain.Some? then plain.value else code);
    if r.None? then None else
      var called := CalledName(word, r.value);
      if called.Some? then Some(called.value.0) else None
  }

  // ----- const f = (...) =>

  /** The text behind the first closing parenthesis. */
  function AfterParenthesis(s: string): Option<string>
  {
    if s == [] then None else if s[0] == ')' then Some(s[1..]) else AfterParenthesis(s[1..])
  }

  /** Parameters and an arrow. */
  predicate IsArrow(word: char -> bool, s: string)
  {
    var listed := if "(" <= s then AfterParenthesis(s[1..]) else None;
    var named := ReadName(word, s);
    || (listed.Some? && "=>" <= StripLeft(listed.value))
    || (named.Some? && "=>" <= StripLeft(named.value.1))
  }

  predicate IsArrowValue(word: char -> bool, s: string)
  {
    IsArrow(word, s) || ("async" <= s && IsArrow(word, StripLeft(s[5..])))
  }

  function AfterDeclaration(code: string): (r: Option<string>)
    ensures r.Some? ==> BeginsLikeCode(code)
  {
    if AfterKeyword("const", code).Some? then AfterKeyword("const", code)
    else if AfterKeyword("let", code).Some? then AfterKeyword("let", code)
    else AfterKeyword("var", code)
  }

  function ArrowName(word: char -> bool, code: string): (r: Option<string>)
    ensures r.Some? ==> BeginsLikeCode(code) && IsName(word, r.value)
  {
    var declared := AfterDeclaration(code);
    var named := if declared.Some? then ReadName(word, declared.value) else None;
    if named.None? then None else
      var rest := StripLeft(named.value.1);
      if "=" <= rest && IsArrowValue(word, StripLeft(rest[1..])) then Some(named.value.0) else None
  }

  // ----- f(...) {

  /** The text ends in a closing parenthesis and an opening brace, and holds no semicolon before them. */
  predicate OpensBody(s: string)
  {
    var line := StripRight(s);
    line != [] && line[|line| - 1] == '{' &&
    var head := StripRight(line[..|line| - 1]);
    head != [] && head[|head| - 1] == ')' && ';' !in head[..|head| - 1]
  }

  function PlainMethodName(word: char -> bool, code: string): (r: Option<string>)
    ensures r.Some? ==> BeginsLikeCode(code) && IsName(word, r.value)
  {
    var called := CalledName(word, code);
    if called.Some? && OpensBody(called.value.1) then Some(called.value.0) else None
  }

  function MethodName(word: char -> bool, code: string): (r: Option<string>)
    ensures r.Some? ==> BeginsLikeCode(code) && IsName(word, r.value)
  {
    var plain := AfterKeyword("async", code);
    if plain.Some? && PlainMethodName(word, plain.value).Some? then PlainMethodName(word, plain.value)
    else PlainMethodName(word, code)
  }

  // ----- a line

  predicate Accepted(name: Option<string>) { name.Some? && name.value !in CONTROL_WORDS }

  /** The first pattern that matches with a name that is not a control word decides. */
  function DefinedName(word: char -> bool, code: string): (r: Option<string>)
    ensures r.Some? ==> BeginsLikeCode(code) && IsName(word, r.value) && r.value !in CONTROL_WORDS
  {
    if Accepted(FunctionName(word, code)) then FunctionName(word, code)
    else if Accepted(ArrowName(word, code)) then ArrowName(word, code)
    else if Accepted(MethodName(word, code)) then MethodName(word, code)
    else None
  }

  function Define(word: char -> bool, line: string): Option<Definition>
  {
    var code := StripLeft(line);
    var name := DefinedName(word, code);
    if name.None? then None else Some(Definition(line[..|line| - |code|], name.value))
  }

  /** A line is its blank indent and the code behind it. */
  lemma {:induction false} IndentIsBlank(line: string)
    ensures var n := |line| - |StripLeft(line)|; AllSpace(line[..n]) && line[n..] == StripLeft(line)
  {
    if line != [] && IsSpace(line[0]) {
      IndentIsBlank(line[1..]);
      var n := |line| - |StripLeft(line)|;
      assert line[1..][..n - 1] == line[1..n] && line[1..][n - 1..] == line[n..];
      assert forall i :: 1 <= i < n ==> line[i] == line[1..][..n - 1][i - 1];
    }
  }

  /** A recognised definition is a blank indent and code that begins with a letter, `_` or `$`; its name is one and is
      not a control word. */
  lemma DefinitionShape(word: char -> bool, line: string)
    ensures match Define(word, line)
            case None => true
            case Some(d) =>
              && AllSpace(d.indent) && line == d.indent + StripLeft(line) && BeginsLikeCode(StripLeft(line))
              && IsName(word, d.name) && d.name !in CONTROL_WORDS
  {
    var code := StripLeft(line);
    IndentIsBlank(line);
    CutAndJoin(line, |line| - |code|);
  }

  // ----- the three patterns as the lines they match

  /** What is used of `\w`: letters and `_` are in it, and the blanks and marks that end a name in the patterns are
      not. */
  ghost predicate WordClass(word: char -> bool)
  {
    && (forall c :: word(c) ==> !IsSpace(c) && c != '(' && c != '=')
    && (forall c :: IsNameStart(c) && c != '$' ==> word(c))
  }

  ghost predicate EndsName(word: char -> bool, rest: string)
  {
    rest == [] || !(word(rest[0]) || rest[0] == '$')
  }

  /** The keyword, at least one blank, and the rest: `keyword\s+`. */
  ghost predicate KeywordThen(keyword: string, s: string, rest: string)
  {
    exists gap :: AllSpace(gap) && gap != [] && s == keyword + gap + rest
  }

  /** `[A-Za-z_$][\w$]*\s*` and the mark, then the rest. */
  ghost predicate NameThen(word: char -> bool, s: string, name: string, mark: string, rest: string)
  {
    IsName(word, name) && exists gap :: AllSpace(gap) && s == name + gap + mark + rest
  }

  /** With or without `async\s+` in front. */
  ghost predicate MaybeAsync(code: string, plain: string) { plain == code || KeywordThen("async", code, plain) }

  /** `(?:async\s+)?function\s+NAME\s*\(` */
  ghost predicate FunctionCode(word: char -> bool, code: string, name: string)
  {
    exists plain, called, rest ::
      MaybeAsync(code, plain) && KeywordThen("function", plain, called) && NameThen(word, called, name, "(", rest)
  }

  /** `\([^)]*\)\s*=>` or `NAME\s*=>` */
  ghost predicate ArrowHead(word: char -> bool, s: string)
  {
    || (exists inner, gap, rest ::
         ')' !in inner && AllSpace(gap) && s == "(" + (inner + ")" + (gap + "=>" + rest)))
    || (exists name, rest :: NameThen(word, s, name, "=>", rest))
  }

  /** `\s*(?:async\s*)?` and an arrow head. */
  ghost predicate ArrowValue(word: char -> bool, s: string)
  {
    exists gap, t :: AllSpace(gap) && s == gap + t && (ArrowHead(word, t) || AsyncHead(word, t))
  }

  /** `async\s*` and an arrow head. */
  ghost predicate AsyncHead(word: char -> bool, t: string)
  {
    exists gap, head :: AllSpace(gap) && t == "async" + (gap + head) && ArrowHead(word, head)
  }

  /** `(?:const|let|var)\s+NAME\s*=` and an arrow function. */
  ghost predicate ArrowCode(word: char -> bool, code: string, name: string)
  {
    exists keyword, named, value :: keyword in {"const", "let", "var"}
      && KeywordThen(keyword, code, named) && NameThen(word, named, name, "=", value) && ArrowValue(word, value)
  }

  /** `[^;]*\)\s*\{\s*$` */
  ghost predicate BodyOpens(s: string)
  {
    exists inner, gap, end ::
      ';' !in inner && AllSpace(gap) && AllSpace(end) && s == (inner + ")") + gap + "{" + end
  }

  /** `(?:async\s+)?NAME\s*\([^;]*\)\s*\{\s*$` */
  ghost predicate MethodCode(word: char -> bool, code: string, name: string)
  {
    exists plain, rest :: MaybeAsync(code, plain) && NameThen(word, plain, name, "(", rest) && BodyOpens(rest)
  }

  lemma {:induction false} StripLeftPast(w: string, rest: string)
    requires AllSpace(w) && rest != [] && !IsSpace(rest[0])
    ensures StripLeft(w + rest) == rest
  {
    if w != [] {
      assert (w + rest)[1..] == w[1..] + rest;
      StripLeftPast(w[1..], rest);
    } else {
      assert w + rest == rest;
    }
  }

  lemma {:induction false} StripRightPast(w: string, tail: string)
    requires AllSpace(tail) && w != [] && !IsSpace(w[|w| - 1])
    ensures StripRight(w + tail) == w
  {
    if tail != [] {
      assert (w + tail)[..|w + tail| - 1] == w + tail[..|tail| - 1];
      StripRightPast(w, tail[..|tail| - 1]);
    } else {
      assert w + tail == w;
    }
  }

  lemma {:induction false} NameLengthIs(word: char -> bool, a: string, rest: string)
    requires (forall i :: 0 <= i < |a| ==> word(a[i]) || a[i] == '$') && EndsName(word, rest)
    ensures NameLength(word, a + rest) == |a|
  {
    if a != [] {
      assert (a + rest)[1..] == a[1..] + rest;
      NameLengthIs(word, a[1..], rest);
    } else {
      assert a + rest == rest;
    }
  }

  lemma ReadNameIs(word: char -> bool, name: string, rest: string)
    requires IsName(word, name) && EndsName(word, rest)
    ensures ReadName(word, name + rest) == Some((name, rest))
  {
    assert (name + rest)[1..] == name[1..] + rest;
    NameLengthIs(word, name[1..], rest);
    CutAppend(name, rest);
  }

  lemma {:induction false} StripLeftBlank(s: string)
    requires AllSpace(s)
    ensures StripLeft(s) == []
  {
    if s != [] { StripLeftBlank(s[1..]); }
  }

  /** A name before a mark is read whole, and the mark is found behind the blanks. */
  lemma NameThenIs(word: char -> bool, s: string, name: string, mark: string, rest: string)
    requires WordClass(word) && mark in {"(", "=", "=>"} && NameThen(word, s, name, mark, rest)
    ensures ReadName(word, s).Some? && ReadName(word, s).value.0 == name
    ensures StripLeft(ReadName(word, s).value.1) == mark + rest
  {
    var gap :| AllSpace(gap) && s == name + gap + mark + rest;
    var tail := gap + (mark + rest);
    assert s == name + tail;
    ReadNameIs(word, name, tail);
    StripLeftPast(gap, mark + rest);
  }

  lemma CutThrice(s: string, name: string, tail: string, behind: string, mark: string)
    requires s == name + tail && |behind| <= |tail| && behind == tail[|tail| - |behind|..] && mark <= behind
    ensures s == name + tail[..|tail| - |behind|] + mark + behind[|mark|..]
  {
    CutAndJoin(tail, |tail| - |behind|);
    CutAndJoin(behind, |mark|);
  }

  lemma NameThenHolds(word: char -> bool, s: string, mark: string)
    requires ReadName(word, s).Some? && mark <= StripLeft(ReadName(word, s).value.1)
    ensures var (name, tail) := ReadName(word, s).value;
            NameThen(word, s, name, mark, StripLeft(tail)[|mark|..])
  {
    var (name, tail) := ReadName(word, s).value;
    IndentIsBlank(tail);
    CutThrice(s, name, tail, StripLeft(tail), mark);
  }

  lemma CalledNameMeans(word: char -> bool, s: string, name: string, rest: string)
    requires WordClass(word)
    ensures CalledName(word, s) == Some((name, rest)) <==> NameThen(word, s, name, "(", rest)
  {
    if CalledName(word, s) == Some((name, rest)) { NameThenHolds(word, s, "("); }
    if NameThen(word, s, name, "(", rest) { NameThenIs(word, s, name, "(", rest); }
  }

  /** Behind a keyword, what begins like code is what the pattern goes on with. */
  lemma AfterKeywordMeans(keyword: string, s: string, rest: string)
    requires BeginsLikeCode(keyword) && rest != [] && !IsSpace(rest[0])
    ensures AfterKeyword(keyword, s) == Some(rest) <==> KeywordThen(keyword, s, rest)
  {
    if AfterKeyword(keyword, s) == Some(rest) { KeywordIsThere(keyword, s, s[|keyword|..], rest); }
    if KeywordThen(keyword, s, rest) {
      var gap :| AllSpace(gap) && gap != [] && s == keyword + gap + rest;
      KeywordIsRead(keyword, gap, rest, s);
    }
  }

  lemma KeywordIsThere(keyword: string, s: string, tail: string, rest: string)
    requires s == keyword + tail && tail != [] && IsSpace(tail[0]) && rest == StripLeft(tail)
    ensures KeywordThen(keyword, s, rest)
  {
    var gap := BlankInFront(tail);
    AppendAssociates(keyword, gap, rest);
  }

  lemma KeywordIsRead(keyword: string, gap: string, rest: string, s: string)
    requires rest != [] && !IsSpace(rest[0]) && gap != [] && AllSpace(gap) && s == keyword + gap + rest
    requires BeginsLikeCode(keyword)
    ensures AfterKeyword(keyword, s) == Some(rest)
  {
    AppendAssociates(keyword, gap, rest);
    CutAppend(keyword, gap + rest);
    StripLeftPast(gap, rest);
  }

  lemma FunctionNameMatches(word: char -> bool, code: string, plain: string, called: string, name: string, rest: string)
    requires WordClass(word) && CalledName(word, called) == Some((name, rest))
    requires AfterKeyword("function", plain) == Some(called)
    requires plain == code || AfterKeyword("async", code) == Some(plain)
    ensures FunctionCode(word, code, name)
  {
    CalledNameMeans(word, called, name, rest);
    AfterKeywordMeans("function", plain, called);
    if plain != code { AfterKeywordMeans("async", code, plain); }
    assert MaybeAsync(code, plain);
  }

  lemma FunctionCodeIsNamed(word: char -> bool, code: string, plain: string, called: string, name: string, rest: string)
    requires WordClass(word) && MaybeAsync(code, plain)
    requires KeywordThen("function", plain, called) && NameThen(word, called, name, "(", rest)
    ensures FunctionName(word, code) == Some(name)
  {
    CalledNameMeans(word, called, name, rest);
    AfterKeywordMeans("function", plain, called);
    if plain != code { AfterKeywordMeans("async", code, plain); }
  }

  lemma FunctionNameMeans(word: char -> bool, code: string, name: string)
    requires WordClass(word)
    ensures FunctionName(word, code) == Some(name) <==> FunctionCode(word, code, name)
  {
    if FunctionName(word, code) == Some(name) {
      var plain := if AfterKeyword("async", code).Some? then AfterKeyword("async", code).value else code;
      var called := AfterKeyword("function", plain).value;
      FunctionNameMatches(word, code, plain, called, name, CalledName(word, called).value.1);
    }
    if FunctionCode(word, code, name) {
      var plain, called, rest :|
        MaybeAsync(code, plain) && KeywordThen("function", plain, called) && NameThen(word, called, name, "(", rest);
      FunctionCodeIsNamed(word, code, plain, called, name, rest);
    }
  }

  // ----- arrow functions

  ghost predicate MarkBehind(s: string, mark: string, gap: string, rest: string)
  {
    AllSpace(gap) && s == gap + mark + rest
  }

  /** A mark is the first thing behind blanks exactly when the text can be cut there. */
  lemma MarkBehindBlanks(s: string, mark: string)
    requires mark != [] && !IsSpace(mark[0])
    ensures mark <= StripLeft(s) <==> exists gap, rest :: MarkBehind(s, mark, gap, rest)
  {
    if mark <= StripLeft(s) { MarkIsBehind(s, mark, StripLeft(s)); }
    if gap, rest :| MarkBehind(s, mark, gap, rest) {
      AppendAssociates(gap, mark, rest);
      StripLeftPast(gap, mark + rest);
    }
  }

  lemma BlankInFront(s: string) returns (gap: string)
    ensures AllSpace(gap) && s == gap + StripLeft(s)
  {
    IndentIsBlank(s);
    gap := s[..|s| - |StripLeft(s)|];
    CutAndJoin(s, |gap|);
  }

  lemma MarkIsBehind(s: string, mark: string, behind: string)
    requires behind == StripLeft(s) && mark <= behind
    ensures exists gap, rest :: MarkBehind(s, mark, gap, rest)
  {
    var gap := BlankInFront(s);
    var rest := behind[|mark|..];
    CutAndJoin(behind, |mark|);
    AppendAssociates(gap, mark, rest);
    assert MarkBehind(s, mark, gap, rest);
  }

  lemma {:induction false} AfterParenthesisMeans(s: string, inner: string, rest: string)
    requires ')' !in inner && s == inner + ")" + rest
    ensures AfterParenthesis(s) == Some(rest)
  {
    if inner == [] {
      assert s[1..] == rest;
    } else {
      assert s[1..] == inner[1..] + ")" + rest;
      AfterParenthesisMeans(s[1..], inner[1..], rest);
    }
  }

  lemma {:induction false} UpToParenthesis(s: string) returns (inner: string)
    requires AfterParenthesis(s).Some?
    ensures ')' !in inner && s == inner + ")" + AfterParenthesis(s).value
  {
    if s[0] == ')' {
      inner := [];
    } else {
      inner := UpToParenthesis(s[1..]);
      inner := [s[0]] + inner;
    }
  }

  lemma ListedArrow(s: string)
    ensures (exists inner, gap, rest ::
              ')' !in inner && AllSpace(gap) && s == "(" + (inner + ")" + (gap + "=>" + rest))) <==>
            "(" <= s && AfterParenthesis(s[1..]).Some? && "=>" <= StripLeft(AfterParenthesis(s[1..]).value)
  {
    if "(" <= s && AfterParenthesis(s[1..]).Some? && "=>" <= StripLeft(AfterParenthesis(s[1..]).value) {
      var inner := UpToParenthesis(s[1..]);
      var tail := AfterParenthesis(s[1..]).value;
      MarkBehindBlanks(tail, "=>");
      var gap, rest :| MarkBehind(tail, "=>", gap, rest);
      assert s == "(" + s[1..];
    }
    if inner, gap, rest :| ')' !in inner && AllSpace(gap) && s == "(" + (inner + ")" + (gap + "=>" + rest)) {
      var tail := gap + "=>" + rest;
      assert s[1..] == inner + ")" + tail;
      AfterParenthesisMeans(s[1..], inner, tail);
      assert MarkBehind(tail, "=>", gap, rest);
      MarkBehindBlanks(tail, "=>");
    }
  }

  lemma IsArrowMeans(word: char -> bool, s: string)
    requires WordClass(word)
    ensures IsArrow(word, s) <==> ArrowHead(word, s)
  {
    ListedArrow(s);
    var named := ReadName(word, s);
    if named.Some? && "=>" <= StripLeft(named.value.1) { NameThenHolds(word, s, "=>"); }
    if name, rest :| NameThen(word, s, name, "=>", rest) { NameThenIs(word, s, name, "=>", rest); }
  }

  lemma ArrowHeadBegins(word: char -> bool, s: string)
    requires ArrowHead(word, s)
    ensures s != [] && !IsSpace(s[0])
  {
  }

  lemma AsyncArrow(word: char -> bool, t: string)
    requires WordClass(word)
    ensures "async" <= t && IsArrow(word, StripLeft(t[5..])) <==> AsyncHead(word, t)
  {
    if "async" <= t && IsArrow(word, StripLeft(t[5..])) { AsyncArrowIsHead(word, t, t[5..]); }
    if AsyncHead(word, t) {
      var gap, head :| AllSpace(gap) && t == "async" + (gap + head) && ArrowHead(word, head);
      CutAppend("async", gap + head);
      ArrowHeadBegins(word, head);
      StripLeftPast(gap, head);
      IsArrowMeans(word, head);
    }
  }

  lemma AsyncArrowIsHead(word: char -> bool, t: string, tail: string)
    requires WordClass(word) && t == "async" + tail && IsArrow(word, StripLeft(tail))
    ensures AsyncHead(word, t)
  {
    var head := StripLeft(tail);
    IndentIsBlank(tail);
    IsArrowMeans(word, head);
    CutAndJoin(tail, |tail| - |head|);
  }

  lemma ArrowValueMatches(word: char -> bool, s: string, t: string)
    requires WordClass(word) && t == StripLeft(s) && IsArrowValue(word, t)
    ensures ArrowValue(word, s)
  {
    IndentIsBlank(s);
    CutAndJoin(s, |s| - |t|);
    IsArrowMeans(word, t);
    AsyncArrow(word, t);
  }

  lemma ArrowValueIs(word: char -> bool, gap: string, t: string)
    requires WordClass(word) && AllSpace(gap) && (ArrowHead(word, t) || AsyncHead(word, t))
    ensures IsArrowValue(word, StripLeft(gap + t))
  {
    IsArrowMeans(word, t);
    AsyncArrow(word, t);
    if ArrowHead(word, t) { ArrowHeadBegins(word, t); }
    StripLeftPast(gap, t);
  }

  lemma IsArrowValueMeans(word: char -> bool, s: string)
    requires WordClass(word)
    ensures IsArrowValue(word, StripLeft(s)) <==> ArrowValue(word, s)
  {
    if IsArrowValue(word, StripLeft(s)) { ArrowValueMatches(word, s, StripLeft(s)); }
    if ArrowValue(word, s) {
      var gap, t :| AllSpace(gap) && s == gap + t && (ArrowHead(word, t) || AsyncHead(word, t));
      ArrowValueIs(word, gap, t);
    }
  }

  lemma DeclarationMeans(code: string, named: string)
    requires named != [] && !IsSpace(named[0])
    ensures AfterDeclaration(code) == Some(named) <==>
            KeywordThen("const", code, named) || KeywordThen("let", code, named) || KeywordThen("var", code, named)
  {
    AfterKeywordMeans("const", code, named);
    AfterKeywordMeans("let", code, named);
    AfterKeywordMeans("var", code, named);
  }

  lemma ArrowNameMatches(word: char -> bool, code: string, named: string, name: string, tail: string, rest: string)
    requires WordClass(word) && AfterDeclaration(code) == Some(named) && ReadName(word, named) == Some((name, tail))
    requires rest == StripLeft(tail) && "=" <= rest && IsArrowValue(word, StripLeft(rest[1..]))
    ensures ArrowCode(word, code, name)
  {
    DeclarationMeans(code, named);
    NameThenHolds(word, named, "=");
    IsArrowValueMeans(word, rest[1..]);
    if KeywordThen("const", code, named) { ArrowCodeOf(word, code, name, "const", named, rest[1..]); }
    else if KeywordThen("let", code, named) { ArrowCodeOf(word, code, name, "let", named, rest[1..]); }
    else { ArrowCodeOf(word, code, name, "var", named, rest[1..]); }
  }

  lemma ArrowCodeOf(word: char -> bool, code: string, name: string, keyword: string, named: string, value: string)
    requires keyword in {"const", "let", "var"} && KeywordThen(keyword, code, named)
    requires NameThen(word, named, name, "=", value) && ArrowValue(word, value)
    ensures ArrowCode(word, code, name)
  {
  }

  lemma ArrowCodeIsNamed(word: char -> bool, code: string, name: string, named: string, value: string)
    requires WordClass(word) && NameThen(word, named, name, "=", value) && ArrowValue(word, value)
    requires AfterDeclaration(code) == Some(named)
    ensures ArrowName(word, code) == Some(name)
  {
    NameThenIs(word, named, name, "=", value);
    CutAppend("=", value);
    IsArrowValueMeans(word, value);
  }

  lemma ArrowNameMeans(word: char -> bool, code: string, name: string)
    requires WordClass(word)
    ensures ArrowName(word, code) == Some(name) <==> ArrowCode(word, code, name)
  {
    if ArrowName(word, code) == Some(name) {
      var named := AfterDeclaration(code).value;
      var tail := ReadName(word, named).value.1;
      ArrowNameMatches(word, code, named, name, tail, StripLeft(tail));
    }
    if ArrowCode(word, code, name) {
      var keyword, named, value :| keyword in {"const", "let", "var"}
        && KeywordThen(keyword, code, named) && NameThen(word, named, name, "=", value) && ArrowValue(word, value);
      DeclarationMeans(code, named);
      ArrowCodeIsNamed(word, code, name, named, value);
    }
  }

  // ----- methods

  lemma OpensBodyMeans(s: string)
    ensures OpensBody(s) <==> BodyOpens(s)
  {
    if OpensBody(s) { OpensBodyIsCut(s); }
    if inner, gap, end :|
        ';' !in inner && AllSpace(gap) && AllSpace(end) && s == (inner + ")") + gap + "{" + end {
      CutOpensBody(inner, inner + ")", gap, (inner + ")") + gap + "{", end, s);
    }
  }

  lemma BlankBehind(s: string) returns (end: string)
    ensures AllSpace(end) && s == StripRight(s) + end
  {
    StripRightIsPrefix(s);
    end := s[|StripRight(s)|..];
  }

  lemma LastChar(s: string, c: char)
    requires s != [] && s[|s| - 1] == c
    ensures s == s[..|s| - 1] + [c]
  {
  }

  lemma OpensBodyIsCut(s: string)
    requires OpensBody(s)
    ensures BodyOpens(s)
  {
    var line := StripRight(s);
    var before := line[..|line| - 1];
    var head := StripRight(before);
    var end := BlankBehind(s);
    var gap := BlankBehind(before);
    LastChar(line, '{');
    LastChar(head, ')');
    CutIsOpen(head[..|head| - 1], head, gap, before, line, end, s);
  }

  lemma CutIsOpen(inner: string, head: string, gap: string, before: string, line: string, end: string, s: string)
    requires ';' !in inner && AllSpace(gap) && AllSpace(end)
    requires head == inner + ")" && before == head + gap && line == before + "{" && s == line + end
    ensures BodyOpens(s)
  {
  }

  lemma CutOpensBody(inner: string, head: string, gap: string, line: string, end: string, s: string)
    requires ';' !in inner && AllSpace(gap) && AllSpace(end)
    requires head == inner + ")" && line == head + gap + "{" && s == line + end
    ensures OpensBody(s)
  {
    StripRightPast(line, end);
    CutAppend(head + gap, "{");
    StripRightPast(head, gap);
    CutAppend(inner, ")");
  }

  lemma PlainMethodNameMeans(word: char -> bool, code: string, name: string)
    requires WordClass(word)
    ensures PlainMethodName(word, code) == Some(name) <==>
            exists rest :: NameThen(word, code, name, "(", rest) && BodyOpens(rest)
  {
    if PlainMethodName(word, code) == Some(name) {
      var rest := CalledName(word, code).value.1;
      CalledNameMeans(word, code, name, rest);
      OpensBodyMeans(rest);
    }
    if rest :| NameThen(word, code, name, "(", rest) && BodyOpens(rest) {
      CalledNameMeans(word, code, name, rest);
      OpensBodyMeans(rest);
    }
  }

  /** A call directly behind `async` and blanks makes `async` itself the name. */
  lemma AsyncIsTheName(word: char -> bool, code: string, plain: string, name: string, rest: string)
    requires WordClass(word) && AfterKeyword("async", code) == Some(plain) && NameThen(word, code, name, "(", rest)
    ensures plain == "(" + rest
  {
    var tail := code[5..];
    assert code == "async" + tail;
    assert IsName(word, "async");
    ReadNameIs(word, "async", tail);
    NameThenIs(word, code, name, "(", rest);
  }

  lemma MethodNameMatches(word: char -> bool, code: string, name: string)
    requires WordClass(word) && MethodName(word, code) == Some(name)
    ensures MethodCode(word, code, name)
  {
    var async := AfterKeyword("async", code);
    var plain := if async.Some? && PlainMethodName(word, async.value).Some? then async.value else code;
    PlainMethodNameMeans(word, plain, name);
    if plain != code { AfterKeywordMeans("async", code, plain); }
    assert MaybeAsync(code, plain);
  }

  lemma MethodCodeIsNamed(word: char -> bool, code: string, name: string, plain: string, rest: string)
    requires WordClass(word)
    requires MaybeAsync(code, plain) && NameThen(word, plain, name, "(", rest) && BodyOpens(rest)
    ensures MethodName(word, code) == Some(name)
  {
    var async := AfterKeyword("async", code);
    PlainMethodNameMeans(word, plain, name);
    if plain != code {
      AfterKeywordMeans("async", code, plain);
    } else if async.Some? {
      AsyncIsTheName(word, code, async.value, name, rest);
    }
  }

  lemma MethodNameMeans(word: char -> bool, code: string, name: string)
    requires WordClass(word)
    ensures MethodName(word, code) == Some(name) <==> MethodCode(word, code, name)
  {
    if MethodName(word, code) == Some(name) { MethodNameMatches(word, code, name); }
    if MethodCode(word, code, name) {
      var plain, rest :| MaybeAsync(code, plain) && NameThen(word, plain, name, "(", rest) && BodyOpens(rest);
      MethodCodeIsNamed(word, code, name, plain, rest);
    }
  }

  // ----- the whole line

  /** The first pattern that the code matches, with a name that is no control word, gives the name. */
  ghost predicate Named(word: char -> bool, code: string, name: string)
  {
    && name !in {"if", "for", "while", "switch", "catch", "with"}
    && if exists n :: FunctionCode(word, code, n) && n !in CONTROL_WORDS then FunctionCode(word, code, name)
       else if exists n :: ArrowCode(word, code, n) && n !in CONTROL_WORDS then ArrowCode(word, code, name)
       else MethodCode(word, code, name)
  }

  lemma AcceptedMeans(word: char -> bool, code: string)
    requires WordClass(word)
    ensures Accepted(FunctionName(word, code)) <==> exists n :: FunctionCode(word, code, n) && n !in CONTROL_WORDS
    ensures Accepted(ArrowName(word, code)) <==> exists n :: ArrowCode(word, code, n) && n !in CONTROL_WORDS
  {
    if Accepted(FunctionName(word, code)) { FunctionNameMeans(word, code, FunctionName(word, code).value); }
    if n :| FunctionCode(word, code, n) && n !in CONTROL_WORDS { FunctionNameMeans(word, code, n); }
    if Accepted(ArrowName(word, code)) { ArrowNameMeans(word, code, ArrowName(word, code).value); }
    if n :| ArrowCode(word, code, n) && n !in CONTROL_WORDS { ArrowNameMeans(word, code, n); }
  }

  lemma NamedMeans(word: char -> bool, code: string, name: string)
    requires WordClass(word)
    ensures DefinedName(word, code) == Some(name) <==> Named(word, code, name)
  {
    AcceptedMeans(word, code);
    FunctionNameMeans(word, code, name);
    ArrowNameMeans(word, code, name);
    MethodNameMeans(word, code, name);
  }

  /** A line is a definition exactly when behind a blank indent it matches one of the three patterns. */
  lemma DefineMeans(word: char -> bool, line: string, indent: string, name: string)
    requires WordClass(word)
    ensures Define(word, line) == Some(Definition(indent, name)) <==>
            AllSpace(indent) && exists code :: line == indent + code && Named(word, code, name)
  {
    var own := StripLeft(line);
    NamedMeans(word, own, name);
    DefinitionShape(word, line);
    if code :| AllSpace(indent) && line == indent + code && Named(word, code, name) {
      NamedMeans(word, code, name);
      StripLeftPast(indent, code);
    }
  }
}
