/**
 The lexer told construct by construct: what a literal, a quoted identifier, a comment and plain
 text are, whatever stands behind them, and which words are transaction control.
 */
module SqlGrammar {
  import opened Sequences
  import opened Text
  import opened SqlLexer

  /** The class of every byte of a construct, then the rest of the text lexed as code. */
  ghost predicate Reads(construct: string, sort: Class, rest: string) {
    Classes(Code, construct + rest) == Repeat(sort, |construct|) + Classes(Code, rest)
  }

  lemma {:induction false} LiteralBody(body: string, rest: string)
    requires '\'' !in body && (rest == "" || rest[0] != '\'')
    ensures Classes(Single, body + "'" + rest) == Repeat(Quoted, |body| + 1) + Classes(Code, rest)
    decreases |body|
  {
    hide Classes;
    var s := body + "'" + rest;
    Unfold(Single, s);
    if body == "" {
      assert s[0] == '\'' && s[1..] == rest;
    } else {
      assert s[0] == body[0] && s[1..] == body[1..] + "'" + rest;
      LiteralBody(body[1..], rest);
    }
  }

  /** A literal is quoted from its first quote to its last, whatever it holds. */
  lemma LiteralIsQuoted(body: string, rest: string)
    requires '\'' !in body && (rest == "" || rest[0] != '\'')
    ensures Reads("'" + body + "'", Quoted, rest)
  {
    hide Classes;
    var s := "'" + body + "'" + rest;
    Unfold(Code, s);
    assert s[1..] == body + "'" + rest;
    LiteralBody(body, rest);
  }

  /** Two quotes inside a literal are part of it: what stands before and behind them is one literal. */
  lemma {:induction false} DoubledQuoteStays(before: string, rest: string)
    requires '\'' !in before
    ensures Classes(Single, before + "''" + rest) == Repeat(Quoted, |before| + 2) + Classes(Single, rest)
    decreases |before|
  {
    hide Classes;
    var s := before + "''" + rest;
    Unfold(Single, s);
    if before == "" {
      assert s[0] == '\'' && s[1] == '\'' && s[2..] == rest;
    } else {
      assert s[0] == before[0] && s[1..] == before[1..] + "''" + rest;
      DoubledQuoteStays(before[1..], rest);
    }
  }

  lemma {:induction false} IdentifierBody(body: string, rest: string)
    requires '"' !in body
    ensures Classes(Double, body + "\"" + rest) == Repeat(Quoted, |body| + 1) + Classes(Code, rest)
    decreases |body|
  {
    hide Classes;
    var s := body + "\"" + rest;
    Unfold(Double, s);
    if body == "" {
      assert s[0] == '"' && s[1..] == rest;
    } else {
      assert s[0] == body[0] && s[1..] == body[1..] + "\"" + rest;
      IdentifierBody(body[1..], rest);
    }
  }

  /** So is a quoted identifier. */
  lemma IdentifierIsQuoted(body: string, rest: string)
    requires '"' !in body
    ensures Reads("\"" + body + "\"", Quoted, rest)
  {
    hide Classes;
    var s := "\"" + body + "\"" + rest;
    Unfold(Code, s);
    assert s[1..] == body + "\"" + rest;
    IdentifierBody(body, rest);
  }

  lemma {:induction false} NeverClosed(mode: Mode, body: string)
    requires (mode == Single && '\'' !in body) || (mode == Double && '"' !in body)
    ensures Classes(mode, body) == Repeat(Quoted, |body|)
    decreases |body|
  {
    hide Classes;
    if body == "" {
      LexEmpty(mode);
    } else {
      Unfold(mode, body);
      NeverClosed(mode, body[1..]);
    }
  }

  /** What is never closed is quoted up to the end of the text. */
  lemma UnclosedIsQuoted(body: string)
    ensures '\'' !in body ==> Classes(Code, "'" + body) == Repeat(Quoted, |body| + 1)
    ensures '"' !in body ==> Classes(Code, "\"" + body) == Repeat(Quoted, |body| + 1)
  {
    hide Classes;
    var single, double := "'" + body, "\"" + body;
    Unfold(Code, single);
    Unfold(Code, double);
    assert single[1..] == body && double[1..] == body;
    if '\'' !in body {
      NeverClosed(Single, body);
    }
    if '"' !in body {
      NeverClosed(Double, body);
    }
  }

  lemma {:induction false} LineBody(body: string, rest: string)
    requires '\n' !in body
    ensures Classes(Line, body + "\n" + rest) == Repeat(Comment, |body| + 1) + Classes(Code, rest)
    decreases |body|
  {
    hide Classes;
    var s := body + "\n" + rest;
    Unfold(Line, s);
    if body == "" {
      assert s[0] == '\n' && s[1..] == rest;
    } else {
      assert s[0] == body[0] && s[1..] == body[1..] + "\n" + rest;
      LineBody(body[1..], rest);
    }
  }

  /** A comment behind two dashes goes on to the end of its line. */
  lemma LineIsComment(body: string, rest: string)
    requires '\n' !in body
    ensures Reads("--" + body + "\n", Comment, rest)
  {
    hide Classes;
    var s := "--" + body + "\n" + rest;
    Unfold(Code, s);
    assert s[0] == '-' && s[1] == '-' && s[2..] == body + "\n" + rest;
    LineBody(body, rest);
  }

  /** No star of the text is followed by a slash, its last one not by what closes the comment. */
  predicate StaysOpen(body: string) {
    forall i :: 0 <= i < |body| && body[i] == '*' ==> i + 1 == |body| || body[i + 1] != '/'
  }

  lemma {:induction false} BlockBody(body: string, rest: string)
    requires StaysOpen(body)
    ensures Classes(Block, body + "*/" + rest) == Repeat(Comment, |body| + 2) + Classes(Code, rest)
    decreases |body|
  {
    hide Classes;
    var s := body + "*/" + rest;
    Unfold(Block, s);
    if body == "" {
      assert s[0] == '*' && s[1] == '/' && s[2..] == rest;
    } else {
      assert s[0] == body[0] && s[1] == (if |body| == 1 then '*' else body[1]) && s[1..] == body[1..] + "*/" + rest;
      BlockBody(body[1..], rest);
    }
  }

  /** A block comment ends at the first star with a slash behind it; it does not nest. */
  lemma BlockIsComment(body: string, rest: string)
    requires StaysOpen(body)
    ensures Reads("/*" + body + "*/", Comment, rest)
  {
    hide Classes;
    var s := "/*" + body + "*/" + rest;
    Unfold(Code, s);
    assert s[0] == '/' && s[1] == '*' && s[2..] == body + "*/" + rest;
    BlockBody(body, rest);
  }

  /** Text in which nothing opens: no quote of either kind, no two dashes, no slash before a star. */
  predicate OpensNothingIn(text: string, rest: string) {
    var s := text + rest;
    forall i :: 0 <= i < |text| ==>
      && s[i] != '\'' && s[i] != '"'
      && (i + 1 < |s| ==> !(s[i] == '-' && s[i + 1] == '-') && !(s[i] == '/' && s[i + 1] == '*'))
  }

  /** Such text is code, every byte of it. */
  lemma {:induction false} TextIsCode(text: string, rest: string)
    requires OpensNothingIn(text, rest)
    ensures Reads(text, Plain, rest)
    decreases |text|
  {
    hide Classes;
    var s := text + rest;
    if text == "" {
      assert s == rest;
    } else {
      Unfold(Code, s);
      var tail := text[1..];
      assert s[0] == text[0] && s[1..] == tail + rest;
      assert forall i :: 0 <= i < |tail + rest| ==> (tail + rest)[i] == s[i + 1];
      TextIsCode(tail, rest);
    }
  }

  // ----- Statements ------------------------------------------------------------

  /** Where the pieces that are not blank stand. */
  function TextAt(pieces: seq<string>): seq<nat> {
    if pieces == [] then []
    else
      var n := |pieces| - 1;
      TextAt(pieces[..n]) + if Blank(pieces[n]) then [] else [n]
  }

  lemma {:induction false} TextAtIs(pieces: seq<string>)
    ensures Ascending(TextAt(pieces), |pieces|)
    ensures forall i :: 0 <= i < |pieces| ==> (i in TextAt(pieces) <==> !Blank(pieces[i]))
    decreases |pieces|
  {
    hide Blank, Ascending;
    if pieces == [] {
      assert Ascending([], 0) by { NoPlaces(); }
    } else {
      var n := |pieces| - 1;
      var before := TextAt(pieces[..n]);
      TextAtIs(pieces[..n]);
      AscendingGrows(before, n);
      assert TextAt(pieces) == if !Blank(pieces[n]) then before + [n] else before;
      forall i | 0 <= i < |pieces|
        ensures i in TextAt(pieces) <==> !Blank(pieces[i])
      {
        if i < n {
          assert pieces[..n][i] == pieces[i];
        }
      }
    }
  }

  /** A piece as a statement: trimmed, and closed unless it is the last one. */
  function Closed(pieces: seq<string>, i: nat): string
    requires i < |pieces|
  {
    Trim(pieces[i]) + if i == |pieces| - 1 then "" else ";"
  }

  function StatementAt(pieces: seq<string>, i: nat): seq<string>
    requires i < |pieces|
  {
    if Blank(pieces[i]) then [] else [Closed(pieces, i)]
  }

  /** The statements of the first n pieces. */
  function UpTo(pieces: seq<string>, n: nat): seq<string>
    requires n <= |pieces|
  {
    if n == 0 then [] else UpTo(pieces, n - 1) + StatementAt(pieces, n - 1)
  }

  lemma SameStatement(first: string, rest: seq<string>, i: nat)
    requires i < |rest|
    ensures StatementAt([first] + rest, i + 1) == StatementAt(rest, i)
  {
    hide Trim, Blank;
    assert ([first] + rest)[i + 1] == rest[i];
  }

  lemma {:induction false} UpToShift(first: string, rest: seq<string>, n: nat)
    requires n <= |rest|
    ensures UpTo([first] + rest, n + 1) == StatementAt([first] + rest, 0) + UpTo(rest, n)
    decreases n
  {
    hide StatementAt;
    var pieces := [first] + rest;
    if n == 0 {
      assert UpTo(pieces, 0) == [] && UpTo(rest, 0) == [];
    } else {
      UpToShift(first, rest, n - 1);
      SameStatement(first, rest, n - 1);
    }
  }

  lemma {:induction false} KeptExactly(pieces: seq<string>)
    requires pieces != []
    ensures Kept(pieces) == UpTo(pieces, |pieces|)
    decreases |pieces|
  {
    hide Trim, Blank;
    TrimEmptyIffBlank(pieces[0]);
    var rest := pieces[1..];
    assert pieces == [pieces[0]] + rest;
    UpToShift(pieces[0], rest, |rest|);
    if |pieces| > 1 {
      KeptExactly(rest);
    } else {
      assert UpTo(rest, 0) == [] && Trim(pieces[0]) + "" == Trim(pieces[0]);
    }
  }

  /** These are the statements of the pieces at these places. */
  predicate StatementsOf(pieces: seq<string>, places: seq<nat>, statements: seq<string>) {
    |statements| == |places| && forall k :: 0 <= k < |places| ==> places[k] < |pieces| && statements[k] == Closed(pieces, places[k])
  }

  lemma OneMoreStatement(pieces: seq<string>, places: seq<nat>, statements: seq<string>, n: nat)
    requires n < |pieces| && StatementsOf(pieces, places, statements)
    ensures StatementsOf(pieces, places + (if Blank(pieces[n]) then [] else [n]), statements + StatementAt(pieces, n))
  {
    hide Closed, Blank;
  }

  lemma {:induction false} UpToListed(pieces: seq<string>, n: nat)
    requires n <= |pieces|
    ensures StatementsOf(pieces, TextAt(pieces[..n]), UpTo(pieces, n))
    decreases n
  {
    hide StatementsOf, StatementAt, Blank;
    if n == 0 {
      NoStatements(pieces);
    } else {
      UpToListed(pieces, n - 1);
      assert pieces[..n][..n - 1] == pieces[..n - 1];
      OneMoreStatement(pieces, TextAt(pieces[..n - 1]), UpTo(pieces, n - 1), n - 1);
    }
  }

  lemma NoStatements(pieces: seq<string>)
    ensures StatementsOf(pieces, [], [])
  {
  }

  /** The statements of a text are its pieces that are not blank, in order: trimmed, and closed unless they end the text. */
  lemma StatementsExactly(s: string)
    ensures StatementsOf(RawPieces(s), TextAt(RawPieces(s)), Statements(s))
  {
    hide StatementsOf, StatementAt, Blank, RawPieces, Kept, TextAt;
    var pieces := RawPieces(s);
    assert pieces != [] by { SomePiece(s); }
    KeptExactly(pieces);
    UpToListed(pieces, |pieces|);
    assert pieces[..|pieces|] == pieces;
  }

  lemma SomePiece(s: string)
    ensures RawPieces(s) != []
  {
    hide Classes;
  }

  /** Some byte that is neither comment nor white space, and not the semicolon that closes the statement. */
  ghost predicate SaysSomething(statement: string) {
    exists i :: 0 <= i < |statement| && ByteSays(statement, i)
  }

  predicate ByteSays(statement: string, i: nat)
    requires i < |statement|
  {
    !IsSpace(statement[i]) && Classes(Code, statement)[i] != Comment && (statement[i] != ';' || i < |statement| - 1)
  }

  lemma ExecutableExactly(statement: string)
    ensures Executable(statement) <==> SaysSomething(statement)
  {
    hide Classes;
    if SaysSomething(statement) {
      var i :| 0 <= i < |statement| && ByteSays(statement, i);
      assert Significant(statement, Classes(Code, statement), i);
    }
    if Executable(statement) {
      var i :| 0 <= i < |statement| && Significant(statement, Classes(Code, statement), i) && !(i == |statement| - 1 && statement[i] == ';');
      assert ByteSays(statement, i);
    }
  }

  /** Where the statements stand that say something. */
  ghost function CodeAt(statements: seq<string>): seq<nat> {
    if statements == [] then []
    else
      var n := |statements| - 1;
      CodeAt(statements[..n]) + if SaysSomething(statements[n]) then [n] else []
  }

  lemma {:induction false} CodeAtIs(statements: seq<string>)
    ensures Ascending(CodeAt(statements), |statements|)
    ensures forall i :: 0 <= i < |statements| ==> (i in CodeAt(statements) <==> SaysSomething(statements[i]))
    decreases |statements|
  {
    hide SaysSomething, Ascending;
    if statements == [] {
      assert Ascending([], 0) by { NoPlaces(); }
    } else {
      var n := |statements| - 1;
      var before := CodeAt(statements[..n]);
      CodeAtIs(statements[..n]);
      AscendingGrows(before, n);
      assert CodeAt(statements) == if SaysSomething(statements[n]) then before + [n] else before;
      forall i | 0 <= i < |statements|
        ensures i in CodeAt(statements) <==> SaysSomething(statements[i])
      {
        if i < n {
          assert statements[..n][i] == statements[i];
        }
      }
    }
  }

  predicate Selected(statements: seq<string>, places: seq<nat>, chosen: seq<string>) {
    |chosen| == |places| && forall k :: 0 <= k < |places| ==> places[k] < |statements| && chosen[k] == statements[places[k]]
  }

  lemma OneMoreSelected(statements: seq<string>, places: seq<nat>, chosen: seq<string>)
    requires statements != [] && Selected(statements[..|statements| - 1], places, chosen)
    ensures Selected(statements, places, chosen)
    ensures Selected(statements, places + [|statements| - 1], chosen + [statements[|statements| - 1]])
  {
  }

  /** The statements that are run: all that say something, in order, and no other. */
  lemma {:induction false} FilterExactly(statements: seq<string>)
    ensures Selected(statements, CodeAt(statements), Filter(statements))
    decreases |statements|
  {
    hide Executable, SaysSomething, Selected;
    if statements == [] {
      NothingSelected();
    } else {
      var n := |statements| - 1;
      FilterExactly(statements[..n]);
      ExecutableExactly(statements[n]);
      OneMoreSelected(statements, CodeAt(statements[..n]), Filter(statements[..n]));
      assert CodeAt(statements[..n]) + [] == CodeAt(statements[..n]) && Filter(statements[..n]) + [] == Filter(statements[..n]);
    }
  }

  lemma NothingSelected()
    ensures Selected([], [], [])
  {
  }

  // ----- Transaction control ---------------------------------------------------

  /** The commands by which a script would take the transaction it runs in into its own hands. */
  const CONTROL: set<string> := {
    "BEGIN", "START TRANSACTION", "COMMIT", "END", "ROLLBACK", "SAVEPOINT",
    "RELEASE SAVEPOINT", "PREPARE TRANSACTION", "COMMIT PREPARED", "ROLLBACK PREPARED"
  }

  lemma CommandsAre(c: string)
    ensures c in COMMANDS <==> c in CONTROL
  {
    assert |COMMANDS| == 10;
  }

  predicate SomeControls(normalized: string, commands: seq<string>) {
    exists i :: 0 <= i < |commands| && Controls(normalized, commands[i])
  }

  lemma SomeControlsExactly(normalized: string, commands: seq<string>)
    ensures SomeControls(normalized, commands) <==> exists c :: c in commands && (normalized == c || HasPrefix(normalized, c + " "))
  {
    hide HasPrefix;
    if c :| c in commands && (normalized == c || HasPrefix(normalized, c + " ")) {
      var i :| 0 <= i < |commands| && commands[i] == c;
      assert Controls(normalized, commands[i]);
    }
    if SomeControls(normalized, commands) {
      var i :| 0 <= i < |commands| && Controls(normalized, commands[i]);
      assert commands[i] in commands && (normalized == commands[i] || HasPrefix(normalized, commands[i] + " "));
    }
  }

  /** A statement of words, in capitals or not, is refused exactly when it is one of these commands or continues one behind a space. */
  lemma WordsRefusedExactly(s: string)
    requires Wordy(s)
    ensures !Acceptable(s) <==> exists c :: c in CONTROL && (Upper(s) == c || HasPrefix(Upper(s), c + " "))
  {
    hide Acceptable, HasPrefix, Upper, Controls;
    AcceptedWords(s);
    SomeControlsExactly(Upper(s), COMMANDS);
    forall c: string
      ensures c in COMMANDS <==> c in CONTROL
    {
      CommandsAre(c);
    }
  }
}
