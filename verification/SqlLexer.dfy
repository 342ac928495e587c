/**
 Three hand-written scanners over SQL text: one splits a script into statements, one looks
 for psql meta-commands, one strips leading comments. They are proved against a single
 lexer that gives every byte its class, and the three are shown to agree with each other.
 */
module SqlLexer {
  import opened Sequences
  import opened Text

  datatype Mode = Code | Single | Double | Line | Block

  datatype Class = Plain | Quoted | Comment

  datatype Token = Token(width: nat, sort: Class, next: Mode)

  function Peek(s: string): char {
    if |s| > 1 then s[1] else '\0'
  }

  /** The only bytes that can be the second byte of a token. */
  predicate Second(c: char) {
    c == '-' || c == '*' || c == '/' || c == '\''
  }

  /** The token that starts with `c` and is followed by `next`, read in a mode. */
  function TokenOf(mode: Mode, c: char, next: char): (t: Token)
    ensures t.width == 1 || (t.width == 2 && Second(next) && t.sort != Plain)
    ensures t.sort == Plain ==> mode == Code && t.next == Code
  {
    match mode
    case Line => Token(1, Comment, if c == '\n' then Code else Line)
    case Block => if c == '*' && next == '/' then Token(2, Comment, Code) else Token(1, Comment, Block)
    case Single =>
      if c != '\'' then Token(1, Quoted, Single)
      else if next == '\'' then Token(2, Quoted, Single)
      else Token(1, Quoted, Code)
    case Double => Token(1, Quoted, if c == '"' then Code else Double)
    case Code =>
      if c == '-' && next == '-' then Token(2, Comment, Line)
      else if c == '/' && next == '*' then Token(2, Comment, Block)
      else if c == '\'' then Token(1, Quoted, Single)
      else if c == '"' then Token(1, Quoted, Double)
      else Token(1, Plain, Code)
  }

  function Head(mode: Mode, s: string): (t: Token)
    requires s != ""
    ensures 1 <= t.width <= |s|
  {
    TokenOf(mode, s[0], Peek(s))
  }

  function Repeat(sort: Class, n: nat): (r: seq<Class>)
    ensures |r| == n && forall i :: 0 <= i < n ==> r[i] == sort
  {
    seq(n, _ => sort)
  }

  /** The class of every byte of `s`, when the lexer enters it in `mode`. */
  function Classes(mode: Mode, s: string): (cs: seq<Class>)
    ensures |cs| == |s|
    decreases |s|
  {
    if s == "" then []
    else var t := Head(mode, s); Repeat(t.sort, t.width) + Classes(t.next, s[t.width..])
  }

  /** The mode the lexer is left in. */
  function End(mode: Mode, s: string): Mode
    decreases |s|
  {
    if s == "" then mode else var t := Head(mode, s); End(t.next, s[t.width..])
  }

  lemma HeadAlone(mode: Mode, a: string, b: string)
    requires a != "" && (b == "" || !Second(b[0]))
    ensures Head(mode, a + b) == Head(mode, a)
  {
    if |a| == 1 {
      var c, next := a[0], Peek(a + b);
      assert b != "" ==> next == b[0];
      assert TokenOf(mode, c, next) == TokenOf(mode, c, '\0');
    }
  }

  lemma LexEmpty(mode: Mode)
    ensures Classes(mode, "") == []
  {
  }

  lemma Unfold(mode: Mode, s: string)
    requires s != ""
    ensures var t := Head(mode, s);
            Classes(mode, s) == Repeat(t.sort, t.width) + Classes(t.next, s[t.width..])
  {
  }

  /** Cutting a text where no token can straddle the cut does not change what any byte is. */
  lemma {:induction false} LexConcat(mode: Mode, a: string, b: string)
    requires b == "" || !Second(b[0])
    ensures Classes(mode, a + b) == Classes(mode, a) + Classes(End(mode, a), b)
    ensures End(mode, a + b) == End(End(mode, a), b)
    decreases |a|
  {
    hide Classes, TokenOf, Repeat;
    if a == "" {
      assert a + b == b;
      LexEmpty(mode);
    } else {
      var t := Head(mode, a);
      var rest := a[t.width..];
      HeadAlone(mode, a, b);
      DropConcat(a, b, t.width);
      LexConcat(t.next, rest, b);
      Unfold(mode, a + b);
      Unfold(mode, a);
      ConcatAssociates(Repeat(t.sort, t.width), Classes(t.next, rest), Classes(End(mode, a), b));
    }
  }

  lemma {:induction false} LexBlank(s: string)
    requires Blank(s)
    ensures Classes(Code, s) == Repeat(Plain, |s|) && End(Code, s) == Code
    decreases |s|
  {
    if s != "" {
      assert Head(Code, s) == Token(1, Plain, Code);
      LexBlank(s[1..]);
    }
  }

  // ----- Splitting -------------------------------------------------------------

  predicate CutAt(s: string, cs: seq<Class>, i: nat)
    requires |cs| == |s| && i < |s|
  {
    s[i] == ';' && cs[i] == Plain
  }

  /** The first semicolon in code, or the length of the text. */
  function FirstCut(s: string, cs: seq<Class>): (k: nat)
    requires |cs| == |s|
    ensures k <= |s| && (k < |s| ==> CutAt(s, cs, k))
    ensures forall i :: 0 <= i < k ==> !CutAt(s, cs, i)
  {
    if s == "" || CutAt(s, cs, 0) then 0
    else
      var k := FirstCut(s[1..], cs[1..]);
      assert forall i :: 1 <= i < 1 + k ==> CutAt(s, cs, i) == CutAt(s[1..], cs[1..], i - 1);
      1 + k
  }

  /** The raw text between the semicolons in code. */
  function Pieces(s: string, cs: seq<Class>): (pieces: seq<string>)
    requires |cs| == |s|
    ensures |pieces| >= 1
    decreases |s|
  {
    var k := FirstCut(s, cs);
    if k == |s| then [s] else [s[..k]] + Pieces(s[k + 1..], cs[k + 1..])
  }

  /** Each piece trimmed, with its semicolon back; a blank piece is dropped. */
  function Kept(pieces: seq<string>): seq<string>
    requires |pieces| >= 1
  {
    var text := Trim(pieces[0]);
    if |pieces| == 1 then (if text == "" then [] else [text])
    else (if text == "" then [] else [text + ";"]) + Kept(pieces[1..])
  }

  function RawPieces(s: string): seq<string> {
    Pieces(s, Classes(Code, s))
  }

  function Statements(s: string): seq<string> {
    Kept(RawPieces(s))
  }

  lemma FirstCutIs(s: string, cs: seq<Class>, k: nat)
    requires |cs| == |s| && k <= |s| && (k < |s| ==> CutAt(s, cs, k))
    requires forall i :: 0 <= i < k ==> !CutAt(s, cs, i)
    ensures FirstCut(s, cs) == k
  {
    hide Classes;
    var f := FirstCut(s, cs);
    if f < k {
      assert false;
    }
  }

  /** The scanner has lexed `s` up to `i` and holds the text since the last cut. */
  ghost predicate Scanned(s: string, start: nat, i: nat, mode: Mode, buf: string) {
    var cs := Classes(Code, s);
    && start <= i <= |s| && buf == s[start..i]
    && cs[i..] == Classes(mode, s[i..])
    && forall j :: start <= j < i ==> !CutAt(s, cs, j)
  }

  /** What is still to come from the text after the last cut. */
  ghost function Rest(s: string, start: nat): seq<string>
    requires start <= |s|
  {
    Kept(Pieces(s[start..], Classes(Code, s)[start..]))
  }

  ghost predicate CutHere(s: string, i: nat, mode: Mode)
    requires i < |s|
  {
    mode == Code && s[i] == ';'
  }

  lemma Advance(s: string, start: nat, i: nat, mode: Mode, buf: string, next: char) returns (t: Token)
    requires Scanned(s, start, i, mode, buf) && i < |s|
    requires next == if i + 1 < |s| then s[i + 1] else '\0'
    ensures t == TokenOf(mode, s[i], next) && i + t.width <= |s|
    ensures !CutHere(s, i, mode) ==>
      Scanned(s, start, i + t.width, t.next, buf + if t.width == 1 then [s[i]] else [s[i], next])
    ensures CutHere(s, i, mode) ==>
      && Rest(s, start) == (if Trim(buf) == "" then [] else [Trim(buf) + ";"]) + Rest(s, i + 1)
      && Scanned(s, i + 1, i + 1, Code, "")
  {
    hide Classes, Pieces, Kept, Trim;
    var cs := Classes(Code, s);
    t := TokenAt(s, cs, mode, i, next);
    if CutHere(s, i, mode) {
      CutNext(s, cs, start, i);
    } else {
      assert s[start..i + t.width] == s[start..i] + s[i..i + t.width];
      assert s[i..i + t.width] == if t.width == 1 then [s[i]] else [s[i], next];
    }
  }

  lemma Finish(s: string, start: nat, mode: Mode, buf: string)
    requires Scanned(s, start, |s|, mode, buf)
    ensures Rest(s, start) == if Trim(buf) == "" then [] else [Trim(buf)]
  {
    hide Classes, Pieces, Kept, Trim;
    var cs := Classes(Code, s);
    assert buf == s[start..];
    assert forall j :: 0 <= j < |buf| ==> CutAt(buf, cs[start..], j) == CutAt(s, cs, start + j);
    LastPiece(buf, cs[start..]);
  }

  lemma Begin(s: string)
    ensures Scanned(s, 0, 0, Code, "") && Rest(s, 0) == Statements(s)
  {
    assert s[0..] == s && Classes(Code, s)[0..] == Classes(Code, s);
  }

  method SplitStatements(input: string) returns (statements: seq<string>)
    ensures statements == Statements(input)
  {
    hide Scanned, Rest, Trim, Statements;
    ghost var start := 0;
    statements := [];
    var buf := "";
    var single, double, lineComment, blockComment := false, false, false, false;
    var i := 0;
    Begin(input);
    while i < |input|
      invariant start <= i <= |input|
      invariant WellModed(single, double, lineComment, blockComment)
      invariant Scanned(input, start, i, ModeOf(single, double, lineComment, blockComment), buf)
      invariant Statements(input) == statements + Rest(input, start)
    {
      var ch := input[i];
      var next := if i + 1 < |input| then input[i + 1] else '\0';
      ghost var token := Advance(input, start, i, ModeOf(single, double, lineComment, blockComment), buf, next);
      if lineComment {
        buf := buf + [ch];
        if ch == '\n' { lineComment := false; }
      } else if blockComment {
        if ch == '*' && next == '/' {
          buf := buf + [ch, next];
          i := i + 1;
          blockComment := false;
        } else {
          buf := buf + [ch];
        }
      } else if !single && !double && ch == '-' && next == '-' {
        lineComment := true;
        buf := buf + [ch, next];
        i := i + 1;
      } else if !single && !double && ch == '/' && next == '*' {
        blockComment := true;
        buf := buf + [ch, next];
        i := i + 1;
      } else if ch == '\'' && !double && single && next == '\'' {
        buf := buf + [ch, next];
        i := i + 1;
      } else {
        if ch == '\'' && !double { single := !single; }
        if ch == '"' && !single { double := !double; }
        if ch == ';' && !single && !double {
          var value := Trim(buf);
          if value != "" {
            statements := statements + [value + ";"];
          }
          buf := "";
          start := i + 1;
        } else {
          buf := buf + [ch];
        }
      }
      i := i + 1;
    }
    Finish(input, start, ModeOf(single, double, lineComment, blockComment), buf);
    var value := Trim(buf);
    if value != "" {
      statements := statements + [value];
    }
  }

  predicate WellModed(single: bool, double: bool, lineComment: bool, blockComment: bool) {
    && !(single && double)
    && (lineComment ==> !single && !double && !blockComment)
    && (blockComment ==> !single && !double)
  }

  /** The mode that four flags stand for. */
  function ModeOf(single: bool, double: bool, lineComment: bool, blockComment: bool): Mode {
    if lineComment then Line else if blockComment then Block
    else if single then Single else if double then Double else Code
  }

  /** One token of a text already lexed up to `i`. */
  lemma TokenAt(s: string, cs: seq<Class>, mode: Mode, i: nat, next: char) returns (t: Token)
    requires |cs| == |s| && i < |s| && cs[i..] == Classes(mode, s[i..])
    requires next == if i + 1 < |s| then s[i + 1] else '\0'
    ensures t == TokenOf(mode, s[i], next) && i + t.width <= |s|
    ensures forall j :: i <= j < i + t.width ==> cs[j] == t.sort
    ensures cs[i + t.width..] == Classes(t.next, s[i + t.width..])
  {
    t := Head(mode, s[i..]);
    var w := t.width;
    Unfold(mode, s[i..]);
    assert s[i..][w..] == s[i + w..];
    assert forall j :: i <= j < i + w ==> cs[j] == cs[i..][j - i];
    assert cs[i + w..] == cs[i..][w..];
  }

  lemma LastPiece(s: string, cs: seq<Class>)
    requires |cs| == |s| && forall j :: 0 <= j < |s| ==> !CutAt(s, cs, j)
    ensures Kept(Pieces(s, cs)) == if Trim(s) == "" then [] else [Trim(s)]
  {
    FirstCutIs(s, cs, |s|);
  }

  lemma CutNext(s: string, cs: seq<Class>, start: nat, i: nat)
    requires |cs| == |s| && start <= i < |s| && CutAt(s, cs, i)
    requires forall j :: start <= j < i ==> !CutAt(s, cs, j)
    ensures Pieces(s[start..], cs[start..]) == [s[start..i]] + Pieces(s[i + 1..], cs[i + 1..])
    ensures Kept(Pieces(s[start..], cs[start..]))
         == (if Trim(s[start..i]) == "" then [] else [Trim(s[start..i]) + ";"]) + Kept(Pieces(s[i + 1..], cs[i + 1..]))
  {
    hide Classes;
    hide Trim, FirstCut;
    var rest, classes, k := s[start..], cs[start..], i - start;
    forall j | 0 <= j < k
      ensures !CutAt(rest, classes, j)
    {
      assert !CutAt(s, cs, start + j);
    }
    FirstCutIs(rest, classes, k);
    assert rest[..k] == s[start..i];
    DropDrop(s, start, k + 1);
    DropDrop(cs, start, k + 1);
    var later := Pieces(s[i + 1..], cs[i + 1..]);
    assert Pieces(rest, classes) == [s[start..i]] + later;
    Concatenated([s[start..i]], later);
  }

  // ----- What splitting guarantees ---------------------------------------------

  function Join(pieces: seq<string>): string
    requires |pieces| >= 1
  {
    if |pieces| == 1 then pieces[0] else pieces[0] + ";" + Join(pieces[1..])
  }

  function CodeSemicolons(s: string, cs: seq<Class>): nat
    requires |cs| == |s|
  {
    if s == "" then 0 else (if CutAt(s, cs, 0) then 1 else 0) + CodeSemicolons(s[1..], cs[1..])
  }

  /** A piece has no semicolon in code. */
  predicate Uncut(p: string) {
    var cs := Classes(Code, p);
    forall i :: 0 <= i < |p| ==> !CutAt(p, cs, i)
  }

  lemma PlainSemicolon(mode: Mode, b: string)
    requires b != "" && b[0] == ';' && Classes(mode, b)[0] == Plain
    ensures mode == Code && Classes(mode, b)[1..] == Classes(Code, b[1..])
  {
    Unfold(mode, b);
    assert Head(mode, b).sort == Plain;
  }

  /** After a cut the lexer starts over: each side is lexed as if it stood alone. */
  lemma LexAtCut(s: string, k: nat)
    requires k < |s| && CutAt(s, Classes(Code, s), k)
    ensures Classes(Code, s)[..k] == Classes(Code, s[..k])
    ensures Classes(Code, s)[k + 1..] == Classes(Code, s[k + 1..])
  {
    hide Classes, End;
    var a, b := s[..k], s[k..];
    var left, right := Classes(Code, a), Classes(End(Code, a), b);
    assert s == a + b;
    LexConcat(Code, a, b);
    assert (left + right)[k] == right[0];
    PlainSemicolon(End(Code, a), b);
    assert b[1..] == s[k + 1..];
    assert (left + right)[k + 1..] == right[1..];
  }

  /** The input is its pieces joined by the semicolons in code, one cut for each of them. */
  lemma {:induction false} CutsExactlyAtCodeSemicolons(s: string)
    ensures Join(RawPieces(s)) == s
    ensures forall p :: p in RawPieces(s) ==> Uncut(p)
    ensures |RawPieces(s)| == 1 + CodeSemicolons(s, Classes(Code, s))
    decreases |s|
  {
    hide Classes;
    var cs := Classes(Code, s);
    var k := FirstCut(s, cs);
    CountCuts(s, cs, k);
    if k < |s| {
      LexAtCut(s, k);
      assert forall i :: 0 <= i < k ==> CutAt(s[..k], cs[..k], i) == CutAt(s, cs, i);
      CutsExactlyAtCodeSemicolons(s[k + 1..]);
      assert RawPieces(s)[1..] == RawPieces(s[k + 1..]);
      assert s == s[..k] + ";" + s[k + 1..];
    }
  }

  lemma {:induction false} CountCuts(s: string, cs: seq<Class>, k: nat)
    requires |cs| == |s| && k == FirstCut(s, cs)
    ensures CodeSemicolons(s, cs) == if k == |s| then 0 else 1 + CodeSemicolons(s[k + 1..], cs[k + 1..])
  {
    if 0 < k {
      CountCuts(s[1..], cs[1..], k - 1);
      assert k < |s| ==> s[1..][k..] == s[k + 1..] && cs[1..][k..] == cs[k + 1..];
    }
  }

  /** Trimming a text that is lexed from code changes the class of no byte that is kept. */
  lemma LexTrim(p: string, from: nat, to: nat)
    requires from <= to <= |p|
    requires forall i :: 0 <= i < from || to <= i < |p| ==> IsSpace(p[i])
    ensures forall i :: 0 <= i < to - from ==> Classes(Code, p[from..to])[i] == Classes(Code, p)[from + i]
    ensures forall i :: 0 <= i < from ==> Classes(Code, p)[i] == Plain
  {
    hide Classes, End;
    var a, t, b := p[..from], p[from..to], p[to..];
    assert p[..to] == a + t && p == p[..to] + b;
    LexConcat(Code, a + t, b);
    LexAfterBlank(a, t);
    var left, right := Repeat(Plain, from), Classes(End(Code, a + t), b);
    assert Classes(Code, p) == left + Classes(Code, t) + right;
  }

  lemma {:induction false} LexAfterBlank(a: string, t: string)
    requires Blank(a)
    ensures Classes(Code, a + t) == Repeat(Plain, |a|) + Classes(Code, t)
    ensures End(Code, a + t) == End(Code, t)
    decreases |a|
  {
    if a == "" {
      assert a + t == t;
    } else {
      assert Head(Code, a + t) == Token(1, Plain, Code);
      assert (a + t)[1..] == a[1..] + t;
      LexAfterBlank(a[1..], t);
    }
  }

  lemma TrimmedPieceUncut(p: string)
    requires Uncut(p)
    ensures Uncut(Trim(p))
  {
    hide Classes;
    var from, to := TrimSlice(p);
    LexTrim(p, from, to);
    var cs, t, ct := Classes(Code, p), Trim(p), Classes(Code, Trim(p));
    forall i | 0 <= i < |t|
      ensures !CutAt(t, ct, i)
    {
      assert t[i] == p[from + i] && ct[i] == cs[from + i];
      assert !CutAt(p, cs, from + i);
    }
  }

  lemma UncutAlone(t: string)
    requires Uncut(t) && Trimmed(t) && t != ""
    ensures Statements(t) == [t]
  {
    FirstCutIs(t, Classes(Code, t), |t|);
    TrimFixpoint(t);
  }

  /**
   A trimmed piece with its semicolon splits into itself. When trimming took away the newline
   that closed a line comment, the semicolon is inside that comment and nothing is cut.
   */
  lemma PieceStable(t: string)
    requires Uncut(t) && Trimmed(t) && t != ""
    ensures Statements(t + ";") == [t + ";"]
  {
    hide Classes, Trim;
    var o, cs := t + ";", Classes(Code, t + ";");
    LexConcat(Code, t, ";");
    assert forall i :: 0 <= i < |t| ==> CutAt(o, cs, i) == CutAt(t, Classes(Code, t), i);
    TrimFixpoint(t);
    TrimFixpoint(o);
    if CutAt(o, cs, |t|) {
      FirstCutIs(o, cs, |t|);
      assert o[..|t|] == t && o[|t| + 1..] == "";
      LastPiece("", []);
      assert Pieces(o, cs)[1..] == [""];
      TrimEmptyIffBlank("");
    } else {
      FirstCutIs(o, cs, |o|);
    }
  }

  predicate StableOutput(o: string) {
    o != "" && Trimmed(o) && Statements(o) == [o]
  }

  lemma {:induction false} KeptStable(pieces: seq<string>)
    requires |pieces| >= 1 && forall p :: p in pieces ==> Uncut(p)
    ensures forall o :: o in Kept(pieces) ==> StableOutput(o)
    decreases |pieces|
  {
    var t := Trim(pieces[0]);
    TrimmedPieceUncut(pieces[0]);
    TrimFixpoint(pieces[0]);
    if t != "" {
      UncutAlone(t);
      PieceStable(t);
    }
    if |pieces| > 1 {
      KeptStable(pieces[1..]);
    }
  }

  /** Every statement is trimmed, not empty, and splits into itself alone. */
  lemma EveryStatementIsStable(s: string)
    ensures forall o :: o in Statements(s) ==> StableOutput(o)
  {
    CutsExactlyAtCodeSemicolons(s);
    KeptStable(RawPieces(s));
  }

  // ----- Meta-commands ---------------------------------------------------------

  predicate MetaAt(s: string, i: nat)
    requires i < |s|
  {
    s[i] == '\\' && Classes(Code, s)[i] == Plain
  }

  /** A backslash in code, as the splitting lexer sees code. */
  ghost predicate HasMeta(s: string) {
    exists i :: 0 <= i < |s| && MetaAt(s, i)
  }

  method ContainsPsqlMetaCommand(input: string) returns (found: bool)
    ensures found == HasMeta(input)
  {
    hide Classes;
    ghost var cs := Classes(Code, input);
    var single, double, lineComment, blockComment := false, false, false, false;
    var index := 0;
    assert input[0..] == input && cs[0..] == cs;
    while index < |input|
      invariant index <= |input|
      invariant WellModed(single, double, lineComment, blockComment)
      invariant cs[index..] == Classes(ModeOf(single, double, lineComment, blockComment), input[index..])
      invariant forall j :: 0 <= j < index ==> !MetaAt(input, j)
    {
      ghost var mode := ModeOf(single, double, lineComment, blockComment);
      var current := input[index];
      var next := if index + 1 < |input| then input[index + 1] else '\0';
      ghost var token := TokenAt(input, cs, mode, index, next);
      if lineComment {
        if current == '\n' { lineComment := false; }
      } else if blockComment {
        if current == '*' && next == '/' {
          index := index + 1;
          blockComment := false;
        }
      } else if !single && !double && current == '-' && next == '-' {
        index := index + 1;
        lineComment := true;
      } else if !single && !double && current == '/' && next == '*' {
        index := index + 1;
        blockComment := true;
      } else if current == '\'' && !double {
        if single && next == '\'' {
          index := index + 1;
        } else {
          single := !single;
        }
      } else if current == '"' && !single {
        double := !double;
      } else if current == '\\' && !single && !double {
        assert MetaAt(input, index);
        return true;
      }
      index := index + 1;
    }
    found := false;
  }

  lemma MetaInPiece(p: string, suffix: string)
    requires suffix == "" || suffix == ";"
    ensures HasMeta(p) <==> HasMeta(Trim(p) + suffix)
  {
    hide Classes;
    var from, to := TrimSlice(p);
    var t := Trim(p);
    LexTrim(p, from, to);
    LexConcat(Code, t, suffix);
    var cs, ct, co := Classes(Code, p), Classes(Code, t), Classes(Code, t + suffix);
    if HasMeta(p) {
      var i :| 0 <= i < |p| && MetaAt(p, i);
      assert from <= i < to;
      assert co[i - from] == ct[i - from] == cs[from + (i - from)];
      assert (t + suffix)[i - from] == t[i - from] == p[i];
      assert MetaAt(t + suffix, i - from);
    }
    if HasMeta(t + suffix) {
      var i :| 0 <= i < |t + suffix| && MetaAt(t + suffix, i);
      assert i < |t|;
      assert co[i] == ct[i] == cs[from + i];
      assert MetaAt(p, from + i);
    }
  }

  lemma MetaAcrossCut(s: string, k: nat)
    requires k < |s| && CutAt(s, Classes(Code, s), k)
    ensures HasMeta(s) <==> HasMeta(s[..k]) || HasMeta(s[k + 1..])
  {
    hide Classes;
    LexAtCut(s, k);
    var a, b := s[..k], s[k + 1..];
    var cs, ca, cb := Classes(Code, s), Classes(Code, s[..k]), Classes(Code, s[k + 1..]);
    if HasMeta(s) {
      var i :| 0 <= i < |s| && MetaAt(s, i);
      if i < k {
        assert ca[i] == cs[i];
        assert MetaAt(a, i);
      } else {
        assert cb[i - k - 1] == cs[i];
        assert MetaAt(b, i - k - 1);
      }
    }
    if HasMeta(a) {
      var i :| 0 <= i < |a| && MetaAt(a, i);
      assert ca[i] == cs[i];
      assert MetaAt(s, i);
    }
    if HasMeta(b) {
      var i :| 0 <= i < |b| && MetaAt(b, i);
      assert cb[i] == cs[k + 1 + i];
      assert MetaAt(s, k + 1 + i);
    }
  }

  /** Splitting neither hides a meta-command nor creates one. */
  lemma {:induction false} MetaSurvivesSplitting(s: string)
    ensures HasMeta(s) <==> exists o :: o in Statements(s) && HasMeta(o)
    decreases |s|
  {
    hide Classes;
    var cs := Classes(Code, s);
    var k := FirstCut(s, cs);
    var t := Trim(s[..k]);
    assert !HasMeta("");
    assert t + "" == t;
    if k == |s| {
      assert s[..k] == s;
      MetaInPiece(s, "");
      assert Statements(s) == if t == "" then [] else [t];
    } else {
      LexAtCut(s, k);
      MetaAcrossCut(s, k);
      MetaInPiece(s[..k], ";");
      MetaInPiece(s[..k], "");
      MetaSurvivesSplitting(s[k + 1..]);
      assert RawPieces(s)[1..] == RawPieces(s[k + 1..]);
      assert Statements(s) == (if t == "" then [] else [t + ";"]) + Statements(s[k + 1..]);
    }
  }

  // ----- Leading comments ------------------------------------------------------

  predicate Significant(s: string, cs: seq<Class>, i: nat)
    requires |cs| == |s| && i < |s|
  {
    cs[i] != Comment && !IsSpace(s[i])
  }

  function FirstSignificant(s: string, cs: seq<Class>): (k: nat)
    requires |cs| == |s|
    ensures k <= |s| && (k < |s| ==> Significant(s, cs, k))
    ensures forall i :: 0 <= i < k ==> !Significant(s, cs, i)
  {
    if s == "" || Significant(s, cs, 0) then 0
    else
      var k := FirstSignificant(s[1..], cs[1..]);
      assert forall i :: 1 <= i < 1 + k ==> Significant(s, cs, i) == Significant(s[1..], cs[1..], i - 1);
      1 + k
  }

  /** From the first byte that is neither comment nor white space, trimmed. */
  function Stripped(s: string): string {
    Trim(s[FirstSignificant(s, Classes(Code, s))..])
  }

  lemma FirstSignificantIs(s: string, cs: seq<Class>, k: nat)
    requires |cs| == |s| && k <= |s| && (k < |s| ==> Significant(s, cs, k))
    requires forall i :: 0 <= i < k ==> !Significant(s, cs, i)
    ensures FirstSignificant(s, cs) == k
  {
    var f := FirstSignificant(s, cs);
    if f < k {
      assert false;
    }
  }

  lemma {:induction false} SkipInsignificant(s: string, cs: seq<Class>, n: nat)
    requires |cs| == |s| && n <= |s|
    requires forall i :: 0 <= i < n ==> !Significant(s, cs, i)
    ensures FirstSignificant(s, cs) == n + FirstSignificant(s[n..], cs[n..])
    decreases n
  {
    if n == 0 {
      assert s[0..] == s && cs[0..] == cs;
    } else {
      forall i | 0 <= i < n - 1
        ensures !Significant(s[1..], cs[1..], i)
      {
        assert !Significant(s, cs, i + 1);
      }
      SkipInsignificant(s[1..], cs[1..], n - 1);
      assert s[1..][n - 1..] == s[n..] && cs[1..][n - 1..] == cs[n..];
    }
  }

  /** A prefix of comments that leads back to code can be dropped. */
  lemma StrippedAfter(s: string, n: nat)
    requires n <= |s| && Classes(Code, s) == Repeat(Comment, n) + Classes(Code, s[n..])
    ensures Stripped(s) == Stripped(s[n..])
  {
    hide Classes, Trim, FirstSignificant;
    var cs, rest := Classes(Code, s), Classes(Code, s[n..]);
    Concatenated(Repeat(Comment, n), rest);
    forall i | 0 <= i < n
      ensures !Significant(s, cs, i)
    {
    }
    SkipInsignificant(s, cs, n);
    DropDrop(s, n, FirstSignificant(s[n..], rest));
  }

  lemma StrippedNothing(s: string)
    requires Classes(Code, s) == Repeat(Comment, |s|)
    ensures Stripped(s) == ""
  {
    FirstSignificantIs(s, Classes(Code, s), |s|);
    assert s[|s|..] == "" && Trim("") == "";
  }

  /** Trimming moves the first significant byte with the text, and keeps the rest of it. */
  lemma StrippedTrim(s: string)
    ensures Stripped(Trim(s)) == Stripped(s)
  {
    hide Classes;
    var from, to := TrimSlice(s);
    var t, cs, ct := Trim(s), Classes(Code, s), Classes(Code, Trim(s));
    LexTrim(s, from, to);
    forall i | 0 <= i < |t|
      ensures Significant(t, ct, i) == Significant(s, cs, from + i)
    {
      assert ct[i] == cs[from + i] && t[i] == s[from + i];
    }
    var k := FirstSignificant(t, ct);
    forall i | 0 <= i < from + k
      ensures !Significant(s, cs, i)
    {
      assert i >= from ==> !Significant(t, ct, i - from) && from + (i - from) == i;
    }
    if k < |t| {
      FirstSignificantIs(s, cs, from + k);
      SameTail(s, from, to, k);
    } else {
      FirstSignificantIs(s, cs, |s|);
      assert s[|s|..] == "" == t[k..];
    }
  }

  lemma SameTail(s: string, from: nat, to: nat, k: nat)
    requires from <= from + k < to <= |s| && !IsSpace(s[from + k]) && !IsSpace(s[to - 1])
    requires forall i :: to <= i < |s| ==> IsSpace(s[i])
    ensures Trim(s[from + k..]) == Trim(s[from..to][k..])
  {
    var tail, n := s[from + k..], to - from - k;
    var middle := tail[0..n];
    assert s[from..to][k..] == middle;
    assert middle[0] == s[from + k] && middle[n - 1] == s[to - 1];
    assert forall i :: n <= i < |tail| ==> tail[i] == s[from + k + i];
    TrimUnique(tail, 0, n);
    TrimFixpoint(middle);
  }

  /** The position of the first comment terminator, or the length. */
  function IndexClose(s: string): (e: nat)
    ensures e <= |s| && (e < |s| ==> e + 1 < |s| && s[e] == '*' && s[e + 1] == '/')
  {
    if s == "" || (s[0] == '*' && Peek(s) == '/') then 0 else 1 + IndexClose(s[1..])
  }

  lemma {:induction false} LexLine(s: string)
    ensures var e := IndexNewline(s);
            Classes(Line, s) == if e == |s| then Repeat(Comment, e) else Repeat(Comment, e + 1) + Classes(Code, s[e + 1..])
  {
    hide Classes;
    if s == "" {
      LexEmpty(Line);
    } else {
      Unfold(Line, s);
      LexLine(s[1..]);
      var e := IndexNewline(s);
      if 0 < e < |s| {
        assert s[1..][e - 1 + 1..] == s[e + 1..];
      }
    }
  }

  lemma {:induction false} LexBlock(s: string)
    ensures var e := IndexClose(s);
            Classes(Block, s) == if e == |s| then Repeat(Comment, e) else Repeat(Comment, e + 2) + Classes(Code, s[e + 2..])
  {
    hide Classes;
    if s == "" {
      LexEmpty(Block);
    } else {
      Unfold(Block, s);
      LexBlock(s[1..]);
      var e := IndexClose(s);
      if 0 < e < |s| {
        assert s[1..][e - 1 + 2..] == s[e + 2..];
      }
    }
  }

  lemma NewlineAfterDashes(s: string)
    requires HasPrefix(s, "--")
    ensures IndexNewline(s) == 2 + IndexNewline(s[2..])
  {
    assert s[0] == '-' && s[1] == '-';
    assert s[1..][1..] == s[2..];
  }

  /** A comment opener and what the comment mode takes up to its end can be dropped. */
  lemma OpensComment(s: string, mode: Mode, m: nat)
    requires |s| >= 2 + m && Head(Code, s) == Token(2, Comment, mode)
    requires Classes(mode, s[2..]) == Repeat(Comment, m) + Classes(Code, s[2 + m..])
    ensures Stripped(s) == Stripped(s[2 + m..])
  {
    hide Classes, Stripped;
    Unfold(Code, s);
    assert Repeat(Comment, 2) + Repeat(Comment, m) == Repeat(Comment, 2 + m);
    StrippedAfter(s, 2 + m);
  }

  lemma NeverCloses(s: string, mode: Mode)
    requires |s| >= 2 && Head(Code, s) == Token(2, Comment, mode)
    requires Classes(mode, s[2..]) == Repeat(Comment, |s| - 2)
    ensures Stripped(s) == ""
  {
    hide Classes, Stripped;
    Unfold(Code, s);
    StrippedNothing(s);
  }

  lemma CommentHeads(s: string)
    ensures HasPrefix(s, "--") ==> Head(Code, s) == Token(2, Comment, Line)
    ensures HasPrefix(s, "/*") ==> Head(Code, s) == Token(2, Comment, Block)
  {
    if |s| >= 2 {
      assert s[..2][0] == s[0] && s[..2][1] == s[1] == Peek(s);
    }
  }

  lemma LineComment(s: string)
    requires HasPrefix(s, "--")
    ensures var d := IndexNewline(s[2..]);
            Stripped(s) == if d == |s| - 2 then "" else Stripped(s[2 + (d + 1)..])
  {
    hide Classes, Stripped, IndexNewline, TokenOf;
    CommentHeads(s);
    var d := IndexNewline(s[2..]);
    LexLine(s[2..]);
    if d == |s| - 2 {
      NeverCloses(s, Line);
    } else {
      DropDrop(s, 2, d + 1);
      OpensComment(s, Line, d + 1);
    }
  }

  lemma OpensLine(s: string)
    requires HasPrefix(s, "--")
    ensures var e := IndexNewline(s);
            Stripped(s) == if e == |s| then "" else Stripped(s[e + 1..])
  {
    hide Stripped, IndexNewline;
    NewlineAfterDashes(s);
    LineComment(s);
  }

  lemma OpensBlock(s: string)
    requires HasPrefix(s, "/*")
    ensures var e := IndexClose(s[2..]);
            Stripped(s) == if e == |s| - 2 then "" else Stripped(s[e + 4..])
  {
    hide Classes, Stripped, IndexClose, TokenOf;
    CommentHeads(s);
    var e := IndexClose(s[2..]);
    LexBlock(s[2..]);
    if e == |s| - 2 {
      NeverCloses(s, Block);
    } else {
      DropDrop(s, 2, e + 2);
      OpensComment(s, Block, e + 2);
    }
  }

  lemma OpensNothing(s: string)
    requires Trimmed(s) && !HasPrefix(s, "--") && !HasPrefix(s, "/*")
    ensures Stripped(s) == s
  {
    if s != "" {
      assert |s| > 1 ==> s[..2] == [s[0], s[1]];
      assert Head(Code, s).sort != Comment;
      assert Significant(s, Classes(Code, s), 0);
      FirstSignificantIs(s, Classes(Code, s), 0);
    }
    TrimFixpoint(s);
  }

  lemma TrimShortens(s: string)
    ensures |Trim(s)| <= |s|
  {
    var from, to := TrimSlice(s);
  }

  method StripLeadingComments(input: string) returns (value: string)
    ensures value == Stripped(input)
  {
    hide Classes, Trim, Stripped, IndexNewline, IndexClose;
    value := Trim(input);
    TrimFixpoint(input);
    StrippedTrim(input);
    while true
      invariant Trimmed(value) && Stripped(value) == Stripped(input)
      decreases |value|
    {
      if HasPrefix(value, "--") {
        OpensLine(value);
        var end := IndexNewline(value);
        if end == |value| {
          return "";
        }
        var rest := value[end + 1..];
        TrimFixpoint(rest);
        StrippedTrim(rest);
        TrimShortens(rest);
        value := Trim(rest);
      } else if HasPrefix(value, "/*") {
        OpensBlock(value);
        var end := IndexClose(value[2..]);
        if end == |value| - 2 {
          return "";
        }
        var rest := value[end + 4..];
        TrimFixpoint(rest);
        StrippedTrim(rest);
        TrimShortens(rest);
        value := Trim(rest);
      } else {
        OpensNothing(value);
        return value;
      }
    }
  }

  // ----- Executable statements -------------------------------------------------

  /** Something besides comments, white space and the closing semicolon. */
  ghost predicate Executable(s: string) {
    exists i :: 0 <= i < |s| && Significant(s, Classes(Code, s), i) && !(i == |s| - 1 && s[i] == ';')
  }

  function TrimSemicolon(s: string): string {
    if HasSuffix(s, ";") then s[..|s| - 1] else s
  }

  /** Of a trimmed text, nothing is left but for a lone semicolon. */
  lemma SemicolonAlone(text: string)
    requires Trimmed(text) && text != ""
    ensures Trim(TrimSemicolon(text)) == "" <==> text == ";"
  {
    hide Trim;
    var rest := TrimSemicolon(text);
    TrimEmptyIffBlank(rest);
    if |text| == 1 {
      assert text == [text[0]];
    } else {
      assert rest[0] == text[0];
    }
  }

  lemma NothingToTrim()
    ensures Trim("") == "" && Trim(TrimSemicolon("")) == ""
  {
  }

  lemma NormalizedIffExecutable(s: string)
    requires Trimmed(s)
    ensures Trim(TrimSemicolon(Stripped(s))) != "" <==> Executable(s)
  {
    hide Classes, Trim, TrimSemicolon;
    var cs := Classes(Code, s);
    var k := FirstSignificant(s, cs);
    var tail := s[k..];
    if k == |s| {
      assert tail == "";
      NothingToTrim();
    } else {
      assert tail[0] == s[k] && tail[|tail| - 1] == s[|s| - 1];
      TrimFixpoint(tail);
      SemicolonAlone(tail);
      if k == |s| - 1 {
        assert tail == [s[k]];
      }
      assert Significant(s, cs, k);
    }
  }

  ghost function Filter(statements: seq<string>): seq<string> {
    if statements == [] then []
    else
      var n := |statements| - 1;
      Filter(statements[..n]) + if Executable(statements[n]) then [statements[n]] else []
  }

  /** Exactly the statements that hold code, in order. */
  method ExecutableStatements(input: string) returns (result: seq<string>)
    ensures result == Filter(Statements(input))
  {
    hide Classes;
    var statements := SplitStatements(input);
    EveryStatementIsStable(input);
    result := [];
    for i := 0 to |statements|
      invariant result == Filter(statements[..i])
    {
      var stripped := StripLeadingComments(statements[i]);
      var normalized := Trim(TrimSemicolon(stripped));
      assert StableOutput(statements[i]);
      NormalizedIffExecutable(statements[i]);
      if normalized != "" {
        result := result + [statements[i]];
      }
      assert statements[..i + 1][..i] == statements[..i];
    }
    assert statements[..|statements|] == statements;
  }

  /** In a piece of the input, something that is neither comment nor white space. */
  ghost predicate HoldsCode(p: string) {
    exists i :: 0 <= i < |p| && Significant(p, Classes(Code, p), i)
  }

  /** Judging the trimmed statement alone is the same as judging its piece of the input. */
  lemma ExecutableIffPieceHoldsCode(p: string)
    requires Uncut(p)
    ensures Executable(Trim(p) + ";") <==> HoldsCode(p)
    ensures Executable(Trim(p)) <==> HoldsCode(p)
  {
    hide Classes, Trim;
    var t, o := Trim(p), Trim(p) + ";";
    var from, to := TrimSlice(p);
    var cs, ct, co := Classes(Code, p), Classes(Code, t), Classes(Code, o);
    LexTrim(p, from, to);
    LexConcat(Code, t, ";");
    TrimmedPieceUncut(p);
    if HoldsCode(p) {
      var i :| 0 <= i < |p| && Significant(p, cs, i);
      assert from <= i < to;
      assert co[i - from] == ct[i - from] == cs[from + (i - from)];
      assert o[i - from] == t[i - from] == p[i];
      SemicolonIsNotAlone(t, i - from);
      assert Significant(o, co, i - from);
    }
    if Executable(t) {
      var i :| 0 <= i < |t| && Significant(t, ct, i);
      assert cs[from + i] == ct[i] && p[from + i] == t[i];
      assert Significant(p, cs, from + i);
    }
    if Executable(o) {
      var i :| 0 <= i < |o| && Significant(o, co, i) && !(i == |o| - 1 && o[i] == ';');
      assert i < |t|;
      assert cs[from + i] == ct[i] == co[i] && p[from + i] == t[i] == o[i];
      assert Significant(p, cs, from + i);
    }
  }

  lemma SemicolonIsNotAlone(t: string, i: nat)
    requires Uncut(t) && i < |t| && Significant(t, Classes(Code, t), i)
    ensures Executable(t)
  {
    var cs := Classes(Code, t);
    var k := FirstSignificant(t, cs);
    QuoteOpens(Code, t, k);
    assert !CutAt(t, cs, k);
    assert Significant(t, cs, k) && t[k] != ';';
  }

  lemma OutsideQuotes(mode: Mode, c: char, next: char)
    requires mode == Code || mode == Line || mode == Block
    ensures var t := TokenOf(mode, c, next);
            && (t.sort == Quoted ==> t.width == 1 && (c == '\'' || c == '"'))
            && (t.sort != Quoted ==> t.next == Code || t.next == Line || t.next == Block)
  {
  }

  /** Where nothing but comments and white space came before, only a quote mark is quoted. */
  lemma {:induction false} QuoteOpens(mode: Mode, s: string, k: nat)
    requires mode == Code || mode == Line || mode == Block
    requires k < |s| && forall i :: 0 <= i < k ==> !Significant(s, Classes(mode, s), i)
    ensures Classes(mode, s)[k] == Quoted ==> s[k] == '\'' || s[k] == '"'
    decreases |s|
  {
    hide Classes, TokenOf;
    var t, cs := Head(mode, s), Classes(mode, s);
    Unfold(mode, s);
    OutsideQuotes(mode, s[0], Peek(s));
    if t.width <= k {
      var rest, later := s[t.width..], Classes(t.next, s[t.width..]);
      assert cs[0] == t.sort && !Significant(s, cs, 0);
      forall i | 0 <= i < k - t.width
        ensures !Significant(rest, later, i)
      {
        assert !Significant(s, cs, t.width + i) && later[i] == cs[t.width + i];
      }
      QuoteOpens(t.next, rest, k - t.width);
      assert later[k - t.width] == cs[k];
    } else {
      assert cs[k] == t.sort;
    }
  }

  // ----- Experiment scripts ----------------------------------------------------

  const COMMANDS: seq<string> := [
    "BEGIN", "START TRANSACTION", "COMMIT", "END", "ROLLBACK", "SAVEPOINT",
    "RELEASE SAVEPOINT", "PREPARE TRANSACTION", "COMMIT PREPARED", "ROLLBACK PREPARED"
  ]

  function Normalized(statement: string): string {
    Upper(Trim(TrimSemicolon(Stripped(statement))))
  }

  predicate Controls(normalized: string, command: string) {
    normalized == command || HasPrefix(normalized, command + " ")
  }

  predicate TransactionControl(statement: string) {
    exists c :: 0 <= c < |COMMANDS| && Controls(Normalized(statement), COMMANDS[c])
  }

  ghost predicate Acceptable(sql: string) {
    !HasMeta(sql) && forall o :: o in Statements(sql) ==> !TransactionControl(o)
  }

  method ValidateScript(sql: string) returns (ok: bool)
    ensures ok <==> Acceptable(sql)
  {
    hide Statements, HasMeta, TransactionControl, Stripped;
    var meta := ContainsPsqlMetaCommand(sql);
    if meta {
      return false;
    }
    var statements := SplitStatements(sql);
    for i := 0 to |statements|
      invariant forall k :: 0 <= k < i ==> !TransactionControl(statements[k])
    {
      var control := IsTransactionControl(statements[i]);
      if control {
        return false;
      }
    }
    ok := true;
  }

  method IsTransactionControl(statement: string) returns (found: bool)
    ensures found == TransactionControl(statement)
  {
    hide Stripped, Trim, TrimSemicolon;
    var stripped := StripLeadingComments(statement);
    var normalized := Upper(Trim(TrimSemicolon(stripped)));
    for c := 0 to |COMMANDS|
      invariant forall k :: 0 <= k < c ==> !Controls(normalized, COMMANDS[k])
    {
      if Controls(normalized, COMMANDS[c]) {
        return true;
      }
    }
    found := false;
  }

  /** The forward script and its rollback are held to the same rule. */
  method ValidateExperimentSql(sql: string, rollback: string) returns (ok: bool)
    ensures ok <==> Acceptable(sql) && Acceptable(rollback)
  {
    hide Acceptable;
    ok := ValidateScript(sql);
    if ok {
      ok := ValidateScript(rollback);
    }
  }

  /** A script passes exactly when each of its statements, run alone, would pass. */
  lemma AcceptedStatementByStatement(sql: string)
    ensures Acceptable(sql) <==> forall o :: o in Statements(sql) ==> Acceptable(o)
  {
    hide Statements, HasMeta, TransactionControl;
    MetaSurvivesSplitting(sql);
    EveryStatementIsStable(sql);
    forall o | o in Statements(sql)
      ensures Acceptable(o) <==> !HasMeta(o) && !TransactionControl(o)
    {
      assert StableOutput(o);
      assert Statements(o) == [o];
    }
  }

  // ----- Which transaction control slips through -------------------------------

  predicate WordByte(c: char) {
    'A' <= c <= 'Z' || 'a' <= c <= 'z'
  }

  /** The command's words stand at the front, and the last of them ends there. */
  predicate BeginsWith(normalized: string, command: string) {
    && HasPrefix(normalized, command)
    && (|normalized| > |command| ==> !WordByte(normalized[|command|]))
  }

  /**
   A statement that begins with a command is let through exactly when the byte behind every
   command it begins with is something other than a space.
   */
  lemma SlipsThroughExactly(statement: string)
    requires exists c :: 0 <= c < |COMMANDS| && BeginsWith(Normalized(statement), COMMANDS[c])
    ensures !TransactionControl(statement)
       <==> forall c :: 0 <= c < |COMMANDS| && BeginsWith(Normalized(statement), COMMANDS[c]) ==>
              |Normalized(statement)| > |COMMANDS[c]| && Normalized(statement)[|COMMANDS[c]|] != ' '
  {
    hide Normalized;
    var n := Normalized(statement);
    forall c | 0 <= c < |COMMANDS|
      ensures Controls(n, COMMANDS[c])
         <==> BeginsWith(n, COMMANDS[c]) && (|n| == |COMMANDS[c]| || n[|COMMANDS[c]|] == ' ')
    {
      ControlsByWords(n, COMMANDS[c]);
    }
  }

  lemma ControlsByWords(n: string, command: string)
    ensures Controls(n, command) <==> BeginsWith(n, command) && (|n| == |command| || n[|command|] == ' ')
  {
    var k := |command|;
    if Controls(n, command) && n != command {
      assert n[..k] == n[..k + 1][..k] == (command + " ")[..k] == command;
      assert n[k] == n[..k + 1][k] == (command + " ")[k];
    }
    if HasPrefix(n, command) && |n| > k && n[k] == ' ' {
      assert n[..k + 1] == n[..k] + [n[k]];
    }
  }

  /** Letters and white space only, with a letter at both ends. */
  predicate Wordy(s: string) {
    s != "" && Trimmed(s) && forall i :: 0 <= i < |s| ==> WordByte(s[i]) || IsSpace(s[i])
  }

  lemma {:induction false} LexWords(s: string)
    requires forall i :: 0 <= i < |s| ==> WordByte(s[i]) || IsSpace(s[i])
    ensures Classes(Code, s) == Repeat(Plain, |s|)
    decreases |s|
  {
    if s != "" {
      assert Head(Code, s) == Token(1, Plain, Code);
      LexWords(s[1..]);
    }
  }

  /** Such a text is one statement, normalised by its letters' case alone. */
  lemma WordsAlone(s: string)
    requires Wordy(s)
    ensures Statements(s) == [s] && !HasMeta(s) && Normalized(s) == Upper(s)
  {
    hide Classes, Trim;
    LexWords(s);
    TrimFixpoint(s);
    LastPiece(s, Classes(Code, s));
    assert Significant(s, Classes(Code, s), 0);
    FirstSignificantIs(s, Classes(Code, s), 0);
    assert s[0..] == s;
    assert s[|s| - 1..] == [s[|s| - 1]] && s[|s| - 1] != ';';
  }

  lemma AcceptedWords(s: string)
    requires Wordy(s)
    ensures Acceptable(s) <==> forall c :: 0 <= c < |COMMANDS| ==> !Controls(Upper(s), COMMANDS[c])
  {
    hide Statements, HasMeta, Controls, Upper, Normalized;
    WordsAlone(s);
    assert s in Statements(s);
  }

  lemma TabIsNoCommand(n: string)
    requires |n| > 5 && n[0] == 'B' && n[5] == '\t'
    ensures forall c :: 0 <= c < |COMMANDS| ==> !Controls(n, COMMANDS[c])
  {
    hide Controls;
    forall c | 0 <= c < |COMMANDS|
      ensures !Controls(n, COMMANDS[c])
    {
      ControlsByWords(n, COMMANDS[c]);
      if c > 0 {
        assert n[0] == 'B' != COMMANDS[c][0];
      }
    }
  }

  lemma SpaceIsACommand(n: string)
    requires |n| > 5 && n[..6] == "BEGIN "
    ensures Controls(n, COMMANDS[0])
  {
    assert COMMANDS[0] + " " == "BEGIN ";
  }

  /** A transaction begun with a tab behind its command is accepted, whatever words follow. */
  lemma TabSlipsThrough(rest: string)
    requires Wordy(rest)
    ensures Acceptable("BEGIN\t" + rest) && !Acceptable("BEGIN " + rest)
  {
    hide Acceptable, Controls;
    var tab, space := "BEGIN\t" + rest, "BEGIN " + rest;
    AcceptedWords(tab);
    AcceptedWords(space);
    TabIsNoCommand(Upper(tab));
    assert Upper(space)[..6] == "BEGIN ";
    SpaceIsACommand(Upper(space));
  }

  lemma NewlineIsNoCommand(n: string)
    requires |n| > 6 && n[0] == 'C' && n[6] == '\n'
    ensures forall c :: 0 <= c < |COMMANDS| ==> !Controls(n, COMMANDS[c])
  {
    hide Controls;
    forall c | 0 <= c < |COMMANDS|
      ensures !Controls(n, COMMANDS[c])
    {
      ControlsByWords(n, COMMANDS[c]);
      if c == 8 {
        assert COMMANDS[c][6] == ' ';
      } else if c != 2 {
        assert n[0] == 'C' != COMMANDS[c][0];
      }
    }
  }

  /** A chained commit on a second line is accepted as well. */
  lemma NewlineSlipsThrough()
    ensures Acceptable("COMMIT\nAND CHAIN")
  {
    hide Acceptable, Controls;
    var s := "COMMIT\nAND CHAIN";
    AcceptedWords(s);
    assert Upper(s)[0] == 'C' && Upper(s)[6] == '\n';
    NewlineIsNoCommand(Upper(s));
  }
}
