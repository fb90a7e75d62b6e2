/** `stripJavaScriptComments`: a scanner that drops comments and keeps everything else. */
module CommentScanner {
  // What the scanner is in: code, a line comment, a block comment, or a literal opened by a quote.
  datatype Mode = Code | Line | Block | Literal(quote: char)

  predicate IsQuote(c: char) { c == '\'' || c == '"' || c == '`' }

  /** The next character, if there is one: `sourceText[index + 1] ?? ""`. */
  predicate NextIs(s: string, c: char) { |s| > 1 && s[1] == c }

  predicate OpensComment(s: string)
    requires s != []
  {
    s[0] == '/' && (NextIs(s, '/') || NextIs(s, '*'))
  }

  /** One turn of the scanner: what it writes, how far it moves, and the mode it is in then. */
  datatype Turn = Turn(out: string, width: nat, mode: Mode)

  function Scan(s: string, m: Mode): (t: Turn)
    requires s != []
    ensures 1 <= t.width
  {
    match m
    case Code =>
      if IsQuote(s[0]) then Turn([s[0]], 1, Literal(s[0]))
      else if s[0] == '/' && NextIs(s, '/') then Turn([], 2, Line)
      else if s[0] == '/' && NextIs(s, '*') then Turn([], 2, Block)
      else Turn([s[0]], 1, Code)
    case Line => if s[0] == '\n' then Turn("\n", 1, Code) else Turn([], 1, Line)
    case Block =>
      if s[0] == '*' && NextIs(s, '/') then Turn([], 2, Code)
      else Turn(if s[0] == '\n' then "\n" else [], 1, Block)
    case Literal(q) =>
      if s[0] == '\\' then Turn([s[0]] + (if |s| > 1 then [s[1]] else []), 2, m)
      else Turn([s[0]], 1, if s[0] == q then Code else m)
  }

  function Rest(s: string, n: nat): string { if n <= |s| then s[n..] else [] }

  function Strip(s: string, m: Mode): string
    decreases |s|
  {
    if s == [] then []
    else
      var t := Scan(s, m);
      t.out + Strip(Rest(s, t.width), t.mode)
  }

  lemma Regroup(a: string, b: string, c: string)
    ensures (a + b) + c == a + (b + c)
  {
  }

  lemma NothingBefore(s: string)
    ensures [] + s == s
  {
  }

  lemma RestFrom(s: string, i: nat, n: nat)
    requires i <= |s|
    ensures Rest(s[i..], n) == Rest(s, i + n)
  {
  }

  lemma StripTurn(s: string, m: Mode)
    requires s != []
    ensures Strip(s, m) == Scan(s, m).out + Strip(Rest(s, Scan(s, m).width), Scan(s, m).mode)
  {
  }

  /** How many comments the scanner enters. */
  function Comments(s: string, m: Mode): nat
    decreases |s|
  {
    if s == [] then 0
    else
      var t := Scan(s, m);
      (if m == Code && OpensComment(s) then 1 else 0) + Comments(Rest(s, t.width), t.mode)
  }

  /** One turn of the loop, reading the text by index. */
  method TakeTurn(sourceText: string, index: nat, mode: Mode) returns (written: string, width: nat, after: Mode)
    requires index < |sourceText|
    ensures Turn(written, width, after) == Scan(sourceText[index..], mode)
  {
    var c := sourceText[index];
    var next := if index + 1 < |sourceText| then [sourceText[index + 1]] else "";
    written, width, after := "", 1, mode;
    match mode {
      case Code =>
        if IsQuote(c) {
          written, after := [c], Literal(c);
        } else if c == '/' && next == "/" {
          width, after := 2, Line;
        } else if c == '/' && next == "*" {
          width, after := 2, Block;
        } else {
          written := [c];
        }
      case Line =>
        if c == '\n' {
          written, after := "\n", Code;
        }
      case Block =>
        if c == '*' && next == "/" {
          width, after := 2, Code;
        } else if c == '\n' {
          written := "\n";
        }
      case Literal(quote) =>
        written := [c];
        if c == '\\' {
          written, width := written + next, 2;
        } else if c == quote {
          after := Code;
        }
    }
  }

  /** What the scanner still writes from an index on. */
  ghost function ToCome(source: string, index: nat, mode: Mode): string
    decreases |source| - index
  {
    if index >= |source| then []
    else
      var t := Scan(source[index..], mode);
      t.out + ToCome(source, index + t.width, t.mode)
  }

  lemma OneTurnMore(s: string, m: Mode, t: Turn, come: string)
    requires s != [] && t == Scan(s, m) && come == Strip(Rest(s, t.width), t.mode)
    ensures t.out + come == Strip(s, m)
  {
  }

  lemma {:induction false} ToComeIsStrip(source: string, index: nat, mode: Mode, s: string)
    requires s == Rest(source, index)
    ensures ToCome(source, index, mode) == Strip(s, mode)
    decreases |source| - index
  {
    if index < |source| {
      var t := Scan(s, mode);
      RestFrom(source, index, t.width);
      ToComeIsStrip(source, index + t.width, t.mode, Rest(s, t.width));
      OneTurnMore(s, mode, t, ToCome(source, index + t.width, t.mode));
    }
  }

  method StripJavaScriptComments(sourceText: string) returns (output: string)
    ensures output == Strip(sourceText, Code)
  {
    output := Scanned(sourceText);
    assert Rest(sourceText, 0) == sourceText;
    ToComeIsStrip(sourceText, 0, Code, sourceText);
  }

  /** The index loop. */
  method Scanned(sourceText: string) returns (output: string)
    ensures output == ToCome(sourceText, 0, Code)
  {
    var index, mode := 0, Code;
    output := "";
    while index < |sourceText|
      invariant output + ToCome(sourceText, index, mode) == ToCome(sourceText, 0, Code)
    {
      var written, width, after := TakeTurn(sourceText, index, mode);
      Regroup(output, written, ToCome(sourceText, index + width, after));
      output, index, mode := output + written, index + width, after;
    }
  }

  // ----- the output is free of comments ----------------------------------------------------

  /** The mode the output is in where the source is in `m`: comments leave no trace. */
  function Trace(m: Mode): Mode { if m.Literal? then m else Code }

  /** A character written in code mode does not turn into a comment with what follows it. */
  lemma SlashStaysAlone(s: string)
    requires |s| > 1 && s[0] == '/' && !OpensComment(s)
    ensures Strip(s[1..], Code) != [] && Strip(s[1..], Code)[0] == s[1]
  {
  }

  /** A turn that writes something is taken the same way on the output. */
  ghost predicate TakenAgain(t: Turn, m: Mode, rest: string)
    requires t.out != []
  {
    var o, again := t.out + rest, Scan(t.out + rest, Trace(m));
    && again.out == t.out && Rest(o, again.width) == rest && again.mode == Trace(t.mode)
    && (Trace(m) == Code ==> !OpensComment(o))
  }

  lemma PairAgain(s: string, m: Mode, rest: string)
    requires s != [] && |Scan(s, m).out| == 2
    ensures TakenAgain(Scan(s, m), m, rest)
  {
    var t := Scan(s, m);
    var o := t.out + rest;
    assert o[0] == t.out[0] && o[1] == t.out[1] && Rest(o, 2) == rest;
  }

  lemma OneAgain(s: string, m: Mode, rest: string)
    requires s != [] && |Scan(s, m).out| == 1
    requires m == Code && s[0] == '/' ==> |s| > 1 ==> rest != [] && rest[0] == s[1]
    requires |s| == 1 ==> rest == []
    ensures TakenAgain(Scan(s, m), m, rest)
  {
    var t := Scan(s, m);
    var o := t.out + rest;
    assert o[0] == t.out[0] && Rest(o, 1) == rest;
    assert rest != [] ==> o[1] == rest[0];
  }

  lemma TurnAgain(s: string, m: Mode)
    requires s != [] && Scan(s, m).out != []
    ensures var t := Scan(s, m); TakenAgain(t, m, Strip(Rest(s, t.width), t.mode))
  {
    var t := Scan(s, m);
    var rest := Strip(Rest(s, t.width), t.mode);
    if |t.out| == 2 {
      PairAgain(s, m, rest);
    } else {
      if m == Code && s[0] == '/' && |s| > 1 {
        SlashStaysAlone(s);
      }
      OneAgain(s, m, rest);
    }
  }

  /** The text scans to itself and no comment is entered. */
  ghost predicate Clean(o: string, m: Mode) { Strip(o, m) == o && Comments(o, m) == 0 }

  lemma SilentTurn(s: string, m: Mode)
    requires s != [] && Scan(s, m).out == []
    ensures Strip(s, m) == Strip(Rest(s, Scan(s, m).width), Scan(s, m).mode) && Trace(m) == Trace(Scan(s, m).mode)
  {
    StripTurn(s, m);
    NothingBefore(Strip(Rest(s, Scan(s, m).width), Scan(s, m).mode));
  }

  lemma WrittenTurn(t: Turn, m: Mode, rest: string)
    requires t.out != [] && TakenAgain(t, m, rest) && Clean(rest, Trace(t.mode))
    ensures Clean(t.out + rest, Trace(m))
  {
    StripTurn(t.out + rest, Trace(m));
  }

  /** Scanning the output again reproduces it and enters no comment. */
  lemma {:induction false} StripAgain(s: string, m: Mode)
    ensures Clean(Strip(s, m), Trace(m))
    decreases |s|
  {
    if s != [] {
      var t := Scan(s, m);
      StripAgain(Rest(s, t.width), t.mode);
      if t.out == [] {
        SilentTurn(s, m);
      } else {
        TurnAgain(s, m);
        StripTurn(s, m);
        WrittenTurn(t, m, Strip(Rest(s, t.width), t.mode));
      }
    }
  }

  lemma StripIsIdempotent(s: string)
    ensures Strip(Strip(s, Code), Code) == Strip(s, Code) && Comments(Strip(s, Code), Code) == 0
  {
    StripAgain(s, Code);
  }

  /** Nothing is dropped exactly when there is no comment. */
  lemma {:induction false} StripKeepsAllIff(s: string, m: Mode)
    requires Trace(m) == m
    ensures |Strip(s, m)| <= |s|
    ensures Strip(s, m) == s <==> Comments(s, m) == 0
    decreases |s|
  {
    if s != [] {
      var t := Scan(s, m);
      var rest := Rest(s, t.width);
      if m == Code && OpensComment(s) {
        StripShortens(rest, t.mode);
      } else {
        StripKeepsAllIff(rest, t.mode);
        LoudTurn(s, m);
        SameAfter(t.out, Strip(rest, t.mode), rest);
      }
    }
  }

  lemma LoudTurn(s: string, m: Mode)
    requires s != [] && Trace(m) == m && !(m == Code && OpensComment(s))
    ensures var t := Scan(s, m); s == t.out + Rest(s, t.width) && Trace(t.mode) == t.mode
  {
  }

  lemma SameAfter(a: string, b: string, c: string)
    ensures a + b == a + c <==> b == c
  {
    if a + b == a + c {
      assert (a + b)[|a|..] == b && (a + c)[|a|..] == c;
    }
  }

  lemma {:induction false} StripShortens(s: string, m: Mode)
    ensures |Strip(s, m)| <= |s|
    decreases |s|
  {
    if s != [] {
      StripShortens(Rest(s, Scan(s, m).width), Scan(s, m).mode);
    }
  }

  // ----- what the output keeps -------------------------------------------------------------

  function Count(s: string, c: char): nat {
    if s == [] then 0 else (if s[0] == c then 1 else 0) + Count(s[1..], c)
  }

  lemma {:induction false} CountAdds(a: string, b: string, c: char)
    ensures Count(a + b, c) == Count(a, c) + Count(b, c)
  {
    if a == [] {
      assert a + b == b;
    } else {
      CountAdds(a[1..], b, c);
      assert (a + b)[1..] == a[1..] + b;
    }
  }

  /** What a turn takes off the text. */
  function Head(s: string, n: nat): string { if n <= |s| then s[..n] else s }

  lemma HeadAndRest(s: string, n: nat)
    ensures s == Head(s, n) + Rest(s, n)
  {
  }

  lemma CountPair(s: string, c: char)
    requires |s| == 2
    ensures Count(s, c) == (if s[0] == c then 1 else 0) + (if s[1] == c then 1 else 0)
  {
    assert s[1..] == [s[1]] && [s[1]][1..] == [];
    assert Count([s[1]], c) == if s[1] == c then 1 else 0;
  }

  lemma TurnKeepsNewlines(s: string, m: Mode)
    requires s != []
    ensures Count(Scan(s, m).out, '\n') == Count(Head(s, Scan(s, m).width), '\n')
  {
    var t := Scan(s, m);
    var head := Head(s, t.width);
    if |head| == 2 {
      CountPair(head, '\n');
      if t.out != [] {
        assert t.out == head;
      }
    } else {
      assert head == [s[0]] && [s[0]][1..] == [];
      assert t.out == [] || t.out == head;
    }
  }

  /** Every newline survives, so line numbers do. */
  lemma {:induction false} NewlinesSurvive(s: string, m: Mode)
    ensures Count(Strip(s, m), '\n') == Count(s, '\n')
    decreases |s|
  {
    if s != [] {
      var t := Scan(s, m);
      var rest := Rest(s, t.width);
      NewlinesSurvive(rest, t.mode);
      TurnKeepsNewlines(s, m);
      CountAdds(t.out, Strip(rest, t.mode), '\n');
      CountAdds(Head(s, t.width), rest, '\n');
      HeadAndRest(s, t.width);
    }
  }

  // ----- the pieces of a source text -------------------------------------------------------

  // A reference that knows the text as a list of pieces instead of scanning it for output.
  datatype Piece = Plain(text: string) | Quoted(text: string) | Comment(text: string)

  /** The rest of a line comment up to, without, its newline. */
  function LineEnd(s: string): nat
    ensures LineEnd(s) <= |s|
  {
    if s == [] || s[0] == '\n' then 0 else 1 + LineEnd(s[1..])
  }

  /** The rest of a block comment with its closing mark, or all there is. */
  function BlockEnd(s: string): nat
    ensures BlockEnd(s) <= |s|
  {
    if s == [] then 0
    else if s[0] == '*' && NextIs(s, '/') then 2
    else 1 + BlockEnd(s[1..])
  }

  /** The rest of a literal with its closing quote, or all there is; a backslash takes the next
      character with it. */
  function LiteralEnd(s: string, quote: char): nat
    ensures LiteralEnd(s, quote) <= |s|
    decreases |s|
  {
    if s == [] then 0
    else if s[0] == '\\' then if |s| > 1 then 2 + LiteralEnd(s[2..], quote) else 1
    else if s[0] == quote then 1
    else 1 + LiteralEnd(s[1..], quote)
  }

  function FirstPiece(s: string): (p: Piece)
    requires s != []
    ensures 1 <= |p.text| <= |s| && p.text == s[..|p.text|]
  {
    if IsQuote(s[0]) then Quoted(s[..1 + LiteralEnd(s[1..], s[0])])
    else if s[0] == '/' && NextIs(s, '/') then Comment(s[..2 + LineEnd(s[2..])])
    else if s[0] == '/' && NextIs(s, '*') then Comment(s[..2 + BlockEnd(s[2..])])
    else Plain(s[..1])
  }

  function Pieces(s: string): seq<Piece>
    decreases |s|
  {
    if s == [] then [] else [FirstPiece(s)] + Pieces(s[|FirstPiece(s).text|..])
  }

  function Joined(ps: seq<Piece>): string {
    if ps == [] then [] else ps[0].text + Joined(ps[1..])
  }

  function Newlines(s: string): string {
    if s == [] then [] else (if s[0] == '\n' then "\n" else []) + Newlines(s[1..])
  }

  /** What is left of a piece: code and literals word for word, of a comment its newlines. */
  function Kept(p: Piece): string {
    if p.Comment? then Newlines(p.text) else p.text
  }

  function KeptAll(ps: seq<Piece>): string {
    if ps == [] then [] else Kept(ps[0]) + KeptAll(ps[1..])
  }

  lemma {:induction false} PiecesJoin(s: string)
    ensures Joined(Pieces(s)) == s
    decreases |s|
  {
    if s != [] {
      PiecesJoin(s[|FirstPiece(s).text|..]);
    }
  }

  lemma SliceAfter(s: string, k: nat, n: nat)
    requires k + n <= |s|
    ensures s[..k + n] == s[..k] + s[k..][..n] && s[k + n..] == s[k..][n..]
  {
  }

  lemma NewlinesOfHead(c: char, rest: string)
    ensures Newlines([c] + rest) == (if c == '\n' then "\n" else []) + Newlines(rest)
  {
    assert ([c] + rest)[1..] == rest;
  }

  /** A character that a comment swallows, whose rest up to `n` it swallows as well. */
  lemma SwallowOne(s: string, n: nat, out: string, after: string)
    requires s != [] && n <= |s| - 1 && out == if s[0] == '\n' then "\n" else []
    ensures s[..1 + n] == [s[0]] + s[1..][..n] && s[1 + n..] == s[1..][n..]
    ensures out + (Newlines(s[1..][..n]) + after) == Newlines(s[..1 + n]) + after
  {
    SliceAfter(s, 1, n);
    assert s[..1] == [s[0]];
    NewlinesOfHead(s[0], s[1..][..n]);
    Regroup(out, Newlines(s[1..][..n]), after);
  }

  lemma {:induction false} StripLine(s: string)
    ensures Strip(s, Line) == Newlines(s[..LineEnd(s)]) + Strip(s[LineEnd(s)..], Code)
  {
    if s != [] && s[0] != '\n' {
      StripLine(s[1..]);
      StripTurn(s, Line);
      SwallowOne(s, LineEnd(s[1..]), [], Strip(s[1..][LineEnd(s[1..])..], Code));
    } else if s != [] {
      assert s[..0] == [] && s[0..] == s;
    }
  }

  lemma BlockCloses(s: string)
    requires |s| > 1 && s[0] == '*' && s[1] == '/'
    ensures Strip(s, Block) == Newlines(s[..2]) + Strip(s[2..], Code)
  {
    StripTurn(s, Block);
    NoNewlines(s[..2]);
    NothingBefore(Strip(s[2..], Code));
  }

  lemma NoNewlines(s: string)
    requires |s| == 2 && s[0] != '\n' && s[1] != '\n'
    ensures Newlines(s) == []
  {
    assert Newlines(s[1..]) == Newlines(s[1..][1..]) && s[1..][1..] == [];
  }

  lemma {:induction false} StripBlock(s: string)
    ensures Strip(s, Block) == Newlines(s[..BlockEnd(s)]) + Strip(s[BlockEnd(s)..], Code)
  {
    if s != [] {
      if s[0] == '*' && NextIs(s, '/') {
        BlockCloses(s);
      } else {
        StripBlock(s[1..]);
        StripTurn(s, Block);
        SwallowOne(s, BlockEnd(s[1..]), Scan(s, Block).out, Strip(s[1..][BlockEnd(s[1..])..], Code));
      }
    }
  }

  lemma {:induction false} StripLiteral(s: string, quote: char)
    ensures Strip(s, Literal(quote)) == s[..LiteralEnd(s, quote)] + Strip(s[LiteralEnd(s, quote)..], Code)
    decreases |s|
  {
    if s != [] {
      var t := Scan(s, Literal(quote));
      var rest := Rest(s, t.width);
      LiteralTurn(s, quote);
      if t.mode == Code {
        assert s[..1] == [s[0]];
      } else {
        StripLiteral(rest, quote);
        Regroup(t.out, rest[..LiteralEnd(rest, quote)], Strip(rest[LiteralEnd(rest, quote)..], Code));
      }
    }
  }

  lemma LiteralTurn(s: string, quote: char)
    requires s != []
    ensures var t := Scan(s, Literal(quote));
            var n, rest := LiteralEnd(s, quote), Rest(s, t.width);
            if t.mode == Code then n == 1 && t.out == [s[0]] && rest == s[1..]
            else t.mode == Literal(quote) && s[..n] == t.out + rest[..LiteralEnd(rest, quote)]
                 && s[n..] == rest[LiteralEnd(rest, quote)..]
  {
    var t := Scan(s, Literal(quote));
    var n, rest := LiteralEnd(s, quote), Rest(s, t.width);
    if t.mode != Code {
      assert t.out == Head(s, t.width);
      HeadAndRest(s, t.width);
      assert n == |t.out| + LiteralEnd(rest, quote);
    }
  }

  lemma StripComment(s: string)
    requires s != [] && FirstPiece(s).Comment?
    ensures Strip(s, Code) == Newlines(FirstPiece(s).text) + Strip(s[|FirstPiece(s).text|..], Code)
  {
    var p, after := FirstPiece(s), s[2..];
    var n := |p.text| - 2;
    StripTurn(s, Code);
    assert Rest(s, 2) == after && Scan(s, Code).out == [];
    if NextIs(s, '/') {
      StripLine(after);
    } else {
      StripBlock(after);
    }
    SliceAfter(s, 2, n);
    CommentNewlines(s[..2], after[..n]);
  }

  lemma CommentNewlines(mark: string, text: string)
    requires |mark| == 2 && mark[0] != '\n' && mark[1] != '\n'
    ensures Newlines(mark + text) == Newlines(text)
  {
  }

  lemma StripQuoted(s: string)
    requires s != [] && FirstPiece(s).Quoted?
    ensures Strip(s, Code) == FirstPiece(s).text + Strip(s[|FirstPiece(s).text|..], Code)
  {
    var n := LiteralEnd(s[1..], s[0]);
    StripTurn(s, Code);
    StripLiteral(s[1..], s[0]);
    SliceAfter(s, 1, n);
    assert s[..1] == [s[0]];
    Regroup([s[0]], s[1..][..n], Strip(s[1..][n..], Code));
  }

  lemma KeptHead(s: string)
    requires s != []
    ensures KeptAll(Pieces(s)) == Kept(FirstPiece(s)) + KeptAll(Pieces(s[|FirstPiece(s).text|..]))
  {
  }

  /** The output is the pieces one after another, literals and code kept as they are and of each
      comment only its newlines. */
  lemma {:induction false} StripKeepsPieces(s: string)
    ensures Strip(s, Code) == KeptAll(Pieces(s))
    decreases |s|
  {
    if s != [] {
      var p := FirstPiece(s);
      StripKeepsPieces(s[|p.text|..]);
      KeptHead(s);
      match p
      case Quoted(_) => StripQuoted(s);
      case Comment(_) => StripComment(s);
      case Plain(_) => StripTurn(s, Code);
    }
  }

  /** `a` is what is left of `b` after dropping characters. */
  predicate Subsequence(a: string, b: string) {
    if a == [] then true
    else if b == [] then false
    else if a[0] == b[0] then Subsequence(a[1..], b[1..])
    else Subsequence(a, b[1..])
  }

  lemma {:induction false} SubsequenceSkips(a: string, b: string, x: char)
    requires Subsequence(a, b)
    ensures Subsequence(a, [x] + b)
    decreases |b|, 1
  {
    assert ([x] + b)[1..] == b;
    if a != [] && a[0] == x {
      SubsequenceTail(a, b);
    }
  }

  lemma {:induction false} SubsequenceTail(a: string, b: string)
    requires a != [] && Subsequence(a, b)
    ensures Subsequence(a[1..], b)
    decreases |b|, 0
  {
    assert b == [b[0]] + b[1..];
    if a[0] != b[0] {
      SubsequenceTail(a, b[1..]);
    }
    SubsequenceSkips(a[1..], b[1..], b[0]);
  }

  lemma {:induction false} SubsequenceJoins(x: string, y: string, a: string, b: string)
    requires Subsequence(x, y) && Subsequence(a, b)
    ensures Subsequence(x + a, y + b)
    decreases |y|
  {
    if y == [] {
      assert x + a == a && y + b == b;
    } else {
      assert y + b == [y[0]] + (y[1..] + b);
      if x == [] {
        SubsequenceJoins(x, y[1..], a, b);
        SubsequenceSkips(x + a, y[1..] + b, y[0]);
      } else {
        SubsequenceJoinsHead(x, y, a, b);
      }
    }
  }

  lemma {:induction false} SubsequenceJoinsHead(x: string, y: string, a: string, b: string)
    requires x != [] && y != [] && Subsequence(x, y) && Subsequence(a, b)
    ensures Subsequence(x + a, y + b)
    decreases |y|, 0
  {
    assert (x + a)[0] == x[0] && (y + b)[0] == y[0];
    assert (x + a)[1..] == x[1..] + a && (y + b)[1..] == y[1..] + b;
    SubsequenceJoins(if x[0] == y[0] then x[1..] else x, y[1..], a, b);
  }

  lemma TurnIsSubsequence(s: string, m: Mode)
    requires s != []
    ensures Subsequence(Scan(s, m).out, Head(s, Scan(s, m).width))
  {
  }

  lemma {:induction false} SubsequenceOfItself(s: string)
    ensures Subsequence(s, s)
  {
    if s != [] {
      SubsequenceOfItself(s[1..]);
    }
  }

  /** The output is the text with characters left out. */
  lemma {:induction false} OutputIsSubsequence(s: string, m: Mode)
    ensures Subsequence(Strip(s, m), s)
    decreases |s|
  {
    if s != [] {
      var t := Scan(s, m);
      var rest := Rest(s, t.width);
      OutputIsSubsequence(rest, t.mode);
      TurnIsSubsequence(s, m);
      SubsequenceJoins(t.out, Head(s, t.width), Strip(rest, t.mode), rest);
      HeadAndRest(s, t.width);
    }
  }
}
