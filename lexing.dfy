/**
 * The table-driven lexer of src/lexer.cpp.
 *
 * The stream the source reads one char at a time is a byte sequence with a
 * cursor. Once the bytes are exhausted, reading yields the sentinel END
 * (EOF cast to unsigned char, 255). A 0xFF byte in the input reads as the
 * same value, so the lexer treats it exactly like the end of the input.
 */
module Lexing {
  import opened Wrappers
  import opened Tokens

  type byte = b: int | 0 <= b < 256

  /** What read() returns once the stream is exhausted. */
  const END: byte := 255

  /** The row the table reserves for a lexeme's first character. */
  const NUL: byte := 0

  // The character classes of ALPHANUM_START, ALPHANUM_REST and WHITESPACE.

  predicate IsAlnumStart(c: int)
  {
    'a' as int <= c <= 'z' as int || 'A' as int <= c <= 'Z' as int || c == '_' as int
  }

  predicate IsAlnumRest(c: int)
  {
    IsAlnumStart(c) || '0' as int <= c <= '9' as int
  }

  /** Space, tab, vertical tab (11), carriage return and newline. */
  predicate IsWhitespace(c: int)
  {
    c == ' ' as int || c == '\t' as int || c == 11 || c == '\r' as int || c == '\n' as int
  }

  /** The five characters operators are made of. */
  predicate IsOperatorChar(c: int)
  {
    c == '&' as int || c == '|' as int || c == '(' as int || c == ')' as int || c == '!' as int
  }

  // The transition table.

  /** lexer::table_state */
  datatype TableState = Reject | Accept | Continue

  /** lexer::accept_state */
  datatype AcceptState = NoAccept | AcceptIdentifier | AcceptOperator | AcceptWhitespace

  /** lexer::state, one cell of the table. */
  datatype Cell = Cell(tbl: TableState, acc: AcceptState)

  /** The cells init_alphanum writes, indexed by (previous, next) character. */
  function InitAlphanum(p: byte, n: byte): Option<Cell>
  {
    if p == NUL && IsAlnumStart(n) then Some(Cell(Continue, NoAccept))
    // tbl[s][r] for s in ALPHANUM_START is contained in tbl[r1][r2]
    else if IsAlnumRest(p) && IsAlnumRest(n) then Some(Cell(Continue, NoAccept))
    else if IsAlnumRest(p) && (IsWhitespace(n) || IsOperatorChar(n) || n == END) then
      Some(Cell(Accept, AcceptIdentifier))
    else None
  }

  /**
   * The cells one of init_lparen, init_rparen, init_amper, init_bar and
   * init_exclam writes for its symbol `sym`; `doubled` holds for `&` and `|`,
   * whose row continues on a second copy of the symbol.
   */
  function InitSymbol(sym: byte, doubled: bool, p: byte, n: byte): Option<Cell>
  {
    if p == NUL && n == sym then Some(Cell(Continue, NoAccept))
    else if p == sym && doubled && n == sym then Some(Cell(Continue, NoAccept))
    else if p == sym && (IsAlnumStart(n) || IsWhitespace(n) || IsOperatorChar(n) || n == END) then
      Some(Cell(Accept, AcceptOperator))
    else None
  }

  function InitLParen(p: byte, n: byte): Option<Cell> { InitSymbol('(' as int, false, p, n) }
  function InitRParen(p: byte, n: byte): Option<Cell> { InitSymbol(')' as int, false, p, n) }
  function InitAmper(p: byte, n: byte): Option<Cell> { InitSymbol('&' as int, true, p, n) }
  function InitBar(p: byte, n: byte): Option<Cell> { InitSymbol('|' as int, true, p, n) }
  function InitExclam(p: byte, n: byte): Option<Cell> { InitSymbol('!' as int, false, p, n) }

  /** The cells init_whitespace writes. */
  function InitWhitespace(p: byte, n: byte): Option<Cell>
  {
    if p == NUL && IsWhitespace(n) then Some(Cell(Continue, NoAccept))
    else if IsWhitespace(p) && (IsAlnumStart(n) || IsOperatorChar(n) || n == END) then
      Some(Cell(Accept, AcceptWhitespace))
    else None
  }

  /** No two init_* routines write the same cell, so their order is irrelevant. */
  lemma InitRoutinesDisjoint(p: byte, n: byte)
    ensures var writes := [InitAlphanum(p, n), InitLParen(p, n), InitRParen(p, n),
                           InitAmper(p, n), InitBar(p, n), InitExclam(p, n), InitWhitespace(p, n)];
      forall i, j | 0 <= i < j < |writes| :: writes[i].None? || writes[j].None?
  {
  }

  /**
   * The table create_table builds: every cell REJECT/NONE unless an init_*
   * routine wrote it, the routines applied in the source's order (a later
   * write would win, but no two writes meet).
   */
  function Table(p: byte, n: byte): (c: Cell)
    // an ACCEPT cell always names an accept class, other cells never do
    ensures (c.tbl == Accept) == (c.acc != NoAccept)
    // the end of the stream never continues a lexeme
    ensures n == END ==> c.tbl != Continue
    // after a whitespace character only an identifier start, an operator
    // character or the end of the stream may follow
    ensures IsWhitespace(p) ==> (c.tbl != Reject <==> IsAlnumStart(n) || IsOperatorChar(n) || n == END)
    // among operator characters only && and || continue
    ensures p == '&' as int ==> (c.tbl == Continue <==> n == '&' as int)
    ensures p == '|' as int ==> (c.tbl == Continue <==> n == '|' as int)
    ensures p == '!' as int || p == '(' as int || p == ')' as int ==> c.tbl != Continue
    // the shape of identifiers
    ensures c.acc == AcceptIdentifier ==> IsAlnumRest(p)
    ensures c.tbl == Continue && IsAlnumRest(n) ==> IsAlnumRest(p) || p == NUL
    ensures c.tbl == Continue ==> n != NUL
  {
    if InitWhitespace(p, n).Some? then InitWhitespace(p, n).value
    else if InitExclam(p, n).Some? then InitExclam(p, n).value
    else if InitBar(p, n).Some? then InitBar(p, n).value
    else if InitAmper(p, n).Some? then InitAmper(p, n).value
    else if InitRParen(p, n).Some? then InitRParen(p, n).value
    else if InitLParen(p, n).Some? then InitLParen(p, n).value
    else if InitAlphanum(p, n).Some? then InitAlphanum(p, n).value
    else Cell(Reject, NoAccept)
  }

  // create_table: the same table, filled in place by the init_* loops.

  /** ALPHANUM_START, ALPHANUM_REST and WHITESPACE as the byte strings the loops walk. */
  const ALPHANUM_START: seq<byte> :=
    seq(26, i requires 0 <= i < 26 => 'a' as int + i) + seq(26, i requires 0 <= i < 26 => 'A' as int + i) + ['_' as int]
  const ALPHANUM_REST: seq<byte> := ALPHANUM_START + seq(10, i requires 0 <= i < 10 => '0' as int + i)
  const WHITESPACE: seq<byte> := [' ' as int, '\t' as int, 11, '\r' as int, '\n' as int]
  /** The five operator characters the init_* routines write one by one, then END. */
  const OPERATOR_COLUMNS: seq<byte> := ['&' as int, '|' as int, '(' as int, ')' as int, '!' as int, END]

  lemma CharacterStrings()
    ensures forall c: byte :: c in ALPHANUM_START <==> IsAlnumStart(c)
    ensures forall c: byte :: c in ALPHANUM_REST <==> IsAlnumRest(c)
    ensures forall c: byte :: c in WHITESPACE <==> IsWhitespace(c)
    ensures forall c: byte :: c in OPERATOR_COLUMNS <==> IsOperatorChar(c) || c == END
  {
    forall c: byte | IsAlnumRest(c)
      ensures c in ALPHANUM_REST && (IsAlnumStart(c) ==> c in ALPHANUM_START)
    {
      if 'a' as int <= c <= 'z' as int {
        assert ALPHANUM_START[c - 'a' as int] == c;
      } else if 'A' as int <= c <= 'Z' as int {
        assert ALPHANUM_START[26 + c - 'A' as int] == c;
      } else if c == '_' as int {
        assert ALPHANUM_START[52] == c;
      } else {
        assert ALPHANUM_REST[53 + c - '0' as int] == c;
      }
    }
  }

  /** The table as create_table returns it: the cell an optional write leaves. */
  function Written(w: Option<Cell>, before: Cell): Cell
  {
    if w.Some? then w.value else before
  }

  /** Sets every cell of the given rows and columns to c; nothing else changes. */
  method FillCells(tbl: array2<Cell>, rows: seq<byte>, cols: seq<byte>, c: Cell)
    requires tbl.Length0 == 256 && tbl.Length1 == 256
    modifies tbl
    ensures forall p, n | 0 <= p < 256 && 0 <= n < 256 ::
      tbl[p, n] == if p in rows && n in cols then c else old(tbl[p, n])
  {
    var i := 0;
    while i < |rows|
      invariant 0 <= i <= |rows|
      invariant forall p, n | 0 <= p < 256 && 0 <= n < 256 ::
        tbl[p, n] == if p in rows[..i] && n in cols then c else old(tbl[p, n])
    {
      var j := 0;
      while j < |cols|
        invariant 0 <= j <= |cols|
        invariant forall p, n | 0 <= p < 256 && 0 <= n < 256 ::
          tbl[p, n] == if (p in rows[..i] && n in cols) || (p == rows[i] && n in cols[..j])
            then c else old(tbl[p, n])
      {
        assert cols[..j + 1] == cols[..j] + [cols[j]];
        tbl[rows[i], cols[j]] := c;
        j := j + 1;
      }
      assert cols[..j] == cols;
      assert rows[..i + 1] == rows[..i] + [rows[i]];
      i := i + 1;
    }
    assert rows[..i] == rows;
  }

  /** init_alphanum */
  method InitAlphanumCells(tbl: array2<Cell>)
    requires tbl.Length0 == 256 && tbl.Length1 == 256
    modifies tbl
    ensures forall p, n | 0 <= p < 256 && 0 <= n < 256 ::
      tbl[p, n] == Written(InitAlphanum(p, n), old(tbl[p, n]))
  {
    CharacterStrings();
    FillCells(tbl, [NUL], ALPHANUM_START, Cell(Continue, NoAccept));
    FillCells(tbl, ALPHANUM_START, ALPHANUM_REST, Cell(Continue, NoAccept));
    FillCells(tbl, ALPHANUM_REST, ALPHANUM_REST, Cell(Continue, NoAccept));
    FillCells(tbl, ALPHANUM_REST, WHITESPACE + OPERATOR_COLUMNS, Cell(Accept, AcceptIdentifier));
  }

  /** init_lparen, init_rparen, init_amper, init_bar and init_exclam */
  method InitSymbolCells(tbl: array2<Cell>, sym: byte, doubled: bool)
    requires tbl.Length0 == 256 && tbl.Length1 == 256
    requires IsOperatorChar(sym)
    modifies tbl
    ensures forall p, n | 0 <= p < 256 && 0 <= n < 256 ::
      tbl[p, n] == Written(InitSymbol(sym, doubled, p, n), old(tbl[p, n]))
  {
    CharacterStrings();
    FillCells(tbl, [NUL], [sym], Cell(Continue, NoAccept));
    FillCells(tbl, [sym], ALPHANUM_START, Cell(Accept, AcceptOperator));
    FillCells(tbl, [sym], WHITESPACE, Cell(Accept, AcceptOperator));
    FillCells(tbl, [sym], OPERATOR_COLUMNS, Cell(Accept, AcceptOperator));
    if doubled {
      FillCells(tbl, [sym], [sym], Cell(Continue, NoAccept));
    }
  }

  /** init_whitespace */
  method InitWhitespaceCells(tbl: array2<Cell>)
    requires tbl.Length0 == 256 && tbl.Length1 == 256
    modifies tbl
    ensures forall p, n | 0 <= p < 256 && 0 <= n < 256 ::
      tbl[p, n] == Written(InitWhitespace(p, n), old(tbl[p, n]))
  {
    CharacterStrings();
    FillCells(tbl, [NUL], WHITESPACE, Cell(Continue, NoAccept));
    FillCells(tbl, WHITESPACE, ALPHANUM_START + OPERATOR_COLUMNS, Cell(Accept, AcceptWhitespace));
  }

  /** create_table: every cell REJECT/NONE, then the init_* routines in order. */
  method CreateTable() returns (tbl: array2<Cell>)
    ensures fresh(tbl) && tbl.Length0 == 256 && tbl.Length1 == 256
    ensures forall p, n | 0 <= p < 256 && 0 <= n < 256 :: tbl[p, n] == Table(p, n)
  {
    tbl := new Cell[256, 256]((p, n) => Cell(Reject, NoAccept));
    InitAlphanumCells(tbl);
    InitSymbolCells(tbl, '(' as int, false);
    InitSymbolCells(tbl, ')' as int, false);
    InitSymbolCells(tbl, '&' as int, true);
    InitSymbolCells(tbl, '|' as int, true);
    InitSymbolCells(tbl, '!' as int, false);
    InitWhitespaceCells(tbl);
  }

  /**
   * step: the position after consuming `ch`. A newline starts the next line,
   * anything else moves one column right.
   */
  function Step(pos: Position, ch: byte): (r: Position)
    ensures r.line > pos.line || (r.line == pos.line && r.column > pos.column)
    ensures r.line > pos.line <==> ch == '\n' as int
    ensures r.line > pos.line ==> r == Position(pos.line + 1, 1)
    ensures r.line == pos.line ==> r.column == pos.column + 1
  {
    if ch == '\n' as int then Position(pos.line + 1, 1)
    else Position(pos.line, pos.column + 1)
  }

  /** The bytes of a lexeme as the std::string the token carries. */
  function AsString(text: seq<byte>): (name: string)
    ensures |name| == |text|
    ensures forall i | 0 <= i < |text| :: name[i] as int == text[i]
  {
    seq(|text|, i requires 0 <= i < |text| => text[i] as char)
  }

  /** The exact text of each operator kind. */
  function Spelling(kind: OperatorKind): seq<byte>
  {
    match kind
    case Exclam => ['!' as int]
    case LParen => ['(' as int]
    case RParen => [')' as int]
    case AmperAmper => ['&' as int, '&' as int]
    case PipePipe => ['|' as int, '|' as int]
  }

  /**
   * The token an accepted OPERATOR lexeme becomes: an operator for exactly
   * the five spellings, an Error token for any other text.
   */
  function OperatorToken(text: seq<byte>, loc: Location): (t: Token)
    ensures t.loc == loc
    ensures t.Operator? || t.Error?
    ensures t.Operator? <==> exists k :: Spelling(k) == text
    ensures t.Operator? ==> Spelling(t.kind) == text
  {
    if text == Spelling(Exclam) then Operator(loc, Exclam)
    else if text == Spelling(LParen) then Operator(loc, LParen)
    else if text == Spelling(RParen) then Operator(loc, RParen)
    else if text == Spelling(AmperAmper) then Operator(loc, AmperAmper)
    else if text == Spelling(PipePipe) then Operator(loc, PipePipe)
    else Error(loc)
  }

  // The lexer's state and next_token as functions of it.

  /**
   * The lexer object: the input, how much of it read() has consumed, the
   * lookahead character prev_char and current_pos.
   */
  datatype LexState = LexState(input: seq<byte>, cursor: nat, prevChar: byte, currentPos: Position)

  predicate ValidState(s: LexState)
  {
    s.cursor <= |s.input|
  }

  /** Bytes still to be read, plus one while the lookahead is not END. */
  function Remaining(s: LexState): nat
    requires ValidState(s)
  {
    |s.input| - s.cursor + (if s.prevChar == END then 0 else 1)
  }

  /** read(): the next byte of the stream, END once it is exhausted. */
  function ReadByte(s: LexState): (r: (byte, LexState))
    requires ValidState(s)
    ensures ValidState(r.1)
    ensures r.1 == s.(cursor := r.1.cursor)
    ensures s.cursor < |s.input| ==> r.0 == s.input[s.cursor] && r.1.cursor == s.cursor + 1
    ensures s.cursor == |s.input| ==> r.0 == END && r.1.cursor == s.cursor
  {
    if s.cursor < |s.input| then (s.input[s.cursor], s.(cursor := s.cursor + 1))
    else (END, s)
  }

  /** The constructor: position (1, 1) and the first byte read as lookahead. */
  function Start(input: seq<byte>): (s: LexState)
    ensures ValidState(s) && s.input == input && s.currentPos == Position(1, 1)
    ensures |input| > 0 ==> s.prevChar == input[0] && s.cursor == 1
    ensures |input| == 0 ==> s.prevChar == END && s.cursor == 0
  {
    var r := ReadByte(LexState(input, 0, END, Position(1, 1)));
    r.1.(prevChar := r.0)
  }

  /**
   * next_token(): start a lexeme with the lookahead character and scan.
   * Whatever it returns, the new state has not gone backwards, and an
   * identifier or operator token always consumed input.
   */
  function LexNext(s: LexState): (r: (Token, LexState))
    requires ValidState(s)
    ensures ValidState(r.1) && r.1.input == s.input && s.cursor <= r.1.cursor
    ensures Remaining(r.1) <= Remaining(s)
    ensures r.0.Identifier? || r.0.Operator? ==> Remaining(r.1) < Remaining(s)
    ensures r.0.End? ==> r.1.prevChar == END && r.0.loc == Location(r.1.currentPos, r.1.currentPos)
    ensures r.0.loc.start == r.0.loc.end
    decreases Remaining(s), 1
  {
    Scan(s, s.currentPos, [s.prevChar])
  }

  /**
   * The for(;;) loop of next_token() from a state whose pending lexeme is
   * `text` and started at `startPos`.
   */
  function Scan(s: LexState, startPos: Position, text: seq<byte>): (r: (Token, LexState))
    requires ValidState(s)
    ensures ValidState(r.1) && r.1.input == s.input && s.cursor <= r.1.cursor
    ensures Remaining(r.1) <= Remaining(s)
    ensures r.0.Identifier? || r.0.Operator? ==> Remaining(r.1) < Remaining(s)
    ensures r.0.End? ==> r.1.prevChar == END && r.0.loc == Location(r.1.currentPos, r.1.currentPos)
    ensures startPos == s.currentPos ==> r.0.loc.start == r.0.loc.end
    decreases Remaining(s), 0
  {
    if s.prevChar == END then
      (End(Location(s.currentPos, s.currentPos)), s)
    else
      var row := s.prevChar;
      var (ch, s1) := ReadByte(s);
      var cell := Table(row, ch);
      match cell.tbl
      case Reject =>
        (Error(Location(s1.currentPos, s1.currentPos)), s1)
      case Accept =>
        var prevPos := s1.currentPos;
        var s2 := s1.(currentPos := Step(s1.currentPos, ch), prevChar := ch);
        if cell.acc == AcceptWhitespace then LexNext(s2)
        else if cell.acc == AcceptOperator then (OperatorToken(text, Location(startPos, prevPos)), s2)
        // the remaining class is IDENTIFIER: the table never pairs ACCEPT with NONE
        else (Identifier(Location(startPos, prevPos), AsString(text)), s2)
      case Continue =>
        Scan(s1.(prevChar := ch), startPos, text + [ch])
  }

  /**
   * The tokens a parser can pull from a fresh lexer: up to and including the
   * first End or Error token (the parser never consumes either).
   */
  function LexAll(s: LexState): (toks: seq<Token>)
    requires ValidState(s)
    ensures |toks| > 0 && (toks[|toks| - 1].End? || toks[|toks| - 1].Error?)
    ensures forall i | 0 <= i < |toks| - 1 :: toks[i].Identifier? || toks[i].Operator?
    decreases Remaining(s)
  {
    var (t, s') := LexNext(s);
    if t.End? || t.Error? then [t] else [t] + LexAll(s')
  }

  function Tokenize(input: seq<byte>): seq<Token>
  {
    LexAll(Start(input))
  }

  // Properties of next_token.

  /**
   * Once the lookahead is END, next_token returns End at the zero-width
   * location of current_pos and changes nothing.
   */
  lemma EndIsReturnedAtEnd(s: LexState)
    requires ValidState(s) && s.prevChar == END
    ensures LexNext(s) == (End(Location(s.currentPos, s.currentPos)), s)
  {
  }

  /** After an End token every later call returns the same End token. */
  lemma EndIsSticky(s: LexState)
    requires ValidState(s) && LexNext(s).0.End?
    ensures LexNext(LexNext(s).1) == LexNext(s)
  {
    var r := LexNext(s);
    EndIsReturnedAtEnd(r.1);
  }

  /**
   * A rejected pair of characters yields an Error token at current_pos;
   * prev_char and current_pos stay as they were and only the offending
   * character is consumed.
   */
  lemma RejectConsumesOnlyOffendingChar(s: LexState, startPos: Position, text: seq<byte>)
    requires ValidState(s) && s.prevChar != END
    requires Table(s.prevChar, ReadByte(s).0).tbl == Reject
    ensures var r := Scan(s, startPos, text);
      && r.0 == Error(Location(s.currentPos, s.currentPos))
      && r.1.prevChar == s.prevChar && r.1.currentPos == s.currentPos
      && r.1.cursor == (if s.cursor < |s.input| then s.cursor + 1 else s.cursor)
  {
  }

  /**
   * A pending lexeme: non-empty, and each character continues the one
   * before it in the table.
   */
  predicate Lexeme(text: seq<byte>)
  {
    |text| > 0 && forall i | 0 <= i < |text| - 1 :: Table(text[i], text[i + 1]).tbl == Continue
  }

  /**
   * In a lexeme ending in a letter, digit or underscore every character
   * after the first is one too.
   */
  lemma {:induction false} AlnumLexemeTail(text: seq<byte>, i: nat)
    requires Lexeme(text) && IsAlnumRest(text[|text| - 1])
    requires 0 < i < |text|
    ensures IsAlnumRest(text[i])
    decreases |text| - i
  {
    if i < |text| - 1 {
      AlnumLexemeTail(text, i + 1);
      assert Table(text[i], text[i + 1]).tbl == Continue;
      assert Table(text[i - 1], text[i]).tbl == Continue;
    }
  }

  /**
   * Identifier names: letters, digits and underscores, except that the first
   * byte may be NUL (the only row that starts a lexeme differently). A digit
   * may come first: the row of a lexeme's first character is its own.
   */
  lemma {:induction false} ScanIdentifierShape(s: LexState, startPos: Position, text: seq<byte>)
    requires ValidState(s) && Lexeme(text) && text[|text| - 1] == s.prevChar
    ensures var t := Scan(s, startPos, text).0;
      t.Identifier? ==>
        && |t.name| > 0
        && (IsAlnumRest(t.name[0] as int) || t.name[0] as int == NUL)
        && forall i | 0 < i < |t.name| :: IsAlnumRest(t.name[i] as int)
    decreases Remaining(s), 0
  {
    if s.prevChar != END {
      var (ch, s1) := ReadByte(s);
      var cell := Table(s.prevChar, ch);
      match cell.tbl
      case Reject =>
      case Accept =>
        var s2 := s1.(currentPos := Step(s1.currentPos, ch), prevChar := ch);
        if cell.acc == AcceptWhitespace {
          LexNextIdentifierShape(s2);
        } else if cell.acc == AcceptIdentifier {
          var t := Scan(s, startPos, text).0;
          assert t.name == AsString(text);
          assert IsAlnumRest(text[|text| - 1]);
          assert IsAlnumRest(text[0]) || text[0] == NUL by {
            if |text| > 1 {
              AlnumLexemeTail(text, 1);
              assert Table(text[0], text[1]).tbl == Continue;
            }
          }
          forall i | 0 < i < |t.name|
            ensures IsAlnumRest(t.name[i] as int)
          {
            AlnumLexemeTail(text, i);
          }
        }
      case Continue =>
        var text' := text + [ch];
        assert Lexeme(text') by {
          forall i | 0 <= i < |text'| - 1
            ensures Table(text'[i], text'[i + 1]).tbl == Continue
          {
            if i < |text| - 1 {
              assert text'[i] == text[i] && text'[i + 1] == text[i + 1];
            }
          }
        }
        ScanIdentifierShape(s1.(prevChar := ch), startPos, text');
    }
  }

  lemma {:induction false} LexNextIdentifierShape(s: LexState)
    requires ValidState(s)
    ensures var t := LexNext(s).0;
      t.Identifier? ==>
        && |t.name| > 0
        && (IsAlnumRest(t.name[0] as int) || t.name[0] as int == NUL)
        && forall i | 0 < i < |t.name| :: IsAlnumRest(t.name[i] as int)
    decreases Remaining(s), 1
  {
    ScanIdentifierShape(s, s.currentPos, [s.prevChar]);
  }

  /**
   * Lexing `a && !b`: identifier, `&&`, `!`, identifier, End. Every token's
   * location is the single position current_pos held when it started, and
   * current_pos moves once per token, not once per character.
   */
  lemma LexExample()
    ensures Tokenize(ExampleInput()) == ExampleTokens()
  {
    var input := ExampleInput();
    var s0 := LexState(input, 1, 'a' as int, Position(1, 1));
    var s1 := LexState(input, 2, ' ' as int, Position(1, 2));
    var s2 := LexState(input, 5, ' ' as int, Position(1, 4));
    var s3 := LexState(input, 7, 'b' as int, Position(1, 6));
    var s4 := LexState(input, 7, END, Position(1, 7));
    var toks := ExampleTokens();
    assert Start(input) == s0;
    ExampleFirstToken();
    ExampleSecondToken();
    ExampleThirdToken();
    ExampleFourthToken();
    EndIsReturnedAtEnd(s4);
    assert LexAll(s4) == toks[4..];
    assert LexAll(s3) == [toks[3]] + LexAll(s4);
    assert LexAll(s2) == [toks[2]] + LexAll(s3);
    assert LexAll(s1) == [toks[1]] + LexAll(s2);
    assert LexAll(s0) == [toks[0]] + LexAll(s1);
  }

  /** The bytes of `a && !b`. */
  function ExampleInput(): seq<byte>
  {
    ['a' as int, ' ' as int, '&' as int, '&' as int, ' ' as int, '!' as int, 'b' as int]
  }

  function ExampleTokens(): seq<Token>
  {
    [ Identifier(Location(Position(1, 1), Position(1, 1)), "a"),
      Operator(Location(Position(1, 3), Position(1, 3)), AmperAmper),
      Operator(Location(Position(1, 5), Position(1, 5)), Exclam),
      Identifier(Location(Position(1, 6), Position(1, 6)), "b"),
      End(Location(Position(1, 7), Position(1, 7))) ]
  }

  lemma ExampleFirstToken()
    ensures LexNext(LexState(ExampleInput(), 1, 'a' as int, Position(1, 1)))
         == (ExampleTokens()[0], LexState(ExampleInput(), 2, ' ' as int, Position(1, 2)))
  {
    assert AsString(['a' as int]) == "a";
  }

  lemma ExampleSecondToken()
    ensures LexNext(LexState(ExampleInput(), 2, ' ' as int, Position(1, 2)))
         == (ExampleTokens()[1], LexState(ExampleInput(), 5, ' ' as int, Position(1, 4)))
  {
    var input := ExampleInput();
    var w := LexState(input, 3, '&' as int, Position(1, 3));
    assert LexNext(LexState(input, 2, ' ' as int, Position(1, 2))) == LexNext(w);
    assert LexNext(w) == Scan(w, Position(1, 3), ['&' as int]);
    assert ReadByte(w) == ('&' as int, w.(cursor := 4));
    assert ['&' as int] + ['&' as int] == ['&' as int, '&' as int];
    assert Scan(w, Position(1, 3), ['&' as int])
        == Scan(LexState(input, 4, '&' as int, Position(1, 3)), Position(1, 3), ['&' as int, '&' as int]);
  }

  lemma ExampleThirdToken()
    ensures LexNext(LexState(ExampleInput(), 5, ' ' as int, Position(1, 4)))
         == (ExampleTokens()[2], LexState(ExampleInput(), 7, 'b' as int, Position(1, 6)))
  {
    var w := LexState(ExampleInput(), 6, '!' as int, Position(1, 5));
    assert LexNext(LexState(ExampleInput(), 5, ' ' as int, Position(1, 4))) == LexNext(w);
    assert ReadByte(w) == ('b' as int, w.(cursor := 7));
    assert Table('!' as int, 'b' as int) == Cell(Accept, AcceptOperator);
    assert OperatorToken(['!' as int], Location(Position(1, 5), Position(1, 5))) == ExampleTokens()[2];
    assert LexNext(w) == Scan(w, Position(1, 5), ['!' as int]);
    assert Scan(w, Position(1, 5), ['!' as int]) == (ExampleTokens()[2], LexState(ExampleInput(), 7, 'b' as int, Position(1, 6)));
  }

  lemma ExampleFourthToken()
    ensures LexNext(LexState(ExampleInput(), 7, 'b' as int, Position(1, 6)))
         == (ExampleTokens()[3], LexState(ExampleInput(), 7, END, Position(1, 7)))
  {
    assert AsString(['b' as int]) == "b";
  }

  /** A lone `&` is not an operator: the lexer returns an Error token. */
  lemma LoneAmperIsError()
    ensures Tokenize(['&' as int]) == [Error(Location(Position(1, 1), Position(1, 1)))]
  {
    var s0 := Start(['&' as int]);
    assert s0 == LexState(['&' as int], 1, '&' as int, Position(1, 1));
    assert ReadByte(s0) == (END, s0);
    assert Table('&' as int, END) == Cell(Accept, AcceptOperator);
    assert OperatorToken(['&' as int], Location(Position(1, 1), Position(1, 1))).Error?;
    assert LexNext(s0).0 == Error(Location(Position(1, 1), Position(1, 1)));
  }

  /** Two consecutive whitespace characters are rejected. */
  lemma DoubleWhitespaceIsError()
    ensures Tokenize([' ' as int, ' ' as int, 'a' as int]) == [Error(Location(Position(1, 1), Position(1, 1)))]
  {
    var input := [' ' as int, ' ' as int, 'a' as int];
    var s0 := Start(input);
    assert s0 == LexState(input, 1, ' ' as int, Position(1, 1));
    assert ReadByte(s0).0 == ' ' as int;
    assert Table(' ' as int, ' ' as int).tbl == Reject;
    assert LexNext(s0).0 == Error(Location(Position(1, 1), Position(1, 1)));
  }

  /** A digit at the very start of the input begins an identifier. */
  lemma LeadingDigitStartsIdentifier()
    ensures Tokenize(['1' as int, 'a' as int])
         == [ Identifier(Location(Position(1, 1), Position(1, 1)), "1a"),
              End(Location(Position(1, 2), Position(1, 2))) ]
  {
    var input := ['1' as int, 'a' as int];
    var s0 := Start(input);
    assert s0 == LexState(input, 1, '1' as int, Position(1, 1));
    assert Table('1' as int, 'a' as int).tbl == Continue;
    var s1 := LexState(input, 2, 'a' as int, Position(1, 1));
    assert LexNext(s0) == Scan(s0, Position(1, 1), ['1' as int]);
    assert ReadByte(s0) == ('a' as int, s0.(cursor := 2));
    assert Scan(s0, Position(1, 1), ['1' as int]) == Scan(s1, Position(1, 1), ['1' as int] + ['a' as int]);
    assert ['1' as int] + ['a' as int] == ['1' as int, 'a' as int];
    var s2 := LexState(input, 2, END, Position(1, 2));
    assert AsString(['1' as int, 'a' as int]) == "1a";
    assert LexNext(s0) == (Identifier(Location(Position(1, 1), Position(1, 1)), "1a"), s2);
    assert LexNext(s2) == (End(Location(Position(1, 2), Position(1, 2))), s2);
    assert LexAll(s2) == [End(Location(Position(1, 2), Position(1, 2)))];
    assert LexAll(s0) == [Identifier(Location(Position(1, 1), Position(1, 1)), "1a")] + LexAll(s2);
  }

  /** No cell accepts a lexeme when the next character is a digit. */
  lemma NoAcceptBeforeDigit(p: byte, n: byte)
    requires '0' as int <= n <= '9' as int
    ensures Table(p, n).tbl != Accept
  {
  }

  /**
   * REJECT leaves the lookahead as it was, so the next call starts a lexeme
   * with the rejected character: after `a1@` is rejected, `1b` is an
   * identifier.
   */
  lemma DigitStartsIdentifierAfterError()
    ensures var input := ['a' as int, '1' as int, '@' as int, 'b' as int];
      var first := LexNext(Start(input));
      && first.0 == Error(Location(Position(1, 1), Position(1, 1)))
      && LexNext(first.1).0 == Identifier(Location(Position(1, 1), Position(1, 1)), "1b")
  {
    var input := ['a' as int, '1' as int, '@' as int, 'b' as int];
    var s0 := LexState(input, 1, 'a' as int, Position(1, 1));
    assert Start(input) == s0;
    assert Table('a' as int, '1' as int).tbl == Continue;
    assert Table('1' as int, '@' as int).tbl == Reject;
    var s1 := LexState(input, 2, '1' as int, Position(1, 1));
    assert LexNext(s0) == Scan(s0, Position(1, 1), ['a' as int]);
    assert ReadByte(s0) == ('1' as int, s0.(cursor := 2));
    assert Scan(s0, Position(1, 1), ['a' as int]) == Scan(s1, Position(1, 1), ['a' as int] + ['1' as int]);
    var s2 := LexState(input, 3, '1' as int, Position(1, 1));
    assert ReadByte(s1) == ('@' as int, s1.(cursor := 3));
    assert LexNext(s0) == (Error(Location(Position(1, 1), Position(1, 1))), s2);
    assert Table('1' as int, 'b' as int).tbl == Continue;
    assert Table('b' as int, END) == Cell(Accept, AcceptIdentifier);
    var s3 := LexState(input, 4, 'b' as int, Position(1, 1));
    assert LexNext(s2) == Scan(s2, Position(1, 1), ['1' as int]);
    assert ReadByte(s2) == ('b' as int, s2.(cursor := 4));
    assert Scan(s2, Position(1, 1), ['1' as int]) == Scan(s3, Position(1, 1), ['1' as int] + ['b' as int]);
    assert ['1' as int] + ['b' as int] == ['1' as int, 'b' as int];
    assert ReadByte(s3) == (END, s3);
    assert AsString(['1' as int, 'b' as int]) == "1b";
  }

  // The lexer object.

  class Lexer {
    const input: seq<byte>
    var cursor: nat
    var prevChar: byte
    var currentPos: Position

    ghost predicate Valid()
      reads this
    {
      cursor <= |input|
    }

    function State(): LexState
      reads this
    {
      LexState(input, cursor, prevChar, currentPos)
    }

    constructor (input: seq<byte>)
      ensures Valid() && State() == Start(input)
    {
      this.input := input;
      cursor := 0;
      currentPos := Position(1, 1);
      prevChar := END;
      new;
      prevChar := Read();
    }

    /** read() */
    method Read() returns (ch: byte)
      requires Valid()
      modifies this`cursor
      ensures Valid() && (ch, State()) == ReadByte(old(State()))
    {
      if cursor < |input| {
        ch := input[cursor];
        cursor := cursor + 1;
      } else {
        ch := END;
      }
    }

    /** next_token() */
    method NextToken() returns (tok: Token)
      requires Valid()
      modifies this
      ensures Valid() && (tok, State()) == LexNext(old(State()))
      decreases Remaining(State())
    {
      var startPos := currentPos;
      var text := [prevChar];
      while true
        invariant Valid()
        invariant Scan(State(), startPos, text) == LexNext(old(State()))
        invariant Remaining(State()) <= Remaining(old(State()))
        decreases Remaining(State())
      {
        ghost var s := State();
        var ch := prevChar;
        if ch == END {
          return End(Location(currentPos, currentPos));
        }
        var row := ch;
        ch := Read();
        var cell := Table(row, ch);
        match cell.tbl {
          case Reject =>
            return Error(Location(currentPos, currentPos));
          case Accept =>
            var prevPos := currentPos;
            currentPos := Step(currentPos, ch);
            prevChar := ch;
            if cell.acc == AcceptWhitespace {
              tok := NextToken();
              return;
            } else if cell.acc == AcceptOperator {
              return OperatorToken(text, Location(startPos, prevPos));
            } else {
              return Identifier(Location(startPos, prevPos), AsString(text));
            }
          case Continue =>
            prevChar := ch;
            text := text + [ch];
        }
      }
    }
  }
}
