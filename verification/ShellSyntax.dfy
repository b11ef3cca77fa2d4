/** Tokens and syntax trees of the shell, what a tree stands for, and which token lists are
    well formed (Commands/shell/Parser.c, Commands/shell/Script.h). */
module ShellSyntax {
  import opened Sequences

  datatype TokenId =
    | Eof | Character | UnquotedString | SingleQuotedString | DoubleQuotedString | QuotedCharacter | VariableName
    | Semicolon | Newline | OpeningParenthesis | ClosingParenthesis | Less | Greater | Bar | Ampersand

  datatype Token = Token(id: TokenId, text: string, hasTrailingWhitespace: bool)

  datatype StringKind = Unquoted | SingleQuoted | DoubleQuoted | Quoted | Variable

  datatype Morpheme = StringMorpheme(kind: StringKind, text: string) | BlockMorpheme(block: Block)

  datatype Word = Word(morphemes: seq<Morpheme>)

  datatype Sentence = Sentence(words: seq<Word>, terminator: TokenId)

  datatype Block = Block(sentences: seq<Sentence>)

  /** GetMorphemeFromToken; `None` is -1. */
  function MorphemeFromToken(id: TokenId): Option<StringKind> {
    match id
    case UnquotedString => Some(Unquoted)
    case SingleQuotedString => Some(SingleQuoted)
    case DoubleQuotedString => Some(DoubleQuoted)
    case QuotedCharacter => Some(Quoted)
    case VariableName => Some(Variable)
    case _ => None
  }

  predicate IsTerminator(id: TokenId) {
    id == Newline || id == Semicolon || id == Ampersand
  }

  // ---- What a tree stands for ---------------------------------------------------

  /** A token without its white space; `WordEnd` marks where a word is over. */
  datatype Piece = Str(kind: StringKind, text: string) | Open | Close | Term(id: TokenId) | WordEnd

  function OfMorpheme(m: Morpheme): seq<Piece> {
    match m
    case StringMorpheme(kind, text) => [Str(kind, text)]
    case BlockMorpheme(block) => [Open] + OfBlock(block) + [Close]
  }

  function OfMorphemes(ms: seq<Morpheme>): seq<Piece> {
    if ms == [] then [] else OfMorphemes(ms[..|ms| - 1]) + OfMorpheme(ms[|ms| - 1])
  }

  function OfWords(ws: seq<Word>): seq<Piece> {
    if ws == [] then [] else OfWords(ws[..|ws| - 1]) + OfMorphemes(ws[|ws| - 1].morphemes) + [WordEnd]
  }

  function TerminatorPiece(id: TokenId): seq<Piece> {
    if IsTerminator(id) then [Term(id)] else []
  }

  function OfSentences(ss: seq<Sentence>): seq<Piece> {
    if ss == [] then []
    else
      OfSentences(ss[..|ss| - 1]) + (OfWords(ss[|ss| - 1].words) + TerminatorPiece(ss[|ss| - 1].terminator))
  }

  function OfBlock(b: Block): seq<Piece> {
    OfSentences(b.sentences)
  }

  lemma OneMoreMorpheme(ms: seq<Morpheme>, m: Morpheme)
    ensures OfMorphemes(ms + [m]) == OfMorphemes(ms) + OfMorpheme(m)
  {
    assert (ms + [m])[..|ms|] == ms;
  }

  lemma OneMoreWord(ws: seq<Word>, w: Word)
    ensures OfWords(ws + [w]) == OfWords(ws) + (OfMorphemes(w.morphemes) + [WordEnd])
  {
    assert (ws + [w])[..|ws|] == ws;
  }

  lemma OneMoreSentence(ss: seq<Sentence>, s: Sentence)
    ensures OfSentences(ss + [s]) == OfSentences(ss) + (OfWords(s.words) + TerminatorPiece(s.terminator))
  {
    assert (ss + [s])[..|ss|] == ss;
  }

  // ---- What a token list stands for ---------------------------------------------

  function IdAt(tokens: seq<Token>, k: nat): TokenId {
    if k < |tokens| then tokens[k].id else Eof
  }

  /** No word goes on at position `k`. */
  predicate AtWordEnd(tokens: seq<Token>, k: nat) {
    IdAt(tokens, k) == Eof || IsTerminator(IdAt(tokens, k)) || IdAt(tokens, k) == ClosingParenthesis
  }

  /** The token at `k` is the last one of its word. */
  predicate EndsWord(tokens: seq<Token>, k: nat) {
    if MorphemeFromToken(IdAt(tokens, k)).Some? then
      k < |tokens| && (tokens[k].hasTrailingWhitespace || AtWordEnd(tokens, k + 1))
    else IdAt(tokens, k) == ClosingParenthesis && AtWordEnd(tokens, k + 1)
  }

  function EndMark(tokens: seq<Token>, k: nat): seq<Piece> {
    if EndsWord(tokens, k) then [WordEnd] else []
  }

  /** A usable token without its white space. */
  function Erased(t: Token): Piece {
    if MorphemeFromToken(t.id).Some? then Str(MorphemeFromToken(t.id).value, t.text)
    else if t.id == OpeningParenthesis then Open
    else if t.id == ClosingParenthesis then Close
    else Term(t.id)
  }

  function PiecesOf(tokens: seq<Token>, k: nat): seq<Piece> {
    if k < |tokens| then [Erased(tokens[k])] + EndMark(tokens, k) else []
  }

  /** The pieces of the tokens from `i` up to `j`. */
  function Pieces(tokens: seq<Token>, i: nat, j: nat): seq<Piece> {
    if j <= i then [] else Pieces(tokens, i, j - 1) + PiecesOf(tokens, j - 1)
  }

  lemma Associates(a: seq<Piece>, b: seq<Piece>, c: seq<Piece>)
    ensures (a + b) + c == a + (b + c)
  {
  }

  lemma {:induction false} PiecesSplit(tokens: seq<Token>, i: nat, j: nat, k: nat)
    requires i <= j <= k
    ensures Pieces(tokens, i, k) == Pieces(tokens, i, j) + Pieces(tokens, j, k)
    decreases k - j
  {
    hide PiecesOf;
    if j < k {
      var l := k - 1;
      PiecesSplit(tokens, i, j, l);
      var a, b, c := Pieces(tokens, i, j), Pieces(tokens, j, l), PiecesOf(tokens, l);
      assert Pieces(tokens, i, k) == Pieces(tokens, i, l) + c;
      assert Pieces(tokens, j, k) == b + c;
      Associates(a, b, c);
    } else {
      assert Pieces(tokens, i, j) + [] == Pieces(tokens, i, j);
    }
  }

  /** A token list as the lexer delivers it: the end of the text is not part of it. */
  predicate Lexed(tokens: seq<Token>) {
    forall k | 0 <= k < |tokens| :: tokens[k].id != Eof
  }

  function WithoutMarks(s: seq<Piece>): seq<Piece> {
    if s == [] then []
    else WithoutMarks(s[..|s| - 1]) + (if s[|s| - 1].WordEnd? then [] else [s[|s| - 1]])
  }

  lemma {:induction false} WithoutMarksConcat(a: seq<Piece>, b: seq<Piece>)
    ensures WithoutMarks(a + b) == WithoutMarks(a) + WithoutMarks(b)
  {
    if b == [] {
      assert a + b == a;
    } else {
      WithoutMarksConcat(a, b[..|b| - 1]);
      assert (a + b)[..|a + b| - 1] == a + b[..|b| - 1];
    }
  }

  lemma OnePieceLeft(x: Piece)
    ensures WithoutMarks([x]) == if x.WordEnd? then [] else [x]
  {
    assert [x][..0] == [];
  }

  lemma ErasedPiece(tokens: seq<Token>, k: nat)
    requires k < |tokens| && Usable(tokens[k].id)
    ensures WithoutMarks(PiecesOf(tokens, k)) == [Erased(tokens[k])]
  {
    var x := Erased(tokens[k]);
    OnePieceLeft(x);
    OnePieceLeft(WordEnd);
    WithoutMarksConcat([x], EndMark(tokens, k));
    assert [x] + [] == [x];
  }

  /** The first `n` tokens without their white space. */
  function ErasedTokens(tokens: seq<Token>, n: nat): (r: seq<Piece>)
    requires n <= |tokens|
    ensures |r| == n && forall k | 0 <= k < n :: r[k] == Erased(tokens[k])
  {
    if n == 0 then [] else ErasedTokens(tokens, n - 1) + [Erased(tokens[n - 1])]
  }

  /** Apart from the ends of words, the pieces are the tokens, one by one. */
  lemma {:induction false} PiecesAreTokens(tokens: seq<Token>, n: nat)
    requires n <= |tokens| && forall k | 0 <= k < n :: Usable(tokens[k].id)
    ensures WithoutMarks(Pieces(tokens, 0, n)) == ErasedTokens(tokens, n)
  {
    if n > 0 {
      PiecesAreTokens(tokens, n - 1);
      ErasedPiece(tokens, n - 1);
      WithoutMarksConcat(Pieces(tokens, 0, n - 1), PiecesOf(tokens, n - 1));
    }
  }

  // ---- Well-formed token lists --------------------------------------------------

  /** How many parentheses are open before token `k`. */
  function Depth(tokens: seq<Token>, k: nat): int
    requires k <= |tokens|
  {
    if k == 0 then 0
    else
      Depth(tokens, k - 1)
      + (if tokens[k - 1].id == OpeningParenthesis then 1
         else if tokens[k - 1].id == ClosingParenthesis then -1 else 0)
  }

  predicate Usable(id: TokenId) {
    MorphemeFromToken(id).Some? || IsTerminator(id) || id == OpeningParenthesis || id == ClosingParenthesis
  }

  /** The tokens from `i` up to `j` are usable, and balanced among themselves. */
  ghost predicate Level(tokens: seq<Token>, i: nat, j: nat) {
    && i <= j <= |tokens|
    && Depth(tokens, i) == Depth(tokens, j)
    && (forall k: nat | i <= k <= j :: Depth(tokens, k) >= Depth(tokens, i))
    && (forall k: nat | i <= k < j :: Usable(tokens[k].id))
  }

  /** Only strings, terminators and balanced parentheses. */
  ghost predicate WellFormed(tokens: seq<Token>) {
    Level(tokens, 0, |tokens|)
  }

  lemma LevelJoins(tokens: seq<Token>, i: nat, j: nat, k: nat)
    requires Level(tokens, i, j) && Level(tokens, j, k)
    ensures Level(tokens, i, k)
  {
  }

  lemma LevelToken(tokens: seq<Token>, k: nat)
    requires k < |tokens| && Usable(tokens[k].id)
    requires tokens[k].id != OpeningParenthesis && tokens[k].id != ClosingParenthesis
    ensures Level(tokens, k, k + 1)
  {
    forall l: nat | k <= l <= k + 1 ensures Depth(tokens, l) >= Depth(tokens, k) {
      assert l == k || l == k + 1;
    }
  }

  lemma LevelParentheses(tokens: seq<Token>, i: nat, j: nat)
    requires i + 1 <= j < |tokens| && Level(tokens, i + 1, j)
    requires tokens[i].id == OpeningParenthesis && tokens[j].id == ClosingParenthesis
    ensures Level(tokens, i, j + 1)
  {
    forall k: nat | i <= k <= j + 1 ensures Depth(tokens, k) >= Depth(tokens, i) {
      assert k == i || k == j + 1 || Depth(tokens, k) >= Depth(tokens, i + 1);
    }
  }

  /** An opening parenthesis of a well-formed list leads to a positive depth, and the end
      of the list is not at such a depth. */
  lemma ParenthesisOpens(tokens: seq<Token>, k: nat)
    requires WellFormed(tokens) && k < |tokens| && tokens[k].id == OpeningParenthesis
    ensures Depth(tokens, k + 1) >= 1 && Depth(tokens, |tokens|) == 0
  {
    assert Depth(tokens, k) >= Depth(tokens, 0);
  }

  /** A parenthesis is closed only where one is open. */
  lemma NoStrayParenthesis(tokens: seq<Token>, k: nat)
    requires WellFormed(tokens) && k < |tokens| && tokens[k].id == ClosingParenthesis
    ensures Depth(tokens, k) >= 1
  {
    assert Depth(tokens, k + 1) >= Depth(tokens, 0);
  }
}
