/** The recursive descent parser of the shell (Commands/shell/Parser.c:47-246): it ends on
    every token list, reports no error exactly on the well-formed ones, and loses nothing. */
module ShellParser {
  import opened ShellSyntax

  /** The position is where a block of the given kind can be without error. */
  ghost predicate InContext(tokens: seq<Token>, isNested: bool, at: nat) {
    WellFormed(tokens) && at <= |tokens| && (if isNested then Depth(tokens, at) >= 1 else Depth(tokens, at) == 0)
  }

  class Parser {
    const tokens: seq<Token>
    var pos: nat
    /** The number of error messages printed. */
    var errors: nat

    constructor (tokens: seq<Token>)
      ensures this.tokens == tokens && pos == 0 && errors == 0
    {
      this.tokens, pos, errors := tokens, 0, 0;
    }

    /** The lexer's current token; at the end of the text it stays at the end. */
    function Current(): TokenId
      reads this
    {
      IdAt(tokens, pos)
    }

    method Consume()
      requires pos <= |tokens|
      modifies this`pos
      ensures pos == if old(pos) < |tokens| then old(pos) + 1 else old(pos)
    {
      if pos < |tokens| { pos := pos + 1; }
    }

    /** Parser_SkipUntilStartOfNextSentence.  The token that the source looks at after
        consuming one is the next one, since the lexer reuses its storage. */
    method SkipUntilStartOfNextSentence()
      requires Lexed(tokens) && pos <= |tokens|
      modifies this`pos
      ensures old(pos) <= pos <= |tokens| && (old(pos) < |tokens| ==> pos > old(pos))
    {
      var done := false;
      while !done
        invariant old(pos) <= pos <= |tokens| && (done && old(pos) < |tokens| ==> pos > old(pos))
        decreases |tokens| - pos + (if done then 0 else 1)
      {
        Consume();
        done := Current() == Eof || IsTerminator(Current()) || Current() == ClosingParenthesis;
      }
    }

    /** Parser_IsAtSentenceTerminator. */
    predicate AtSentenceTerminator(isNested: bool)
      reads this
    {
      Current() == Eof || IsTerminator(Current()) || (isNested && Current() == ClosingParenthesis)
    }

    /** Word_AddMorpheme. */
    static method AddMorpheme(morphemes: seq<Morpheme>, m: Morpheme) returns (r: seq<Morpheme>)
      ensures OfMorphemes(r) == OfMorphemes(morphemes) + OfMorpheme(m)
    {
      OneMoreMorpheme(morphemes, m);
      r := morphemes + [m];
    }

    /** Parser_NestedBlock: adds a parenthesised block to the morphemes of a word. */
    method NestedBlock(morphemes: seq<Morpheme>, ghost wordStart: nat) returns (r: seq<Morpheme>)
      requires Lexed(tokens) && pos < |tokens| && tokens[pos].id == OpeningParenthesis
      modifies this`pos, this`errors
      ensures old(pos) < pos <= |tokens| && errors >= old(errors)
      ensures errors == old(errors) && WordState(tokens, wordStart, old(pos), OfMorphemes(morphemes), false) ==>
                WordState(tokens, wordStart, pos, OfMorphemes(r), false)
      ensures WellFormed(tokens) ==> errors == old(errors)
      decreases |tokens| - pos, 0
    {
      hide WordState, Level, OfMorphemes, OfBlock, Pieces;
      r := morphemes;
      ghost var start := pos;
      if WellFormed(tokens) { ParenthesisOpens(tokens, start); }
      Consume();
      var block := ParseBlock(true);
      ghost var end := pos;
      if Current() == ClosingParenthesis {
        Consume();
        r := AddMorpheme(morphemes, BlockMorpheme(block));
        if errors == old(errors) {
          AddBlock(tokens, wordStart, start, end, pos, OfMorphemes(morphemes), block, OfMorphemes(r));
        }
      } else {
        // The source's third case, garbage after the block, cannot occur.
        assert Current() == Eof;
        errors := errors + 1;
      }
    }

    /** The case of Parser_Word for a string token; white space after it ends the word. */
    method StringToken(morphemes: seq<Morpheme>, ghost start: nat) returns (r: seq<Morpheme>, done: bool)
      requires pos < |tokens| && MorphemeFromToken(tokens[pos].id).Some?
      modifies this`pos
      ensures pos == old(pos) + 1
      ensures WordState(tokens, start, old(pos), OfMorphemes(morphemes), false)
              ==> WordState(tokens, start, pos, OfMorphemes(r), done)
    {
      var m := StringMorpheme(MorphemeFromToken(Current()).value, tokens[pos].text);
      r := AddMorpheme(morphemes, m);
      done := tokens[pos].hasTrailingWhitespace;
      if WordState(tokens, start, pos, OfMorphemes(morphemes), false) {
        AddString(tokens, start, pos, OfMorphemes(morphemes), OfMorpheme(m), OfMorphemes(r));
      }
      Consume();
    }

    /** Parser_Word. */
    method ParseWord(isNested: bool) returns (word: Word, hasError: bool)
      requires Lexed(tokens) && pos <= |tokens| && !AtSentenceTerminator(isNested)
      modifies this`pos, this`errors
      ensures old(pos) <= pos <= |tokens| && errors >= old(errors)
      ensures if hasError then errors > old(errors) else pos > old(pos)
      ensures errors == old(errors) ==>
                Level(tokens, old(pos), pos) && OfMorphemes(word.morphemes) + [WordEnd] == Pieces(tokens, old(pos), pos)
      ensures InContext(tokens, isNested, old(pos)) ==> errors == old(errors)
      decreases |tokens| - pos, 1
    {
      ghost var start := pos;
      var morphemes: seq<Morpheme> := [];
      var done := false;
      hasError := false;
      while !done
        invariant start <= pos <= |tokens| && errors >= old(errors)
        invariant hasError ==> done && errors > old(errors)
        invariant pos == start && !hasError ==> !done && morphemes == [] && errors == old(errors)
        invariant errors == old(errors) ==> WordState(tokens, start, pos, OfMorphemes(morphemes), done)
        invariant InContext(tokens, isNested, start) ==> errors == old(errors)
        decreases |tokens| - pos, if done then 0 else 1
      {
        if Current() == OpeningParenthesis {
          morphemes := NestedBlock(morphemes, start);
        } else if AtSentenceTerminator(isNested) {
          done := true;
        } else if MorphemeFromToken(Current()).Some? {
          morphemes, done := StringToken(morphemes, start);
        } else {
          if InContext(tokens, isNested, start) { NoErrorHere(tokens, start, pos, isNested); }
          errors := errors + 1;
          hasError := true;
          done := true;
        }
      }
      return Word(morphemes), hasError;
    }

    /** Parser_Sentence. */
    method ParseSentence(isNested: bool) returns (sentence: Sentence)
      requires Lexed(tokens) && pos < |tokens| && !(isNested && tokens[pos].id == ClosingParenthesis)
      modifies this`pos, this`errors
      ensures old(pos) < pos <= |tokens| && errors >= old(errors)
      ensures errors == old(errors) ==>
                && Level(tokens, old(pos), pos)
                && OfWords(sentence.words) + TerminatorPiece(sentence.terminator) == Pieces(tokens, old(pos), pos)
      ensures InContext(tokens, isNested, old(pos)) ==> errors == old(errors)
      decreases |tokens| - pos, 2
    {
      ghost var start := pos;
      var words: seq<Word> := [];
      assert Level(tokens, start, start);
      while !AtSentenceTerminator(isNested)
        invariant start <= pos <= |tokens| && errors >= old(errors)
        invariant pos == start ==> words == [] && errors == old(errors)
        invariant errors == old(errors) ==> Level(tokens, start, pos) && OfWords(words) == Pieces(tokens, start, pos)
        invariant InContext(tokens, isNested, start) ==> errors == old(errors)
        decreases |tokens| - pos
      {
        ghost var from := pos;
        ghost var errorsBefore := errors;
        var word, hasError := ParseWord(isNested);
        if errors == old(errors) {
          LevelJoins(tokens, start, from, pos);
          PiecesSplit(tokens, start, from, pos);
          OneMoreWord(words, word);
        }
        words := words + [word];
        if hasError {
          SkipUntilStartOfNextSentence();
          break;
        }
      }
      ghost var end := pos;
      var id := Current();
      if !(isNested && id == ClosingParenthesis) {
        Consume();
      }
      if errors == old(errors) { SentenceEnds(tokens, start, end, pos, words, id); }
      return Sentence(words, id);
    }

    /** Parser_Block. */
    method ParseBlock(isNested: bool) returns (block: Block)
      requires Lexed(tokens) && pos <= |tokens|
      modifies this`pos, this`errors
      ensures old(pos) <= pos <= |tokens| && errors >= old(errors)
      ensures pos == |tokens| || (isNested && tokens[pos].id == ClosingParenthesis)
      ensures errors == old(errors) ==>
                Level(tokens, old(pos), pos) && OfBlock(block) == Pieces(tokens, old(pos), pos)
      ensures InContext(tokens, isNested, old(pos)) ==> errors == old(errors)
      decreases |tokens| - pos, 3
    {
      ghost var start := pos;
      var sentences: seq<Sentence> := [];
      assert Level(tokens, start, start);
      while !(Current() == Eof || (isNested && Current() == ClosingParenthesis))
        invariant start <= pos <= |tokens| && errors >= old(errors)
        invariant errors == old(errors) ==>
                    Level(tokens, start, pos) && OfSentences(sentences) == Pieces(tokens, start, pos)
        invariant InContext(tokens, isNested, start) ==> errors == old(errors)
        decreases |tokens| - pos
      {
        ghost var from := pos;
        var sentence := ParseSentence(isNested);
        if errors == old(errors) {
          LevelJoins(tokens, start, from, pos);
          PiecesSplit(tokens, start, from, pos);
          OneMoreSentence(sentences, sentence);
        }
        sentences := sentences + [sentence];
      }
      return Block(sentences);
    }

    /** Parser_Parse.  Exactly the well-formed token lists are parsed without error, and
        then the tree stands for the whole token list. */
    method Parse() returns (block: Block)
      requires Lexed(tokens) && pos == 0 && errors == 0
      modifies this`pos, this`errors
      ensures errors == 0 <==> WellFormed(tokens)
      ensures errors == 0 ==> OfBlock(block) == Pieces(tokens, 0, |tokens|)
      ensures errors == 0 ==> WithoutMarks(OfBlock(block)) == ErasedTokens(tokens, |tokens|)
      ensures pos == |tokens|
    {
      block := ParseBlock(false);
      if errors == 0 { PiecesAreTokens(tokens, |tokens|); }
    }
  }

  /** `content` is the part of a word from `start` to `pos`, without its end mark as long
      as the word goes on. */
  ghost predicate WordState(tokens: seq<Token>, start: nat, pos: nat, content: seq<Piece>, done: bool) {
    && Level(tokens, start, pos)
    && if pos == start then content == [] && !done
       else
         && content + EndMark(tokens, pos - 1) == Pieces(tokens, start, pos)
         && (EndsWord(tokens, pos - 1) <==> done || AtWordEnd(tokens, pos))
  }

  lemma Bracket(m: seq<Piece>, b: seq<Piece>, e: seq<Piece>)
    ensures m + ([Open] + b + [Close]) + e == m + ([Open] + (b + ([Close] + e)))
  {
  }

  lemma OnePiece(tokens: seq<Token>, k: nat)
    ensures Pieces(tokens, k, k + 1) == PiecesOf(tokens, k)
  {
    assert Pieces(tokens, k, k) == [];
  }

  lemma ParenthesisPiece(tokens: seq<Token>, k: nat)
    requires k < |tokens|
    ensures tokens[k].id == OpeningParenthesis ==> PiecesOf(tokens, k) == [Open]
    ensures tokens[k].id == ClosingParenthesis ==> PiecesOf(tokens, k) == [Close] + EndMark(tokens, k)
  {
  }

  lemma FirstPiece(tokens: seq<Token>, i: nat, from: nat, pos: nat)
    requires from == i + 1 && from <= pos
    ensures Pieces(tokens, i, pos) == PiecesOf(tokens, i) + Pieces(tokens, from, pos)
  {
    PiecesSplit(tokens, i, from, pos);
    OnePiece(tokens, i);
  }

  lemma LastPiece(tokens: seq<Token>, from: nat, j: nat, pos: nat)
    requires from <= j && pos == j + 1
    ensures Pieces(tokens, from, pos) == Pieces(tokens, from, j) + PiecesOf(tokens, j)
  {
  }

  lemma Nested(whole: seq<Piece>, open: seq<Piece>, rest: seq<Piece>, inner: seq<Piece>, close: seq<Piece>)
    requires whole == open + rest && rest == inner + close
    ensures whole == open + (inner + close)
  {
  }

  lemma ParenthesisPieces(tokens: seq<Token>, i: nat, from: nat, j: nat, pos: nat)
    requires from == i + 1 && from <= j < |tokens| && pos == j + 1
    requires tokens[i].id == OpeningParenthesis && tokens[j].id == ClosingParenthesis
    ensures Pieces(tokens, i, pos) == [Open] + (Pieces(tokens, from, j) + ([Close] + EndMark(tokens, j)))
  {
    FirstPiece(tokens, i, from, pos);
    LastPiece(tokens, from, j, pos);
    ParenthesisPiece(tokens, i);
    ParenthesisPiece(tokens, j);
    Nested(Pieces(tokens, i, pos), [Open], Pieces(tokens, from, pos), Pieces(tokens, from, j),
           [Close] + EndMark(tokens, j));
  }

  lemma BlockPieces(block: Block, inner: seq<Piece>)
    requires OfBlock(block) == inner
    ensures OfMorpheme(BlockMorpheme(block)) == [Open] + inner + [Close]
  {
  }

  lemma NestedPieces(tokens: seq<Token>, i: nat, j: nat, before: seq<Piece>, part: seq<Piece>)
    requires i + 1 <= j < |tokens|
    requires tokens[i].id == OpeningParenthesis && tokens[j].id == ClosingParenthesis
    requires part == [Open] + Pieces(tokens, i + 1, j) + [Close]
    ensures (before + part) + EndMark(tokens, j) == before + Pieces(tokens, i, j + 1)
  {
    hide Pieces, EndMark;
    ParenthesisPieces(tokens, i, i + 1, j, j + 1);
    Bracket(before, Pieces(tokens, i + 1, j), EndMark(tokens, j));
  }

  /** A part that is added to a word which goes on. */
  lemma WordGrows(tokens: seq<Token>, start: nat, from: nat, pos: nat, before: seq<Piece>, after: seq<Piece>,
                  done: bool)
    requires WordState(tokens, start, from, before, false) && !AtWordEnd(tokens, from)
    requires from < pos && Level(tokens, from, pos)
    requires after + EndMark(tokens, pos - 1) == before + Pieces(tokens, from, pos)
    requires EndsWord(tokens, pos - 1) <==> done || AtWordEnd(tokens, pos)
    ensures WordState(tokens, start, pos, after, done)
  {
    LevelJoins(tokens, start, from, pos);
    PiecesSplit(tokens, start, from, pos);
    assert before == Pieces(tokens, start, from) by {
      assert from > start ==> EndMark(tokens, from - 1) == [];
    }
  }

  lemma AddPart(tokens: seq<Token>, start: nat, from: nat, pos: nat, before: seq<Piece>, after: seq<Piece>)
    requires WordState(tokens, start, from, before, false) && from < pos && Level(tokens, from, pos)
    requires tokens[from].id == OpeningParenthesis && tokens[pos - 1].id == ClosingParenthesis
    requires after + EndMark(tokens, pos - 1) == before + Pieces(tokens, from, pos)
    ensures WordState(tokens, start, pos, after, false)
  {
    WordGrows(tokens, start, from, pos, before, after, false);
  }

  lemma AddNested(tokens: seq<Token>, start: nat, i: nat, j: nat, before: seq<Piece>, part: seq<Piece>,
                  after: seq<Piece>)
    requires i + 1 <= j < |tokens| && Level(tokens, i + 1, j)
    requires tokens[i].id == OpeningParenthesis && tokens[j].id == ClosingParenthesis
    requires part == [Open] + Pieces(tokens, i + 1, j) + [Close] && after == before + part
    requires WordState(tokens, start, i, before, false)
    ensures WordState(tokens, start, j + 1, after, false)
  {
    hide *;
    LevelParentheses(tokens, i, j);
    NestedPieces(tokens, i, j, before, part);
    AddPart(tokens, start, i, j + 1, before, after);
  }

  lemma AddBlock(tokens: seq<Token>, start: nat, i: nat, j: nat, pos: nat, before: seq<Piece>, block: Block,
                 after: seq<Piece>)
    requires i + 1 <= j < |tokens| && pos == j + 1 && Level(tokens, i + 1, j)
    requires OfBlock(block) == Pieces(tokens, i + 1, j)
    requires tokens[i].id == OpeningParenthesis && tokens[j].id == ClosingParenthesis
    requires after == before + OfMorpheme(BlockMorpheme(block))
    ensures WordState(tokens, start, i, before, false) ==> WordState(tokens, start, pos, after, false)
  {
    if WordState(tokens, start, i, before, false) {
      var part := OfMorpheme(BlockMorpheme(block));
      assert part == [Open] + Pieces(tokens, i + 1, j) + [Close] by {
        BlockPieces(block, Pieces(tokens, i + 1, j));
      }
      AddNested(tokens, start, i, j, before, part, after);
    }
  }

  lemma StringPieces(tokens: seq<Token>, k: nat, before: seq<Piece>, part: seq<Piece>)
    requires k < |tokens| && MorphemeFromToken(tokens[k].id).Some?
    requires part == [Str(MorphemeFromToken(tokens[k].id).value, tokens[k].text)]
    ensures (before + part) + EndMark(tokens, k) == before + Pieces(tokens, k, k + 1)
  {
    OnePiece(tokens, k);
    Associates(before, part, EndMark(tokens, k));
  }

  lemma AddString(tokens: seq<Token>, start: nat, from: nat, before: seq<Piece>, part: seq<Piece>, after: seq<Piece>)
    requires WordState(tokens, start, from, before, false) && from < |tokens|
    requires MorphemeFromToken(tokens[from].id).Some?
    requires part == [Str(MorphemeFromToken(tokens[from].id).value, tokens[from].text)] && after == before + part
    ensures WordState(tokens, start, from + 1, after, tokens[from].hasTrailingWhitespace)
  {
    LevelToken(tokens, from);
    StringPieces(tokens, from, before, part);
    WordGrows(tokens, start, from, from + 1, before, after, tokens[from].hasTrailingWhitespace);
  }

  /** In a well-formed list a word meets no unexpected token. */
  lemma NoErrorHere(tokens: seq<Token>, start: nat, pos: nat, isNested: bool)
    requires WellFormed(tokens) && Level(tokens, start, pos) && pos < |tokens|
    requires if isNested then Depth(tokens, start) >= 1 else Depth(tokens, start) == 0
    ensures MorphemeFromToken(tokens[pos].id).Some? || IsTerminator(tokens[pos].id)
            || tokens[pos].id == OpeningParenthesis || (isNested && tokens[pos].id == ClosingParenthesis)
  {
    assert Usable(tokens[pos].id);
    if tokens[pos].id == ClosingParenthesis { NoStrayParenthesis(tokens, pos); }
  }

  lemma SentenceEnds(tokens: seq<Token>, start: nat, end: nat, pos: nat, words: seq<Word>, id: TokenId)
    requires Lexed(tokens) && Level(tokens, start, end) && OfWords(words) == Pieces(tokens, start, end)
    requires id == IdAt(tokens, end) && (IsTerminator(id) || id == Eof || id == ClosingParenthesis)
    requires pos == if id == Eof || id == ClosingParenthesis then end else end + 1
    ensures Level(tokens, start, pos) && OfWords(words) + TerminatorPiece(id) == Pieces(tokens, start, pos)
  {
    hide Pieces, OfWords;
    if IsTerminator(id) {
      LevelToken(tokens, end);
      LevelJoins(tokens, start, end, pos);
      OnePiece(tokens, end);
      PiecesSplit(tokens, start, end, pos);
    } else {
      assert OfWords(words) + [] == OfWords(words);
    }
  }
}
