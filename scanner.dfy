/**
 * The character-level scanner: a buffer made of the source text and the
 * sentinel EOI, a cursor and a line counter. Every method is proved to
 * leave the cursor where the matching LexSpec function says and to return
 * what it says; the line counter is always one plus the number of
 * newlines stepped over.
 */
module Scanning {
  import opened Decimal
  import opened Lexicon
  import opened LexSpec

  class Scanner {
    const source: seq<char>
    var position: nat
    var lineNumber: int

    /** The cursor never passes a sentinel, and the line counter counts the newlines behind it. */
    ghost predicate Valid()
      reads this
    {
      CursorOk(source, position) && lineNumber == 1 + Newlines(source[..position])
    }

    constructor (src: string)
      ensures Valid()
      ensures source == src + [EOI] && position == 0 && lineNumber == 1
    {
      source := src + [EOI];
      lineNumber := 1;
      new;
      Init();
    }

    method Init()
      modifies this`position
      ensures position == 0
    {
      position := 0;
    }

    /** The character under the cursor; any other than the sentinel has a successor. */
    function CurrentCh(): (c: char)
      reads this
      requires Valid()
      ensures c != EOI ==> position + 1 < |source|
    {
      source[position]
    }

    function AtEOI(): bool
      reads this
      requires Valid()
    {
      CurrentCh() == EOI
    }

    /** Steps over the current character, counting it when it is a newline. */
    method Move()
      requires Valid() && !AtEOI()
      modifies this
      ensures Valid()
      ensures position == old(position) + 1
      ensures lineNumber == old(lineNumber) + if old(CurrentCh()) == '\n' then 1 else 0
    {
      if CurrentCh() == '\n' {
        lineNumber := lineNumber + 1;
      }
      position := position + 1;
      assert source[..position][..position - 1] == source[..position - 1];
    }

    /** Like Move, but does nothing at the sentinel (where the source only reports an error). */
    method Eat()
      requires Valid()
      modifies this
      ensures Valid()
      ensures old(AtEOI()) ==> position == old(position) && lineNumber == old(lineNumber)
      ensures !old(AtEOI()) ==> position == old(position) + 1
      ensures !old(AtEOI()) ==> lineNumber == old(lineNumber) + if old(CurrentCh()) == '\n' then 1 else 0
    {
      if !AtEOI() {
        Move();
      }
    }

    /** Collects the characters up to x; yields "" when the sentinel comes first. */
    method Find(x: char) returns (result: string)
      requires Valid()
      modifies this
      ensures Valid()
      ensures position == UpTo(source, old(position), {x, EOI})
      ensures result == if AtEOI() then "" else source[old(position)..position]
    {
      result := "";
      while CurrentCh() != x && !AtEOI()
        invariant Valid() && old(position) <= position
        invariant UpTo(source, position, {x, EOI}) == UpTo(source, old(position), {x, EOI})
        invariant result == source[old(position)..position]
        decreases |source| - position
      {
        result := result + [CurrentCh()];
        Eat();
      }
      if AtEOI() {
        result := "";
      }
    }

    /** Collects the maximal run of characters from cs (which must not hold the sentinel). */
    method SkipStar(cs: set<char>) returns (result: string)
      requires Valid() && EOI !in cs
      modifies this
      ensures Valid()
      ensures position == RunEnd(source, old(position), cs)
      ensures result == source[old(position)..position]
    {
      result := "";
      while CurrentCh() in cs
        invariant Valid() && old(position) <= position
        invariant RunEnd(source, position, cs) == RunEnd(source, old(position), cs)
        invariant result == source[old(position)..position]
        decreases |source| - position
      {
        result := result + [CurrentCh()];
        Eat();
      }
    }

    method SkipWS()
      requires Valid()
      modifies this
      ensures Valid()
      ensures position == RunEnd(source, old(position), Whitespace)
    {
      var skipped := SkipStar(Whitespace);
      // The source goes on to loop while the current character is '\r'. That loop
      // never runs: '\r' is whitespace, so the run just skipped ends elsewhere.
      assert CurrentCh() != '\r';
    }

    method SkipComment()
      requires Valid()
      modifies this
      ensures Valid()
      ensures position == CommentEnd(source, old(position))
    {
      while CurrentCh() != '\n' && CurrentCh() != EOI
        invariant Valid() && old(position) <= position
        invariant UpTo(source, position, {'\n', EOI}) == UpTo(source, old(position), {'\n', EOI})
        decreases |source| - position
      {
        Eat();
      }
      if CurrentCh() == '\n' {
        Eat();
      }
    }

    method Jump()
      requires Valid()
      modifies this
      ensures Valid()
      ensures position == JumpEnd(source, old(position))
    {
      if CurrentCh() in Whitespace {
        SkipWS();
      } else if CurrentCh() == START_COMMENT {
        SkipComment();
      }
    }

    method JumpStar()
      requires Valid()
      modifies this
      ensures Valid()
      ensures position == SkipBlanks(source, old(position))
    {
      while CurrentCh() in Whitespace || CurrentCh() == START_COMMENT
        invariant Valid() && old(position) <= position
        invariant SkipBlanks(source, position) == SkipBlanks(source, old(position))
        decreases |source| - position
      {
        Jump();
      }
    }

    method Num() returns (tok: Token)
      requires Valid() && CurrentCh() in Digits
      modifies this
      ensures Valid()
      ensures Scanned(tok, position) == ScanNumber(source, old(position))
    {
      var numStr := SkipStar(Digits);
      if IsLetter(CurrentCh()) {
        // the source reports "Numbers cannot be followed by letters"
        return ErrorToken;
      }
      tok := Token("numConstant", IntVal(Value(numStr)));
    }

    /**
     * The loop of ID: collects letters, digits, '_' and '.' after the first
     * letter, and stops early at the second of two adjacent underscores.
     */
    method WordLoop() returns (rest: string, doubled: bool)
      requires Valid() && position >= 1 && IsLetter(source[position - 1])
      modifies this
      ensures Valid()
      ensures (position, doubled) == WordEnd(source, old(position))
      ensures rest == source[old(position)..position]
    {
      rest := [];
      var lastWasUnderscore := false;
      while IsWordChar(CurrentCh())
        invariant Valid() && old(position) <= position
        invariant rest == source[old(position)..position]
        invariant lastWasUnderscore == (source[position - 1] == '_')
        invariant WordEnd(source, position) == WordEnd(source, old(position))
        decreases |source| - position
      {
        if CurrentCh() == '_' {
          if lastWasUnderscore {
            return rest, true;
          }
          lastWasUnderscore := true;
        } else {
          lastWasUnderscore := false;
        }
        rest := rest + [CurrentCh()];
        Eat();
      }
      doubled := false;
    }

    method Id() returns (tok: Token)
      requires Valid()
      modifies this
      ensures Valid()
      ensures Scanned(tok, position) == ScanWord(source, old(position))
    {
      if !IsLetter(CurrentCh()) {
        return ErrorToken;
      }
      var idStr := [CurrentCh()];
      Eat();
      var rest, doubled := WordLoop();
      ScanWordStop(source, old(position), position, doubled);
      if doubled {
        return ErrorToken;
      }
      idStr := idStr + rest;
      assert idStr == source[old(position)..position];
      if idStr[|idStr| - 1] == '_' {
        return ErrorToken;
      }
      tok := WordToken(idStr);
    }

    method Str() returns (tok: Token)
      requires Valid() && CurrentCh() == START_STRING
      modifies this
      ensures Valid()
      ensures Scanned(tok, position) == ScanString(source, old(position))
    {
      Eat();
      var chars := Find(END_STRING);
      Eat();
      tok := Token("stringConstant", StrVal(chars));
    }

    method TwoCharSym(secondCh: char, firstToken: string, secondToken: string) returns (kind: string)
      requires Valid() && !AtEOI() && secondCh != EOI
      modifies this
      ensures Valid()
      ensures Scanned(Token(kind, NoVal), position)
           == TwoChar(source, old(position), secondCh, firstToken, secondToken)
    {
      Eat();
      if CurrentCh() == secondCh {
        Eat();
        kind := secondToken;
      } else {
        kind := firstToken;
      }
    }

    /** The main tokenizer; at the sentinel it returns the end-of-input token and changes nothing. */
    method NextToken() returns (tok: Token)
      requires Valid()
      modifies this
      ensures Valid()
      ensures Scanned(tok, position) == Next(source, old(position))
      ensures old(lineNumber) <= lineNumber
    {
      if AtEOI() {
        tok := EndToken;
      } else {
        JumpStar();
        var c := CurrentCh();
        if c in Digits {
          tok := Num();
        } else if c == START_STRING {
          tok := Str();
        } else if IsLetter(c) {
          tok := Id();
        } else if c == EQUAL {
          var kind := TwoCharSym(EQUAL, "assignSym", "equalSym");
          tok := Token(kind, NoVal);
        } else if c == NOT {
          var kind := TwoCharSym(EQUAL, "notSym", "notEqualSym");
          tok := Token(kind, NoVal);
        } else if c == GREATER {
          var kind := TwoCharSym(EQUAL, "greaterSym", "greaterEQSym");
          tok := Token(kind, NoVal);
        } else if c == LESS {
          var kind := TwoCharSym(EQUAL, "lessSym", "lessEQSym");
          tok := Token(kind, NoVal);
        } else if c in OpTable {
          Eat();
          tok := Token(OpTable[c], NoVal);
        } else {
          tok := UnknownToken;
        }
      }
      NewlinesMonotone(source, old(position), position);
    }

    method GetLineNumber() returns (n: int)
      requires Valid()
      ensures n == 1 + Newlines(source[..position])
    {
      n := lineNumber;
    }
  }
}
