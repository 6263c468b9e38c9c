/**
 * Reference definitions of what the scanner's cursor primitives and
 * tokenizers compute, as functions of the buffer and a cursor index.
 * The buffer always ends with the sentinel EOI; the methods of
 * Scanning.Scanner are proved to compute exactly these functions.
 */
module LexSpec {
  import opened Decimal
  import opened Lexicon

  /** What a tokenizer returns together with where it leaves the cursor. */
  datatype Scanned = Scanned(token: Token, next: nat)

  /**
   * A cursor into a buffer that ends with the sentinel and that has not
   * stepped over any sentinel: the current character is always defined.
   */
  predicate CursorOk(s: seq<char>, i: int) {
    && |s| > 0 && s[|s| - 1] == EOI
    && 0 <= i < |s|
    && forall k :: 0 <= k < i ==> s[k] != EOI
  }

  /** Number of newline characters in s. */
  function Newlines(s: seq<char>): nat {
    if s == [] then 0 else Newlines(s[..|s| - 1]) + (if s[|s| - 1] == '\n' then 1 else 0)
  }

  /** Moving the cursor forward never lowers the line count. */
  lemma {:induction false} NewlinesMonotone(s: seq<char>, i: nat, j: nat)
    requires i <= j <= |s|
    ensures Newlines(s[..i]) <= Newlines(s[..j])
    decreases j - i
  {
    if i < j {
      NewlinesMonotone(s, i, j - 1);
      assert s[..j][..j - 1] == s[..j - 1];
    }
  }

  /** skipStar: the end of the maximal run of characters from cs starting at i. */
  function RunEnd(s: seq<char>, i: nat, cs: set<char>): (j: nat)
    requires i <= |s|
    ensures i <= j <= |s|
    ensures forall k :: i <= k < j ==> s[k] in cs
    ensures j == |s| || s[j] !in cs
    ensures CursorOk(s, i) && EOI !in cs ==> CursorOk(s, j)
    decreases |s| - i
  {
    if i == |s| || s[i] !in cs then i else RunEnd(s, i + 1, cs)
  }

  /** find: the first position at or after i that holds a character of stops. */
  function UpTo(s: seq<char>, i: nat, stops: set<char>): (j: nat)
    requires i <= |s|
    ensures i <= j <= |s|
    ensures forall k :: i <= k < j ==> s[k] !in stops
    ensures j == |s| || s[j] in stops
    ensures CursorOk(s, i) && EOI in stops ==> CursorOk(s, j)
    decreases |s| - i
  {
    if i == |s| || s[i] in stops then i else UpTo(s, i + 1, stops)
  }

  /** The run end is determined by the run: any maximal run ending at j gives j. */
  lemma {:induction false} RunEndExact(s: seq<char>, i: nat, j: nat, cs: set<char>)
    requires i <= j <= |s|
    requires forall k :: i <= k < j ==> s[k] in cs
    requires j == |s| || s[j] !in cs
    ensures RunEnd(s, i, cs) == j
    decreases j - i
  {
    if i < j {
      RunEndExact(s, i + 1, j, cs);
    }
  }

  lemma {:induction false} UpToExact(s: seq<char>, i: nat, j: nat, stops: set<char>)
    requires i <= j <= |s|
    requires forall k :: i <= k < j ==> s[k] !in stops
    requires j == |s| || s[j] in stops
    ensures UpTo(s, i, stops) == j
    decreases j - i
  {
    if i < j {
      UpToExact(s, i + 1, j, stops);
    }
  }

  /** skipComment: just past the end of the line, or at the sentinel. */
  function CommentEnd(s: seq<char>, i: nat): (j: nat)
    requires CursorOk(s, i)
    ensures CursorOk(s, j) && i <= j
    ensures s[i] != '\n' && s[i] != EOI ==> i < j
    ensures s[j] == EOI || (i < j && s[j - 1] == '\n')
    ensures forall k :: i <= k < j - 1 ==> s[k] != '\n'
  {
    var e := UpTo(s, i, {'\n', EOI});
    if s[e] == '\n' then e + 1 else e
  }

  /** jump: over one run of whitespace or one comment. */
  function JumpEnd(s: seq<char>, i: nat): (j: nat)
    requires CursorOk(s, i)
    ensures CursorOk(s, j) && i <= j
    ensures s[i] in Whitespace || s[i] == START_COMMENT ==> i < j
    ensures !(s[i] in Whitespace || s[i] == START_COMMENT) ==> j == i
    ensures s[i] in Whitespace ==> (forall k :: i <= k < j ==> s[k] in Whitespace) && s[j] !in Whitespace
    ensures s[i] == START_COMMENT ==>
      && (forall k :: i <= k < j - 1 ==> s[k] != '\n')
      && (s[j] == EOI || s[j - 1] == '\n')
  {
    if s[i] in Whitespace then RunEnd(s, i, Whitespace)
    else if s[i] == START_COMMENT then CommentEnd(s, i)
    else i
  }

  /** jumpStar: over all whitespace and comments, to the start of the next token. */
  function SkipBlanks(s: seq<char>, i: nat): (j: nat)
    requires CursorOk(s, i)
    ensures CursorOk(s, j) && i <= j
    ensures s[j] !in Whitespace && s[j] != START_COMMENT
    ensures s[i] !in Whitespace && s[i] != START_COMMENT ==> j == i
    decreases |s| - i
  {
    if s[i] in Whitespace || s[i] == START_COMMENT then SkipBlanks(s, JumpEnd(s, i)) else i
  }

  /** Position k is inside a comment opened at or after i: a '~' earlier on k's line, from i on. */
  predicate InComment(s: seq<char>, i: nat, k: nat)
    requires i <= k < |s|
    decreases k
  {
    s[k] == START_COMMENT || (i < k && s[k - 1] != '\n' && InComment(s, i, k - 1))
  }

  /** A comment opened at or after i' was opened at or after any i <= i'. */
  lemma {:induction false} InCommentWiden(s: seq<char>, i: nat, i': nat, k: nat)
    requires i <= i' <= k < |s| && InComment(s, i', k)
    ensures InComment(s, i, k)
    decreases k
  {
    if s[k] != START_COMMENT {
      InCommentWiden(s, i, i', k - 1);
    }
  }

  /** Everything skipComment passes, before the newline that ends it, is inside the comment. */
  lemma {:induction false} CommentCovered(s: seq<char>, i: nat, k: nat)
    requires CursorOk(s, i) && s[i] == START_COMMENT && i <= k < CommentEnd(s, i)
    ensures InComment(s, i, k)
    decreases k
  {
    if k > i {
      assert s[k - 1] != '\n';
      CommentCovered(s, i, k - 1);
    }
  }

  /** A run of whitespace from i is not inside any comment. */
  lemma {:induction false} BlankRunOutsideComment(s: seq<char>, i: nat, k: nat)
    requires i <= k < |s|
    requires forall m :: i <= m <= k ==> s[m] in Whitespace
    ensures !InComment(s, i, k)
    decreases k
  {
    if k > i {
      BlankRunOutsideComment(s, i, k - 1);
    }
  }

  /**
   * Once the line that a comment opened at or after i has ended before i',
   * a position past i' lies in a comment counted from i only if it lies in
   * one counted from i'.
   */
  lemma {:induction false} LeftComment(s: seq<char>, i: nat, i': nat, k: nat)
    requires i < i' <= k < |s|
    requires s[i' - 1] == '\n' || !InComment(s, i, i' - 1)
    requires !InComment(s, i', k)
    ensures !InComment(s, i, k)
    decreases k
  {
    if k > i' && s[k - 1] != '\n' {
      LeftComment(s, i, i', k - 1);
    }
  }

  /** jumpStar passes only whitespace and the text of comments. */
  lemma {:induction false} SkipBlanksPasses(s: seq<char>, i: nat)
    requires CursorOk(s, i)
    ensures forall k :: i <= k < SkipBlanks(s, i) ==> s[k] in Whitespace || InComment(s, i, k)
    ensures s[SkipBlanks(s, i)] != EOI ==> !InComment(s, i, SkipBlanks(s, i))
    decreases |s| - i
  {
    if s[i] in Whitespace || s[i] == START_COMMENT {
      var i' := JumpEnd(s, i);
      SkipBlanksPasses(s, i');
      var j := SkipBlanks(s, i');
      if s[j] != EOI {
        if s[i] in Whitespace {
          BlankRunOutsideComment(s, i, i' - 1);
        } else {
          assert s[i'] != EOI;
        }
        LeftComment(s, i, i', j);
      }
      forall k | i <= k < SkipBlanks(s, i)
        ensures s[k] in Whitespace || InComment(s, i, k)
      {
        if k < i' {
          if s[i] == START_COMMENT {
            CommentCovered(s, i, k);
          }
        } else if s[k] !in Whitespace {
          InCommentWiden(s, i, i', k);
        }
      }
    }
  }

  /** NUM: the maximal digit run, rejected when a letter follows it. */
  function ScanNumber(s: seq<char>, i: nat): (r: Scanned)
    requires CursorOk(s, i) && s[i] in Digits
    ensures CursorOk(s, r.next) && i < r.next
    ensures AllDigits(s[i..r.next]) && s[r.next] !in Digits
    ensures r.token == if IsLetter(s[r.next]) then ErrorToken
                       else Token("numConstant", IntVal(Value(s[i..r.next])))
  {
    var j := RunEnd(s, i, Digits);
    if IsLetter(s[j]) then Scanned(ErrorToken, j)
    else Scanned(Token("numConstant", IntVal(Value(s[i..j]))), j)
  }

  /** Position m holds the second of two adjacent underscores. */
  predicate DoubledAt(s: seq<char>, m: int)
    requires 1 <= m < |s|
  {
    s[m] == '_' && s[m - 1] == '_'
  }

  /**
   * The loop of ID, from position k on: stops at the first character that
   * is not a letter, digit, '_' or '.', or at the second of two adjacent
   * underscores (then `doubled` is set).
   */
  function WordEnd(s: seq<char>, k: nat): (r: (nat, bool))
    requires CursorOk(s, k) && k >= 1
    ensures CursorOk(s, r.0) && k <= r.0
    ensures forall m :: k <= m < r.0 ==> IsWordChar(s[m])
    ensures forall m {:trigger DoubledAt(s, m)} :: k <= m < r.0 ==> !DoubledAt(s, m)
    ensures r.1 ==> DoubledAt(s, r.0)
    ensures !r.1 ==> !IsWordChar(s[r.0])
    decreases |s| - k
  {
    if !IsWordChar(s[k]) then (k, false)
    else if DoubledAt(s, k) then (k, true)
    else WordEnd(s, k + 1)
  }

  /** A word the scanner accepts: a letter, then letters, digits, '_' and '.', no "__", no trailing '_'. */
  predicate GoodWord(w: seq<char>) {
    && |w| > 0 && IsLetter(w[0])
    && (forall k :: 0 <= k < |w| ==> IsWordChar(w[k]))
    && (forall k :: 1 <= k < |w| ==> !DoubledAt(w, k))
    && w[|w| - 1] != '_'
  }

  /** The token of a well-formed word: its keyword kind, or an identifier carrying the word. */
  function WordToken(w: string): (t: Token)
    ensures WellFormed(t) && t != ErrorToken
  {
    if w in KeywordTable then Token(KeywordTable[w], NoVal) else Token("identifier", StrVal(w))
  }

  /** ID: an identifier or a keyword, or an error token for a malformed word. */
  function ScanWord(s: seq<char>, i: nat): (r: Scanned)
    requires CursorOk(s, i)
    ensures CursorOk(s, r.next) && i <= r.next
    ensures IsLetter(s[i]) ==> i < r.next
    ensures !IsLetter(s[i]) ==> r == Scanned(ErrorToken, i)
    ensures IsLetter(s[i]) ==> forall m :: i < m < r.next ==> IsWordChar(s[m])
    ensures IsLetter(s[i]) ==> forall m {:trigger DoubledAt(s, m)} :: i < m < r.next ==> !DoubledAt(s, m)
    ensures r.token != ErrorToken ==>
      && GoodWord(s[i..r.next]) && !IsWordChar(s[r.next])
      && r.token == WordToken(s[i..r.next])
    ensures r.token == ErrorToken && IsLetter(s[i]) ==>
      DoubledAt(s, r.next) || (!IsWordChar(s[r.next]) && s[r.next - 1] == '_')
  {
    if !IsLetter(s[i]) then Scanned(ErrorToken, i)
    else
      var end := WordEnd(s, i + 1);
      var r := WordVerdict(s, i, end.0, end.1);
      assert r.token != ErrorToken ==>
        forall k {:trigger DoubledAt(s[i..end.0], k)} :: 1 <= k < end.0 - i ==> DoubledAt(s[i..end.0], k) == DoubledAt(s, i + k);
      r
  }

  /** The token ID yields for the word s[i..stop], once the loop over its characters has stopped. */
  function WordVerdict(s: seq<char>, i: nat, stop: nat, doubled: bool): (r: Scanned)
    requires i < stop <= |s|
    ensures r.next == stop
    ensures r.token != ErrorToken <==> !doubled && s[stop - 1] != '_'
  {
    if doubled || s[stop - 1] == '_' then Scanned(ErrorToken, stop)
    else Scanned(WordToken(s[i..stop]), stop)
  }

  /** How ScanWord ends, once the loop over the word's characters has stopped. */
  lemma ScanWordStop(s: seq<char>, i: nat, stop: nat, doubled: bool)
    requires CursorOk(s, i) && IsLetter(s[i]) && WordEnd(s, i + 1) == (stop, doubled)
    ensures i < stop
    ensures ScanWord(s, i) == WordVerdict(s, i, stop, doubled)
  {
  }

  /** STR: the characters between the quotes; an unterminated string gives "" and stops at the sentinel. */
  function ScanString(s: seq<char>, i: nat): (r: Scanned)
    requires CursorOk(s, i) && s[i] == START_STRING
    ensures CursorOk(s, r.next) && i < r.next
    ensures r.token.kind == "stringConstant"
    ensures if i + 1 < r.next && s[r.next - 1] == END_STRING
            then r.token.value == StrVal(s[i + 1..r.next - 1])
            else s[r.next] == EOI && r.token.value == StrVal("")
    ensures forall k :: i < k < r.next - 1 ==> s[k] != END_STRING && s[k] != EOI
  {
    var j := UpTo(s, i + 1, {END_STRING, EOI});
    if s[j] == EOI then Scanned(Token("stringConstant", StrVal("")), j)
    else Scanned(Token("stringConstant", StrVal(s[i + 1..j])), j + 1)
  }

  /** twoCharSym: one character, or two when the second is secondCh. */
  function TwoChar(s: seq<char>, i: nat, secondCh: char, firstToken: string, secondToken: string): (r: Scanned)
    requires CursorOk(s, i) && s[i] != EOI && secondCh != EOI
    ensures CursorOk(s, r.next)
    ensures || (r.next == i + 2 && r.token == Token(secondToken, NoVal) && s[i + 1] == secondCh)
            || (r.next == i + 1 && r.token == Token(firstToken, NoVal) && s[i + 1] != secondCh)
  {
    if s[i + 1] == secondCh then Scanned(Token(secondToken, NoVal), i + 2)
    else Scanned(Token(firstToken, NoVal), i + 1)
  }

  /** nextToken. */
  function Next(s: seq<char>, i: nat): (r: Scanned)
    requires CursorOk(s, i)
    ensures CursorOk(s, r.next) && i <= r.next
    ensures WellFormed(r.token)
    ensures Consuming(r.token) ==> i < r.next
    ensures r.token.kind == EoiKind <==> s[i] == EOI
    ensures s[i] == EOI ==> r == Scanned(EndToken, i)
  {
    if s[i] == EOI then Scanned(EndToken, i)
    else
      var j := SkipBlanks(s, i);
      var c := s[j];
      if c in Digits then ScanNumber(s, j)
      else if c == START_STRING then ScanString(s, j)
      else if IsLetter(c) then
        ScanWord(s, j)
      else if c == EQUAL then TwoChar(s, j, EQUAL, "assignSym", "equalSym")
      else if c == NOT then TwoChar(s, j, EQUAL, "notSym", "notEqualSym")
      else if c == GREATER then TwoChar(s, j, EQUAL, "greaterSym", "greaterEQSym")
      else if c == LESS then TwoChar(s, j, EQUAL, "lessSym", "lessEQSym")
      else if c in OpTable then
        Scanned(Token(OpTable[c], NoVal), j + 1)
      else Scanned(UnknownToken, j)
  }

  /** Repeated nextToken calls from position i return the tokens ts, in order, and leave the cursor at j. */
  predicate Lexes(s: seq<char>, i: nat, ts: seq<Token>, j: nat)
    requires CursorOk(s, i)
    decreases |ts|
  {
    if ts == [] then i == j
    else
      var x := Next(s, i);
      x.token == ts[0] && Lexes(s, x.next, ts[1..], j)
  }

  /**
   * The stream ts with the cursor positions between its tokens written out:
   * nextToken at cuts[k] returns ts[k] and leaves the cursor at cuts[k + 1].
   */
  ghost predicate Steps(s: seq<char>, cuts: seq<nat>, ts: seq<Token>) {
    && |cuts| == |ts| + 1
    && (forall k :: 0 <= k < |cuts| ==> CursorOk(s, cuts[k]))
    && (forall k {:trigger Next(s, cuts[k])} :: 0 <= k < |ts| ==> Next(s, cuts[k]) == Scanned(ts[k], cuts[k + 1]))
  }

  /** One more nextToken call adds one step. */
  lemma StepsSnoc(s: seq<char>, cuts: seq<nat>, ts: seq<Token>, t: Token, j: nat)
    requires Steps(s, cuts, ts) && Next(s, cuts[|ts|]) == Scanned(t, j)
    ensures Steps(s, cuts + [j], ts + [t])
  {
    var cuts', ts' := cuts + [j], ts + [t];
    forall k | 0 <= k < |ts'|
      ensures Next(s, cuts'[k]) == Scanned(ts'[k], cuts'[k + 1])
    {
      if k < |ts| {
        assert Next(s, cuts[k]) == Scanned(ts[k], cuts[k + 1]);
      }
    }
  }

  /** Steps from cuts[0] to the last cut are a lexing of ts. */
  lemma {:induction false} StepsLexes(s: seq<char>, cuts: seq<nat>, ts: seq<Token>)
    requires Steps(s, cuts, ts)
    ensures CursorOk(s, cuts[0]) && Lexes(s, cuts[0], ts, cuts[|ts|])
    decreases |ts|
  {
    if ts != [] {
      assert Next(s, cuts[0]) == Scanned(ts[0], cuts[1]);
      var cuts', ts' := cuts[1..], ts[1..];
      forall k | 0 <= k < |ts'|
        ensures Next(s, cuts'[k]) == Scanned(ts'[k], cuts'[k + 1])
      {
        assert Next(s, cuts[k + 1]) == Scanned(ts[k + 1], cuts[k + 2]);
      }
      StepsLexes(s, cuts', ts');
    }
  }

  // ---- Lexing known text: the scanner's tokens read back what was written ----

  lemma {:induction false} WordEndExact(s: seq<char>, k: nat, j: nat)
    requires CursorOk(s, k) && 1 <= k <= j < |s|
    requires forall m :: k <= m < j ==> IsWordChar(s[m]) && !DoubledAt(s, m)
    requires !IsWordChar(s[j])
    ensures WordEnd(s, k) == (j, false)
    decreases j - k
  {
    if k < j {
      WordEndExact(s, k + 1, j);
    }
  }

  /** At a digit, nextToken is NUM. */
  lemma NextAtDigit(s: seq<char>, i: nat)
    requires CursorOk(s, i) && s[i] in Digits
    ensures Next(s, i) == ScanNumber(s, i)
  {
    assert SkipBlanks(s, i) == i;
  }

  /** At a letter, nextToken is ID. */
  lemma NextAtLetter(s: seq<char>, i: nat)
    requires CursorOk(s, i) && IsLetter(s[i])
    ensures Next(s, i) == ScanWord(s, i)
  {
    assert SkipBlanks(s, i) == i;
  }

  /** The decimal text of n lexes to the number n, or to an error token when a letter follows it. */
  lemma LexNumeral(n: nat, rest: seq<char>)
    requires |rest| > 0 && rest[|rest| - 1] == EOI && rest[0] !in Digits
    ensures Next(NatToString(n) + rest, 0)
         == if IsLetter(rest[0]) then Scanned(ErrorToken, |NatToString(n)|)
            else Scanned(Token("numConstant", IntVal(n)), |NatToString(n)|)
  {
    var d := NatToString(n);
    var s := d + rest;
    assert s[0] == d[0] && s[0] in Digits;
    NextAtDigit(s, 0);
    RunEndExact(s, 0, |d|, Digits);
    assert s[0..|d|] == d;
    ValueOfNatToString(n);
  }

  /** A well-formed word lexes to its keyword kind, or to an identifier carrying exactly the word. */
  lemma LexWord(w: seq<char>, rest: seq<char>)
    requires GoodWord(w)
    requires |rest| > 0 && rest[|rest| - 1] == EOI && !IsWordChar(rest[0])
    ensures Next(w + rest, 0)
         == Scanned(WordToken(w), |w|)
  {
    var s := w + rest;
    assert s[0] == w[0];
    assert CursorOk(s, 1);
    NextAtLetter(s, 0);
    forall m | 1 <= m < |w|
      ensures IsWordChar(s[m]) && !DoubledAt(s, m)
    {
      assert s[m] == w[m] && s[m - 1] == w[m - 1] && !DoubledAt(w, m);
    }
    WordEndExact(s, 1, |w|);
    assert s[0..|w|] == w;
  }

  /** A quoted text without quotes in it lexes to a string constant holding exactly that text. */
  lemma LexString(body: seq<char>, rest: seq<char>)
    requires forall k :: 0 <= k < |body| ==> body[k] != END_STRING && body[k] != EOI
    requires |rest| > 0 && rest[|rest| - 1] == EOI
    ensures Next([START_STRING] + body + [END_STRING] + rest, 0)
         == Scanned(Token("stringConstant", StrVal(body)), |body| + 2)
  {
    var s := [START_STRING] + body + [END_STRING] + rest;
    UpToExact(s, 1, |body| + 1, {END_STRING, EOI});
    assert s[1..|body| + 1] == body;
  }

  /** A string that is still open at the sentinel lexes to an empty string constant, the cursor on the sentinel. */
  lemma LexUnterminatedString(body: seq<char>)
    requires forall k :: 0 <= k < |body| ==> body[k] != END_STRING && body[k] != EOI
    ensures Next([START_STRING] + body + [EOI], 0)
         == Scanned(Token("stringConstant", StrVal("")), |body| + 1)
  {
    var s := [START_STRING] + body + [EOI];
    UpToExact(s, 1, |body| + 1, {END_STRING, EOI});
  }

  /** Each character of the operator table is a token of one character. */
  lemma LexOperator(c: char, rest: seq<char>)
    requires c in OpTable && |rest| > 0 && rest[|rest| - 1] == EOI
    ensures Next([c] + rest, 0) == Scanned(Token(OpTable[c], NoVal), 1)
  {
    var s := [c] + rest;
    assert s[0] == c;
    OpCharFacts(c);
    assert SkipBlanks(s, 0) == 0;
  }

  /** An operator character starts no other kind of token. */
  lemma OpCharFacts(c: char)
    requires c in OpTable
    ensures c != EOI && c !in Whitespace && c != START_COMMENT
    ensures c !in Digits && c != START_STRING && !IsLetter(c)
    ensures c != EQUAL && c != NOT && c != GREATER && c != LESS
  {
  }

  /** A character no branch of nextToken knows is the unknown token, and nothing is consumed. */
  lemma LexUnknown(c: char, rest: seq<char>)
    requires c != EOI && c !in Whitespace && c != START_COMMENT
    requires c !in Digits && c != START_STRING && !IsLetter(c)
    requires c != EQUAL && c != NOT && c != GREATER && c != LESS && c !in OpTable
    requires |rest| > 0 && rest[|rest| - 1] == EOI
    ensures Next([c] + rest, 0) == Scanned(UnknownToken, 0)
  {
    var s := [c] + rest;
    assert s[0] == c;
    assert SkipBlanks(s, 0) == 0;
  }

  /** '=', '!', '>' and '<' take a following '=' into a two-character token. */
  lemma LexComparison(c: char, rest: seq<char>)
    requires c == EQUAL || c == NOT || c == GREATER || c == LESS
    requires |rest| > 0 && rest[|rest| - 1] == EOI
    ensures Next([c] + rest, 0).next == if rest[0] == EQUAL then 2 else 1
    ensures c == EQUAL ==>
      Next([c] + rest, 0).token == Token(if rest[0] == EQUAL then "equalSym" else "assignSym", NoVal)
    ensures c == NOT ==>
      Next([c] + rest, 0).token == Token(if rest[0] == EQUAL then "notEqualSym" else "notSym", NoVal)
    ensures c == GREATER ==>
      Next([c] + rest, 0).token == Token(if rest[0] == EQUAL then "greaterEQSym" else "greaterSym", NoVal)
    ensures c == LESS ==>
      Next([c] + rest, 0).token == Token(if rest[0] == EQUAL then "lessEQSym" else "lessSym", NoVal)
  {
    var s := [c] + rest;
    assert s[0] == c && s[1] == rest[0];
  }

  /** Whitespace and comments before a token do not change the token. */
  lemma BlanksAreSkipped(s: seq<char>, i: nat)
    requires CursorOk(s, i) && s[SkipBlanks(s, i)] != EOI
    ensures Next(s, i) == Next(s, SkipBlanks(s, i))
  {
  }

  /** Whitespace that runs up to the sentinel yields the unknown token, not the end-of-input token. */
  lemma TrailingBlanks(ws: seq<char>)
    requires |ws| > 0 && forall k :: 0 <= k < |ws| ==> ws[k] in Whitespace
    ensures Next(ws + [EOI], 0) == Scanned(UnknownToken, |ws|)
  {
    var s := ws + [EOI];
    assert s[0] == ws[0];
    RunEndExact(s, 0, |ws|, Whitespace);
    assert SkipBlanks(s, |ws|) == |ws|;
  }
}
