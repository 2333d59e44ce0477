/** Rewriting the non-standard JSON numbers -Infinity, Infinity and NaN to 0 outside strings. */
module SanitizeJson {
  import opened Common

  predicate IsWhitespace(b: char) { b == ' ' || b == '\t' || b == '\n' || b == '\r' }

  predicate IsPrefixBoundary(b: char) { IsWhitespace(b) || b == ':' || b == ',' || b == '[' }

  predicate IsSuffixBoundary(b: char) { IsWhitespace(b) || b == ',' || b == ']' || b == '}' }

  predicate HasToken(input: string, at: nat, tok: string) {
    var end := at + |tok|;
    && end <= |input|
    && input[at..end] == tok
    && (at > 0 ==> IsPrefixBoundary(input[at - 1]))
    && (end < |input| ==> IsSuffixBoundary(input[end]))
  }

  const NEG_INF := "-Infinity"
  const INF := "Infinity"
  const NAN := "NaN"

  predicate IsToken(tok: string) { tok == NEG_INF || tok == INF || tok == NAN }

  // ---- The specification: one pass that knows only the byte before and the string state

  datatype Mode = Outside | Inside | Escaped

  function Next(mode: Mode, c: char): Mode {
    match mode
    case Outside => if c == '"' then Inside else Outside
    case Inside => if c == '\\' then Escaped else if c == '"' then Outside else Inside
    case Escaped => Inside
  }

  datatype Before = Start | After(c: char)

  /** `tok` opens `s`, delimited on both sides. */
  predicate Opens(before: Before, s: string, tok: string) {
    && |tok| <= |s| && s[..|tok|] == tok
    && (before.After? ==> IsPrefixBoundary(before.c))
    && (|tok| < |s| ==> IsSuffixBoundary(s[|tok|]))
  }

  function TokenHere(before: Before, s: string): (tok: string)
    ensures tok != "" ==> IsToken(tok) && Opens(before, s, tok)
    ensures tok == "" ==> forall t :: IsToken(t) ==> !Opens(before, s, t)
  {
    if Opens(before, s, NEG_INF) then NEG_INF
    else if Opens(before, s, INF) then INF
    else if Opens(before, s, NAN) then NAN
    else ""
  }

  function Emit(before: Before, mode: Mode, s: string): string
    decreases |s|
  {
    if s == "" then ""
    else
      var tok := if mode.Outside? then TokenHere(before, s) else "";
      if tok != "" then "0" + Emit(After(tok[|tok| - 1]), Outside, s[|tok|..])
      else [s[0]] + Emit(After(s[0]), Next(mode, s[0]), s[1..])
  }

  function Sanitized(input: string): string { Emit(Start, Outside, input) }

  function BeforeAt(input: string, i: nat): Before
    requires i <= |input|
  {
    if i == 0 then Start else After(input[i - 1])
  }

  lemma HasTokenOpens(input: string, i: nat, tok: string)
    requires i <= |input|
    ensures HasToken(input, i, tok) <==> Opens(BeforeAt(input, i), input[i..], tok)
  {
    if i + |tok| <= |input| { assert input[i..][..|tok|] == input[i..i + |tok|]; }
  }

  lemma OneToken(before: Before, s: string, tok: string)
    requires IsToken(tok) && Opens(before, s, tok)
    ensures TokenHere(before, s) == tok
  {
    var here := TokenHere(before, s);
    assert s[..|tok|][0] == s[0] && s[..|here|][0] == s[0];
  }

  lemma EmitCopies(input: string, i: nat, mode: Mode)
    requires i < |input|
    requires mode.Outside? ==> forall t :: IsToken(t) ==> !HasToken(input, i, t)
    ensures Rest(input, i, mode) == [input[i]] + Rest(input, i + 1, Next(mode, input[i]))
  {
    assert input[i..][1..] == input[i + 1..];
    if mode.Outside? {
      var tok := TokenHere(BeforeAt(input, i), input[i..]);
      HasTokenOpens(input, i, tok);
    }
  }

  lemma EmitReplaces(input: string, i: nat, tok: string)
    requires i < |input| && IsToken(tok) && HasToken(input, i, tok)
    ensures Rest(input, i, Outside) == "0" + Rest(input, i + |tok|, Outside)
  {
    HasTokenOpens(input, i, tok);
    OneToken(BeforeAt(input, i), input[i..], tok);
    assert input[i..][|tok|..] == input[i + |tok|..];
    assert tok[|tok| - 1] == input[i + |tok| - 1];
  }

  lemma OneTokenAt(input: string, i: nat, tok: string, other: string)
    requires IsToken(tok) && HasToken(input, i, tok) && IsToken(other) && HasToken(input, i, other)
    ensures tok == other
  {
    assert tok[0] == input[i] == other[0];
  }

  lemma TokenStartsPlainly(input: string, i: nat, tok: string)
    requires i < |input| && IsToken(tok) && HasToken(input, i, tok)
    ensures input[i] == tok[0] && input[i] != '"'
  {
  }

  lemma QuoteIsNoToken(input: string, i: nat)
    requires i < |input| && input[i] == '"'
    ensures forall t :: IsToken(t) ==> !HasToken(input, i, t)
  {
    forall t | IsToken(t) ensures !HasToken(input, i, t) {
      if HasToken(input, i, t) { TokenStartsPlainly(input, i, t); }
    }
  }

  function ModeOf(inString: bool, escape: bool): Mode {
    if escape then Escaped else if inString then Inside else Outside
  }

  /** What is still to be written when the loop stands at `i`. */
  function Rest(input: string, i: nat, mode: Mode): string
    requires i <= |input|
  {
    Emit(BeforeAt(input, i), mode, input[i..])
  }

  /** `out` has been written when the loop stands at `i`. */
  predicate Written(out: string, input: string, i: nat, mode: Mode) {
    i <= |input| && out + Rest(input, i, mode) == Sanitized(input)
  }

  lemma ByteWritten(out: string, input: string, i: nat, mode: Mode)
    requires i < |input| && Written(out, input, i, mode)
    requires mode.Outside? ==> forall t :: IsToken(t) ==> !HasToken(input, i, t)
    ensures Written(out + [input[i]], input, i + 1, Next(mode, input[i]))
  {
    var rest := RestAfterByte(input, i, mode);
    Regroup(out, [input[i]], rest);
  }

  lemma RestAfterByte(input: string, i: nat, mode: Mode) returns (rest: string)
    requires i < |input| && (mode.Outside? ==> forall t :: IsToken(t) ==> !HasToken(input, i, t))
    ensures rest == Rest(input, i + 1, Next(mode, input[i])) && Rest(input, i, mode) == [input[i]] + rest
  {
    EmitCopies(input, i, mode);
    rest := Rest(input, i + 1, Next(mode, input[i]));
  }

  lemma RestAfterToken(input: string, i: nat, tok: string) returns (rest: string)
    requires i < |input| && IsToken(tok) && HasToken(input, i, tok)
    ensures rest == Rest(input, i + |tok|, Outside) && Rest(input, i, Outside) == "0" + rest
  {
    EmitReplaces(input, i, tok);
    rest := Rest(input, i + |tok|, Outside);
  }

  lemma TokenWritten(out: string, input: string, i: nat, tok: string)
    requires i < |input| && IsToken(tok) && HasToken(input, i, tok) && Written(out, input, i, Outside)
    ensures Written(out + "0", input, i + |tok|, Outside)
  {
    var rest := RestAfterToken(input, i, tok);
    Regroup(out, "0", rest);
  }

  lemma NothingWritten(input: string)
    ensures Written("", input, 0, Outside)
  {
    assert input[0..] == input;
    assert "" + Sanitized(input) == Sanitized(input);
  }

  lemma AllWritten(out: string, input: string, mode: Mode)
    requires Written(out, input, |input|, mode)
    ensures out == Sanitized(input)
  {
    assert input[|input|..] == "" && out + "" == out;
  }

  method Sanitize(input: string) returns (out: string)
    ensures out == Sanitized(input)
  {
    if |input| == 0 { return input; }
    NothingWritten(input);
    out := "";
    var inString, escape := false, false;
    var i := 0;
    while i < |input|
      invariant 0 <= i <= |input|
      invariant escape ==> inString
      invariant Written(out, input, i, ModeOf(inString, escape))
      decreases |input| - i
    {
      var c := input[i];
      if inString {
        ByteWritten(out, input, i, ModeOf(inString, escape));
        out := out + [c];
        if escape {
          escape := false;
        } else if c == '\\' {
          escape := true;
        } else if c == '"' {
          inString := false;
        }
        i := i + 1;
        continue;
      }
      if c == '"' {
        QuoteIsNoToken(input, i);
        ByteWritten(out, input, i, Outside);
        inString := true;
        out := out + [c];
        i := i + 1;
        continue;
      }
      if HasToken(input, i, NEG_INF) {
        TokenWritten(out, input, i, NEG_INF);
        out := out + "0";
        i := i + |NEG_INF|;
        continue;
      }
      if HasToken(input, i, INF) {
        TokenWritten(out, input, i, INF);
        out := out + "0";
        i := i + |INF|;
        continue;
      }
      if HasToken(input, i, NAN) {
        TokenWritten(out, input, i, NAN);
        out := out + "0";
        i := i + |NAN|;
        continue;
      }
      ByteWritten(out, input, i, Outside);
      out := out + [c];
      i := i + 1;
    }
    AllWritten(out, input, ModeOf(inString, escape));
  }

  // ---- Exactly the delimited tokens outside strings are replaced

  /** The string state before position `i`, read off the raw input. */
  function ModeAt(input: string, i: nat): Mode
    requires i <= |input|
  {
    if i == 0 then Outside else Next(ModeAt(input, i - 1), input[i - 1])
  }

  ghost predicate TokenAt(input: string, i: nat, tok: string) {
    i < |input| && ModeAt(input, i).Outside? && IsToken(tok) && HasToken(input, i, tok)
  }

  ghost predicate StartsToken(input: string, i: nat) {
    exists tok :: TokenAt(input, i, tok)
  }

  ghost predicate InsideToken(input: string, i: nat) {
    exists j: nat, tok :: j < i < j + |tok| && TokenAt(input, j, tok)
  }

  /** What the byte at `i` becomes: the first byte of a token a zero, its other bytes nothing, and
      every other byte itself. */
  ghost function Piece(input: string, i: nat): string
    requires i < |input|
  {
    if StartsToken(input, i) then "0"
    else if InsideToken(input, i) then ""
    else [input[i]]
  }

  ghost function Pieces(input: string, i: nat): string
    requires i <= |input|
    decreases |input| - i
  {
    if i == |input| then "" else Piece(input, i) + Pieces(input, i + 1)
  }

  /** No token starts within another, and none ends inside one. */
  lemma TokensApart(input: string, j: nat, tok: string, i: nat)
    requires TokenAt(input, j, tok) && j < i < j + |tok|
    ensures !StartsToken(input, i)
  {
    assert input[i - 1] == tok[i - 1 - j];
    assert !IsPrefixBoundary(input[i - 1]);
  }

  lemma {:induction false} ModeThroughToken(input: string, i: nat, tok: string, k: nat)
    requires TokenAt(input, i, tok) && i <= k <= i + |tok|
    ensures ModeAt(input, k).Outside?
  {
    if k > i {
      ModeThroughToken(input, i, tok, k - 1);
      assert input[k - 1] == tok[k - 1 - i] && tok[k - 1 - i] != '"';
    }
  }

  lemma InsideIsNothing(input: string, i: nat, tok: string, k: nat)
    requires TokenAt(input, i, tok) && i < k < i + |tok|
    ensures Pieces(input, k) == Pieces(input, k + 1)
  {
    TokensApart(input, i, tok, k);
    assert InsideToken(input, k);
    assert Piece(input, k) == "";
  }

  lemma {:induction false} InsidePieces(input: string, i: nat, tok: string, k: nat)
    requires TokenAt(input, i, tok) && i < k <= i + |tok|
    ensures Pieces(input, k) == Pieces(input, i + |tok|)
    decreases i + |tok| - k
  {
    if k < i + |tok| {
      InsideIsNothing(input, i, tok, k);
      InsidePieces(input, i, tok, k + 1);
    }
  }

  lemma NotInsideAfterCopy(input: string, i: nat)
    requires i < |input| && !InsideToken(input, i) && !StartsToken(input, i)
    ensures !InsideToken(input, i + 1)
  {
  }

  lemma NotInsideAfterToken(input: string, i: nat, tok: string)
    requires TokenAt(input, i, tok) && !InsideToken(input, i)
    ensures !InsideToken(input, i + |tok|)
  {
    if InsideToken(input, i + |tok|) {
      var j: nat, other :| j < i + |tok| < j + |other| && TokenAt(input, j, other);
      if j == i {
        OneTokenAt(input, i, tok, other);
      } else if i < j {
        TokensApart(input, i, tok, j);
      }
    }
  }

  lemma TokenPiece(input: string, i: nat, tok: string)
    requires TokenAt(input, i, tok)
    ensures i + |tok| <= |input| && Pieces(input, i) == "0" + Pieces(input, i + |tok|)
  {
    InsidePieces(input, i, tok, i + 1);
    assert StartsToken(input, i);
  }

  lemma TokenRest(input: string, i: nat, tok: string)
    requires TokenAt(input, i, tok)
    ensures i + |tok| <= |input|
    ensures Rest(input, i, ModeAt(input, i)) == "0" + Rest(input, i + |tok|, ModeAt(input, i + |tok|))
  {
    EmitReplaces(input, i, tok);
    ModeThroughToken(input, i, tok, i + |tok|);
  }

  /** At a token, the loop and the pieces both give a zero and go on behind it. */
  lemma TokenGives(input: string, i: nat, tok: string) returns (next: nat)
    requires TokenAt(input, i, tok) && !InsideToken(input, i)
    ensures i < next <= |input| && !InsideToken(input, next)
    ensures Rest(input, i, ModeAt(input, i)) == "0" + Rest(input, next, ModeAt(input, next))
    ensures Pieces(input, i) == "0" + Pieces(input, next)
  {
    TokenRest(input, i, tok);
    TokenPiece(input, i, tok);
    NotInsideAfterToken(input, i, tok);
    next := i + |tok|;
  }

  /** Elsewhere both give the byte itself. */
  lemma ByteGives(input: string, i: nat)
    requires i < |input| && !InsideToken(input, i) && !StartsToken(input, i)
    ensures !InsideToken(input, i + 1)
    ensures Rest(input, i, ModeAt(input, i)) == [input[i]] + Rest(input, i + 1, ModeAt(input, i + 1))
    ensures Pieces(input, i) == [input[i]] + Pieces(input, i + 1)
  {
    forall t | IsToken(t) && ModeAt(input, i).Outside? ensures !HasToken(input, i, t) {
      assert !TokenAt(input, i, t);
    }
    EmitCopies(input, i, ModeAt(input, i));
    NotInsideAfterCopy(input, i);
  }

  lemma {:induction false} RestIsPieces(input: string, i: nat)
    requires i <= |input| && !InsideToken(input, i)
    ensures Rest(input, i, ModeAt(input, i)) == Pieces(input, i)
    decreases |input| - i
  {
    if i < |input| {
      if tok :| TokenAt(input, i, tok) {
        var next := TokenGives(input, i, tok);
        RestIsPieces(input, next);
      } else {
        ByteGives(input, i);
        RestIsPieces(input, i + 1);
      }
    }
  }

  /** Every delimited token outside strings becomes one zero, and every other byte stays. */
  lemma ReplacesExactlyTheTokens(input: string)
    ensures Sanitized(input) == Pieces(input, 0)
  {
    RestIsPieces(input, 0);
  }

  // ---- Strings are copied

  /** The bytes of the string literals, quotes included. */
  function Quoted(mode: Mode, s: string): string
    decreases s
  {
    if s == "" then ""
    else (if !mode.Outside? || s[0] == '"' then [s[0]] else "") + Quoted(Next(mode, s[0]), s[1..])
  }

  lemma {:induction false} SkipQuoted(s: string, n: nat)
    requires n <= |s| && forall k :: 0 <= k < n ==> s[k] != '"'
    ensures Quoted(Outside, s) == Quoted(Outside, s[n..])
    decreases n
  {
    if n > 0 {
      SkipQuoted(s[1..], n - 1);
      assert s[1..][n - 1..] == s[n..];
    } else {
      assert s[0..] == s;
    }
  }

  lemma QuotedByte(mode: Mode, c: char, rest: string)
    ensures Quoted(mode, [c] + rest) == (if !mode.Outside? || c == '"' then [c] else "") + Quoted(Next(mode, c), rest)
  {
    assert ([c] + rest)[1..] == rest;
  }

  /** A token holds no byte of a literal, and neither does the zero for it. */
  lemma TokenUnquoted(before: Before, s: string)
    requires TokenHere(before, s) != ""
    ensures Quoted(Outside, s) == Quoted(Outside, s[|TokenHere(before, s)|..])
  {
    var tok := TokenHere(before, s);
    assert forall k :: 0 <= k < |tok| ==> s[k] == s[..|tok|][k] && tok[k] != '"';
    SkipQuoted(s, |tok|);
  }

  lemma {:induction false} StringsCopied(before: Before, mode: Mode, s: string)
    ensures Quoted(mode, Emit(before, mode, s)) == Quoted(mode, s)
    decreases |s|
  {
    if s != "" {
      if mode.Outside? && TokenHere(before, s) != "" {
        var tok := TokenHere(before, s);
        StringsCopied(After(tok[|tok| - 1]), Outside, s[|tok|..]);
        TokenUnquoted(before, s);
        QuotedByte(Outside, '0', Emit(After(tok[|tok| - 1]), Outside, s[|tok|..]));
      } else {
        StringsCopied(After(s[0]), Next(mode, s[0]), s[1..]);
        QuotedByte(mode, s[0], Emit(After(s[0]), Next(mode, s[0]), s[1..]));
      }
    }
  }

  /** A byte of a literal, or its opening quote, is never replaced. */
  lemma LiteralBytesStay(input: string, i: nat)
    requires i < |input| && (!ModeAt(input, i).Outside? || input[i] == '"')
    ensures Piece(input, i) == [input[i]]
  {
    if StartsToken(input, i) {
      var tok :| TokenAt(input, i, tok);
      TokenStartsPlainly(input, i, tok);
    } else if InsideToken(input, i) {
      var j: nat, tok :| j < i < j + |tok| && TokenAt(input, j, tok);
      ModeThroughToken(input, j, tok, i);
      TokenBytes(input, j, tok, i);
    }
  }

  lemma TokenBytes(input: string, j: nat, tok: string, i: nat)
    requires TokenAt(input, j, tok) && j <= i < j + |tok|
    ensures input[i] == tok[i - j] && input[i] != '"' && input[i] != '0'
  {
  }

  // ---- Nothing is left to replace

  predicate Blocks(before: Before) { before.After? && !IsPrefixBoundary(before.c) }

  /** A stretch of the output without zeros and quotes is copied from the same place of the input. */
  lemma {:induction false} CopiedStretch(before: Before, s: string, w: string)
    requires w <= Emit(before, Outside, s) && w != ""
    requires forall k :: 0 <= k < |w| ==> w[k] != '0' && w[k] != '"'
    ensures w <= s
    ensures Emit(before, Outside, s)[|w|..] == Emit(After(w[|w| - 1]), Outside, s[|w|..])
    decreases |w|
  {
    var e := Emit(before, Outside, s);
    assert e[0] == w[0];
    assert TokenHere(before, s) == "";
    var rest := Emit(After(s[0]), Outside, s[1..]);
    assert e == [s[0]] + rest && e[1..] == rest;
    if |w| > 1 {
      assert w[1..] <= rest;
      CopiedStretch(After(s[0]), s[1..], w[1..]);
      assert rest[|w| - 1..] == e[|w|..];
      assert s[1..][|w| - 1..] == s[|w|..];
    }
  }

  lemma TokenIsPlain(tok: string)
    requires IsToken(tok)
    ensures forall k :: 0 <= k < |tok| ==> tok[k] != '0' && tok[k] != '"'
  {
  }

  /** A token at the front of the output, delimited there, was delimited at the front of the input. */
  lemma OutputTokenOpensInput(before: Before, before': Before, s: string, tok: string)
    requires Blocks(before) == Blocks(before') && IsToken(tok)
    ensures Opens(before', Emit(before, Outside, s), tok) ==> Opens(before, s, tok)
  {
    var e := Emit(before, Outside, s);
    if Opens(before', e, tok) {
      TokenIsPlain(tok);
      CopiedStretch(before, s, tok);
      FirstByte(After(tok[|tok| - 1]), s[|tok|..]);
    }
  }

  lemma NoTokenOpensOutput(before: Before, before': Before, s: string)
    requires Blocks(before) == Blocks(before')
    ensures TokenHere(before', Emit(before, Outside, s)) == ""
  {
    var e := Emit(before, Outside, s);
    var tok := TokenHere(before', e);
    if tok != "" {
      OutputTokenOpensInput(before, before', s, tok);
      FirstByte(before, s);
      TokenIsPlain(tok);
      FirstOfToken(before', e, tok);
    }
  }

  lemma FirstOfToken(before: Before, s: string, tok: string)
    requires IsToken(tok) && Opens(before, s, tok)
    ensures s != "" && s[0] == tok[0]
  {
  }

  lemma FirstByte(before: Before, s: string)
    ensures s == "" <==> Emit(before, Outside, s) == ""
    ensures s != "" ==>
      Emit(before, Outside, s)[0] == if TokenHere(before, s) != "" then '0' else s[0]
  {
  }

  lemma EmitByte(before: Before, mode: Mode, c: char, rest: string)
    requires mode.Outside? ==> TokenHere(before, [c] + rest) == ""
    ensures Emit(before, mode, [c] + rest) == [c] + Emit(After(c), Next(mode, c), rest)
  {
    assert ([c] + rest)[1..] == rest;
  }

  /** The first byte written, and what follows it. */
  lemma EmitFirst(before: Before, mode: Mode, s: string) returns (c: char, inner: Before, rest: string)
    requires s != ""
    ensures |rest| < |s| && Blocks(inner) == Blocks(After(c))
    ensures Emit(before, mode, s) == [c] + Emit(inner, Next(mode, c), rest)
  {
    var tok := if mode.Outside? then TokenHere(before, s) else "";
    if tok != "" {
      c, inner, rest := '0', After(tok[|tok| - 1]), s[|tok|..];
    } else {
      c, inner, rest := s[0], After(s[0]), s[1..];
    }
  }

  /** Sanitizing what was sanitized changes nothing; the byte before matters only as far as it
      blocks a token. */
  lemma {:induction false} EmitTwice(before: Before, before': Before, mode: Mode, s: string)
    requires Blocks(before) == Blocks(before')
    ensures Emit(before', mode, Emit(before, mode, s)) == Emit(before, mode, s)
    decreases |s|
  {
    if s != "" {
      var c, inner, rest := EmitFirst(before, mode, s);
      if mode.Outside? { NoTokenOpensOutput(before, before', s); }
      EmitByte(before', mode, c, Emit(inner, Next(mode, c), rest));
      EmitTwice(inner, After(c), Next(mode, c), rest);
    }
  }

  lemma SanitizeIdempotent(input: string)
    ensures Sanitized(Sanitized(input)) == Sanitized(input)
  {
    EmitTwice(Start, Start, Outside, input);
  }

  lemma PiecesNext(input: string, i: nat) returns (piece: string)
    requires i < |input|
    ensures Pieces(input, i) == piece + Pieces(input, i + 1) && |piece| <= 1
  {
    piece := Piece(input, i);
  }

  lemma {:induction false} PiecesShort(input: string, j: nat)
    requires j <= |input|
    ensures |Pieces(input, j)| <= |input| - j
    decreases |input| - j
  {
    if j < |input| {
      var piece := PiecesNext(input, j);
      PiecesShort(input, j + 1);
    }
  }

  lemma {:induction false} PiecesShrink(input: string, i: nat, j: nat)
    requires i <= j <= |input|
    ensures |Pieces(input, i)| <= |Pieces(input, j)| + (j - i)
    decreases j - i
  {
    if i < j {
      var piece := PiecesNext(input, i);
      PiecesShrink(input, i + 1, j);
    }
  }

  /** The output holds no delimited token outside strings. */
  lemma NoTokenLeft(input: string, i: nat, tok: string)
    ensures !TokenAt(Sanitized(input), i, tok)
  {
    var out := Sanitized(input);
    if TokenAt(out, i, tok) {
      SanitizeIdempotent(input);
      ReplacesExactlyTheTokens(out);
      InsidePieces(out, i, tok, i + 1);
      PiecesShrink(out, 0, i);
      PiecesShort(out, i + |tok|);
    }
  }
}
