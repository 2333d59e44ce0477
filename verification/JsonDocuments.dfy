/** JSON documents whose numbers may be the three non-standard ones, and what sanitizing their text
    does: the text of the same document with those numbers zero, whatever the whitespace. */
module JsonDocuments {
  import opened Common
  import opened SanitizeJson

  datatype NonFinite = NegativeInfinity | PositiveInfinity | NotANumber

  /** A document as it is written, whitespace included. */
  datatype Json =
    | Scalar(text: string)     // a number, true, false or null
    | Odd(number: NonFinite)
    | Text(body: string)       // a string, as it stands between its quotes
    | Array(blank: string, items: Items)
    | Object(blank: string, members: Members)

  datatype Items = NoItems | Item(lead: string, value: Json, trail: string, rest: Items)

  datatype Members =
    | NoMembers
    | Member(lead: string, key: string, mid: string, gap: string, value: Json, trail: string, rest: Members)

  // ---- Well-formed documents and their text

  predicate Blanks(s: string) {
    forall i :: 0 <= i < |s| ==> s[i] in {' ', '\t', '\n', '\r'}
  }

  predicate ScalarChar(c: char) {
    '0' <= c <= '9' || c in {'+', '-', '.', 'e', 'E'} || c in {'t', 'r', 'u', 'f', 'a', 'l', 's', 'n'}
  }

  predicate ScalarText(s: string) {
    s != "" && forall i :: 0 <= i < |s| ==> ScalarChar(s[i])
  }

  /** Every quote and every backslash within a string is escaped. */
  predicate Escapes(body: string) {
    if body == "" then true
    else if body[0] == '\\' then |body| >= 2 && Escapes(body[2..])
    else body[0] != '"' && Escapes(body[1..])
  }

  predicate WellFormed(v: Json) {
    match v
    case Scalar(text) => ScalarText(text)
    case Odd(_) => true
    case Text(body) => Escapes(body)
    case Array(blank, items) => Blanks(blank) && WellFormedItems(items)
    case Object(blank, members) => Blanks(blank) && WellFormedMembers(members)
  }

  predicate WellFormedItems(items: Items) {
    match items
    case NoItems => true
    case Item(lead, value, trail, rest) =>
      Blanks(lead) && WellFormed(value) && Blanks(trail) && WellFormedItems(rest)
  }

  predicate WellFormedMembers(members: Members) {
    match members
    case NoMembers => true
    case Member(lead, key, mid, gap, value, trail, rest) =>
      && Blanks(lead) && Escapes(key) && Blanks(mid) && Blanks(gap)
      && WellFormed(value) && Blanks(trail) && WellFormedMembers(rest)
  }

  function OddText(number: NonFinite): string {
    match number
    case NegativeInfinity => "-Infinity"
    case PositiveInfinity => "Infinity"
    case NotANumber => "NaN"
  }

  function Quote(body: string): string { "\"" + body + "\"" }

  function Print(v: Json): string {
    match v
    case Scalar(text) => text
    case Odd(number) => OddText(number)
    case Text(body) => Quote(body)
    case Array(blank, items) => "[" + blank + PrintItems(items) + "]"
    case Object(blank, members) => "{" + blank + PrintMembers(members) + "}"
  }

  function PrintItems(items: Items): string {
    match items
    case NoItems => ""
    case Item(lead, value, trail, rest) =>
      lead + Print(value) + trail + (if rest.NoItems? then "" else "," + PrintItems(rest))
  }

  function PrintMembers(members: Members): string {
    match members
    case NoMembers => ""
    case Member(lead, key, mid, gap, value, trail, rest) =>
      lead + Quote(key) + mid + ":" + gap + Print(value) + trail
      + (if rest.NoMembers? then "" else "," + PrintMembers(rest))
  }

  /** The document with its non-standard numbers zero. */
  function Zeroed(v: Json): Json {
    match v
    case Odd(_) => Scalar("0")
    case Array(blank, items) => Array(blank, ZeroedItems(items))
    case Object(blank, members) => Object(blank, ZeroedMembers(members))
    case _ => v
  }

  function ZeroedItems(items: Items): Items {
    match items
    case NoItems => NoItems
    case Item(lead, value, trail, rest) => Item(lead, Zeroed(value), trail, ZeroedItems(rest))
  }

  function ZeroedMembers(members: Members): Members {
    match members
    case NoMembers => NoMembers
    case Member(lead, key, mid, gap, value, trail, rest) =>
      Member(lead, key, mid, gap, Zeroed(value), trail, ZeroedMembers(rest))
  }

  // ---- The output from a place where a value may begin

  function Fresh(s: string): string { Emit(Start, Outside, s) }

  /** No token begins here. */
  predicate Safe(s: string) { s == "" || s[0] !in {'-', 'I', 'N'} }

  /** What may follow a value. */
  predicate Ends(s: string) { s == "" || s[0] in {' ', '\t', '\n', '\r', ',', ']', '}'} }

  lemma NoTokenHere(before: Before, s: string)
    requires Safe(s)
    ensures TokenHere(before, s) == ""
  {
    var tok := TokenHere(before, s);
    if tok != "" {
      FirstOfToken(before, s, tok);
    }
  }

  lemma SafeAnywhere(before: Before, s: string)
    requires Safe(s)
    ensures Emit(before, Outside, s) == Fresh(s)
  {
    NoTokenHere(before, s);
    NoTokenHere(Start, s);
  }

  lemma OpenAnywhere(c: char, s: string)
    requires c in {' ', '\t', '\n', '\r', ':', ',', '['}
    ensures Emit(After(c), Outside, s) == Fresh(s)
  {
    assert forall tok :: Opens(After(c), s, tok) == Opens(Start, s, tok);
    assert TokenHere(After(c), s) == TokenHere(Start, s);
  }

  lemma PlainByte(before: Before, c: char, s: string)
    requires c != '"' && TokenHere(before, [c] + s) == ""
    ensures Emit(before, Outside, [c] + s) == [c] + Emit(After(c), Outside, s)
  {
    EmitByte(before, Outside, c, s);
  }

  /** Ahead of `s`, the text `p` becomes `q`. */
  predicate Turns(p: string, q: string, s: string) { Fresh(p + s) == q + Fresh(s) }

  lemma TurnsTogether(p: string, q: string, p': string, q': string, s: string)
    requires Turns(p, q, p' + s) && Turns(p', q', s)
    ensures Turns(p + p', q + q', s)
  {
    Regroup(p, p', s);
    Regroup(q, q', Fresh(s));
  }

  lemma TurnsByte(c: char, s: string)
    requires c in {' ', '\t', '\n', '\r', ':', ',', '['} || (c in {'{', '}', ']'} && Safe(s))
    ensures Turns([c], [c], s)
  {
    NoTokenHere(Start, [c] + s);
    PlainByte(Start, c, s);
    if c in {'{', '}', ']'} { SafeAnywhere(After(c), s); } else { OpenAnywhere(c, s); }
  }

  lemma {:induction false} TurnsBlanks(blank: string, s: string)
    requires Blanks(blank)
    ensures Turns(blank, blank, s)
  {
    if blank == "" {
      assert blank + s == s && "" + Fresh(s) == Fresh(s);
    } else {
      var rest := blank[1..];
      TurnsBlanks(rest, s);
      TurnsByte(blank[0], rest + s);
      TurnsTogether([blank[0]], [blank[0]], rest, rest, s);
      assert [blank[0]] + rest == blank;
    }
  }

  // ---- Strings

  /** Ahead of `s`, the text `p` is copied, from one place and string state to another. */
  predicate Copies(before: Before, mode: Mode, p: string, after: Before, mode': Mode, s: string) {
    Emit(before, mode, p + s) == p + Emit(after, mode', s)
  }

  lemma CopiesTogether(b: Before, m: Mode, p: string, b': Before, m': Mode, p': string, b'': Before, m'': Mode, s: string)
    requires Copies(b, m, p, b', m', p' + s) && Copies(b', m', p', b'', m'', s)
    ensures Copies(b, m, p + p', b'', m'', s)
  {
    Regroup(p, p', s);
    Regroup(p, p', Emit(b'', m'', s));
  }

  lemma CopiesByte(before: Before, mode: Mode, c: char, s: string)
    requires !mode.Outside? || c == '"'
    ensures Copies(before, mode, [c], After(c), Next(mode, c), s)
  {
    if mode.Outside? { NoTokenHere(before, [c] + s); }
    EmitByte(before, mode, c, s);
  }

  /** The rest of a string, with its closing quote. */
  lemma {:induction false} BodyCopied(before: Before, body: string, s: string)
    requires Escapes(body)
    ensures Copies(before, Inside, body + "\"", After('"'), Outside, s)
    decreases |body|
  {
    if body == "" {
      CopiesByte(before, Inside, '"', s);
      assert body + "\"" == ['"'];
    } else if body[0] == '\\' {
      var pair, rest := ['\\'] + [body[1]], body[2..] + "\"";
      BodyCopied(After(body[1]), body[2..], s);
      CopiesByte(before, Inside, '\\', [body[1]] + (rest + s));
      CopiesByte(After('\\'), Escaped, body[1], rest + s);
      CopiesTogether(before, Inside, ['\\'], After('\\'), Escaped, [body[1]], After(body[1]), Inside, rest + s);
      CopiesTogether(before, Inside, pair, After(body[1]), Inside, rest, After('"'), Outside, s);
      assert body + "\"" == pair + rest;
    } else {
      var c, rest := body[0], body[1..] + "\"";
      BodyCopied(After(c), body[1..], s);
      CopiesByte(before, Inside, c, rest + s);
      CopiesTogether(before, Inside, [c], After(c), Inside, rest, After('"'), Outside, s);
      assert body + "\"" == [c] + rest;
    }
  }

  lemma TurnsQuote(body: string, s: string)
    requires Escapes(body) && Safe(s)
    ensures Turns(Quote(body), Quote(body), s)
  {
    var rest := body + "\"";
    CopiesByte(Start, Outside, '"', rest + s);
    BodyCopied(After('"'), body, s);
    CopiesTogether(Start, Outside, ['"'], After('"'), Inside, rest, After('"'), Outside, s);
    SafeAnywhere(After('"'), s);
    assert Quote(body) == ['"'] + rest;
  }

  // ---- Numbers and words

  lemma SecondOfToken(before: Before, s: string, tok: string)
    requires IsToken(tok) && Opens(before, s, tok) && s[0] == '-'
    ensures |s| >= 2 && s[1] == 'I'
  {
    assert tok[0] == s[..|tok|][0] == '-';
    assert s[1] == s[..|tok|][1];
  }

  lemma NoTokenAtScalar(before: Before, c: char, s: string)
    requires ScalarChar(c) && (s == "" || s[0] != 'I')
    ensures TokenHere(before, [c] + s) == ""
  {
    if c == '-' {
      var tok := TokenHere(before, [c] + s);
      if tok != "" { SecondOfToken(before, [c] + s, tok); }
    } else {
      NoTokenHere(before, [c] + s);
    }
  }

  lemma ScalarByte(before: Before, c: char, s: string)
    requires ScalarChar(c) && (s == "" || s[0] != 'I')
    ensures Copies(before, Outside, [c], After(c), Outside, s)
  {
    NoTokenAtScalar(before, c, s);
    PlainByte(before, c, s);
  }

  lemma {:induction false} ScalarCopied(before: Before, text: string, s: string)
    requires (forall i :: 0 <= i < |text| ==> ScalarChar(text[i])) && Ends(s)
    ensures Copies(before, Outside, text, Start, Outside, s)
    decreases |text|
  {
    if text == "" {
      assert text + s == s && text + Fresh(s) == Fresh(s);
      SafeAnywhere(before, s);
    } else {
      var c, rest := text[0], text[1..];
      assert rest == "" ==> rest + s == s;
      ScalarByte(before, c, rest + s);
      ScalarCopied(After(c), rest, s);
      CopiesTogether(before, Outside, [c], After(c), Outside, rest, Start, Outside, s);
      assert [c] + rest == text;
    }
  }

  /** A non-standard number becomes a zero before whatever may follow a value. */
  lemma OddZeroed(number: NonFinite, s: string)
    requires Ends(s)
    ensures Turns(OddText(number), "0", s)
  {
    var tok := OddText(number);
    assert (tok + s)[..|tok|] == tok && (tok + s)[|tok|..] == s;
    assert Opens(Start, tok + s, tok);
    OneToken(Start, tok + s, tok);
    SafeAnywhere(After(tok[|tok| - 1]), s);
  }

  // ---- Documents

  lemma {:induction false} ValueZeroed(v: Json, s: string)
    requires WellFormed(v) && Ends(s)
    ensures Turns(Print(v), Print(Zeroed(v)), s)
    decreases v
  {
    match v
    case Scalar(text) => ScalarCopied(Start, text, s);
    case Odd(number) => OddZeroed(number, s);
    case Text(body) => TurnsQuote(body, s);
    case Array(blank, items) =>
      ItemsZeroed(items, "]" + s);
      BetweenBrackets('[', blank, PrintItems(items), PrintItems(ZeroedItems(items)), ']', s);
    case Object(blank, members) =>
      MembersZeroed(members, "}" + s);
      PrintMembersSafe(members, "}" + s);
      BetweenBrackets('{', blank, PrintMembers(members), PrintMembers(ZeroedMembers(members)), '}', s);
  }

  lemma BetweenBrackets(open: char, blank: string, p: string, q: string, close: char, s: string)
    requires (open == '[' && close == ']') || (open == '{' && close == '}' && Safe(p + ("}" + s)))
    requires Blanks(blank) && Ends(s) && Turns(p, q, [close] + s)
    ensures Turns([open] + blank + p + [close], [open] + blank + q + [close], s)
  {
    TurnsByte(close, s);
    TurnsBlanks(blank, p + ([close] + s));
    BlanksSafe(blank, p + ([close] + s));
    TurnsByte(open, blank + (p + ([close] + s)));
    TurnsTogether([open], [open], blank, blank, p + ([close] + s));
    TurnsTogether([open] + blank, [open] + blank, p, q, [close] + s);
    TurnsTogether([open] + blank + p, [open] + blank + q, [close], [close], s);
  }

  lemma BlanksSafe(blank: string, s: string)
    requires Blanks(blank)
    ensures Safe(s) ==> Safe(blank + s)
    ensures Ends(s) ==> Ends(blank + s)
    ensures s != "" && s[0] == ':' ==> Safe(blank + s)
  {
    if blank == "" {
      assert blank + s == s;
    } else {
      assert (blank + s)[0] == blank[0];
    }
  }

  /** A value between blanks. */
  lemma PaddedZeroed(lead: string, v: Json, trail: string, s: string)
    requires Blanks(lead) && WellFormed(v) && Blanks(trail) && Ends(s)
    requires Turns(Print(v), Print(Zeroed(v)), trail + s)
    ensures Turns(lead + Print(v) + trail, lead + Print(Zeroed(v)) + trail, s)
  {
    TurnsBlanks(trail, s);
    TurnsBlanks(lead, Print(v) + (trail + s));
    TurnsTogether(lead, lead, Print(v), Print(Zeroed(v)), trail + s);
    TurnsTogether(lead + Print(v), lead + Print(Zeroed(v)), trail, trail, s);
  }

  lemma {:induction false} ItemsZeroed(items: Items, s: string)
    requires WellFormedItems(items) && s != "" && s[0] == ']'
    ensures Turns(PrintItems(items), PrintItems(ZeroedItems(items)), s)
    decreases items
  {
    match items
    case NoItems => assert "" + s == s && "" + Fresh(s) == Fresh(s);
    case Item(lead, value, trail, rest) =>
      var more := if rest.NoItems? then "" else "," + PrintItems(rest);
      var zeroed := if rest.NoItems? then "" else "," + PrintItems(ZeroedItems(rest));
      ItemsZeroed(rest, s);
      MoreZeroed(PrintItems(rest), PrintItems(ZeroedItems(rest)), rest.NoItems?, s);
      BlanksSafe(trail, more + s);
      ValueZeroed(value, trail + (more + s));
      PaddedZeroed(lead, value, trail, more + s);
      TurnsTogether(lead + Print(value) + trail, lead + Print(Zeroed(value)) + trail, more, zeroed, s);
  }

  /** What follows an element: nothing, or a comma and the others. */
  lemma MoreZeroed(p: string, q: string, last: bool, s: string)
    requires Turns(p, q, s) && s != "" && s[0] in {']', '}'}
    ensures var more, zeroed := if last then "" else "," + p, if last then "" else "," + q;
      Turns(more, zeroed, s) && Ends(more + s)
  {
    if last {
      assert "" + s == s && "" + Fresh(s) == Fresh(s);
    } else {
      TurnsByte(',', p + s);
      TurnsTogether(",", ",", p, q, s);
      assert ("," + p + s)[0] == ',';
    }
  }

  lemma PrintMembersSafe(members: Members, s: string)
    requires WellFormedMembers(members) && s != "" && s[0] == '}'
    ensures Safe(PrintMembers(members) + s)
  {
    if members.Member? {
      var text := PrintMembers(members);
      assert text[0] == (members.lead + Quote(members.key))[0];
      assert Quote(members.key)[0] == '"';
    } else {
      assert "" + s == s;
    }
  }

  /** A key with its colon. */
  lemma KeyCopied(lead: string, key: string, mid: string, s: string)
    requires Blanks(lead) && Escapes(key) && Blanks(mid)
    ensures Turns(lead + Quote(key) + mid + ":", lead + Quote(key) + mid + ":", s)
  {
    TurnsByte(':', s);
    TurnsBlanks(mid, ":" + s);
    assert (":" + s)[0] == ':';
    BlanksSafe(mid, ":" + s);
    TurnsQuote(key, mid + (":" + s));
    TurnsBlanks(lead, Quote(key) + (mid + (":" + s)));
    TurnsTogether(lead, lead, Quote(key), Quote(key), mid + (":" + s));
    TurnsTogether(lead + Quote(key), lead + Quote(key), mid, mid, ":" + s);
    TurnsTogether(lead + Quote(key) + mid, lead + Quote(key) + mid, ":", ":", s);
  }

  lemma {:induction false} MembersZeroed(members: Members, s: string)
    requires WellFormedMembers(members) && s != "" && s[0] == '}'
    ensures Turns(PrintMembers(members), PrintMembers(ZeroedMembers(members)), s)
    decreases members
  {
    match members
    case NoMembers => assert "" + s == s && "" + Fresh(s) == Fresh(s);
    case Member(lead, key, mid, gap, value, trail, rest) =>
      var more := if rest.NoMembers? then "" else "," + PrintMembers(rest);
      var zeroed := if rest.NoMembers? then "" else "," + PrintMembers(ZeroedMembers(rest));
      MembersZeroed(rest, s);
      MoreZeroed(PrintMembers(rest), PrintMembers(ZeroedMembers(rest)), rest.NoMembers?, s);
      BlanksSafe(trail, more + s);
      ValueZeroed(value, trail + (more + s));
      PaddedZeroed(gap, value, trail, more + s);
      MemberTogether(lead, key, mid, gap + Print(value) + trail, gap + Print(Zeroed(value)) + trail, more, zeroed, s);
      MemberText(lead + Quote(key) + mid + ":", gap, Print(value), trail, more);
      MemberText(lead + Quote(key) + mid + ":", gap, Print(Zeroed(value)), trail, zeroed);
  }

  lemma MemberText(head: string, gap: string, value: string, trail: string, more: string)
    ensures head + (gap + value + trail) + more == head + gap + value + trail + more
  {
  }

  lemma MemberTogether(lead: string, key: string, mid: string, p: string, q: string, more: string, zeroed: string, s: string)
    requires Blanks(lead) && Escapes(key) && Blanks(mid) && Turns(p, q, more + s) && Turns(more, zeroed, s)
    ensures var head := lead + Quote(key) + mid + ":"; Turns(head + p + more, head + q + zeroed, s)
  {
    var head := lead + Quote(key) + mid + ":";
    KeyCopied(lead, key, mid, p + (more + s));
    TurnsTogether(head, head, p, q, more + s);
    TurnsTogether(head + p, head + q, more, zeroed, s);
  }

  /** Sanitizing the text of a document gives the text of the document with its non-standard numbers
      zero: every value, every whitespace. */
  lemma SanitizedDocument(pre: string, v: Json, post: string)
    requires Blanks(pre) && WellFormed(v) && Blanks(post)
    ensures Sanitized(pre + Print(v) + post) == pre + Print(Zeroed(v)) + post
  {
    TurnsBlanks(post, "");
    assert post + "" == post && Fresh("") == "" && post + Fresh("") == post;
    BlanksSafe(post, "");
    ValueZeroed(v, post);
    TurnsBlanks(pre, Print(v) + post);
    Regroup(pre, Print(v), post);
    Regroup(pre, Print(Zeroed(v)), post);
  }

  // ---- The zeroed document

  predicate Finite(v: Json) {
    match v
    case Odd(_) => false
    case Array(_, items) => FiniteItems(items)
    case Object(_, members) => FiniteMembers(members)
    case _ => true
  }

  predicate FiniteItems(items: Items) {
    items.Item? ==> Finite(items.value) && FiniteItems(items.rest)
  }

  predicate FiniteMembers(members: Members) {
    members.Member? ==> Finite(members.value) && FiniteMembers(members.rest)
  }

  /** It is well-formed standard JSON, and a document that already was is left alone. */
  lemma {:induction false} ZeroedFinite(v: Json)
    ensures Finite(Zeroed(v)) && (WellFormed(v) ==> WellFormed(Zeroed(v)))
    ensures Zeroed(v) == v <==> Finite(v)
    decreases v
  {
    match v
    case Array(_, items) => ZeroedItemsFinite(items);
    case Object(_, members) => ZeroedMembersFinite(members);
    case _ =>
  }

  lemma {:induction false} ZeroedItemsFinite(items: Items)
    ensures FiniteItems(ZeroedItems(items)) && (WellFormedItems(items) ==> WellFormedItems(ZeroedItems(items)))
    ensures ZeroedItems(items) == items <==> FiniteItems(items)
    decreases items
  {
    if items.Item? {
      ZeroedFinite(items.value);
      ZeroedItemsFinite(items.rest);
    }
  }

  lemma {:induction false} ZeroedMembersFinite(members: Members)
    ensures FiniteMembers(ZeroedMembers(members))
    ensures WellFormedMembers(members) ==> WellFormedMembers(ZeroedMembers(members))
    ensures ZeroedMembers(members) == members <==> FiniteMembers(members)
    decreases members
  {
    if members.Member? {
      ZeroedFinite(members.value);
      ZeroedMembersFinite(members.rest);
    }
  }

  // ---- Which neighbours delimit a token

  lemma {:induction false} ModeOfPrefix(pre: string, rest: string, k: nat)
    requires k <= |pre|
    ensures ModeAt(pre + rest, k) == ModeAt(pre, k)
  {
    if k > 0 { ModeOfPrefix(pre, rest, k - 1); }
  }

  lemma SameWord(input: string, i: nat, tok: string, t: string)
    requires IsToken(tok) && IsToken(t) && i + |tok| <= |input| && input[i..i + |tok|] == tok && HasToken(input, i, t)
    ensures t == tok
  {
    assert input[i..i + |tok|][0] == input[i] == input[i..i + |t|][0];
  }

  lemma DelimitedIff(pre: string, number: NonFinite, post: string)
    ensures HasToken(pre + OddText(number) + post, |pre|, OddText(number)) <==>
      && (pre == "" || pre[|pre| - 1] in {' ', '\t', '\n', '\r', ':', ',', '['})
      && (post == "" || post[0] in {' ', '\t', '\n', '\r', ',', ']', '}'})
  {
    var tok := OddText(number);
    var input := pre + tok + post;
    assert input[|pre|..|pre| + |tok|] == tok;
    assert pre != "" ==> input[|pre| - 1] == pre[|pre| - 1];
    assert post != "" ==> input[|pre| + |tok|] == post[0];
  }

  lemma StartsIffToken(input: string, i: nat, tok: string)
    requires i < |input| && ModeAt(input, i).Outside? && IsToken(tok)
    requires i + |tok| <= |input| && input[i..i + |tok|] == tok
    ensures StartsToken(input, i) <==> HasToken(input, i, tok)
  {
    if HasToken(input, i, tok) {
      assert TokenAt(input, i, tok);
    }
    if t :| TokenAt(input, i, t) {
      SameWord(input, i, tok, t);
    }
  }

  lemma ZeroIffStarts(input: string, i: nat)
    requires i < |input| && input[i] != '0'
    ensures Piece(input, i) == "0" <==> StartsToken(input, i)
  {
  }

  lemma TokenStart(tok: string)
    requires IsToken(tok)
    ensures tok != "" && tok[0] != '0'
  {
  }

  lemma Between(pre: string, mid: string, post: string) returns (input: string)
    requires mid != ""
    ensures input == pre + mid + post && |pre| + |mid| <= |input|
    ensures input[|pre|..|pre| + |mid|] == mid && input[|pre|] == mid[0]
    ensures ModeAt(input, |pre|) == ModeAt(pre, |pre|)
  {
    input := pre + mid + post;
    assert input == pre + (mid + post);
    ModeOfPrefix(pre, mid + post, |pre|);
  }

  lemma ZeroIffToken(pre: string, tok: string, post: string)
    requires ModeAt(pre, |pre|).Outside? && IsToken(tok)
    ensures Piece(pre + tok + post, |pre|) == "0" <==> HasToken(pre + tok + post, |pre|, tok)
  {
    TokenStart(tok);
    var input := Between(pre, tok, post);
    StartsIffToken(input, |pre|, tok);
    ZeroIffStarts(input, |pre|);
  }

  /** In any text, outside strings: one of the three words becomes a zero if and only if it stands at
      either end of the text or next to the characters that can stand there in JSON. */
  lemma ZeroIffDelimited(pre: string, number: NonFinite, post: string)
    requires ModeAt(pre, |pre|).Outside?
    ensures Piece(pre + OddText(number) + post, |pre|) == "0" <==>
      && (pre == "" || pre[|pre| - 1] in {' ', '\t', '\n', '\r', ':', ',', '['})
      && (post == "" || post[0] in {' ', '\t', '\n', '\r', ',', ']', '}'})
  {
    DelimitedIff(pre, number, post);
    ZeroIffToken(pre, OddText(number), post);
  }
}
