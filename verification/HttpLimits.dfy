/** What the receiving loops make of a request, told from the text of its header alone: which length
    counts as announced, which number a field holds, and which requests are refused. */
module HttpLimits {
  import opened Common
  import opened HttpFraming

  // ---- The name in any spelling

  /** The field name stands at `i`, each letter large or small. */
  predicate Spells(s: string, i: nat) {
    i + 15 <= |s| && forall k :: 0 <= k < 15 ==> s[i + k] in {"content-length:"[k], "CONTENT-LENGTH:"[k]}
  }

  lemma LetterLowers(c: char, k: nat)
    requires k < 15
    ensures Lower(c) == "content-length:"[k] <==> c in {"content-length:"[k], "CONTENT-LENGTH:"[k]}
  {
  }

  lemma SpellsIff(s: string, i: nat)
    ensures Spells(s, i) <==> OccursAt(LowerAll(s), LENGTH_NAME, i)
  {
    if i + 15 <= |s| {
      var there := LowerAll(s)[i..i + 15];
      forall k | 0 <= k < 15 ensures there[k] == "content-length:"[k] <==> s[i + k] in {"content-length:"[k], "CONTENT-LENGTH:"[k]} {
        LetterLowers(s[i + k], k);
      }
      assert there == "content-length:" <==> forall k :: 0 <= k < 15 ==> there[k] == "content-length:"[k];
    }
  }

  // ---- The number in a field

  predicate Spaces(s: string) {
    forall i :: 0 <= i < |s| ==> s[i] in {' ', '\t', '\n', 11 as char, 12 as char, '\r'}
  }

  predicate StartsWithDigit(s: string) { s != "" && '0' <= s[0] <= '9' }

  lemma {:induction false} SkipSpaces(space: string, s: string)
    requires Spaces(space) && (s != "" ==> !IsSpace(s[0]))
    ensures SkipSpace(space + s) == s
  {
    if space == "" {
      assert space + s == s;
    } else {
      assert (space + s)[1..] == space[1..] + s;
      SkipSpaces(space[1..], s);
    }
  }

  lemma {:induction false} DigitsStop(digits: string, rest: string, value: nat)
    requires (forall c :: c in digits ==> IsDigit(c)) && !StartsWithDigit(rest)
    ensures Digits(digits + rest, value) == Digits(digits, value)
    decreases digits
  {
    if digits == "" {
      assert digits + rest == rest;
    } else {
      assert digits[0] in digits && (digits + rest)[1..] == digits[1..] + rest;
      DigitsStop(digits[1..], rest, value * 10 + (digits[0] as nat - '0' as nat));
    }
  }

  lemma {:induction false} ZerosCount(zeros: string, s: string)
    requires forall c :: c in zeros ==> c == '0'
    ensures Digits(zeros + s, 0) == Digits(s, 0)
  {
    if zeros == "" {
      assert zeros + s == s;
    } else {
      assert zeros[0] in zeros && (zeros + s)[1..] == zeros[1..] + s;
      assert forall c :: c in zeros[1..] ==> c in zeros;
      ZerosCount(zeros[1..], s);
    }
  }

  lemma NumeralRead(zeros: string, n: nat, rest: string)
    requires (forall c :: c in zeros ==> c == '0') && !StartsWithDigit(rest)
    ensures Digits(zeros + Decimal(n) + rest, 0) == n
  {
    assert forall c :: c in zeros + Decimal(n) ==> c in zeros || c in Decimal(n);
    DigitsStop(zeros + Decimal(n), rest, 0);
    ZerosCount(zeros, Decimal(n));
    DecimalDigits(n);
  }

  lemma FirstOfNumeral(sign: string, zeros: string, n: nat, rest: string) returns (s: string)
    requires sign in {"", "+", "-"} && forall c :: c in zeros ==> c == '0'
    ensures s == zeros + Decimal(n) + rest && StartsWithDigit(s)
    ensures sign + s != "" && !IsSpace((sign + s)[0])
    ensures sign == "" ==> sign + s == s
    ensures sign != "" ==> (sign + s)[0] == sign[0] && (sign + s)[1..] == s
  {
    s := zeros + Decimal(n) + rest;
    assert Decimal(n)[0] in Decimal(n);
    assert zeros != "" ==> zeros[0] in zeros;
  }

  /** The number read: spaces, a sign and zeros in front are allowed and anything behind the digits is
      ignored; what does not fit 64 bits is the largest that does, and a minus negates modulo 2^64. */
  lemma NumberRead(space: string, sign: string, zeros: string, n: nat, rest: string)
    requires Spaces(space) && sign in {"", "+", "-"} && (forall c :: c in zeros ==> c == '0') && !StartsWithDigit(rest)
    ensures Strtoull(space + (sign + (zeros + Decimal(n) + rest))) ==
      if n >= 0x1_0000_0000_0000_0000 then 0xFFFF_FFFF_FFFF_FFFF
      else if sign == "-" && n > 0 then 0x1_0000_0000_0000_0000 - n
      else n
  {
    var s := FirstOfNumeral(sign, zeros, n, rest);
    SkipSpaces(space, sign + s);
    NumeralRead(zeros, n, rest);
  }

  /** Without a digit behind spaces and sign there is no number, which counts as zero. */
  lemma NoNumberRead(space: string, sign: string, rest: string)
    requires Spaces(space) && sign in {"", "+", "-"} && !StartsWithDigit(rest)
    requires sign == "" && rest != "" ==> rest[0] !in {'+', '-'} && !Spaces(rest[..1])
    ensures Strtoull(space + (sign + rest)) == 0
  {
    if sign == "" {
      assert sign + rest == rest;
      if rest != "" { assert rest[..1][0] == rest[0]; }
    } else {
      assert (sign + rest)[0] == sign[0] && (sign + rest)[1..] == rest;
    }
    SkipSpaces(space, sign + rest);
  }

  // ---- The announced length

  /** A header that nowhere spells the name announces nothing. */
  lemma NoFieldNoLength(header: string)
    requires forall i: nat :: !Spells(header, i)
    ensures ContentLength(header) == 0
  {
    forall i: nat ensures !OccursAt(LowerAll(header), LENGTH_NAME, i) {
      SpellsIff(header, i);
    }
  }

  /** The announced length is the number behind the first spelling of the name, blanks trimmed. */
  lemma FieldRead(pre: string, name: string, lead: string, number: string, trail: string, post: string)
    requires |name| == 15 && Spells(name, 0) && Blank(lead) && Blank(trail) && (post == "" || "\r\n" <= post)
    requires '\r' !in number && (number != "" ==> !IsBlank(number[0]) && !IsBlank(number[|number| - 1]))
    requires forall i: nat :: i < |pre| ==> !Spells(WithField(pre, name, lead + (number + trail), post), i)
    ensures ContentLength(WithField(pre, name, lead + (number + trail), post)) == Strtoull(number)
  {
    var value := lead + (number + trail);
    var header := WithField(pre, name, value, post);
    FieldFound(pre, name, value, post);
    BlanksTrimmed(lead, number, trail);
    ValueIsLine(pre, name, value, post);
  }

  lemma FieldFound(pre: string, name: string, value: string, post: string)
    requires |name| == 15 && Spells(name, 0)
    requires forall i: nat :: i < |pre| ==> !Spells(WithField(pre, name, value, post), i)
    ensures Find(LowerAll(WithField(pre, name, value, post)), LENGTH_NAME, 0) == Some(|pre|)
  {
    var header := WithField(pre, name, value, post);
    SpellsIff(name, 0);
    assert LowerAll(name)[0..15] == LowerAll(name);
    NameFound(pre, name, value, post);
    forall i: nat | i < |pre| ensures !OccursAt(LowerAll(header), LENGTH_NAME, i) {
      SpellsIff(header, i);
    }
    FindIs(LowerAll(header), LENGTH_NAME, 0, |pre|);
  }

  lemma {:induction false} BlankTrimmed(trail: string)
    requires Blank(trail)
    ensures TrimLeft(trail) == ""
  {
    if trail != "" { BlankTrimmed(trail[1..]); }
  }

  lemma BlanksTrimmed(lead: string, number: string, trail: string)
    requires Blank(lead) && Blank(trail) && '\r' !in number
    requires number != "" ==> !IsBlank(number[0]) && !IsBlank(number[|number| - 1])
    ensures TrimRight(TrimLeft(lead + (number + trail))) == number && '\r' !in lead + (number + trail)
  {
    assert forall c :: c in lead + (number + trail) ==> c in lead || c in number || c in trail;
    if number == "" {
      assert lead + (number + trail) == lead + trail && Blank(lead + trail);
      BlankTrimmed(lead + trail);
    } else {
      assert (number + trail)[0] == number[0];
      TrimLeftBlank(lead, number + trail);
      TrimRightBlank(number, trail);
    }
  }

  // ---- The limit a header sets

  ghost predicate Holds(s: string, word: string) { exists i: nat :: OccursAt(s, word, i) }

  /** `line` is the header up to its first line break. */
  ghost predicate FirstLine(header: string, line: string) {
    && line <= header && (|line| < |header| ==> OccursAt(header, "\r\n", |line|))
    && forall i: nat :: i < |line| ==> !OccursAt(header, "\r\n", i)
  }

  /** 256 MiB for an upload, which is told from the first line, and 4 MiB otherwise. */
  lemma LimitOf(header: string, line: string)
    requires FirstLine(header, line)
    ensures MaxBody(header) == if Holds(line, "POST") && Holds(line, "/upload") then 268435456 else 4194304
  {
    FindIs(header, "\r\n", 0, |line|);
    assert header[..|line|] == line;
    assert |line| == |header| ==> line == header;
    assert Find(line, "POST", 0).Some? <==> Holds(line, "POST");
    assert Find(line, "/upload", 0).Some? <==> Holds(line, "/upload");
  }

  // ---- Whole requests

  /** The stream holds a header of acceptable size, ended by its first empty line. */
  ghost predicate Headed(stream: string, header: string, body: string) {
    && stream == header + "\r\n\r\n" + body && |header| + 4 <= 16385
    && forall i: nat :: i < |header| ==> !OccursAt(stream, "\r\n\r\n", i)
  }

  lemma HeadedFacts(stream: string, header: string, body: string)
    requires Headed(stream, header, body)
    ensures HeaderEnd(stream) == Some(|header|) && stream[..|header|] == header
    ensures forall parts :: SplitOf(parts, stream) ==> !HeaderTooLarge(parts)
  {
    assert stream[|header|..|header| + 4] == "\r\n\r\n";
    FindIs(stream, TERMINATOR, 0, |header|);
    NeverRefusedIff(stream);
  }

  /** A request that nowhere names a length is returned at once: its header, its empty line, and no
      more than came with them. */
  lemma NoLengthArrives(parts: seq<string>, stream: string, header: string, body: string)
    requires Headed(stream, header, body) && SplitOf(parts, stream)
    requires forall i: nat :: !Spells(header, i)
    ensures header + "\r\n\r\n" <= Request(parts) <= stream
    ensures |Request(parts)| <= |header| + 4 + 4095
    ensures body == "" ==> Request(parts) == stream
  {
    HeadedFacts(stream, header, body);
    NoFieldNoLength(header);
    ResultIsPrefix(parts, stream);
    assert stream[..|header| + 4] == header + "\r\n\r\n";
  }

  /** A request that announces `n` bytes is refused if and only if `n` is over the limit of its first
      line; else it is returned with all of them that come, and at most 4095 bytes more. */
  lemma AnnouncedOutcome(parts: seq<string>, stream: string, header: string, body: string, line: string,
                         pre: string, name: string, lead: string, n: nat, trail: string, post: string)
    requires Headed(stream, header, body) && SplitOf(parts, stream) && FirstLine(header, line)
    requires |name| == 15 && Spells(name, 0) && Blank(lead) && Blank(trail) && (post == "" || "\r\n" <= post)
    requires header == WithField(pre, name, Padded(lead, n, trail), post)
    requires forall i: nat :: i < |pre| ==> !Spells(header, i)
    ensures Request(parts) == "" <==>
      n > if Holds(line, "POST") && Holds(line, "/upload") then 268435456 else 4194304
    ensures Request(parts) != "" ==> Request(parts) <= stream
    ensures Request(parts) != "" && |body| >= n ==>
      header + "\r\n\r\n" + body[..n] <= Request(parts) && |Request(parts)| <= |header| + 4 + n + 4095
    ensures Request(parts) != "" && |body| < n ==> Request(parts) == stream
  {
    HeadedFacts(stream, header, body);
    LimitOf(header, line);
    AnnouncedIs(pre, name, lead, n, trail, post);
    ResultIsPrefix(parts, stream);
    if |body| >= n && n <= MaxBody(header) {
      assert stream[..|header| + 4 + n] == header + "\r\n\r\n" + body[..n];
    }
  }

  lemma AnnouncedIs(pre: string, name: string, lead: string, n: nat, trail: string, post: string)
    requires |name| == 15 && Spells(name, 0) && Blank(lead) && Blank(trail) && (post == "" || "\r\n" <= post)
    requires forall i: nat :: i < |pre| ==> !Spells(WithField(pre, name, Padded(lead, n, trail), post), i)
    ensures ContentLength(WithField(pre, name, Padded(lead, n, trail), post))
         == if n < 0x1_0000_0000_0000_0000 then n else 0xFFFF_FFFF_FFFF_FFFF
  {
    var digits := Decimal(n);
    assert digits[0] in digits && digits[|digits| - 1] in digits;
    assert '\r' !in digits;
    assert WithField(pre, name, Padded(lead, n, trail), post) == WithField(pre, name, lead + (digits + trail), post);
    FieldRead(pre, name, lead, digits, trail, post);
    StrtoullReadsDecimal(n);
  }
}
