/** Reading one HTTP request off a socket that may deliver it in any pieces, and writing all of a
    buffer to a socket that may take it in any pieces. Bytes are characters. */
module HttpFraming {
  import opened Common

  const MAX_HEADER_SIZE := 16384
  const MAX_BODY_BYTES := 4 * 1024 * 1024
  const MAX_UPLOAD_BYTES := 256 * 1024 * 1024
  const READ_SIZE := 4096
  const TERMINATOR := "\r\n\r\n"

  // ---- Searching

  predicate OccursAt(s: string, pat: string, i: nat) {
    i + |pat| <= |s| && s[i..i + |pat|] == pat
  }

  /** std::string::find from a position. */
  function Find(s: string, pat: string, from: nat): (r: Option<nat>)
    ensures r.Some? ==> from <= r.value && OccursAt(s, pat, r.value)
    ensures r.Some? ==> forall i: nat :: from <= i < r.value ==> !OccursAt(s, pat, i)
    ensures r.None? ==> forall i: nat :: from <= i ==> !OccursAt(s, pat, i)
    decreases |s| - from
  {
    if from + |pat| > |s| then None
    else if OccursAt(s, pat, from) then Some(from)
    else Find(s, pat, from + 1)
  }

  /** What is found in a prefix is what is found in the whole, if it ends within the prefix. */
  lemma FindInPrefix(s: string, pat: string, n: nat)
    requires n <= |s|
    ensures Find(s[..n], pat, 0) == (var f := Find(s, pat, 0); if f.Some? && f.value + |pat| <= n then f else None)
  {
    forall i: nat | i + |pat| <= n ensures OccursAt(s[..n], pat, i) == OccursAt(s, pat, i) {
      assert s[..n][i..i + |pat|] == s[i..i + |pat|];
    }
  }

  // ---- The header fields that decide how much to read

  function LowerAll(s: string): (r: string)
    ensures |r| == |s|
  {
    seq(|s|, i requires 0 <= i < |s| => Lower(s[i]))
  }

  predicate IsBlank(c: char) { c == ' ' || c == '\t' }

  function TrimLeft(s: string): string {
    if s != "" && IsBlank(s[0]) then TrimLeft(s[1..]) else s
  }

  function TrimRight(s: string): string {
    if s != "" && IsBlank(s[|s| - 1]) then TrimRight(s[..|s| - 1]) else s
  }

  const ULLONG_RANGE := 0x1_0000_0000_0000_0000

  predicate IsSpace(c: char) { c == ' ' || ('\t' <= c <= '\r') }

  predicate IsDigit(c: char) { '0' <= c <= '9' }

  function SkipSpace(s: string): string {
    if s != "" && IsSpace(s[0]) then SkipSpace(s[1..]) else s
  }

  function Digits(s: string, value: nat): nat
    decreases s
  {
    if s != "" && IsDigit(s[0]) then Digits(s[1..], value * 10 + (s[0] as nat - '0' as nat)) else value
  }

  /** std::strtoull in base 10: leading space, an optional sign, digits; saturating, and negating
      modulo 2^64 after a minus sign. */
  function Strtoull(s: string): (r: nat)
    ensures r < ULLONG_RANGE
  {
    var t := SkipSpace(s);
    var negative := t != "" && t[0] == '-';
    var u := if t != "" && (t[0] == '-' || t[0] == '+') then t[1..] else t;
    var v := Digits(u, 0);
    if v >= ULLONG_RANGE then ULLONG_RANGE - 1
    else if negative && v > 0 then ULLONG_RANGE - v
    else v
  }

  const LENGTH_NAME := "content-length:"

  function ContentLength(header: string): nat {
    var lower := LowerAll(header);
    var at := Find(lower, LENGTH_NAME, 0);
    if at.None? then 0 else Strtoull(TrimRight(TrimLeft(LineFrom(header, at.value + 15))))
  }

  /** From a position to the end of its line. */
  function LineFrom(header: string, start: nat): string
    requires start <= |header|
  {
    var lineEnd := Find(LowerAll(header), "\r\n", start);
    header[start..if lineEnd.Some? then lineEnd.value else |header|]
  }

  function MaxBody(header: string): nat {
    var lineEnd := Find(header, "\r\n", 0);
    var line := if lineEnd.Some? then header[..lineEnd.value] else header;
    if Find(line, "POST", 0).Some? && Find(line, "/upload", 0).Some? then MAX_UPLOAD_BYTES else MAX_BODY_BYTES
  }

  // ---- What a request is, told from the stream and the read boundaries

  predicate Delivered(parts: seq<string>) {
    forall i :: 0 <= i < |parts| ==> 1 <= |parts[i]| <= READ_SIZE
  }

  function Flat(parts: seq<string>): string {
    if parts == [] then "" else parts[0] + Flat(parts[1..])
  }

  /** Bytes delivered by the first `j` reads. */
  function Boundary(parts: seq<string>, j: nat): nat
    requires j <= |parts|
  {
    |Flat(parts[..j])|
  }

  function HeaderEnd(stream: string): Option<nat> { Find(stream, TERMINATOR, 0) }

  /** After some read more than the header limit has arrived and the header is not complete. */
  ghost predicate HeaderTooLarge(parts: seq<string>) {
    exists j :: 0 <= j <= |parts| && Overfull(parts, j)
  }

  ghost predicate Overfull(parts: seq<string>, j: nat)
    requires j <= |parts|
  {
    var h := HeaderEnd(Flat(parts));
    Boundary(parts, j) > MAX_HEADER_SIZE && (h.Some? ==> Boundary(parts, j) < h.value + 4)
  }

  /** The first boundary at or past `need`, or the end of the stream. */
  function UpTo(parts: seq<string>, need: nat): nat {
    if parts == [] || need == 0 then 0
    else if |parts[0]| >= need then |parts[0]|
    else |parts[0]| + UpTo(parts[1..], need - |parts[0]|)
  }

  function Need(header: string): nat { |header| + 4 + ContentLength(header) }

  ghost function Request(parts: seq<string>): string {
    var stream := Flat(parts);
    var h := HeaderEnd(stream);
    if HeaderTooLarge(parts) then ""
    else if h.None? then stream
    else
      var header := stream[..h.value];
      if ContentLength(header) > MaxBody(header) then ""
      else stream[..UpToBound(parts, Need(header))]
  }

  lemma {:induction false} UpToFits(parts: seq<string>, need: nat)
    ensures UpTo(parts, need) <= |Flat(parts)|
    ensures UpTo(parts, need) >= need || UpTo(parts, need) == |Flat(parts)|
    ensures Delivered(parts) ==> UpTo(parts, need) < need + READ_SIZE
  {
    if parts != [] && need > |parts[0]| {
      UpToFits(parts[1..], need - |parts[0]|);
    }
  }

  function UpToBound(parts: seq<string>, need: nat): (n: nat)
    ensures n == UpTo(parts, need) && n <= |Flat(parts)|
  {
    UpToFits(parts, need);
    UpTo(parts, need)
  }

  lemma {:induction false} FlatAppend(a: seq<string>, b: seq<string>)
    ensures Flat(a + b) == Flat(a) + Flat(b)
  {
    if a == [] {
      assert a + b == b;
    } else {
      assert (a + b)[1..] == a[1..] + b;
      FlatAppend(a[1..], b);
    }
  }

  lemma FlatPrefix(parts: seq<string>, j: nat)
    requires j <= |parts|
    ensures Boundary(parts, j) <= |Flat(parts)| && Flat(parts[..j]) == Flat(parts)[..Boundary(parts, j)]
  {
    FlatAppend(parts[..j], parts[j..]);
    assert parts == parts[..j] + parts[j..];
  }

  lemma FlatNext(parts: seq<string>, j: nat)
    requires j < |parts|
    ensures Flat(parts[..j + 1]) == Flat(parts[..j]) + parts[j]
    ensures Boundary(parts, j + 1) == Boundary(parts, j) + |parts[j]|
  {
    FlatAppend(parts[..j], [parts[j]]);
    assert parts[..j + 1] == parts[..j] + [parts[j]];
    assert Flat([parts[j]]) == parts[j] + Flat([]);
  }

  lemma {:induction false} BoundaryMonotone(parts: seq<string>, i: nat, j: nat)
    requires i <= j <= |parts|
    ensures Boundary(parts, i) <= Boundary(parts, j)
    decreases j - i
  {
    if i < j {
      BoundaryMonotone(parts, i, j - 1);
      FlatNext(parts, j - 1);
    }
  }

  /** The boundary where reading stops: the first that reaches `need`. */
  lemma {:induction false} UpToIs(parts: seq<string>, need: nat, j: nat)
    requires j <= |parts|
    requires forall i :: 0 <= i < j ==> Boundary(parts, i) < need
    requires Boundary(parts, j) >= need || j == |parts|
    ensures UpTo(parts, need) == Boundary(parts, j)
    decreases |parts|
  {
    assert Flat(parts[..0]) == "";
    if j > 0 {
      assert Boundary(parts, 0) < need;
      var n := |parts[0]|;
      forall i | 1 <= i <= |parts| ensures Boundary(parts, i) == n + Boundary(parts[1..], i - 1) {
        assert parts[..i][1..] == parts[1..][..i - 1];
      }
      if j == 1 {
        assert Boundary(parts[1..], 0) == 0;
        if n < need { assert parts[1..] == []; }
      } else {
        assert Boundary(parts, 1) < need && Boundary(parts[1..], 0) == 0;
        forall i | 0 <= i < j - 1 ensures Boundary(parts[1..], i) < need - n {
          assert Boundary(parts, i + 1) < need;
        }
        UpToIs(parts[1..], need - n, j - 1);
      }
    }
  }

  // ---- The receiving loops

  /** The receiving side of a socket: what each coming `recv` will deliver. */
  class Wire {
    var pending: seq<string>

    constructor (pending: seq<string>)
      ensures this.pending == pending
    {
      this.pending := pending;
    }

    /** The empty string stands for a closed connection, an error or a timeout. */
    method Recv() returns (piece: string)
      modifies this
      ensures old(pending) == [] ==> piece == "" && pending == []
      ensures old(pending) != [] ==> piece == old(pending)[0] && pending == old(pending)[1..]
    {
      if pending == [] {
        piece := "";
      } else {
        piece, pending := pending[0], pending[1..];
      }
    }
  }

  /** `buf` holds the first `j` reads and the rest is still pending. */
  ghost predicate Received(parts: seq<string>, j: nat, buf: string, pending: seq<string>) {
    j <= |parts| && buf == Flat(parts[..j]) && pending == parts[j..]
  }

  /** No header end within the first `j` reads, at no point too much. */
  ghost predicate Searching(parts: seq<string>, j: nat)
    requires j <= |parts|
  {
    forall i :: 0 <= i < j ==> NoHeaderIn(parts, i) && !Overfull(parts, i)
  }

  ghost predicate NoHeaderIn(parts: seq<string>, i: nat)
    requires i <= |parts|
  {
    HeaderEnd(Flat(parts[..i])).None?
  }

  lemma HeaderInPrefix(parts: seq<string>, j: nat)
    requires j <= |parts|
    ensures HeaderEnd(Flat(parts[..j])) ==
      (var h := HeaderEnd(Flat(parts)); if h.Some? && h.value + 4 <= Boundary(parts, j) then h else None)
    ensures Overfull(parts, j) == (Boundary(parts, j) > MAX_HEADER_SIZE && NoHeaderIn(parts, j))
  {
    FlatPrefix(parts, j);
    FindInPrefix(Flat(parts), TERMINATOR, Boundary(parts, j));
  }

  /** Once the header is complete it stays so. */
  lemma NeverTooLarge(parts: seq<string>, j: nat)
    requires j <= |parts| && Searching(parts, j) && !Overfull(parts, j)
    requires j == |parts| || !NoHeaderIn(parts, j)
    ensures !HeaderTooLarge(parts)
  {
    forall i | 0 <= i <= |parts| ensures !Overfull(parts, i) {
      if i > j {
        HeaderInPrefix(parts, i);
        HeaderInPrefix(parts, j);
        BoundaryMonotone(parts, j, i);
      }
    }
  }

  /** The second loop: read on until the body is complete, or the stream ends. */
  method RecvBody(wire: Wire, start: string, bodyOffset: nat, contentLength: nat, maxBody: nat,
                  ghost parts: seq<string>, ghost first: nat)
    returns (buf: string)
    requires Delivered(parts) && Received(parts, first, start, wire.pending)
    requires contentLength <= maxBody
    requires forall i :: 0 <= i < first ==> Boundary(parts, i) < bodyOffset + contentLength
    modifies wire
    ensures buf == Flat(parts)[..UpToBound(parts, bodyOffset + contentLength)]
    ensures exists j :: 0 <= j <= |parts| && wire.pending == parts[j..]
  {
    buf := start;
    ghost var j := first;
    var totalNeeded := bodyOffset + contentLength;
    while |buf| < totalNeeded
      invariant Received(parts, j, buf, wire.pending)
      invariant forall i :: 0 <= i < j ==> Boundary(parts, i) < totalNeeded
      decreases |wire.pending|
    {
      var piece := wire.Recv();
      if piece == "" {
        break;
      }
      FlatNext(parts, j);
      buf := buf + piece;
      j := j + 1;
      if |buf| > bodyOffset + maxBody {
        break;
      }
    }
    FlatPrefix(parts, j);
    UpToIs(parts, totalNeeded, j);
  }

  /** One more read, and still no header. */
  lemma StillSearching(parts: seq<string>, j: nat)
    requires j < |parts| && Searching(parts, j) && NoHeaderIn(parts, j) && !Overfull(parts, j)
    ensures Searching(parts, j + 1)
    ensures Flat(parts[..j + 1]) == Flat(parts[..j]) + parts[j] && parts[j..][1..] == parts[j + 1..]
    ensures Overfull(parts, j + 1) <==> Boundary(parts, j + 1) > MAX_HEADER_SIZE && NoHeaderIn(parts, j + 1)
  {
    FlatNext(parts, j);
    HeaderInPrefix(parts, j + 1);
  }

  /** The stream ended before the header did. */
  lemma NoHeader(parts: seq<string>)
    requires Searching(parts, |parts|) && NoHeaderIn(parts, |parts|) && !Overfull(parts, |parts|)
    ensures Request(parts) == Flat(parts) && parts[..|parts|] == parts
  {
    assert parts[..|parts|] == parts;
    NeverTooLarge(parts, |parts|);
  }

  /** The header is complete with the `j`-th read. */
  lemma HeaderFound(parts: seq<string>, j: nat)
    requires j <= |parts| && Searching(parts, j) && !NoHeaderIn(parts, j) && !Overfull(parts, j)
    ensures var buf := Flat(parts[..j]); var h := HeaderEnd(buf);
      && HeaderEnd(Flat(parts)) == h
      && buf[..h.value] == Flat(parts)[..h.value]
      && !HeaderTooLarge(parts)
      && forall i :: 0 <= i < j ==> Boundary(parts, i) < h.value + 4
  {
    HeaderInPrefix(parts, j);
    FlatPrefix(parts, j);
    NeverTooLarge(parts, j);
    forall i | 0 <= i < j ensures Boundary(parts, i) < HeaderEnd(Flat(parts)).value + 4 {
      assert NoHeaderIn(parts, i);
      HeaderInPrefix(parts, i);
    }
  }

  /** The first loop: read until the header is complete. Nothing is returned as the header if the
      stream ended first or too much came without one. */
  method RecvHeader(wire: Wire) returns (buf: string, headerEnd: Option<nat>, ghost j: nat)
    requires Delivered(wire.pending)
    modifies wire
    ensures j <= |old(wire.pending)| && wire.pending == old(wire.pending)[j..]
    ensures headerEnd.None? ==> buf == Request(old(wire.pending))
    ensures headerEnd.Some? ==> Received(old(wire.pending), j, buf, wire.pending) && headerEnd == HeaderEnd(buf)
    ensures headerEnd.Some? ==> Searching(old(wire.pending), j) && !Overfull(old(wire.pending), j)
  {
    ghost var parts := wire.pending;
    j, buf, headerEnd := 0, "", None;
    while headerEnd.None?
      invariant Received(parts, j, buf, wire.pending) && headerEnd == HeaderEnd(buf)
      invariant Searching(parts, j) && !Overfull(parts, j)
      decreases headerEnd.None?, |wire.pending|
    {
      var piece := wire.Recv();
      if piece == "" {
        NoHeader(parts);
        return;
      }
      StillSearching(parts, j);
      buf := buf + piece;
      j := j + 1;
      headerEnd := Find(buf, TERMINATOR, 0);
      if |buf| > MAX_HEADER_SIZE && headerEnd.None? {
        assert Overfull(parts, j);
        buf := "";
        return;
      }
    }
  }

  method RecvFullHttpRequest(wire: Wire) returns (request: string)
    requires Delivered(wire.pending)
    modifies wire
    ensures request == Request(old(wire.pending))
    ensures exists j :: 0 <= j <= |old(wire.pending)| && wire.pending == old(wire.pending)[j..]
  {
    ghost var parts := wire.pending;
    var buf, headerEnd, j := RecvHeader(wire);
    if headerEnd.None? {
      return buf;
    }
    HeaderFound(parts, j);
    var header := buf[..headerEnd.value];
    var contentLength := ContentLength(header);
    if contentLength > MaxBody(header) {
      return "";
    }
    request := RecvBody(wire, buf, headerEnd.value + 4, contentLength, MaxBody(header), parts, j);
  }

  // ---- Framing does not depend on fragmentation

  ghost predicate SplitOf(parts: seq<string>, stream: string) {
    Delivered(parts) && Flat(parts) == stream
  }

  ghost predicate BodyTooLarge(stream: string) {
    var h := HeaderEnd(stream);
    h.Some? && ContentLength(stream[..h.value]) > MaxBody(stream[..h.value])
  }

  /** Bytes that make up the request: header, terminator and announced body, as far as they came. */
  ghost function Length(stream: string): (n: nat)
    ensures n <= |stream|
  {
    var h := HeaderEnd(stream);
    if h.None? then |stream|
    else
      var need := Need(stream[..h.value]);
      if need < |stream| then need else |stream|
  }

  /** What comes back is empty exactly on refusal or silence, else a prefix of the stream that holds
      the whole request and at most 4095 bytes more. */
  lemma ResultIsPrefix(parts: seq<string>, stream: string)
    requires SplitOf(parts, stream)
    ensures Request(parts) == "" <==> stream == "" || HeaderTooLarge(parts) || BodyTooLarge(stream)
    ensures Request(parts) != "" ==> stream[..Length(stream)] <= Request(parts) <= stream
    ensures Request(parts) != "" ==> |Request(parts)| <= Length(stream) + 4095
  {
    var h := HeaderEnd(stream);
    if h.Some? {
      UpToFits(parts, Need(stream[..h.value]));
    }
  }

  /** Two deliveries of the same bytes that are both accepted agree on the whole request. */
  lemma FragmentationIndependent(a: seq<string>, b: seq<string>, stream: string)
    requires SplitOf(a, stream) && SplitOf(b, stream)
    requires !HeaderTooLarge(a) && !HeaderTooLarge(b)
    ensures Request(a) == "" <==> Request(b) == ""
    ensures Request(a) != "" ==> |Request(a)| >= Length(stream) && |Request(b)| >= Length(stream)
    ensures Request(a) != "" ==> Request(a)[..Length(stream)] == Request(b)[..Length(stream)]
  {
    ResultIsPrefix(a, stream);
    ResultIsPrefix(b, stream);
  }

  // ---- When the header limit bites

  function Chunks(s: string, size: nat): (parts: seq<string>)
    requires 1 <= size <= READ_SIZE
    ensures SplitOf(parts, s)
  {
    if s == "" then []
    else if |s| <= size then
      assert [s][1..] == [];
      [s]
    else
      assert ([s[..size]] + Chunks(s[size..], size))[1..] == Chunks(s[size..], size);
      [s[..size]] + Chunks(s[size..], size)
  }

  function Times(j: nat, size: nat): nat {
    if j == 0 then 0 else size + Times(j - 1, size)
  }

  lemma {:induction false} TimesConstants(j: nat)
    ensures Times(j, 1) == j && Times(j, READ_SIZE) == j * READ_SIZE
  {
    if j > 0 {
      TimesConstants(j - 1);
    }
  }

  lemma {:induction false} ChunksBoundary(s: string, size: nat, j: nat)
    requires 1 <= size <= READ_SIZE && j <= |Chunks(s, size)|
    ensures Boundary(Chunks(s, size), j) == if Times(j, size) < |s| then Times(j, size) else |s|
    decreases |s|
  {
    var parts := Chunks(s, size);
    if j == 0 {
      assert parts[..0] == [];
    } else if |s| <= size {
      assert parts[..j] == parts;
    } else {
      ChunksBoundary(s[size..], size, j - 1);
      assert parts[..j][1..] == Chunks(s[size..], size)[..j - 1];
    }
  }

  /** Some boundary falls in the 4096 bytes past any point the stream goes beyond. */
  lemma BoundaryPast(parts: seq<string>, limit: nat) returns (j: nat)
    requires Delivered(parts) && |Flat(parts)| > limit
    ensures j <= |parts| && limit < Boundary(parts, j) <= limit + READ_SIZE
  {
    j := |parts|;
    assert parts[..j] == parts;
    while Boundary(parts, j) > limit + READ_SIZE
      invariant j <= |parts| && Boundary(parts, j) > limit
      decreases j
    {
      assert parts[..0] == [];
      FlatNext(parts, j - 1);
      j := j - 1;
    }
  }

  /** No delivery is refused for its header exactly when the header ends within the limit plus one. */
  lemma NeverRefusedIff(stream: string)
    ensures (forall parts | SplitOf(parts, stream) :: !HeaderTooLarge(parts)) <==>
      (if HeaderEnd(stream).Some? then HeaderEnd(stream).value + 4 <= 16385 else |stream| <= 16384)
  {
    var h := HeaderEnd(stream);
    var fits := if h.Some? then h.value + 4 <= MAX_HEADER_SIZE + 1 else |stream| <= MAX_HEADER_SIZE;
    if fits {
      forall parts, j: nat | SplitOf(parts, stream) && j <= |parts| ensures !Overfull(parts, j) {
        FlatPrefix(parts, j);
      }
    } else {
      var parts := Chunks(stream, 1);
      TimesConstants(|parts|);
      TimesConstants(MAX_HEADER_SIZE + 1);
      ChunksBoundary(stream, 1, |parts|);
      assert parts[..|parts|] == parts;
      ChunksBoundary(stream, 1, MAX_HEADER_SIZE + 1);
      assert Overfull(parts, MAX_HEADER_SIZE + 1);
    }
  }

  /** Every delivery is refused exactly when the header is longer than the limit by a whole read. */
  lemma AlwaysRefusedIff(stream: string)
    ensures (forall parts | SplitOf(parts, stream) :: HeaderTooLarge(parts)) <==>
      (if HeaderEnd(stream).Some? then HeaderEnd(stream).value + 4 > 20480 else |stream| > 16384)
  {
    var h := HeaderEnd(stream);
    var huge := if h.Some? then h.value + 4 > MAX_HEADER_SIZE + READ_SIZE else |stream| > MAX_HEADER_SIZE;
    if huge {
      forall parts | SplitOf(parts, stream) ensures HeaderTooLarge(parts) {
        var j := BoundaryPast(parts, MAX_HEADER_SIZE);
        assert Overfull(parts, j);
      }
    } else {
      var parts := Chunks(stream, READ_SIZE);
      forall j: nat | j <= |parts| ensures !Overfull(parts, j) {
        TimesConstants(j);
        ChunksBoundary(stream, READ_SIZE, j);
      }
    }
  }

  // ---- A message whose header announces its body's length

  function Decimal(n: nat): (s: string)
    ensures s != "" && forall c :: c in s ==> IsDigit(c)
  {
    var digit := [('0' as nat + n % 10) as char];
    if n < 10 then digit else Decimal(n / 10) + digit
  }

  lemma {:induction false} DigitsSnoc(s: string, d: char, value: nat)
    requires (forall c :: c in s ==> IsDigit(c)) && IsDigit(d)
    ensures Digits(s + [d], value) == Digits(s, value) * 10 + (d as nat - '0' as nat)
    decreases s
  {
    if s == "" {
      assert s + [d] == [d] && [d][1..] == "";
    } else {
      assert s[0] in s;
      assert (s + [d])[1..] == s[1..] + [d];
      DigitsSnoc(s[1..], d, value * 10 + (s[0] as nat - '0' as nat));
    }
  }

  lemma {:induction false} DecimalDigits(n: nat)
    ensures Digits(Decimal(n), 0) == n
  {
    if n < 10 {
      DigitsSnoc("", Decimal(n)[0], 0);
      assert "" + [Decimal(n)[0]] == Decimal(n);
    } else {
      DecimalDigits(n / 10);
      DigitsSnoc(Decimal(n / 10), ('0' as nat + n % 10) as char, 0);
    }
  }

  lemma StrtoullReadsDecimal(n: nat)
    ensures Strtoull(Decimal(n)) == if n < ULLONG_RANGE then n else ULLONG_RANGE - 1
  {
    DecimalDigits(n);
    assert Decimal(n)[0] in Decimal(n);
  }

  /** A header in which a name and a value follow `pre`, with more lines or nothing behind them. */
  function WithField(pre: string, name: string, value: string, post: string): string {
    pre + name + value + post
  }

  lemma Slices(a: string, b: string, c: string, d: string)
    ensures var s := a + b + c + d;
      && s[|a|..|a| + |b|] == b && s[|a| + |b|..|a| + |b| + |c|] == c && s[|a| + |b| + |c|..] == d
  {
  }

  lemma LowerSlice(s: string, i: nat, j: nat)
    requires i <= j <= |s|
    ensures LowerAll(s)[i..j] == LowerAll(s[i..j])
  {
  }

  lemma NameFound(pre: string, name: string, value: string, post: string)
    ensures OccursAt(LowerAll(WithField(pre, name, value, post)), LowerAll(name), |pre|)
  {
    Slices(pre, name, value, post);
    LowerSlice(WithField(pre, name, value, post), |pre|, |pre| + |name|);
  }

  lemma PostFollows(pre: string, name: string, value: string, post: string)
    requires "\r\n" <= post
    ensures OccursAt(LowerAll(WithField(pre, name, value, post)), "\r\n", |pre| + |name| + |value|)
  {
    var header, end := WithField(pre, name, value, post), |pre| + |name| + |value|;
    Slices(pre, name, value, post);
    LowerSlice(header, end, end + 2);
    assert header[end..end + 2] == post[..2];
    assert post[..2] == "\r\n";
    assert LowerAll("\r\n") == "\r\n";
  }

  lemma LineBreakAt(lower: string, i: nat)
    ensures OccursAt(lower, "\r\n", i) ==> lower[i] == '\r'
  {
    assert OccursAt(lower, "\r\n", i) ==> lower[i..i + 2][0] == lower[i];
  }

  /** No line ends within the value. */
  lemma NoBreakInValue(pre: string, name: string, value: string, post: string, lower: string, i: nat)
    requires lower == LowerAll(WithField(pre, name, value, post)) && '\r' !in value
    requires |pre| + |name| <= i < |pre| + |name| + |value|
    ensures !OccursAt(lower, "\r\n", i)
  {
    Slices(pre, name, value, post);
    var start := |pre| + |name|;
    assert WithField(pre, name, value, post)[i] == value[i - start] && value[i - start] in value;
    LineBreakAt(lower, i);
  }

  /** Where a search that meets nothing before `at` ends. */
  lemma FindIs(s: string, pat: string, from: nat, at: nat)
    requires from <= at && forall i: nat :: from <= i < at ==> !OccursAt(s, pat, i)
    ensures OccursAt(s, pat, at) ==> Find(s, pat, from) == Some(at)
    ensures pat != "" && at >= |s| ==> Find(s, pat, from) == None
  {
  }

  /** The value runs to the end of its line. */
  lemma ValueIsLine(pre: string, name: string, value: string, post: string)
    requires (post == "" || "\r\n" <= post) && '\r' !in value
    ensures LineFrom(WithField(pre, name, value, post), |pre| + |name|) == value
  {
    var header := WithField(pre, name, value, post);
    var lower, end := LowerAll(header), |pre| + |name| + |value|;
    forall i: nat | |pre| + |name| <= i < end ensures !OccursAt(lower, "\r\n", i) {
      NoBreakInValue(pre, name, value, post, lower, i);
    }
    FindIs(lower, "\r\n", |pre| + |name|, end);
    Slices(pre, name, value, post);
    if post == "" {
      assert |lower| == end;
    } else {
      PostFollows(pre, name, value, post);
    }
  }

  // ---- The number in a field

  predicate Blank(s: string) {
    forall i :: 0 <= i < |s| ==> IsBlank(s[i])
  }

  lemma {:induction false} TrimLeftBlank(lead: string, s: string)
    requires Blank(lead) && (s != "" ==> !IsBlank(s[0]))
    ensures TrimLeft(lead + s) == s
  {
    if lead == "" {
      assert lead + s == s;
    } else {
      assert (lead + s)[1..] == lead[1..] + s;
      TrimLeftBlank(lead[1..], s);
    }
  }

  lemma {:induction false} TrimRightBlank(s: string, trail: string)
    requires Blank(trail) && (s != "" ==> !IsBlank(s[|s| - 1]))
    ensures TrimRight(s + trail) == s
  {
    if trail == "" {
      assert s + trail == s;
    } else {
      var init := trail[..|trail| - 1];
      assert (s + trail)[..|s + trail| - 1] == s + init;
      TrimRightBlank(s, init);
    }
  }

  /** A number between blanks. */
  function Padded(lead: string, n: nat, trail: string): string { lead + (Decimal(n) + trail) }

  lemma PaddedTrimmed(lead: string, n: nat, trail: string)
    requires Blank(lead) && Blank(trail)
    ensures TrimRight(TrimLeft(Padded(lead, n, trail))) == Decimal(n)
    ensures '\r' !in Padded(lead, n, trail)
  {
    var digits := Decimal(n);
    assert digits[0] in digits && digits[|digits| - 1] in digits && (digits + trail)[0] == digits[0];
    TrimLeftBlank(lead, digits + trail);
    TrimRightBlank(digits, trail);
  }

  /** The length read from a header is the number behind the first occurrence of the name, in any
      spelling of its letters and with any blanks around the number. */
  lemma ContentLengthRead(pre: string, name: string, lead: string, n: nat, trail: string, post: string)
    requires LowerAll(name) == LENGTH_NAME && Blank(lead) && Blank(trail) && (post == "" || "\r\n" <= post)
    requires var header := WithField(pre, name, Padded(lead, n, trail), post);
      forall i: nat :: i < |pre| ==> !OccursAt(LowerAll(header), LENGTH_NAME, i)
    ensures ContentLength(WithField(pre, name, Padded(lead, n, trail), post))
         == if n < ULLONG_RANGE then n else ULLONG_RANGE - 1
  {
    var value := Padded(lead, n, trail);
    NameFound(pre, name, value, post);
    FindIs(LowerAll(WithField(pre, name, value, post)), LENGTH_NAME, 0, |pre|);
    PaddedTrimmed(lead, n, trail);
    ValueIsLine(pre, name, value, post);
    StrtoullReadsDecimal(n);
  }

  // ---- Whose length it is

  /** The name stands at the beginning of a line other than the first. */
  predicate BeginsLine(header: string, i: nat) {
    2 <= i <= |header| && header[i - 2..i] == "\r\n"
  }

  /** A Content-Length field. */
  predicate IsField(header: string, i: nat) {
    BeginsLine(header, i) && OccursAt(LowerAll(header), LENGTH_NAME, i)
  }

  ghost predicate IsFirstField(header: string, i: nat) {
    IsField(header, i) && forall k: nat :: k < i ==> !IsField(header, k)
  }

  /** The number read is that of the first Content-Length field if and only if the first occurrence of
      the name begins a line, and not, say, the end of a longer name or a part of another value. */
  lemma LengthIsFieldsIff(header: string, i: nat)
    requires Find(LowerAll(header), LENGTH_NAME, 0) == Some(i)
    ensures ContentLength(header) == Strtoull(TrimRight(TrimLeft(LineFrom(header, i + 15))))
    ensures IsFirstField(header, i) <==> BeginsLine(header, i)
    ensures !BeginsLine(header, i) ==> forall k: nat :: IsFirstField(header, k) ==> i < k
  {
    forall k: nat | IsField(header, k) ensures i <= k {}
  }

  /** A longer name that ends in this one, and behind it a Content-Length field. */
  function TwoLengths(n: nat, m: nat): string {
    WithField(Hiding(n), "Content-Length:", Padded(" ", m, ""), "")
  }

  function Hiding(n: nat): string { "GET\r\nX-" + "Content-Length:" + Padded(" ", n, "") + "\r\n" }

  lemma HiddenName()
    ensures LowerAll("Content-Length:") == LENGTH_NAME
  {
    assert forall i :: 0 <= i < 15 ==> Lower("Content-Length:"[i]) == LENGTH_NAME[i];
  }

  lemma FirstIsHiding(n: nat, m: nat, i: nat)
    requires i < 7
    ensures !OccursAt(LowerAll(TwoLengths(n, m)), LENGTH_NAME, i)
  {
    var lower := LowerAll(TwoLengths(n, m));
    assert TwoLengths(n, m)[i] == "GET\r\nX-"[i];
    assert Lower("GET\r\nX-"[i]) != 'c';
    assert OccursAt(lower, LENGTH_NAME, i) ==> lower[i..i + 15][0] == lower[i];
  }

  lemma AsFirst(n: nat, m: nat)
    ensures TwoLengths(n, m)
         == WithField("GET\r\nX-", "Content-Length:", Padded(" ", n, ""), "\r\nContent-Length:" + Padded(" ", m, ""))
  {
    assert "\r\nContent-Length:" == "\r\n" + "Content-Length:";
  }

  /** The longer name hides the field behind it: the wrong number is read. */
  lemma LongerNameMisread(n: nat, m: nat)
    requires n < ULLONG_RANGE
    ensures var header := TwoLengths(n, m);
      && ContentLength(header) == n
      && IsField(header, |Hiding(n)|) && TrimRight(TrimLeft(LineFrom(header, |Hiding(n)| + 15))) == Decimal(m)
  {
    HiddenName();
    AsFirst(n, m);
    forall i: nat | i < 7 ensures !OccursAt(LowerAll(TwoLengths(n, m)), LENGTH_NAME, i) {
      FirstIsHiding(n, m, i);
    }
    ContentLengthRead("GET\r\nX-", "Content-Length:", " ", n, "", "\r\nContent-Length:" + Padded(" ", m, ""));
    FieldBehind(n, m);
  }

  lemma FieldBehind(n: nat, m: nat)
    ensures var header := TwoLengths(n, m);
      IsField(header, |Hiding(n)|) && TrimRight(TrimLeft(LineFrom(header, |Hiding(n)| + 15))) == Decimal(m)
  {
    HiddenName();
    NameFound(Hiding(n), "Content-Length:", Padded(" ", m, ""), "");
    PaddedTrimmed(" ", m, "");
    ValueIsLine(Hiding(n), "Content-Length:", Padded(" ", m, ""), "");
    var at := |Hiding(n)|;
    assert Hiding(n)[at - 2..] == "\r\n";
    assert TwoLengths(n, m)[at - 2..at] == Hiding(n)[at - 2..];
  }

  /** A message that states its body's length, within the limits, arrives whole in any fragments. */
  lemma WholeMessageArrives(parts: seq<string>, header: string, body: string, pre: string, name: string,
                            lead: string, trail: string, post: string)
    requires LowerAll(name) == LENGTH_NAME && Blank(lead) && Blank(trail) && (post == "" || "\r\n" <= post)
    requires header == WithField(pre, name, Padded(lead, |body|, trail), post)
    requires forall i: nat :: i < |pre| ==> !OccursAt(LowerAll(header), LENGTH_NAME, i)
    requires HeaderEnd(header + TERMINATOR + body) == Some(|header|)
    requires |header| + 4 <= MAX_HEADER_SIZE + 1 && |body| <= MaxBody(header)
    requires SplitOf(parts, header + TERMINATOR + body)
    ensures Request(parts) == header + TERMINATOR + body
  {
    var stream := header + TERMINATOR + body;
    NeverRefusedIff(stream);
    ContentLengthRead(pre, name, lead, |body|, trail, post);
    assert stream[..|header|] == header;
    ResultIsPrefix(parts, stream);
  }

  // ---- Sending

  /** The sending side of a socket: how many bytes each coming `send` is willing to take, none or
      less standing for an error, and what was taken so far. */
  class Peer {
    var accepts: seq<int>
    var taken: string

    constructor (accepts: seq<int>)
      ensures this.accepts == accepts && taken == ""
    {
      this.accepts, taken := accepts, "";
    }

    method Send(data: string) returns (n: int)
      modifies this
      ensures n <= |data|
      ensures taken == old(taken) + (if n > 0 then data[..n] else "")
      ensures n <= 0 <== old(accepts) == []
      ensures old(accepts) != [] ==> accepts == old(accepts)[1..] && (n <= 0 <==> old(accepts)[0] <= 0 || data == "")
    {
      if accepts == [] {
        n := -1;
      } else {
        n := if accepts[0] <= |data| then accepts[0] else |data|;
        accepts := accepts[1..];
        if n > 0 {
          taken := taken + data[..n];
        }
      }
    }
  }

  ghost predicate Willing(accepts: seq<int>) {
    forall i :: 0 <= i < |accepts| ==> accepts[i] > 0
  }

  function Positive(len: int): nat { if len < 0 then 0 else len }

  /** Bytes go out in order, each once; success means all of the first `len`, failure means fewer. */
  method SendAll(peer: Peer, buf: string, len: int) returns (ok: bool)
    requires len <= |buf|
    modifies peer
    ensures old(peer.taken) <= peer.taken <= old(peer.taken) + buf[..Positive(len)]
    ensures ok <==> peer.taken == old(peer.taken) + buf[..Positive(len)]
    ensures Willing(old(peer.accepts)) && |old(peer.accepts)| >= len ==> ok
  {
    var totalSent := 0;
    assert peer.taken == old(peer.taken) + buf[..0];
    while totalSent < len
      invariant 0 <= totalSent <= Positive(len)
      invariant peer.taken == old(peer.taken) + buf[..totalSent]
      invariant Willing(old(peer.accepts)) ==> Willing(peer.accepts) && |peer.accepts| + totalSent >= |old(peer.accepts)|
      decreases len - totalSent
    {
      label Before:
      var sent := peer.Send(buf[totalSent..len]);
      if sent <= 0 {
        return false;
      }
      assert buf[..totalSent] + buf[totalSent..len][..sent] == buf[..totalSent + sent];
      totalSent := totalSent + sent;
    }
    return true;
  }

  /** `static_cast<int>` of a size, on two's complement 32 bits. */
  function IntCast(n: nat): int {
    (n + 0x8000_0000) % 0x1_0000_0000 - 0x8000_0000
  }

  /** The whole length survives the cast exactly below 2^31. */
  lemma CastKeepsLengthIff(n: nat)
    ensures -0x8000_0000 <= IntCast(n) < 0x8000_0000 && (n - IntCast(n)) % 0x1_0000_0000 == 0
    ensures IntCast(n) <= n
    ensures Positive(IntCast(n)) == n <==> n < 0x8000_0000
  {
  }

  method SendAllString(peer: Peer, data: string) returns (ok: bool)
    modifies peer
    ensures old(peer.taken) <= peer.taken <= old(peer.taken) + data
    ensures |data| < 0x8000_0000 ==> (ok <==> peer.taken == old(peer.taken) + data)
    ensures |data| >= 0x8000_0000 ==> peer.taken != old(peer.taken) + data
    ensures var n := IntCast(|data|);
      if n <= 0 then ok && peer.taken == old(peer.taken) else ok <==> peer.taken == old(peer.taken) + data[..n]
    ensures Willing(old(peer.accepts)) && |old(peer.accepts)| >= |data| ==> ok
  {
    CastKeepsLengthIff(|data|);
    ok := SendAll(peer, data, IntCast(|data|));
  }
}
