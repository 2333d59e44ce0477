/** Base64 encoding by a three-byte accumulator, and the decoder of section 4 of RFC 4648. */
module Base64 {
  import opened Common

  const UPPER := "ABCDEFGHIJKLMNOPQRSTUVWXYZ"
  const LOWER := "abcdefghijklmnopqrstuvwxyz"
  const REST := "0123456789+/"
  const ALPHABET := UPPER + LOWER + REST

  /** The four sextets of three bytes. */
  function Sextet0(a: bv8): bv8 { (a & 0xFC) >> 2 }
  function Sextet1(a: bv8, b: bv8): bv8 { ((a & 0x03) << 4) + ((b & 0xF0) >> 4) }
  function Sextet2(b: bv8, c: bv8): bv8 { ((b & 0x0F) << 2) + ((c & 0xC0) >> 6) }
  function Sextet3(c: bv8): bv8 { c & 0x3F }

  lemma SextetsSmall(a: bv8, b: bv8, c: bv8)
    ensures Sextet0(a) < 64 && Sextet1(a, b) < 64 && Sextet2(b, c) < 64 && Sextet3(c) < 64
  {
  }

  function Symbol(v: bv8): char
    requires v < 64
  {
    ALPHABET[v as int]
  }

  /** Table 1 of RFC 4648, read backwards. */
  function Value(c: char): (v: int)
    ensures -1 <= v < 64
  {
    if 'A' <= c <= 'Z' then c as int - 'A' as int
    else if 'a' <= c <= 'z' then c as int - 'a' as int + 26
    else if '0' <= c <= '9' then c as int - '0' as int + 52
    else if c == '+' then 62
    else if c == '/' then 63
    else -1
  }

  lemma UpperAt(k: nat)
    requires k < 26
    ensures UPPER[k] as int == 'A' as int + k
  {
  }

  lemma LowerAt(k: nat)
    requires k < 26
    ensures LOWER[k] as int == 'a' as int + k
  {
  }

  lemma RestAt(k: nat)
    requires k < 12
    ensures Value(REST[k]) == k + 52
  {
  }

  lemma AlphabetValues(k: nat)
    requires k < 64
    ensures Value(ALPHABET[k]) == k
  {
    if k < 26 {
      UpperAt(k);
    } else if k < 52 {
      LowerAt(k - 26);
    } else {
      RestAt(k - 52);
    }
  }

  lemma SymbolValue(v: bv8)
    requires v < 64
    ensures Symbol(v) != '=' && Value(Symbol(v)) >= 0 && Value(Symbol(v)) as bv8 == v
  {
    AlphabetValues(v as int);
  }

  // ---- Decoding, section 4 of RFC 4648

  function Byte0(v: bv8, w: bv8): bv8 { (v << 2) | (w >> 4) }
  function Byte1(v: bv8, w: bv8): bv8 { (v << 4) | (w >> 2) }
  function Byte2(v: bv8, w: bv8): bv8 { (v << 6) | w }

  /** One group of four characters; `last` says whether padding may stand here. */
  function DecodeGroup(s: string, last: bool): Option<seq<bv8>>
    requires |s| == 4
  {
    if Value(s[0]) < 0 || Value(s[1]) < 0 then None
    else
      var v0, v1 := Value(s[0]) as bv8, Value(s[1]) as bv8;
      if last && s[2] == '=' && s[3] == '=' then
        if v1 & 0x0F == 0 then Some([Byte0(v0, v1)]) else None
      else if Value(s[2]) < 0 then None
      else
        var v2 := Value(s[2]) as bv8;
        if last && s[3] == '=' then
          if v2 & 0x03 == 0 then Some([Byte0(v0, v1), Byte1(v1, v2)]) else None
        else if Value(s[3]) < 0 then None
        else Some([Byte0(v0, v1), Byte1(v1, v2), Byte2(v2, Value(s[3]) as bv8)])
  }

  /** Groups of four, padding only in the last, unused bits zero. */
  function Decode(s: string): Option<seq<bv8>> {
    if s == "" then Some([])
    else if |s| < 4 then None
    else
      var group := DecodeGroup(s[..4], |s| == 4);
      var rest := Decode(s[4..]);
      if group.None? || rest.None? then None else Some(group.value + rest.value)
  }

  // ---- Encoding

  function Triple(a: bv8, b: bv8, c: bv8): (s: string)
    ensures |s| == 4
  {
    SextetsSmall(a, b, c);
    [Symbol(Sextet0(a)), Symbol(Sextet1(a, b)), Symbol(Sextet2(b, c)), Symbol(Sextet3(c))]
  }

  /** The padded last group, for one or two leftover bytes. */
  function Tail(left: seq<bv8>): (s: string)
    requires |left| <= 2
    ensures |s| == if left == [] then 0 else 4
  {
    if left == [] then ""
    else if |left| == 1 then Triple(left[0], 0, 0)[..2] + "=="
    else Triple(left[0], left[1], 0)[..3] + "="
  }

  function Encoded(data: seq<bv8>): string {
    if |data| < 3 then Tail(data) else Triple(data[0], data[1], data[2]) + Encoded(data[3..])
  }

  lemma TripleDecodes(a: bv8, b: bv8, c: bv8, last: bool)
    ensures DecodeGroup(Triple(a, b, c), last) == Some([a, b, c])
  {
    SextetsSmall(a, b, c);
    SymbolValue(Sextet0(a));
    SymbolValue(Sextet1(a, b));
    SymbolValue(Sextet2(b, c));
    SymbolValue(Sextet3(c));
    SextetsRebuild(a, b, c);
  }

  lemma SextetsRebuild(a: bv8, b: bv8, c: bv8)
    ensures Byte0(Sextet0(a), Sextet1(a, b)) == a
    ensures Byte1(Sextet1(a, b), Sextet2(b, c)) == b
    ensures Byte2(Sextet2(b, c), Sextet3(c)) == c
    ensures Sextet1(a, 0) & 0x0F == 0 && Sextet2(b, 0) & 0x03 == 0
  {
  }

  lemma OneDecodes(a: bv8)
    ensures DecodeGroup(Tail([a]), true) == Some([a])
  {
    var v0, v1 := Sextet0(a), Sextet1(a, 0);
    SextetsSmall(a, 0, 0);
    SymbolValue(v0);
    SymbolValue(v1);
    SextetsRebuild(a, 0, 0);
    assert Tail([a]) == [Symbol(v0), Symbol(v1), '=', '='];
  }

  lemma TwoDecode(a: bv8, b: bv8)
    ensures DecodeGroup(Tail([a, b]), true) == Some([a, b])
  {
    var v0, v1, v2 := Sextet0(a), Sextet1(a, b), Sextet2(b, 0);
    SextetsSmall(a, b, 0);
    SymbolValue(v0);
    SymbolValue(v1);
    SymbolValue(v2);
    SextetsRebuild(a, b, 0);
    assert Tail([a, b]) == [Symbol(v0), Symbol(v1), Symbol(v2), '='];
  }

  lemma TailDecodes(left: seq<bv8>)
    requires 1 <= |left| <= 2
    ensures DecodeGroup(Tail(left), true) == Some(left)
  {
    if |left| == 1 {
      OneDecodes(left[0]);
      assert left == [left[0]];
    } else {
      TwoDecode(left[0], left[1]);
      assert left == [left[0], left[1]];
    }
  }

  /** Decoding an encoding gives the bytes back. */
  lemma {:induction false} RoundTrip(data: seq<bv8>)
    ensures Decode(Encoded(data)) == Some(data)
    decreases |data|
  {
    var s := Encoded(data);
    if |data| >= 3 {
      var rest := Encoded(data[3..]);
      RoundTrip(data[3..]);
      TripleDecodes(data[0], data[1], data[2], |s| == 4);
      assert s[..4] == Triple(data[0], data[1], data[2]) && s[4..] == rest;
      assert data == [data[0], data[1], data[2]] + data[3..];
    } else if data != [] {
      TailDecodes(data);
      assert s[..4] == s && s[4..] == "";
      assert Decode(s[4..]) == Some([]) && data + [] == data;
    }
  }

  lemma {:induction false} EncodedLength(data: seq<bv8>)
    ensures |Encoded(data)| == 4 * ((|data| + 2) / 3)
    decreases |data|
  {
    if |data| >= 3 {
      EncodedLength(data[3..]);
      assert (|data| + 2) / 3 == (|data| - 3 + 2) / 3 + 1;
    }
  }

  function Padding(length: nat): nat { 2 * length % 3 }

  lemma PaddingTurns(length: nat)
    requires length >= 3
    ensures Padding(length - 3) == Padding(length) <= 2
  {
  }

  ghost predicate PaddedFrom(s: string, from: int) {
    forall i :: 0 <= i < |s| ==> (s[i] == '=' <==> i >= from)
  }

  lemma PaddedLater(front: string, s: string, from: int)
    requires |front| == 4 && PaddedFrom(front, 4) && PaddedFrom(s, from) && 0 <= from
    ensures PaddedFrom(front + s, from + 4)
  {
    forall i | 0 <= i < |front + s| ensures (front + s)[i] == '=' <==> i >= from + 4 {
      assert (front + s)[i] == if i < 4 then front[i] else s[i - 4];
    }
  }

  /** Four characters for every three bytes begun; the residue decides the padding. */
  lemma {:induction false} EncodedShape(data: seq<bv8>)
    ensures |Encoded(data)| == 4 * ((|data| + 2) / 3)
    ensures 0 <= |Encoded(data)| - Padding(|data|)
    ensures PaddedFrom(Encoded(data), |Encoded(data)| - Padding(|data|))
    decreases |data|
  {
    EncodedLength(data);
    if |data| >= 3 {
      EncodedShape(data[3..]);
      TripleHasNoPadding(data[0], data[1], data[2]);
      PaddingTurns(|data|);
      PaddedLater(Triple(data[0], data[1], data[2]), Encoded(data[3..]), |Encoded(data[3..])| - Padding(|data[3..]|));
    } else {
      TailShape(data);
    }
  }

  lemma TailShape(left: seq<bv8>)
    requires |left| <= 2
    ensures PaddedFrom(Tail(left), |Tail(left)| - Padding(|left|))
  {
    if |left| == 2 {
      TripleHasNoPadding(left[0], left[1], 0);
    } else if |left| == 1 {
      TripleHasNoPadding(left[0], 0, 0);
    }
  }

  lemma TripleHasNoPadding(a: bv8, b: bv8, c: bv8)
    ensures forall i :: 0 <= i < 4 ==> Triple(a, b, c)[i] != '='
  {
    SextetsSmall(a, b, c);
    SymbolValue(Sextet0(a));
    SymbolValue(Sextet1(a, b));
    SymbolValue(Sextet2(b, c));
    SymbolValue(Sextet3(c));
  }

  /** Encoding whole groups first, whatever follows. */
  lemma {:induction false} EncodedAppend(front: seq<bv8>, rest: seq<bv8>)
    requires |front| % 3 == 0
    ensures Encoded(front + rest) == Encoded(front) + Encoded(rest)
    decreases |front|
  {
    if front == [] {
      assert front + rest == rest;
    } else {
      assert |front| >= 3;
      assert (front + rest)[3..] == front[3..] + rest;
      EncodedAppend(front[3..], rest);
    }
  }

  /** The loops that write characters. */
  method WriteSymbols(char4: array<bv8>, n: nat) returns (s: string)
    requires char4.Length == 4 && n <= 4 && forall k :: 0 <= k < n ==> char4[k] < 64
    ensures |s| == n && forall k :: 0 <= k < n ==> s[k] == Symbol(char4[k])
  {
    s := "";
    var i := 0;
    while i < n
      invariant 0 <= i <= n && |s| == i
      invariant forall k :: 0 <= k < i ==> s[k] == Symbol(char4[k])
    {
      s := s + [Symbol(char4[i])];
      i := i + 1;
    }
  }

  method Pad(from: nat) returns (s: string)
    requires from <= 3
    ensures |s| == 3 - from && forall k :: 0 <= k < |s| ==> s[k] == '='
  {
    s := "";
    var i := from;
    while i < 3
      invariant from <= i <= 3 && |s| == i - from
      invariant forall k :: 0 <= k < |s| ==> s[k] == '='
    {
      s := s + "=";
      i := i + 1;
    }
  }

  method Split(char3: array<bv8>, char4: array<bv8>)
    requires char3.Length == 3 && char4.Length == 4 && char3 != char4
    modifies char4
    ensures char4[0] == Sextet0(char3[0]) && char4[1] == Sextet1(char3[0], char3[1])
    ensures char4[2] == Sextet2(char3[1], char3[2]) && char4[3] == Sextet3(char3[2])
    ensures forall k :: 0 <= k < 4 ==> char4[k] < 64
  {
    char4[0] := (char3[0] & 0xFC) >> 2;
    char4[1] := ((char3[0] & 0x03) << 4) + ((char3[1] & 0xF0) >> 4);
    char4[2] := ((char3[1] & 0x0F) << 2) + ((char3[2] & 0xC0) >> 6);
    char4[3] := char3[2] & 0x3F;
    SextetsSmall(char3[0], char3[1], char3[2]);
  }

  /** The four characters of a full accumulator. */
  method EncodeGroup(char3: array<bv8>, char4: array<bv8>) returns (group: string)
    requires char3.Length == 3 && char4.Length == 4 && char3 != char4
    modifies char4
    ensures group == Triple(char3[0], char3[1], char3[2])
  {
    Split(char3, char4);
    group := WriteSymbols(char4, 4);
  }

  /** One or two bytes left in the accumulator: the rest of it is cleared, one character more than
      there are bytes is written, and padding fills the group. */
  method EncodeTail(char3: array<bv8>, char4: array<bv8>, left: nat) returns (group: string)
    requires char3.Length == 3 && char4.Length == 4 && char3 != char4 && 1 <= left <= 2
    modifies char3, char4
    ensures group == Tail(old(char3[..left]))
  {
    var j := left;
    while j < 3
      invariant left <= j <= 3
      invariant forall k :: 0 <= k < left ==> char3[k] == old(char3[k])
      invariant forall k :: left <= k < j ==> char3[k] == 0
    {
      char3[j] := 0;
      j := j + 1;
    }
    Split(char3, char4);
    group := WriteSymbols(char4, left + 1);
    var padding := Pad(left);
    group := group + padding;
    TailFrom(old(char3[..left]), char3[..], group);
  }

  lemma TailFrom(left: seq<bv8>, cleared: seq<bv8>, group: string)
    requires 1 <= |left| <= 2 && |cleared| == 3 && |group| == 4
    requires left == cleared[..|left|] && forall k :: |left| <= k < 3 ==> cleared[k] == 0
    requires forall k :: 0 <= k <= |left| ==> group[k] == Triple(cleared[0], cleared[1], cleared[2])[k]
    requires forall k :: |left| < k < 4 ==> group[k] == '='
    ensures group == Tail(left)
  {
    assert left[0] == cleared[0] && (|left| == 2 ==> left[1] == cleared[1]);
  }

  lemma GroupEncoded(data: seq<bv8>, next: nat, group: seq<bv8>)
    requires 3 <= next <= |data| && next % 3 == 0 && group == data[next - 3..next]
    ensures Encoded(data[..next]) == Encoded(data[..next - 3]) + Triple(group[0], group[1], group[2])
  {
    EncodedAppend(data[..next - 3], group);
    assert data[..next] == data[..next - 3] + group;
    assert Encoded(group[3..]) == "";
  }

  /** The accumulator holds the `i` bytes read since the last full group. */
  ghost predicate Accumulated(data: seq<bv8>, next: nat, i: nat, char3: seq<bv8>, result: string) {
    && next <= |data| && i < 3 && i == next % 3 && |char3| == 3
    && char3[..i] == data[next - i..next]
    && result == Encoded(data[..next - i])
  }

  lemma StillAccumulating(data: seq<bv8>, next: nat, i: nat, char3: seq<bv8>, added: seq<bv8>)
    requires next < |data| && i < 3 && i == next % 3 && |char3| == 3 && char3[..i] == data[next - i..next]
    requires added == char3[i := data[next]]
    ensures added[..i + 1] == data[next - i..next + 1]
    ensures i == 2 ==> added == data[next - 2..next + 1]
  {
    assert added[..i + 1] == char3[..i] + [data[next]];
    assert data[next - i..next + 1] == data[next - i..next] + [data[next]];
    assert i == 2 ==> added[..3] == added;
  }

  lemma ByteKept(data: seq<bv8>, next: nat, i: nat, char3: seq<bv8>, result: string)
    requires Accumulated(data, next, i, char3, result) && next < |data| && i < 2
    ensures Accumulated(data, next + 1, i + 1, char3[i := data[next]], result)
  {
    StillAccumulating(data, next, i, char3, char3[i := data[next]]);
    assert data[..next + 1 - (i + 1)] == data[..next - i];
  }

  lemma GroupFull(data: seq<bv8>, next: nat, char3: seq<bv8>, result: string) returns (text: string)
    requires Accumulated(data, next, 2, char3, result) && next < |data|
    ensures var added := char3[2 := data[next]];
      text == Triple(added[0], added[1], added[2]) && Accumulated(data, next + 1, 0, added, result + text)
  {
    var added := char3[2 := data[next]];
    StillAccumulating(data, next, 2, char3, added);
    GroupEncoded(data, next + 1, added);
    text := Triple(added[0], added[1], added[2]);
    assert added[..0] == data[next + 1..next + 1];
  }

  /** One turn of the reading loop. */
  method TakeByte(byte: bv8, char3: array<bv8>, char4: array<bv8>, i: nat, before: string,
                  ghost data: seq<bv8>, ghost next: nat)
    returns (i': nat, result: string)
    requires char3.Length == 3 && char4.Length == 4 && char3 != char4
    requires Accumulated(data, next, i, char3[..], before) && next < |data| && byte == data[next]
    modifies char3, char4
    ensures Accumulated(data, next + 1, i', char3[..], result)
  {
    if i < 2 {
      ByteKept(data, next, i, char3[..], before);
    } else {
      var text := GroupFull(data, next, char3[..], before);
    }
    char3[i] := byte;
    i', result := i + 1, before;
    if i' == 3 {
      var group := EncodeGroup(char3, char4);
      i', result := 0, before + group;
    }
  }

  lemma TailAdded(front: seq<bv8>, left: seq<bv8>)
    requires |front| % 3 == 0 && |left| <= 2
    ensures Encoded(front + left) == Encoded(front) + Tail(left)
    ensures left == [] ==> Encoded(front + left) == Encoded(front)
  {
    EncodedAppend(front, left);
    if left == [] {
      assert front + left == front;
    }
  }

  /** What is left in the accumulator at the end of the data. */
  lemma Leftover(data: seq<bv8>, i: nat, char3: seq<bv8>, result: string)
    requires Accumulated(data, |data|, i, char3, result)
    ensures var front := data[..|data| - i];
      data == front + char3[..i] && |front| % 3 == 0 && result == Encoded(front)
  {
  }

  /** The reading loop. */
  method ReadAll(data: seq<bv8>, char3: array<bv8>, char4: array<bv8>) returns (i: nat, result: string)
    requires char3.Length == 3 && char4.Length == 4 && char3 != char4
    modifies char3, char4
    ensures Accumulated(data, |data|, i, char3[..], result)
  {
    i, result := 0, "";
    assert data[..0] == [];
    for next := 0 to |data|
      invariant Accumulated(data, next, i, char3[..], result)
    {
      i, result := TakeByte(data[next], char3, char4, i, result, data, next);
    }
  }

  method Base64Encode(data: seq<bv8>) returns (result: string)
    ensures result == Encoded(data)
  {
    var char3 := new bv8[3];
    var char4 := new bv8[4];
    var i: nat;
    i, result := ReadAll(data, char3, char4);
    Leftover(data, i, char3[..], result);
    TailAdded(data[..|data| - i], char3[..][..i]);
    assert char3[..][..i] == char3[..i];
    if i != 0 {
      var group := EncodeTail(char3, char4, i);
      result := result + group;
    }
  }
}
