/**
  The incremental HTTP response framer of PjWebrtc/peer_connection_client.cc. Responses arrive in
  arbitrary pieces; ReadIntoBuffer decides after each piece whether the buffer holds a whole response.
 */
module HttpFraming {
  import opened Text

  const BLANK_LINE := "\r\n\r\n"
  const CONTENT_LENGTH := "\r\nContent-Length: "
  const CONNECTION := "\r\nConnection: "
  const PRAGMA := "\r\nPragma: "

  /** size_t arithmetic is modulo this. */
  const SIZE_MODULUS := 0x1_0000_0000_0000_0000

  datatype Option<T> = None | Some(value: T)

  /** GetHeaderValue for a size_t: atoi's int, converted. */
  function HeaderSize(data: string, eoh: nat, pattern: string): Option<nat> {
    var found := Find(data, pattern, 0);
    if found != NPOS && found < eoh then Some(Atoi(data, found + |pattern|) % SIZE_MODULUS) else None
  }

  /** GetHeaderValue for a string. */
  function HeaderText(data: string, eoh: nat, pattern: string): Option<string>
    requires eoh <= |data|
  {
    var found := Find(data, pattern, 0);
    if found != NPOS && found < eoh then
      var begin := found + |pattern|;
      var eol := Find(data, "\r\n", begin);
      var end := if eol == NPOS then eoh else eol;
      Some(if end < begin then data[begin..] else data[begin..end])
    else None
  }

  function HeaderEnd(data: string): int {
    Find(data, BLANK_LINE, 0)
  }

  function ContentLength(data: string): Option<nat> {
    if HeaderEnd(data) == NPOS then None else HeaderSize(data, HeaderEnd(data), CONTENT_LENGTH)
  }

  /** What ReadIntoBuffer returns once `data` is in the buffer. */
  predicate Complete(data: string) {
    ContentLength(data).Some? && |data| >= (HeaderEnd(data) + 4 + ContentLength(data).value) % SIZE_MODULUS
  }

  /** Whether ReadIntoBuffer closes the socket itself. */
  predicate ShouldClose(data: string) {
    Complete(data) && HeaderText(data, HeaderEnd(data), CONNECTION) == Some("close")
  }

  // ---------------------------------------------------------------- responses as their sender frames them

  predicate HasLength(r: string) {
    HeaderEnd(r) != NPOS && 0 <= Find(r, CONTENT_LENGTH, 0) < HeaderEnd(r)
  }

  function ValueStart(r: string): nat
    requires HasLength(r)
  {
    Find(r, CONTENT_LENGTH, 0) + |CONTENT_LENGTH|
  }

  function DeclaredLength(r: string): int
    requires HasLength(r)
  {
    Atoi(r, ValueStart(r))
  }

  /** A whole response: a Content-Length header and exactly that many bytes of body. */
  predicate WholeResponse(r: string) {
    && |r| < SIZE_MODULUS && HasLength(r) && DeclaredLength(r) >= 0
    && |r| == HeaderEnd(r) + 4 + DeclaredLength(r)
  }

  /** The header's value is white space up to the body, so atoi skips into the body for its digits. */
  predicate BlankValue(r: string)
    requires HasLength(r)
  {
    SkipSpace(r, ValueStart(r)) >= HeaderEnd(r) + 4
  }

  /** A whole response whose length can be read before its body arrives, or that has no body. */
  predicate Framable(r: string) {
    WholeResponse(r) && (|r| == HeaderEnd(r) + 4 || !BlankValue(r))
  }

  lemma PatternShape()
    ensures |BLANK_LINE| == 4 && |CONTENT_LENGTH| == 18
    ensures forall k :: 1 <= k < |CONTENT_LENGTH| ==> CONTENT_LENGTH[k] != '\r'
    ensures BLANK_LINE[0] == '\r' && BLANK_LINE[1] == '\n' && BLANK_LINE[2] == '\r' && BLANK_LINE[3] == '\n'
  {}

  /** The header line lies before the blank line, and the blank line is white space without digits. */
  lemma HeaderLies(r: string)
    requires HasLength(r)
    ensures ValueStart(r) <= HeaderEnd(r) && HeaderEnd(r) + 4 <= |r|
    ensures forall k :: HeaderEnd(r) <= k < HeaderEnd(r) + 4 ==> IsSpace(r[k]) && !IsDigit(r[k])
  {
    PatternShape();
    hide Find;
    var f, i := Find(r, CONTENT_LENGTH, 0), HeaderEnd(r);
    CharOfMatch(r, BLANK_LINE, i, 0);
    CharOfMatch(r, BLANK_LINE, i, 1);
    CharOfMatch(r, BLANK_LINE, i, 2);
    CharOfMatch(r, BLANK_LINE, i, 3);
    if i < f + 18 { CharOfMatch(r, CONTENT_LENGTH, f, i - f); }
  }

  lemma CharOfMatch(s: string, p: string, j: nat, k: nat)
    requires k < |p|
    ensures MatchesAt(s, p, j) ==> s[j + k] == p[k]
  {
    if MatchesAt(s, p, j) { assert s[j..j + |p|][k] == s[j + k]; }
  }

  /** What a proper prefix of a response looks like to ReadIntoBuffer. */
  lemma PrefixLength(r: string, n: nat)
    requires HasLength(r) && n < |r|
    ensures n < HeaderEnd(r) + 4 ==> HeaderEnd(r[..n]) == NPOS
    ensures HeaderEnd(r) + 4 <= n ==>
      && HasLength(r[..n]) && HeaderEnd(r[..n]) == HeaderEnd(r) && ValueStart(r[..n]) == ValueStart(r)
      && (!BlankValue(r) ==> DeclaredLength(r[..n]) == DeclaredLength(r))
  {
    PatternShape();
    HeaderLies(r);
    FindInPrefix(r, n, BLANK_LINE, 0);
    FindInPrefix(r, n, CONTENT_LENGTH, 0);
    if HeaderEnd(r) + 4 <= n && !BlankValue(r) {
      var j := SkipSpace(r, ValueStart(r));
      assert j < HeaderEnd(r);
      AtoiInPrefix(r, n, ValueStart(r), HeaderEnd(r));
    }
  }

  /** The headers alone, with a blank value: nothing but white space where the number should be. */
  lemma BlankHeadersDeclareZero(r: string)
    requires HasLength(r) && BlankValue(r) && HeaderEnd(r) + 4 < |r|
    ensures var p := r[..HeaderEnd(r) + 4]; HasLength(p) && HeaderEnd(p) == HeaderEnd(r) && DeclaredLength(p) == 0
  {
    var n := HeaderEnd(r) + 4;
    PrefixLength(r, n);
    HeaderLies(r);
    assert forall k :: ValueStart(r) <= k < n ==> r[..n][k] == r[k];
    SkipSpaceIs(r[..n], ValueStart(r), n);
  }

  lemma CompleteMeans(p: string)
    requires HasLength(p) && 0 <= DeclaredLength(p) && HeaderEnd(p) + 4 + DeclaredLength(p) < SIZE_MODULUS
    ensures Complete(p) <==> |p| >= HeaderEnd(p) + 4 + DeclaredLength(p)
  {
    assert DeclaredLength(p) % SIZE_MODULUS == DeclaredLength(p);
  }

  /** No proper prefix of r is taken for a whole response, and r is. */
  ghost predicate FramedExactly(r: string) {
    Complete(r) && forall n: nat | n < |r| :: !Complete(r[..n])
  }

  /**
    A response is framed exactly where it ends, however it is cut up, if and only if its body is empty
    or its Content-Length value is not blank. A blank value makes the answer depend on the cuts: the
    headers alone count as complete, while with the body in view atoi reads a length out of the body.
   */
  lemma FramingIsExactIff(r: string)
    requires WholeResponse(r)
    ensures FramedExactly(r) <==> Framable(r)
  {
    CompleteMeans(r);
    HeaderLies(r);
    if |r| > HeaderEnd(r) + 4 && BlankValue(r) {
      BlankHeadersDeclareZero(r);
      CompleteMeans(r[..HeaderEnd(r) + 4]);
    } else {
      forall n: nat | n < |r| ensures !Complete(r[..n]) {
        PrefixLength(r, n);
        if HeaderEnd(r) + 4 <= n { CompleteMeans(r[..n]); }
      }
    }
  }

  /** The smallest response that is framed wrongly: no number in the header, and the body "1". */
  lemma BlankValueExample()
    ensures var r := CONTENT_LENGTH + BLANK_LINE + "1";
      WholeResponse(r) && BlankValue(r) && |r| > HeaderEnd(r) + 4 && !FramedExactly(r)
  {
    var r := CONTENT_LENGTH + BLANK_LINE + "1";
    PatternShape();
    ExampleHeader(r);
    SkipSpaceIs(r, 18, 22);
    assert Digits(r, 23, 1) == 1;
    FramingIsExactIff(r);
  }

  lemma ExampleHeader(r: string)
    requires r == CONTENT_LENGTH + BLANK_LINE + "1"
    ensures |r| == 23 && Find(r, CONTENT_LENGTH, 0) == 0 && HeaderEnd(r) == 18
    ensures r[22] == '1' && forall k :: 18 <= k < 22 ==> IsSpace(r[k])
  {
    PatternShape();
    assert r[0..18] == CONTENT_LENGTH && r[18..22] == BLANK_LINE;
    FindIs(r, CONTENT_LENGTH, 0, 0);
    assert r[2] == 'C';
    forall j: nat | j < 18 ensures !MatchesAt(r, BLANK_LINE, j) {
      assert r[j..j + 4][0] == r[j] && r[j..j + 4][2] == r[j + 2];
    }
    FindIs(r, BLANK_LINE, 0, 18);
  }

  // ---------------------------------------------------------------- headers as a sender prints them

  /** The first line for `pattern` has `value` right behind it. */
  predicate HeaderAt(data: string, eoh: nat, pattern: string, f: nat, value: string) {
    && f < eoh && MatchesAt(data, pattern, f) && (forall j: nat :: j < f ==> !MatchesAt(data, pattern, j))
    && MatchesAt(data, value, f + |pattern|)
  }

  /** A number printed in a header is the number read, modulo the width of size_t. */
  lemma HeaderSizeOfPrint(data: string, eoh: nat, pattern: string, f: nat, n: int)
    requires HeaderAt(data, eoh, pattern, f, Decimal(n))
    requires var e := f + |pattern| + |Decimal(n)|; e < |data| ==> !IsDigit(data[e])
    ensures HeaderSize(data, eoh, pattern) == Some(n % SIZE_MODULUS)
  {
    hide Decimal, Atoi;
    FindIs(data, pattern, 0, f);
    var i := f + |pattern|;
    var e := i + |Decimal(n)|;
    AtoiOfDecimal(data[..i], n, data[e..]);
    assert data[i..e] == Decimal(n);
    assert data == data[..i] + data[i..e] + data[e..];
  }

  /** Without the header, or with its first occurrence behind the headers, there is no value. */
  lemma HeaderMissing(data: string, eoh: nat, pattern: string)
    requires eoh <= |data| && forall j: nat :: j < eoh ==> !MatchesAt(data, pattern, j)
    ensures HeaderSize(data, eoh, pattern) == None && HeaderText(data, eoh, pattern) == None
  {
    hide Find;
  }

  /** A text header is read up to the end of its line. */
  lemma HeaderTextOfPrint(data: string, eoh: nat, pattern: string, f: nat, value: string)
    requires HeaderAt(data, eoh, pattern, f, value) && eoh <= |data|
    requires '\r' !in value && MatchesAt(data, "\r\n", f + |pattern| + |value|)
    ensures HeaderText(data, eoh, pattern) == Some(value)
  {
    hide Find;
    FindIs(data, pattern, 0, f);
    EndOfLine(data, f + |pattern|, value);
  }

  /** A complete response closes the connection exactly if it says "close", and not if it says nothing. */
  lemma ShouldCloseIff(data: string, f: nat, value: string)
    requires Complete(data) && HeaderAt(data, HeaderEnd(data), CONNECTION, f, value)
    requires '\r' !in value && MatchesAt(data, "\r\n", f + |CONNECTION| + |value|)
    ensures ShouldClose(data) <==> value == "close"
  {
    hide Complete, HeaderText;
    HeaderTextOfPrint(data, HeaderEnd(data), CONNECTION, f, value);
  }

  lemma StaysOpen(data: string)
    requires Complete(data) && forall j: nat :: j < HeaderEnd(data) ==> !MatchesAt(data, CONNECTION, j)
    ensures !ShouldClose(data)
  {
    assert HeaderEnd(data) != NPOS && HeaderEnd(data) <= |data|;
    hide Complete, HeaderText;
    HeaderMissing(data, HeaderEnd(data), CONNECTION);
  }

  lemma EndOfLine(data: string, begin: nat, value: string)
    requires MatchesAt(data, value, begin) && '\r' !in value && MatchesAt(data, "\r\n", begin + |value|)
    ensures Find(data, "\r\n", begin) == begin + |value|
  {
    hide Find;
    forall j: nat | begin <= j < begin + |value| ensures !MatchesAt(data, "\r\n", j) {
      assert data[j] == value[j - begin];
      CharOfMatch(data, "\r\n", j, 0);
    }
    FindIs(data, "\r\n", begin, begin + |value|);
  }

  // ---------------------------------------------------------------- any cutting into pieces

  function Concat(pieces: seq<string>): string {
    if pieces == [] then [] else Concat(pieces[..|pieces| - 1]) + pieces[|pieces| - 1]
  }

  lemma {:induction false} ConcatPrefix(pieces: seq<string>, k: nat)
    requires k <= |pieces| && forall p | p in pieces :: p != []
    ensures |Concat(pieces[..k])| <= |Concat(pieces)|
    ensures Concat(pieces[..k]) == Concat(pieces)[..|Concat(pieces[..k])|]
    ensures k < |pieces| ==> |Concat(pieces[..k])| < |Concat(pieces)|
  {
    if k == |pieces| {
      assert pieces[..k] == pieces;
    } else {
      var front := pieces[..|pieces| - 1];
      var last := pieces[|pieces| - 1];
      assert pieces == front + [last];
      assert last in pieces;
      forall p | p in front ensures p != [] { assert p in pieces; }
      ConcatPrefix(front, k);
      assert front[..k] == pieces[..k];
    }
  }

  /** However a response is cut into non-empty pieces, it is complete exactly with the last of them. */
  lemma FramingIsChunkIndependent(pieces: seq<string>)
    requires forall p | p in pieces :: p != []
    requires Framable(Concat(pieces))
    ensures forall k :: 0 <= k <= |pieces| ==> (Complete(Concat(pieces[..k])) <==> k == |pieces|)
  {
    var r := Concat(pieces);
    FramingIsExactIff(r);
    forall k | 0 <= k <= |pieces| ensures Complete(Concat(pieces[..k])) <==> k == |pieces| {
      ConcatPrefix(pieces, k);
      assert pieces[..|pieces|] == pieces;
    }
  }
}
