/**
  The requests the signalling client writes, read back by the rules it applies to replies: where the
  headers end, what length they declare, and which ids they name. They are printed into a buffer of
  1024 characters, which is ample for numbers and not for names.
 */
module PeerRequests {
  import opened Text
  import opened HttpFraming
  import opened PeerEntries
  import opened PeerClient

  // ---------------------------------------------------------------- how long a printed number can get

  function Pow10(k: nat): (p: nat)
    ensures p > 0
  {
    if k == 0 then 1 else 10 * Pow10(k - 1)
  }

  lemma {:induction false} DecimalLength(n: nat, k: nat)
    requires 0 < k && n < Pow10(k)
    ensures |DecimalNat(n)| <= k
    decreases k
  {
    assert Pow10(1) == 10 * Pow10(0);
    if n >= 10 { DecimalLength(n / 10, k - 1); }
  }

  // ---------------------------------------------------------------- where a header block ends

  /** The first blank line behind a single line. */
  lemma OneLine(line: string, tail: string)
    requires '\r' !in line
    ensures HeaderEnd(line + BLANK_LINE + tail) == |line|
  {
    var s := line + BLANK_LINE + tail;
    assert s[|line|..|line| + 4] == BLANK_LINE;
    forall j: nat | j < |line| ensures !MatchesAt(s, BLANK_LINE, j) {
      assert s[j] == line[j];
      CharOfMatch(s, BLANK_LINE, j, 0);
    }
    FindIs(s, BLANK_LINE, 0, |line|);
  }

  // ---------------------------------------------------------------- the sign-in request

  const SIGN_IN := "GET /sign_in?"
  const VERSION := " HTTP/1.0"

  /** A blank line inside a name, in the part of it that the buffer holds. */
  ghost predicate NameEndsRequest(name: string) {
    exists j: nat :: j + 4 <= |name| && j + 4 <= 1010 && MatchesAt(name, BLANK_LINE, j)
  }

  /** The whole request, before the buffer cuts it. */
  function FullSignIn(name: string): string {
    SIGN_IN + name + VERSION + BLANK_LINE
  }

  lemma SignInChars(name: string)
    ensures var full, p := FullSignIn(name), 13 + |name|;
      && |full| == p + 13
      && (forall k :: 0 <= k < 13 || p <= k < p + 9 ==> full[k] != '\r' && full[k] != '\n')
      && (forall k :: 0 <= k < |name| ==> full[13 + k] == name[k])
      && MatchesAt(full, BLANK_LINE, p + 9)
  {
    var full, p := FullSignIn(name), 13 + |name|;
    assert full[p + 9..p + 13] == BLANK_LINE;
    assert forall k :: 0 <= k < 13 ==> full[k] == SIGN_IN[k];
    assert forall k :: p <= k < p + 9 ==> full[k] == VERSION[k - p];
  }

  lemma BlankChars(s: string, i: nat)
    ensures MatchesAt(s, BLANK_LINE, i) <==>
      i + 4 <= |s| && s[i] == '\r' && s[i + 1] == '\n' && s[i + 2] == '\r' && s[i + 3] == '\n'
  {}

  /** A blank line in the request is its own terminator or part of the name. */
  lemma BlankInRequest(name: string, i: nat)
    requires MatchesAt(FullSignIn(name), BLANK_LINE, i)
    ensures i == |name| + 22 || (13 <= i && i + 4 <= 13 + |name| && MatchesAt(name, BLANK_LINE, i - 13))
  {
    SignInChars(name);
    hide FullSignIn;
    BlankChars(FullSignIn(name), i);
    if i >= 13 { BlankChars(name, i - 13); }
  }

  lemma BlankInName(name: string, j: nat)
    requires MatchesAt(name, BLANK_LINE, j)
    ensures MatchesAt(FullSignIn(name), BLANK_LINE, 13 + j)
  {
    SignInChars(name);
    hide FullSignIn;
    BlankChars(name, j);
    BlankChars(FullSignIn(name), 13 + j);
  }

  lemma SignInIsCut(name: string)
    ensures SignInRequest(name) == FullSignIn(name)[..if |name| <= 997 then |name| + 26 else 1023]
  {
    assert FullSignIn(name) == "GET /sign_in?" + name + " HTTP/1.0\r\n\r\n";
  }

  /** The request carries the name, or as much of it as the buffer holds, and a name of up to 997 characters whole. */
  lemma SignInCarriesTheName(name: string)
    ensures var r, n := SignInRequest(name), if |name| <= 1010 then |name| else 1010;
      MatchesAt(r, SIGN_IN, 0) && MatchesAt(r, name[..n], |SIGN_IN|)
    ensures |name| <= 997 ==> MatchesAt(SignInRequest(name), VERSION + BLANK_LINE, |SIGN_IN| + |name|)
  {
    SignInIsCut(name);
    var r, n := SignInRequest(name), if |name| <= 1010 then |name| else 1010;
    hide SignInRequest;
    assert r[0..13] == SIGN_IN;
    assert r[13..13 + n] == name[..n];
    if |name| <= 997 { assert r[13 + |name|..] == VERSION + BLANK_LINE; }
  }

  /**
    The server sees the end of the sign-in request exactly if the name leaves room for it, or itself
    holds a blank line. With any other longer name the request never ends.
   */
  lemma SignInRequestEndsIff(name: string)
    ensures HeaderEnd(SignInRequest(name)) != NPOS <==> |name| <= 997 || NameEndsRequest(name)
  {
    hide FullSignIn, SignInRequest, Find;
    SignInChars(name);
    SignInIsCut(name);
    var n := if |name| <= 997 then |name| + 26 else 1023;
    FindInPrefix(FullSignIn(name), n, BLANK_LINE, 0);
    BlankInRequest(name, HeaderEnd(FullSignIn(name)));
    if j: nat :| j + 4 <= |name| && j + 4 <= 1010 && MatchesAt(name, BLANK_LINE, j) { BlankInName(name, j); }
  }

  /** The shortest names that fail: 998 characters, no carriage return among them. */
  lemma LongNameNeverEnds(name: string)
    requires |name| == 998 && '\r' !in name
    ensures HeaderEnd(SignInRequest(name)) == NPOS
  {
    SignInRequestEndsIff(name);
    if j: nat :| j + 4 <= |name| && MatchesAt(name, BLANK_LINE, j) { CharOfMatch(name, BLANK_LINE, j, 0); }
  }

  // ---------------------------------------------------------------- the other requests

  predicate IsInt(n: int) {
    -0x8000_0000 <= n < 0x8000_0000
  }

  lemma IntLength(n: int)
    requires IsInt(n)
    ensures |Decimal(n)| <= 11 && '\r' !in Decimal(n)
  {
    assert Pow10(10) == 100000 * Pow10(5) == 10000000000;
    DecimalLength(if n < 0 then -n else n, 10);
    DecimalHasNo(n, '\r');
  }

  lemma SizeLength(n: nat)
    requires n < SIZE_MODULUS
    ensures |Decimal(n)| <= 20 && '\r' !in Decimal(n)
  {
    assert Pow10(20) == 100000 * Pow10(15) == 10000000000 * Pow10(10) == 1000000000000000 * Pow10(5);
    DecimalLength(n, 20);
    DecimalHasNo(n, '\r');
  }

  const SIGN_OUT := "GET /sign_out?peer_id="

  /** The sign-out request is always terminated, and names our id. */
  lemma SignOutRequestNamesUs(id: int)
    requires IsInt(id)
    ensures var r := SignOutRequest(id);
      HeaderEnd(r) == |r| - 4 && MatchesAt(r, SIGN_OUT, 0) && Atoi(r, |SIGN_OUT|) == id
  {
    IntLength(id);
    var line := SIGN_OUT + Decimal(id) + VERSION;
    var r := line + BLANK_LINE;
    assert r == "GET /sign_out?peer_id=" + Decimal(id) + " HTTP/1.0\r\n\r\n";
    assert SignOutRequest(id) == r;
    OneLine(line, []);
    assert line + BLANK_LINE + [] == r;
    assert r[0..|SIGN_OUT|] == SIGN_OUT;
    assert r[|SIGN_OUT|..|SIGN_OUT| + |Decimal(id)|] == Decimal(id);
    NumberAt(r, |SIGN_OUT|, id);
  }

  const POST := "POST /message?peer_id="
  const TO := "&to="
  const CONTENT_TYPE := "\r\nContent-Type: text/plain"

  function RequestLine(id: int, peer: int): string {
    POST + Decimal(id) + TO + Decimal(peer) + VERSION
  }

  /** The pieces of a message request, with the number printed as `length`. */
  function Pieces(line: string, length: string, message: string): string {
    line + CONTENT_LENGTH + length + CONTENT_TYPE + BLANK_LINE + message
  }

  lemma NothingTruncated(id: int, peer: int, message: string)
    requires IsInt(id) && IsInt(peer) && |message| < SIZE_MODULUS
    ensures MessageRequest(id, peer, message) == Pieces(RequestLine(id, peer), Decimal(|message|), message)
  {
    IntLength(id);
    IntLength(peer);
    SizeLength(|message|);
    hide Decimal;
    Regroup(POST + Decimal(id) + TO + Decimal(peer), Decimal(|message|));
  }

  lemma Regroup(addressed: string, length: string)
    ensures addressed + " HTTP/1.0\r\n" + "Content-Length: " + length + "\r\nContent-Type: text/plain\r\n\r\n"
      == addressed + VERSION + CONTENT_LENGTH + length + CONTENT_TYPE + BLANK_LINE
  {
    var p, q := " HTTP/1.0\r\n", "\r\nContent-Type: text/plain\r\n\r\n";
    assert p + "Content-Length: " == VERSION + CONTENT_LENGTH;
    assert q == CONTENT_TYPE + BLANK_LINE;
    Associates(addressed, p, "Content-Length: ");
    Associates(addressed, VERSION, CONTENT_LENGTH);
    Associates(addressed + VERSION + CONTENT_LENGTH + length, CONTENT_TYPE, BLANK_LINE);
  }

  lemma Associates(a: string, b: string, c: string)
    ensures (a + b) + c == a + (b + c)
  {}

  lemma PiecesAt(line: string, length: string, message: string)
    ensures
      var r := Pieces(line, length, message);
      var c := |line|; var n := c + 18; var t := n + |length|; var b := t + 26;
      && |CONTENT_TYPE| == 26 && |r| == b + 4 + |message|
      && r[..c] == line && r[c..n] == CONTENT_LENGTH && r[n..t] == length && r[t..b] == CONTENT_TYPE
      && r[b..b + 4] == BLANK_LINE && r[b + 4..] == message
  {
    PatternShape();
  }

  lemma ContentTypeShape()
    ensures |CONTENT_TYPE| == 26 && CONTENT_TYPE[0] == '\r' && CONTENT_TYPE[2] != '\r'
    ensures forall k :: 1 <= k < 26 ==> CONTENT_TYPE[k] != '\r'
  {}

  /** Carriage returns before the blank line stand only where a header line begins. */
  lemma Returns(line: string, length: string, message: string, j: nat)
    requires '\r' !in line && '\r' !in length
    requires j < |line| + 18 + |length| + 26 && j != |line| && j != |line| + 18 + |length|
    ensures Pieces(line, length, message)[j] != '\r'
  {
    PatternShape();
    ContentTypeShape();
    PiecesAt(line, length, message);
    hide Pieces;
    var r, c := Pieces(line, length, message), |line|;
    var n := c + 18;
    var t := n + |length|;
    if j < c { assert r[j] == r[..c][j]; }
    else if j < n { assert r[j] == r[c..n][j - c]; }
    else if j < t { assert r[j] == r[n..t][j - n]; }
    else { assert r[j] == r[t..t + 26][j - t]; }
  }

  lemma FirstBlank(line: string, length: string, message: string)
    requires '\r' !in line && '\r' !in length && (length != [] ==> length[0] != '\r')
    ensures var r := Pieces(line, length, message);
      HeaderEnd(r) == |line| + 18 + |length| + 26 && Find(r, CONTENT_LENGTH, 0) == |line|
  {
    PatternShape();
    ContentTypeShape();
    PiecesAt(line, length, message);
    hide Pieces;
    var r, c := Pieces(line, length, message), |line|;
    var t := c + 18 + |length|;
    assert r[c + 2] == r[c..c + 18][2];
    assert r[t + 2] == r[t..t + 26][2];
    forall j: nat | j < t + 26 ensures !MatchesAt(r, BLANK_LINE, j) && (j < c ==> !MatchesAt(r, CONTENT_LENGTH, j)) {
      if j == c || j == t {
        CharOfMatch(r, BLANK_LINE, j, 2);
      } else {
        Returns(line, length, message, j);
        CharOfMatch(r, BLANK_LINE, j, 0);
        CharOfMatch(r, CONTENT_LENGTH, j, 0);
      }
    }
    FindIs(r, BLANK_LINE, 0, t + 26);
    FindIs(r, CONTENT_LENGTH, 0, c);
  }

  lemma PiecesTail(line: string, length: string, message: string)
    ensures Pieces(line, length, message) == line + (CONTENT_LENGTH + length + CONTENT_TYPE + BLANK_LINE + message)
  {}

  lemma LinePieces(a: string, b: string, tail: string)
    ensures var r := POST + a + TO + b + VERSION + tail; var to := |POST| + |a|;
      && |POST| == 22 && |TO| == 4
      && MatchesAt(r, POST, 0) && MatchesAt(r, a, 22) && MatchesAt(r, TO, to) && MatchesAt(r, b, to + 4)
      && MatchesAt(r, VERSION, to + 4 + |b|)
  {
    var head := POST + a + TO + b;
    var r := head + VERSION + tail;
    assert r[..|head|] == head;
    assert r[|head|..|head| + |VERSION|] == VERSION;
    assert head[0..22] == POST && head[22..22 + |a|] == a;
    assert head[22 + |a|..22 + |a| + 4] == TO;
    assert head[22 + |a| + 4..] == b;
    assert r[|head| - |b|..|head|] == b;
  }

  lemma NamesIn(r: string, id: int, peer: int)
    requires var to := |POST| + |Decimal(id)|; var v := to + |TO| + |Decimal(peer)|;
      && MatchesAt(r, Decimal(id), |POST|) && MatchesAt(r, TO, to)
      && MatchesAt(r, Decimal(peer), to + |TO|) && MatchesAt(r, VERSION, v)
    ensures Atoi(r, |POST|) == id && Atoi(r, |POST| + |Decimal(id)| + |TO|) == peer
  {
    hide Decimal, Atoi;
    var to := |POST| + |Decimal(id)|;
    var v := to + |TO| + |Decimal(peer)|;
    assert r[to] == r[to..to + |TO|][0];
    assert r[v] == r[v..v + |VERSION|][0];
    NumberAt(r, |POST|, id);
    NumberAt(r, to + |TO|, peer);
  }

  lemma LineNames(id: int, peer: int, tail: string)
    ensures var r := RequestLine(id, peer) + tail; var to := |POST| + |Decimal(id)|;
      && MatchesAt(r, POST, 0) && Atoi(r, |POST|) == id
      && MatchesAt(r, TO, to) && Atoi(r, to + |TO|) == peer
  {
    LinePieces(Decimal(id), Decimal(peer), tail);
    hide Decimal, Atoi;
    NamesIn(RequestLine(id, peer) + tail, id, peer);
  }

  lemma LineHasNoReturn(id: int, peer: int)
    ensures '\r' !in RequestLine(id, peer)
  {
    hide Decimal, DecimalNat;
    DecimalHasNo(id, '\r');
    DecimalHasNo(peer, '\r');
    NotInEither(POST, Decimal(id));
    NotInEither(POST + Decimal(id), TO);
    NotInEither(POST + Decimal(id) + TO, Decimal(peer));
    NotInEither(POST + Decimal(id) + TO + Decimal(peer), VERSION);
  }

  lemma NotInEither(a: string, b: string)
    ensures '\r' !in a && '\r' !in b ==> '\r' !in a + b
  {}

  lemma PiecesDeclare(line: string, message: string)
    requires '\r' !in line && |message| < SIZE_MODULUS
    ensures var r := Pieces(line, Decimal(|message|), message);
      && HasLength(r) && DeclaredLength(r) == |message| && !BlankValue(r)
      && |r| == HeaderEnd(r) + 4 + |message|
  {
    var length := Decimal(|message|);
    assert length[0] in DecimalNat(|message|);
    SizeLength(|message|);
    hide Decimal, Atoi, Find, SkipSpace;
    var r := Pieces(line, length, message);
    PatternShape();
    ContentTypeShape();
    PiecesAt(line, length, message);
    FirstBlank(line, length, message);
    hide Pieces;
    var n := |line| + 18;
    var t := n + |length|;
    assert r[n] == r[n..t][0] && r[t] == r[t..t + 26][0];
    NumberAt(r, n, |message|);
    SkipSpaceIs(r, n, n);
  }

  lemma FramedPieces(line: string, message: string)
    requires '\r' !in line
    requires |message| < SIZE_MODULUS && |Pieces(line, Decimal(|message|), message)| < SIZE_MODULUS
    ensures var r := Pieces(line, Decimal(|message|), message);
      && WholeResponse(r) && FramedExactly(r) && DeclaredLength(r) == |message| && BodyOf(r) == message
  {
    PiecesAt(line, Decimal(|message|), message);
    PiecesDeclare(line, message);
    hide Decimal, Pieces, FramedExactly, DeclaredLength, BlankValue, HeaderEnd, HasLength;
    FramingIsExactIff(Pieces(line, Decimal(|message|), message));
  }

  /**
    A message request declares its message's length, names sender and receiver, and is framed exactly
    where it ends by the very rules the client applies to replies.
   */
  lemma MessageRequestIsFramed(id: int, peer: int, message: string)
    requires IsInt(id) && IsInt(peer) && |MessageRequest(id, peer, message)| < SIZE_MODULUS
    ensures var r := MessageRequest(id, peer, message); var to := |POST| + |Decimal(id)|;
      && WholeResponse(r) && FramedExactly(r)
      && DeclaredLength(r) == |message| && BodyOf(r) == message
      && MatchesAt(r, POST, 0) && Atoi(r, |POST|) == id
      && MatchesAt(r, TO, to) && Atoi(r, to + |TO|) == peer
  {
    NothingTruncated(id, peer, message);
    LineNames(id, peer, CONTENT_LENGTH + Decimal(|message|) + CONTENT_TYPE + BLANK_LINE + message);
    LineHasNoReturn(id, peer);
    FramedPieces(RequestLine(id, peer), message);
    PiecesTail(RequestLine(id, peer), Decimal(|message|), message);
  }
}
