/**
  Replies written out as the server sends them, with an id, a closing connection and a short body, and
  what the client reads in them.
 */
module PeerReplies {
  import opened Text
  import opened HttpFraming
  import opened PeerClient
  import opened PeerClientProperties

  const STATUS_LINE := "HTTP/1.0 200"

  /** The reply that names `id`, a digit, and carries `body`, of fewer than ten characters. */
  function Reply(id: nat, body: string): string {
    Head(Decimal(id), Decimal(|body|)) + body
  }

  function Head(id: string, length: string): string {
    STATUS_LINE + (PRAGMA + id) + (CONNECTION + "close") + (CONTENT_LENGTH + length) + BLANK_LINE
  }

  /** Written out in full. */
  lemma ReplyText(id: nat, body: string)
    ensures Reply(id, body) == "HTTP/1.0 200\r\nPragma: " + Decimal(id) + "\r\nConnection: close"
                             + "\r\nContent-Length: " + Decimal(|body|) + "\r\n\r\n" + body
  {
    hide Decimal;
    assert CONNECTION + "close" == "\r\nConnection: close";
    assert STATUS_LINE + PRAGMA == "HTTP/1.0 200\r\nPragma: ";
  }

  predicate Short(id: nat, body: string) {
    id < 10 && |body| < 10
  }

  lemma Lengths()
    ensures |STATUS_LINE| == 12 && |PRAGMA| == 10 && |CONNECTION| == 14 && |CONTENT_LENGTH| == 18 && |BLANK_LINE| == 4
  {}

  lemma OneDigit(k: nat)
    requires k < 10
    ensures |Decimal(k)| == 1 && IsDigit(Decimal(k)[0]) && '\r' !in Decimal(k)[0..]
  {
    assert Decimal(k) == [Digit(k)];
  }

  lemma SubField(s: string, i: nat, a: string, b: string)
    requires MatchesAt(s, a + b, i)
    ensures MatchesAt(s, a, i) && MatchesAt(s, b, i + |a|)
  {
    var m, n := i + |a|, i + |a| + |b|;
    assert s[i..m] == s[i..n][..|a|] == a;
    assert s[m..n] == s[i..n][|a|..] == b;
  }

  lemma CharAt(s: string, i: nat, field: string)
    requires MatchesAt(s, field, i)
    ensures forall k :: 0 <= k < |field| ==> s[i + k] == field[k]
    ensures forall k :: i <= k < i + |field| ==> s[k] == field[k - i]
  {
    assert forall k :: i <= k < i + |field| ==> s[k] == s[i..i + |field|][k - i];
  }

  lemma FieldChar(s: string, i: nat, field: string, k: nat)
    requires MatchesAt(s, field, i) && k < |field|
    ensures i + k < |s| && s[i + k] == field[k]
  {
    CharAt(s, i, field);
  }

  predicate Between(s: string, from: nat, to: nat) {
    to <= |s| && forall k :: from <= k < to ==> s[k] != '\r'
  }

  lemma FieldReturns(s: string, i: nat, field: string, from: nat)
    requires MatchesAt(s, field, i) && from <= |field| && '\r' !in field[from..]
    ensures Between(s, i + from, i + |field|)
  {
    CharAt(s, i, field);
    forall k | i + from <= k < i + |field| ensures s[k] != '\r' { assert field[from..][k - i - from] == s[k]; }
  }

  /** `r` begins with the headers of a reply, laid out for one-digit numbers. */
  predicate HasHead(r: string, id: string, length: string) {
    && |id| == 1 && |length| == 1 && IsDigit(id[0]) && IsDigit(length[0]) && |r| >= 65
    && MatchesAt(r, STATUS_LINE, 0) && MatchesAt(r, PRAGMA, 12) && MatchesAt(r, id, 22)
    && MatchesAt(r, CONNECTION, 23) && MatchesAt(r, "close", 37)
    && MatchesAt(r, CONTENT_LENGTH, 42) && MatchesAt(r, length, 60) && MatchesAt(r, BLANK_LINE, 61)
  }

  lemma HeadPieces(id: string, length: string, body: string)
    requires |id| == 1 && |length| == 1 && IsDigit(id[0]) && IsDigit(length[0])
    ensures var r := Head(id, length) + body; HasHead(r, id, length) && |r| == 65 + |body| && r[65..] == body
  {
    Lengths();
    var r := Head(id, length) + body;
    assert r[0..12] == STATUS_LINE;
    assert r[12..23] == PRAGMA + id;
    assert r[23..42] == CONNECTION + "close";
    assert r[42..61] == CONTENT_LENGTH + length;
    assert r[61..65] == BLANK_LINE;
    assert r[65..] == body;
    hide Head;
    SubField(r, 12, PRAGMA, id);
    SubField(r, 23, CONNECTION, "close");
    SubField(r, 42, CONTENT_LENGTH, length);
  }

  lemma PatternReturns()
    ensures '\r' !in STATUS_LINE[0..] && '\r' !in PRAGMA[1..] && '\r' !in CONNECTION[1..]
    ensures '\r' !in CONTENT_LENGTH[1..] && '\r' !in "close"[0..]
  {}

  lemma HeadStretches(r: string, id: string, length: string)
    requires HasHead(r, id, length)
    ensures Between(r, 0, 12) && Between(r, 13, 22) && Between(r, 22, 23) && Between(r, 24, 37)
    ensures Between(r, 37, 42) && Between(r, 43, 60) && Between(r, 60, 61)
  {
    Lengths();
    PatternReturns();
    assert '\r' !in id[0..] && '\r' !in length[0..];
    hide MatchesAt, Between;
    FieldReturns(r, 0, STATUS_LINE, 0);
    FieldReturns(r, 12, PRAGMA, 1);
    FieldReturns(r, 22, id, 0);
    FieldReturns(r, 23, CONNECTION, 1);
    FieldReturns(r, 37, "close", 0);
    FieldReturns(r, 42, CONTENT_LENGTH, 1);
    FieldReturns(r, 60, length, 0);
  }

  lemma HeadReturns(r: string, id: string, length: string)
    requires HasHead(r, id, length)
    ensures forall k :: 0 <= k < 61 && k != 12 && k != 23 && k != 42 ==> r[k] != '\r'
    ensures r[14] == 'P' && r[25] == 'C' && r[28] == 'n' && r[44] == 'C'
  {
    Lengths();
    HeadStretches(r, id, length);
    hide MatchesAt;
    FieldChar(r, 12, PRAGMA, 2);
    FieldChar(r, 23, CONNECTION, 2);
    FieldChar(r, 23, CONNECTION, 5);
    FieldChar(r, 42, CONTENT_LENGTH, 2);
  }

  lemma HeadFinds(r: string, id: string, length: string)
    requires HasHead(r, id, length)
    ensures HeaderEnd(r) == 61 && Find(r, PRAGMA, 0) == 12
    ensures Find(r, CONNECTION, 0) == 23 && Find(r, CONTENT_LENGTH, 0) == 42
  {
    Lengths();
    HeadReturns(r, id, length);
    forall j: nat | j < 61
      ensures !MatchesAt(r, BLANK_LINE, j)
      ensures j < 12 ==> !MatchesAt(r, PRAGMA, j)
      ensures j < 23 ==> !MatchesAt(r, CONNECTION, j)
      ensures j < 42 ==> !MatchesAt(r, CONTENT_LENGTH, j)
    {
      CharOfMatch(r, BLANK_LINE, j, 0);
      CharOfMatch(r, PRAGMA, j, 0);
      CharOfMatch(r, CONNECTION, j, 0);
      CharOfMatch(r, CONTENT_LENGTH, j, 0);
      CharOfMatch(r, BLANK_LINE, j, 2);
      CharOfMatch(r, CONNECTION, j, 2);
      CharOfMatch(r, CONTENT_LENGTH, j, 2);
      CharOfMatch(r, CONTENT_LENGTH, j, 5);
    }
    FindIs(r, BLANK_LINE, 0, 61);
    FindIs(r, PRAGMA, 0, 12);
    FindIs(r, CONNECTION, 0, 23);
    FindIs(r, CONTENT_LENGTH, 0, 42);
  }

  lemma HeadSizes(r: string, id: nat, length: nat)
    requires id < 10 && length < 10 && HasHead(r, Decimal(id), Decimal(length))
    ensures HeaderEnd(r) == 61 && ContentLength(r) == Some(length) && HeaderSize(r, 61, PRAGMA) == Some(id)
  {
    Lengths();
    HeadFinds(r, Decimal(id), Decimal(length));
    assert id % SIZE_MODULUS == id && length % SIZE_MODULUS == length;
    hide Find, Decimal, HeaderSize;
    FieldChar(r, 23, CONNECTION, 0);
    FieldChar(r, 61, BLANK_LINE, 0);
    HeaderSizeOfPrint(r, 61, PRAGMA, 12, id);
    HeaderSizeOfPrint(r, 61, CONTENT_LENGTH, 42, length);
  }

  lemma HeadCloses(r: string, id: string, length: string)
    requires HasHead(r, id, length)
    ensures HeaderText(r, 61, CONNECTION) == Some("close")
  {
    Lengths();
    HeadFinds(r, id, length);
    hide Find, HeaderText;
    assert "\r\n" + CONTENT_LENGTH[2..] == CONTENT_LENGTH;
    SubField(r, 42, "\r\n", CONTENT_LENGTH[2..]);
    HeaderTextOfPrint(r, 61, CONNECTION, 23, "close");
  }

  lemma TwoHundred()
    ensures Decimal(200) == "200"
  {
    assert DecimalNat(2) == "2" && DecimalNat(20) == "20";
  }

  lemma HeadStatus(r: string, id: string, length: string)
    requires HasHead(r, id, length)
    ensures Status(r) == 200
  {
    Lengths();
    TwoHundred();
    assert r[0..12] == STATUS_LINE;
    assert r[..8] == STATUS_LINE[..8] && r[9..12] == STATUS_LINE[9..12] == "200";
    FieldChar(r, 0, STATUS_LINE, 8);
    FieldChar(r, 12, PRAGMA, 0);
    StatusOfPrint(r, 8, 200);
  }

  lemma ReplyHead(id: nat, body: string)
    requires Short(id, body)
    ensures var r := Reply(id, body);
      HasHead(r, Decimal(id), Decimal(|body|)) && |r| == 65 + |body| && r[65..] == body
  {
    OneDigit(id);
    OneDigit(|body|);
    hide Decimal, Head, HasHead, IsDigit;
    HeadPieces(Decimal(id), Decimal(|body|), body);
  }

  lemma SmallNumbers(id: nat, n: nat)
    requires id < 10 && n < 10
    ensures ToInt(id) == id && (61 + 4 + n) % SIZE_MODULUS == 65 + n
  {}

  lemma HeadMeans(r: string, id: nat, n: nat)
    requires id < 10 && n < 10 && HasHead(r, Decimal(id), Decimal(n)) && |r| == 65 + n
    ensures Complete(r) && ShouldClose(r) && PragmaId(r) == id && ContentLength(r) == Some(n) && HeaderEnd(r) == 61
  {
    hide Decimal, HasHead;
    HeadSizes(r, id, n);
    HeadCloses(r, Decimal(id), Decimal(n));
    SmallNumbers(id, n);
    hide ContentLength, HeaderSize, HeaderText, HeaderEnd, ToInt;
  }

  /** The client frames such a reply exactly and reads back everything that was put into it. */
  lemma ReplyMeans(id: nat, body: string)
    requires Short(id, body)
    ensures var r := Reply(id, body);
      && Complete(r) && ShouldClose(r) && Status(r) == 200 && PragmaId(r) == id
      && ContentLength(r) == Some(|body|) && HeaderEnd(r) == 61 && |r| == 65 + |body| && BodyOf(r) == body
  {
    ReplyHead(id, body);
    hide Decimal, Reply, HasHead, Complete, ShouldClose, Status, PragmaId, ContentLength, HeaderEnd;
    HeadMeans(Reply(id, body), id, |body|);
    HeadStatus(Reply(id, body), Decimal(id), Decimal(|body|));
  }
}
