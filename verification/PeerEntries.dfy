/**
  The peer list of PjWebrtc/peer_connection_client.cc: how one "name,id,flag" entry is parsed, how the
  body of the sign-in reply is read line by line, and how notifications change the list.
 */
module PeerEntries {
  import opened Text
  import opened HttpFraming

  datatype Entry = Entry(name: string, id: int, connected: bool)

  type Peers = map<int, string>

  /** ParseEntry; None stands for its result false, when callers ignore what it wrote. */
  function ParseEntry(entry: string): Option<Entry> {
    var separator := Find(entry, ",", 0);
    if separator == NPOS then None
    else
      var id := Atoi(entry, separator + 1);
      var name := entry[..separator];
      var flag := Find(entry, ",", separator + 1);
      var connected := flag != NPOS && Atoi(entry, flag + 1) != 0;
      if name == [] then None else Some(Entry(name, id, connected))
  }

  /** An entry as the server prints it. */
  function Print(e: Entry): string {
    e.name + "," + Decimal(e.id) + "," + (if e.connected then "1" else "0")
  }

  predicate WellNamed(e: Entry) {
    e.name != [] && ',' !in e.name && '\n' !in e.name
  }

  lemma FindChar(s: string, c: char, from: nat, i: nat)
    requires from <= i < |s| && s[i] == c && c !in s[from..i]
    ensures Find(s, [c], from) == i
  {
    assert s[i..i + 1] == [c];
    forall j: nat | from <= j < i ensures !MatchesAt(s, [c], j) {
      assert s[from..i][j - from] == s[j];
      assert s[j..j + 1][0] == s[j];
    }
    FindIs(s, [c], from, i);
  }

  lemma DecimalHasNo(n: int, c: char)
    requires c != '-' && !IsDigit(c)
    ensures c !in Decimal(n)
  {
    assert forall d | d in DecimalNat(if n < 0 then -n else n) :: IsDigit(d);
  }

  /** A number in the text, with no further digit behind it. */
  lemma NumberAt(s: string, i: nat, n: int)
    requires MatchesAt(s, Decimal(n), i)
    requires i + |Decimal(n)| < |s| ==> !IsDigit(s[i + |Decimal(n)|])
    ensures Atoi(s, i) == n
  {
    var j := i + |Decimal(n)|;
    AtoiOfDecimal(s[..i], n, s[j..]);
    assert s[..i] + Decimal(n) + s[j..] == s;
  }

  function Flag(connected: bool): int {
    if connected then 1 else 0
  }

  lemma FlagDigit(b: bool)
    ensures Decimal(Flag(b)) == if b then "1" else "0"
  {
    assert DecimalNat(Flag(b)) == [Digit(Flag(b))];
  }

  /** Where the three fields of an entry stand. */
  predicate Printed(s: string, name: string, id: int, flag: int) {
    var i := |name| + 1;
    var j := i + |Decimal(id)| + 1;
    && j <= |s|
    && MatchesAt(s, name, 0) && MatchesAt(s, Decimal(id), i) && MatchesAt(s, Decimal(flag), j)
    && s[i - 1] == ',' && s[j - 1] == ','
  }

  lemma FieldsArePrinted(name: string, id: int, flag: int, tail: string)
    ensures Printed(name + "," + Decimal(id) + "," + Decimal(flag) + tail, name, id, flag)
  {
    hide Decimal;
    var s := name + "," + Decimal(id) + "," + Decimal(flag) + tail;
    var i := |name| + 1;
    var j := i + |Decimal(id)| + 1;
    assert s[0..|name|] == name;
    assert s[i..i + |Decimal(id)|] == Decimal(id);
    assert s[j..j + |Decimal(flag)|] == Decimal(flag);
  }

  /** The first separator from position i on is the one right after a field that holds none. */
  lemma CharAfter(s: string, i: nat, field: string, c: char)
    requires MatchesAt(s, field, i) && c !in field && i + |field| < |s| && s[i + |field|] == c
    ensures Find(s, [c], i) == i + |field|
  {
    hide Find;
    FindChar(s, c, i, i + |field|);
  }

  lemma Leading(s: string, field: string)
    requires MatchesAt(s, field, 0)
    ensures s[..|field|] == field
  {
    assert s[0..|field|] == s[..|field|];
  }

  lemma FirstComma(s: string, name: string, id: int, flag: int)
    requires ',' !in name && Printed(s, name, id, flag)
    ensures |name| < |s| && Find(s, ",", 0) == |name|
  {
    hide Decimal, Find;
    CharAfter(s, 0, name, ',');
  }

  lemma SecondComma(s: string, name: string, id: int, flag: int)
    requires Printed(s, name, id, flag)
    ensures Find(s, ",", |name| + 1) == |name| + 1 + |Decimal(id)| < |s|
  {
    hide Decimal, DecimalNat, Find, MatchesAt;
    DecimalHasNo(id, ',');
    CharAfter(s, |name| + 1, Decimal(id), ',');
  }

  lemma PrintedNumbers(s: string, name: string, id: int, flag: int)
    requires Printed(s, name, id, flag)
    requires var k := |name| + |Decimal(id)| + |Decimal(flag)| + 2; k < |s| ==> !IsDigit(s[k])
    ensures var i := |name| + 1;
      && Atoi(s, i) == id
      && Atoi(s, i + |Decimal(id)| + 1) == flag
  {
    hide Decimal, Atoi;
    NumberAt(s, |name| + 1, id);
    NumberAt(s, |name| + |Decimal(id)| + 2, flag);
  }

  lemma PrintedName(s: string, name: string, id: int, flag: int)
    requires Printed(s, name, id, flag)
    ensures |name| < |s| && s[..|name|] == name
  {
    hide Decimal, DecimalNat;
    Leading(s, name);
  }

  lemma ParsePrinted(s: string, name: string, id: int, flag: int)
    requires name != [] && ',' !in name && Printed(s, name, id, flag)
    requires var k := |name| + |Decimal(id)| + |Decimal(flag)| + 2; k < |s| ==> !IsDigit(s[k])
    ensures ParseEntry(s) == Some(Entry(name, id, flag != 0))
  {
    hide Decimal, DecimalNat, Atoi, Find, Printed;
    FirstComma(s, name, id, flag);
    SecondComma(s, name, id, flag);
    PrintedNumbers(s, name, id, flag);
    PrintedName(s, name, id, flag);
  }

  /** Three fields parse to what they say, for any two numbers: a flag other than 0 means connected. */
  lemma ParseEntryOfFields(name: string, id: int, flag: int, tail: string)
    requires name != [] && ',' !in name && (tail != [] ==> !IsDigit(tail[0]))
    ensures ParseEntry(name + "," + Decimal(id) + "," + Decimal(flag) + tail) == Some(Entry(name, id, flag != 0))
  {
    hide Decimal, DecimalNat, ParseEntry, Printed;
    FieldsArePrinted(name, id, flag, tail);
    ParsePrinted(name + "," + Decimal(id) + "," + Decimal(flag) + tail, name, id, flag);
  }

  /** Every entry the server can print parses back to itself, also with a line end after it. */
  lemma ParseEntryOfPrint(e: Entry, tail: string)
    requires WellNamed(e) && (tail != [] ==> !IsDigit(tail[0]))
    ensures ParseEntry(Print(e) + tail) == Some(e)
  {
    hide ParseEntry, Decimal;
    FlagDigit(e.connected);
    ParseEntryOfFields(e.name, e.id, Flag(e.connected), tail);
    assert Print(e) == e.name + "," + Decimal(e.id) + "," + Decimal(Flag(e.connected));
  }

  /** An entry is refused exactly if no name stands before its first comma. */
  lemma ParseEntryNeedsAName(entry: string)
    ensures ParseEntry(entry).None? <==> ',' !in entry || entry[0] == ','
  {
    hide Atoi;
    forall k | 0 <= k < |entry| && entry[k] == ',' ensures MatchesAt(entry, ",", k) {
      assert entry[k..k + 1] == ",";
    }
    var i := Find(entry, ",", 0);
    if i != NPOS {
      assert entry[i..i + 1] == ",";
      assert i > 0 ==> !MatchesAt(entry, ",", 0);
      assert entry[0..1] == [entry[0]];
    }
  }

  /** A second field that nothing follows leaves the flag at 0. */
  lemma ParseEntryWithoutFlag(name: string, id: int)
    requires name != [] && ',' !in name
    ensures ParseEntry(name + "," + Decimal(id)) == Some(Entry(name, id, false))
  {
    hide Decimal, DecimalNat, Atoi, Find;
    var s, i := name + "," + Decimal(id), |name| + 1;
    assert s[0..|name|] == name == s[..|name|];
    assert s[i..i + |Decimal(id)|] == Decimal(id);
    CharAfter(s, 0, name, ',');
    NumberAt(s, i, id);
    DecimalHasNo(id, ',');
    assert forall k :: i <= k < |s| ==> s[k] == Decimal(id)[k - i];
  }

  // ---------------------------------------------------------------- the body of the sign-in reply

  /** The entries the loop in OnRead takes from `data` at `pos`, in order. */
  function BodyEntries(data: string, pos: nat, myId: int): seq<Entry>
    decreases |data| - pos
  {
    if |data| <= pos then []
    else
      var eol := Find(data, "\n", pos);
      if eol == NPOS then []
      else
        var e := ParseEntry(data[pos..eol]);
        (if e.Some? && e.value.id != myId then [e.value] else []) + BodyEntries(data, eol + 1, myId)
  }

  lemma Lines(head: string, line: string, rest: string)
    ensures MatchesAt(head + (line + "\n" + rest), line, |head|)
    ensures (head + (line + "\n" + rest))[|head| + |line|] == '\n'
    ensures head + (line + "\n" + rest) == (head + line + "\n") + rest
  {}

  /**
    The loop over any text: a line is taken if it parses and is not ours and skipped otherwise, and what
    stands behind the last line end is ignored.
   */
  lemma BodyLines(head: string, line: string, rest: string, myId: int)
    requires '\n' !in line
    ensures var e := ParseEntry(line);
      BodyEntries(head + (line + "\n" + rest), |head|, myId) ==
        (if e.Some? && e.value.id != myId then [e.value] else [])
        + BodyEntries((head + line + "\n") + rest, |head + line + "\n"|, myId)
    ensures BodyEntries(head + line, |head|, myId) == []
  {
    hide ParseEntry, Find;
    var data := head + (line + "\n" + rest);
    Lines(head, line, rest);
    CharAfter(data, |head|, line, '\n');
    assert data[|head|..|head| + |line|] == line;
    var last := head + line;
    assert forall k :: |head| <= k < |last| ==> last[k] == line[k - |head|];
  }

  function Others(entries: seq<Entry>, myId: int): seq<Entry> {
    if entries == [] then []
    else (if entries[0].id != myId then [entries[0]] else []) + Others(entries[1..], myId)
  }

  /** One line per entry, as the server lists its members. */
  function Body(entries: seq<Entry>): string {
    if entries == [] then "" else Print(entries[0]) + "\n" + Body(entries[1..])
  }

  lemma PrintHasNoNewline(e: Entry)
    requires WellNamed(e)
    ensures '\n' !in Print(e) && Print(e) != []
  {
    DecimalHasNo(e.id, '\n');
  }

  /** The loop reads exactly the members the server listed, except ourselves. */
  lemma {:induction false} SignInBodyParses(head: string, entries: seq<Entry>, myId: int)
    requires forall e | e in entries :: WellNamed(e)
    ensures BodyEntries(head + Body(entries), |head|, myId) == Others(entries, myId)
    decreases |entries|
  {
    if entries != [] {
      var e := entries[0];
      assert e in entries;
      forall f | f in entries[1..] ensures WellNamed(f) { assert f in entries; }
      SignInBodyParses(head + Print(e) + "\n", entries[1..], myId);
      PrintHasNoNewline(e);
      ParseEntryOfPrint(e, []);
      assert Print(e) + [] == Print(e);
      hide ParseEntry;
      BodyLines(head, Print(e), Body(entries[1..]), myId);
    }
  }

  /** peers_[id] = name for each entry in turn. */
  function Enter(peers: Peers, entries: seq<Entry>): Peers
    decreases |entries|
  {
    if entries == [] then peers else Enter(peers[entries[0].id := entries[0].name], entries[1..])
  }

  predicate LastWith(entries: seq<Entry>, k: nat) {
    k < |entries| && forall j :: k < j < |entries| ==> entries[j].id != entries[k].id
  }

  predicate Lists(entries: seq<Entry>, id: int) {
    exists e :: e in entries && e.id == id
  }

  lemma ListsCons(entries: seq<Entry>, id: int)
    requires entries != []
    ensures Lists(entries, id) <==> entries[0].id == id || Lists(entries[1..], id)
  {
    assert entries == [entries[0]] + entries[1..];
  }

  lemma {:induction false} EnterIds(peers: Peers, entries: seq<Entry>, id: int)
    ensures id in Enter(peers, entries) <==> id in peers || Lists(entries, id)
    ensures id in peers && !Lists(entries, id) ==> Enter(peers, entries)[id] == peers[id]
    decreases |entries|
  {
    if entries != [] {
      ListsCons(entries, id);
      hide Lists;
      EnterIds(peers[entries[0].id := entries[0].name], entries[1..], id);
    }
  }

  lemma {:induction false} EnterLast(peers: Peers, entries: seq<Entry>, k: nat)
    requires LastWith(entries, k)
    ensures entries[k].id in Enter(peers, entries) && Enter(peers, entries)[entries[k].id] == entries[k].name
    decreases |entries|
  {
    var e, rest := entries[0], entries[1..];
    var p := peers[e.id := e.name];
    if k > 0 {
      assert forall j :: k - 1 < j < |rest| ==> rest[j] == entries[j + 1];
      EnterLast(p, rest, k - 1);
    } else {
      assert forall j :: 0 <= j < |rest| ==> rest[j] == entries[j + 1];
      EnterIds(p, rest, e.id);
    }
  }

  /** The map holds exactly the old and the listed ids, each listed one under the name listed last for it. */
  lemma EnterLastWins(peers: Peers, entries: seq<Entry>)
    ensures forall id :: id in Enter(peers, entries) <==> id in peers || Lists(entries, id)
    ensures forall k: nat :: LastWith(entries, k) ==>
      entries[k].id in Enter(peers, entries) && Enter(peers, entries)[entries[k].id] == entries[k].name
    ensures forall id | id in peers && !Lists(entries, id) ::
      id in Enter(peers, entries) && Enter(peers, entries)[id] == peers[id]
  {
    hide Lists, Enter;
    forall id ensures id in Enter(peers, entries) <==> id in peers || Lists(entries, id)
              ensures id in peers && !Lists(entries, id) ==> Enter(peers, entries)[id] == peers[id] {
      EnterIds(peers, entries, id);
    }
    forall k: nat | LastWith(entries, k)
      ensures k < |entries| && entries[k].id in Enter(peers, entries)
      ensures Enter(peers, entries)[entries[k].id] == entries[k].name
    {
      EnterLast(peers, entries, k);
    }
  }

  /** Leaving ourselves out while reading is the same as taking ourselves out of the whole list. */
  lemma {:induction false} EnterOthers(peers: Peers, entries: seq<Entry>, myId: int)
    ensures Enter(peers - {myId}, Others(entries, myId)) == Enter(peers, entries) - {myId}
    decreases |entries|
  {
    if entries != [] {
      var e, rest := entries[0], entries[1..];
      EnterOthers(peers[e.id := e.name], rest, myId);
      if e.id == myId {
        assert peers[e.id := e.name] - {myId} == peers - {myId};
        assert Others(entries, myId) == Others(rest, myId);
      } else {
        assert peers[e.id := e.name] - {myId} == (peers - {myId})[e.id := e.name];
        assert ([e] + Others(rest, myId))[1..] == Others(rest, myId);
      }
    }
  }

  // ---------------------------------------------------------------- notifications

  /** What one notification does to the list. */
  function Notice(peers: Peers, e: Entry): Peers {
    if e.connected then peers[e.id := e.name] else peers - {e.id}
  }

  function Notices(peers: Peers, events: seq<Entry>): Peers
    decreases |events|
  {
    if events == [] then peers else Notices(Notice(peers, events[0]), events[1..])
  }

  lemma {:induction false} NoticesAboutOthers(peers: Peers, events: seq<Entry>, id: int)
    requires !Lists(events, id)
    ensures id in Notices(peers, events) <==> id in peers
    ensures id in peers ==> Notices(peers, events)[id] == peers[id]
    decreases |events|
  {
    if events != [] {
      ListsCons(events, id);
      hide Lists;
      NoticesAboutOthers(Notice(peers, events[0]), events[1..], id);
    }
  }

  lemma {:induction false} NoticesLast(peers: Peers, events: seq<Entry>, k: nat)
    requires LastWith(events, k)
    ensures var t := Notices(peers, events);
      if events[k].connected then events[k].id in t && t[events[k].id] == events[k].name else events[k].id !in t
    decreases |events|
  {
    var rest := events[1..];
    assert forall j :: 0 <= j < |rest| ==> rest[j] == events[j + 1];
    if k > 0 {
      NoticesLast(Notice(peers, events[0]), rest, k - 1);
    } else {
      NoticesAboutOthers(Notice(peers, events[0]), rest, events[0].id);
    }
  }

  /**
    After any notifications a member is on the list, under the name last notified, exactly if the last
    notification about it was a join, and one never notified is where it was.
   */
  lemma LastNoticeWins(peers: Peers, events: seq<Entry>)
    ensures forall k: nat :: LastWith(events, k) ==>
      var t := Notices(peers, events);
      if events[k].connected then events[k].id in t && t[events[k].id] == events[k].name else events[k].id !in t
    ensures forall id :: !Lists(events, id) ==>
      var t := Notices(peers, events);
      (id in t <==> id in peers) && (id in peers ==> t[id] == peers[id])
  {
    hide Lists, Notices;
    forall k: nat | LastWith(events, k)
      ensures k < |events| && var t := Notices(peers, events);
        if events[k].connected then events[k].id in t && t[events[k].id] == events[k].name else events[k].id !in t
    {
      NoticesLast(peers, events, k);
    }
    forall id | !Lists(events, id)
      ensures var t := Notices(peers, events);
        (id in t <==> id in peers) && (id in peers ==> t[id] == peers[id])
    {
      NoticesAboutOthers(peers, events, id);
    }
  }

  /** A client that starts as the server's membership without itself stays that way. */
  lemma {:induction false} NoticesMirror(server: Peers, events: seq<Entry>, myId: int)
    requires forall e | e in events :: e.id != myId
    ensures Notices(server - {myId}, events) == Notices(server, events) - {myId}
    decreases |events|
  {
    if events != [] {
      var e := events[0];
      assert e in events;
      assert Notice(server - {myId}, e) == Notice(server, e) - {myId};
      NoticesMirror(Notice(server, e), events[1..], myId);
    }
  }
}
