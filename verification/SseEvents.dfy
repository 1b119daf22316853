/**
 Server-sent events as a division of the whole byte stream at blank lines. A line ends with LF or
 CRLF; a lone CR ends nothing. This is the reference that the incremental scanner is measured against.
 */
module SseEvents {
  import opened Domain

  const LF: byte := 10
  const CR: byte := 13

  /** The LF at position i ends an empty line. */
  predicate Blank(s: seq<byte>, i: nat)
    requires i < |s|
  {
    && s[i] == LF
    && (i == 0 || s[i - 1] == LF || (s[i - 1] == CR && (i == 1 || s[i - 2] == LF)))
  }

  ghost predicate NoBlank(s: seq<byte>, lo: nat, hi: nat) {
    forall i :: lo <= i < hi && i < |s| ==> !Blank(s, i)
  }

  /** A complete event: its last byte, and no earlier one, ends an empty line. */
  ghost predicate IsEvent(e: seq<byte>) {
    |e| > 0 && Blank(e, |e| - 1) && NoBlank(e, 0, |e| - 1)
  }

  ghost function Flatten(parts: seq<seq<byte>>): seq<byte> {
    if parts == [] then [] else Flatten(parts[..|parts| - 1]) + parts[|parts| - 1]
  }

  /** `s` is divided into complete events and an unfinished rest. */
  ghost predicate IsSplit(s: seq<byte>, events: seq<seq<byte>>, rest: seq<byte>) {
    && s == Flatten(events) + rest
    && (forall k :: 0 <= k < |events| ==> IsEvent(events[k]))
    && NoBlank(rest, 0, |rest|)
  }

  datatype Split = Split(events: seq<seq<byte>>, rest: seq<byte>)

  /** The division, built byte by byte. */
  ghost function SplitOf(s: seq<byte>): Split {
    if s == [] then Split([], [])
    else
      var p := SplitOf(s[..|s| - 1]);
      var rest := p.rest + [s[|s| - 1]];
      if Blank(rest, |rest| - 1) then Split(p.events + [rest], []) else Split(p.events, rest)
  }

  lemma NoBlankSnoc(s: seq<byte>, b: byte)
    requires NoBlank(s, 0, |s|)
    ensures NoBlank(s + [b], 0, |s|)
  {
    forall i | 0 <= i < |s| ensures !Blank(s + [b], i) {
      assert !Blank(s, i);
    }
  }

  lemma FlattenSnoc(events: seq<seq<byte>>, e: seq<byte>)
    ensures Flatten(events + [e]) == Flatten(events) + e
  {
    assert (events + [e])[..|events|] == events;
  }

  lemma OneMoreByte(done: seq<byte>, rest: seq<byte>, b: byte)
    ensures (done + rest) + [b] == done + (rest + [b])
  {
  }

  /** A division of a stream that goes on by one byte. */
  lemma NextSplit(s: seq<byte>, events: seq<seq<byte>>, rest: seq<byte>, b: byte)
    requires IsSplit(s, events, rest)
    ensures var longer := rest + [b];
            if Blank(longer, |rest|) then IsSplit(s + [b], events + [longer], []) else IsSplit(s + [b], events, longer)
  {
    var longer := rest + [b];
    NoBlankSnoc(rest, b);
    OneMoreByte(Flatten(events), rest, b);
    FlattenSnoc(events, longer);
    assert Flatten(events + [longer]) + [] == Flatten(events + [longer]);
  }

  lemma SplitLastByte(s: seq<byte>)
    requires s != []
    ensures s == s[..|s| - 1] + [s[|s| - 1]]
  {
  }

  lemma {:induction false} SplitOfIsSplit(s: seq<byte>)
    ensures IsSplit(s, SplitOf(s).events, SplitOf(s).rest)
  {
    if s != [] {
      var before, b := s[..|s| - 1], s[|s| - 1];
      SplitOfIsSplit(before);
      NextSplit(before, SplitOf(before).events, SplitOf(before).rest, b);
      SplitLastByte(s);
    }
  }

  lemma {:induction false} FlattenGrows(events: seq<seq<byte>>)
    requires forall k :: 0 <= k < |events| ==> IsEvent(events[k])
    ensures |Flatten(events)| >= |events|
    ensures events != [] ==> Flatten(events)[|Flatten(events)| - 1] == LF
  {
    if events != [] {
      FlattenGrows(events[..|events| - 1]);
      assert IsEvent(events[|events| - 1]);
    }
  }

  lemma BlankShift(done: seq<byte>, rest: seq<byte>)
    requires rest != [] && (done != [] ==> done[|done| - 1] == LF)
    ensures Blank(done + rest, |done| + |rest| - 1) <==> Blank(rest, |rest| - 1)
  {
    var s := done + rest;
    assert s[|s| - 1] == rest[|rest| - 1];
    if |rest| > 1 { assert s[|s| - 2] == rest[|rest| - 2]; }
    if |rest| > 2 { assert s[|s| - 3] == rest[|rest| - 3]; }
  }

  lemma SplitSnoc(s: seq<byte>, b: byte)
    ensures var p := SplitOf(s); var rest := p.rest + [b];
            SplitOf(s + [b]) == if Blank(rest, |rest| - 1) then Split(p.events + [rest], []) else Split(p.events, rest)
  {
    assert (s + [b])[..|s|] == s;
  }

  /** One more byte after a division that is known. */
  lemma SplitGrows(s: seq<byte>, events: seq<seq<byte>>, rest: seq<byte>, b: byte)
    requires SplitOf(s) == Split(events, rest)
    ensures SplitOf(s + [b]) ==
            if Blank(rest + [b], |rest|) then Split(events + [rest + [b]], []) else Split(events, rest + [b])
  {
    SplitSnoc(s, b);
  }

  lemma SplitLonger(s: seq<byte>, t: seq<byte>, b: byte, events: seq<seq<byte>>, rest: seq<byte>)
    requires SplitOf(s + t) == Split(events, rest + t) && !Blank(rest + (t + [b]), |rest| + |t|)
    ensures SplitOf(s + (t + [b])) == Split(events, rest + (t + [b]))
  {
    SplitGrows(s + t, events, rest + t, b);
    OneMoreByte(s, t, b);
    OneMoreByte(rest, t, b);
  }

  lemma NoBlankBefore(rest: seq<byte>, t: seq<byte>, b: byte)
    requires NoBlank(rest + (t + [b]), |rest|, |rest| + |t| + 1)
    ensures NoBlank(rest + t, |rest|, |rest| + |t|) && !Blank(rest + (t + [b]), |rest| + |t|)
  {
    OneMoreByte(rest, t, b);
    BlankPrefix(rest + t, b, |rest|);
  }

  /** Bytes that end no empty line only lengthen the rest. */
  lemma {:induction false} SplitBlock(s: seq<byte>, t: seq<byte>)
    requires var rest := SplitOf(s).rest; NoBlank(rest + t, |rest|, |rest| + |t|)
    ensures SplitOf(s + t) == Split(SplitOf(s).events, SplitOf(s).rest + t)
    decreases |t|
  {
    if t == [] {
      assert s + t == s && SplitOf(s).rest + t == SplitOf(s).rest;
    } else {
      var before, b := t[..|t| - 1], t[|t| - 1];
      SplitLastByte(t);
      NoBlankBefore(SplitOf(s).rest, before, b);
      SplitBlock(s, before);
      SplitLonger(s, before, b, SplitOf(s).events, SplitOf(s).rest);
    }
  }

  lemma BlankPrefix(s: seq<byte>, b: byte, lo: nat)
    requires NoBlank(s + [b], lo, |s|)
    ensures NoBlank(s, lo, |s|)
  {
    forall i | lo <= i < |s| ensures !Blank(s, i) { assert !Blank(s + [b], i); }
  }

  /** Bytes whose last one ends the first empty line close the event. */
  lemma SplitEnd(s: seq<byte>, t: seq<byte>, b: byte)
    requires var rest := SplitOf(s).rest;
             NoBlank(rest + t, |rest|, |rest| + |t|) && Blank(rest + t + [b], |rest| + |t|)
    ensures SplitOf(s + t + [b]) == Split(SplitOf(s).events + [SplitOf(s).rest + t + [b]], [])
  {
    SplitBlock(s, t);
    SplitGrows(s + t, SplitOf(s).events, SplitOf(s).rest + t, b);
  }

  /** There is only one division. */
  lemma SplitUnique(s: seq<byte>, events: seq<seq<byte>>, rest: seq<byte>)
    requires IsSplit(s, events, rest)
    ensures SplitOf(s) == Split(events, rest)
  {
    SplitComplete(events);
    assert [] + rest == rest;
    SplitBlock(Flatten(events), rest);
  }

  lemma SplitEvent(s: seq<byte>, e: seq<byte>)
    requires SplitOf(s).rest == [] && IsEvent(e)
    ensures SplitOf(s + e) == Split(SplitOf(s).events + [e], [])
  {
    SplitLastByte(e);
    SplitEventAt(s, e[..|e| - 1], e[|e| - 1]);
  }

  lemma SplitEventAt(s: seq<byte>, t: seq<byte>, b: byte)
    requires SplitOf(s).rest == [] && IsEvent(t + [b])
    ensures SplitOf(s + (t + [b])) == Split(SplitOf(s).events + [t + [b]], [])
  {
    BlankPrefix(t, b, 0);
    assert [] + t == t;
    SplitEnd(s, t, b);
    OneMoreByte(s, t, b);
  }

  lemma SplitOneMore(before: seq<seq<byte>>, last: seq<byte>)
    requires SplitOf(Flatten(before)) == Split(before, []) && IsEvent(last)
    ensures SplitOf(Flatten(before + [last])) == Split(before + [last], [])
  {
    SplitEvent(Flatten(before), last);
    FlattenSnoc(before, last);
  }

  lemma SplitLastEvent(events: seq<seq<byte>>)
    requires events != []
    ensures events == events[..|events| - 1] + [events[|events| - 1]]
  {
  }

  lemma {:induction false} SplitComplete(events: seq<seq<byte>>)
    requires forall k :: 0 <= k < |events| ==> IsEvent(events[k])
    ensures SplitOf(Flatten(events)) == Split(events, [])
  {
    if events == [] {
      assert Flatten(events) == [];
    } else {
      var before := events[..|events| - 1];
      SplitComplete(before);
      SplitOneMore(before, events[|events| - 1]);
      SplitLastEvent(events);
    }
  }

  /** The blank lines of the stream as a whole are exactly the ends of its events: looking at the bytes of the
      current event decides as looking at the whole stream would. */
  lemma BlankInStream(s: seq<byte>)
    requires s != []
    ensures Blank(s, |s| - 1) <==> SplitOf(s).rest == []
  {
    SplitLastByte(s);
    BlankNext(s[..|s| - 1], s[|s| - 1]);
  }

  lemma BlankNext(s: seq<byte>, b: byte)
    ensures Blank(s + [b], |s|) <==> SplitOf(s + [b]).rest == []
  {
    var p := SplitOf(s);
    SplitOfIsSplit(s);
    BlankAfterEvents(p.events, p.rest, b);
    SplitSnoc(s, b);
  }

  lemma BlankAfterEvents(events: seq<seq<byte>>, rest: seq<byte>, b: byte)
    requires forall k :: 0 <= k < |events| ==> IsEvent(events[k])
    ensures var s := Flatten(events) + rest; Blank(s + [b], |s|) <==> Blank(rest + [b], |rest|)
  {
    FlattenGrows(events);
    OneMoreByte(Flatten(events), rest, b);
    BlankShift(Flatten(events), rest + [b]);
  }
}
