/** What any sequence of writes leaves in the file, and what a reader of the file gets. */
module SinkRuns {
  import opened Primitives
  import opened JsonRecord
  import opened SinkModel

  type WriteCall = (CanonicalEvent, WriteEnv)

  /** The sink after the writes, over a file that held `original`. */
  function Run(original: string, limit: u64, open: OpenEnv, writes: seq<WriteCall>): Sink
    decreases |writes|
  {
    if writes == [] then Open(original, limit, open)
    else
      var n := |writes| - 1;
      Write(Run(original, limit, open, writes[..n]), writes[n].0, writes[n].1)
  }

  /** The events that carry a payload, in order. */
  function Events(writes: seq<WriteCall>): (r: seq<CanonicalEvent>)
    ensures forall i :: 0 <= i < |r| ==> r[i].raw.Some?
    decreases |writes|
  {
    if writes == [] then []
    else
      var n := |writes| - 1;
      Events(writes[..n]) + if writes[n].0.raw.Some? then [writes[n].0] else []
  }

  function Lines(events: seq<CanonicalEvent>): seq<string>
    requires forall i :: 0 <= i < |events| ==> events[i].raw.Some?
  {
    seq(|events|, i requires 0 <= i < |events| => Line(events[i]))
  }

  function Views(events: seq<CanonicalEvent>): seq<Option<Printed>>
    requires forall i :: 0 <= i < |events| ==> events[i].raw.Some?
  {
    seq(|events|, i requires 0 <= i < |events| => Some(Visible(events[i])))
  }

  // ---- invariants of a run ------------------------------------------------

  lemma LineIsFramed(c: CanonicalEvent)
    requires c.raw.Some?
    ensures Framed(Line(c))
  {
    hide Line;
    LineHasOneLineFeed(c);
  }

  /** In every reachable state file, size counter, flush counter and history agree. */
  lemma {:induction false} RunIsGood(original: string, limit: u64, open: OpenEnv, writes: seq<WriteCall>)
    ensures Good(Run(original, limit, open, writes), original)
    ensures Run(original, limit, open, writes).limit == limit
    decreases |writes|
  {
    hide Good, Line, Open, WriteLine, Framed;
    if writes == [] {
      OpenIsGood(original, limit, open);
      assert Open(original, limit, open).limit == limit by { OpenKeepsLimit(original, limit, open); }
    } else {
      var n := |writes| - 1;
      RunIsGood(original, limit, open, writes[..n]);
      var s := Run(original, limit, open, writes[..n]);
      var c := writes[n].0;
      if s.ready && c.raw.Some? {
        LineIsFramed(c);
        WriteKeepsGood(s, original, Line(c), writes[n].1);
        WriteShape(s, Line(c), writes[n].1);
      }
    }
  }

  lemma OpenKeepsLimit(original: string, limit: u64, open: OpenEnv)
    ensures Open(original, limit, open).limit == limit && Open(original, limit, open).accepted == []
  {}

  lemma WriteShape(s: Sink, line: string, env: WriteEnv)
    requires s.ready
    ensures var t := WriteLine(s, line, env);
            && t.limit == s.limit
            && t.accepted == (if t.ready then s.accepted + [line] else s.accepted)
            && |t.file| <= |s.file| + |line|
  {
    hide MustRotate;
  }

  /** No event is skipped, repeated or reordered: the records written are the events so far, all of them while ready. */
  lemma {:induction false} AcceptedAreTheEvents(original: string, limit: u64, open: OpenEnv, writes: seq<WriteCall>)
    ensures var s := Run(original, limit, open, writes);
            && s.accepted <= Lines(Events(writes))
            && (s.ready ==> s.accepted == Lines(Events(writes)))
    decreases |writes|
  {
    hide Line, Open, WriteLine;
    if writes == [] {
      OpenKeepsLimit(original, limit, open);
    } else {
      var n := |writes| - 1;
      AcceptedAreTheEvents(original, limit, open, writes[..n]);
      var s := Run(original, limit, open, writes[..n]);
      var c := writes[n].0;
      if c.raw.Some? {
        LinesAppend(Events(writes[..n]), c);
        if s.ready {
          WriteShape(s, Line(c), writes[n].1);
        }
      } else {
        assert Events(writes) == Events(writes[..n]);
      }
    }
  }

  lemma LinesAppend(events: seq<CanonicalEvent>, c: CanonicalEvent)
    requires c.raw.Some? && forall i :: 0 <= i < |events| ==> events[i].raw.Some?
    ensures Lines(events + [c]) == Lines(events) + [Line(c)]
  {
    hide Line;
  }

  // ---- reading the file ---------------------------------------------------

  /** The length of the first line, its line feed included. */
  function LineLength(t: string): (n: nat)
    requires t != ""
    ensures 1 <= n <= |t|
  {
    if t[0] == '\n' || |t| == 1 then 1 else 1 + LineLength(t[1..])
  }

  function SplitLines(t: string): seq<string>
    decreases |t|
  {
    if t == "" then [] else [t[..LineLength(t)]] + SplitLines(t[LineLength(t)..])
  }

  lemma {:induction false} FirstLineIs(r: string, rest: string)
    requires Framed(r)
    ensures LineLength(r + rest) == |r|
    decreases |r|
  {
    if |r| > 1 {
      assert r[0] in r[..|r| - 1];
      assert (r + rest)[1..] == r[1..] + rest;
      assert r[1..][..|r| - 2] == r[..|r| - 1][1..];
      FirstLineIs(r[1..], rest);
    }
  }

  /** Splitting at line feeds recovers the records. */
  lemma {:induction false} SplitRecoversRecords(rs: seq<string>)
    requires AllFramed(rs)
    ensures SplitLines(Concat(rs)) == rs
    decreases |rs|
  {
    if rs != [] {
      var rest := Concat(rs[1..]);
      FirstLineIs(rs[0], rest);
      SplitRecoversRecords(rs[1..]);
      assert (rs[0] + rest)[..|rs[0]|] == rs[0] && (rs[0] + rest)[|rs[0]|..] == rest;
    }
  }

  /** What a reader makes of a text of lines. */
  function ReadAll(t: string): seq<Option<Printed>> {
    var ls := SplitLines(t);
    seq(|ls|, i requires 0 <= i < |ls| => ReadLine(ls[i]))
  }

  lemma ReadAllLines(events: seq<CanonicalEvent>)
    requires forall i :: 0 <= i < |events| ==> events[i].raw.Some?
    ensures ReadAll(Concat(Lines(events))) == Views(events)
  {
    hide Line, ReadLine, Visible, SplitLines, Concat;
    var ls := Lines(events);
    forall i | 0 <= i < |ls|
      ensures Framed(ls[i]) && ReadLine(ls[i]) == Some(Visible(events[i]))
    {
      LineIsFramed(events[i]);
      LineReadsBack(events[i]);
    }
    SplitRecoversRecords(ls);
  }

  /**
   * After any writes, what follows the file's original content reads back as the latest events
   * without a gap. The original content is still there in front, with every event after it,
   * unless the file was started anew.
   */
  lemma FileReadsBack(original: string, limit: u64, open: OpenEnv, writes: seq<WriteCall>)
    requires Run(original, limit, open, writes).ready
    ensures var s := Run(original, limit, open, writes);
            var events := Events(writes);
            && (s.base == "" || (s.base == original && |s.kept| == |events|))
            && s.base <= s.file
            && |s.kept| <= |events|
            && ReadAll(s.file[|s.base|..]) == Views(events[|events| - |s.kept|..])
  {
    hide Run, Line, Concat, ReadAll, Views, AllFramed, SizeExact, PendingExact;
    var s := Run(original, limit, open, writes);
    var events := Events(writes);
    RunIsGood(original, limit, open, writes);
    AcceptedAreTheEvents(original, limit, open, writes);
    var latest := events[|events| - |s.kept|..];
    assert s.kept == Lines(latest);
    ReadAllLines(latest);
    assert s.file[|s.base|..] == Concat(s.kept);
  }

  /** At most 255 whole records, and nothing else, would be lost with the unflushed bytes. */
  lemma UnflushedAreWholeRecords(original: string, limit: u64, open: OpenEnv, writes: seq<WriteCall>)
    requires Run(original, limit, open, writes).ready
    ensures var s := Run(original, limit, open, writes);
            var events := Events(writes);
            && s.pending < 256 && s.pending <= |events|
            && s.durable <= |s.file|
            && ReadAll(s.file[s.durable..]) == Views(events[|events| - s.pending..])
  {
    hide Run, Line, Concat, ReadAll, Views, AllFramed, SizeExact;
    var s := Run(original, limit, open, writes);
    var events := Events(writes);
    RunIsGood(original, limit, open, writes);
    AcceptedAreTheEvents(original, limit, open, writes);
    var latest := events[|events| - s.pending..];
    assert s.kept[|s.kept| - s.pending..] == Lines(latest);
    ReadAllLines(latest);
  }

  // ---- size ---------------------------------------------------------------

  /** The bytes that all the writes together could put into one file. */
  function Volume(original: string, events: seq<CanonicalEvent>): nat
    requires forall i :: 0 <= i < |events| ==> events[i].raw.Some?
  {
    |original| + |Concat(Lines(events))|
  }

  lemma VolumeGrows(original: string, events: seq<CanonicalEvent>, c: CanonicalEvent)
    requires c.raw.Some? && forall i :: 0 <= i < |events| ==> events[i].raw.Some?
    ensures Volume(original, events + [c]) == Volume(original, events) + |Line(c)|
  {
    hide Line;
    LinesAppend(events, c);
    ConcatAppend(Lines(events), [Line(c)]);
    assert Concat([Line(c)]) == Line(c) + Concat([]);
  }

  lemma {:induction false} SizeStaysKnown(original: string, limit: u64, open: OpenEnv, writes: seq<WriteCall>)
    requires open.sizeRead && Volume(original, Events(writes)) < TWO_64
    ensures var s := Run(original, limit, open, writes);
            (s.ready ==> s.untracked == 0) && |s.file| <= Volume(original, Events(writes))
    decreases |writes|
  {
    hide Line, WriteLine, Volume;
    if writes == [] {
      assert Volume(original, []) == |original| by { VolumeOfNothing(original); }
    } else {
      var n := |writes| - 1;
      var c := writes[n].0;
      if c.raw.Some? {
        VolumeGrows(original, Events(writes[..n]), c);
      } else {
        assert Events(writes) == Events(writes[..n]);
      }
      SizeStaysKnown(original, limit, open, writes[..n]);
      var s := Run(original, limit, open, writes[..n]);
      if s.ready && c.raw.Some? {
        RunIsGood(original, limit, open, writes[..n]);
        SizeIsBounded(s, original, Line(c), writes[n].1);
        WriteShape(s, Line(c), writes[n].1);
      }
    }
  }

  lemma VolumeOfNothing(original: string)
    ensures Volume(original, []) == |original|
  {}

  /** With a limit set, a write leaves the file within the limit or holding the one longer record. */
  lemma FileSizeIsBounded(original: string, limit: u64, open: OpenEnv, writes: seq<WriteCall>)
    requires writes != [] && writes[|writes| - 1].0.raw.Some?
    requires limit != 0 && open.sizeRead && Volume(original, Events(writes)) < TWO_64
    requires Run(original, limit, open, writes).ready
    ensures var last := |Line(writes[|writes| - 1].0)|;
            |Run(original, limit, open, writes).file| <= if last < limit then limit else last
  {
    hide Line, WriteLine, Volume;
    var n := |writes| - 1;
    var c := writes[n].0;
    VolumeGrows(original, Events(writes[..n]), c);
    SizeStaysKnown(original, limit, open, writes[..n]);
    RunIsGood(original, limit, open, writes[..n]);
    SizeIsBounded(Run(original, limit, open, writes[..n]), original, Line(c), writes[n].1);
  }

  /** Without a limit nothing is ever dropped: the file is its original content and every event. */
  lemma {:induction false} NoLimitNoRotation(original: string, open: OpenEnv, writes: seq<WriteCall>)
    ensures var s := Run(original, 0, open, writes);
            s.ready == open.canOpen && s.file == original + Concat(if open.canOpen then Lines(Events(writes)) else [])
    decreases |writes|
  {
    hide Line, Concat, WriteLine, Open;
    if writes == [] {
      OpenShape(original, open);
      assert Lines([]) == [];
      assert Concat([]) == "" by { ConcatOfNothing(); }
      assert original + "" == original;
    } else {
      var n := |writes| - 1;
      var c := writes[n].0;
      var s := Run(original, 0, open, writes[..n]);
      var before := Events(writes[..n]);
      NoLimitNoRotation(original, open, writes[..n]);
      RunIsGood(original, 0, open, writes[..n]);
      hide Good, Lines;
      assert Run(original, 0, open, writes) == Write(s, c, writes[n].1);
      if c.raw.None? {
        assert Events(writes) == before;
      } else if open.canOpen {
        UnlimitedWriteAppends(s, Line(c), writes[n].1);
        assert Events(writes) == before + [c];
        LinesAppend(before, c);
        ConcatAppend(Lines(before), [Line(c)]);
        ConcatOfOne(Line(c));
      }
    }
  }

  lemma OpenShape(original: string, open: OpenEnv)
    ensures Open(original, 0, open).file == original && Open(original, 0, open).ready == open.canOpen
  {}

  lemma UnlimitedWriteAppends(s: Sink, line: string, env: WriteEnv)
    requires s.limit == 0
    ensures WriteLine(s, line, env).file == s.file + line && WriteLine(s, line, env).ready == s.ready
  {}

  lemma ConcatOfNothing()
    ensures Concat([]) == ""
  {}

  lemma ConcatOfOne(r: string)
    ensures Concat([r]) == r
  {
    assert [r][1..] == [];
  }
}
