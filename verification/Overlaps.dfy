/** src/vemsa/pipeline/speaker_review.py, detect_overlaps: the sweep. */
module Overlaps {
  import opened Base
  import opened Models
  import opened Decimal

  datatype SpeechOverlap = SpeechOverlap(id: string, start: real, end: real, detectedSpeakerCount: nat)

  // ---- what the sweep is about

  function Begin(turn: Turn): real {
    Max(0.0, turn.start)
  }

  /** A turn covers the half-open stretch from its start, clamped to zero, to its end. */
  predicate Covers(turn: Turn, t: real) {
    Begin(turn) <= t < turn.end
  }

  /** Who speaks at time t. */
  ghost function Speakers(turns: seq<Turn>, t: real): set<string> {
    set i | 0 <= i < |turns| && Covers(turns[i], t) :: turns[i].speaker
  }

  ghost predicate Listed(overlaps: seq<SpeechOverlap>, t: real) {
    exists i :: 0 <= i < |overlaps| && overlaps[i].start <= t < overlaps[i].end
  }

  function OverlapId(n: nat): string {
    "overlap_" + Padded(n, 4)
  }

  /** One listed overlap: a positive stretch over which the same two or more voices speak. */
  ghost predicate OneOverlap(turns: seq<Turn>, o: SpeechOverlap) {
    && 0.0 <= o.start < o.end
    && o.detectedSpeakerCount == |Speakers(turns, o.start)| >= 2
    && forall t :: o.start <= t < o.end ==> Speakers(turns, t) == Speakers(turns, o.start)
  }

  /** The contract of the result: ordered, disjoint, each overlap with its own id, and
      touching ones different in who speaks. */
  ghost predicate Orderly(turns: seq<Turn>, overlaps: seq<SpeechOverlap>) {
    && (forall i :: 0 <= i < |overlaps| ==> OneOverlap(turns, overlaps[i]) && overlaps[i].id == OverlapId(i))
    && (forall i :: 1 <= i < |overlaps| ==>
          && overlaps[i - 1].end <= overlaps[i].start
          && (overlaps[i - 1].end == overlaps[i].start ==>
                Speakers(turns, overlaps[i - 1].start) != Speakers(turns, overlaps[i].start)))
  }

  /** A time is listed exactly when two or more voices speak. */
  ghost predicate ExactAt(turns: seq<Turn>, overlaps: seq<SpeechOverlap>, t: real) {
    Listed(overlaps, t) <==> |Speakers(turns, t)| >= 2
  }

  ghost predicate Swept(turns: seq<Turn>, overlaps: seq<SpeechOverlap>, until: real) {
    && Orderly(turns, overlaps)
    && (forall i :: 0 <= i < |overlaps| ==> overlaps[i].end <= until)
    && (forall t :: 0.0 <= t < until ==> ExactAt(turns, overlaps, t))
  }

  // ---- counting voices by their edges

  predicate Edged(turn: Turn, speaker: string) {
    turn.speaker == speaker && Begin(turn) < turn.end
  }

  /** How many turns of a speaker cover time t. */
  function Load(turns: seq<Turn>, speaker: string, t: real): nat {
    if turns == [] then 0
    else
      var n := |turns| - 1;
      Load(turns[..n], speaker, t) + if turns[n].speaker == speaker && Covers(turns[n], t) then 1 else 0
  }

  /** Turns of a speaker that begin at t, less those that end there. */
  function Delta(turns: seq<Turn>, speaker: string, t: real): int {
    if turns == [] then 0
    else
      var n := |turns| - 1;
      var turn := turns[n];
      Delta(turns[..n], speaker, t) + if !Edged(turn, speaker) then 0
        else (if Begin(turn) == t then 1 else 0) - (if turn.end == t then 1 else 0)
  }

  /** Where something begins or ends. */
  ghost predicate Edge(turns: seq<Turn>, t: real) {
    exists i :: 0 <= i < |turns| && Begin(turns[i]) < turns[i].end && (Begin(turns[i]) == t || turns[i].end == t)
  }

  lemma EdgeGrows(turns: seq<Turn>, turn: Turn, t: real)
    ensures Edge(turns + [turn], t)
      <==> Edge(turns, t) || (Begin(turn) < turn.end && (Begin(turn) == t || turn.end == t))
  {
    var all := turns + [turn];
    assert all[|turns|] == turn;
    if Edge(turns, t) {
      var i :| 0 <= i < |turns| && Begin(turns[i]) < turns[i].end && (Begin(turns[i]) == t || turns[i].end == t);
      assert all[i] == turns[i];
    }
  }

  lemma EdgePrefix(turns: seq<Turn>, t: real)
    requires turns != []
    ensures var n := |turns| - 1;
      Edge(turns, t)
      <==> (Edge(turns[..n], t)
            || (Begin(turns[n]) < turns[n].end && (Begin(turns[n]) == t || turns[n].end == t)))
  {
    var n := |turns| - 1;
    EdgeGrows(turns[..n], turns[n], t);
    assert turns == turns[..n] + [turns[n]];
  }

  /** Between edges nothing changes; at an edge the load changes by the edge's delta. */
  lemma {:induction false} LoadSteps(turns: seq<Turn>, speaker: string, p: real, t: real)
    requires p < t && forall x :: p < x < t ==> !Edge(turns, x)
    ensures Load(turns, speaker, t) == Load(turns, speaker, p) + Delta(turns, speaker, t)
  {
    if turns != [] {
      var n := |turns| - 1;
      var before := turns[..n];
      forall x | p < x < t ensures !Edge(before, x) {
        EdgePrefix(turns, x);
      }
      EdgePrefix(turns, Begin(turns[n]));
      EdgePrefix(turns, turns[n].end);
      LoadSteps(before, speaker, p, t);
    }
  }

  lemma {:induction false} NoEdgeNoDelta(turns: seq<Turn>, speaker: string, t: real)
    requires !Edge(turns, t)
    ensures Delta(turns, speaker, t) == 0
  {
    if turns != [] {
      EdgePrefix(turns, t);
      NoEdgeNoDelta(turns[..|turns| - 1], speaker, t);
    }
  }

  lemma {:induction false} NothingBegun(turns: seq<Turn>, speaker: string, t: real)
    requires forall x :: x <= t ==> !Edge(turns, x)
    ensures Load(turns, speaker, t) == 0
  {
    if turns != [] {
      var before := turns[..|turns| - 1];
      forall x | x <= t ensures !Edge(before, x) {
        EdgePrefix(turns, x);
      }
      EdgePrefix(turns, Begin(turns[|turns| - 1]));
      NothingBegun(before, speaker, t);
    }
  }

  lemma {:induction false} AllOver(turns: seq<Turn>, speaker: string, t: real)
    requires forall x :: t < x ==> !Edge(turns, x)
    ensures Load(turns, speaker, t) == 0
  {
    if turns != [] {
      var before := turns[..|turns| - 1];
      forall x | t < x ensures !Edge(before, x) {
        EdgePrefix(turns, x);
      }
      EdgePrefix(turns, turns[|turns| - 1].end);
      AllOver(before, speaker, t);
    }
  }

  lemma {:induction false} SpeaksIffLoaded(turns: seq<Turn>, speaker: string, t: real)
    ensures speaker in Speakers(turns, t) <==> Load(turns, speaker, t) > 0
  {
    if turns != [] {
      var n := |turns| - 1;
      SpeaksIffLoaded(turns[..n], speaker, t);
      if speaker in Speakers(turns[..n], t) {
        var i :| 0 <= i < n && Covers(turns[..n][i], t) && turns[..n][i].speaker == speaker;
        assert turns[i] == turns[..n][i];
      }
      if speaker in Speakers(turns, t) {
        var i :| 0 <= i < |turns| && Covers(turns[i], t) && turns[i].speaker == speaker;
        if i < n {
          assert turns[..n][i] == turns[i];
        }
      }
    }
  }

  lemma SameLoadSameSpeakers(turns: seq<Turn>, p: real, t: real)
    requires forall s :: Load(turns, s, p) == Load(turns, s, t)
    ensures Speakers(turns, p) == Speakers(turns, t)
  {
    forall s ensures s in Speakers(turns, p) <==> s in Speakers(turns, t) {
      SpeaksIffLoaded(turns, s, p);
      SpeaksIffLoaded(turns, s, t);
    }
  }

  lemma ConstantBetweenEdges(turns: seq<Turn>, p: real, t: real)
    requires p <= t && forall x :: p < x <= t ==> !Edge(turns, x)
    ensures Speakers(turns, t) == Speakers(turns, p)
  {
    if p < t {
      forall s ensures Load(turns, s, p) == Load(turns, s, t) {
        LoadSteps(turns, s, p, t);
        NoEdgeNoDelta(turns, s, t);
      }
      SameLoadSameSpeakers(turns, p, t);
    }
  }

  lemma SilentWhen(turns: seq<Turn>, t: real)
    requires forall s :: Load(turns, s, t) == 0
    ensures Speakers(turns, t) == {}
  {
    forall s ensures s !in Speakers(turns, t) {
      SpeaksIffLoaded(turns, s, t);
    }
  }

  // ---- the sweep's steps on the list of overlaps

  lemma EndsBy(turns: seq<Turn>, overlaps: seq<SpeechOverlap>, until: real)
    requires Swept(turns, overlaps, until)
    ensures forall i :: 0 <= i < |overlaps| ==> overlaps[i].end <= until
  {
  }

  lemma SweepSilence(turns: seq<Turn>, overlaps: seq<SpeechOverlap>, p: real, q: real)
    requires Swept(turns, overlaps, p) && p <= q
    requires forall t :: p <= t < q ==> |Speakers(turns, t)| < 2
    ensures Swept(turns, overlaps, q)
  {
  }

  lemma OrderlyNew(turns: seq<Turn>, overlaps: seq<SpeechOverlap>, o: SpeechOverlap)
    requires Orderly(turns, overlaps) && OneOverlap(turns, o) && o.id == OverlapId(|overlaps|)
    requires overlaps != [] ==>
      var last := overlaps[|overlaps| - 1];
      last.end <= o.start && (last.end == o.start ==> Speakers(turns, last.start) != Speakers(turns, o.start))
    ensures Orderly(turns, overlaps + [o])
  {
    hide OneOverlap;
  }

  lemma SweepNew(turns: seq<Turn>, overlaps: seq<SpeechOverlap>, p: real, q: real)
    requires Swept(turns, overlaps, p) && 0.0 <= p < q && |Speakers(turns, p)| >= 2
    requires forall t :: p <= t < q ==> Speakers(turns, t) == Speakers(turns, p)
    requires overlaps != [] && overlaps[|overlaps| - 1].end == p ==>
      Speakers(turns, overlaps[|overlaps| - 1].start) != Speakers(turns, p)
    ensures Swept(turns, overlaps + [SpeechOverlap(OverlapId(|overlaps|), p, q, |Speakers(turns, p)|)], q)
  {
    var o := SpeechOverlap(OverlapId(|overlaps|), p, q, |Speakers(turns, p)|);
    var more := overlaps + [o];
    OrderlyNew(turns, overlaps, o);
    hide Orderly, Speakers;
    forall t | 0.0 <= t < q ensures ExactAt(turns, more, t) {
      if t < p {
        assert ExactAt(turns, overlaps, t);
        if Listed(overlaps, t) {
          var i :| 0 <= i < |overlaps| && overlaps[i].start <= t < overlaps[i].end;
          assert more[i] == overlaps[i];
        }
      } else {
        assert more[|overlaps|] == o;
      }
    }
  }

  lemma ListedLonger(overlaps: seq<SpeechOverlap>, q: real, t: real)
    requires overlaps != [] && overlaps[|overlaps| - 1].start < overlaps[|overlaps| - 1].end <= q
    ensures var n := |overlaps| - 1;
      Listed(overlaps[n := overlaps[n].(end := q)], t)
      <==> (Listed(overlaps, t) || overlaps[n].end <= t < q)
  {
    var n := |overlaps| - 1;
    var longer := overlaps[n := overlaps[n].(end := q)];
    if Listed(overlaps, t) {
      var i :| 0 <= i < |overlaps| && overlaps[i].start <= t < overlaps[i].end;
      assert longer[i].start <= t < longer[i].end;
    }
    if Listed(longer, t) {
      var i :| 0 <= i < |overlaps| && longer[i].start <= t < longer[i].end;
      if i < n || t < overlaps[n].end {
        assert overlaps[i].start <= t < overlaps[i].end;
      }
    }
    if overlaps[n].end <= t < q {
      assert longer[n].start <= t < longer[n].end;
    }
  }

  lemma OneLonger(turns: seq<Turn>, o: SpeechOverlap, q: real)
    requires OneOverlap(turns, o) && o.end < q
    requires forall t :: o.end <= t < q ==> Speakers(turns, t) == Speakers(turns, o.start)
    ensures OneOverlap(turns, o.(end := q))
  {
    hide Speakers;
  }

  lemma SweepLonger(turns: seq<Turn>, overlaps: seq<SpeechOverlap>, p: real, q: real)
    requires Swept(turns, overlaps, p) && 0.0 <= p < q && |Speakers(turns, p)| >= 2
    requires forall t :: p <= t < q ==> Speakers(turns, t) == Speakers(turns, p)
    requires overlaps != [] && overlaps[|overlaps| - 1].end == p
    requires Speakers(turns, overlaps[|overlaps| - 1].start) == Speakers(turns, p)
    ensures var n := |overlaps| - 1;
      Swept(turns, overlaps[n := overlaps[n].(end := q)], q)
  {
    var last := overlaps[|overlaps| - 1];
    var longer := overlaps[|overlaps| - 1 := last.(end := q)];
    hide Listed, Speakers;
    assert OneOverlap(turns, last);
    OneLonger(turns, last, q);
    assert last.start < last.end;
    hide OneOverlap;
    hide Orderly;
    assert forall i :: 0 <= i < |longer| ==> longer[i].end <= q;
    forall t | 0.0 <= t < q ensures ExactAt(turns, longer, t) {
      ListedLonger(overlaps, q, t);
      assert t < p ==> ExactAt(turns, overlaps, t);
    }
    hide ExactAt;
  }

  // ---- Counter

  function Get(counter: map<string, int>, speaker: string): int {
    if speaker in counter then counter[speaker] else 0
  }

  /** active.update(changes), then the entries that are not positive dropped. */
  function Updated(active: map<string, int>, changes: map<string, int>): map<string, int> {
    map s | s in active.Keys + changes.Keys && Get(active, s) + Get(changes, s) > 0 ::
      Get(active, s) + Get(changes, s)
  }

  type Events = map<real, map<string, int>>

  function At(events: Events, t: real): map<string, int> {
    if t in events then events[t] else map[]
  }

  /** events[time][speaker] += change */
  function Bump(events: Events, time: real, speaker: string, change: int): Events {
    events[time := At(events, time)[speaker := Get(At(events, time), speaker) + change]]
  }

  ghost predicate Collected(turns: seq<Turn>, events: Events) {
    && (forall t :: t in events <==> Edge(turns, t))
    && (forall t, s :: t in events ==> Get(events[t], s) == Delta(turns, s, t))
  }

  lemma DeltaSnoc(turns: seq<Turn>, turn: Turn, speaker: string, t: real)
    ensures Delta(turns + [turn], speaker, t) == Delta(turns, speaker, t)
      + if !Edged(turn, speaker) then 0
        else (if Begin(turn) == t then 1 else 0) - (if turn.end == t then 1 else 0)
  {
    assert (turns + [turn])[..|turns|] == turns;
  }

  lemma CollectTurn(turns: seq<Turn>, turn: Turn, events: Events)
    requires Collected(turns, events)
    ensures Collected(turns + [turn],
      if turn.end <= Begin(turn) then events
      else Bump(Bump(events, Begin(turn), turn.speaker, 1), turn.end, turn.speaker, -1))
  {
    hide Delta, Edge;
    var all := turns + [turn];
    var after := if turn.end <= Begin(turn) then events
      else Bump(Bump(events, Begin(turn), turn.speaker, 1), turn.end, turn.speaker, -1);
    forall t ensures t in after <==> Edge(all, t) {
      EdgeGrows(turns, turn, t);
    }
    forall t, s | t in after ensures Get(after[t], s) == Delta(all, s, t) {
      DeltaSnoc(turns, turn, s, t);
      if t !in events {
        NoEdgeNoDelta(turns, s, t);
      }
    }
  }

  lemma NothingCollected()
    ensures Collected([], map[])
  {
  }

  ghost predicate Keys(events: Events, keys: seq<real>) {
    && (forall t :: t in keys <==> t in events)
    && (forall i, j :: 0 <= i < j < |keys| ==> keys[i] != keys[j])
  }

  /** The edges of all turns, and the keys in the order they first appeared. */
  method CollectEvents(turns: seq<Turn>) returns (events: Events, keys: seq<real>)
    ensures Collected(turns, events) && Keys(events, keys)
  {
    events, keys := map[], [];
    NothingCollected();
    assert turns[..0] == [];
    hide Get, Delta, Edge, Collected;
    for i := 0 to |turns|
      invariant Collected(turns[..i], events) && Keys(events, keys)
    {
      var turn := turns[i];
      CollectTurn(turns[..i], turn, events);
      assert turns[..i + 1] == turns[..i] + [turn];
      var start := Max(0.0, turn.start);
      if turn.end <= start {
        continue;
      }
      if start !in events {
        keys := keys + [start];
      }
      events := Bump(events, start, turn.speaker, 1);
      if turn.end !in events {
        keys := keys + [turn.end];
      }
      events := Bump(events, turn.end, turn.speaker, -1);
    }
    assert turns[..|turns|] == turns;
  }

  /** What the counter holds right after the sweep has processed time p. */
  ghost predicate Counts(turns: seq<Turn>, active: map<string, int>, p: real) {
    forall s :: Get(active, s) == Load(turns, s, p)
  }

  lemma CountsSpeakers(turns: seq<Turn>, active: map<string, int>, p: real)
    requires Counts(turns, active, p)
    ensures (set s | s in active && active[s] > 0) == Speakers(turns, p)
  {
    forall s ensures s in (set s | s in active && active[s] > 0) <==> s in Speakers(turns, p) {
      SpeaksIffLoaded(turns, s, p);
      assert Get(active, s) == Load(turns, s, p);
    }
  }

  lemma CountsStep(turns: seq<Turn>, active: map<string, int>, changes: map<string, int>, p: Option<real>, t: real)
    requires p.None? ==> active == map[] && forall x :: x < t ==> !Edge(turns, x)
    requires p.Some? ==> p.value < t && Counts(turns, active, p.value) && forall x :: p.value < x < t ==> !Edge(turns, x)
    requires forall s :: Get(changes, s) == Delta(turns, s, t)
    ensures Counts(turns, Updated(active, changes), t)
  {
    forall s ensures Get(Updated(active, changes), s) == Load(turns, s, t) {
      var before := if p.Some? then p.value else t - 1.0;
      LoadSteps(turns, s, before, t);
      if p.None? {
        NothingBegun(turns, s, before);
      }
    }
  }

  lemma NoEdgeBetween(turns: seq<Turn>, events: Events, times: seq<real>, k: int)
    requires Collected(turns, events) && 0 <= k <= |times|
    requires forall i, j :: 0 <= i < j < |times| ==> times[i] < times[j]
    requires forall t :: t in times <==> t in events
    ensures forall x :: (k == 0 || times[k - 1] < x) && (k == |times| || x < times[k]) ==> !Edge(turns, x)
    ensures forall t :: t in times ==> t >= 0.0
  {
    forall x | (k == 0 || times[k - 1] < x) && (k == |times| || x < times[k]) ensures !Edge(turns, x) {
      forall i | 0 <= i < |times| ensures times[i] != x {
        if i < k - 1 {
          assert times[i] < times[k - 1];
        } else if k < i {
          assert times[k] < times[i];
        }
      }
    }
    forall t | t in times ensures t >= 0.0 {
      assert Edge(turns, t);
    }
  }

  lemma BeforeTheFirst(turns: seq<Turn>, q: real)
    requires forall x :: x < q ==> !Edge(turns, x)
    ensures Swept(turns, [], q)
  {
    forall t | 0.0 <= t < q ensures Speakers(turns, t) == {} {
      forall s ensures Load(turns, s, t) == 0 {
        NothingBegun(turns, s, t);
      }
      SilentWhen(turns, t);
    }
  }

  lemma AfterTheLast(turns: seq<Turn>, p: real)
    requires forall x :: p < x ==> !Edge(turns, x)
    ensures forall t :: p <= t ==> Speakers(turns, t) == {}
  {
    forall t | p <= t ensures Speakers(turns, t) == {} {
      forall s ensures Load(turns, s, t) == 0 {
        AllOver(turns, s, t);
      }
      SilentWhen(turns, t);
    }
  }

  lemma ConstantUntil(turns: seq<Turn>, p: real, q: real)
    requires forall x :: p < x < q ==> !Edge(turns, x)
    ensures forall t :: p <= t < q ==> Speakers(turns, t) == Speakers(turns, p)
  {
    forall t | p <= t < q ensures Speakers(turns, t) == Speakers(turns, p) {
      ConstantBetweenEdges(turns, p, t);
    }
  }

  /** The sweep: a time is listed exactly when two or more distinct speakers have a turn
      covering it, and the list keeps its contract. */
  method DetectOverlaps(turns: seq<Turn>) returns (overlaps: seq<SpeechOverlap>)
    ensures Orderly(turns, overlaps)
    ensures forall t :: t >= 0.0 ==> ExactAt(turns, overlaps, t)
  {
    hide Counts, Swept, Collected, OverlapId, Speakers, Orderly, ExactAt, Updated, Get, Delta;
    var events, keys := CollectEvents(turns);
    var times := StableSort(Itself, keys);
    SortsStrictly(keys, times);
    var active: map<string, int> := map[];
    overlaps := [];
    var previous: Option<real> := None;
    var previousSpeakers: set<string> := {};
    for k := 0 to |times|
      invariant previous == if k == 0 then None else Some(times[k - 1])
      invariant previous.None? ==> active == map[] && overlaps == []
      invariant previous.Some? ==> Counts(turns, active, previous.value) && Swept(turns, overlaps, previous.value)
      invariant previous.Some? && overlaps != [] && overlaps[|overlaps| - 1].end == previous.value ==>
        previousSpeakers == Speakers(turns, overlaps[|overlaps| - 1].start)
    {
      var time := times[k];
      assert time in times;
      NoEdgeBetween(turns, events, times, k);
      var speakers := set s | s in active && active[s] > 0;
      if previous.Some? {
        assert previous.value in times;
        CountsSpeakers(turns, active, previous.value);
        ConstantUntil(turns, previous.value, time);
      } else {
        BeforeTheFirst(turns, time);
      }
      if previous.Some? && time > previous.value && |speakers| >= 2 {
        if overlaps != [] && overlaps[|overlaps| - 1].end == previous.value && speakers == previousSpeakers {
          SweepLonger(turns, overlaps, previous.value, time);
          overlaps := overlaps[|overlaps| - 1 := overlaps[|overlaps| - 1].(end := time)];
        } else {
          SweepNew(turns, overlaps, previous.value, time);
          overlaps := overlaps + [SpeechOverlap(OverlapId(|overlaps|), previous.value, time, |speakers|)];
        }
      } else if previous.Some? {
        EndsBy(turns, overlaps, previous.value);
        SweepSilence(turns, overlaps, previous.value, time);
      }
      previousSpeakers := speakers;
      DeltaAt(turns, events, time);
      CountsStep(turns, active, events[time], previous, time);
      active := Updated(active, events[time]);
      previous := Some(time);
    }
    SweepEnds(turns, events, times, overlaps);
  }

  lemma SweepEnds(turns: seq<Turn>, events: Events, times: seq<real>, overlaps: seq<SpeechOverlap>)
    requires Collected(turns, events)
    requires forall i, j :: 0 <= i < j < |times| ==> times[i] < times[j]
    requires forall t :: t in times <==> t in events
    requires if times == [] then overlaps == [] else Swept(turns, overlaps, times[|times| - 1])
    ensures Orderly(turns, overlaps)
    ensures forall t :: t >= 0.0 ==> ExactAt(turns, overlaps, t)
  {
    NoEdgeBetween(turns, events, times, |times|);
    AfterTheLast(turns, if times == [] then -1.0 else times[|times| - 1]);
  }

  lemma DeltaAt(turns: seq<Turn>, events: Events, t: real)
    requires Collected(turns, events) && t in events
    ensures forall s :: Get(events[t], s) == Delta(turns, s, t)
  {
  }

  /** What the result model validates: positive, ordered, non-overlapping, unique ids. */
  ghost predicate Contract(overlaps: seq<SpeechOverlap>) {
    && (forall i :: 0 <= i < |overlaps| ==>
          0.0 <= overlaps[i].start < overlaps[i].end && overlaps[i].detectedSpeakerCount >= 2)
    && (forall i, j :: 0 <= i < j < |overlaps| ==> overlaps[i].end <= overlaps[j].start)
    && (forall i, j :: 0 <= i < j < |overlaps| ==> overlaps[i].id != overlaps[j].id)
  }

  /** The sweep's result passes the model's validation. */
  lemma {:induction false} SweepMeetsContract(turns: seq<Turn>, overlaps: seq<SpeechOverlap>)
    requires Orderly(turns, overlaps)
    ensures Contract(overlaps)
  {
    forall i, j | 0 <= i < j < |overlaps|
      ensures overlaps[i].end <= overlaps[j].start
      ensures overlaps[i].id != overlaps[j].id
    {
      OrderedFar(turns, overlaps, i, j);
      if Padded(i, 4) == Padded(j, 4) {
        PaddedInjective(i, j, 4);
      }
      assert overlaps[i].id[8..] == Padded(i, 4) && overlaps[j].id[8..] == Padded(j, 4);
    }
  }

  lemma {:induction false} OrderedFar(turns: seq<Turn>, overlaps: seq<SpeechOverlap>, i: int, j: int)
    requires Orderly(turns, overlaps) && 0 <= i < j < |overlaps|
    ensures overlaps[i].end <= overlaps[j].start
    decreases j - i
  {
    if i < j - 1 {
      OrderedFar(turns, overlaps, i, j - 1);
      assert OneOverlap(turns, overlaps[j - 1]);
    }
  }

  /** The overlaps are numbered from 0 on, in four digits and more only if it takes more. */
  lemma OverlapsAreNumbered(turns: seq<Turn>, overlaps: seq<SpeechOverlap>, i: int)
    requires Orderly(turns, overlaps) && 0 <= i < |overlaps|
    ensures Numbered(overlaps[i].id, "overlap_", 4, i)
  {
    PaddedIsNumbered("overlap_", i, 4);
  }
}
