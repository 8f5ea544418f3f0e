/**
Close-out recovery from history: what the sink's last-known-states query may answer, which
incarnations a warm-up closes out, and what repeating that does to the history.
*/
module Recovery {
  import opened Common
  import opened HashCaches
  import opened Protocol
  import Pipelines

  datatype Identity = Identity(namespace: string, name: string)

  /** One stored row. Identical rows collapse in the store, so a history is a set. */
  datatype Row = Row(id: Identity, uid: Uid, ts: nat, event: EventType, apiVersion: string, sha: Digest)

  /** One line of the query's answer: an incarnation that looks open. */
  datatype KnownState = KnownState(id: Identity, uid: Uid, sha: Digest, apiVersion: string, ts: nat)

  // ---------------------------------------------------------------- the query

  predicate Latest(h: set<Row>, r: Row) {
    r in h && forall o :: o in h && o.id == r.id && o.uid == r.uid ==> o.ts <= r.ts
  }

  /** `r` is among the newest rows of the incarnation `s` speaks of, and as old as `s` says. */
  predicate Witness(h: set<Row>, s: KnownState, r: Row) {
    Latest(h, r) && r.id == s.id && r.uid == s.uid && r.ts == s.ts
  }

  predicate Listed(answer: set<KnownState>, id: Identity, uid: Uid) {
    exists s :: s in answer && s.id == id && s.uid == uid
  }

  ghost predicate LooksOpen(h: set<Row>, s: KnownState) {
    exists r :: Witness(h, s, r) && r.event != Deleted
  }

  ghost predicate LooksClosed(h: set<Row>, id: Identity, uid: Uid) {
    exists d :: Latest(h, d) && d.id == id && d.uid == uid && d.event == Deleted
  }

  ghost predicate Sourced(h: set<Row>, s: KnownState) {
    && (exists r :: Witness(h, s, r) && r.sha == s.sha)
    && (exists r :: Witness(h, s, r) && r.apiVersion == s.apiVersion)
  }

  predicate OnePerIncarnation(answer: set<KnownState>) {
    forall s, t :: s in answer && t in answer && s.id == t.id && s.uid == t.uid ==> s == t
  }

  /**
  What the query may answer. Each aggregate takes its value from some newest row of the
  incarnation, and where several rows share that instant each may choose a different one.
  */
  ghost predicate Answers(h: set<Row>, answer: set<KnownState>) {
    && (forall s :: s in answer ==> LooksOpen(h, s) && Sourced(h, s))
    && (forall r :: r in h ==> Listed(answer, r.id, r.uid) || LooksClosed(h, r.id, r.uid))
    && OnePerIncarnation(answer)
  }

  // ---------------------------------------------------------------- what a warm-up emits

  predicate Later(a: KnownState, b: KnownState) {
    a.ts > b.ts || (a.ts == b.ts && a.uid > b.uid)
  }

  /** The youngest incarnation of its identity in the answer. */
  predicate Current(answer: set<KnownState>, s: KnownState) {
    s in answer && forall o :: o in answer && o.id == s.id ==> !Later(o, s)
  }

  /** Dated from the incarnation's own last row, never from the clock. */
  function CloseOutRow(s: KnownState): Row {
    Row(s.id, s.uid, s.ts, Deleted, s.apiVersion, NO_DIGEST)
  }

  function Emitted(answer: set<KnownState>): set<Row> {
    set s | s in answer && !Current(answer, s) :: CloseOutRow(s)
  }

  /** The newest row of an incarnation that no row closes. */
  predicate NewestOpen(h: set<Row>, r: Row) {
    r in h && r.event != Deleted && forall o :: o in h && o.id == r.id && o.uid == r.uid ==> o.ts <= r.ts
  }

  lemma OpenIsDescribed(h: set<Row>, a: set<KnownState>, r: Row) returns (s: KnownState)
    requires Distinct(h) && Answers(h, a) && NewestOpen(h, r)
    ensures s in a && s.id == r.id && s.uid == r.uid && s.ts == r.ts && s.apiVersion == r.apiVersion
  {
    OpenIsListed(h, a, r);
    s :| s in a && s.id == r.id && s.uid == r.uid;
    DescribesLatest(h, a, s, r);
  }

  lemma DescribedIsOpen(h: set<Row>, a: set<KnownState>, s: KnownState) returns (r: Row)
    requires Distinct(h) && Answers(h, a) && s in a
    ensures NewestOpen(h, r) && s.id == r.id && s.uid == r.uid && s.ts == r.ts && s.apiVersion == r.apiVersion
  {
    assert LooksOpen(h, s);
    r :| Witness(h, s, r) && r.event != Deleted;
    DescribesLatest(h, a, s, r);
  }

  /**
  `c` is the deletion of the open incarnation `r` ends, because `n` ends a younger one of the same
  identity: a later instant, the greater UID breaking a tie.
  */
  predicate ClosedBy(h: set<Row>, r: Row, n: Row, c: Row) {
    && NewestOpen(h, r) && NewestOpen(h, n) && n.id == r.id
    && (n.ts > r.ts || (n.ts == r.ts && n.uid > r.uid))
    && c == Row(r.id, r.uid, r.ts, Deleted, r.apiVersion, NO_DIGEST)
  }

  lemma EmittedIsClosed(h: set<Row>, a: set<KnownState>, c: Row)
    requires Distinct(h) && Answers(h, a) && c in Emitted(a)
    ensures exists r, n :: ClosedBy(h, r, n, c)
  {
    var s := EmittedOf(a, c);
    var t :| t in a && t.id == s.id && Later(t, s);
    var r := DescribedIsOpen(h, a, s);
    var n := DescribedIsOpen(h, a, t);
    assert ClosedBy(h, r, n, c);
  }

  lemma ClosedIsEmitted(h: set<Row>, a: set<KnownState>, r: Row, n: Row, c: Row)
    requires Distinct(h) && Answers(h, a) && ClosedBy(h, r, n, c)
    ensures c in Emitted(a)
  {
    var s := OpenIsDescribed(h, a, r);
    var t := OpenIsDescribed(h, a, n);
    assert Later(t, s);
    assert c == CloseOutRow(s);
  }

  /**
  In a history with distinct timestamps a warm-up closes out exactly the open incarnations that a younger
  open one of the same identity has replaced, each with a deletion dated from its own last row.
  */
  lemma ClosedOutExactly(h: set<Row>, a: set<KnownState>, c: Row)
    requires Distinct(h) && Answers(h, a)
    ensures c in Emitted(a) <==> exists r, n :: ClosedBy(h, r, n, c)
  {
    if c in Emitted(a) {
      EmittedIsClosed(h, a, c);
    }
    if r, n :| ClosedBy(h, r, n, c) {
      ClosedIsEmitted(h, a, r, n, c);
    }
  }

  /** `r` is the one newest row of its identity. */
  predicate NewestOfAll(h: set<Row>, r: Row) {
    r in h && forall o :: o in h && o.id == r.id && o != r ==> o.ts < r.ts
  }

  lemma NoneYounger(h: set<Row>, a: set<KnownState>, r: Row, t: KnownState)
    requires Answers(h, a) && NewestOfAll(h, r) && t in a && t.id == r.id
    ensures t.ts <= r.ts && (t.uid == r.uid <==> t.ts == r.ts)
  {
    assert LooksOpen(h, t);
    var v :| Witness(h, t, v) && v.event != Deleted;
  }

  /** Whatever ties there are elsewhere, the incarnation of an identity's newest row is never closed out. */
  lemma NewestIsSpared(h: set<Row>, a: set<KnownState>, r: Row, c: Row)
    requires Answers(h, a) && NewestOfAll(h, r) && c in Emitted(a)
    ensures c.id != r.id || c.uid != r.uid
  {
    var s := EmittedOf(a, c);
    forall t | t in a && t.id == r.id ensures t.ts <= r.ts && (t.uid == r.uid <==> t.ts == r.ts) {
      NoneYounger(h, a, r, t);
    }
  }

  // ---------------------------------------------------------------- rounds of recovery

  /** No incarnation has two rows with one timestamp. */
  predicate Distinct(h: set<Row>) {
    forall a, b :: a in h && b in h && a.id == b.id && a.uid == b.uid && a.ts == b.ts ==> a == b
  }

  /** A history some close-outs of which have landed. */
  predicate Grown(h0: set<Row>, a0: set<KnownState>, h: set<Row>) {
    h0 <= h <= h0 + Emitted(a0)
  }

  lemma EmittedOf(answer: set<KnownState>, r: Row) returns (s: KnownState)
    requires r in Emitted(answer)
    ensures s in answer && !Current(answer, s) && r == CloseOutRow(s)
  {
    s :| s in answer && !Current(answer, s) && CloseOutRow(s) == r;
  }

  /** A close-out is as old as the newest row of the incarnation it closes. */
  lemma CloseOutAge(h0: set<Row>, a0: set<KnownState>, c: Row) returns (w: Row)
    requires Answers(h0, a0) && c in Emitted(a0)
    ensures Latest(h0, w) && w.id == c.id && w.uid == c.uid && w.ts == c.ts && c.event == Deleted
  {
    var s := EmittedOf(a0, c);
    assert LooksOpen(h0, s);
    w :| Witness(h0, s, w) && w.event != Deleted;
  }

  /** So the newest rows stay newest, and nothing older becomes newest. */
  lemma LatestStays(h0: set<Row>, a0: set<KnownState>, h: set<Row>, r: Row)
    requires Answers(h0, a0) && Grown(h0, a0, h) && r in h0
    ensures Latest(h, r) <==> Latest(h0, r)
  {
    if Latest(h0, r) {
      forall o | o in h && o.id == r.id && o.uid == r.uid ensures o.ts <= r.ts {
        if o !in h0 {
          var w := CloseOutAge(h0, a0, o);
        }
      }
    }
  }

  /** In a history with distinct timestamps an answer's line describes the one newest row. */
  lemma DescribesLatest(h0: set<Row>, a0: set<KnownState>, s: KnownState, w: Row)
    requires Distinct(h0) && Answers(h0, a0) && s in a0 && Latest(h0, w) && w.id == s.id && w.uid == s.uid
    ensures s.ts == w.ts && s.apiVersion == w.apiVersion && w.event != Deleted
  {
    assert LooksOpen(h0, s) && Sourced(h0, s);
    var v :| Witness(h0, s, v) && v.apiVersion == s.apiVersion;
    var e :| Witness(h0, s, e) && e.event != Deleted;
    assert v.ts == w.ts && e.ts == w.ts;
  }

  /** An incarnation whose newest row is not a deletion is listed. */
  lemma OpenIsListed(h0: set<Row>, a0: set<KnownState>, w: Row)
    requires Distinct(h0) && Answers(h0, a0) && Latest(h0, w) && w.event != Deleted
    ensures Listed(a0, w.id, w.uid)
  {
    assert !LooksClosed(h0, w.id, w.uid);
  }

  /** What is listed later was listed at first, with the same age and the same API version. */
  lemma ListedBefore(
    h0: set<Row>, a0: set<KnownState>, h: set<Row>, a: set<KnownState>, t: KnownState)
    returns (s: KnownState)
    requires Distinct(h0) && Answers(h0, a0) && Grown(h0, a0, h) && Answers(h, a) && t in a
    ensures s in a0 && s.id == t.id && s.uid == t.uid && s.ts == t.ts && s.apiVersion == t.apiVersion
  {
    assert LooksOpen(h, t) && Sourced(h, t);
    var w :| Witness(h, t, w) && w.event != Deleted;
    assert w in h0 by {
      assert w in h0 || w in Emitted(a0);
      assert forall c :: c in Emitted(a0) ==> c.event == Deleted;
    }
    LatestStays(h0, a0, h, w);
    OpenIsListed(h0, a0, w);
    s :| s in a0 && s.id == w.id && s.uid == w.uid;
    DescribesLatest(h0, a0, s, w);
    SameApiVersion(h0, a0, h, t, s, w);
  }

  lemma SameApiVersion(h0: set<Row>, a0: set<KnownState>, h: set<Row>, t: KnownState, s: KnownState, w: Row)
    requires Distinct(h0) && OnePerIncarnation(a0) && Grown(h0, a0, h) && Sourced(h, t)
    requires s in a0 && s.id == t.id && s.uid == t.uid
    requires Witness(h, t, w) && w in h0 && s.ts == w.ts && s.apiVersion == w.apiVersion
    ensures s.apiVersion == t.apiVersion
  {
    var v :| Witness(h, t, v) && v.apiVersion == t.apiVersion;
    if v !in h0 {
      var c := EmittedOf(a0, v);
      assert c == s;
    }
  }

  /** The living are spared: no close-out is ever written for a current incarnation. */
  lemma CurrentUntouched(h0: set<Row>, a0: set<KnownState>, h: set<Row>, s: KnownState, r: Row)
    requires OnePerIncarnation(a0) && Grown(h0, a0, h) && Current(a0, s) && r in h - h0
    ensures r.id != s.id || r.uid != s.uid
  {
    var c := EmittedOf(a0, r);
  }

  lemma CurrentListed(h0: set<Row>, a0: set<KnownState>, h: set<Row>, a: set<KnownState>, s: KnownState)
    requires Distinct(h0) && Answers(h0, a0) && Grown(h0, a0, h) && Answers(h, a) && Current(a0, s)
    ensures Listed(a, s.id, s.uid)
  {
    assert LooksOpen(h0, s);
    var w :| Witness(h0, s, w) && w.event != Deleted;
    assert w in h;
    LatestStays(h0, a0, h, w);
    forall d | Latest(h, d) && d.id == s.id && d.uid == s.uid ensures d.event != Deleted {
      assert d.ts == w.ts;
      if d !in h0 {
        CurrentUntouched(h0, a0, h, s, d);
      }
    }
  }

  predicate Same(s: KnownState, t: KnownState) {
    s.id == t.id && s.uid == t.uid && s.ts == t.ts && s.apiVersion == t.apiVersion
  }

  /** A later answer lists no incarnation the first did not, and every one that was current. */
  ghost predicate Narrows(a0: set<KnownState>, a: set<KnownState>) {
    && OnePerIncarnation(a0) && OnePerIncarnation(a)
    && (forall t :: t in a ==> exists s :: s in a0 && Same(s, t))
    && (forall s :: Current(a0, s) ==> Listed(a, s.id, s.uid))
  }

  lemma AnswersNarrow(h0: set<Row>, a0: set<KnownState>, h: set<Row>, a: set<KnownState>)
    requires Distinct(h0) && Answers(h0, a0) && Grown(h0, a0, h) && Answers(h, a)
    ensures Narrows(a0, a)
  {
    forall t | t in a ensures exists s :: s in a0 && Same(s, t) {
      var s := ListedBefore(h0, a0, h, a, t);
    }
    forall s | Current(a0, s) ensures Listed(a, s.id, s.uid) {
      CurrentListed(h0, a0, h, a, s);
    }
  }

  /** And it stays current: listed, with the same age, and youngest, in every later answer. */
  lemma CurrentStays(a0: set<KnownState>, a: set<KnownState>, s: KnownState) returns (t: KnownState)
    requires Narrows(a0, a) && Current(a0, s)
    ensures Current(a, t) && Same(s, t)
  {
    t :| t in a && t.id == s.id && t.uid == s.uid;
    var u :| u in a0 && Same(u, t);
    assert u == s;
    forall o | o in a && o.id == t.id ensures !Later(o, t) {
      var p :| p in a0 && Same(p, o);
      assert !Later(p, s);
    }
  }

  lemma EmittedShrinks(a0: set<KnownState>, a: set<KnownState>)
    requires Narrows(a0, a)
    ensures Emitted(a) <= Emitted(a0)
  {
    forall r | r in Emitted(a) ensures r in Emitted(a0) {
      var t := EmittedOf(a, r);
      var s :| s in a0 && Same(s, t);
      assert !Current(a0, s) by {
        if Current(a0, s) {
          var u := CurrentStays(a0, a, s);
          assert false;
        }
      }
      assert CloseOutRow(s) == r;
    }
  }

  /** Reading again and emitting again produces only rows the first reading already called for. */
  lemma NothingNew(h0: set<Row>, a0: set<KnownState>, h: set<Row>, a: set<KnownState>)
    requires Distinct(h0) && Answers(h0, a0) && Grown(h0, a0, h) && Answers(h, a)
    ensures Emitted(a) <= Emitted(a0)
    ensures KeepsCurrent(a0, a)
  {
    AnswersNarrow(h0, a0, h, a);
    EmittedShrinks(a0, a);
    forall s | Current(a0, s) ensures exists t :: Current(a, t) && Same(s, t) {
      var t := CurrentStays(a0, a, s);
    }
  }

  /** One warm-up: what the query answered and which of the emitted rows became durable. */
  datatype Round = Round(answer: set<KnownState>, landed: set<Row>)

  ghost predicate Possible(h: set<Row>, rounds: seq<Round>)
    decreases rounds
  {
    rounds == [] || (
      && Answers(h, rounds[0].answer)
      && rounds[0].landed <= Emitted(rounds[0].answer)
      && Possible(h + rounds[0].landed, rounds[1..]))
  }

  function AfterRounds(h: set<Row>, rounds: seq<Round>): set<Row>
    decreases rounds
  {
    if rounds == [] then h else AfterRounds(h + rounds[0].landed, rounds[1..])
  }

  /** One round keeps the history within what the first reading called for, and spares the living. */
  lemma RoundGrows(h0: set<Row>, a0: set<KnownState>, h: set<Row>, round: Round)
    requires Distinct(h0) && Answers(h0, a0) && Grown(h0, a0, h)
    requires Answers(h, round.answer) && round.landed <= Emitted(round.answer)
    ensures Grown(h0, a0, h + round.landed) && KeepsCurrent(a0, round.answer)
  {
    NothingNew(h0, a0, h, round.answer);
  }

  lemma {:induction false} HistoryConverges(h0: set<Row>, a0: set<KnownState>, h: set<Row>, rounds: seq<Round>)
    requires Distinct(h0) && Answers(h0, a0) && Grown(h0, a0, h) && Possible(h, rounds)
    ensures Grown(h0, a0, AfterRounds(h, rounds))
    decreases rounds
  {
    if rounds != [] {
      RoundGrows(h0, a0, h, rounds[0]);
      HistoryConverges(h0, a0, h + rounds[0].landed, rounds[1..]);
    }
  }

  lemma {:induction false} CurrentSpared(h0: set<Row>, a0: set<KnownState>, h: set<Row>, rounds: seq<Round>, i: nat)
    requires Distinct(h0) && Answers(h0, a0) && Grown(h0, a0, h) && Possible(h, rounds) && i < |rounds|
    ensures KeepsCurrent(a0, rounds[i].answer)
    decreases rounds
  {
    RoundGrows(h0, a0, h, rounds[0]);
    if i > 0 {
      CurrentSpared(h0, a0, h + rounds[0].landed, rounds[1..], i - 1);
    }
  }

  /**
  However often the scope is warmed and whichever writes land, the history only ever gains the
  close-outs the first reading called for, and every current incarnation stays current and open.
  */
  lemma RecoveryConverges(h0: set<Row>, a0: set<KnownState>, h: set<Row>, rounds: seq<Round>)
    requires Distinct(h0) && Answers(h0, a0) && Grown(h0, a0, h) && Possible(h, rounds)
    ensures Grown(h0, a0, AfterRounds(h, rounds))
    ensures forall i :: 0 <= i < |rounds| ==> KeepsCurrent(a0, rounds[i].answer)
  {
    HistoryConverges(h0, a0, h, rounds);
    forall i | 0 <= i < |rounds| ensures KeepsCurrent(a0, rounds[i].answer) {
      CurrentSpared(h0, a0, h, rounds, i);
    }
  }

  /** Whatever was current in the first answer is current, and open, in the other. */
  ghost predicate KeepsCurrent(a0: set<KnownState>, a: set<KnownState>) {
    forall s :: Current(a0, s) ==> exists t :: Current(a, t) && Same(s, t)
  }

  /** Once a whole round has landed, no later round adds a row, however ties are broken. */
  lemma RecoveryIsIdempotent(h0: set<Row>, a0: set<KnownState>, rounds: seq<Round>)
    requires Distinct(h0) && Answers(h0, a0) && Possible(h0 + Emitted(a0), rounds)
    ensures AfterRounds(h0 + Emitted(a0), rounds) == h0 + Emitted(a0)
  {
    HistoryConverges(h0, a0, h0 + Emitted(a0), rounds);
    RoundsOnlyAdd(h0 + Emitted(a0), rounds);
  }

  lemma {:induction false} RoundsOnlyAdd(h: set<Row>, rounds: seq<Round>)
    ensures h <= AfterRounds(h, rounds)
    decreases rounds
  {
    if rounds != [] {
      RoundsOnlyAdd(h + rounds[0].landed, rounds[1..]);
    }
  }

  // ---------------------------------------------------------------- reading an answer

  function StatesOf(states: seq<KnownState>): set<KnownState> {
    set s | s in states
  }

  /** The states of one identity, in order. */
  function Of(states: seq<KnownState>, id: Identity): seq<KnownState> {
    if states == [] then []
    else
      var last := states[|states| - 1];
      Of(states[..|states| - 1], id) + if last.id == id then [last] else []
  }

  lemma OfMore(states: seq<KnownState>, s: KnownState, id: Identity)
    ensures Of(states + [s], id) == Of(states, id) + if s.id == id then [s] else []
  {
    assert (states + [s])[..|states|] == states;
  }

  lemma {:induction false} OfMembers(states: seq<KnownState>, id: Identity)
    ensures forall s :: s in Of(states, id) <==> s in states && s.id == id
  {
    if states != [] {
      var front, last := states[..|states| - 1], states[|states| - 1];
      OfMembers(front, id);
      assert states == front + [last];
    }
  }

  /** The identities in the order they first occur. */
  function FirstSeen(states: seq<KnownState>): seq<Identity> {
    if states == [] then []
    else
      var before, id := FirstSeen(states[..|states| - 1]), states[|states| - 1].id;
      if id in before then before else before + [id]
  }

  /** One bucket per identity, in the order of first sight, holding that identity's states in order. */
  ghost predicate Grouped(states: seq<KnownState>, ids: seq<Identity>, groups: seq<seq<KnownState>>) {
    && |ids| == |groups| && ids == FirstSeen(states)
    && (forall i, j :: 0 <= i < j < |ids| ==> ids[i] != ids[j])
    && (forall i :: 0 <= i < |ids| ==> groups[i] == Of(states, ids[i]) && groups[i] != [])
    && (forall s :: s in states ==> s.id in ids)
  }

  lemma {:induction false} OfNone(states: seq<KnownState>, id: Identity)
    requires forall s :: s in states ==> s.id != id
    ensures Of(states, id) == []
  {
    if states != [] {
      OfNone(states[..|states| - 1], id);
    }
  }

  lemma GroupedOld(states: seq<KnownState>, ids: seq<Identity>, groups: seq<seq<KnownState>>, s: KnownState, i: nat)
    requires Grouped(states, ids, groups) && i < |ids| && ids[i] == s.id
    ensures Grouped(states + [s], ids, groups[i := groups[i] + [s]])
  {
    assert (states + [s])[..|states|] == states;
    forall k | 0 <= k < |ids| ensures groups[i := groups[i] + [s]][k] == Of(states + [s], ids[k]) {
      OfMore(states, s, ids[k]);
    }
  }

  lemma GroupedNew(states: seq<KnownState>, ids: seq<Identity>, groups: seq<seq<KnownState>>, s: KnownState)
    requires Grouped(states, ids, groups) && s.id !in ids
    ensures Grouped(states + [s], ids + [s.id], groups + [[s]])
  {
    assert (states + [s])[..|states|] == states;
    OfNone(states, s.id);
    OfMore(states, s, s.id);
    forall k | 0 <= k < |ids| ensures groups[k] == Of(states + [s], ids[k]) {
      OfMore(states, s, ids[k]);
    }
  }

  ghost predicate Indexed(index: map<Identity, nat>, ids: seq<Identity>) {
    && (forall id :: id in index ==> index[id] < |ids| && ids[index[id]] == id)
    && (forall id :: id in ids ==> id in index)
  }

  lemma IndexedNew(index: map<Identity, nat>, ids: seq<Identity>, id: Identity)
    requires Indexed(index, ids)
    ensures Indexed(index[id := |ids|], ids + [id])
  {
  }

  method PlaceState(
    s: KnownState, index: map<Identity, nat>, ids: seq<Identity>, groups: seq<seq<KnownState>>,
    ghost states: seq<KnownState>)
    returns (index': map<Identity, nat>, ids': seq<Identity>, groups': seq<seq<KnownState>>)
    requires Grouped(states, ids, groups) && Indexed(index, ids)
    ensures Grouped(states + [s], ids', groups') && Indexed(index', ids')
  {
    if s.id in index {
      var at := index[s.id];
      GroupedOld(states, ids, groups, s, at);
      return index, ids, groups[at := groups[at] + [s]];
    }
    GroupedNew(states, ids, groups, s);
    IndexedNew(index, ids, s.id);
    return index[s.id := |groups|], ids + [s.id], groups + [[s]];
  }

  method GroupByIdentity(states: seq<KnownState>) returns (groups: seq<seq<KnownState>>, ids: seq<Identity>)
    ensures Grouped(states, ids, groups)
  {
    groups, ids := [], [];
    var index: map<Identity, nat> := map[];
    var i := 0;
    while i < |states|
      invariant i <= |states|
      invariant Grouped(states[..i], ids, groups) && Indexed(index, ids)
    {
      assert states[..i + 1] == states[..i] + [states[i]];
      index, ids, groups := PlaceState(states[i], index, ids, groups, states[..i]);
      i := i + 1;
    }
    assert states[..|states|] == states;
  }

  /** The youngest state of a group, and the states of every other incarnation in it. */
  method SplitIncarnations(group: seq<KnownState>) returns (current: KnownState, unclosed: seq<KnownState>)
    requires group != []
    ensures current in group
    ensures forall s :: s in group ==> s.ts < current.ts || (s.ts == current.ts && s.uid <= current.uid)
    ensures forall s :: s in unclosed <==> s in group && s.uid != current.uid
  {
    current := group[0];
    var i := 1;
    while i < |group|
      invariant 1 <= i <= |group|
      invariant current in group
      invariant forall k :: 0 <= k < i ==> !Later(group[k], current)
    {
      if Later(group[i], current) {
        current := group[i];
      }
      i := i + 1;
    }
    unclosed := [];
    i := 0;
    while i < |group|
      invariant i <= |group|
      invariant forall s :: s in unclosed <==> s in group[..i] && s.uid != current.uid
    {
      assert group[..i + 1] == group[..i] + [group[i]];
      if group[i].uid != current.uid {
        unclosed := unclosed + [group[i]];
      }
      i := i + 1;
    }
    assert group[..|group|] == group;
  }

  /** In one identity's group the youngest state is current, and the others are what is emitted. */
  lemma SplitIsCurrent(states: seq<KnownState>, id: Identity, current: KnownState, unclosed: seq<KnownState>)
    requires OnePerIncarnation(StatesOf(states))
    requires current in Of(states, id) && forall s :: s in Of(states, id) ==> !Later(s, current)
    requires forall s :: s in unclosed <==> s in Of(states, id) && s.uid != current.uid
    ensures forall s :: Current(StatesOf(states), s) && s.id == id <==> s == current
    ensures forall s :: s in unclosed <==> s in states && s.id == id && !Current(StatesOf(states), s)
  {
    OfMembers(states, id);
    var all := StatesOf(states);
    assert Current(all, current);
    forall s | s in all && s.id == id && s != current ensures !Current(all, s) && s.uid != current.uid {
      assert !Later(s, current);
      assert Later(current, s);
    }
  }

  function SeedEntry(s: KnownState): CacheEntry {
    CacheEntry(s.sha, NoBaseline, s.uid, "", 0, 1, false)
  }

  /**
  What an item makes of an object whose key was seeded: the stored state is a duplicate, another UID is a
  new incarnation, and another state of the same object is a change, written in full.
  */
  lemma SeededIsKnown(cfg: Config, s: State, known: KnownState, a: Pipelines.Answers)
    requires s.worker.Idle? && s.entry == Some(SeedEntry(known)) && |a.retries| == |s.closeOuts|
    requires s.live.Some? && a.listed && a.sinkLive && a.policyOk && a.accepted
    ensures var t, obj := Pipelines.AfterItem(cfg, s, a), s.live.value;
      if known.uid in {NO_UID, obj.uid} && known.sha == cfg.codec.hash(obj.json) then
        Pipelines.Writes(t.jobs) == Pipelines.Writes(s.jobs)
      else exists u ::
        && Pipelines.Writes(t.jobs) == Pipelines.Writes(s.jobs) + [u] && u.Upsert?
        && u.record.uid == obj.uid && u.record.data == Some(obj.json)
        && u.record.event == if known.uid in {NO_UID, obj.uid} then Modified else Added
  {
    Pipelines.ItemReports(cfg, s, a);
    if !Pipelines.Duplicate(cfg, s.entry, s.live.value) {
      var u :| Pipelines.Writes(Pipelines.AfterItem(cfg, s, a).jobs) == Pipelines.Writes(s.jobs) + [u]
        && Pipelines.Reports(cfg, s.entry, s.live.value, a.warm, u);
    }
  }

  /** Live entries are kept as they were; where there was none, the seeded state is installed. */
  ghost predicate Seeded(
    before: map<string, CacheEntry>, after: map<string, CacheEntry>, seeded: set<KnownState>,
    cacheKey: Identity -> string)
  {
    && (forall k :: k in before ==> k in after && after[k] == before[k])
    && (forall k :: k in after && k !in before ==> exists s :: s in seeded && cacheKey(s.id) == k)
    && (forall s :: s in seeded ==>
          cacheKey(s.id) in after && (cacheKey(s.id) in before || after[cacheKey(s.id)] == SeedEntry(s)))
  }

  lemma SeedOne(
    before: map<string, CacheEntry>, after: map<string, CacheEntry>, seeded: set<KnownState>,
    cacheKey: Identity -> string, s: KnownState)
    requires Seeded(before, after, seeded, cacheKey)
    requires forall o :: o in seeded ==> cacheKey(o.id) != cacheKey(s.id)
    ensures
      var key := cacheKey(s.id);
      Seeded(before, if key in after then after else after[key := SeedEntry(s)], seeded + {s}, cacheKey)
  {
    var key := cacheKey(s.id);
    var next := if key in after then after else after[key := SeedEntry(s)];
    forall k | k in next && k !in before ensures exists o :: o in seeded + {s} && cacheKey(o.id) == k {
      if k == key {
        assert s in seeded + {s};
      } else {
        var o :| o in seeded && cacheKey(o.id) == k;
        assert o in seeded + {s};
      }
    }
  }

  /** What has been sorted out once the given identities have been looked at. */
  ghost predicate SortedOut(
    all: set<KnownState>, ids: seq<Identity>, seeded: set<KnownState>, priors: set<KnownState>)
  {
    && (forall s :: s in seeded <==> Current(all, s) && s.id in ids)
    && (forall s :: s in priors <==> s in all && !Current(all, s) && s.id in ids)
  }

  method SeedGroup(
    cache: HashCache, cacheKey: Identity -> string, group: seq<KnownState>,
    seeded: set<KnownState>, priors: set<KnownState>,
    ghost states: seq<KnownState>, ghost ids: seq<Identity>, ghost id: Identity, ghost before: map<string, CacheEntry>)
    returns (seeded': set<KnownState>, priors': set<KnownState>)
    requires OnePerIncarnation(StatesOf(states)) && group == Of(states, id) && group != [] && id !in ids
    requires forall a, b :: cacheKey(a) == cacheKey(b) ==> a == b
    requires SortedOut(StatesOf(states), ids, seeded, priors) && Seeded(before, cache.data, seeded, cacheKey)
    modifies cache
    ensures SortedOut(StatesOf(states), ids + [id], seeded', priors') && Seeded(before, cache.data, seeded', cacheKey)
  {
    var current, unclosed := SplitIncarnations(group);
    SplitIsCurrent(states, id, current, unclosed);
    UnseenKey(StatesOf(states), ids, seeded, priors, cacheKey, current);
    SeedCurrent(cache, cacheKey, current, seeded, before);
    seeded', priors' := seeded + {current}, priors + (set s | s in unclosed);
    SortOne(StatesOf(states), ids, id, seeded, priors, current, unclosed);
  }

  /** The baseline of one identity, unless a live entry is already there. */
  method SeedCurrent(
    cache: HashCache,
    cacheKey: Identity -> string, current: KnownState, ghost seeded: set<KnownState>, ghost before: map<string,
    CacheEntry>)
    requires Seeded(before, cache.data, seeded, cacheKey)
    requires forall o :: o in seeded ==> cacheKey(o.id) != cacheKey(current.id)
    modifies cache
    ensures Seeded(before, cache.data, seeded + {current}, cacheKey)
  {
    SeedOne(before, cache.data, seeded, cacheKey, current);
    cache.StoreIfAbsent(cacheKey(current.id), SeedEntry(current));
  }

  lemma UnseenKey(
    all: set<KnownState>, ids: seq<Identity>, seeded: set<KnownState>, priors: set<KnownState>,
    cacheKey: Identity -> string, current: KnownState)
    requires SortedOut(all, ids, seeded, priors) && current.id !in ids
    requires forall a, b :: cacheKey(a) == cacheKey(b) ==> a == b
    ensures forall o :: o in seeded ==> cacheKey(o.id) != cacheKey(current.id)
  {
  }

  lemma SortOne(
    all: set<KnownState>, ids: seq<Identity>, id: Identity, seeded: set<KnownState>, priors: set<KnownState>,
    current: KnownState, unclosed: seq<KnownState>)
    requires SortedOut(all, ids, seeded, priors)
    requires forall s :: Current(all, s) && s.id == id <==> s == current
    requires forall s :: s in unclosed <==> s in all && s.id == id && !Current(all, s)
    ensures SortedOut(all, ids + [id], seeded + {current}, priors + (set s | s in unclosed))
  {
  }

  /**
  Seeds the cache from an answer and collects the unclosed priors. A live entry is never
  replaced by a historical one, and the priors are exactly the incarnations to close out.
  */
  method SeedScope(cache: HashCache, cacheKey: Identity -> string, states: seq<KnownState>)
    returns (seeded: set<KnownState>, priors: set<KnownState>)
    requires OnePerIncarnation(StatesOf(states))
    requires forall a, b :: cacheKey(a) == cacheKey(b) ==> a == b
    modifies cache
    ensures forall s :: s in seeded <==> Current(StatesOf(states), s)
    ensures (set s | s in priors :: CloseOutRow(s)) == Emitted(StatesOf(states))
    ensures Seeded(old(cache.data), cache.data, seeded, cacheKey)
  {
    var groups, ids := GroupByIdentity(states);
    seeded, priors := {}, {};
    var i := 0;
    while i < |groups|
      invariant i <= |groups|
      invariant SortedOut(StatesOf(states), ids[..i], seeded, priors)
      invariant Seeded(old(cache.data), cache.data, seeded, cacheKey)
    {
      assert ids[..i + 1] == ids[..i] + [ids[i]];
      seeded, priors :=
        SeedGroup(cache, cacheKey, groups[i], seeded, priors, states, ids[..i], ids[i], old(cache.data));
      i := i + 1;
    }
    assert ids[..|ids|] == ids;
    AllSortedOut(states, ids, seeded, priors);
  }

  lemma AllSortedOut(states: seq<KnownState>, ids: seq<Identity>, seeded: set<KnownState>, priors: set<KnownState>)
    requires SortedOut(StatesOf(states), ids, seeded, priors) && forall s :: s in states ==> s.id in ids
    ensures forall s :: s in seeded <==> Current(StatesOf(states), s)
    ensures (set s | s in priors :: CloseOutRow(s)) == Emitted(StatesOf(states))
  {
  }
}
