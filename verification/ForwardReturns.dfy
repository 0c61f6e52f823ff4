/**
 Forward-return labelling of cost_aware_label_horizon_scan.py: every (ticker, session) group
 writes its labels into one preallocated array; a missing label (NaN) is None.
 */
module ForwardReturns {
  import opened Common
  import opened TradingCalendar

  datatype GroupKey = GroupKey(ticker: string, session: Day)

  datatype Bar = Bar(key: GroupKey, close: real)

  datatype Horizon = SessionClose(activeBars: Option<int>) | Bars(bars: nat)

  const MIN_CLOSE := 0.00000001

  /** Bars at the end of a group that get no label. */
  function DropCount(h: Horizon, dropLast: int): int {
    match h
    case SessionClose(active) => Max(if active.Some? then Max(1, active.value) else 5, dropLast)
    case Bars(bars) => Max(bars, dropLast)
  }

  // ----- grouping

  /** Row numbers of a group, ascending. */
  function Positions(panel: seq<Bar>, key: GroupKey): (r: seq<nat>)
    ensures forall i :: 0 <= i < |r| ==> r[i] < |panel| && panel[r[i]].key == key
    ensures forall i, j :: 0 <= i < j < |r| ==> r[i] < r[j]
  {
    if |panel| == 0 then []
    else Positions(panel[..|panel| - 1], key) + (if panel[|panel| - 1].key == key then [|panel| - 1] else [])
  }

  /** Group keys in order of first appearance. */
  function Keys(panel: seq<Bar>): seq<GroupKey> {
    if |panel| == 0 then []
    else
      var init, key := Keys(panel[..|panel| - 1]), panel[|panel| - 1].key;
      if key in init then init else init + [key]
  }

  /** How many bars of the group come before row p. */
  function Rank(panel: seq<Bar>, p: nat): nat
    requires p < |panel|
  {
    |Positions(panel[..p], panel[p].key)|
  }

  lemma {:induction false} PositionsPrefix(panel: seq<Bar>, p: nat, key: GroupKey)
    requires p <= |panel|
    ensures Positions(panel[..p], key) <= Positions(panel, key)
    decreases |panel|
  {
    if p < |panel| {
      var init := panel[..|panel| - 1];
      PositionsPrefix(init, p, key);
      assert init[..p] == panel[..p];
    } else {
      assert panel[..p] == panel;
    }
  }

  /** Row p is listed in its own group, at its rank. */
  lemma RankIsPosition(panel: seq<Bar>, p: nat)
    requires p < |panel|
    ensures Rank(panel, p) < |Positions(panel, panel[p].key)|
    ensures Positions(panel, panel[p].key)[Rank(panel, p)] == p
  {
    PositionsPrefix(panel, p + 1, panel[p].key);
    assert panel[..p + 1][..p] == panel[..p];
  }

  lemma PositionHasRank(panel: seq<Bar>, key: GroupKey, k: nat)
    requires k < |Positions(panel, key)|
    ensures Rank(panel, Positions(panel, key)[k]) == k
  {
    var p := Positions(panel, key)[k];
    RankIsPosition(panel, p);
    hide Positions, Rank;
  }

  lemma {:induction false} KeysComplete(panel: seq<Bar>)
    ensures forall p :: 0 <= p < |panel| ==> panel[p].key in Keys(panel)
    ensures forall i, j :: 0 <= i < j < |Keys(panel)| ==> Keys(panel)[i] != Keys(panel)[j]
  {
    if |panel| > 0 {
      var init := panel[..|panel| - 1];
      KeysComplete(init);
      assert forall p :: 0 <= p < |init| ==> panel[p] == init[p];
    }
  }

  // ----- the label of one row

  function FutureRank(h: Horizon, k: nat, n: nat): int {
    match h
    case SessionClose(_) => n - 1
    case Bars(bars) => k + bars
  }

  /** Row p is not among the dropped bars at the end of its group. */
  predicate InHorizon(panel: seq<Bar>, h: Horizon, dropLast: int, p: nat)
    requires p < |panel|
  {
    Rank(panel, p) < |Positions(panel, panel[p].key)| - DropCount(h, dropLast)
  }

  /** The row whose close a label looks ahead to. */
  function FutureRow(panel: seq<Bar>, h: Horizon, dropLast: int, p: nat): (q: nat)
    requires p < |panel| && InHorizon(panel, h, dropLast, p)
    ensures q < |panel| && panel[q].key == panel[p].key
  {
    var positions := Positions(panel, panel[p].key);
    positions[FutureRank(h, Rank(panel, p), |positions|)]
  }

  function Return(future: real, now: real): Option<real> {
    if now > MIN_CLOSE then Some(future / now - 1.0) else None
  }

  function Label(panel: seq<Bar>, h: Horizon, dropLast: int, p: nat): Option<real>
    requires p < |panel|
  {
    if InHorizon(panel, h, dropLast, p)
    then Return(panel[FutureRow(panel, h, dropLast, p)].close, panel[p].close)
    else None
  }

  method HorizonReturnSeries(panel: seq<Bar>, h: Horizon, dropLast: int) returns (labels: seq<Option<real>>)
    ensures |labels| == |panel|
    ensures forall p :: 0 <= p < |panel| ==> labels[p] == Label(panel, h, dropLast, p)
  {
    var a := new Option<real>[|panel|](_ => None);
    var keys := Keys(panel);
    KeysComplete(panel);
    hide Keys, Positions, Label;
    for g := 0 to |keys|
      invariant Labelled(panel, h, dropLast, keys[..g], a[..])
    {
      ghost var before := a[..];
      FillGroup(panel, h, dropLast, keys[g], a);
      LabelledStep(panel, h, dropLast, keys, g, before, a[..]);
      hide Labelled;
    }
    assert keys[..|keys|] == keys;
    labels := a[..];
  }

  /** Rows of the groups handled so far hold their labels, all other rows none. */
  ghost predicate Labelled(panel: seq<Bar>, h: Horizon, dropLast: int, done: seq<GroupKey>, labels: seq<Option<real>>) {
    && |labels| == |panel|
    && forall p :: 0 <= p < |panel| ==>
         labels[p] == if panel[p].key in done then Label(panel, h, dropLast, p) else None
  }

  lemma LabelledStep(panel: seq<Bar>, h: Horizon, dropLast: int, keys: seq<GroupKey>, g: nat,
                     before: seq<Option<real>>, after: seq<Option<real>>)
    requires g < |keys| && Labelled(panel, h, dropLast, keys[..g], before) && |after| == |panel|
    requires forall p :: 0 <= p < |panel| ==>
      after[p] == if panel[p].key == keys[g] then Label(panel, h, dropLast, p) else before[p]
    ensures Labelled(panel, h, dropLast, keys[..g + 1], after)
  {
    hide Label;
    assert keys[..g + 1] == keys[..g] + [keys[g]];
  }

  /** One group: its rows receive their labels, every other row is left alone. */
  method FillGroup(panel: seq<Bar>, h: Horizon, dropLast: int, key: GroupKey, a: array<Option<real>>)
    requires a.Length == |panel|
    requires forall p :: 0 <= p < |panel| && panel[p].key == key ==> a[p] == None
    modifies a
    ensures forall p :: 0 <= p < |panel| ==>
      a[p] == if panel[p].key == key then Label(panel, h, dropLast, p) else old(a[p])
  {
    var positions := Positions(panel, key);
    var validCount := Max(0, |positions| - DropCount(h, dropLast));
    forall p | 0 <= p < |panel| && panel[p].key == key
      ensures Rank(panel, p) < |positions| && positions[Rank(panel, p)] == p
    {
      RankIsPosition(panel, p);
    }
    forall p | 0 <= p < |panel| && panel[p].key == key && Rank(panel, p) >= validCount
      ensures Label(panel, h, dropLast, p) == None
    {
    }
    hide Positions, Rank, Label, DropCount, Return;
    var k := 0;
    while k < validCount
      invariant 0 <= k <= validCount
      invariant Filled(panel, h, dropLast, key, k, old(a[..]), a[..])
    {
      hide Filled;
      LabelOfPosition(panel, h, dropLast, key, k);
      FilledStep(panel, h, dropLast, key, k, old(a[..]), a[..]);
      var now := panel[positions[k]].close;
      var future := panel[positions[FutureRank(h, k, |positions|)]].close;
      a[positions[k]] := Return(future, now);
      k := k + 1;
    }
  }

  /** The first k rows of the group hold their labels, every other row what it held before. */
  ghost predicate Filled(panel: seq<Bar>, h: Horizon, dropLast: int, key: GroupKey, k: nat,
                         before: seq<Option<real>>, now: seq<Option<real>>)
  {
    && |before| == |now| == |panel|
    && forall p :: 0 <= p < |panel| ==>
         now[p] == if panel[p].key == key && Rank(panel, p) < k then Label(panel, h, dropLast, p) else before[p]
  }

  lemma FilledStep(panel: seq<Bar>, h: Horizon, dropLast: int, key: GroupKey, k: nat,
                   before: seq<Option<real>>, now: seq<Option<real>>)
    requires k < |Positions(panel, key)| && Filled(panel, h, dropLast, key, k, before, now)
    ensures var p := Positions(panel, key)[k];
      Filled(panel, h, dropLast, key, k + 1, before, now[p := Label(panel, h, dropLast, p)])
  {
    hide Positions, Rank, Label;
    var p := Positions(panel, key)[k];
    PositionHasRank(panel, key, k);
    forall q | 0 <= q < |panel| && panel[q].key == key && Rank(panel, q) == k ensures q == p {
      RankIsPosition(panel, q);
    }
  }

  lemma LabelOfPosition(panel: seq<Bar>, h: Horizon, dropLast: int, key: GroupKey, k: nat)
    requires k < |Positions(panel, key)| - DropCount(h, dropLast)
    ensures 0 <= FutureRank(h, k, |Positions(panel, key)|) < |Positions(panel, key)|
    ensures var positions := Positions(panel, key);
      Label(panel, h, dropLast, positions[k])
      == Return(panel[positions[FutureRank(h, k, |positions|)]].close, panel[positions[k]].close)
  {
    PositionHasRank(panel, key, k);
    hide Positions, Rank, Return;
  }

  // ----- what a label is

  /** Which bars at the end of a group stay unlabelled: the label horizon, or more if so configured. */
  lemma DropCountIs(h: Horizon, dropLast: int)
    ensures DropCount(h, dropLast) >= dropLast
    ensures h.Bars? ==> DropCount(h, dropLast) == if dropLast > h.bars then dropLast else h.bars
    ensures h.SessionClose? ==>
      var active := if h.activeBars.None? then 5 else if h.activeBars.value < 1 then 1 else h.activeBars.value;
      DropCount(h, dropLast) == if dropLast > active then dropLast else active
  {
  }

  /** A label grows the row's close into that of the row it looks ahead to. */
  lemma LabelValue(panel: seq<Bar>, h: Horizon, dropLast: int, p: nat)
    requires p < |panel| && Label(panel, h, dropLast, p).Some?
    ensures InHorizon(panel, h, dropLast, p) && panel[p].close > 0.00000001
    ensures var q := FutureRow(panel, h, dropLast, p);
      panel[p].close * (1.0 + Label(panel, h, dropLast, p).value) == panel[q].close
  {
    hide Positions, Rank, InHorizon, FutureRow;
    var now, future := panel[p].close, panel[FutureRow(panel, h, dropLast, p)].close;
    assert (future / now) * now == future;
  }

  /** The rank of a row is the number of earlier rows of its group, and positions are all rows of the group. */
  lemma RankIs(panel: seq<Bar>, p: nat)
    requires p < |panel|
    ensures Rank(panel, p) == |set q: nat | q < p && panel[q].key == panel[p].key|
    ensures forall q: nat :: q in Positions(panel, panel[p].key) <==> q < |panel| && panel[q].key == panel[p].key
  {
    var key := panel[p].key;
    PositionsCount(panel[..p], key);
    assert RowsOf(panel[..p], key) == set q: nat | q < p && panel[q].key == key;
    forall q: nat | q < |panel| && panel[q].key == key ensures q in Positions(panel, key) { RankIsPosition(panel, q); }
    hide Positions, RowsOf;
  }

  // ----- no look-ahead outside the group

  /** A label reads a later bar of the same ticker and session, far enough ahead and never too near. */
  lemma LabelLooksAhead(panel: seq<Bar>, h: Horizon, dropLast: int, p: nat)
    requires p < |panel| && InHorizon(panel, h, dropLast, p)
    ensures var q := FutureRow(panel, h, dropLast, p);
      && panel[q].key == panel[p].key && p <= q
      && (h.Bars? ==> Rank(panel, q) - Rank(panel, p) == h.bars)
      && (h.SessionClose? ==>
            && Rank(panel, q) - Rank(panel, p) >= DropCount(h, dropLast) >= 1
            && forall r :: 0 <= r < |panel| && panel[r].key == panel[p].key ==> r <= q)
  {
    var positions, k := Positions(panel, panel[p].key), Rank(panel, p);
    RankIsPosition(panel, p);
    PositionHasRank(panel, panel[p].key, FutureRank(h, k, |positions|));
    if h.SessionClose? {
      forall r | 0 <= r < |panel| && panel[r].key == panel[p].key ensures r <= positions[|positions| - 1] {
        RankIsPosition(panel, r);
      }
    }
    hide Positions, Rank;
  }

  function RowsOf(panel: seq<Bar>, key: GroupKey): set<nat> {
    set q: nat | q < |panel| && panel[q].key == key
  }

  /** Later rows of the same ticker and session. */
  function LaterRows(panel: seq<Bar>, p: nat): set<nat>
    requires p < |panel|
  {
    set q: nat | p < q < |panel| && panel[q].key == panel[p].key
  }

  lemma {:induction false} PositionsCount(panel: seq<Bar>, key: GroupKey)
    ensures |RowsOf(panel, key)| == |Positions(panel, key)|
  {
    if |panel| > 0 {
      var init, n := panel[..|panel| - 1], |panel| - 1;
      PositionsCount(init, key);
      assert RowsOf(panel, key) == RowsOf(init, key) + (if panel[n].key == key then {n} else {});
    }
  }

  /** A row is labelled iff enough rows of its group follow it and its close is not negligible. */
  lemma LabelledIff(panel: seq<Bar>, h: Horizon, dropLast: int, p: nat)
    requires p < |panel|
    ensures Label(panel, h, dropLast, p).Some? <==>
      |LaterRows(panel, p)| >= DropCount(h, dropLast) && panel[p].close > MIN_CLOSE
  {
    var key := panel[p].key;
    PositionsCount(panel, key);
    PositionsCount(panel[..p], key);
    var before, later := RowsOf(panel[..p], key), LaterRows(panel, p);
    assert RowsOf(panel, key) == before + {p} + later;
    assert |before + {p} + later| == |before| + 1 + |later|;
    hide Positions, RowsOf, LaterRows;
  }
}
