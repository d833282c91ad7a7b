/** agents/parameter_extraction_agent.py: the ParameterExtractionAgent, which gathers trajectory
    and casing rows from retrieved chunks, joins each casing depth to its nearest survey point
    and scores the result. */
module ParameterExtraction {
  import opened Common
  import opened Ordering
  import opened ExtractionPatterns
  import Validation

  /** A retrieved trajectory chunk: its content, whether one of the trajectory patterns matches
      it, and the match groups extract_trajectory_data would receive. */
  datatype TrajectoryChunk = TrajectoryChunk(content: string, hasPattern: bool,
                                             matches: seq<seq<TrajPoint>>)

  /** A retrieved casing chunk: its content, whether the fractional-casing pattern matches it,
      and the match groups of the fractional and decimal casing patterns. */
  datatype CasingChunk = CasingChunk(content: string, hasFractional: bool,
                                     frac: seq<seq<FractionalMatch>>, dec: seq<seq<DecimalMatch>>)

  predicate TrajectoryGate(ch: TrajectoryChunk) { IsTrajectoryContent(ch.content, ch.hasPattern) }

  predicate CasingGate(ch: CasingChunk) { IsCasingContent(ch.content, ch.hasFractional) }

  // ---------------------------------------------------------------- gathering over chunks

  /** The loop `for chunk in chunks: if not gate(chunk): continue; all.extend(extract(chunk))`. */
  function Gather<C, T>(chunks: seq<C>, gate: C -> bool, extract: C -> seq<T>): seq<T>
  {
    if chunks == [] then []
    else
      var ch := chunks[|chunks| - 1];
      Gather(chunks[..|chunks| - 1], gate, extract) + (if gate(ch) then extract(ch) else [])
  }

  /** Everything gathered comes from a chunk that passed the gate. */
  lemma {:induction false} GatherSource<C, T>(chunks: seq<C>, gate: C -> bool, extract: C -> seq<T>, x: T)
    requires x in Gather(chunks, gate, extract)
    ensures exists k :: 0 <= k < |chunks| && gate(chunks[k]) && x in extract(chunks[k])
    decreases |chunks|
  {
    var prefix := chunks[..|chunks| - 1];
    if x in Gather(prefix, gate, extract) {
      GatherSource(prefix, gate, extract, x);
      var k :| 0 <= k < |prefix| && gate(prefix[k]) && x in extract(prefix[k]);
      assert chunks[k] == prefix[k];
    } else {
      assert gate(chunks[|chunks| - 1]);
    }
  }

  /** The same loop when extract may raise: the first error raised ends it. */
  function GatherOrFail<C, T>(chunks: seq<C>, gate: C -> bool, extract: C -> Result<seq<T>>): Result<seq<T>>
  {
    if chunks == [] then Ok([])
    else
      var r := GatherOrFail(chunks[..|chunks| - 1], gate, extract);
      var ch := chunks[|chunks| - 1];
      if r.Err? || !gate(ch) then r
      else
        var d := extract(ch);
        if d.Err? then Err(d.error) else Ok(r.value + d.value)
  }

  /** The loop fails exactly when some chunk that passes the gate raises, and with an error
      that chunk raises. */
  lemma {:induction false} GatherOrFailErrorIff<C, T>(chunks: seq<C>, gate: C -> bool, extract: C -> Result<seq<T>>)
    ensures GatherOrFail(chunks, gate, extract).Err? <==>
              exists k :: 0 <= k < |chunks| && gate(chunks[k]) && extract(chunks[k]).Err?
    ensures GatherOrFail(chunks, gate, extract).Err? ==>
              exists k :: 0 <= k < |chunks| && gate(chunks[k]) &&
                          extract(chunks[k]) == Err(GatherOrFail(chunks, gate, extract).error)
    decreases |chunks|
  {
    if chunks != [] {
      var prefix := chunks[..|chunks| - 1];
      var last := |chunks| - 1;
      GatherOrFailErrorIff(prefix, gate, extract);
      assert forall k :: 0 <= k < |prefix| ==> prefix[k] == chunks[k];
      if exists k :: 0 <= k < |chunks| && gate(chunks[k]) && extract(chunks[k]).Err? {
        var k :| 0 <= k < |chunks| && gate(chunks[k]) && extract(chunks[k]).Err?;
        if k < last {
          assert gate(prefix[k]) && extract(prefix[k]).Err?;
        }
      }
    }
  }

  /** One more chunk: skipped, or its rows appended, or its error raised. */
  lemma GatherOrFailSnoc<C, T>(chunks: seq<C>, gate: C -> bool, extract: C -> Result<seq<T>>, i: nat)
    requires i < |chunks| && GatherOrFail(chunks[..i], gate, extract).Ok?
    ensures !gate(chunks[i]) ==> GatherOrFail(chunks[..i + 1], gate, extract) == GatherOrFail(chunks[..i], gate, extract)
    ensures gate(chunks[i]) && extract(chunks[i]).Err? ==>
              GatherOrFail(chunks[..i + 1], gate, extract) == Err(extract(chunks[i]).error)
    ensures gate(chunks[i]) && extract(chunks[i]).Ok? ==>
              GatherOrFail(chunks[..i + 1], gate, extract) ==
              Ok(GatherOrFail(chunks[..i], gate, extract).value + extract(chunks[i]).value)
  {
    assert chunks[..i + 1][..i] == chunks[..i];
  }

  /** Once a prefix of the chunks fails, the whole list fails with the same error. */
  lemma {:induction false} GatherOrFailStops<C, T>(chunks: seq<C>, gate: C -> bool, extract: C -> Result<seq<T>>, n: nat)
    requires n <= |chunks| && GatherOrFail(chunks[..n], gate, extract).Err?
    ensures GatherOrFail(chunks, gate, extract) == GatherOrFail(chunks[..n], gate, extract)
    decreases |chunks| - n
  {
    if n < |chunks| {
      assert chunks[..n + 1][..n] == chunks[..n];
      GatherOrFailStops(chunks, gate, extract, n + 1);
    } else {
      assert chunks[..n] == chunks;
    }
  }

  // ---------------------------------------------------------------- _extract_trajectory

  /** extract_trajectory_data on one chunk's match groups. */
  function ChunkRows(ch: TrajectoryChunk): seq<TrajPoint> { TrajectoryData(ch.matches) }

  /** What _extract_trajectory returns when it admits the chunks that pass `gate` (the agent
      passes TrajectoryGate): the first row per measured depth among their rows, sorted by
      measured depth. */
  function TrajectoryFromChunks(chunks: seq<TrajectoryChunk>, gate: TrajectoryChunk -> bool): seq<TrajPoint>
  {
    SortBy(DedupBy(Gather(chunks, gate, ChunkRows), Md), Md)
  }

  method ExtractTrajectory(chunks: seq<TrajectoryChunk>) returns (points: seq<TrajPoint>)
    ensures points == TrajectoryFromChunks(chunks, TrajectoryGate)
  {
    var all: seq<TrajPoint> := [];
    var i := 0;
    while i < |chunks|
      invariant 0 <= i <= |chunks|
      invariant all == Gather(chunks[..i], TrajectoryGate, ChunkRows)
    {
      var ch := chunks[i];
      assert chunks[..i + 1][..i] == chunks[..i];
      if TrajectoryGate(ch) {
        var found := ExtractTrajectoryData(ch.matches);
        all := all + found;
      }
      i := i + 1;
    }
    assert chunks[..|chunks|] == chunks;
    var unique := Dedup(all, Md);
    points := SortBy(unique, Md);
  }

  /** Measured depths strictly increase along the extracted trajectory. */
  lemma TrajectoryFromChunksIncreasing(chunks: seq<TrajectoryChunk>, gate: TrajectoryChunk -> bool)
    ensures IncreasingBy(TrajectoryFromChunks(chunks, gate), Md)
  {
    SortByIncreasing(DedupBy(Gather(chunks, gate, ChunkRows), Md), Md);
  }

  /** The rows kept are exactly the first gathered row seen at each measured depth. */
  lemma TrajectoryFromChunksFirstKept(chunks: seq<TrajectoryChunk>, gate: TrajectoryChunk -> bool, p: TrajPoint)
    ensures p in TrajectoryFromChunks(chunks, gate) ==>
              exists i :: FirstOfKey(Gather(chunks, gate, ChunkRows), Md, i) && Gather(chunks, gate, ChunkRows)[i] == p
    ensures (exists i :: FirstOfKey(Gather(chunks, gate, ChunkRows), Md, i) && Gather(chunks, gate, ChunkRows)[i] == p) ==>
              p in TrajectoryFromChunks(chunks, gate)
  {
    SortDedupFirst(Gather(chunks, gate, ChunkRows), Md, p);
  }

  /** Every reported row was extracted from a chunk that passed the gate, and it passed the
      extractor's plausibility filter there. */
  lemma TrajectoryFromGatedChunks(chunks: seq<TrajectoryChunk>, gate: TrajectoryChunk -> bool, p: TrajPoint)
    requires p in TrajectoryFromChunks(chunks, gate)
    ensures exists k :: 0 <= k < |chunks| && gate(chunks[k]) && p in TrajectoryData(chunks[k].matches)
    ensures Plausible(p)
  {
    var g := Gather(chunks, gate, ChunkRows);
    SortDedupFirst(g, Md, p);
    var i :| FirstOfKey(g, Md, i) && g[i] == p;
    GatherSource(chunks, gate, ChunkRows, p);
    var k :| 0 <= k < |chunks| && gate(chunks[k]) && p in ChunkRows(chunks[k]);
    RowsPlausible(chunks[k].matches, p);
  }

  lemma RowsPlausible(matches: seq<seq<TrajPoint>>, p: TrajPoint)
    requires p in TrajectoryData(matches)
    ensures Plausible(p)
  {
    TrajectoryPlausible(matches);
    var j :| 0 <= j < |TrajectoryData(matches)| && TrajectoryData(matches)[j] == p;
  }

  // ---------------------------------------------------------------- _extract_casing

  /** extract_casing_data on one chunk's match groups. */
  function ChunkIntervals(ch: CasingChunk): Result<seq<CasingPoint>> { CasingData(ch.frac, ch.dec) }

  /** What _extract_casing returns when it admits the chunks that pass `gate` (the agent passes
      CasingGate): the first interval per depth among their intervals, sorted by depth; or the
      division error one of them raises. */
  function CasingFromChunks(chunks: seq<CasingChunk>, gate: CasingChunk -> bool): Result<seq<CasingPoint>>
  {
    var g := GatherOrFail(chunks, gate, ChunkIntervals);
    if g.Err? then Err(g.error) else Ok(SortBy(DedupBy(g.value, CasingMd), CasingMd))
  }

  method ExtractCasing(chunks: seq<CasingChunk>) returns (r: Result<seq<CasingPoint>>)
    ensures r == CasingFromChunks(chunks, CasingGate)
  {
    var all := GatherCasing(chunks);
    if all.Err? {
      return Err(all.error);
    }
    var unique := Dedup(all.value, CasingMd);
    r := Ok(SortBy(unique, CasingMd));
  }

  /** The loop of _extract_casing over the chunks, up to the first error. */
  method GatherCasing(chunks: seq<CasingChunk>) returns (r: Result<seq<CasingPoint>>)
    ensures r == GatherOrFail(chunks, CasingGate, ChunkIntervals)
  {
    var all: seq<CasingPoint> := [];
    var i := 0;
    while i < |chunks|
      invariant 0 <= i <= |chunks|
      invariant GatherOrFail(chunks[..i], CasingGate, ChunkIntervals) == Ok(all)
    {
      var ch := chunks[i];
      GatherOrFailSnoc(chunks, CasingGate, ChunkIntervals, i);
      if CasingGate(ch) {
        var found := ExtractCasingData(ch.frac, ch.dec);
        if found.Err? {
          GatherOrFailStops(chunks, CasingGate, ChunkIntervals, i + 1);
          return Err(found.error);
        }
        all := all + found.value;
      }
      i := i + 1;
    }
    assert chunks[..|chunks|] == chunks;
    r := Ok(all);
  }

  /** Extraction fails exactly when some chunk that passes the gate holds a fractional match
      with a zero denominator, and the error is then the division error. */
  lemma CasingChunksErrorIff(chunks: seq<CasingChunk>, gate: CasingChunk -> bool)
    ensures CasingFromChunks(chunks, gate).Err? <==>
              exists k :: 0 <= k < |chunks| && gate(chunks[k]) && DividesByZero(chunks[k].frac)
    ensures CasingFromChunks(chunks, gate).Err? ==> CasingFromChunks(chunks, gate).error == ZeroDivision
  {
    GatherOrFailErrorIff(chunks, gate, ChunkIntervals);
    forall k | 0 <= k < |chunks|
      ensures ChunkIntervals(chunks[k]).Err? <==> DividesByZero(chunks[k].frac)
      ensures ChunkIntervals(chunks[k]).Err? ==> ChunkIntervals(chunks[k]).error == ZeroDivision
    {
      CasingErrorIff(chunks[k].frac, chunks[k].dec);
    }
  }

  /** Depths strictly increase along the extracted casing list. */
  lemma CasingFromChunksIncreasing(chunks: seq<CasingChunk>, gate: CasingChunk -> bool)
    requires CasingFromChunks(chunks, gate).Ok?
    ensures IncreasingBy(CasingFromChunks(chunks, gate).value, CasingMd)
  {
    SortByIncreasing(DedupBy(GatherOrFail(chunks, gate, ChunkIntervals).value, CasingMd), CasingMd);
  }

  // ---------------------------------------------------------------- _merge_trajectory_casing

  /** A merged row: the depth and pipe of a casing string with the survey values beside it. */
  datatype MergedRow = MergedRow(md: real, tvd: real, inc: real, pipeId: real)

  function RowMd(r: MergedRow): real { r.md }

  function Distance(p: TrajPoint, x: real): real { Abs(p.md - x) }

  /** min(trajectory, key=|md - x|): the index of the first point nearest to x. */
  function Nearest(traj: seq<TrajPoint>, x: real): (i: nat)
    requires traj != []
    ensures i < |traj|
    ensures forall j :: 0 <= j < |traj| ==> Distance(traj[i], x) <= Distance(traj[j], x)
    ensures forall j :: 0 <= j < i ==> Distance(traj[i], x) < Distance(traj[j], x)
    decreases |traj|
  {
    if |traj| == 1 then 0
    else
      var p := traj[..|traj| - 1];
      var i := Nearest(p, x);
      assert forall j :: 0 <= j < |p| ==> p[j] == traj[j];
      if Distance(traj[|traj| - 1], x) < Distance(traj[i], x) then |traj| - 1 else i
  }

  /** The row for one casing string: its depth and pipe with the nearest survey point's tvd
      and inclination. */
  function RowFor(traj: seq<TrajPoint>, c: CasingPoint): MergedRow
    requires traj != []
  {
    var n := traj[Nearest(traj, c.md)];
    MergedRow(c.md, n.tvd, n.inc, c.pipeId)
  }

  function CasingRows(traj: seq<TrajPoint>, casing: seq<CasingPoint>): (rows: seq<MergedRow>)
    requires traj != []
    ensures |rows| == |casing|
    ensures forall k :: 0 <= k < |casing| ==> rows[k] == RowFor(traj, casing[k])
  {
    if casing == [] then [] else CasingRows(traj, casing[..|casing| - 1]) + [RowFor(traj, casing[|casing| - 1])]
  }

  /** The join of a sorted trajectory and a sorted casing list: one row per casing string,
      then a total-depth row when the trajectory reaches below the last casing depth. */
  function Join(traj: seq<TrajPoint>, casing: seq<CasingPoint>): seq<MergedRow>
    requires traj != [] && casing != []
  {
    var td := traj[|traj| - 1];
    var last := casing[|casing| - 1];
    CasingRows(traj, casing) + (if td.md > last.md then [MergedRow(td.md, td.tvd, td.inc, last.pipeId)] else [])
  }

  /** What _merge_trajectory_casing returns for the lists it is given. */
  function Merged(traj: seq<TrajPoint>, casing: seq<CasingPoint>): (rows: seq<MergedRow>)
    ensures traj != [] && casing != [] ==> |casing| <= |rows| <= |casing| + 1
  {
    if traj == [] || casing == [] then []
    else
      var st, sc := SortBy(traj, Md), SortBy(casing, CasingMd);
      assert |multiset(st)| == |traj| && |multiset(sc)| == |casing|;
      Join(st, sc)
  }

  /** The merge sorts both argument lists in place, then builds the rows. */
  method MergeTrajectoryCasing(traj: array<TrajPoint>, casing: array<CasingPoint>) returns (merged: seq<MergedRow>)
    modifies traj, casing
    ensures merged == Merged(old(traj[..]), old(casing[..]))
    ensures traj.Length == 0 || casing.Length == 0 ==> traj[..] == old(traj[..]) && casing[..] == old(casing[..])
    ensures traj.Length > 0 && casing.Length > 0 ==>
              traj[..] == SortBy(old(traj[..]), Md) && casing[..] == SortBy(old(casing[..]), CasingMd)
  {
    if traj.Length == 0 || casing.Length == 0 {
      return [];
    }
    ghost var t0, c0 := traj[..], casing[..];
    SortInPlace(traj, Md);
    SortInPlace(casing, CasingMd);
    merged := BuildRows(traj, casing);
    ghost var st, sc := SortedViews(t0, c0);
  }

  /** The rows of the merge over the sorted lists: the loop, then the total-depth row. */
  method BuildRows(traj: array<TrajPoint>, casing: array<CasingPoint>) returns (merged: seq<MergedRow>)
    requires traj.Length > 0 && casing.Length > 0
    ensures merged == Join(traj[..], casing[..])
  {
    merged := RowsPerCasing(traj, casing);
    var td := traj[traj.Length - 1];
    var lastCasing := casing[casing.Length - 1];
    if td.md > merged[|merged| - 1].md {
      merged := merged + [MergedRow(td.md, td.tvd, td.inc, lastCasing.pipeId)];
    }
  }

  /** The loop of the merge: for each casing string, the row beside its nearest survey point. */
  method RowsPerCasing(traj: array<TrajPoint>, casing: array<CasingPoint>) returns (merged: seq<MergedRow>)
    requires traj.Length > 0
    ensures merged == CasingRows(traj[..], casing[..])
  {
    ghost var t, c := traj[..], casing[..];
    merged := [];
    var k := 0;
    while k < casing.Length
      invariant 0 <= k <= casing.Length
      invariant merged == CasingRows(t, c[..k])
    {
      var casingMd := casing[k].md;
      var closest := traj[Nearest(traj[..], casingMd)];
      CasingRowsSnoc(t, c, k);
      merged := merged + [MergedRow(casingMd, closest.tvd, closest.inc, casing[k].pipeId)];
      k := k + 1;
    }
    assert c[..casing.Length] == c;
  }

  lemma CasingRowsSnoc(t: seq<TrajPoint>, c: seq<CasingPoint>, k: nat)
    requires t != [] && k < |c|
    ensures CasingRows(t, c[..k + 1]) == CasingRows(t, c[..k]) + [RowFor(t, c[k])]
  {
    assert c[..k + 1][..k] == c[..k];
  }

  /** The sorted copies the merge joins, with the facts the lemmas below need about them. */
  lemma SortedViews(traj: seq<TrajPoint>, casing: seq<CasingPoint>) returns (st: seq<TrajPoint>, sc: seq<CasingPoint>)
    requires traj != [] && casing != []
    ensures st == SortBy(traj, Md) && sc == SortBy(casing, CasingMd)
    ensures SortedBy(st, Md) && SortedBy(sc, CasingMd)
    ensures multiset(st) == multiset(traj) && multiset(sc) == multiset(casing)
    ensures |st| == |traj| && |sc| == |casing|
    ensures Merged(traj, casing) == Join(st, sc)
  {
    st, sc := SortBy(traj, Md), SortBy(casing, CasingMd);
    assert |multiset(st)| == |traj| && |multiset(sc)| == |casing|;
  }

  /** The merge is empty exactly when one of its inputs is. */
  lemma MergedEmptyIff(traj: seq<TrajPoint>, casing: seq<CasingPoint>)
    ensures Merged(traj, casing) == [] <==> traj == [] || casing == []
  {
    if traj != [] && casing != [] {
      var st, sc := SortedViews(traj, casing);
      assert |Join(st, sc)| >= |sc|;
    }
  }

  /** Some survey point lies deeper than every casing depth. */
  predicate ReachesBelowCasing(traj: seq<TrajPoint>, casing: seq<CasingPoint>)
  {
    exists i :: 0 <= i < |traj| && forall j :: 0 <= j < |casing| ==> traj[i].md > casing[j].md
  }

  /** One row per casing string, plus one exactly when the trajectory reaches below every
      casing depth. */
  lemma MergedLength(traj: seq<TrajPoint>, casing: seq<CasingPoint>)
    requires traj != [] && casing != []
    ensures |Merged(traj, casing)| == |casing| + if ReachesBelowCasing(traj, casing) then 1 else 0
  {
    var st, sc := SortedViews(traj, casing);
    ReachesBelowLast(traj, casing, st, sc);
  }

  /** On sorted copies, reaching below the casing means the deepest survey point lies below
      the deepest casing depth. */
  lemma ReachesBelowLast(traj: seq<TrajPoint>, casing: seq<CasingPoint>, st: seq<TrajPoint>, sc: seq<CasingPoint>)
    requires st != [] && sc != [] && SortedBy(st, Md) && SortedBy(sc, CasingMd)
    requires multiset(st) == multiset(traj) && multiset(sc) == multiset(casing)
    ensures ReachesBelowCasing(traj, casing) <==> st[|st| - 1].md > sc[|sc| - 1].md
  {
    var td, last := st[|st| - 1], sc[|sc| - 1];
    LastIsMax(st, Md);
    LastIsMax(sc, CasingMd);
    if td.md > last.md {
      assert td in multiset(traj);
      var i :| 0 <= i < |traj| && traj[i] == td;
      forall j | 0 <= j < |casing| ensures traj[i].md > casing[j].md {
        assert casing[j] in multiset(sc);
        var m :| 0 <= m < |sc| && sc[m] == casing[j];
      }
    }
    if ReachesBelowCasing(traj, casing) {
      var i :| 0 <= i < |traj| && forall j :: 0 <= j < |casing| ==> traj[i].md > casing[j].md;
      assert traj[i] in multiset(st);
      var m :| 0 <= m < |st| && st[m] == traj[i];
      assert last in multiset(casing);
      var j :| 0 <= j < |casing| && casing[j] == last;
    }
  }

  /** st[i] is nearest to depth x, and no equally near point has a smaller md. */
  predicate NearestPoint(st: seq<TrajPoint>, i: int, x: real)
  {
    0 <= i < |st| &&
    (forall j :: 0 <= j < |st| ==> Distance(st[i], x) <= Distance(st[j], x)) &&
    (forall j :: 0 <= j < |st| && Distance(st[j], x) == Distance(st[i], x) ==> st[i].md <= st[j].md)
  }

  /** The row carries the depth and pipe of casing string c beside the tvd and inclination of
      a nearest survey point of st. */
  predicate RowBeside(row: MergedRow, st: seq<TrajPoint>, c: CasingPoint)
  {
    row.md == c.md && row.pipeId == c.pipeId &&
    exists i :: 0 <= i < |st| && NearestPoint(st, i, c.md) && row.tvd == st[i].tvd && row.inc == st[i].inc
  }

  /** Row k carries the depth and pipe of the k-th casing string by depth, and the tvd and
      inclination of a survey point nearest to that depth; of several equally near points the
      one with the smaller md is taken. */
  lemma MergedCasingRow(traj: seq<TrajPoint>, casing: seq<CasingPoint>, k: int)
    requires traj != [] && 0 <= k < |casing|
    ensures RowBeside(Merged(traj, casing)[k], SortBy(traj, Md), SortBy(casing, CasingMd)[k])
  {
    var st, sc := SortedViews(traj, casing);
    JoinRow(st, sc, k);
  }

  /** Row k of the join of sorted lists sits beside the k-th casing string. */
  lemma JoinRow(st: seq<TrajPoint>, sc: seq<CasingPoint>, k: int)
    requires st != [] && SortedBy(st, Md) && 0 <= k < |sc|
    ensures RowBeside(Join(st, sc)[k], st, sc[k])
  {
    assert Join(st, sc)[k] == RowFor(st, sc[k]);
    NearestOfSorted(st, sc[k].md);
  }

  /** On a trajectory sorted by md, the first nearest point has the smallest md among the
      equally near ones. */
  lemma NearestOfSorted(st: seq<TrajPoint>, x: real)
    requires st != [] && SortedBy(st, Md)
    ensures NearestPoint(st, Nearest(st, x), x)
  {
    var i := Nearest(st, x);
    forall j | 0 <= j < |st| && Distance(st[j], x) == Distance(st[i], x) ensures st[i].md <= st[j].md {
      assert i <= j;
      assert Md(st[i]) <= Md(st[j]);
    }
  }

  /** The rows are sorted by depth: the casing depths in order, then the deeper total depth. */
  lemma MergedSorted(traj: seq<TrajPoint>, casing: seq<CasingPoint>)
    ensures SortedBy(Merged(traj, casing), RowMd)
  {
    if traj != [] && casing != [] {
      var st, sc := SortedViews(traj, casing);
      JoinSorted(st, sc);
    }
  }

  lemma JoinSorted(st: seq<TrajPoint>, sc: seq<CasingPoint>)
    requires st != [] && sc != [] && SortedBy(sc, CasingMd)
    ensures SortedBy(Join(st, sc), RowMd)
  {
    var rows := CasingRows(st, sc);
    var m := Join(st, sc);
    forall a, b | 0 <= a < b < |m| ensures RowMd(m[a]) <= RowMd(m[b]) {
      assert m[a] == rows[a];
      if b < |sc| {
        assert m[b] == rows[b];
      } else {
        assert RowMd(m[b]) > sc[|sc| - 1].md >= sc[a].md;
      }
    }
  }

  /** When present, the total-depth row sits at the deepest survey point and carries the pipe
      of the deepest casing string. */
  lemma MergedTotalDepthRow(traj: seq<TrajPoint>, casing: seq<CasingPoint>)
    requires |Merged(traj, casing)| == |casing| + 1
    ensures var row := Merged(traj, casing)[|casing|];
            (exists i :: 0 <= i < |traj| && row == MergedRow(traj[i].md, traj[i].tvd, traj[i].inc, row.pipeId) &&
                         forall j :: 0 <= j < |traj| ==> traj[j].md <= traj[i].md) &&
            (exists k :: 0 <= k < |casing| && row.pipeId == casing[k].pipeId &&
                         forall j :: 0 <= j < |casing| ==> casing[j].md <= casing[k].md)
  {
    var st, sc := SortedViews(traj, casing);
    JoinTotalDepthRow(traj, casing, st, sc);
  }

  lemma JoinTotalDepthRow(traj: seq<TrajPoint>, casing: seq<CasingPoint>, st: seq<TrajPoint>, sc: seq<CasingPoint>)
    requires st != [] && sc != [] && SortedBy(st, Md) && SortedBy(sc, CasingMd)
    requires multiset(st) == multiset(traj) && multiset(sc) == multiset(casing)
    requires |sc| == |casing| && |Join(st, sc)| == |casing| + 1
    ensures var row := Join(st, sc)[|casing|];
            (exists i :: 0 <= i < |traj| && row == MergedRow(traj[i].md, traj[i].tvd, traj[i].inc, row.pipeId) &&
                         forall j :: 0 <= j < |traj| ==> traj[j].md <= traj[i].md) &&
            (exists k :: 0 <= k < |casing| && row.pipeId == casing[k].pipeId &&
                         forall j :: 0 <= j < |casing| ==> casing[j].md <= casing[k].md)
  {
    var td, last := st[|st| - 1], sc[|sc| - 1];
    LastIsMax(st, Md);
    LastIsMax(sc, CasingMd);
    assert td in multiset(traj) && last in multiset(casing);
    var i :| 0 <= i < |traj| && traj[i] == td;
    var k :| 0 <= k < |casing| && casing[k] == last;
    forall j | 0 <= j < |traj| ensures traj[j].md <= td.md {
      assert traj[j] in multiset(st);
      var m :| 0 <= m < |st| && st[m] == traj[j];
    }
    forall j | 0 <= j < |casing| ensures casing[j].md <= last.md {
      assert casing[j] in multiset(sc);
      var m :| 0 <= m < |sc| && sc[m] == casing[j];
    }
  }

  // ---------------------------------------------------------------- _calculate_confidence

  /** A merged row as the dictionary handed to validate_trajectory_point: every key present. */
  function AsPoint(r: MergedRow): Validation.Point
  {
    Validation.Point(Some(r.md), Some(r.tvd), Some(r.inc), Some(r.pipeId))
  }

  predicate RowValid(r: MergedRow, c: Validation.Config) { Validation.PointErrors(AsPoint(r), c) == [] }

  /** How many of the rows pass validate_trajectory_point. */
  function ValidCount(rows: seq<MergedRow>, c: Validation.Config): nat
  {
    if rows == [] then 0
    else ValidCount(rows[..|rows| - 1], c) + if RowValid(rows[|rows| - 1], c) then 1 else 0
  }

  /** 0.4, 0.3 and 0.3 for a non-empty trajectory, casing and merged list. */
  function BaseScore(hasTrajectory: bool, hasCasing: bool, hasMerged: bool): real
  {
    (if hasTrajectory then 0.4 else 0.0) + (if hasCasing then 0.3 else 0.0) + (if hasMerged then 0.3 else 0.0)
  }

  /** min(x, 1.0). */
  function CapAtOne(x: real): real { if 1.0 < x then 1.0 else x }

  function Confidence(trajectory: seq<TrajPoint>, casing: seq<CasingPoint>, merged: seq<MergedRow>,
                      c: Validation.Config): real
  {
    var base := BaseScore(trajectory != [], casing != [], merged != []);
    CapAtOne(if merged != [] then base * Ratio(ValidCount(merged, c), |merged|) else base)
  }

  method CalculateConfidence(trajectory: seq<TrajPoint>, casing: seq<CasingPoint>, merged: seq<MergedRow>,
                             c: Validation.Config) returns (confidence: real)
    ensures confidence == Confidence(trajectory, casing, merged, c)
  {
    confidence := 0.0;
    if trajectory != [] {
      confidence := confidence + 0.4;
    }
    if casing != [] {
      confidence := confidence + 0.3;
    }
    if merged != [] {
      confidence := confidence + 0.3;
    }
    if merged != [] {
      var validCount := CountValid(merged, c);
      confidence := confidence * Ratio(validCount, |merged|);
    }
    confidence := if 1.0 < confidence then 1.0 else confidence;
  }

  /** The counting loop of _calculate_confidence. */
  method CountValid(merged: seq<MergedRow>, c: Validation.Config) returns (validCount: nat)
    ensures validCount == ValidCount(merged, c)
  {
    validCount := 0;
    var i := 0;
    while i < |merged|
      invariant 0 <= i <= |merged|
      invariant validCount == ValidCount(merged[..i], c)
    {
      var valid, _ := Validation.ValidateTrajectoryPoint(AsPoint(merged[i]), c);
      assert merged[..i + 1][..i] == merged[..i];
      if valid {
        validCount := validCount + 1;
      }
      i := i + 1;
    }
    assert merged[..|merged|] == merged;
  }

  /** The valid count never exceeds the row count, equals it exactly when every row is valid
      and is zero exactly when none is. */
  lemma {:induction false} ValidCountBounds(rows: seq<MergedRow>, c: Validation.Config)
    ensures ValidCount(rows, c) <= |rows|
    ensures ValidCount(rows, c) == |rows| <==> forall i :: 0 <= i < |rows| ==> RowValid(rows[i], c)
    ensures ValidCount(rows, c) == 0 <==> forall i :: 0 <= i < |rows| ==> !RowValid(rows[i], c)
    decreases |rows|
  {
    if rows != [] {
      var p := rows[..|rows| - 1];
      ValidCountBounds(p, c);
      assert forall i :: 0 <= i < |p| ==> p[i] == rows[i];
    }
  }

  /** The score lies in [0, 1]. */
  lemma ConfidenceRange(trajectory: seq<TrajPoint>, casing: seq<CasingPoint>, merged: seq<MergedRow>,
                        c: Validation.Config)
    ensures 0.0 <= Confidence(trajectory, casing, merged, c) <= 1.0
  {
    if merged != [] {
      ValidCountBounds(merged, c);
      RatioBetween(ValidCount(merged, c), |merged|);
    }
  }

  /** Arithmetic of the valid-row ratio n / d. */
  lemma RatioBetween(n: nat, d: nat)
    requires 0 < d && n <= d
    ensures 0.0 <= Ratio(n, d) <= 1.0
    ensures n == d ==> Ratio(n, d) == 1.0
    ensures n == 0 ==> Ratio(n, d) == 0.0
  {
  }

  /** With every merged row valid the score is the plain availability sum; with none valid it
      is zero. */
  lemma ConfidenceByValidity(trajectory: seq<TrajPoint>, casing: seq<CasingPoint>, merged: seq<MergedRow>,
                             c: Validation.Config)
    requires merged != []
    ensures (forall i :: 0 <= i < |merged| ==> RowValid(merged[i], c)) ==>
              Confidence(trajectory, casing, merged, c) == BaseScore(trajectory != [], casing != [], true)
    ensures (forall i :: 0 <= i < |merged| ==> !RowValid(merged[i], c)) ==>
              Confidence(trajectory, casing, merged, c) == 0.0
  {
    ValidCountBounds(merged, c);
    var base := BaseScore(trajectory != [], casing != [], true);
    var n := ValidCount(merged, c);
    assert Confidence(trajectory, casing, merged, c) == CapAtOne(base * Ratio(n, |merged|));
    RatioBetween(n, |merged|);
  }

  // ---------------------------------------------------------------- extract_from_chunks

  datatype Extraction = Extraction(trajectory: seq<TrajPoint>, casing: seq<CasingPoint>,
                                   merged: seq<MergedRow>, confidence: real)

  /** The result for the extracted lists: merged only when both are non-empty, then scored. */
  function ExtractionOf(trajectory: seq<TrajPoint>, casing: seq<CasingPoint>, c: Validation.Config): Extraction
  {
    var merged := if trajectory != [] && casing != [] then Merged(trajectory, casing) else [];
    Extraction(trajectory, casing, merged, Confidence(trajectory, casing, merged, c))
  }

  /** A missing 'trajectory' or 'casing' key is an empty list of chunks. The only failure is
      the division error of a casing chunk. */
  method ExtractFromChunks(trajectoryChunks: seq<TrajectoryChunk>, casingChunks: seq<CasingChunk>,
                           c: Validation.Config) returns (r: Result<Extraction>)
    ensures r.Err? <==> CasingFromChunks(casingChunks, CasingGate).Err?
    ensures r.Ok? ==> r.value == ExtractionOf(TrajectoryFromChunks(trajectoryChunks, TrajectoryGate),
                                              CasingFromChunks(casingChunks, CasingGate).value, c)
  {
    var trajectory: seq<TrajPoint> := [];
    var casing: seq<CasingPoint> := [];
    if trajectoryChunks != [] {
      trajectory := ExtractTrajectory(trajectoryChunks);
    }
    if casingChunks != [] {
      var found := ExtractCasing(casingChunks);
      if found.Err? {
        return Err(found.error);
      }
      casing := found.value;
    }
    var e := Assemble(trajectory, casing, c);
    r := Ok(e);
  }

  /** The tail of extract_from_chunks: merge when both lists are non-empty, then score. */
  method Assemble(trajectory: seq<TrajPoint>, casing: seq<CasingPoint>, c: Validation.Config)
    returns (e: Extraction)
    requires SortedBy(trajectory, Md) && SortedBy(casing, CasingMd)
    ensures e == ExtractionOf(trajectory, casing, c)
  {
    var traj, cas, merged := trajectory, casing, [];
    if trajectory != [] && casing != [] {
      // the merge receives the very lists stored in the result and sorts them in place
      var trajectoryList := new TrajPoint[|trajectory|](i requires 0 <= i < |trajectory| => trajectory[i]);
      var casingList := new CasingPoint[|casing|](i requires 0 <= i < |casing| => casing[i]);
      assert trajectoryList[..] == trajectory && casingList[..] == casing;
      merged := MergeTrajectoryCasing(trajectoryList, casingList);
      SortBySorted(trajectory, Md);
      SortBySorted(casing, CasingMd);
      traj, cas := trajectoryList[..], casingList[..];
    }
    var confidence := CalculateConfidence(traj, cas, merged, c);
    e := Extraction(traj, cas, merged, confidence);
  }

  /** The merged list is non-empty exactly when both the trajectory and the casing are. */
  lemma ExtractionMergedIff(trajectory: seq<TrajPoint>, casing: seq<CasingPoint>, c: Validation.Config)
    ensures ExtractionOf(trajectory, casing, c).merged != [] <==> trajectory != [] && casing != []
    ensures 0.0 <= ExtractionOf(trajectory, casing, c).confidence <= 1.0
  {
    MergedEmptyIff(trajectory, casing);
    var e := ExtractionOf(trajectory, casing, c);
    ConfidenceRange(trajectory, casing, e.merged, c);
  }

  /** The lists _extract_trajectory and _extract_casing return are already sorted, so the
      merge's in-place sort leaves them as they are. */
  lemma ExtractedListsSorted(trajectoryChunks: seq<TrajectoryChunk>, tgate: TrajectoryChunk -> bool,
                             casingChunks: seq<CasingChunk>, cgate: CasingChunk -> bool)
    ensures SortBy(TrajectoryFromChunks(trajectoryChunks, tgate), Md) == TrajectoryFromChunks(trajectoryChunks, tgate)
    ensures CasingFromChunks(casingChunks, cgate).Ok? ==>
              SortBy(CasingFromChunks(casingChunks, cgate).value, CasingMd) == CasingFromChunks(casingChunks, cgate).value
  {
    SortBySorted(TrajectoryFromChunks(trajectoryChunks, tgate), Md);
    if CasingFromChunks(casingChunks, cgate).Ok? {
      SortBySorted(CasingFromChunks(casingChunks, cgate).value, CasingMd);
    }
  }
}
