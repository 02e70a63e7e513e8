/** The window extractor (`extract_slice`): resolve a window relative to
    "now", select every chunk whose descriptor parses and whose interval
    meets the window, order the selection by descriptor timestamp,
    concatenate the `.iq` files into the output file and write an output
    descriptor taken from the earliest chunk. */
module Extraction {
  import opened Chunks

  /** One selected chunk: the `(t, dur, meta_path)` tuple the extractor
      collects, with `t` the descriptor's `timestamp_utc`. */
  datatype Entry = Entry(time: int, dur: int, stem: nat)

  /** The absolute window `[start, end]`, in milliseconds. */
  datatype Window = Window(start: int, end: int)

  /** The window for a request of `durationMs` starting `startRelMs` after
      `nowMs` (negative for the past). */
  function Resolve(nowMs: int, startRelMs: int, durationMs: int): (w: Window)
    ensures w.end - w.start == durationMs
    ensures w.start - nowMs == startRelMs
  {
    Window(nowMs + startRelMs, nowMs + startRelMs + durationMs)
  }

  /** The overlap test, inclusive at both ends: a chunk of non-negative
      duration starting inside the window passes. */
  function Overlaps(t: int, dur: int, w: Window): (b: bool)
    ensures dur >= 0 && w.start <= t <= w.end ==> b
  {
    t <= w.end && t + dur >= w.start
  }

  function Max(a: int, b: int): int { if a < b then b else a }

  function Min(a: int, b: int): int { if a < b then a else b }

  /** For a chunk of non-negative duration and a window that does not run
      backwards, the test passes exactly when the closed intervals
      `[t, t + dur]` and `[start, end]` share an instant. */
  lemma OverlapsMeetsWindow(t: int, dur: int, w: Window)
    requires dur >= 0 && w.start <= w.end
    ensures Overlaps(t, dur, w) <==> Max(t, w.start) <= Min(t + dur, w.end)
  {
  }

  /** What the extractor makes of the descriptor of stem `s`: an entry when
      the file parses, has a timestamp and a numeric duration, and the
      chunk's interval meets the window; nothing otherwise. */
  function Candidate(m: Dir, s: nat, w: Window): (r: Option<Entry>)
    requires s in m
    ensures r.Some? ==> r.value.stem == s
  {
    match m[s].descriptor
    case Some(Parsed(meta)) =>
      if meta.timestampMs.Some? && meta.durationMs.Some?
         && Overlaps(meta.timestampMs.value, meta.durationMs.value, w)
      then Some(Entry(meta.timestampMs.value, meta.durationMs.value, s))
      else None
    case _ => None
  }

  /** The entries collected while enumerating the descriptors in `order`. An
      entry is collected exactly when its stem is enumerated and its
      descriptor yields it. */
  function Selected(m: Dir, order: seq<nat>, w: Window): (es: seq<Entry>)
    requires forall s :: s in order ==> s in m
    ensures |es| <= |order|
    ensures forall e :: e in es <==> e.stem in order && Candidate(m, e.stem, w) == Some(e)
  {
    if order == [] then []
    else
      var last := order[|order| - 1];
      var rest := Selected(m, order[..|order| - 1], w);
      assert forall s :: s in order <==> s in order[..|order| - 1] || s == last;
      match Candidate(m, last, w)
      case Some(e) => rest + [e]
      case None => rest
  }

  /** `order` enumerates each descriptor of `m` exactly once, as
      `glob("*.json")` does, in some order. */
  ghost predicate Enumerates(m: Dir, order: seq<nat>)
  {
    && (forall i, j | 0 <= i < j < |order| :: order[i] != order[j])
    && (forall s :: s in order <==> s in DescriptorStems(m))
  }

  /** Each descriptor is collected at most once. */
  lemma {:induction false} SelectedOnce(m: Dir, order: seq<nat>, w: Window, e: Entry)
    requires forall s :: s in order ==> s in m
    requires forall i, j | 0 <= i < j < |order| :: order[i] != order[j]
    ensures multiset(Selected(m, order, w))[e] == if e in Selected(m, order, w) then 1 else 0
  {
    if order != [] {
      var init := order[..|order| - 1];
      var last := order[|order| - 1];
      SelectedOnce(m, init, w, e);
      if Candidate(m, last, w) == Some(e) {
        assert last !in init;
        assert e !in Selected(m, init, w);
      }
    }
  }

  predicate SortedByTime(es: seq<Entry>)
  {
    forall i, j | 0 <= i < j < |es| :: es[i].time <= es[j].time
  }

  /** Inserts `e` before the first entry that is not earlier: a step of a
      stable sort. */
  function Insert(e: Entry, es: seq<Entry>): (r: seq<Entry>)
    requires SortedByTime(es)
    ensures SortedByTime(r)
    ensures multiset(r) == multiset(es) + multiset{e}
  {
    if es == [] || e.time <= es[0].time then [e] + es
    else
      var tail := Insert(e, es[1..]);
      InsertStep(e, es, tail);
      [es[0]] + tail
  }

  /** Putting the head back in front of the tail with `e` inserted. */
  lemma InsertStep(e: Entry, es: seq<Entry>, tail: seq<Entry>)
    requires SortedByTime(es) && es != [] && es[0].time < e.time
    requires SortedByTime(tail)
    requires multiset(tail) == multiset(es[1..]) + multiset{e}
    ensures SortedByTime([es[0]] + tail)
    ensures multiset([es[0]] + tail) == multiset(es) + multiset{e}
  {
    assert es == [es[0]] + es[1..];
    HeadNotLater(e, es, tail);
  }

  /** The head of a sorted list is not later than any entry of its tail
      with a later entry inserted. */
  lemma HeadNotLater(e: Entry, es: seq<Entry>, tail: seq<Entry>)
    requires SortedByTime(es) && es != [] && es[0].time < e.time
    requires multiset(tail) == multiset(es[1..]) + multiset{e}
    ensures forall j | 0 <= j < |tail| :: es[0].time <= tail[j].time
  {
    forall j | 0 <= j < |tail|
      ensures es[0].time <= tail[j].time
    {
      var x := tail[j];
      assert x in multiset(tail);
      if x != e {
        assert x in multiset(es[1..]);
        var k :| 0 <= k < |es| - 1 && es[1..][k] == x;
        assert es[k + 1] == x;
      }
    }
  }

  /** `metas.sort(key=lambda x: x[0])`: a stable sort by timestamp. */
  function SortByTime(es: seq<Entry>): (r: seq<Entry>)
    ensures SortedByTime(r)
    ensures multiset(r) == multiset(es)
  {
    if es == [] then []
    else
      assert es == [es[0]] + es[1..];
      Insert(es[0], SortByTime(es[1..]))
  }

  /** The entries of `es` stamped `t`, in their order in `es`. */
  function AtTime(es: seq<Entry>, t: int): seq<Entry>
  {
    if es == [] then []
    else (if es[0].time == t then [es[0]] else []) + AtTime(es[1..], t)
  }

  /** Insertion places `e` before every entry sharing its timestamp. */
  lemma {:induction false} InsertStable(e: Entry, es: seq<Entry>, t: int)
    requires SortedByTime(es)
    ensures AtTime(Insert(e, es), t)
         == if e.time == t then [e] + AtTime(es, t) else AtTime(es, t)
  {
    if es == [] || e.time <= es[0].time {
      assert ([e] + es)[1..] == es;
    } else {
      SortedTail(es);
      InsertStable(e, es[1..], t);
      var tail := Insert(e, es[1..]);
      assert ([es[0]] + tail)[1..] == tail;
    }
  }

  /** `SortByTime` is stable: the entries sharing any one timestamp keep
      the order they had in the input. */
  lemma {:induction false} SortStable(es: seq<Entry>, t: int)
    ensures AtTime(SortByTime(es), t) == AtTime(es, t)
  {
    if es != [] {
      var sorted := SortByTime(es[1..]);
      assert SortByTime(es) == Insert(es[0], sorted);
      SortStable(es[1..], t);
      InsertStable(es[0], sorted, t);
      assert AtTime(es, t) == (if es[0].time == t then [es[0]] else []) + AtTime(es[1..], t);
    }
  }

  /** No two entries share a timestamp. */
  ghost predicate DistinctTimes(es: seq<Entry>)
  {
    forall x, y | x in es && y in es :: x.time == y.time ==> x == y
  }

  lemma SameTail(a: seq<Entry>, b: seq<Entry>)
    requires a != [] && b != [] && a[0] == b[0]
    requires multiset(a) == multiset(b)
    ensures multiset(a[1..]) == multiset(b[1..])
  {
    assert a == [a[0]] + a[1..];
    assert b == [b[0]] + b[1..];
    assert multiset(a) == multiset{a[0]} + multiset(a[1..]);
    assert multiset(b) == multiset{a[0]} + multiset(b[1..]);
    forall z ensures multiset(a[1..])[z] == multiset(b[1..])[z] {
      assert multiset(a)[z] == multiset(b)[z];
    }
  }

  lemma SortedTail(a: seq<Entry>)
    requires SortedByTime(a) && a != []
    ensures SortedByTime(a[1..])
  {
  }

  lemma DistinctTail(a: seq<Entry>)
    requires DistinctTimes(a) && a != []
    ensures DistinctTimes(a[1..])
  {
    assert forall x | x in a[1..] :: x in a;
  }

  lemma SameHead(a: seq<Entry>, b: seq<Entry>)
    requires SortedByTime(a) && SortedByTime(b)
    requires a != [] && b != []
    requires multiset(a) == multiset(b)
    requires DistinctTimes(a)
    ensures a[0] == b[0]
  {
    assert a[0] in multiset(b);
    var j :| 0 <= j < |b| && b[j] == a[0];
    assert b[0] in multiset(a);
    var i :| 0 <= i < |a| && a[i] == b[0];
    assert a[0] in a && a[i] in a;
  }

  /** When timestamps are distinct, sorting by them leaves one possible
      order. */
  lemma {:induction false} SortedUnique(a: seq<Entry>, b: seq<Entry>)
    requires SortedByTime(a) && SortedByTime(b)
    requires multiset(a) == multiset(b)
    requires DistinctTimes(a)
    ensures a == b
  {
    assert |a| == |multiset(a)| == |multiset(b)| == |b|;
    if a != [] {
      SameHead(a, b);
      SameTail(a, b);
      SortedTail(a);
      SortedTail(b);
      DistinctTail(a);
      SortedUnique(a[1..], b[1..]);
      SameHeadAndTail(a, b);
    }
  }

  lemma SameHeadAndTail(a: seq<Entry>, b: seq<Entry>)
    requires a != [] && b != [] && a[0] == b[0] && a[1..] == b[1..]
    ensures a == b
  {
    assert a == [a[0]] + a[1..];
    assert b == [b[0]] + b[1..];
  }

  /** The selection in time order: the chunks whose `.iq` files make up the
      output. */
  function Plan(m: Dir, order: seq<nat>, w: Window): (es: seq<Entry>)
    requires forall s :: s in order ==> s in m
    ensures forall e :: e in es <==> e in Selected(m, order, w)
    ensures forall e :: e in es ==> e.stem in m
    ensures forall i | 0 <= i < |es| :: es[i].stem in m
  {
    var es := SortByTime(Selected(m, order, w));
    assert forall e :: e in es <==> e in multiset(es);
    assert forall i | 0 <= i < |es| :: es[i] in es;
    es
  }

  /** The output does not depend on the order in which the directory is
      enumerated, as long as no two selected chunks share a timestamp (ties
      keep enumeration order, since the sort is stable). */
  lemma PlanIndependentOfOrder(m: Dir, o1: seq<nat>, o2: seq<nat>, w: Window)
    requires Enumerates(m, o1) && Enumerates(m, o2)
    requires DistinctTimes(Selected(m, o1, w))
    ensures Plan(m, o1, w) == Plan(m, o2, w)
  {
    var s1 := Selected(m, o1, w);
    var s2 := Selected(m, o2, w);
    forall e ensures multiset(s1)[e] == multiset(s2)[e] {
      SelectedOnce(m, o1, w, e);
      SelectedOnce(m, o2, w, e);
    }
    assert multiset(s1) == multiset(s2);
    var p1 := Plan(m, o1, w);
    assert forall x :: x in p1 <==> x in s1 by {
      forall x ensures x in p1 <==> x in s1 {
        assert x in p1 <==> x in multiset(p1);
      }
    }
    SortedUnique(p1, Plan(m, o2, w));
  }

  /** Index of the first entry of `es` whose `.iq` file is missing, or
      `|es|` when all are present. */
  function FirstMissing(m: Dir, es: seq<Entry>): (k: nat)
    requires forall e :: e in es ==> e.stem in m
    ensures k <= |es|
    ensures forall i | 0 <= i < k :: m[es[i].stem].samples.Some?
    ensures k < |es| ==> m[es[k].stem].samples.None?
  {
    if es == [] then 0
    else if m[es[0].stem].samples.None? then 0
    else 1 + FirstMissing(m, es[1..])
  }

  /** The `.iq` files of `es`, concatenated in order: the output starts with
      the first entry's file. */
  function Concat(m: Dir, es: seq<Entry>): (r: seq<byte>)
    requires forall i | 0 <= i < |es| :: es[i].stem in m && m[es[i].stem].samples.Some?
    ensures es != [] ==> m[es[0].stem].samples.value <= r
  {
    if es == [] then []
    else
      var init := Concat(m, es[..|es| - 1]);
      var last := m[es[|es| - 1].stem].samples.value;
      assert |es| > 1 ==> es[..|es| - 1][0] == es[0];
      init + last
  }

  /** Writing two runs of entries one after the other gives the two
      concatenations one after the other. */
  lemma {:induction false} ConcatAppend(m: Dir, a: seq<Entry>, b: seq<Entry>)
    requires forall i | 0 <= i < |a| :: a[i].stem in m && m[a[i].stem].samples.Some?
    requires forall i | 0 <= i < |b| :: b[i].stem in m && m[b[i].stem].samples.Some?
    ensures Concat(m, a + b) == Concat(m, a) + Concat(m, b)
  {
    if b == [] {
      assert a + b == a;
    } else {
      var b' := b[..|b| - 1];
      var last := m[b[|b| - 1].stem].samples.value;
      assert (a + b)[..|a + b| - 1] == a + b';
      assert (a + b)[|a + b| - 1] == b[|b| - 1];
      assert Concat(m, a + b) == Concat(m, a + b') + last;
      assert Concat(m, b) == Concat(m, b') + last;
      ConcatAppend(m, a, b');
    }
  }

  /** The capture parameters of a descriptor, when it has both. */
  datatype Params = Params(centerFreqHz: int, sampRateHz: int)

  /** `first_meta["center_freq_hz"]` and `first_meta["samp_rate_hz"]`: both
      keys present, or None. */
  function CaptureParams(m: Dir, s: nat): (p: Option<Params>)
    ensures p.Some? <==>
              s in m && m[s].descriptor.Some? && m[s].descriptor.value.Parsed?
              && m[s].descriptor.value.meta.centerFreqHz.Some?
              && m[s].descriptor.value.meta.sampRateHz.Some?
    ensures p.Some? ==>
              Some(p.value.centerFreqHz) == m[s].descriptor.value.meta.centerFreqHz
              && Some(p.value.sampRateHz) == m[s].descriptor.value.meta.sampRateHz
  {
    if s in m && m[s].descriptor.Some? && m[s].descriptor.value.Parsed? then
      var meta := m[s].descriptor.value.meta;
      if meta.centerFreqHz.Some? && meta.sampRateHz.Some? then
        Some(Params(meta.centerFreqHz.value, meta.sampRateHz.value))
      else None
    else None
  }

  /** The descriptor written to `outfile + ".json"`. */
  datatype SliceDescriptor = SliceDescriptor(
    centerFreqHz: int,
    sampRateHz: int,
    timestampMs: int,
    startRelMs: int,
    durationMs: int)

  /** The output pair: `outfile` and `outfile + ".json"`, None where absent. */
  class SliceFiles {
    var data: Option<seq<byte>>
    var descriptor: Option<SliceDescriptor>

    constructor (data: Option<seq<byte>>, descriptor: Option<SliceDescriptor>)
      ensures this.data == data && this.descriptor == descriptor
    {
      this.data := data;
      this.descriptor := descriptor;
    }

    /** `open(outfile, "wb")`: creates or truncates the output file. */
    method Create()
      modifies this
      ensures data == Some([]) && descriptor == old(descriptor)
    {
      data := Some([]);
    }

    /** `fo.write(...)` on the open output file. */
    method Append(bytes: seq<byte>)
      requires data.Some?
      modifies this
      ensures data == Some(old(data).value + bytes) && descriptor == old(descriptor)
    {
      data := Some(data.value + bytes);
    }

    /** `write_json(Path(str(outfile) + ".json"), ...)`. */
    method WriteDescriptor(d: SliceDescriptor)
      modifies this
      ensures descriptor == Some(d) && data == old(data)
    {
      descriptor := Some(d);
    }
  }

  datatype SliceError =
    | NoChunksInWindow           // exit status 1, nothing written
    | MissingSamples(stem: nat)  // `read_bytes` of the `.iq` file raised
    | MissingParams(stem: nat)   // the earliest descriptor lacks a capture parameter

  datatype Outcome = Written | Failed(error: SliceError)

  /** The first loop of `extract_slice`: enumerate the descriptors in
      `order` and collect the entries that parse and meet the window. */
  method CollectEntries(dir: ChunkDir, order: seq<nat>, w: Window) returns (metas: seq<Entry>)
    requires forall s :: s in order ==> s in dir.chunks
    ensures metas == Selected(dir.chunks, order, w)
  {
    metas := [];
    var i := 0;
    while i < |order|
      invariant 0 <= i <= |order|
      invariant metas == Selected(dir.chunks, order[..i], w)
    {
      assert order[..i + 1][..i] == order[..i];
      var c := Candidate(dir.chunks, order[i], w);
      if c.Some? {
        metas := metas + [c.value];
      }
      i := i + 1;
    }
    assert order[..|order|] == order;
  }

  /** The second loop of `extract_slice`: append the `.iq` file of every
      entry to the open output file, stopping at the first that is missing. */
  method StreamSamples(dir: ChunkDir, es: seq<Entry>, out: SliceFiles) returns (missing: Option<nat>)
    requires forall e :: e in es ==> e.stem in dir.chunks
    requires out.data == Some([])
    modifies out
    ensures var k := FirstMissing(dir.chunks, es);
      && out.data == Some(Concat(dir.chunks, es[..k]))
      && (missing.Some? <==> k < |es|)
      && (k < |es| ==> missing.value == es[k].stem)
    ensures out.descriptor == old(out.descriptor)
  {
    var i := 0;
    while i < |es|
      invariant 0 <= i <= |es|
      invariant i <= FirstMissing(dir.chunks, es)
      invariant out.data == Some(Concat(dir.chunks, es[..i]))
      invariant out.descriptor == old(out.descriptor)
    {
      var s := dir.chunks[es[i].stem].samples;
      if s.None? {
        return Some(es[i].stem);
      }
      assert es[..i + 1][..i] == es[..i];
      out.Append(s.value);
      i := i + 1;
    }
    assert es[..|es|] == es;
    missing := None;
  }

  /** `extract_slice(outdir, start_rel_s, duration_s, outfile)`, with the
      directory enumerated in `order`, the clock read at the start giving
      `nowMs` and the one at the end giving `writtenAtMs`. */
  method ExtractSlice(dir: ChunkDir, order: seq<nat>, nowMs: int, startRelMs: int,
                      durationMs: int, writtenAtMs: int, out: SliceFiles)
    returns (r: Outcome)
    requires Enumerates(dir.chunks, order)
    modifies out
    ensures var es := Plan(dir.chunks, order, Resolve(nowMs, startRelMs, durationMs));
      es == [] ==> r == Failed(NoChunksInWindow) && unchanged(out)
    ensures var es := Plan(dir.chunks, order, Resolve(nowMs, startRelMs, durationMs));
      var k := FirstMissing(dir.chunks, es);
      es != [] ==>
        && out.data == Some(Concat(dir.chunks, es[..k]))
        && (k < |es| ==> r == Failed(MissingSamples(es[k].stem)))
        && (k == |es| && CaptureParams(dir.chunks, es[0].stem).None? ==>
              r == Failed(MissingParams(es[0].stem)))
        && (k == |es| && CaptureParams(dir.chunks, es[0].stem).Some? ==>
              var p := CaptureParams(dir.chunks, es[0].stem).value;
              r == Written
              && out.descriptor == Some(SliceDescriptor(p.centerFreqHz, p.sampRateHz,
                                                        writtenAtMs, startRelMs, durationMs)))
    ensures r != Written ==> out.descriptor == old(out.descriptor)
  {
    var w := Resolve(nowMs, startRelMs, durationMs);
    var metas := CollectEntries(dir, order, w);
    metas := SortByTime(metas);
    assert forall e :: e in metas ==> e in Selected(dir.chunks, order, w) by {
      forall e ensures e in metas ==> e in Selected(dir.chunks, order, w) {
        assert e in metas <==> e in multiset(metas);
      }
    }
    if metas == [] {
      return Failed(NoChunksInWindow);
    }
    out.Create();
    var missing := StreamSamples(dir, metas, out);
    if missing.Some? {
      return Failed(MissingSamples(missing.value));
    }
    var first := CaptureParams(dir.chunks, metas[0].stem);
    if first.None? {
      return Failed(MissingParams(metas[0].stem));
    }
    out.WriteDescriptor(SliceDescriptor(first.value.centerFreqHz, first.value.sampRateHz,
                                        writtenAtMs, startRelMs, durationMs));
    r := Written;
  }

  /** A chunk of 5 s starting at `t` seconds, as capture writes it. */
  function FiveSecondChunk(t: nat): Chunk
  {
    Chunk(Some(Parsed(Meta(Some(100000000), Some(2400000), Some(t * 1000), Some(5000)))), Some([]))
  }

  /** Chunks starting at 0, 5, 10 and 15 s, 5 s each, against the window from
      3 s to 12 s: the first three are selected and the last is not. */
  lemma OverlapExample()
    ensures var m := map[0 := FiveSecondChunk(0), 5000 := FiveSecondChunk(5),
                         10000 := FiveSecondChunk(10), 15000 := FiveSecondChunk(15)];
      Selected(m, [0, 5000, 10000, 15000], Window(3000, 12000))
        == [Entry(0, 5000, 0), Entry(5000, 5000, 5000), Entry(10000, 5000, 10000)]
  {
    var m := map[0 := FiveSecondChunk(0), 5000 := FiveSecondChunk(5),
                 10000 := FiveSecondChunk(10), 15000 := FiveSecondChunk(15)];
    var o := [0, 5000, 10000, 15000];
    assert o[..3] == [0, 5000, 10000];
    assert o[..3][..2] == [0, 5000];
    assert o[..3][..2][..1] == [0];
  }

  /** The test is inclusive: a chunk that ends exactly where the window
      starts is selected although no part of it lies inside the window. */
  lemma TouchingChunkSelected()
    ensures Selected(map[0 := FiveSecondChunk(0)], [0], Window(5000, 8000))
         == [Entry(0, 5000, 0)]
  {
    assert [0][..0] == [];
  }
}
