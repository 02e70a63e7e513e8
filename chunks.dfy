/** The capture directory of SDR-Rewind: pairs of files `<stem>.iq` (raw
    samples) and `<stem>.json` (the chunk descriptor), where the stem is the
    chunk's start time in integer milliseconds since the epoch. All stems are
    taken to have the same number of digits, so that sorting file names
    sorts stems numerically. */
module Chunks {

  datatype Option<+T> = None | Some(value: T)

  /** One octet of a raw sample file. */
  newtype byte = b: int | 0 <= b < 256

  /** The descriptor fields the store reads. Times and durations are integer
      milliseconds. `centerFreqHz` and `sampRateHz` are copied, never
      converted: None means the key is absent, and a present value is the
      integer capture writes there. `timestampMs` is None when the key is
      absent or the value is not an ISO-8601 time with a zone. `durationMs`
      is None when the key is present but `float` does not convert its value
      (a numeric string such as "5" converts); an absent `duration_s` reads
      as Some(0), the default both readers pass to `get`. */
  datatype Meta = Meta(
    centerFreqHz: Option<int>,
    sampRateHz: Option<int>,
    timestampMs: Option<int>,
    durationMs: Option<int>)

  /** The contents of a `.json` file: Garbled when the text is not a JSON
      object, or cannot be read. */
  datatype Descriptor = Garbled | Parsed(meta: Meta)

  /** The two files of one stem; None where a file does not exist. */
  datatype Chunk = Chunk(descriptor: Option<Descriptor>, samples: Option<seq<byte>>)

  /** The directory, by stem. */
  type Dir = map<nat, Chunk>

  /** A stem with neither file is not in the map. */
  predicate WellFormed(m: Dir)
  {
    forall s :: s in m ==> m[s].descriptor.Some? || m[s].samples.Some?
  }

  /** The stems that have a `.json` file: what `glob("*.json")` finds. */
  function DescriptorStems(m: Dir): set<nat>
  {
    set s | s in m && m[s].descriptor.Some?
  }

  predicate StrictlyIncreasing(xs: seq<nat>)
  {
    forall i, j | 0 <= i < j < |xs| :: xs[i] < xs[j]
  }

  ghost predicate IsNewest(x: nat, s: set<nat>)
  {
    x in s && forall y :: y in s ==> y <= x
  }

  lemma {:induction false} NewestExists(s: set<nat>)
    requires s != {}
    ensures exists x :: IsNewest(x, s)
  {
    var y :| y in s;
    if s == {y} {
      assert IsNewest(y, s);
    } else {
      NewestExists(s - {y});
      var x :| IsNewest(x, s - {y});
      assert forall z :: z in s ==> z == y || z in s - {y};
      if x < y {
        assert IsNewest(y, s);
      } else {
        assert IsNewest(x, s);
      }
    }
  }

  /** The stems of `s` in ascending order: the order in which `sorted`
      returns their file names. */
  ghost function Ascending(s: set<nat>): (xs: seq<nat>)
    ensures StrictlyIncreasing(xs)
    ensures forall x :: x in xs <==> x in s
  {
    if s == {} then []
    else
      NewestExists(s);
      var x :| IsNewest(x, s);
      var rest := Ascending(s - {x});
      assert forall i | 0 <= i < |rest| :: rest[i] in s - {x};
      rest + [x]
  }

  lemma TailElements(xs: seq<nat>, x: nat)
    requires StrictlyIncreasing(xs) && xs != []
    ensures x in xs[1..] <==> x in xs && x != xs[0]
  {
    if x in xs && x != xs[0] {
      var k :| 0 <= k < |xs| && xs[k] == x;
      assert xs[1..][k - 1] == x;
    }
  }

  lemma SameElementsBothEmpty(xs: seq<nat>, ys: seq<nat>)
    requires forall x :: x in xs <==> x in ys
    ensures xs == [] <==> ys == []
  {
    if ys != [] {
      assert ys[0] in ys;
    }
    if xs != [] {
      assert xs[0] in xs;
    }
  }

  /** A strictly increasing listing is determined by its elements. */
  lemma {:induction false} IncreasingUnique(xs: seq<nat>, ys: seq<nat>)
    requires StrictlyIncreasing(xs) && StrictlyIncreasing(ys)
    requires forall x :: x in xs <==> x in ys
    ensures xs == ys
  {
    SameElementsBothEmpty(xs, ys);
    if xs != [] {
      assert xs[0] in ys;
      var k :| 0 <= k < |ys| && ys[k] == xs[0];
      assert ys[0] in xs;
      var i :| 0 <= i < |xs| && xs[i] == ys[0];
      assert xs[0] == ys[0];
      forall x ensures x in xs[1..] <==> x in ys[1..] {
        TailElements(xs, x);
        TailElements(ys, x);
      }
      IncreasingUnique(xs[1..], ys[1..]);
      assert xs == [xs[0]] + xs[1..];
      assert ys == [ys[0]] + ys[1..];
    }
  }

  /** `iq.tofile`: creates or overwrites `<stem>.iq`. */
  function WithSamples(m: Dir, stem: nat, data: seq<byte>): (r: Dir)
    ensures WellFormed(m) ==> WellFormed(r)
    ensures stem in r && r[stem].samples == Some(data)
  {
    m[stem := Chunk(if stem in m then m[stem].descriptor else None, Some(data))]
  }

  /** `write_json`: creates or overwrites `<stem>.json`. */
  function WithDescriptor(m: Dir, stem: nat, d: Descriptor): (r: Dir)
    ensures WellFormed(m) ==> WellFormed(r)
    ensures stem in r && r[stem].descriptor == Some(d)
  {
    m[stem := Chunk(Some(d), if stem in m then m[stem].samples else None)]
  }

  /** `unlink` of `<stem>.json`, with a missing file ignored. */
  function WithoutDescriptor(m: Dir, stem: nat): (r: Dir)
    ensures WellFormed(m) ==> WellFormed(r)
    ensures stem !in r || r[stem].descriptor.None?
  {
    if stem !in m then m
    else if m[stem].samples.None? then m - {stem}
    else m[stem := Chunk(None, m[stem].samples)]
  }

  /** `unlink` of `<stem>.iq`, with a missing file ignored. */
  function WithoutSamples(m: Dir, stem: nat): (r: Dir)
    ensures WellFormed(m) ==> WellFormed(r)
    ensures stem !in r || r[stem].samples.None?
  {
    if stem !in m then m
    else if m[stem].descriptor.None? then m - {stem}
    else m[stem := Chunk(m[stem].descriptor, None)]
  }

  /** Unlinking both files of a stem removes the chunk and nothing else,
      whichever of the two files existed. */
  lemma UnlinkPair(m: Dir, stem: nat)
    ensures WithoutSamples(WithoutDescriptor(m, stem), stem) == m - {stem}
  {
    if stem in m && m[stem].samples.Some? {
      var m1 := WithoutDescriptor(m, stem);
      assert m1 - {stem} == m - {stem};
    }
  }

  /** The capture directory on disk. */
  class ChunkDir {
    var chunks: Dir

    constructor (initial: Dir)
      requires WellFormed(initial)
      ensures chunks == initial
    {
      chunks := initial;
    }

    /** `sorted(outdir.glob("*.json"))`, as stems. */
    method SortedDescriptorStems() returns (files: seq<nat>)
      ensures files == Ascending(DescriptorStems(chunks))
    {
      ghost var all := DescriptorStems(chunks);
      var remaining := set s | s in chunks && chunks[s].descriptor.Some?;
      files := [];
      while remaining != {}
        invariant remaining <= all
        invariant forall x :: x in files <==> x in all && x !in remaining
        invariant StrictlyIncreasing(files)
        invariant forall x, i :: x in remaining && 0 <= i < |files| ==> x < files[i]
        decreases remaining
      {
        NewestExists(remaining);
        var x :| x in remaining && forall y :: y in remaining ==> y <= x;
        files := [x] + files;
        remaining := remaining - {x};
      }
      IncreasingUnique(files, Ascending(all));
    }

    method WriteSamples(stem: nat, data: seq<byte>)
      modifies this
      ensures chunks == WithSamples(old(chunks), stem, data)
      ensures WellFormed(old(chunks)) ==> WellFormed(chunks)
    {
      chunks := WithSamples(chunks, stem, data);
    }

    method WriteDescriptor(stem: nat, meta: Meta)
      modifies this
      ensures chunks == WithDescriptor(old(chunks), stem, Parsed(meta))
      ensures WellFormed(old(chunks)) ==> WellFormed(chunks)
    {
      chunks := WithDescriptor(chunks, stem, Parsed(meta));
    }

    method UnlinkDescriptor(stem: nat)
      modifies this
      ensures chunks == WithoutDescriptor(old(chunks), stem)
      ensures WellFormed(old(chunks)) ==> WellFormed(chunks)
    {
      chunks := WithoutDescriptor(chunks, stem);
    }

    method UnlinkSamples(stem: nat)
      modifies this
      ensures chunks == WithoutSamples(old(chunks), stem)
      ensures WellFormed(old(chunks)) ==> WellFormed(chunks)
    {
      chunks := WithoutSamples(chunks, stem);
    }
  }
}
