/** The retention pruner (`prune_seconds`): list the descriptors in file-name
    order, walk them newest-first adding up their durations, keep every chunk
    visited up to and including the one that brings the total to the buffer
    length, and delete both files of every chunk not kept. */
module Retention {
  import opened Chunks

  function Sum(ds: seq<int>): int
  {
    if ds == [] then 0 else ds[0] + Sum(ds[1..])
  }

  predicate NonNegative(ds: seq<int>)
  {
    forall i | 0 <= i < |ds| :: ds[i] >= 0
  }

  /** The duration, in milliseconds, the pruner reads from a chunk: its
      descriptor's `duration_s`, or 0 when the descriptor is garbled or
      `float` does not convert the value. Whether the `.iq` file exists plays no part. */
  function PruneDuration(c: Chunk): (d: int)
    ensures c.descriptor.Some? && c.descriptor.value.Parsed?
            && c.descriptor.value.meta.durationMs.Some? ==>
              d == c.descriptor.value.meta.durationMs.value
    ensures c.descriptor == Some(Garbled) ==> d == 0
    ensures c.descriptor.Some? && c.descriptor.value.Parsed?
            && c.descriptor.value.meta.durationMs.None? ==>
              d == 0
  {
    match c.descriptor
    case Some(Parsed(meta)) => if meta.durationMs.Some? then meta.durationMs.value else 0
    case _ => 0
  }

  /** The durations of the chunks listed in `files`, in that order. */
  function Durations(m: Dir, files: seq<nat>): (ds: seq<int>)
    requires forall s :: s in files ==> s in m
    ensures |ds| == |files|
  {
    seq(|files|, i requires 0 <= i < |files| => PruneDuration(m[files[i]]))
  }

  /** The walk from index `i` down, over the ascending listing `ds`, when the
      suffixes after `i` have all stayed below `need`: the index of the oldest
      chunk kept. */
  function CutFrom(ds: seq<int>, need: int, i: nat): (lo: nat)
    requires i < |ds|
    requires forall j | i < j < |ds| :: Sum(ds[j..]) < need
    ensures lo <= i
    ensures forall j | lo < j < |ds| :: Sum(ds[j..]) < need
    ensures lo > 0 ==> Sum(ds[lo..]) >= need
    decreases i
  {
    if i == 0 || Sum(ds[i..]) >= need then i else CutFrom(ds, need, i - 1)
  }

  /** Index, in the ascending listing of durations `ds`, of the oldest chunk
      the pruner keeps: it keeps the newest chunk, and every older one until
      the running total of the kept ones reaches `need`. */
  function Cut(ds: seq<int>, need: int): (lo: nat)
    ensures lo <= |ds|
    ensures ds != [] ==> lo < |ds|
    ensures forall j | lo < j < |ds| :: Sum(ds[j..]) < need
    ensures lo > 0 ==> Sum(ds[lo..]) >= need
  {
    if ds == [] then 0 else CutFrom(ds, need, |ds| - 1)
  }

  /** The three facts Cut promises determine it. */
  lemma CutUnique(ds: seq<int>, need: int, lo: nat)
    requires lo <= |ds| && (ds != [] ==> lo < |ds|)
    requires forall j | lo < j < |ds| :: Sum(ds[j..]) < need
    requires lo > 0 ==> Sum(ds[lo..]) >= need
    ensures lo == Cut(ds, need)
  {
  }

  /** Nothing is deleted exactly when no shorter newest-first run of chunks
      reaches `need`. */
  lemma NothingDeletedIff(ds: seq<int>, need: int)
    ensures Cut(ds, need) == 0 <==> forall j | 0 < j < |ds| :: Sum(ds[j..]) < need
  {
    var c := Cut(ds, need);
    if c > 0 {
      assert Sum(ds[c..]) >= need;
    }
  }

  lemma {:induction false} SuffixSumAtMost(ds: seq<int>, j: nat)
    requires NonNegative(ds) && j <= |ds|
    ensures Sum(ds[j..]) <= Sum(ds)
  {
    if j > 0 {
      assert NonNegative(ds[1..]);
      SuffixSumAtMost(ds[1..], j - 1);
      assert ds[1..][j - 1..] == ds[j..];
    }
  }

  /** With no negative durations: if the whole history is shorter than the
      buffer nothing is deleted, and otherwise the kept chunks cover it. */
  lemma RetentionCovers(ds: seq<int>, need: int)
    requires NonNegative(ds)
    ensures Sum(ds) < need ==> Cut(ds, need) == 0
    ensures Sum(ds) >= need ==> Sum(ds[Cut(ds, need)..]) >= need
  {
    var c := Cut(ds, need);
    if c > 0 {
      SuffixSumAtMost(ds, c);
    } else {
      assert ds[0..] == ds;
    }
  }

  /** For a positive buffer, the kept chunks without the oldest of them fall
      short of it: retention exceeds the buffer by less than that one chunk. */
  lemma RetentionOvershoot(ds: seq<int>, need: int)
    requires ds != [] && need > 0
    ensures Sum(ds[Cut(ds, need) + 1..]) < need
    ensures Sum(ds[Cut(ds, need)..]) < need + ds[Cut(ds, need)]
  {
    var c := Cut(ds, need);
    assert ds[c..][1..] == ds[c + 1..];
  }

  /** What survives a prune holds its own cut at 0. */
  lemma CutOfKept(ds: seq<int>, need: int)
    ensures Cut(ds[Cut(ds, need)..], need) == 0
  {
    var c := Cut(ds, need);
    var ks := ds[c..];
    forall j | 0 < j < |ks|
      ensures Sum(ks[j..]) < need
    {
      SuffixOfSuffix(ds, c, j);
    }
    NothingDeletedIff(ks, need);
  }

  lemma SuffixOfSuffix(ds: seq<int>, c: nat, j: nat)
    requires c + j <= |ds|
    ensures ds[c..][j..] == ds[c + j..]
  {
  }

  /** The descriptor stems in the order `sorted` lists their files. */
  ghost function Files(m: Dir): (files: seq<nat>)
    ensures StrictlyIncreasing(files)
    ensures forall s :: s in files <==> s in DescriptorStems(m)
  {
    Ascending(DescriptorStems(m))
  }

  /** Index in Files(m) of the oldest chunk a prune with buffer `need` keeps. */
  ghost function KeepIndex(m: Dir, need: int): nat
  {
    Cut(Durations(m, Files(m)), need)
  }

  /** The stems a prune deletes. */
  ghost function Doomed(m: Dir, need: int): (doomed: set<nat>)
    ensures doomed <= DescriptorStems(m)
  {
    var files := Files(m);
    set s | s in files[..Cut(Durations(m, files), need)]
  }

  /** The directory after a prune with a buffer of `need` milliseconds. Every
      chunk left is as it was, and a stem with no descriptor (an orphaned
      `.iq`) is never removed. */
  ghost function Pruned(m: Dir, need: int): (r: Dir)
    ensures forall s :: s in r ==> s in m && r[s] == m[s]
    ensures forall s :: s in m && m[s].descriptor.None? ==> s in r
  {
    m - Doomed(m, need)
  }

  /** A prune never leaves a stem with neither file. */
  lemma PrunedWellFormed(m: Dir, need: int)
    requires WellFormed(m)
    ensures WellFormed(Pruned(m, need))
  {
  }

  /** A prune deletes exactly the chunks older than the oldest one kept, and
      both of their files. */
  lemma PruneRemovesOlder(m: Dir, need: int, s: nat)
    requires s in DescriptorStems(m)
    ensures s in Pruned(m, need) <==> s in Files(m)[KeepIndex(m, need)..]
  {
    var files := Files(m);
    var c := KeepIndex(m, need);
    var k :| 0 <= k < |files| && files[k] == s;
    if k < c {
      assert s in files[..c];
      assert forall i | c <= i < |files| :: files[i] != s;
    } else {
      assert s in files[c..];
      assert forall i | 0 <= i < c :: files[i] != s;
    }
  }

  /** The newest chunk always survives a prune, so a directory that held a
      descriptor still holds one afterwards, whatever the buffer. */
  lemma PruneKeepsNewest(m: Dir, need: int, top: nat)
    requires IsNewest(top, DescriptorStems(m))
    ensures top in Pruned(m, need) && Pruned(m, need)[top] == m[top]
    ensures DescriptorStems(Pruned(m, need)) != {}
  {
    var files := Files(m);
    var c := KeepIndex(m, need);
    var n := |files|;
    assert files[n - 1] in DescriptorStems(m);
    var k :| 0 <= k < n && files[k] == top;
    assert k == n - 1;
    assert top in files[c..];
    PruneRemovesOlder(m, need, top);
    assert top in DescriptorStems(Pruned(m, need));
  }

  /** After a prune the listing is the kept part of the old listing, and
      the kept chunks carry the same durations. */
  lemma PrunedListing(m: Dir, need: int)
    ensures Files(Pruned(m, need)) == Files(m)[KeepIndex(m, need)..]
  {
    var p := Pruned(m, need);
    var files := Files(m);
    var kept := files[KeepIndex(m, need)..];
    forall s ensures s in kept <==> s in DescriptorStems(p) {
      if s in DescriptorStems(m) {
        PruneRemovesOlder(m, need, s);
      }
    }
    IncreasingUnique(kept, Files(p));
  }

  lemma PrunedFiles(m: Dir, need: int)
    ensures Files(Pruned(m, need)) == Files(m)[KeepIndex(m, need)..]
    ensures Durations(Pruned(m, need), Files(Pruned(m, need)))
         == Durations(m, Files(m))[KeepIndex(m, need)..]
  {
    PrunedListing(m, need);
    var p := Pruned(m, need);
    var files := Files(m);
    var c := KeepIndex(m, need);
    var kept := files[c..];
    assert forall s :: s in kept ==> s in p && p[s] == m[s];
    DurationsAgree(p, m, kept);
    DurationsSuffix(m, files, c);
  }

  /** Two directories that agree on the listed stems give the same
      durations. */
  lemma DurationsAgree(m1: Dir, m2: Dir, files: seq<nat>)
    requires forall s :: s in files ==> s in m1 && s in m2 && m1[s] == m2[s]
    ensures Durations(m1, files) == Durations(m2, files)
  {
  }

  lemma DurationsSuffix(m: Dir, files: seq<nat>, c: nat)
    requires forall s :: s in files ==> s in m
    requires c <= |files|
    ensures Durations(m, files)[c..] == Durations(m, files[c..])
  {
  }

  /** Pruning twice with no new chunk in between deletes nothing the second
      time. */
  lemma PruneIdempotent(m: Dir, need: int)
    ensures Pruned(Pruned(m, need), need) == Pruned(m, need)
  {
    var p := Pruned(m, need);
    PrunedFiles(m, need);
    CutOfKept(Durations(m, Files(m)), need);
    assert Doomed(p, need) == {};
  }

  /** Total duration of the chunks that have a descriptor. */
  ghost function Retained(m: Dir): int
  {
    Sum(Durations(m, Files(m)))
  }

  /** Every descriptor in `m` carries a duration between `lo` and `hi`. */
  ghost predicate DurationsWithin(m: Dir, lo: int, hi: int)
  {
    forall s :: s in DescriptorStems(m) ==> lo <= PruneDuration(m[s]) <= hi
  }

  lemma ListedDurationsWithin(m: Dir, lo: int, hi: int, i: nat)
    requires DurationsWithin(m, lo, hi)
    requires i < |Files(m)|
    ensures lo <= Durations(m, Files(m))[i] <= hi
  {
    assert Files(m)[i] in DescriptorStems(m);
  }

  lemma ListedNonNegative(m: Dir, d: int)
    requires DurationsWithin(m, 0, d)
    ensures NonNegative(Durations(m, Files(m)))
  {
    var ds := Durations(m, Files(m));
    forall i | 0 <= i < |ds| ensures ds[i] >= 0 {
      ListedDurationsWithin(m, 0, d, i);
    }
  }

  /** With chunks of non-negative duration, a prune of a directory holding
      less than the buffer deletes nothing. */
  lemma RetentionBelowBuffer(m: Dir, need: int)
    requires NonNegative(Durations(m, Files(m)))
    requires Retained(m) < need
    ensures Pruned(m, need) == m
  {
    RetentionCovers(Durations(m, Files(m)), need);
    assert Doomed(m, need) == {};
  }

  /** Whatever the durations, a prune of a directory holding at least the
      buffer keeps at least the buffer: either nothing is deleted, or the
      kept run is the one that reached it. */
  lemma RetentionCoversBuffer(m: Dir, need: int)
    requires Retained(m) >= need
    ensures Retained(Pruned(m, need)) >= need
  {
    var ds := Durations(m, Files(m));
    if Cut(ds, need) == 0 {
      assert ds[0..] == ds;
    }
    PrunedFiles(m, need);
  }

  /** With chunks of at most `d` milliseconds and a positive buffer, a prune
      keeps less than the buffer plus one chunk. */
  lemma RetentionBound(m: Dir, need: int, lo: int, d: int)
    requires DurationsWithin(m, lo, d)
    requires need > 0 && DescriptorStems(m) != {}
    ensures Retained(Pruned(m, need)) < need + d
  {
    var ds := Durations(m, Files(m));
    var s :| s in DescriptorStems(m);
    assert s in Files(m);
    RetentionOvershoot(ds, need);
    ListedDurationsWithin(m, lo, d, Cut(ds, need));
    PrunedFiles(m, need);
  }

  /** The retention window, for chunks of at most `d` milliseconds each and
      a buffer of `need`: if less than the buffer is on disk nothing is
      deleted; otherwise at least the buffer is kept; and (for a positive
      buffer) less than the buffer plus one chunk is kept. */
  lemma RetentionWindow(m: Dir, need: int, d: int)
    requires DurationsWithin(m, 0, d)
    ensures Retained(m) < need ==> Pruned(m, need) == m
    ensures Retained(m) >= need ==> Retained(Pruned(m, need)) >= need
    ensures need > 0 && DescriptorStems(m) != {} ==> Retained(Pruned(m, need)) < need + d
  {
    ListedNonNegative(m, d);
    if Retained(m) < need {
      RetentionBelowBuffer(m, need);
    } else {
      RetentionCoversBuffer(m, need);
    }
    if need > 0 && DescriptorStems(m) != {} {
      RetentionBound(m, need, 0, d);
    }
  }

  lemma SumStep(ds: seq<int>, i: nat)
    requires i < |ds|
    ensures Sum(ds[i..]) == ds[i] + Sum(ds[i + 1..])
  {
    assert ds[i..][1..] == ds[i + 1..];
  }

  lemma KeptStep(files: seq<nat>, kept: seq<nat>, i: nat)
    requires i < |files|
    requires forall s :: s in kept <==> s in files[i + 1..]
    ensures forall s :: s in kept + [files[i]] <==> s in files[i..]
  {
    assert files[i..] == [files[i]] + files[i + 1..];
  }

  /** The first loop of `prune_seconds`: walk `files` newest-first, keep
      each chunk visited, and stop once the kept durations reach `need`. */
  method KeepNewest(dir: ChunkDir, files: seq<nat>, need: int) returns (kept: seq<nat>)
    requires forall s :: s in files ==> s in dir.chunks
    ensures forall s :: s in kept <==> s in files[Cut(Durations(dir.chunks, files), need)..]
  {
    ghost var ds := Durations(dir.chunks, files);
    var total := 0;
    kept := [];
    var i := |files|;
    while i > 0
      invariant 0 <= i <= |files|
      invariant forall s :: s in kept <==> s in files[i..]
      invariant total == Sum(ds[i..])
      invariant forall j | i <= j < |ds| :: Sum(ds[j..]) < need
    {
      i := i - 1;
      var dur := PruneDuration(dir.chunks[files[i]]);
      assert dur == ds[i];
      SumStep(ds, i);
      KeptStep(files, kept, i);
      total := total + dur;
      kept := kept + [files[i]];
      if total >= need {
        break;
      }
    }
    CutUnique(ds, need, i);
  }

  /** The second loop of `prune_seconds`: unlink both files of every listed
      chunk not kept. */
  method DeleteUnkept(dir: ChunkDir, files: seq<nat>, keep: set<nat>)
    modifies dir
    ensures dir.chunks == old(dir.chunks) - (set s | s in files && s !in keep)
  {
    ghost var m := dir.chunks;
    var j := 0;
    while j < |files|
      invariant 0 <= j <= |files|
      invariant dir.chunks == m - (set s | s in files[..j] && s !in keep)
    {
      var stem := files[j];
      ghost var before := set s | s in files[..j] && s !in keep;
      assert files[..j + 1] == files[..j] + [stem];
      if stem !in keep {
        dir.UnlinkDescriptor(stem);
        dir.UnlinkSamples(stem);
        UnlinkPair(m - before, stem);
        assert (set s | s in files[..j + 1] && s !in keep) == before + {stem};
        assert (m - before) - {stem} == m - (before + {stem});
      } else {
        assert (set s | s in files[..j + 1] && s !in keep) == before;
      }
      j := j + 1;
    }
    assert files[..|files|] == files;
  }

  /** In a strictly increasing listing, what is not in the suffix from `i`
      is exactly what is before `i`. */
  lemma NotKeptIsOlder(files: seq<nat>, i: nat, keep: set<nat>)
    requires StrictlyIncreasing(files) && i <= |files|
    requires forall s :: s in keep <==> s in files[i..]
    ensures (set s | s in files && s !in keep) == (set s | s in files[..i])
  {
    forall s | s in files
      ensures s !in keep <==> s in files[..i]
    {
      var k :| 0 <= k < |files| && files[k] == s;
      if k < i {
        assert forall t | i <= t < |files| :: files[t] != s;
      } else {
        assert s in files[i..];
        assert forall t | 0 <= t < i :: files[t] != s;
      }
    }
  }

  /** `prune_seconds(outdir, buffer_sec)`. */
  method PruneSeconds(dir: ChunkDir, bufferSec: int)
    modifies dir
    ensures dir.chunks == Pruned(old(dir.chunks), bufferSec * 1000)
    ensures WellFormed(old(dir.chunks)) ==> WellFormed(dir.chunks)
  {
    ghost var m := dir.chunks;
    var need := bufferSec * 1000;
    var files := dir.SortedDescriptorStems();
    var kept := KeepNewest(dir, files, need);
    var keep := set s | s in kept;
    DoomedAreUnkept(m, files, need, keep);
    DeleteUnkept(dir, files, keep);
    if WellFormed(m) {
      PrunedWellFormed(m, need);
    }
  }

  lemma DoomedAreUnkept(m: Dir, files: seq<nat>, need: int, keep: set<nat>)
    requires files == Files(m)
    requires forall s :: s in keep <==> s in files[Cut(Durations(m, files), need)..]
    ensures m - (set s | s in files && s !in keep) == Pruned(m, need)
  {
    var c := Cut(Durations(m, files), need);
    NotKeptIsOlder(files, c, keep);
    DoomedBeforeCut(m, files, need, c);
    var unkept := set s | s in files && s !in keep;
    assert unkept == Doomed(m, need);
    PrunedIs(m, need, unkept);
  }

  lemma PrunedIs(m: Dir, need: int, doomed: set<nat>)
    requires doomed == Doomed(m, need)
    ensures m - doomed == Pruned(m, need)
  {
  }

  lemma DoomedBeforeCut(m: Dir, files: seq<nat>, need: int, c: nat)
    requires files == Files(m) && c == Cut(Durations(m, files), need)
    ensures Doomed(m, need) == (set s | s in files[..c])
  {
  }
}
