/** The capture loop (`capture_loop`): each iteration reads one chunk of
    samples from the device, writes `<t0 ms>.iq` and then `<t0 ms>.json`,
    and prunes the directory. The device, the clock and the stop signal are
    outside the model: each iteration's readings arrive as a Frame, and the
    loop runs over the frames read before the stop signal is seen. */
module Capture {
  import opened Chunks
  import opened Retention

  /** The `gain` argument: the word "auto", or any other text together with
      what `float` makes of it (None when it does not convert). */
  datatype GainInput = AutoWord | Text(number: Option<real>)

  datatype Gain = AutoGain | Manual(db: real)

  /** The gain set on the device: automatic for "auto" and for text that is
      not a number, the number otherwise. */
  function DeviceGain(g: GainInput): (r: Gain)
    ensures r == AutoGain <==> g == AutoWord || g.number == None
    ensures g.Text? && g.number.Some? ==> r == Manual(g.number.value)
  {
    match g
    case AutoWord => AutoGain
    case Text(n) => if n.Some? then Manual(n.value) else AutoGain
  }

  /** The session arguments. Frequencies and rates are already truncated to
      integers, as the descriptor stores them. */
  datatype Config = Config(
    driver: string,
    libraryPresent: bool,
    freqHz: int,
    sampRateHz: int,
    gain: GainInput,
    bufferSec: int,
    chunkSec: int)

  /** One iteration's readings: `t0` in milliseconds (taken before the device
      read, it names the chunk), the time written to `timestamp_utc` (taken
      after the read), and the samples read. */
  datatype Frame = Frame(t0Ms: nat, stampMs: int, samples: seq<byte>)

  /** The descriptor capture writes for a frame. */
  function ChunkMeta(cfg: Config, f: Frame): (meta: Meta)
    ensures meta.timestampMs == Some(f.stampMs)
    ensures meta.durationMs == Some(cfg.chunkSec * 1000)
  {
    Meta(Some(cfg.freqHz), Some(cfg.sampRateHz), Some(f.stampMs), Some(cfg.chunkSec * 1000))
  }

  /** The directory once both files of a frame are written: the `.iq` file
      first, then the `.json` file. */
  function Written(m: Dir, cfg: Config, f: Frame): (r: Dir)
    ensures r == m[f.t0Ms := Chunk(Some(Parsed(ChunkMeta(cfg, f))), Some(f.samples))]
  {
    WithDescriptor(WithSamples(m, f.t0Ms, f.samples), f.t0Ms, Parsed(ChunkMeta(cfg, f)))
  }

  /** The directory after one iteration: every chunk left is the new one or
      an old one as it was, and an `.iq` file without a descriptor that the
      iteration did not overwrite is still there. */
  ghost function CaptureStep(m: Dir, cfg: Config, f: Frame): (r: Dir)
    ensures forall s :: s in r && s != f.t0Ms ==> s in m && r[s] == m[s]
    ensures forall s :: s in m && s != f.t0Ms && m[s].descriptor.None? ==> s in r && r[s] == m[s]
  {
    Pruned(Written(m, cfg, f), cfg.bufferSec * 1000)
  }

  /** The names of the chunks a session's frames write. */
  function FrameStems(frames: seq<Frame>): set<nat>
  {
    set f | f in frames :: f.t0Ms
  }

  /** The directory after one iteration per frame: every chunk left that no
      frame wrote is an old one as it was, and an `.iq` file without a
      descriptor that no frame overwrote is still there. */
  ghost function CaptureAll(m: Dir, cfg: Config, frames: seq<Frame>): (r: Dir)
    ensures forall s :: s in r && s !in FrameStems(frames) ==> s in m && r[s] == m[s]
    ensures forall s :: s in m && s !in FrameStems(frames) && m[s].descriptor.None? ==>
              s in r && r[s] == m[s]
  {
    if frames == [] then m
    else
      var init := frames[..|frames| - 1];
      var last := frames[|frames| - 1];
      assert forall f :: f in frames <==> f in init || f == last;
      assert FrameStems(frames) == FrameStems(init) + {last.t0Ms};
      CaptureStep(CaptureAll(m, cfg, init), cfg, last)
  }

  /** Every descriptor has its `.iq` file beside it. */
  ghost predicate Paired(m: Dir)
  {
    forall s :: s in m && m[s].descriptor.Some? ==> m[s].samples.Some?
  }

  /** Writing the data before the descriptor, and pruning whole pairs, keeps
      every descriptor paired with its data. */
  lemma CaptureKeepsPairs(m: Dir, cfg: Config, f: Frame)
    requires Paired(m)
    ensures Paired(CaptureStep(m, cfg, f))
  {
    var w := Written(m, cfg, f);
    assert Paired(w);
  }

  /** A chunk named later than every chunk on disk survives the prune that
      follows it, with both its files as written. */
  lemma NewChunkSurvives(m: Dir, cfg: Config, f: Frame)
    requires forall s :: s in DescriptorStems(m) ==> s < f.t0Ms
    ensures f.t0Ms in CaptureStep(m, cfg, f)
    ensures CaptureStep(m, cfg, f)[f.t0Ms]
         == Chunk(Some(Parsed(ChunkMeta(cfg, f))), Some(f.samples))
  {
    var w := Written(m, cfg, f);
    assert forall s :: s in DescriptorStems(w) ==> s in DescriptorStems(m) || s == f.t0Ms;
    assert IsNewest(f.t0Ms, DescriptorStems(w));
    PruneKeepsNewest(w, cfg.bufferSec * 1000, f.t0Ms);
  }

  /** When every duration on disk lies between 0 and the configured chunk
      length, one iteration keeps it so; it deletes nothing while less than
      the buffer has been written, keeps at least the buffer once it has,
      and, for a positive buffer, leaves on disk less than the buffer plus
      one chunk. */
  lemma CaptureRetention(m: Dir, cfg: Config, f: Frame)
    requires cfg.chunkSec >= 0
    requires DurationsWithin(m, 0, cfg.chunkSec * 1000)
    ensures DurationsWithin(CaptureStep(m, cfg, f), 0, cfg.chunkSec * 1000)
    ensures Retained(Written(m, cfg, f)) < cfg.bufferSec * 1000 ==>
              CaptureStep(m, cfg, f) == Written(m, cfg, f)
    ensures Retained(Written(m, cfg, f)) >= cfg.bufferSec * 1000 ==>
              Retained(CaptureStep(m, cfg, f)) >= cfg.bufferSec * 1000
    ensures cfg.bufferSec > 0 ==>
              Retained(CaptureStep(m, cfg, f)) < (cfg.bufferSec + cfg.chunkSec) * 1000
  {
    var w := Written(m, cfg, f);
    var d := cfg.chunkSec * 1000;
    assert DurationsWithin(w, 0, d) by {
      forall s | s in DescriptorStems(w) ensures 0 <= PruneDuration(w[s]) <= d {
        if s != f.t0Ms {
          assert s in DescriptorStems(m);
        }
      }
    }
    assert f.t0Ms in DescriptorStems(w);
    RetentionWindow(w, cfg.bufferSec * 1000, d);
  }

  /** Over a whole session that starts with every duration on disk between 0
      and the configured chunk length, the durations stay so, and after at
      least one iteration with a positive buffer what stays on disk is less
      than the buffer plus one chunk. */
  lemma {:induction false} SessionRetention(m: Dir, cfg: Config, frames: seq<Frame>)
    requires cfg.chunkSec >= 0
    requires DurationsWithin(m, 0, cfg.chunkSec * 1000)
    ensures DurationsWithin(CaptureAll(m, cfg, frames), 0, cfg.chunkSec * 1000)
    ensures frames != [] && cfg.bufferSec > 0 ==>
              Retained(CaptureAll(m, cfg, frames)) < (cfg.bufferSec + cfg.chunkSec) * 1000
  {
    if frames != [] {
      var init := frames[..|frames| - 1];
      SessionRetention(m, cfg, init);
      CaptureRetention(CaptureAll(m, cfg, init), cfg, frames[|frames| - 1]);
    }
  }

  lemma CaptureAllStep(m: Dir, cfg: Config, frames: seq<Frame>, i: nat)
    requires i < |frames|
    ensures CaptureAll(m, cfg, frames[..i + 1])
         == CaptureStep(CaptureAll(m, cfg, frames[..i]), cfg, frames[i])
  {
    assert frames[..i + 1][..i] == frames[..i];
  }

  /** One iteration of the `while running` loop, from the device read to the
      prune (sdrrewind.py lines 70 to 85). */
  method CaptureChunk(dir: ChunkDir, cfg: Config, f: Frame)
    modifies dir
    ensures dir.chunks == CaptureStep(old(dir.chunks), cfg, f)
    ensures WellFormed(old(dir.chunks)) ==> WellFormed(dir.chunks)
  {
    var ts := f.t0Ms;
    dir.WriteSamples(ts, f.samples);
    dir.WriteDescriptor(ts, ChunkMeta(cfg, f));
    PruneSeconds(dir, cfg.bufferSec);
  }

  datatype Exit =
    | UnsupportedDriver      // exit status 2
    | LibraryMissing         // exit status 2
    | Stopped(gain: Gain)    // the stop signal was seen; the device had this gain

  /** `capture_loop`: refuse a driver other than "rtlsdr" or a missing
      device library before touching the directory; otherwise run one
      iteration per frame. */
  method CaptureLoop(dir: ChunkDir, cfg: Config, frames: seq<Frame>) returns (r: Exit)
    modifies dir
    ensures cfg.driver != "rtlsdr" ==> r == UnsupportedDriver && dir.chunks == old(dir.chunks)
    ensures cfg.driver == "rtlsdr" && !cfg.libraryPresent ==>
              r == LibraryMissing && dir.chunks == old(dir.chunks)
    ensures cfg.driver == "rtlsdr" && cfg.libraryPresent ==>
              r == Stopped(DeviceGain(cfg.gain))
              && dir.chunks == CaptureAll(old(dir.chunks), cfg, frames)
    ensures Paired(old(dir.chunks)) ==> Paired(dir.chunks)
    ensures WellFormed(old(dir.chunks)) ==> WellFormed(dir.chunks)
  {
    if cfg.driver != "rtlsdr" {
      return UnsupportedDriver;
    }
    if !cfg.libraryPresent {
      return LibraryMissing;
    }
    var gain := DeviceGain(cfg.gain);
    var i := 0;
    while i < |frames|
      invariant 0 <= i <= |frames|
      invariant dir.chunks == CaptureAll(old(dir.chunks), cfg, frames[..i])
      invariant Paired(old(dir.chunks)) ==> Paired(dir.chunks)
      invariant WellFormed(old(dir.chunks)) ==> WellFormed(dir.chunks)
    {
      CaptureAllStep(old(dir.chunks), cfg, frames, i);
      if Paired(dir.chunks) {
        CaptureKeepsPairs(dir.chunks, cfg, frames[i]);
      }
      CaptureChunk(dir, cfg, frames[i]);
      i := i + 1;
    }
    assert frames[..|frames|] == frames;
    r := Stopped(gain);
  }
}
