/**
 * The pull-based stereo decoder of src/source.rs (`SteamDecoder` as an
 * `Iterator` and as a playback `Source`).
 *
 * The decoder hands out one sample per pull. It keeps the two channel blocks
 * of the last processed frame and a read cursor (an offset into the blocks and
 * a flag saying which channel comes next). Samples go out left, right, left,
 * right, ...; the offset advances after each right-channel sample. When the
 * blocks are used up it resets the offset and loads the next frame; if there
 * is none it answers `None`.
 *
 * Producing a frame (reading the audio file, the binaural convolution) is not
 * modelled: the upstream is a sequence of already-processed block pairs, and a
 * sample is a value of an arbitrary type, which the decoder only copies.
 */
module Decoder {
  import opened Wrappers

  /** The sample rate a new decoder reports (the constructor fixes it). */
  const SAMPLE_RATE: nat := 44100

  /** The number of interleaved output channels. */
  const CHANNELS: nat := 2

  /** One processed output frame: the left-channel and right-channel blocks. */
  datatype BlockPair<S> = BlockPair(left: seq<S>, right: seq<S>)

  /** A right block at least as long as the left one: reading it at every left offset stays in bounds. */
  predicate PairFits<S>(p: BlockPair<S>)
  {
    |p.right| >= |p.left|
  }

  /**
   * The decoder's state: the read cursor (`offset`, and `channel`, true when
   * the next sample comes from the left block), the two current blocks, the
   * number of frames loaded so far, and the frames still to come.
   */
  datatype DecoderState<S> = DecoderState(
    offset: nat,
    channel: bool,
    block1: seq<S>,
    block2: seq<S>,
    blocksPlayed: nat,
    upstream: seq<BlockPair<S>>)

  /**
   * What every reachable state satisfies: the cursor never passes the left
   * block, it sits strictly inside it while a right sample is pending, and
   * every block pair (current and to come) fits.
   */
  predicate Coherent<S>(st: DecoderState<S>)
  {
    |st.block2| >= |st.block1| &&
    st.offset <= |st.block1| &&
    (!st.channel ==> st.offset < |st.block1|) &&
    forall i | 0 <= i < |st.upstream| :: PairFits(st.upstream[i])
  }

  /** The state of a decoder that has not been pulled yet. */
  function Initial<S>(upstream: seq<BlockPair<S>>): DecoderState<S>
  {
    DecoderState(0, true, [], [], 0, upstream)
  }

  /** How many samples of the current block pair have gone out. */
  function Emitted<S>(st: DecoderState<S>): nat
  {
    2 * st.offset + (if st.channel then 0 else 1)
  }

  /** The interleaving `l[0], r[0], l[1], r[1], ...` of a block pair: twice as long as the left block. */
  function Interleaved<S>(l: seq<S>, r: seq<S>): (s: seq<S>)
    requires |r| >= |l|
    ensures |s| == 2 * |l|
  {
    if l == [] then [] else [l[0], r[0]] + Interleaved(l[1..], r[1..])
  }

  /** Every element of a sequence wrapped in `Some`: what a run of successful pulls returns. */
  function Somes<S>(s: seq<S>): seq<Option<S>>
  {
    seq(|s|, i requires 0 <= i < |s| => Some(s[i]))
  }

  /**
   * One pull. Inside the left block it emits the next sample, alternating
   * between the blocks. Otherwise it resets the offset and loads the next
   * block pair; with none left it answers `None`, keeping the old blocks.
   */
  function Pull<S>(st: DecoderState<S>): (r: (DecoderState<S>, Option<S>))
    requires Coherent(st)
    ensures Coherent(r.0)
    ensures r.1.None? ==> r.0.offset == 0 && r.0.upstream == []
    decreases |st.upstream|
  {
    if st.offset < |st.block1| then
      if st.channel then
        (st.(channel := false), Some(st.block1[st.offset]))
      else
        (st.(offset := st.offset + 1, channel := true), Some(st.block2[st.offset]))
    else if |st.upstream| == 0 then
      (st.(offset := 0), None)
    else
      var p := st.upstream[0];
      Pull(st.(offset := 0, block1 := p.left, block2 := p.right,
               blocksPlayed := st.blocksPlayed + 1, upstream := st.upstream[1..]))
  }

  /** `k` pulls in a row: the state after them and what each returned. */
  function Pulls<S>(st: DecoderState<S>, k: nat): (r: (DecoderState<S>, seq<Option<S>>))
    requires Coherent(st)
    ensures Coherent(r.0) && |r.1| == k
    decreases k
  {
    if k == 0 then (st, [])
    else
      var step := Pull(st);
      var rest := Pulls(step.0, k - 1);
      (rest.0, [step.1] + rest.1)
  }

  /** The even places of the interleaving hold the left block and its odd places the right block. */
  lemma {:induction false} InterleavedAt<S>(l: seq<S>, r: seq<S>, k: nat)
    requires |r| >= |l| && k < |l|
    ensures Interleaved(l, r)[2 * k] == l[k] && Interleaved(l, r)[2 * k + 1] == r[k]
  {
    if k > 0 {
      InterleavedAt(l[1..], r[1..], k - 1);
    }
  }

  /**
   * A pull inside the left block emits the next sample of the interleaving,
   * flips the channel, advances the offset only after a right sample, and
   * leaves the blocks, the frame count and the upstream alone.
   */
  lemma PullWithinBlock<S>(st: DecoderState<S>)
    requires Coherent(st) && st.offset < |st.block1|
    ensures Emitted(st) < 2 * |st.block1| == |Interleaved(st.block1, st.block2)|
    ensures Pull(st).1 == Some(Interleaved(st.block1, st.block2)[Emitted(st)])
    ensures Pull(st).0.channel == !st.channel
    ensures Pull(st).0.offset == st.offset + (if st.channel then 0 else 1)
    ensures Emitted(Pull(st).0) == Emitted(st) + 1
    ensures Pull(st).0 == st.(offset := Pull(st).0.offset, channel := !st.channel)
  {
    InterleavedAt(st.block1, st.block2, st.offset);
  }

  /**
   * While the current block pair lasts, `k` pulls emit the next `k` samples
   * of its interleaving and change nothing but the cursor.
   */
  lemma {:induction false} PullsWithinBlock<S>(st: DecoderState<S>, k: nat)
    requires Coherent(st) && Emitted(st) + k <= 2 * |st.block1|
    ensures Emitted(st) + k <= |Interleaved(st.block1, st.block2)|
    ensures Pulls(st, k).1 == Somes(Interleaved(st.block1, st.block2)[Emitted(st)..Emitted(st) + k])
    ensures Emitted(Pulls(st, k).0) == Emitted(st) + k
    ensures Pulls(st, k).0 == st.(offset := Pulls(st, k).0.offset, channel := Pulls(st, k).0.channel)
    decreases k
  {
    if k > 0 {
      var all := Interleaved(st.block1, st.block2);
      var e := Emitted(st);
      PullWithinBlock(st);
      var next := Pull(st).0;
      PullsWithinBlock(next, k - 1);
      assert Somes(all[e..e + k]) == [Some(all[e])] + Somes(all[e + 1..e + k]);
    }
  }

  /** Two states whose next pull agrees agree on every non-empty run of pulls. */
  lemma SamePullSamePulls<S>(a: DecoderState<S>, b: DecoderState<S>, k: nat)
    requires Coherent(a) && Coherent(b) && Pull(a) == Pull(b) && k > 0
    ensures Pulls(a, k) == Pulls(b, k)
  {
  }

  /**
   * After a successful refill with a pair of `n > 0` samples per block, the
   * next `2 n` pulls return `l[0], r[0], ..., l[n-1], r[n-1]`; afterwards the
   * cursor is back on the left channel at offset `n`, the new blocks are
   * current and exactly one more frame has been played.
   */
  lemma RefillThenBlock<S>(st: DecoderState<S>)
    requires Coherent(st) && st.offset >= |st.block1|
    requires st.upstream != [] && |st.upstream[0].left| > 0
    ensures PairFits(st.upstream[0])
    ensures var p := st.upstream[0];
      Pulls(st, 2 * |p.left|) ==
        (DecoderState(|p.left|, true, p.left, p.right, st.blocksPlayed + 1, st.upstream[1..]),
         Somes(Interleaved(p.left, p.right)))
  {
    var p := st.upstream[0];
    var n := |p.left|;
    var loaded := st.(offset := 0, block1 := p.left, block2 := p.right,
                      blocksPlayed := st.blocksPlayed + 1, upstream := st.upstream[1..]);
    assert PairFits(p);
    assert Pull(st) == Pull(loaded);
    SamePullSamePulls(st, loaded, 2 * n);
    PullsWithinBlock(loaded, 2 * n);
    var after := Pulls(loaded, 2 * n).0;
    assert Emitted(after) == 2 * n;
    assert after.offset == n && after.channel;
    assert Interleaved(p.left, p.right)[0..2 * n] == Interleaved(p.left, p.right);
  }

  /**
   * A pull answers `None` exactly when the cursor has left the block and every
   * frame still to come is empty. Then the offset is 0, the upstream is used
   * up and the frame count has grown by the number of (empty) frames loaded;
   * when there was no frame left at all, the old blocks and count are kept.
   */
  lemma {:induction false} PullNone<S>(st: DecoderState<S>)
    requires Coherent(st)
    ensures Pull(st).1.None? <==>
      st.offset >= |st.block1| && forall i | 0 <= i < |st.upstream| :: st.upstream[i].left == []
    ensures Pull(st).1.None? ==>
      Pull(st).0.offset == 0 && Pull(st).0.upstream == [] &&
      Pull(st).0.blocksPlayed == st.blocksPlayed + |st.upstream|
    ensures Pull(st).1.None? && st.upstream == [] ==>
      Pull(st).0 == st.(offset := 0)
    decreases |st.upstream|
  {
    if st.offset >= |st.block1| && st.upstream != [] {
      var p := st.upstream[0];
      var loaded := st.(offset := 0, block1 := p.left, block2 := p.right,
                        blocksPlayed := st.blocksPlayed + 1, upstream := st.upstream[1..]);
      assert PairFits(p);
      PullNone(loaded);
      assert st.upstream == [p] + loaded.upstream;
    }
  }

  /**
   * End of stream is not final: once a pull has answered `None` for lack of
   * frames, the kept blocks are served again from the start on the next pulls.
   */
  lemma ReplayAfterEnd<S>(st: DecoderState<S>)
    requires Coherent(st) && st.offset >= |st.block1| && st.upstream == []
    ensures Pull(st).1 == None
    ensures Pulls(Pull(st).0, 2 * |st.block1|).1 == Somes(Interleaved(st.block1, st.block2))
  {
    var after := Pull(st).0;
    assert after == st.(offset := 0);
    PullsWithinBlock(after, 2 * |st.block1|);
    assert Interleaved(st.block1, st.block2)[0..2 * |st.block1|] == Interleaved(st.block1, st.block2);
  }

  /**
   * A stream of exactly one frame: a fresh decoder returns that frame's `2 n`
   * interleaved samples, having loaded one frame, and the pull after them
   * answers `None`.
   */
  lemma SingleFrameStream<S>(p: BlockPair<S>)
    requires PairFits(p) && |p.left| > 0
    ensures Pulls(Initial([p]), 2 * |p.left|).1 == Somes(Interleaved(p.left, p.right))
    ensures Pulls(Initial([p]), 2 * |p.left|).0.blocksPlayed == 1
    ensures Pull(Pulls(Initial([p]), 2 * |p.left|).0).1 == None
  {
    RefillThenBlock(Initial([p]));
  }

  /** The decoder object: the fields of `SteamDecoder` that the pull logic reads and writes. */
  class SteamDecoder<S> {
    var sampleRate: nat
    var currentChannel: bool
    var currentBlockOffset: nat
    var currentBlock1: seq<S>
    var currentBlock2: seq<S>
    var blocksPlayed: nat
    /** The frames the audio file and the effect chain will still produce. */
    var upstream: seq<BlockPair<S>>

    /** The fields as a `State` value. */
    ghost function State(): DecoderState<S>
      reads this
    {
      DecoderState(currentBlockOffset, currentChannel, currentBlock1, currentBlock2,
                    blocksPlayed, upstream)
    }

    ghost predicate Valid()
      reads this
    {
      Coherent(State())
    }

    /** A decoder over the given frames: left channel first, offset 0, no blocks, nothing played. */
    constructor (upstream: seq<BlockPair<S>>)
      requires forall i | 0 <= i < |upstream| :: PairFits(upstream[i])
      ensures Valid() && State() == Initial(upstream)
      ensures sampleRate == SAMPLE_RATE
    {
      this.sampleRate := SAMPLE_RATE;
      this.currentChannel := true;
      this.currentBlockOffset := 0;
      this.currentBlock1 := [];
      this.currentBlock2 := [];
      this.blocksPlayed := 0;
      this.upstream := upstream;
    }

    /** `Iterator::next`: one pull, as `Pull` describes it; the sample rate is untouched. */
    method Next() returns (sample: Option<S>)
      requires Valid()
      modifies this
      ensures Valid()
      ensures (State(), sample) == Pull(old(State()))
      ensures sampleRate == old(sampleRate)
    {
      while currentBlockOffset >= |currentBlock1|
        invariant Valid()
        invariant Pull(State()) == Pull(old(State()))
        invariant sampleRate == old(sampleRate)
        decreases |upstream|
      {
        // The cursor has left the block: reset the offset and take the next pair
        currentBlockOffset := 0;
        if |upstream| == 0 {
          return None;
        }
        var pair := upstream[0];
        upstream := upstream[1..];
        currentBlock1 := pair.left;
        currentBlock2 := pair.right;
        blocksPlayed := blocksPlayed + 1;
      }
      if currentChannel {
        sample := Some(currentBlock1[currentBlockOffset]);
      } else {
        sample := Some(currentBlock2[currentBlockOffset]);
        currentBlockOffset := currentBlockOffset + 1;
      }
      currentChannel := !currentChannel;
    }

    /** `Source::current_frame_len`: the stream has no fixed frame length to report. */
    function CurrentFrameLen(): (len: Option<nat>)
      ensures len.None?
    {
      None
    }

    /** `Source::channels`: always stereo. */
    function Channels(): (n: nat)
      ensures n == CHANNELS
    {
      CHANNELS
    }

    /** `Source::sample_rate`: the rate stored at creation. */
    function SampleRate(): (rate: nat)
      reads this
      ensures rate == sampleRate
    {
      sampleRate
    }

    /** `Source::total_duration`: the stream is open-ended. */
    function TotalDuration(): (d: Option<nat>)
      ensures d.None?
    {
      None
    }
  }
}
