# Spatial audio decoder and acoustic mesh conversion, in Dafny

This project models two sequential parts of `src/source.rs` of bevy-steam-audio,
a plugin that renders spatialised (binaural) audio for the Bevy engine.

- **`SteamDecoder` as a sample iterator** (`decoder.dfy`, module `Decoder`).
  The decoder serves one sample per pull. It holds the left and right blocks of
  the last processed output frame and a read cursor: an offset plus a flag
  saying which channel comes next. Samples go out left, right, left, right, ….
  The offset advances only after a right-channel sample. When the cursor has
  left the block, the decoder resets the offset to 0 and loads the next frame.
  If no frame is left it answers `None`.
  - `Pull` is the reference definition of one pull, on a `DecoderState` value.
  - The class `SteamDecoder` keeps the same fields and updates them in place.
    Its `Next` method is proved to do exactly what `Pull` does.
  - The frames come from an *upstream*: a sequence of already-processed block
    pairs. Each successful refill takes the first pair. An empty upstream
    stands for the audio file being used up.
  - Samples have an arbitrary element type: the decoder only copies them.
- **`TryFrom<Mesh> for AudioMesh`** (`audio_mesh.dfy`, module `AudioMeshes`).
  This turns a render mesh into an acoustic mesh. U16 or U32 indices are
  widened to 32 bits and grouped by the mesh's primitive topology:
  - a triangle list takes consecutive triples;
  - a triangle strip takes overlapping windows of three, with the first two
    corners of every odd triangle swapped;
  - any other topology is a typed error.

  The positions must be in the three-float layout. Every triangle gets material
  index 0, the single generic material. `Convert` is the reference definition.
  `TryFrom` follows the source more closely: it fixes the strip's winding in
  place on an array (`RewindInPlace`) and is proved equal to `Convert`.

`wrappers.dfy` holds the `Option` and `Result` types.

Behaviour kept as the code has it:
- **A pull after `None` replays the last frame.** The refill resets the offset
  before trying to load a frame. On failure the old blocks stay. So the next
  pull starts serving the old left block again (`ReplayAfterEnd`).
  End of stream is therefore not a final state.
- **Each frame gives `2 n` output samples.** A frame carries `n` samples per
  channel, so `2 n` pulls consume exactly one upstream frame
  (`RefillThenBlock`, `SingleFrameStream`).
- **Empty frames are skipped.** If the upstream yields a frame with an empty
  left block, the refill loop goes straight on to the next frame.
  `blocksPlayed` still counts every loaded frame.

## Model

| member | source | states |
|---|---|---|
| `Decoder.Pull` | src/source.rs:97-148 | one pull keeps the cursor invariant: offset within the left block, strictly inside it while a right sample is pending, right block at least as long as the left; a `None` leaves offset 0 and no upstream |
| `Decoder.Pulls` | src/source.rs:97-148 | a run of `k` pulls gives exactly `k` answers and keeps the cursor invariant |
| `Decoder.Interleaved` | src/source.rs:100-113 | the interleaving of a block pair is twice as long as the left block |
| `Decoder.InterleavedAt` | src/source.rs:100-113 | position `2k` of the interleaving holds left sample `k` and position `2k+1` holds right sample `k` |
| `Decoder.PullWithinBlock` | src/source.rs:100-113 | a pull inside the left block returns the next sample of the interleaving and flips the channel; the offset grows by one only after a right sample; blocks, frame count and upstream are unchanged |
| `Decoder.PullsWithinBlock` | src/source.rs:100-113 | while the block pair lasts, `k` pulls return the next `k` samples of its interleaving in order; the emitted count `2·offset + (channel ? 0 : 1)` grows by `k`; only the cursor changes |
| `Decoder.RefillThenBlock` | src/source.rs:100-146 | after the cursor leaves the block, a successful refill with `n > 0` samples per block makes the next `2n` pulls return `l[0], r[0], …, l[n-1], r[n-1]`; afterwards the channel is left, the offset is `n`, the new blocks are current, one more frame has been played and one frame was taken from upstream |
| `Decoder.PullNone` | src/source.rs:100-146 | a pull returns `None` exactly when the cursor has left the block and every remaining frame is empty; then the offset is 0, the upstream is used up and the frame count grew by the frames loaded; with no frame left it changes only the offset, keeping the blocks and the count |
| `Decoder.ReplayAfterEnd` | src/source.rs:100-146 | after a `None` caused by a used-up upstream, the next `2n` pulls replay the kept blocks' interleaving |
| `Decoder.SingleFrameStream` | src/source.rs:67-148 | a fresh decoder over a one-frame stream returns that frame's interleaving in `2n` pulls, having played one frame, and the next pull returns `None` |
| `Decoder.SteamDecoder.constructor` | src/source.rs:67-89 | a new decoder starts on the left channel at offset 0, with empty blocks, no frames played and a sample rate of 44100 |
| `Decoder.SteamDecoder.Next` | src/source.rs:97-148 | the in-place pull loop leaves exactly the state and answer that `Pull` gives from the old state; the cursor invariant holds and the sample rate is untouched |
| `Decoder.SteamDecoder.CurrentFrameLen` | src/source.rs:154-156 | the frame length is reported as unknown |
| `Decoder.SteamDecoder.Channels` | src/source.rs:158-160 | the stream always has two channels |
| `Decoder.SteamDecoder.SampleRate` | src/source.rs:162-164 | the reported rate is the stored one, which no pull changes |
| `Decoder.SteamDecoder.TotalDuration` | src/source.rs:166-168 | the total duration is reported as unknown |
| `AudioMeshes.Widened` | src/source.rs:307-312 | widening to 32 bits keeps the number of indices and every index value |
| `AudioMeshes.Triangulate` | src/source.rs:305-337 | no indices give no triangles whatever the topology; with indices, the result is an error exactly when the topology is neither a triangle list nor a strip, and the error names that topology |
| `AudioMeshes.Convert` | src/source.rs:302-359 | success exactly when the triangulation succeeds and the positions are in the three-float layout; a topology error comes before the vertex check; a missing or other-layout position attribute gives `NoVertices`; on success the vertices are the positions in order, the materials are `[GENERIC]` and there is one material index 0 per triangle |
| `AudioMeshes.ListTrianglesShape` | src/source.rs:315-318 | `k` indices give `k / 3` triangles; triangle `j` is indices `3j`, `3j+1`, `3j+2`; leftovers are dropped |
| `AudioMeshes.WindowsShape` | src/source.rs:320-323 | `k` indices give `max(k-2, 0)` windows; window `j` is indices `j`, `j+1`, `j+2` |
| `AudioMeshes.StripTrianglesShape` | src/source.rs:319-331 | a strip of `k` indices gives `max(k-2, 0)` triangles; triangle `j` is `j, j+1, j+2` when `j` is even and `j+1, j, j+2` when `j` is odd |
| `AudioMeshes.ConvertTriangleList` | src/source.rs:305-318 | a triangle-list mesh with positions converts successfully; triangle `j` is made of widened indices `3j`, `3j+1`, `3j+2` |
| `AudioMeshes.ConvertTriangleStrip` | src/source.rs:305-331 | a triangle-strip mesh with positions converts successfully into `max(k-2, 0)` triangles, with the winding alternating every other triangle |
| `AudioMeshes.RewindInPlace` | src/source.rs:325-329 | the in-place loop swaps the first two corners of exactly the odd-position triangles and leaves the others as they were |
| `AudioMeshes.TryFrom` | src/source.rs:302-359 | the conversion with the strip fixed in place on a buffer gives exactly `Convert`'s result, errors included |

## Left out

- `SteamDecoder::new` (src/source.rs:46-90): opening the file, the `rodio` decoder and building the native context, HRTF, simulator and binaural effect are I/O and foreign calls. Only the initial field values are modelled, in the constructor.
- Producing a frame (src/source.rs:118-139): `DeinterleavedFrame::push_source` and `BinauralEffect::apply_to_buffer` are native convolution on floats. They are replaced by the upstream sequence of processed block pairs. A `.unwrap()` panic of the effect is not modelled.
- The direction read under the mutex (src/source.rs:133): it only feeds a parameter of the binaural effect and is not modelled.
- Decoder.SteamDecoder.Next: the offset and `blocksPlayed` are unbounded naturals. The source's `u32` fields, the `len() as u32` cast and a `blocks_played` overflow after 2^32 frames are not modelled.
- Samples (`f32`), vertex positions (`Vec3`) and the generic material's absorption, scattering and transmission coefficients are opaque values. Only their order and count are modelled.
- `AudioMeshes.PrimitiveTopology` lists the five topologies. The mesh's other attributes (normals, UVs and the rest) are not represented, because the conversion never reads them. Position layouts other than `Float32x3` are folded into `OtherLayout`.
- `Decodable for SteamAudio` (src/source.rs:171-179), `SpatialAudioPlugin::build` (src/source.rs:195-218), the commented-out update systems and `listener_update` (src/source.rs:265-287): plugin wiring and copies of float transforms into the native simulator.
- examples/basic.rs and src/lib.rs: scene setup, input handling and re-exports.
