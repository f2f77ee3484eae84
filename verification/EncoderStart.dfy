/** Starting a paired video and audio encoder at one time, and cutting the audio into
    encoder frames (libobs/obs-encoder.c). Times are nanoseconds; all planes are handled
    alike, so one plane of samples is modelled. */
module EncoderStart {
  import opened AudioTicks
  import opened Basics
  import opened Seqs

  type Sample = real

  datatype AudioFrame = AudioFrame(pts: nat, samples: seq<Sample>)

  /** calc_offset_size, in samples. */
  function OffsetSamples(rate: pos, vStart: nat, aStart: nat): nat
    requires aStart <= vStart
  {
    NsToFrames(rate, vStart - aStart)
  }

  /** Sample m of a clock that started at t0 is the one playing when the video starts, give
      or take the nanosecond a chunk's own timestamp is rounded by. */
  predicate InSync(rate: pos, t0: nat, m: nat, vStart: nat) {
    (t0 * rate + m * Second) - rate < vStart * rate < (t0 * rate + m * Second) + Second
  }

  /** Counting from a chunk's timestamp, the first sample kept starts at most one sample
      period before the video does, and not after it. */
  lemma OffsetIsSharp(rate: pos, vStart: nat, aStart: nat)
    requires aStart <= vStart
    ensures 0 <= (vStart - aStart) * rate - OffsetSamples(rate, vStart, aStart) * Second < Second
  {
    FloorBounds((vStart - aStart) * rate, Second);
  }

  lemma InsideArithmetic(rate: pos, offset: int, k: int, x: int, y: int, m: int, n: int)
    requires k * Second <= offset * rate && m * Second < x * rate + rate && y * rate <= (m + n) * Second
    requires offset + 1 <= y - x
    ensures k < n
  {
    Distribute(y, -x, rate);
    Distribute(offset, 1, rate);
    Distribute(offset + 1, y - x - (offset + 1), rate);
    MulSign(offset + 1 - (y - x), rate);
  }

  /** A video start that lies before the end of n samples falls on one of them: the n from
      sample m of the clock on, whose times are rounded at both ends. */
  lemma OffsetFallsInside(rate: pos, vStart: nat, aStart: nat, m: nat, n: nat)
    requires aStart <= vStart < aStart + FramesToNs(rate, m + n) - FramesToNs(rate, m)
    ensures OffsetSamples(rate, vStart, aStart) < n
  {
    FloorBounds((vStart - aStart) * rate, Second);
    FloorBounds(m * Second, rate);
    FloorBounds((m + n) * Second, rate);
    InsideArithmetic(rate, vStart - aStart, OffsetSamples(rate, vStart, aStart), FramesToNs(rate, m),
                     FramesToNs(rate, m + n), m, n);
  }

  /** Starting at a chunk, or a buffer, that begins with sample n of the clock. */
  lemma SyncFromChunk(rate: pos, t0: nat, n: nat, vStart: nat)
    requires t0 + FramesToNs(rate, n) <= vStart
    ensures InSync(rate, t0, n + OffsetSamples(rate, vStart, t0 + FramesToNs(rate, n)), vStart)
  {
    var ts := t0 + FramesToNs(rate, n);
    var k := OffsetSamples(rate, vStart, ts);
    OffsetIsSharp(rate, vStart, ts);
    FloorBounds(n * Second, rate);
    assert (vStart - ts) * rate == vStart * rate - t0 * rate - FramesToNs(rate, n) * rate;
    assert (n + k) * Second == n * Second + k * Second;
  }

  function Join(frames: seq<AudioFrame>): seq<Sample> {
    if frames == [] then [] else Join(frames[..|frames| - 1]) + frames[|frames| - 1].samples
  }

  /** A video encoder and the audio encoder it is paired with. */
  class EncoderPair {
    const rate: pos
    const frameSize: pos
    // the video encoder
    var videoStart: nat
    var videoPackets: bool
    var videoPts: nat
    // the audio encoder
    var firstReceived: bool
    var firstRawTs: nat
    var audioStart: nat
    var buffer: seq<Sample>
    var curPts: nat
    /** The frames the encoder took. */
    var encoded: seq<AudioFrame>
    /** Every sample received, where the retained ones begin, and whether an encode failed. */
    ghost var stream: seq<Sample>
    ghost var from: nat
    ghost var failed: bool
    /** When the audio clock started, and the number of the first sample received. */
    ghost const clock: nat
    ghost var firstSample: nat

    /** The time the audio thread gives the next chunk. */
    ghost function NextTime(): nat
      reads this
    {
      clock + FramesToNs(rate, firstSample + |stream|)
    }

    ghost predicate Valid()
      reads this
    {
      && (!firstReceived ==> stream == [] && audioStart == 0 && videoStart == 0)
      && (firstReceived ==> firstRawTs == clock + FramesToNs(rate, firstSample))
      && (videoStart != 0 ==> firstReceived && firstRawTs <= videoStart)
      && (videoPackets ==> videoStart != 0)
      && (audioStart == 0 ==> encoded == [] && !failed && (firstReceived ==> buffer == stream) && from == 0)
      && (audioStart != 0 ==> audioStart == videoStart && from < |stream|
                              && InSync(rate, clock, firstSample + from, videoStart))
      && from <= |stream|
      && (!failed ==> Join(encoded) + buffer == stream[from..])
      && curPts == |encoded| * frameSize
      && forall i :: 0 <= i < |encoded| ==> |encoded[i].samples| == frameSize && encoded[i].pts == i * frameSize
    }

    constructor (rate: pos, frameSize: pos, ghost clock: nat)
      ensures Valid() && this.rate == rate && this.frameSize == frameSize && this.clock == clock
      ensures stream == [] && !failed && !firstReceived
    {
      this.rate, this.frameSize, this.clock, firstSample := rate, frameSize, clock, 0;
      videoStart, videoPackets, videoPts := 0, false, 0;
      firstReceived, firstRawTs, audioStart, buffer, curPts, encoded := false, 0, 0, [], 0, [];
      stream, from, failed := [], 0, false;
    }

    /** receive_video, not paused: video waits for the first audio. `ok` and `packet` say
        whether the encoder took the frame and gave a packet. */
    method ReceiveVideo(timestamp: nat, step: nat, ok: bool, packet: bool)
      requires Valid() && timestamp > 0
      modifies this`videoStart, this`videoPackets, this`videoPts
      ensures Valid()
      ensures if !old(videoPackets) && (!firstReceived || timestamp < firstRawTs) then unchanged(this)
              else && videoStart == (if old(videoStart) == 0 then timestamp else old(videoStart))
                   && videoPts == old(videoPts) + (if ok then step else 0)
                   && videoPackets == (old(videoPackets) || (ok && packet))
    {
      if !videoPackets {
        if !firstReceived || firstRawTs > timestamp {
          return;
        }
      }
      if videoStart == 0 {
        videoStart := timestamp;
      }
      if ok {
        videoPts := videoPts + step;
        videoPackets := videoPackets || packet;
      }
    }

    /** start_from_buffer: drop what was buffered from before the video start. */
    method StartFromBuffer()
      requires Valid() && firstReceived && audioStart == 0 && videoStart != 0
      requires videoStart < NextTime()
      modifies this`audioStart, this`buffer, this`from
      ensures Valid() && audioStart == videoStart && |buffer| <= old(|buffer|)
    {
      var offset := 0;
      if firstRawTs < videoStart {
        offset := OffsetSamples(rate, videoStart, firstRawTs);
      }
      OffsetFallsInside(rate, videoStart, firstRawTs, firstSample, |stream|);
      SyncFromChunk(rate, clock, firstSample, videoStart);
      audioStart := videoStart;
      from := offset;
      buffer := if offset < |buffer| then buffer[offset..] else [];
    }

    /** What buffer_audio does when the video starts inside the current chunk. */
    method StartFromChunk(timestamp: nat, data: seq<Sample>)
      requires Valid() && firstReceived && audioStart == 0 && videoStart != 0
      requires timestamp == NextTime()
      requires timestamp <= videoStart < timestamp + FramesToNs(rate, |data|)
      modifies this`audioStart, this`buffer, this`stream, this`from
      ensures Valid() && audioStart == videoStart && stream == old(stream) + data && |buffer| <= |data|
    {
      var offset := 0;
      if timestamp < videoStart {
        offset := OffsetSamples(rate, videoStart, timestamp);
      }
      assert FramesToNs(rate, 0) == 0;
      OffsetFallsInside(rate, videoStart, timestamp, 0, |data|);
      SyncFromChunk(rate, clock, firstSample + |stream|, videoStart);
      audioStart := videoStart;
      from := |stream| + offset;
      stream := stream + data;
      buffer := data[offset..];
    }

    method PushBackAudio(data: seq<Sample>)
      requires Valid() && firstReceived
      modifies this`buffer, this`stream
      ensures Valid() && stream == old(stream) + data && buffer == old(buffer) + data
    {
      Assoc(Join(encoded), buffer, data);
      assert stream[from..] + data == (stream + data)[from..];
      buffer := buffer + data;
      stream := stream + data;
    }

    /** buffer_audio */
    method BufferAudio(timestamp: nat, data: seq<Sample>) returns (success: bool)
      requires Valid() && firstReceived && timestamp == NextTime()
      modifies this`audioStart, this`buffer, this`stream, this`from
      ensures Valid() && stream == old(stream) + data
      ensures success <==> audioStart != 0
      ensures old(audioStart) == 0 ==>
                (success <==> videoStart != 0 && videoStart < timestamp + FramesToNs(rate, |data|))
      ensures old(audioStart) != 0 ==> from == old(from) && audioStart == old(audioStart)
      ensures success ==> |buffer| <= old(|buffer|) + |data|
    {
      if audioStart == 0 {
        var end := timestamp + FramesToNs(rate, |data|);
        if videoStart == 0 || end <= videoStart {
          PushBackAudio(data);
          return false;
        }
        if timestamp <= videoStart {
          StartFromChunk(timestamp, data);
          return true;
        }
        StartFromBuffer();
      }
      PushBackAudio(data);
      success := true;
    }

    /** send_audio_data; `ok` says whether the encoder took the frame. */
    method SendAudioData(ok: bool) returns (success: bool)
      requires Valid() && audioStart != 0 && |buffer| >= frameSize
      modifies this`buffer, this`curPts, this`encoded, this`failed
      ensures Valid() && success == ok && buffer == old(buffer)[frameSize..] && failed == (old(failed) || !ok)
      ensures encoded == if ok then old(encoded) + [AudioFrame(old(curPts), old(buffer)[..frameSize])] else old(encoded)
    {
      var frame := AudioFrame(curPts, buffer[..frameSize]);
      ghost var was := buffer;
      buffer := buffer[frameSize..];
      if !ok {
        failed := true;
        return false;
      }
      Assoc(Join(encoded), frame.samples, buffer);
      assert was == frame.samples + buffer;
      assert (encoded + [frame])[..|encoded|] == encoded;
      encoded := encoded + [frame];
      curPts := curPts + frameSize;
      success := true;
    }

    /** receive_audio, not paused. Chunks follow on one another by the audio clock, the first
        one from its sample n on. The encoder takes `budget` frames and then fails. */
    method ReceiveAudio(timestamp: nat, data: seq<Sample>, budget: nat, ghost n: nat)
      requires Valid()
      requires timestamp == if firstReceived then NextTime() else clock + FramesToNs(rate, n)
      modifies this
      ensures Valid() && stream == old(stream) + data && firstReceived && videoStart == old(videoStart)
      ensures if old(firstReceived) then firstRawTs == old(firstRawTs) && firstSample == old(firstSample)
              else firstRawTs == timestamp && firstSample == n
      ensures old(audioStart) != 0 ==> from == old(from)
      ensures audioStart != 0 && !failed ==> |buffer| < frameSize
      ensures old(|buffer|) + |data| <= budget ==> failed == old(failed)
    {
      if !firstReceived {
        FirstAudio(timestamp, n);
      }
      var started := BufferAudio(timestamp, data);
      if started {
        EncodeBuffered(budget);
      }
    }

    method FirstAudio(timestamp: nat, ghost n: nat)
      requires Valid() && !firstReceived && timestamp == clock + FramesToNs(rate, n)
      modifies this`firstRawTs, this`firstReceived, this`buffer, this`firstSample
      ensures Valid() && firstReceived && firstRawTs == timestamp && buffer == [] && firstSample == n
      ensures timestamp == NextTime()
    {
      firstRawTs := timestamp;
      firstReceived := true;
      buffer := [];
      firstSample := n;
    }

    /** The encode loop of receive_audio. */
    method EncodeBuffered(budget: nat)
      requires Valid() && audioStart != 0
      modifies this`buffer, this`curPts, this`encoded, this`failed
      ensures Valid() && (failed == old(failed) ==> failed || |buffer| < frameSize)
      ensures |old(buffer)| <= budget ==> failed == old(failed)
      ensures old(failed) ==> failed
    {
      var left := budget;
      while |buffer| >= frameSize
        invariant Valid() && (old(|buffer|) <= budget ==> |buffer| <= left)
        invariant failed == old(failed)
        decreases |buffer|
      {
        var ok := SendAudioData(left > 0);
        if !ok {
          break;
        }
        left := left - 1;
      }
    }
  }
}
