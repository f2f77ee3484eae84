/** The interleaver of libobs/obs-output.c with its own loops, over the fields of one output. */
module InterleaveOutput {
  import opened Packets
  import opened InterleaveSpec

  class Output {
    const cfg: Config
    var packets: seq<Packet>
    var receivedVideo: seq<bool>
    var receivedAudio: bool
    var videoOffset: seq<int>
    var audioOffset: seq<int>
    var highestVideo: seq<int>
    var highestAudio: int
    /** What the encoded_packet callback was handed, and what was released unsent. */
    var sent: seq<Packet>
    var dropped: seq<Packet>

    function View(): State
      reads this
    {
      State(packets, receivedVideo, receivedAudio, videoOffset, audioOffset, highestVideo, highestAudio, sent, dropped)
    }

    predicate Valid()
      reads this
    {
      cfg.Valid() && View().Valid(cfg)
    }

    constructor (cfg: Config)
      requires cfg.Valid()
      ensures this.cfg == cfg && View() == Reset && Valid()
    {
      this.cfg := cfg;
      packets, sent, dropped := [], [], [];
      receivedVideo, receivedAudio := [false, false, false, false, false, false], false;
      videoOffset, audioOffset := [0, 0, 0, 0, 0, 0], [0, 0, 0, 0, 0, 0];
      highestVideo, highestAudio := [0, 0, 0, 0, 0, 0], 0;
    }

    method InsertInterleavedPacket(out: Packet)
      requires Valid() && Belongs(cfg, out)
      modifies this`packets
      ensures packets == Insert(old(packets), out) && |packets| == old(|packets|) + 1 && Valid()
    {
      var idx := 0;
      while idx < |packets|
        invariant idx <= |packets|
        invariant forall j :: 0 <= j < idx ==> !StopsAt(out, packets[j])
      {
        var cur := packets[idx];
        if out.dtsUsec == cur.dtsUsec && out.kind.Video? && cur.kind.Video? && out.track > cur.track {
          idx := idx + 1;
          continue;
        }
        if out.dtsUsec == cur.dtsUsec && out.kind.Video? {
          break;
        } else if out.dtsUsec < cur.dtsUsec {
          break;
        }
        idx := idx + 1;
      }
      InsertIdxUnique(packets, out, idx);
      InsertBag(packets, out);
      packets := packets[..idx] + [out] + packets[idx..];
    }

    method ResortInterleavedPackets()
      requires Valid()
      modifies this`packets
      ensures packets == Resort(old(packets)) && |packets| == old(|packets|) && Valid()
    {
      var oldArray := packets;
      packets := [];
      assert oldArray[..0] == [];
      for i := 0 to |oldArray|
        invariant packets == Resort(oldArray[..i]) && |packets| == i && Valid()
      {
        assert oldArray[..i + 1][..i] == oldArray[..i];
        InsertInterleavedPacket(oldArray[i]);
      }
      assert oldArray[..|oldArray|] == oldArray;
    }

    method HasHigherOpposingTs(packet: Packet) returns (b: bool)
      requires Valid()
      ensures b == Gate(cfg, View(), packet)
    {
      var hasHigher := true;
      for i := 0 to MaxVideo
        invariant hasHigher <==> forall k ::
                    0 <= k < i && cfg.video[k] && !(packet.kind.Video? && k == packet.track) ==>
                                               highestVideo[k] > packet.dtsUsec
      {
        if !cfg.video[i] || (packet.kind.Video? && i == packet.track) {
          continue;
        }
        hasHigher := hasHigher && highestVideo[i] > packet.dtsUsec;
      }
      b := if packet.kind.Audio? then hasHigher else hasHigher && highestAudio > packet.dtsUsec;
    }

    method SetHigherTs(packet: Packet)
      requires Valid() && Belongs(cfg, packet)
      modifies this`highestVideo, this`highestAudio
      ensures View() == SetHigher(cfg, old(View()), packet)
    {
      if packet.kind.Video? {
        if highestVideo[packet.track] < packet.dtsUsec {
          highestVideo := highestVideo[packet.track := packet.dtsUsec];
        }
      } else if highestAudio < packet.dtsUsec {
        highestAudio := packet.dtsUsec;
      }
    }

    method SendInterleaved()
      requires Valid() && packets != []
      modifies this`packets, this`sent
      ensures View() == Send(cfg, old(View()))
    {
      var out := packets[0];
      var b := HasHigherOpposingTs(out);
      if !b {
        return;
      }
      packets := packets[1..];
      sent := sent + [out];
    }

    method DiscardToIdx(idx: nat)
      requires Valid() && idx <= |packets|
      modifies this`packets, this`dropped
      ensures View() == Discard(old(View()), idx) && Valid()
    {
      dropped := dropped + packets[..idx];
      packets := packets[idx..];
    }

    method FindFirstPacketTypeIdx(kind: PacketType, track: nat) returns (r: int)
      ensures r == FirstIdx(packets, kind, track)
    {
      for i := 0 to |packets|
        invariant forall j :: 0 <= j < i ==> !Is(packets[j], kind, track)
      {
        if Is(packets[i], kind, track) {
          return i;
        }
      }
      r := -1;
    }

    method FindLastPacketTypeIdx(kind: PacketType, track: nat) returns (r: int)
      ensures r == LastIdx(packets, kind, track)
    {
      for i := |packets| downto 0
        invariant forall j :: i <= j < |packets| ==> !Is(packets[j], kind, track)
      {
        if Is(packets[i], kind, track) {
          return i;
        }
      }
      r := -1;
    }

    method GetInterleavedStartIdx() returns (r: nat)
      requires FirstIdx(packets, Video, 0) >= 0
      ensures r == StartIdx(packets)
    {
      var closestDiff := LargestDiff;
      var firstVideo := FindFirstPacketTypeIdx(Video, 0);
      var t := packets[firstVideo].dtsUsec;
      var idx := 0;
      for i := 0 to |packets|
        invariant idx == ClosestAudio(packets, t, i)
        invariant closestDiff == if idx < i then Distance(packets, t, idx) else LargestDiff
      {
        if packets[i].kind.Audio? {
          var diff := Abs(packets[i].dtsUsec - t);
          if diff < closestDiff {
            closestDiff := diff;
            idx := i;
          }
        }
      }
      r := if firstVideo < idx then firstVideo else idx;
    }

    /** The audio loop of prune_premature_packets. */
    method ScanAudioEncoders(videoIdx: nat, t: int) returns (r: PruneScan)
      requires Valid() && videoIdx < |packets|
      modifies this`receivedAudio
      ensures r == ScanAudio(cfg, packets, t, 0, Scanned(videoIdx, 0, 0, 0))
      ensures receivedAudio == (old(receivedAudio) && r.Scanned?)
    {
      var maxIdx, diff, maxDuration, audioEncoders := videoIdx, 0, 0, 0;
      ghost var goal := ScanAudio(cfg, packets, t, 0, Scanned(videoIdx, 0, 0, 0));
      for i := 0 to |cfg.audio|
        invariant 0 <= maxIdx < |packets| && receivedAudio == old(receivedAudio)
        invariant goal == ScanAudio(cfg, packets, t, i, Scanned(maxIdx, diff, maxDuration, audioEncoders))
      {
        if !cfg.audio[i] {
          continue;
        }
        audioEncoders := audioEncoders + 1;
        var audioIdx := FindFirstPacketTypeIdx(Audio, i);
        if audioIdx == -1 {
          receivedAudio := false;
          return AudioMissing;
        }
        if audioIdx > maxIdx {
          maxIdx := audioIdx;
        }
        diff := packets[audioIdx].dtsUsec - t;
        if cfg.audioDuration[i] > maxDuration {
          maxDuration := cfg.audioDuration[i];
        }
      }
      r := Scanned(maxIdx, diff, maxDuration, audioEncoders);
    }

    method PrunePrematurePackets() returns (r: int)
      requires Valid()
      modifies this`receivedAudio
      ensures (View(), r) == PrunePremature(cfg, old(View()))
    {
      var videoIdx := FindFirstPacketTypeIdx(Video, 0);
      if videoIdx == -1 {
        return -1;
      }
      var video := packets[videoIdx];
      var duration := TruncDiv(video.timebaseNum * 1_000_000, video.timebaseDen);
      var scan := ScanAudioEncoders(videoIdx, video.dtsUsec);
      match scan {
        case AudioMissing =>
          r := -1;
        case Scanned(maxIdx, diff, maxDuration, audioEncoders) =>
          if audioEncoders > 1 && duration < maxDuration {
            duration := maxDuration;
          }
          r := if diff > duration then maxIdx + 1 else 0;
      }
    }

    method PruneInterleavedPackets() returns (ok: bool)
      requires Valid()
      modifies this`packets, this`dropped, this`receivedAudio
      ensures (View(), ok) == Prune(cfg, old(View())) && Valid()
    {
      var startIdx := 0;
      var pruneStart := PrunePrematurePackets();
      if pruneStart == -1 {
        return false;
      } else if pruneStart != 0 {
        startIdx := pruneStart;
      } else {
        startIdx := GetInterleavedStartIdx();
      }
      DiscardToIdx(startIdx);
      ok := true;
    }

    method GetAudioAndVideoPackets() returns (ok: bool)
      requires Valid()
      modifies this`receivedVideo, this`receivedAudio
      ensures (View(), ok) == CheckStreams(cfg, old(View())) && Valid()
    {
      var foundVideo := false;
      for i := 0 to MaxVideo
        invariant unchanged(this)
        invariant foundVideo <==> exists j :: 0 <= j < i && cfg.video[j]
        invariant MissingSlot(packets, cfg.video, Video, 0) == MissingSlot(packets, cfg.video, Video, i)
      {
        if cfg.video[i] {
          var v := FindFirstPacketTypeIdx(Video, i);
          if v == -1 {
            receivedVideo := receivedVideo[i := false];
            return false;
          }
          foundVideo := true;
        }
      }
      for i := 0 to MaxAudio
        invariant unchanged(this)
        invariant MissingSlot(packets, cfg.audio, Audio, 0) == MissingSlot(packets, cfg.audio, Audio, i)
      {
        if cfg.audio[i] {
          var a := FindFirstPacketTypeIdx(Audio, i);
          if a == -1 {
            receivedAudio := false;
            return false;
          }
        }
      }
      ok := foundVideo;
    }

    /** get_first_video_encoder_index and get_first_audio_encoder_index */
    static method GetFirstEncoderIndex(slots: seq<bool>) returns (i: nat)
      ensures i == FirstSlot(slots)
    {
      i := 0;
      while i < |slots| && !slots[i]
        invariant i <= |slots| && forall j :: 0 <= j < i ==> !slots[j]
      {
        i := i + 1;
      }
    }

    method HasLateAudio(firstVideo: nat) returns (late: bool)
      requires Valid() && Complete(cfg, packets) && firstVideo == FirstSlot(cfg.video)
      requires FirstIdx(packets, Video, firstVideo) >= 0
      ensures late <==> !AudioTooEarly(cfg, View())
    {
      var v := FindFirstPacketTypeIdx(Video, firstVideo);
      for i := 0 to MaxAudio
        invariant forall j :: 0 <= j < i && cfg.audio[j] && LastIdx(packets, Audio, j) >= 0
                              ==> packets[LastIdx(packets, Audio, j)].dtsUsec >= packets[v].dtsUsec
      {
        if cfg.audio[i] {
          assert HasFirst(packets, cfg.audio, Audio, i);
          var a := FindLastPacketTypeIdx(Audio, i);
          if packets[a].dtsUsec < packets[v].dtsUsec {
            return false;
          }
        }
      }
      late := true;
    }

    method SetVideoOffsets()
      requires Valid() && Complete(cfg, packets)
      modifies this`videoOffset
      ensures videoOffset == PerSlot(packets, cfg.video, Video, old(videoOffset), TakePts)
    {
      ghost var goal := PerSlot(packets, cfg.video, Video, videoOffset, TakePts);
      for i := 0 to MaxVideo
        invariant |videoOffset| == MaxVideo
        invariant forall j :: 0 <= j < i ==> videoOffset[j] == goal[j]
        invariant forall j :: i <= j < MaxVideo ==> videoOffset[j] == old(videoOffset)[j]
      {
        assert HasFirst(packets, cfg.video, Video, i);
        if cfg.video[i] {
          var v := FindFirstPacketTypeIdx(Video, i);
          videoOffset := videoOffset[i := packets[v].pts];
        }
      }
    }

    method SetAudioOffsets()
      requires Valid() && Complete(cfg, packets)
      modifies this`audioOffset
      ensures audioOffset == PerSlot(packets, cfg.audio, Audio, old(audioOffset), TakeDts)
    {
      ghost var goal := PerSlot(packets, cfg.audio, Audio, audioOffset, TakeDts);
      for i := 0 to MaxAudio
        invariant |audioOffset| == MaxAudio
        invariant forall j :: 0 <= j < i ==> audioOffset[j] == goal[j]
        invariant forall j :: i <= j < MaxAudio ==> audioOffset[j] == old(audioOffset)[j]
      {
        assert HasFirst(packets, cfg.audio, Audio, i);
        if cfg.audio[i] {
          var a := FindFirstPacketTypeIdx(Audio, i);
          audioOffset := audioOffset[i := packets[a].dts];
        }
      }
    }

    method SetOffsets()
      requires Valid() && Complete(cfg, packets)
      modifies this`videoOffset, this`audioOffset
      ensures View() == StartOffsets(cfg, old(View()))
    {
      SetVideoOffsets();
      SetAudioOffsets();
    }

    method RebaseHighestAudio()
      requires Valid() && Complete(cfg, packets)
      modifies this`highestAudio
      ensures FirstIdx(packets, Audio, FirstSlot(cfg.audio)) >= 0
      ensures highestAudio == old(highestAudio) - First(packets, Audio, FirstSlot(cfg.audio)).dtsUsec
    {
      var firstAudio := GetFirstEncoderIndex(cfg.audio);
      assert HasFirst(packets, cfg.audio, Audio, firstAudio);
      var a := FindFirstPacketTypeIdx(Audio, firstAudio);
      highestAudio := highestAudio - packets[a].dtsUsec;
    }

    method RebaseHighestVideo()
      requires Valid() && Complete(cfg, packets)
      modifies this`highestVideo
      ensures highestVideo == PerSlot(packets, cfg.video, Video, old(highestVideo), LessUsec)
    {
      ghost var goal := PerSlot(packets, cfg.video, Video, highestVideo, LessUsec);
      for i := 0 to MaxVideo
        invariant |highestVideo| == MaxVideo
        invariant forall j :: 0 <= j < i ==> highestVideo[j] == goal[j]
        invariant forall j :: i <= j < MaxVideo ==> highestVideo[j] == old(highestVideo)[j]
      {
        assert HasFirst(packets, cfg.video, Video, i);
        if cfg.video[i] {
          var v := FindFirstPacketTypeIdx(Video, i);
          highestVideo := highestVideo[i := highestVideo[i] - packets[v].dtsUsec];
        }
      }
    }

    method RebaseHighest()
      requires Valid() && Complete(cfg, packets)
      modifies this`highestVideo, this`highestAudio
      ensures View() == StartHighest(cfg, old(View()))
    {
      RebaseHighestAudio();
      RebaseHighestVideo();
    }

    method RebasePackets()
      requires Valid()
      modifies this`packets
      ensures packets == RebaseAll(cfg, old(View()), old(packets))
    {
      ghost var s := View();
      for i := 0 to |packets|
        invariant View() == s.(buf := packets) && |packets| == |s.buf|
        invariant forall j :: 0 <= j < i ==> packets[j] == Rebase(cfg, s, s.buf[j])
        invariant forall j :: i <= j < |packets| ==> packets[j] == s.buf[j]
      {
        packets := packets[i := ApplyInterleavedPacketOffset(packets[i])];
      }
    }

    method SetStartMarks()
      requires Valid() && Complete(cfg, packets)
      modifies this`videoOffset, this`audioOffset, this`highestVideo, this`highestAudio
      ensures View() == StartMarks(cfg, old(View()))
    {
      SetOffsets();
      RebaseHighest();
    }

    /** The end of initialize_interleaved_packets. */
    method ApplyStartTimes()
      requires Valid() && Complete(cfg, packets)
      modifies this`packets, this`videoOffset, this`audioOffset, this`highestVideo, this`highestAudio
      ensures View() == StartTimes(cfg, old(View())) && Valid()
    {
      SetStartMarks();
      RebasePackets();
    }

    function ApplyInterleavedPacketOffset(out: Packet): (r: Packet)
      reads this
      requires cfg.Valid() && |videoOffset| == MaxVideo && |audioOffset| == MaxAudio && Belongs(cfg, out)
      ensures Valid() ==> r == Rebase(cfg, View(), out)
    {
      var offset := if out.kind.Video? then videoOffset[out.track] else audioOffset[out.track];
      out.(dts := out.dts - offset, pts := out.pts - offset, dtsUsec := Usec(out.dts - offset, out.timebaseDen))
    }

    method InitializeInterleavedPackets() returns (ok: bool)
      requires Valid() && cfg.video[0]
      modifies this
      ensures (View(), ok) == Initialize(cfg, old(View())) && Valid()
    {
      var firstAudio := GetFirstEncoderIndex(cfg.audio);
      if firstAudio == MaxAudio {
        return false;
      }
      var firstVideo := GetFirstEncoderIndex(cfg.video);
      ok := GetAudioAndVideoPackets();
      if !ok {
        return;
      }
      assert HasFirst(packets, cfg.video, Video, 0) && HasFirst(packets, cfg.video, Video, firstVideo);
      var late := HasLateAudio(firstVideo);
      if !late {
        receivedAudio := false;
        return false;
      }
      ok := ClearExcessAndStart();
    }

    method ClearExcessAndStart() returns (ok: bool)
      requires Valid() && true in cfg.audio && FirstIdx(packets, Video, 0) >= 0
      modifies this
      ensures (View(), ok) == TrimAndStart(cfg, old(View())) && Valid()
    {
      var startIdx := GetInterleavedStartIdx();
      DiscardToIdx(startIdx);
      ok := GetAudioAndVideoPackets();
      if ok {
        ApplyStartTimes();
      }
    }

    method DiscardUnusedAudioPackets(t: int)
      requires Valid()
      modifies this`packets, this`dropped
      ensures View() == Discard(old(View()), UnusedIdx(old(packets), t)) && Valid()
    {
      var idx := 0;
      while idx < |packets| && packets[idx].dtsUsec < t
        invariant idx <= |packets| && forall j :: 0 <= j < idx ==> packets[j].dtsUsec < t
      {
        idx := idx + 1;
      }
      DiscardToIdx(idx);
    }

    method ReceivedAll() returns (b: bool)
      requires Valid()
      ensures b == AllReceived(cfg, View())
    {
      var receivedAllVideo := true;
      for i := 0 to MaxVideo
        invariant receivedAllVideo <==> forall k :: 0 <= k < i && cfg.video[k] ==> receivedVideo[k]
      {
        if cfg.video[i] {
          receivedAllVideo := receivedAllVideo && receivedVideo[i];
        }
      }
      b := receivedAudio && receivedAllVideo;
    }

    method TryStart()
      requires Valid()
      modifies this
      ensures View() == Start(cfg, old(View())) && Valid()
    {
      var pruned := PruneInterleavedPackets();
      if pruned {
        var ready := InitializeInterleavedPackets();
        if ready {
          ResortInterleavedPackets();
          SendInterleaved();
        }
      }
    }

    /** The encoder callback. */
    method InterleavePackets(packet: Packet)
      requires Valid() && Belongs(cfg, packet)
      modifies this
      ensures View() == Step(cfg, old(View()), packet) && Valid()
    {
      if packet.kind.Video? && !receivedVideo[packet.track] && !packet.keyframe {
        DiscardUnusedAudioPackets(packet.dtsUsec);
        dropped := dropped + [packet];
        return;
      }
      var wasStarted := ReceivedAll();
      var out := packet;
      if wasStarted {
        out := ApplyInterleavedPacketOffset(packet);
      } else if packet.kind.Video? {
        receivedVideo := receivedVideo[packet.track := true];
      } else {
        receivedAudio := true;
      }
      InsertInterleavedPacket(out);
      SetHigherTs(out);
      var received := ReceivedAll();
      if received {
        if !wasStarted {
          TryStart();
        } else {
          SendInterleaved();
        }
      }
    }
  }
}
