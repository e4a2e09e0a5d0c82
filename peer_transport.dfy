/**
 * An `RTCPeerConnection` seen from the conference page: an opaque handle
 * whose observable state is the signaling state, whether a remote description
 * was ever applied, one optional sender per media kind, and the log of the
 * calls the page made on it. SDP, ICE and the media themselves belong to the
 * browser and are not modelled.
 */
module PeerTransport {
  import opened Wrappers

  datatype Kind = Audio | Video

  /** A local media track; senders refer to it by `id`, so the `enabled` flag
      lives in one place, as it does for the shared browser object. */
  datatype Track = Track(id: nat, enabled: bool)

  /** A media stream: `getAudioTracks()[0]` and `getVideoTracks()[0]`. */
  datatype MediaStream = MediaStream(id: nat, audio: Option<Track>, video: Option<Track>) {
    function TrackOf(kind: Kind): Option<Track> {
      match kind
      case Audio => audio
      case Video => video
    }
  }

  datatype SignalingState = Stable | HaveLocalOffer | HaveRemoteOffer | Closed

  /** Calls the page makes on a connection that change its senders, apply a
      remote candidate, or close it. */
  datatype Call =
    | AddTrack(kind: Kind, track: nat)
    | ReplaceTrack(kind: Kind, track: nat)
    | RemoveTrack(kind: Kind)
    | AddIceCandidate(candidate: string)
    | Close

  datatype PeerHandle = PeerHandle(
    peer: string,                 // the remote user id its callbacks were created for
    signalingState: SignalingState,
    hasRemoteDescription: bool,
    audioSender: Option<nat>,     // track id of the sender whose track is audio
    videoSender: Option<nat>,     // track id of the sender whose track is video
    offerTimerPending: bool,      // the one-second initial-offer timeout has not fired yet
    calls: seq<Call>)
  {
    predicate IsClosed() {
      signalingState == Closed
    }

    function Sender(kind: Kind): Option<nat> {
      match kind
      case Audio => audioSender
      case Video => videoSender
    }

    function WithSender(kind: Kind, s: Option<nat>): (r: PeerHandle)
      ensures r.Sender(kind) == s
      ensures r.Sender(Other(kind)) == Sender(Other(kind))
      ensures r.peer == peer && r.signalingState == signalingState && r.calls == calls
      ensures r.hasRemoteDescription == hasRemoteDescription && r.offerTimerPending == offerTimerPending
    {
      match kind
      case Audio => this.(audioSender := s)
      case Video => this.(videoSender := s)
    }
  }

  function Other(kind: Kind): Kind {
    match kind
    case Audio => Video
    case Video => Audio
  }

  function TrackId(t: Option<Track>): Option<nat> {
    match t
    case Some(tr) => Some(tr.id)
    case None => None
  }

  /** `pc.addTrack(track, stream)` on a connection that has no sender of that kind. */
  function AddTrackTo(p: PeerHandle, kind: Kind, t: Track): (r: PeerHandle)
    ensures r.Sender(kind) == Some(t.id) && r.Sender(Other(kind)) == p.Sender(Other(kind))
    ensures r.calls == p.calls + [AddTrack(kind, t.id)]
    ensures r.peer == p.peer && r.signalingState == p.signalingState
  {
    p.WithSender(kind, Some(t.id)).(calls := p.calls + [AddTrack(kind, t.id)])
  }

  /** A connection just built by `createPeerConnection`: stable, no remote
      description, the initial-offer timeout armed, and every track of the
      local stream (if any) added, audio first. */
  function NewHandle(peer: string, local: Option<MediaStream>): (h: PeerHandle)
    ensures h.peer == peer && h.signalingState == Stable && !h.IsClosed()
    ensures !h.hasRemoteDescription && h.offerTimerPending
    ensures h.audioSender == (if local.Some? then TrackId(local.value.audio) else None)
    ensures h.videoSender == (if local.Some? then TrackId(local.value.video) else None)
    ensures local.None? ==> h.calls == []
    ensures forall c | c in h.calls :: c.AddTrack?
  {
    var empty := PeerHandle(peer, Stable, false, None, None, true, []);
    match local
    case None => empty
    case Some(s) =>
      var withAudio := if s.audio.Some? then AddTrackTo(empty, Audio, s.audio.value) else empty;
      if s.video.Some? then AddTrackTo(withAudio, Video, s.video.value) else withAudio
  }

  /** One half of `updatePeerConnectionTracks`: bring the sender of `kind` in
      line with the local stream's track of that kind. */
  function SyncKind(p: PeerHandle, kind: Kind, track: Option<Track>): (r: PeerHandle)
    ensures r.Sender(kind) == TrackId(track)
    ensures r.Sender(Other(kind)) == p.Sender(Other(kind))
    ensures r.peer == p.peer && r.signalingState == p.signalingState
    ensures r.hasRemoteDescription == p.hasRemoteDescription && r.offerTimerPending == p.offerTimerPending
    ensures track.Some? && p.Sender(kind).Some? ==> r.calls == p.calls + [ReplaceTrack(kind, track.value.id)]
    ensures track.Some? && p.Sender(kind).None? ==> r.calls == p.calls + [AddTrack(kind, track.value.id)]
    ensures track.None? && p.Sender(kind).Some? ==> r.calls == p.calls + [RemoveTrack(kind)]
    ensures track.None? && p.Sender(kind).None? ==> r == p
  {
    match track
    case Some(t) =>
      if p.Sender(kind).Some? then
        p.WithSender(kind, Some(t.id)).(calls := p.calls + [ReplaceTrack(kind, t.id)])
      else
        AddTrackTo(p, kind, t)
    case None =>
      if p.Sender(kind).Some? then
        p.WithSender(kind, None).(calls := p.calls + [RemoveTrack(kind)])
      else
        p
  }

  /** What `updatePeerConnectionTracks` does to one connection: audio, then video. */
  function SyncTracks(p: PeerHandle, s: MediaStream): (r: PeerHandle)
    ensures r.audioSender == TrackId(s.audio) && r.videoSender == TrackId(s.video)
    ensures r.peer == p.peer && r.signalingState == p.signalingState
  {
    SyncKind(SyncKind(p, Audio, s.audio), Video, s.video)
  }

  /** The two kinds are handled independently: after the sync each sender
      carries exactly the local track of its kind, and the connection's
      identity and signaling state are untouched. */
  lemma SyncTracksPerKind(p: PeerHandle, s: MediaStream)
    ensures forall k :: SyncTracks(p, s).Sender(k) == TrackId(s.TrackOf(k))
    ensures SyncTracks(p, s).peer == p.peer && SyncTracks(p, s).signalingState == p.signalingState
    ensures SyncTracks(p, s).hasRemoteDescription == p.hasRemoteDescription
    ensures SyncTracks(p, s).offerTimerPending == p.offerTimerPending
    ensures |SyncTracks(p, s).calls| <= |p.calls| + 2 && SyncTracks(p, s).calls[..|p.calls|] == p.calls
  {
    var q := SyncKind(p, Audio, s.audio);
    assert q.calls[..|p.calls|] == p.calls;
    assert SyncTracks(p, s).calls[..|q.calls|] == q.calls;
  }

  /** `pc.close()`. */
  function Closing(p: PeerHandle): (r: PeerHandle)
    ensures r.IsClosed() && r.peer == p.peer && r.calls == p.calls + [Close]
  {
    p.(signalingState := Closed, calls := p.calls + [Close])
  }
  /** `setLocalDescription(offer)` after `createOffer` succeeded. */
  function LocalOfferSet(p: PeerHandle): (r: PeerHandle)
    ensures r.signalingState == HaveLocalOffer && !r.IsClosed()
    ensures r.peer == p.peer && r.calls == p.calls && r.hasRemoteDescription == p.hasRemoteDescription
  {
    p.(signalingState := HaveLocalOffer)
  }

  /** `handleOffer`'s chain on one connection: `setRemoteDescription(offer)`,
      then `createAnswer` and `setLocalDescription(answer)`. A failing step
      ends the chain; what earlier steps did stays. */
  function OfferAnswered(p: PeerHandle, remoteOk: bool, answerOk: bool): (r: PeerHandle)
    ensures r.peer == p.peer && r.calls == p.calls
    ensures r.audioSender == p.audioSender && r.videoSender == p.videoSender
    ensures r.offerTimerPending == p.offerTimerPending
    ensures !remoteOk ==> r == p
    ensures remoteOk ==> r.hasRemoteDescription
    ensures remoteOk ==> r.signalingState == (if answerOk then Stable else HaveRemoteOffer)
  {
    if !remoteOk then p
    else if !answerOk then p.(hasRemoteDescription := true, signalingState := HaveRemoteOffer)
    else p.(hasRemoteDescription := true, signalingState := Stable)
  }

  /** `setRemoteDescription(answer)` succeeded. */
  function AnswerApplied(p: PeerHandle): (r: PeerHandle)
    ensures r.hasRemoteDescription && r.signalingState == Stable
    ensures r.peer == p.peer && r.calls == p.calls
    ensures r.audioSender == p.audioSender && r.videoSender == p.videoSender
  {
    p.(hasRemoteDescription := true, signalingState := Stable)
  }

  /** `addIceCandidate(candidate)`. */
  function CandidateApplied(p: PeerHandle, candidate: string): (r: PeerHandle)
    ensures r.calls == p.calls + [AddIceCandidate(candidate)]
    ensures r.peer == p.peer && r.signalingState == p.signalingState
  {
    p.(calls := p.calls + [AddIceCandidate(candidate)])
  }
}
