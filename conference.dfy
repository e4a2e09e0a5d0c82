/**
 * The room and peer bookkeeping of the conference page. Every socket event,
 * connection callback and button handler is a method that runs to
 * completion; what the browser or the network decides is an argument.
 */
module Conference {
  import opened Wrappers
  import opened PeerTransport
  import opened Roster
  import opened ConferenceView

  datatype MediaState = MediaState(
    audioEnabled: bool,
    videoEnabled: bool,
    screenSharing: bool,
    whiteboardActive: bool,
    chatActive: bool)

  /** Messages the page emits on the signaling socket. */
  datatype Outbound =
    | OfferTo(to: string)
    | AnswerTo(to: string)
    | IceCandidateTo(to: string, candidate: string)
    | MediaStateUpdate(userId: string, audioEnabled: bool, videoEnabled: bool)
    | LeaveRoom(userId: string)

  /** Whether `initializeMedia` stops at a write to the missing local entry. */
  predicate StreamAborts(participants: map<string, Participant>, self: string, s: MediaStream) {
    self !in participants && (s.audio.Some? || s.video.Some?)
  }

  /** The media state after `initializeMedia` took the flags of `s`. */
  function AdoptedFlags(m: MediaState, s: MediaStream, selfPresent: bool): MediaState {
    var audio := if s.audio.Some? then s.audio.value.enabled else m.audioEnabled;
    var video := if s.video.Some? then s.video.value.enabled else m.videoEnabled;
    if !selfPresent && s.audio.Some? then m.(audioEnabled := audio)
    else m.(audioEnabled := audio, videoEnabled := video)
  }

  /** The roster after `initializeMedia` copied the flags of `s` to the local entry. */
  function AdoptedRoster(participants: map<string, Participant>, self: string, s: MediaStream): map<string, Participant> {
    if self !in participants then participants
    else
      var withAudio := if s.audio.Some? then participants[self := participants[self].(audioEnabled := s.audio.value.enabled)]
                       else participants;
      if s.video.Some? then withAudio[self := withAudio[self].(videoEnabled := s.video.value.enabled)]
      else withAudio
  }

  /** Each id of `pc` names an open connection created for that id; each
      open connection is the one registered for its id; remote streams exist
      only for connected ids. */
  ghost predicate Wired(pc: map<string, nat>, handles: seq<PeerHandle>, remoteStreams: map<string, MediaStream>) {
    && (forall u | u in pc ::
          pc[u] < |handles| && handles[pc[u]].peer == u && !handles[pc[u]].IsClosed())
    && (forall h | 0 <= h < |handles| && !handles[h].IsClosed() ::
          handles[h].peer in pc && pc[handles[h].peer] == h)
    && remoteStreams.Keys <= pc.Keys
  }

  /** The roster and connections are those of `before`, `oldPc` and
      `oldHandles` with the entries of `added` admitted and connected. */
  ghost predicate Admission(before: map<string, Participant>, oldPc: map<string, nat>,
                            oldHandles: seq<PeerHandle>, added: map<string, string>,
                            participants: map<string, Participant>, pc: map<string, nat>,
                            handles: seq<PeerHandle>, localStream: Option<MediaStream>) {
    && participants.Keys == before.Keys + added.Keys
    && (forall k | k in before :: participants[k] == before[k])
    && (forall k | k in added :: participants[k] == FreshParticipant(k, added[k], false))
    && pc.Keys == oldPc.Keys + added.Keys
    && (forall u | u in oldPc :: u in pc && pc[u] == oldPc[u])
    && |oldHandles| <= |handles|
    && (forall h | 0 <= h < |oldHandles| :: handles[h] == oldHandles[h])
    && (forall h | |oldHandles| <= h < |handles| ::
          && handles[h] == NewHandle(handles[h].peer, localStream)
          && handles[h].peer in added
          && handles[h].peer !in oldPc)
  }

  /** Admitting an id that already has a connection adds its entry only. */
  lemma AdmissionReconnect(before: map<string, Participant>, oldPc: map<string, nat>,
                           oldHandles: seq<PeerHandle>, added: map<string, string>,
                           participants: map<string, Participant>, pc: map<string, nat>,
                           handles: seq<PeerHandle>, localStream: Option<MediaStream>, id: string, name: string)
    requires Admission(before, oldPc, oldHandles, added, participants, pc, handles, localStream)
    requires id !in participants && id in pc
    ensures Admission(before, oldPc, oldHandles, added[id := name],
                      participants[id := FreshParticipant(id, name, false)], pc, handles, localStream)
  {
  }

  /** Admitting an id without a connection adds its entry and one new connection. */
  lemma AdmissionConnect(before: map<string, Participant>, oldPc: map<string, nat>,
                         oldHandles: seq<PeerHandle>, added: map<string, string>,
                         participants: map<string, Participant>, pc: map<string, nat>,
                         handles: seq<PeerHandle>, localStream: Option<MediaStream>, id: string, name: string)
    requires Admission(before, oldPc, oldHandles, added, participants, pc, handles, localStream)
    requires id !in participants && id !in pc
    ensures Admission(before, oldPc, oldHandles, added[id := name],
                      participants[id := FreshParticipant(id, name, false)], pc[id := |handles|],
                      handles + [NewHandle(id, localStream)], localStream)
  {
  }

  class VideoConference {
    const userId: string
    const userName: string

    var localStream: Option<MediaStream>
    var screenStream: Option<MediaStream>
    var mediaState: MediaState

    var participants: map<string, Participant>
    /** user id to its connection, an index into `handles` */
    var peerConnections: map<string, nat>
    /** every connection object ever created, in creation order; closed ones stay */
    var handles: seq<PeerHandle>
    var remoteStreams: map<string, MediaStream>
    /** the ids whose remote-status polling interval is running */
    var remoteStatusIntervals: set<string>
    var yourSocketId: Option<string>

    /** everything emitted on the socket, oldest first */
    var outbox: seq<Outbound>
    /** what the last `updateMainVideoDisplay` showed */
    var shownLayout: Option<Layout>
    /** what the last `updateParticipantCount` showed */
    var shownTotal: Option<nat>

    /** Each id of `peerConnections` names an open connection created for that
        id; each open connection is the one registered for its id; remote
        streams exist only for connected ids. */
    ghost predicate Valid()
      reads this`peerConnections, this`handles, this`remoteStreams
    {
      Wired(peerConnections, handles, remoteStreams)
    }

    /** The constructor's state once `addLocalParticipant` has run. */
    constructor (userId: string, userName: string)
      ensures Valid()
      ensures this.userId == userId && this.userName == userName
      ensures participants == map[userId := FreshParticipant(userId, userName, true)]
      ensures peerConnections == map[] && handles == [] && remoteStreams == map[]
      ensures remoteStatusIntervals == {} && yourSocketId == None
      ensures localStream == None && screenStream == None
      ensures mediaState == MediaState(false, false, false, false, false)
      ensures outbox == [] && shownLayout == None && shownTotal == None
    {
      this.userId := userId;
      this.userName := userName;
      localStream := None;
      screenStream := None;
      mediaState := MediaState(false, false, false, false, false);
      participants := map[userId := FreshParticipant(userId, userName, true)];
      peerConnections := map[];
      handles := [];
      remoteStreams := map[];
      remoteStatusIntervals := {};
      yourSocketId := None;
      outbox := [];
      shownLayout := None;
      shownTotal := None;
    }

    // ---------------------------------------------------------------- roster

    /** `addParticipant`: an id already present keeps its entry. */
    method AddParticipant(id: string, name: string, isLocal: bool)
      modifies this`participants
      ensures id in old(participants) ==> participants == old(participants)
      ensures id !in old(participants) ==>
        participants == old(participants)[id := FreshParticipant(id, name, isLocal)]
    {
      if id in participants {
        return;
      }
      participants := participants[id := FreshParticipant(id, name, isLocal)];
    }

    /** `removeParticipant`: the entry and its status interval go. */
    method RemoveParticipant(id: string)
      modifies this`participants, this`remoteStatusIntervals
      ensures participants == old(participants) - {id}
      ensures remoteStatusIntervals == old(remoteStatusIntervals) - {id}
    {
      participants := participants - {id};
      remoteStatusIntervals := remoteStatusIntervals - {id};
    }

    /** `updateParticipantCount`. */
    method UpdateParticipantCount()
      modifies this`shownTotal
      ensures shownTotal == Some(DisplayedTotal(|participants|))
    {
      shownTotal := Some(DisplayedTotal(|participants|));
    }

    /** `addParticipant(id, name, false)` followed by `createPeerConnection(id)`,
        as both roster handlers do for an id not in the roster. */
    method AdmitRemote(id: string, name: string)
      requires Valid() && id !in participants
      modifies this`participants, this`handles, this`peerConnections
      ensures Valid()
      ensures participants == old(participants)[id := FreshParticipant(id, name, false)]
      ensures id in old(peerConnections) ==> handles == old(handles) && peerConnections == old(peerConnections)
      ensures id !in old(peerConnections) ==>
        && handles == old(handles) + [NewHandle(id, localStream)]
        && peerConnections == old(peerConnections)[id := |old(handles)|]
    {
      AddParticipant(id, name, false);
      var h := CreatePeerConnection(id);
    }

    /** The roster and connections are `before`, `oldPc` and `oldHandles`
        with the ids of `added` admitted, each with a fresh connection unless
        it already had one. */
    ghost predicate AdmittedOnto(before: map<string, Participant>, oldPc: map<string, nat>,
                                 oldHandles: seq<PeerHandle>, added: map<string, string>)
      reads this`participants, this`peerConnections, this`handles, this`localStream
    {
      Admission(before, oldPc, oldHandles, added, participants, peerConnections, handles, localStream)
    }

    /** One step of the `room-users` walk. */
    method AdmitFromSnapshot(u: User, ghost before: map<string, Participant>, ghost oldPc: map<string, nat>,
                             ghost oldHandles: seq<PeerHandle>, ghost added: map<string, string>)
      requires Valid() && AdmittedOnto(before, oldPc, oldHandles, added)
      requires before.Keys !! added.Keys
      modifies this`participants, this`handles, this`peerConnections
      ensures Valid()
      ensures var admit := u.id != userId && u.id !in before && u.id !in added;
        AdmittedOnto(before, oldPc, oldHandles, if admit then added[u.id := u.name] else added)
    {
      if u.id != userId && u.id !in participants {
        var id := u.id;
        if id in peerConnections {
          AdmissionReconnect(before, oldPc, oldHandles, added, participants, peerConnections, handles, localStream, id, u.name);
        } else {
          AdmissionConnect(before, oldPc, oldHandles, added, participants, peerConnections, handles, localStream, id, u.name);
        }
        AdmitRemote(id, u.name);
      }
    }

    /** The walk over a `room-users` snapshot: every user other than the
        local one and not yet in the roster is added with a connection; users
        already known, the local user and repeated ids are skipped. */
    method AdmitSnapshot(users: seq<User>)
      requires Valid()
      modifies this`participants, this`handles, this`peerConnections
      ensures Valid()
      ensures AdmittedOnto(old(participants), old(peerConnections), old(handles), Admitted(users, userId, old(participants).Keys))
    {
      ghost var before := participants;
      ghost var oldPc := peerConnections;
      ghost var oldHandles := handles;
      ghost var added: map<string, string> := map[];
      var i := 0;
      while i < |users|
        invariant 0 <= i <= |users|
        invariant Valid()
        invariant added == Admitted(users[..i], userId, before.Keys)
        invariant AdmittedOnto(before, oldPc, oldHandles, added)
      {
        AdmittedSnoc(users, i, userId, before.Keys);
        AdmitFromSnapshot(users[i], before, oldPc, oldHandles, added);
        if users[i].id != userId && users[i].id !in before && users[i].id !in added {
          added := added[users[i].id := users[i].name];
        }
        i := i + 1;
      }
      assert users[..|users|] == users;
    }

    /** The `room-users` handler. */
    method OnRoomUsers(users: seq<User>, yourId: string)
      requires Valid()
      modifies this`yourSocketId, this`participants, this`handles, this`peerConnections, this`shownTotal
      ensures Valid()
      ensures yourSocketId == Some(yourId)
      ensures AdmittedOnto(old(participants), old(peerConnections), old(handles), Admitted(users, userId, old(participants).Keys))
      ensures shownTotal == Some(DisplayedTotal(|participants|))
    {
      yourSocketId := Some(yourId);
      AdmitSnapshot(users);
      UpdateParticipantCount();
    }

    /** The `user-joined` handler: a new id gets an entry and a connection; a
        known id changes nothing. The local id is not excluded here. */
    method OnUserJoined(id: string, name: string)
      requires Valid()
      modifies this`participants, this`handles, this`peerConnections, this`shownTotal
      ensures Valid()
      ensures id in old(participants) ==>
        && participants == old(participants) && handles == old(handles)
        && peerConnections == old(peerConnections) && shownTotal == old(shownTotal)
      ensures id !in old(participants) ==>
        && participants == old(participants)[id := FreshParticipant(id, name, false)]
        && shownTotal == Some(DisplayedTotal(|participants|))
        && (id in old(peerConnections) ==>
              handles == old(handles) && peerConnections == old(peerConnections))
        && (id !in old(peerConnections) ==>
              && handles == old(handles) + [NewHandle(id, localStream)]
              && peerConnections == old(peerConnections)[id := |old(handles)|])
    {
      if id !in participants {
        AdmitRemote(id, name);
        UpdateParticipantCount();
      }
    }

    /** The `user-left` handler: the id leaves every map, its connection is
        closed, and nothing about other ids changes. */
    method OnUserLeft(id: string)
      requires Valid()
      modifies this`participants, this`remoteStatusIntervals, this`handles
      modifies this`peerConnections, this`remoteStreams, this`shownTotal
      ensures Valid()
      ensures participants == old(participants) - {id}
      ensures remoteStatusIntervals == old(remoteStatusIntervals) - {id}
      ensures peerConnections == old(peerConnections) - {id}
      ensures remoteStreams == old(remoteStreams) - {id}
      ensures id in old(peerConnections) ==>
        var h := old(peerConnections)[id];
        handles == old(handles)[h := Closing(old(handles)[h])] && handles[h].IsClosed()
      ensures id !in old(peerConnections) ==> handles == old(handles)
      ensures shownTotal == Some(DisplayedTotal(|participants|))
    {
      RemoveParticipant(id);
      RemovePeerConnection(id);
      UpdateParticipantCount();
    }

    /** The `media-state` handler: a known id takes the flags it announced. */
    method OnMediaState(id: string, audioEnabled: bool, videoEnabled: bool)
      modifies this`participants
      ensures id in old(participants) ==>
        participants == old(participants)[id := old(participants)[id].(audioEnabled := audioEnabled, videoEnabled := videoEnabled)]
      ensures id !in old(participants) ==> participants == old(participants)
    {
      if id in participants {
        participants := participants[id := participants[id].(audioEnabled := audioEnabled, videoEnabled := videoEnabled)];
      }
    }

    // ----------------------------------------------------------- connections

    /** `createPeerConnection`: a known id gets its stored connection back and
        nothing is created; otherwise one new connection is registered. */
    method CreatePeerConnection(id: string) returns (h: nat)
      requires Valid()
      modifies this`handles, this`peerConnections
      ensures Valid()
      ensures id in peerConnections && peerConnections[id] == h && h < |handles|
      ensures id in old(peerConnections) ==>
        h == old(peerConnections)[id] && handles == old(handles) && peerConnections == old(peerConnections)
      ensures id !in old(peerConnections) ==>
        && h == |old(handles)|
        && handles == old(handles) + [NewHandle(id, localStream)]
        && peerConnections == old(peerConnections)[id := h]
    {
      if id in peerConnections {
        return peerConnections[id];
      }
      h := |handles|;
      handles := handles + [NewHandle(id, localStream)];
      peerConnections := peerConnections[id := h];
    }

    /** `removePeerConnection`: close and forget the connection, drop the
        remote stream. */
    method RemovePeerConnection(id: string)
      requires Valid()
      modifies this`handles, this`peerConnections, this`remoteStreams
      ensures Valid()
      ensures peerConnections == old(peerConnections) - {id}
      ensures remoteStreams == old(remoteStreams) - {id}
      ensures id in old(peerConnections) ==>
        var h := old(peerConnections)[id];
        handles == old(handles)[h := Closing(old(handles)[h])]
      ensures id !in old(peerConnections) ==> handles == old(handles)
    {
      if id in peerConnections {
        var h := peerConnections[id];
        handles := handles[h := Closing(handles[h])];
        peerConnections := peerConnections - {id};
      }
      remoteStreams := remoteStreams - {id};
    }

    /** `onnegotiationneeded` of connection `h`: create an offer, set it as
        local description and send it to the connection's user. `ok` is
        whether the browser's offer steps succeed. */
    method OnNegotiationNeeded(h: nat, ok: bool)
      requires Valid() && h < |handles|
      modifies this`handles, this`outbox
      ensures Valid()
      ensures old(handles)[h].IsClosed() || !ok ==> handles == old(handles) && outbox == old(outbox)
      ensures !old(handles)[h].IsClosed() && ok ==>
        && handles == old(handles)[h := LocalOfferSet(old(handles)[h])]
        && outbox == old(outbox) + [OfferTo(old(handles)[h].peer)]
    {
      if handles[h].IsClosed() || !ok {
        return;
      }
      handles := handles[h := LocalOfferSet(handles[h])];
      outbox := outbox + [OfferTo(handles[h].peer)];
    }

    /** The one-second timeout armed by `createPeerConnection`: it runs the
        negotiation handler only if the connection is still `stable`. */
    method OnOfferTimer(h: nat, ok: bool)
      requires Valid() && h < |handles|
      modifies this`handles, this`outbox
      ensures Valid()
      ensures !old(handles)[h].offerTimerPending ==> handles == old(handles) && outbox == old(outbox)
      ensures old(handles)[h].offerTimerPending ==>
        var p := old(handles)[h].(offerTimerPending := false);
        if p.signalingState == Stable && ok then
          handles == old(handles)[h := LocalOfferSet(p)] && outbox == old(outbox) + [OfferTo(p.peer)]
        else
          handles == old(handles)[h := p] && outbox == old(outbox)
    {
      if !handles[h].offerTimerPending {
        return;
      }
      handles := handles[h := handles[h].(offerTimerPending := false)];
      if handles[h].signalingState == Stable {
        OnNegotiationNeeded(h, ok);
      }
    }

    /** `onicecandidate` of connection `h`; `None` is the end-of-gathering event. */
    method OnLocalCandidate(h: nat, candidate: Option<string>)
      requires h < |handles|
      modifies this`outbox
      ensures outbox == old(outbox) +
        (if !handles[h].IsClosed() && candidate.Some? then [IceCandidateTo(handles[h].peer, candidate.value)] else [])
    {
      if !handles[h].IsClosed() && candidate.Some? {
        outbox := outbox + [IceCandidateTo(handles[h].peer, candidate.value)];
      }
    }

    /** `ontrack` of connection `h`: the first stream of the event overwrites
        the user's remote stream; a user in the roster also gets it on its
        entry and a status interval. A closed connection fires nothing. */
    method OnTrack(h: nat, streams: seq<MediaStream>)
      requires Valid() && h < |handles|
      modifies this`remoteStreams, this`participants, this`remoteStatusIntervals
      ensures Valid()
      ensures handles[h].IsClosed() || |streams| == 0 ==>
        && remoteStreams == old(remoteStreams) && participants == old(participants)
        && remoteStatusIntervals == old(remoteStatusIntervals)
      ensures !handles[h].IsClosed() && |streams| > 0 ==>
        var u := handles[h].peer;
        && remoteStreams == old(remoteStreams)[u := streams[0]]
        && (u in old(participants) ==>
              && participants == old(participants)[u := old(participants)[u].(stream := Some(streams[0]))]
              && remoteStatusIntervals == old(remoteStatusIntervals) + {u})
        && (u !in old(participants) ==>
              participants == old(participants) && remoteStatusIntervals == old(remoteStatusIntervals))
    {
      if handles[h].IsClosed() || |streams| == 0 {
        return;
      }
      var u := handles[h].peer;
      remoteStreams := remoteStreams[u := streams[0]];
      if u in participants {
        participants := participants[u := participants[u].(stream := Some(streams[0]))];
        remoteStatusIntervals := remoteStatusIntervals + {u};
      }
    }

    /** `handleOffer`: an unknown sender first gets a connection; then the
        offer is applied and, if the answer steps succeed, exactly one answer
        goes back to the sender. */
    method HandleOffer(from: string, remoteOk: bool, answerOk: bool)
      requires Valid()
      modifies this`handles, this`peerConnections, this`outbox
      ensures Valid()
      ensures from in peerConnections
      ensures from in old(peerConnections) ==>
        && peerConnections == old(peerConnections)
        && var h := peerConnections[from];
           handles == old(handles)[h := OfferAnswered(old(handles)[h], remoteOk, answerOk)]
      ensures from !in old(peerConnections) ==>
        && peerConnections == old(peerConnections)[from := |old(handles)|]
        && handles == old(handles) + [OfferAnswered(NewHandle(from, localStream), remoteOk, answerOk)]
      ensures outbox == old(outbox) + (if remoteOk && answerOk then [AnswerTo(from)] else [])
    {
      var h: nat;
      if from in peerConnections {
        h := peerConnections[from];
      } else {
        h := CreatePeerConnection(from);
      }
      handles := handles[h := OfferAnswered(handles[h], remoteOk, answerOk)];
      if remoteOk && answerOk {
        outbox := outbox + [AnswerTo(from)];
      }
    }

    /** `handleAnswer`: with no connection for the sender nothing changes. */
    method HandleAnswer(from: string, ok: bool)
      requires Valid()
      modifies this`handles
      ensures Valid()
      ensures from !in peerConnections || !ok ==> handles == old(handles)
      ensures from in peerConnections && ok ==>
        var h := peerConnections[from];
        handles == old(handles)[h := AnswerApplied(old(handles)[h])]
    {
      if from in peerConnections && ok {
        var h := peerConnections[from];
        handles := handles[h := AnswerApplied(handles[h])];
      }
    }

    /** `handleIceCandidate`: applied only to a known sender's connection
        that has a remote description; otherwise dropped, not kept. */
    method HandleIceCandidate(from: string, candidate: string)
      requires Valid()
      modifies this`handles
      ensures Valid()
      ensures from in peerConnections && old(handles)[peerConnections[from]].hasRemoteDescription ==>
        var h := peerConnections[from];
        handles == old(handles)[h := CandidateApplied(old(handles)[h], candidate)]
      ensures !(from in peerConnections && old(handles)[peerConnections[from]].hasRemoteDescription) ==>
        handles == old(handles)
    {
      if from in peerConnections && handles[peerConnections[from]].hasRemoteDescription {
        var h := peerConnections[from];
        handles := handles[h := CandidateApplied(handles[h], candidate)];
      }
    }

    /** `updatePeerConnectionTracks`: with a connection and a local stream,
        each kind's sender is synchronised with the stream's track. */
    method UpdatePeerConnectionTracks(id: string)
      requires Valid()
      modifies this`handles
      ensures Valid()
      ensures id in peerConnections && localStream.Some? ==>
        var h := peerConnections[id];
        handles == old(handles)[h := SyncTracks(old(handles)[h], localStream.value)]
      ensures id !in peerConnections || localStream.None? ==> handles == old(handles)
    {
      if id !in peerConnections || localStream.None? {
        return;
      }
      var h := peerConnections[id];
      var stream := localStream.value;
      // the senders are looked up once, before either kind is changed
      var p := SyncKind(handles[h], Audio, stream.audio);
      p := SyncKind(p, Video, stream.video);
      handles := handles[h := p];
    }

    // ----------------------------------------------------------- local media

    /** `sendMediaState`. */
    method SendMediaState()
      modifies this`outbox
      ensures outbox == old(outbox) + [MediaStateUpdate(userId, mediaState.audioEnabled, mediaState.videoEnabled)]
    {
      outbox := outbox + [MediaStateUpdate(userId, mediaState.audioEnabled, mediaState.videoEnabled)];
    }

    /** `updateMainVideoDisplay`. */
    method UpdateMainVideoDisplay()
      modifies this`shownLayout
      ensures shownLayout == Some(MainLayout(mediaState.videoEnabled, localStream.Some?, mediaState.screenSharing, mediaState.whiteboardActive))
    {
      shownLayout := Some(MainLayout(mediaState.videoEnabled, localStream.Some?, mediaState.screenSharing, mediaState.whiteboardActive));
    }

    /** The `forEach` of `initializeMedia` over `peerConnections`: every open
        connection is brought in line with the local stream, in any order. */
    method UpdateAllPeerConnectionTracks()
      requires Valid() && localStream.Some?
      modifies this`handles
      ensures Valid()
      ensures |handles| == |old(handles)|
      ensures forall h | 0 <= h < |handles| ::
        handles[h] == if old(handles)[h].IsClosed() then old(handles)[h] else SyncTracks(old(handles)[h], localStream.value)
    {
      var s := localStream.value;
      var pending := peerConnections.Keys;
      while pending != {}
        invariant pending <= peerConnections.Keys
        invariant Valid()
        invariant |handles| == |old(handles)|
        invariant forall h | 0 <= h < |handles| ::
          handles[h] == if old(handles)[h].IsClosed() || old(handles)[h].peer in pending then old(handles)[h]
                        else SyncTracks(old(handles)[h], s)
        decreases pending
      {
        var u :| u in pending;
        ghost var h := peerConnections[u];
        assert handles[h] == old(handles)[h];
        assert forall g | 0 <= g < |handles| && !old(handles)[g].IsClosed() && old(handles)[g].peer == u :: g == h by {
          forall g | 0 <= g < |handles| && !old(handles)[g].IsClosed() && old(handles)[g].peer == u
            ensures g == h
          {
            assert handles[g] == old(handles)[g];
          }
        }
        UpdatePeerConnectionTracks(u);
        pending := pending - {u};
      }
    }

    /** Writes the flags of `s` into the media state and the local entry, in
        the order `initializeMedia` does; returns whether a write to a missing
        local entry threw. */
    method AdoptStream(s: MediaStream) returns (aborted: bool)
      modifies this`localStream, this`mediaState, this`participants
      ensures aborted == StreamAborts(old(participants), userId, s)
      ensures localStream == Some(s)
      ensures mediaState == AdoptedFlags(old(mediaState), s, userId in old(participants))
      ensures participants == AdoptedRoster(old(participants), userId, s)
    {
      localStream := Some(s);
      var flags := mediaState;
      var roster := participants;
      aborted := false;
      if s.audio.Some? {
        flags := flags.(audioEnabled := s.audio.value.enabled);
        if userId in roster {
          roster := roster[userId := roster[userId].(audioEnabled := s.audio.value.enabled)];
        } else {
          aborted := true;
        }
      }
      if !aborted && s.video.Some? {
        flags := flags.(videoEnabled := s.video.value.enabled);
        if userId in roster {
          roster := roster[userId := roster[userId].(videoEnabled := s.video.value.enabled)];
        } else {
          aborted := true;
        }
      }
      mediaState := flags;
      participants := roster;
    }

    /** The state change of `initializeMedia` whose `getUserMedia` yielded
        `granted` (`None`: it was refused). If the local entry is missing, the
        first write to it throws and the handler's catch ends the run. */
    twostate predicate MediaInitialized(granted: Option<MediaStream>)
      reads this
    {
      match granted
      case None =>
        && localStream == old(localStream) && mediaState == old(mediaState)
        && participants == old(participants) && handles == old(handles)
        && outbox == old(outbox) && shownLayout == old(shownLayout)
      case Some(s) =>
        && localStream == granted
        && mediaState == AdoptedFlags(old(mediaState), s, userId in old(participants))
        && participants == AdoptedRoster(old(participants), userId, s)
        && if StreamAborts(old(participants), userId, s) then
             handles == old(handles) && outbox == old(outbox) && shownLayout == old(shownLayout)
           else
             && |handles| == |old(handles)|
             && (forall h | 0 <= h < |handles| ::
                   handles[h] == if old(handles)[h].IsClosed() then old(handles)[h] else SyncTracks(old(handles)[h], s))
             && shownLayout == Some(MainLayout(mediaState.videoEnabled, true, mediaState.screenSharing, mediaState.whiteboardActive))
             && outbox == old(outbox) + [MediaStateUpdate(userId, mediaState.audioEnabled, mediaState.videoEnabled)]
    }

    /** The state part of `initializeMedia`: the new stream replaces the old
        one, the flags follow its tracks, every open connection is brought in
        line with it, and the new media state is announced. */
    method InitializeMedia(requestAudio: bool, requestVideo: bool, granted: Option<MediaStream>)
      requires Valid()
      requires granted.Some? ==>
        && (requestAudio || requestVideo)
        && granted.value.audio.Some? == requestAudio
        && granted.value.video.Some? == requestVideo
      modifies this`localStream, this`mediaState, this`participants, this`handles, this`outbox, this`shownLayout
      ensures Valid()
      ensures MediaInitialized(granted)
    {
      if granted.None? {
        return;
      }
      var aborted := AdoptStream(granted.value);
      if aborted {
        return;
      }
      UpdateAllPeerConnectionTracks();
      UpdateMainVideoDisplay();
      SendMediaState();
    }

    /** `toggleAudio`: with an audio track, its `enabled` flag, the media
        state and the local entry all become the negation of the old flag and
        one `media-state` message goes out; without one, media is requested. */
    method ToggleAudio(granted: Option<MediaStream>)
      requires Valid()
      requires granted.Some? ==> granted.value.audio.Some? && granted.value.video.None?
      modifies this`localStream, this`mediaState, this`participants, this`handles, this`outbox, this`shownLayout
      ensures Valid()
      ensures old(localStream).Some? && old(localStream).value.audio.Some? ==>
        var t := old(localStream).value.audio.value;
        var on := !t.enabled;
        && mediaState == old(mediaState).(audioEnabled := on)
        && localStream == Some(old(localStream).value.(audio := Some(t.(enabled := on))))
        && handles == old(handles) && shownLayout == old(shownLayout)
        && (userId in old(participants) ==>
              && participants == old(participants)[userId := old(participants)[userId].(audioEnabled := on)]
              && outbox == old(outbox) + [MediaStateUpdate(userId, on, old(mediaState).videoEnabled)])
        && (userId !in old(participants) ==> participants == old(participants) && outbox == old(outbox))
      ensures !(old(localStream).Some? && old(localStream).value.audio.Some?) ==> MediaInitialized(granted)
    {
      if localStream.None? || localStream.value.audio.None? {
        InitializeMedia(true, false, granted);
        return;
      }
      var t := localStream.value.audio.value;
      mediaState := mediaState.(audioEnabled := !t.enabled);
      localStream := Some(localStream.value.(audio := Some(t.(enabled := mediaState.audioEnabled))));
      if userId !in participants {
        return;
      }
      participants := participants[userId := participants[userId].(audioEnabled := mediaState.audioEnabled)];
      SendMediaState();
    }

    /** `toggleVideo`: as `toggleAudio` for the video track, and the main
        area is redrawn before the message goes out. */
    method ToggleVideo(granted: Option<MediaStream>)
      requires Valid()
      requires granted.Some? ==> granted.value.video.Some? && granted.value.audio.None?
      modifies this`localStream, this`mediaState, this`participants, this`handles, this`outbox, this`shownLayout
      ensures Valid()
      ensures old(localStream).Some? && old(localStream).value.video.Some? ==>
        var t := old(localStream).value.video.value;
        var on := !t.enabled;
        && mediaState == old(mediaState).(videoEnabled := on)
        && localStream == Some(old(localStream).value.(video := Some(t.(enabled := on))))
        && handles == old(handles)
        && (userId in old(participants) ==>
              && participants == old(participants)[userId := old(participants)[userId].(videoEnabled := on)]
              && shownLayout == Some(MainLayout(on, true, mediaState.screenSharing, mediaState.whiteboardActive))
              && outbox == old(outbox) + [MediaStateUpdate(userId, old(mediaState).audioEnabled, on)])
        && (userId !in old(participants) ==>
              participants == old(participants) && outbox == old(outbox) && shownLayout == old(shownLayout))
      ensures !(old(localStream).Some? && old(localStream).value.video.Some?) ==> MediaInitialized(granted)
    {
      if localStream.None? || localStream.value.video.None? {
        InitializeMedia(false, true, granted);
        return;
      }
      var t := localStream.value.video.value;
      mediaState := mediaState.(videoEnabled := !t.enabled);
      localStream := Some(localStream.value.(video := Some(t.(enabled := mediaState.videoEnabled))));
      if userId !in participants {
        return;
      }
      participants := participants[userId := participants[userId].(videoEnabled := mediaState.videoEnabled)];
      UpdateMainVideoDisplay();
      SendMediaState();
    }

    /** `stopScreenShare`. */
    method StopScreenShare()
      modifies this`screenStream, this`mediaState, this`shownLayout
      ensures screenStream == None
      ensures mediaState == old(mediaState).(screenSharing := false)
      ensures shownLayout == Some(MainLayout(mediaState.videoEnabled, localStream.Some?, false, mediaState.whiteboardActive))
    {
      screenStream := None;
      mediaState := mediaState.(screenSharing := false);
      UpdateMainVideoDisplay();
    }

    /** `toggleScreenShare`; `display` is what `getDisplayMedia` yields
        (`None`: refused). The screen stream is shown locally only. */
    method ToggleScreenShare(display: Option<MediaStream>)
      modifies this`screenStream, this`mediaState, this`shownLayout
      ensures old(mediaState).screenSharing ==>
        && screenStream == None && mediaState == old(mediaState).(screenSharing := false)
        && shownLayout == Some(MainLayout(mediaState.videoEnabled, localStream.Some?, false, mediaState.whiteboardActive))
      ensures !old(mediaState).screenSharing && display.None? ==>
        screenStream == old(screenStream) && mediaState == old(mediaState) && shownLayout == old(shownLayout)
      ensures !old(mediaState).screenSharing && display.Some? ==>
        && screenStream == display && mediaState == old(mediaState).(screenSharing := true)
        && shownLayout == Some(MainLayout(mediaState.videoEnabled, localStream.Some?, true, mediaState.whiteboardActive))
    {
      if !mediaState.screenSharing {
        if display.None? {
          return;
        }
        screenStream := display;
        mediaState := mediaState.(screenSharing := true);
        UpdateMainVideoDisplay();
      } else {
        StopScreenShare();
      }
    }

    /** `toggleWhiteboard`. */
    method ToggleWhiteboard()
      modifies this`mediaState, this`shownLayout
      ensures mediaState == old(mediaState).(whiteboardActive := !old(mediaState).whiteboardActive)
      ensures shownLayout == Some(MainLayout(mediaState.videoEnabled, localStream.Some?, mediaState.screenSharing, mediaState.whiteboardActive))
    {
      mediaState := mediaState.(whiteboardActive := !mediaState.whiteboardActive);
      UpdateMainVideoDisplay();
    }

    /** `toggleChatView`: only the flag; the tab switch is presentation. */
    method ToggleChatView()
      modifies this`mediaState
      ensures mediaState == old(mediaState).(chatActive := !old(mediaState).chatActive)
    {
      mediaState := mediaState.(chatActive := !mediaState.chatActive);
    }

    // -------------------------------------------------------------- teardown

    /** The connection part of `cleanup`: every open connection is closed and
        forgotten, and so is every remote stream. The roster is kept. */
    method Cleanup()
      requires Valid()
      modifies this`handles, this`peerConnections, this`remoteStreams
      ensures Valid()
      ensures peerConnections == map[] && remoteStreams == map[]
      ensures |handles| == |old(handles)|
      ensures forall h | 0 <= h < |handles| ::
        handles[h] == if old(handles)[h].IsClosed() then old(handles)[h] else Closing(old(handles)[h])
      ensures forall h | 0 <= h < |handles| :: handles[h].IsClosed()
    {
      var pending := peerConnections.Keys;
      while pending != {}
        invariant pending == peerConnections.Keys
        invariant Valid()
        invariant |handles| == |old(handles)|
        invariant forall h | 0 <= h < |handles| ::
          handles[h] == if old(handles)[h].IsClosed() || old(handles)[h].peer in pending then old(handles)[h]
                        else Closing(old(handles)[h])
        decreases pending
      {
        var u :| u in pending;
        ghost var h := peerConnections[u];
        assert handles[h] == old(handles)[h];
        RemovePeerConnection(u);
        pending := pending - {u};
      }
      assert remoteStreams.Keys == {};
    }

    /** `leaveConference`; `confirmed` is the user's answer to the dialog. */
    method LeaveConference(confirmed: bool)
      requires Valid()
      modifies this`outbox, this`handles, this`peerConnections, this`remoteStreams
      ensures Valid()
      ensures !confirmed ==>
        outbox == old(outbox) && handles == old(handles)
        && peerConnections == old(peerConnections) && remoteStreams == old(remoteStreams)
      ensures confirmed ==>
        && outbox == old(outbox) + [LeaveRoom(userId)]
        && peerConnections == map[] && remoteStreams == map[]
        && |handles| == |old(handles)|
        && forall h | 0 <= h < |handles| ::
             handles[h] == if old(handles)[h].IsClosed() then old(handles)[h] else Closing(old(handles)[h])
    {
      if confirmed {
        outbox := outbox + [LeaveRoom(userId)];
        Cleanup();
      }
    }
  }
}
