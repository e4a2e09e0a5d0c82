# Conference page and session service, modelled in Dafny

This project models two classes of a browser client for multi-party video
meetings.

The first is `VideoConference`, the meeting page. It keeps:

- a roster of participants;
- one `RTCPeerConnection` per remote user, in a mesh;
- the remote streams those connections deliver;
- the local camera and microphone state.

It reacts to socket events (`room-users`, `user-joined`, `user-left`,
`media-state`, offers, answers, candidates), to connection callbacks
(`onnegotiationneeded`, the initial-offer timeout, `onicecandidate`,
`ontrack`) and to the page's buttons (audio, video, screen share,
whiteboard, chat, leave).

The second is `AuthService`, the session service. It covers sign-in,
sign-up, the session check, logout, and a single-flight refresh of the
access token. A refresh started while another is in flight does not send a
second request: the caller is queued, and every queued caller is settled
when the refresh ends.

Modules:

- `Wrappers`: `Option`.
- `ConferenceView`: pure calculations. These are which element fills the
  main area, the meeting timer's split of elapsed milliseconds, and the
  participant total.
- `PeerTransport`: one connection object as a value. It holds its user,
  signaling state, whether a remote description is set, the track id of
  each kind's sender, whether the initial-offer timeout is still armed, and
  the log of calls made on it.
- `Roster`: the participant record and `Admitted`, the users a
  `room-users` snapshot adds.
- `Conference`: the class `VideoConference`. Connection objects live in
  `handles`, a sequence that only grows; closed connections stay in it.
  `peerConnections` maps a user id to an index into `handles`. A callback of
  a connection is a method taking that index. This mirrors the source's
  closures, which capture the connection object rather than the map entry.
  `Valid()` ties the map to the open connections: every registered id names
  an open connection created for it, every open connection is the one
  registered for its user, and remote streams exist only for connected
  users.
- `Auth`: the class `AuthService`. Every promise handed to a queued caller
  gets a waiter number. `Valid()` says two things. The queue is empty unless
  a refresh is in flight. The settled waiters followed by the queued ones
  are exactly the numbers handed out, in order. By `SettledInIssueOrder`
  this means no waiter is settled twice or out of turn.

Whatever the browser or the network decides is a parameter of the method
that awaits it:

- the stream `getUserMedia` grants;
- whether `setRemoteDescription` or `createAnswer` succeed;
- the reply of each `fetch`.

Socket emissions and HTTP requests are appended to the logs `outbox` and
`requests`.

## Model

| member | source | states |
|---|---|---|
| Conference.VideoConference.constructor | static/JS/conference.js:3-45 | the roster holds only the local participant, with both flags off and no stream; no connections, streams or intervals; media state all off |
| Conference.VideoConference.AddParticipant | static/JS/conference.js:775-792 | an id already present keeps its entry unchanged; a new id gets a fresh entry with both flags off and no stream |
| Conference.VideoConference.RemoveParticipant | static/JS/conference.js:794-811 | the id leaves the roster and its status interval stops; every other id is untouched |
| Conference.VideoConference.UpdateParticipantCount | static/JS/conference.js:851-862 | the shown total is the roster size, and at least one |
| ConferenceView.DisplayedTotal | static/JS/conference.js:851-853 | `max(size - 1 + 1, 1)` is never below one, and equals the roster size whenever the roster is not empty |
| Roster.Admitted | static/JS/conference.js:169-174 | the users a snapshot adds, walked in order: the local id and ids already in the roster are never admitted |
| Roster.AdmittedKeys | static/JS/conference.js:169-174 | an id is admitted by a snapshot exactly when it occurs in the snapshot, is not the local id and is not already in the roster (both directions) |
| Roster.AdmittedFirstName | static/JS/conference.js:169-174 | an admitted id keeps the name of its first occurrence; later duplicates in the snapshot are skipped |
| Conference.VideoConference.AdmitSnapshot | static/JS/conference.js:169-174 | the `forEach` over the snapshot: the roster gains a fresh remote entry for exactly the admitted ids; each admitted id without a connection gets one new connection built from the local stream; existing entries and connections are untouched; `Valid()` is kept |
| Conference.VideoConference.AdmitRemote | static/JS/conference.js:171-172 | for an id not in the roster: a fresh remote entry is added; an id already connected keeps its connection, otherwise exactly one new connection from the local stream is appended and registered; `Valid()` is kept |
| Conference.VideoConference.AdmitFromSnapshot | static/JS/conference.js:170-173 | one step of the snapshot walk: the user is admitted exactly when it is not the local id, not in the original roster and not admitted earlier in the walk, and the accumulated admission stays exact |
| Conference.VideoConference.OnRoomUsers | static/JS/conference.js:164-177 | the socket id is recorded, the snapshot is admitted as above, and the total is redrawn from the new roster |
| Conference.VideoConference.OnUserJoined | static/JS/conference.js:179-187 | a known id changes nothing; a new id gets an entry, a connection unless it already had one, and a redrawn total |
| Conference.VideoConference.OnUserLeft | static/JS/conference.js:189-195 | the id leaves the roster, the interval set, the connection map and the remote streams; its connection, if any, is closed, and no other connection changes |
| Conference.VideoConference.OnMediaState | static/JS/conference.js:212-219 | a known id takes the announced flags and keeps everything else; an unknown id changes nothing |
| Conference.VideoConference.CreatePeerConnection | static/JS/conference.js:450-564 | idempotent: a known id gets its stored connection back and nothing is created; otherwise exactly one new connection is registered under the id at the end of `handles` |
| PeerTransport.NewHandle | static/JS/conference.js:469-477 | a new connection is stable, open, has no remote description, has its initial-offer timeout armed, and has a sender exactly for each track of the local stream; its only calls are track additions |
| PeerTransport.AddTrackTo | static/JS/conference.js:474 | `addTrack` gives the kind a sender carrying the track, leaves the other kind's sender alone and logs exactly one call |
| Conference.VideoConference.RemovePeerConnection | static/JS/conference.js:813-820 | the id's connection is closed and forgotten and its remote stream dropped; all other connections are unchanged |
| PeerTransport.Closing | static/JS/conference.js:815 | `close()` leaves the connection closed, for the same user, with one close call logged |
| Conference.VideoConference.OnNegotiationNeeded | static/JS/conference.js:532-552 | on an open connection whose offer steps succeed, the state becomes have-local-offer and exactly one offer goes to that connection's user; otherwise nothing changes |
| PeerTransport.LocalOfferSet | static/JS/conference.js:535-539 | after `setLocalDescription(offer)` the connection is in have-local-offer, still open, with user, calls and remote description kept |
| Conference.VideoConference.OnOfferTimer | static/JS/conference.js:557-561 | the timeout fires once; only a connection that is still stable then starts negotiation |
| Conference.VideoConference.OnLocalCandidate | static/JS/conference.js:480-489 | each real candidate of an open connection goes out once to its user; the end-of-gathering event sends nothing |
| Conference.VideoConference.OnTrack | static/JS/conference.js:491-518 | the first stream of the event replaces the user's remote stream; a user in the roster also gets it on the entry and a status interval; an event without streams changes nothing |
| Conference.VideoConference.HandleOffer | static/JS/conference.js:566-591 | an unknown sender first gets a connection; the description steps are applied in order up to the first failure; an answer is sent exactly when both steps succeed |
| PeerTransport.OfferAnswered | static/JS/conference.js:575-578 | a failed `setRemoteDescription` leaves the connection as it was; after it succeeds a remote description is set, and the state is stable only if the answer steps also succeed |
| Conference.VideoConference.HandleAnswer | static/JS/conference.js:593-607 | an answer for a known sender that applies sets the remote description and makes the connection stable; otherwise nothing changes |
| PeerTransport.AnswerApplied | static/JS/conference.js:599 | an applied answer sets the remote description and makes the connection stable, keeping its user, senders and calls |
| Conference.VideoConference.HandleIceCandidate | static/JS/conference.js:609-623 | a candidate is applied only to a known sender's connection that has a remote description; any other candidate is dropped, not kept |
| PeerTransport.CandidateApplied | static/JS/conference.js:615 | `addIceCandidate` logs exactly that candidate and changes neither the user nor the signaling state |
| Conference.VideoConference.UpdatePeerConnectionTracks | static/JS/conference.js:351-385 | with a connection and a local stream, that connection alone is synchronised with the local tracks; otherwise nothing changes |
| PeerTransport.SyncKind | static/JS/conference.js:358-370 | after the step the sender of the kind carries exactly the local track of that kind, by replace, add or remove, and the other kind's sender is untouched |
| PeerTransport.SyncTracks | static/JS/conference.js:351-385 | after audio then video are synchronised, each sender carries exactly the local track of its kind, with user and signaling state kept |
| PeerTransport.SyncTracksPerKind | static/JS/conference.js:351-385 | after both steps each sender carries exactly the local track of its kind; the user, signaling state and earlier calls are kept, and at most two calls are added |
| Conference.VideoConference.UpdateAllPeerConnectionTracks | static/JS/conference.js:320-322 | every open connection, and only those, is synchronised with the local stream, whatever the order in which the ids are visited |
| Conference.VideoConference.AdoptStream | static/JS/conference.js:296-312 | the granted stream becomes the local stream and its tracks' flags are copied into the media state and the local entry; with no local entry the first such write throws |
| Conference.VideoConference.InitializeMedia | static/JS/conference.js:265-349 | a refusal changes nothing; a grant adopts the stream, synchronises every open connection, redraws the main area and announces the media state exactly once, unless the local entry is missing |
| Conference.VideoConference.SendMediaState | static/JS/conference.js:387-396 | one `media-state` message carrying the current flags |
| Conference.VideoConference.ToggleAudio | static/JS/conference.js:398-425 | with an audio track, the track flag, the media state and the local entry all become the negation of the old track flag, and one message goes out; without one, media is requested as in `InitializeMedia` |
| Conference.VideoConference.ToggleVideo | static/JS/conference.js:427-448 | as for audio with the video track; the main area is also redrawn before the message |
| Conference.VideoConference.UpdateMainVideoDisplay | static/JS/conference.js:939-969 | the shown layout is the one the if-chain picks for the current flags |
| ConferenceView.MainLayout | static/JS/conference.js:939-969 | exactly one of the four elements is shown |
| ConferenceView.MainLayoutPrefers | static/JS/conference.js:939-969 | the shown element is the first of whiteboard, screen share, camera and placeholder that has something to show |
| Conference.VideoConference.StopScreenShare | static/JS/conference.js:899-912 | the screen stream is gone, sharing is off, and the main area is redrawn |
| Conference.VideoConference.ToggleScreenShare | static/JS/conference.js:864-897 | when not sharing, a granted screen turns sharing on and a refused one changes nothing; when sharing, it stops |
| Conference.VideoConference.ToggleWhiteboard | static/JS/conference.js:914-927 | the whiteboard flag flips and the main area is redrawn |
| Conference.VideoConference.ToggleChatView | static/JS/conference.js:929-937 | only the chat flag flips |
| Conference.VideoConference.Cleanup | static/JS/conference.js:1190-1192 | every connection ends up closed, each previously open one by exactly one close; the connection map and the remote streams are empty; the roster is kept |
| Conference.VideoConference.LeaveConference | static/JS/conference.js:1152-1165 | when confirmed, one `leave-room` message goes out and then everything is cleaned up; when not, nothing changes |
| ConferenceView.MeetingClockExact | static/JS/conference.js:977-982 | for a non-negative elapsed time the timer reads hours, minutes below 60 and seconds below 60, and is the elapsed time cut to whole seconds |
| ConferenceView.MeetingClockBeforeStart | static/JS/conference.js:977-982 | before the start time, JavaScript's truncating `%` makes every component zero or negative: hours below zero, minutes and seconds from -60 to 0 |
| ConferenceView.MeetingClock | static/JS/conference.js:979-982 | for any elapsed time the hours are non-negative exactly when the elapsed time is, and minutes and seconds lie from -60 to 59 |
| ConferenceView.JsRem | static/JS/conference.js:981-982 | JavaScript's `%` differs from the dividend by a multiple of the divisor and takes the dividend's sign: from 0 to below the divisor for a non-negative dividend, from above minus the divisor to 0 otherwise |
| Auth.AuthService.constructor | static/JS/auth.js:2-6 | not refreshing, empty queue, not signed in |
| Auth.AuthService.Login | static/JS/auth.js:8-26 | signs in exactly on an ok answer; otherwise it returns the server's `error` field and leaves the flag as it was; an unreadable error body or a failed fetch rejects |
| Auth.AuthService.Register | static/JS/auth.js:28-46 | as login, except the body is read first, so an unreadable body rejects even with an ok status |
| Auth.AuthService.Logout | static/JS/auth.js:136-148 | one logout request, the flag is false, and the page goes to `/` |
| Auth.AuthService.HandleRefreshTokenExpired | static/JS/auth.js:86-90 | logs out and shows one banner |
| Auth.AuthService.IsAuthenticated | static/JS/auth.js:150-170 | the result and the new flag are both whether the check answered ok; a failed fetch counts as false |
| Auth.AuthService.MonitorTick | static/JS/auth.js:173-182 | a signed-out page sends nothing and stays where it is; a signed-in page checks, stays on a successful check, and drops the session and goes to `/` if the check fails |
| Auth.AuthService.BeginRefresh | static/JS/auth.js:48-61 | while a refresh is in flight, exactly one new waiter is appended and no request is sent; otherwise the flag is raised and one refresh request goes out |
| Auth.AuthService.SettleQueue | static/JS/auth.js:65 | the `forEach`: the settlements gained are those of the queue, in order |
| Auth.AuthService.CompleteRefresh | static/JS/auth.js:57-84 | every queued waiter is settled with the refresh's one outcome, in queue order; the queue is empty and the flag is lowered on both paths; the session is dropped exactly when the thrown message is one of the two expiry strings |
| Auth.AuthService.EndRefresh | static/JS/auth.js:72-80 | the result is `true` or the thrown message; logout and the banner happen exactly for the two expiry strings |
| Auth.RefreshError | static/JS/auth.js:63-71 | the refresh fails exactly when the answer is not ok or the fetch failed; a parsed error body yields its non-empty `error` field, or `REFRESH_FAILED` when the field is missing or empty; an unreadable body and a failed fetch yield their own message |
| Auth.IsExpired | static/JS/auth.js:76 | the two expiry strings drop the session; the generic `REFRESH_FAILED` message does not |
| Auth.SettleAll | static/JS/auth.js:65-73 | the `forEach` over the queue gives exactly one settlement per queued waiter |
| Auth.SettleAllAt | static/JS/auth.js:65-74 | the i-th settlement is for the i-th queued waiter, resolved on success and rejected with the same message on failure |
| Auth.SettledWaiters | static/JS/auth.js:65-74 | settling a queue settles exactly its waiters, each once, in queue order |
| Auth.DrainKeepsIssueOrder | static/JS/auth.js:72-82 | draining the whole queue keeps every waiter handed out accounted for, now all settled |
| Auth.SettledInIssueOrder | static/JS/auth.js:48-84 | under the service invariant, the i-th settlement belongs to waiter i and the queue holds the following waiters in order: no waiter is settled twice or skipped |
| Auth.AuthenticatedRequest | static/JS/auth.js:115-134 | the request is sent again only after a 401 and a successful refresh, so at most twice; a non-401 first response is returned unchanged; a 401 with a failed refresh returns null; the session is dropped exactly when null is returned |
| Auth.AuthService.MakeAuthenticatedRequest | static/JS/auth.js:115-134 | the requests and the session follow that decision: one or two requests for the url, then a logout exactly when null is returned |

## Left out

- User ids are taken to be plain keys. The roster and connection maps are
  plain JavaScript objects, so an id naming an `Object.prototype` property
  (`constructor`, `toString`, `__proto__`) is found by the code's lookups
  even when no entry was stored. Such an id is not modelled: the model
  admits and connects it as any other id.
- The DOM is not modelled: thumbnails, list items, button classes,
  notifications, tabs, panel layout, the chat view, and the session banner's
  markup. Only the state decisions are kept: which element fills the main
  area, the number shown, and how many banners appear.
- The socket connection itself is not modelled: `connect`/`connected`,
  joining the room, chat messages and `socket.disconnect()`. The socket is
  taken to exist, so every `if (this.socket)` guard passes.
- Timers and polling are not modelled as such:
  - The remote-status interval is only the set of ids for which one runs;
    its one-second tick, which copies the remote track flags into the
    roster, is not modelled.
  - The meeting timer is modelled only as the split of an elapsed time.
  - The offer timeout is modelled as an event the connection receives.
- Audio analysis and the speaking indicator (`setupAudioAnalysis`,
  `checkSpeakingActivity`), `getRandomColor`, `generateUserId` and the
  `localStorage` entry are presentation or identity plumbing and are left
  out.
- Browser media and transport are outcome parameters:
  - SDP contents and ICE configuration are not represented.
  - `track.stop()` calls are not represented.
  - The legality of signaling transitions is not checked; only the outcome
    each step reports is used.
  - `oniceconnectionstatechange` only logs and is left out.
- Conference.VideoConference.InitializeMedia: the case where a stream has
  tracks other than those requested is excluded by its precondition, since
  `getUserMedia` grants what the constraints ask for.
- Conference.VideoConference.LeaveConference: the final navigation to `/`
  is not modelled.
- Auth.AuthService.MakeAuthenticatedRequest: the refresh it awaits is an
  argument. The refresh's own request and queueing are the business of
  `BeginRefresh` and `CompleteRefresh`, which a caller interleaves with
  other events.
- Auth.AuthService.CompleteRefresh: a parsed error body that is not an
  object (JSON `null`, a number) is not modelled; `error` is either a
  string or absent.
- Concurrency is modelled as run-to-completion event handlers. An `await`
  inside a handler is either a parameter or a split into two methods, as
  with the refresh.
- The code has none of the following, and neither does the model:
  - There is no per-peer buffer of early ICE candidates; a candidate that
    arrives before the remote description is dropped.
  - There is no polite/impolite glare resolution and no renegotiation
    counter.
  - There is no camera/screen classification of incoming streams; the
    first stream of each `ontrack` event overwrites the previous one.
  - Screen sharing is shown locally only and never touches the peer
    connections.
  - `cleanup` clears connections and remote streams but keeps the roster
    and the status intervals.
