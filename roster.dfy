/**
 * Participant records and the roster-snapshot filter of the `room-users`
 * handler: which users of a snapshot the page adds.
 */
module Roster {
  import opened Wrappers
  import opened PeerTransport

  datatype User = User(id: string, name: string)

  datatype Participant = Participant(
    id: string,
    name: string,
    audioEnabled: bool,
    videoEnabled: bool,
    stream: Option<MediaStream>,
    isLocal: bool)

  /** The record `addParticipant` and `addLocalParticipant` store: media off, no stream. */
  function FreshParticipant(id: string, name: string, isLocal: bool): Participant {
    Participant(id, name, false, false, None, isLocal)
  }

  /** The users of `users` the `room-users` handler adds, id to name, when the
      local id is `self` and the roster already holds `known`: walking the
      snapshot in order, a user is added unless it is the local user or its id
      is already in the roster (including one added earlier in the walk). */
  function Admitted(users: seq<User>, self: string, known: set<string>): (m: map<string, string>)
    ensures self !in m
    ensures m.Keys !! known
    decreases |users|
  {
    if users == [] then map[]
    else
      var m := Admitted(users[..|users| - 1], self, known);
      var u := users[|users| - 1];
      if u.id != self && u.id !in known && u.id !in m then m[u.id := u.name] else m
  }

  /** One more user of the snapshot is admitted exactly when the rule allows it. */
  lemma AdmittedSnoc(users: seq<User>, i: nat, self: string, known: set<string>)
    requires i < |users|
    ensures Admitted(users[..i + 1], self, known) ==
      var m := Admitted(users[..i], self, known);
      if users[i].id != self && users[i].id !in known && users[i].id !in m then m[users[i].id := users[i].name] else m
  {
    assert users[..i + 1][..i] == users[..i];
  }

  /** An id is admitted exactly when it occurs in the snapshot, is not the
      local id, and is not already in the roster. */
  lemma {:induction false} AdmittedKeys(users: seq<User>, self: string, known: set<string>, k: string)
    ensures k in Admitted(users, self, known)
      <==> k != self && k !in known && exists i :: 0 <= i < |users| && users[i].id == k
    decreases |users|
  {
    if users != [] {
      var init := users[..|users| - 1];
      AdmittedKeys(init, self, known, k);
      if exists i :: 0 <= i < |users| && users[i].id == k {
        var i :| 0 <= i < |users| && users[i].id == k;
        if i < |users| - 1 {
          assert init[i].id == k;
        }
      }
      if exists i :: 0 <= i < |init| && init[i].id == k {
        var i :| 0 <= i < |init| && init[i].id == k;
        assert users[i].id == k;
      }
    }
  }

  /** Each admitted id keeps the name of its FIRST occurrence in the snapshot;
      later duplicates are skipped. */
  lemma {:induction false} AdmittedFirstName(users: seq<User>, self: string, known: set<string>, i: nat)
    requires i < |users| && users[i].id != self && users[i].id !in known
    requires forall j | 0 <= j < i :: users[j].id != users[i].id
    ensures users[i].id in Admitted(users, self, known)
    ensures Admitted(users, self, known)[users[i].id] == users[i].name
    decreases |users|
  {
    var init := users[..|users| - 1];
    if i < |users| - 1 {
      AdmittedFirstName(init, self, known, i);
    } else {
      assert forall j | 0 <= j < |init| :: init[j].id == users[j].id;
      AdmittedKeys(init, self, known, users[i].id);
    }
  }
}
