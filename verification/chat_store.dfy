/**
  The client's store as the program keeps it: a list of User objects
  whose presence flag is changed in place, a list of messages, and the
  receive-side handlers that append to them. Every handler is proved
  against its function in module ChatModel.
 */
module ChatStore {
  import opened ChatModel

  /** A user entry. Its id and name are fixed at construction; its
      presence flag is changed in place. */
  class User {
    const idUser: int
    const username: string
    var onlineStatus: bool

    constructor (idUser: int, username: string, onlineStatus: bool)
      ensures this.idUser == idUser && this.username == username
      ensures this.onlineStatus == onlineStatus
    {
      this.idUser := idUser;
      this.username := username;
      this.onlineStatus := onlineStatus;
    }

    /** The value this entry holds. */
    function Rec(): UserRec
      reads this
    {
      UserRec(idUser, username, onlineStatus)
    }

    method ChangeOnlineStatus(onlineStatus: bool)
      modifies this
      ensures Rec() == old(Rec()).(online := onlineStatus)
    {
      this.onlineStatus := onlineStatus;
    }
  }

  /** users_list and messages_list. */
  class Store {
    var users: seq<User>
    var messages: seq<Message>

    /** Every entry of `users` is its own object. */
    ghost predicate Valid()
      reads this
    {
      forall i, j :: 0 <= i < j < |users| ==> users[i] != users[j]
    }

    ghost function Records(): seq<UserRec>
      reads this, users
    {
      seq(|users|, k reads this, users requires 0 <= k < |users| => users[k].Rec())
    }

    ghost function Snapshot(): State
      reads this, users
    {
      State(Records(), messages)
    }

    /** Every entry of `users` was there at the start of the call, or is new. */
    twostate predicate Grown()
      reads this
    {
      forall k :: 0 <= k < |users| ==> users[k] in old(users) || fresh(users[k])
    }

    constructor ()
      ensures Valid() && Snapshot() == State([], [])
    {
      users := [];
      messages := [];
    }

    /** find_user: a scan that returns at the first user with this id. */
    method FindUser(id: int) returns (name: Option<string>)
      ensures name == ChatModel.FindUser(Records(), id)
    {
      var i := 0;
      while i < |users|
        invariant 0 <= i <= |users|
        invariant ChatModel.FindUser(Records(), id) == ChatModel.FindUser(Records()[i..], id)
      {
        if users[i].idUser == id {
          return Some(users[i].username);
        }
        i := i + 1;
      }
      return None;
    }

    /** get_new_message */
    method GetNewMessage(body: Body) returns (r: Reaction)
      requires Valid()
      modifies this
      ensures Valid() && users == old(users)
      ensures Effect(Snapshot(), r) == NewMessageFrame(old(Snapshot()), body)
    {
      if body.id.None? { return KeyMissing("ID"); }
      if body.ownerId.None? { return KeyMissing("OwnerID"); }
      var owner := FindUser(body.ownerId.value);
      if body.message.None? { return KeyMissing("Message"); }
      if body.date.None? { return KeyMissing("Date"); }
      var m := Message(body.id.value, owner, body.message.value, body.date.value);
      messages := messages + [m];
      r := MountMessage(m);
    }

    /** get_online_status: every user whose id matches takes the flag. */
    method GetOnlineStatus(body: Body) returns (r: Reaction)
      requires Valid()
      modifies users
      ensures Valid()
      ensures Effect(Snapshot(), r) == OnlineStatusFrame(old(Snapshot()), body)
    {
      var changed := false;
      var i := 0;
      while i < |users|
        invariant 0 <= i <= |users|
        invariant i > 0 ==> body.id.Some?
        invariant body.onlineStatus.None? ==> forall k :: 0 <= k < i ==> users[k].idUser != body.id.value
        invariant changed <==> exists k :: 0 <= k < i && users[k].idUser == body.id.value
        invariant forall k :: 0 <= k < i ==>
                    users[k].onlineStatus ==
                      if users[k].idUser == body.id.value then body.onlineStatus.value
                      else old(users[k].onlineStatus)
        invariant forall k :: i <= k < |users| ==> users[k].onlineStatus == old(users[k].onlineStatus)
      {
        if body.id.None? { return KeyMissing("ID"); }
        if users[i].idUser == body.id.value {
          if body.onlineStatus.None? {
            assert Records() == old(Records());
            assert old(Records())[i].id == body.id.value;
            return KeyMissing("OnlineStatus");
          }
          users[i].ChangeOnlineStatus(body.onlineStatus.value);
          changed := true;
        }
        i := i + 1;
      }
      if changed {
        ghost var k :| 0 <= k < i && users[k].idUser == body.id.value;
        assert old(Records())[k].id == body.id.value;
        r := UpdatePresence(body.id.value, body.onlineStatus.value);
      } else {
        r := PresenceUnmatched;
        assert Records() == old(Records());
      }
    }

    /** get_new_user */
    method GetNewUser(body: Body) returns (r: Reaction)
      requires Valid()
      modifies this
      ensures Valid() && Grown()
      ensures r.KeyMissing? ==> users == old(users)
      ensures !r.KeyMissing? ==>
                |users| == |old(users)| + 1 && users[..|old(users)|] == old(users) &&
                fresh(users[|users| - 1])
      ensures Effect(Snapshot(), r) == NewUserFrame(old(Snapshot()), body)
    {
      if body.id.None? { return KeyMissing("ID"); }
      if body.name.None? { return KeyMissing("Name"); }
      if body.onlineStatus.None? { return KeyMissing("OnlineStatus"); }
      var u := new User(body.id.value, body.name.value, body.onlineStatus.value);
      users := users + [u];
      r := MountUser(u.Rec());
    }

    /** delete_message: reads the id and queries the view for a widget
        by a selector that matches none; the store is left alone. */
    method DeleteMessage(body: Body) returns (r: Reaction)
      ensures r == DeleteMessageFrame(Snapshot(), body).reaction
      ensures Raises(r)
      ensures r.KeyMissing? <==> body.id.None?
    {
      if body.id.None? { return KeyMissing("ID"); }
      r := ViewLookupFailed(body.id.value);
    }

    /** One iteration of listen_server on a received frame. */
    method Dispatch(raw: string, body: Body) returns (r: Reaction)
      requires Valid()
      modifies this, users
      ensures Valid() && Grown()
      ensures Effect(Snapshot(), r) == Apply(old(Snapshot()), raw, body)
    {
      if |raw| <= 1 {
        return Skipped;
      }
      match raw[0]
      case '0' => r := GetNewMessage(body);
      case '1' => r := GetOnlineStatus(body);
      case '2' => r := GetNewUser(body);
      case '3' => r := DeleteMessage(body);
      case _ => r := Ignored;
    }

    /** listen_server over the frames it receives, in order, until a
        handler raises an exception other than TimeoutError. */
    method Listen(frames: seq<Frame>) returns (reactions: seq<Reaction>)
      requires Valid()
      modifies this, users
      ensures Valid()
      ensures Trace(Snapshot(), reactions) == Replay(old(Snapshot()), frames)
    {
      reactions := [];
      var i := 0;
      while i < |frames|
        invariant 0 <= i <= |frames|
        invariant Valid() && Grown()
        invariant !Stopped(reactions)
        invariant Trace(Snapshot(), reactions) == Replay(old(Snapshot()), frames[..i])
      {
        var r := Dispatch(frames[i].raw, frames[i].body);
        reactions := reactions + [r];
        assert frames[..i + 1][..i] == frames[..i];
        i := i + 1;
        if Raises(r) {
          ReplayStaysStopped(old(Snapshot()), frames, i);
          return;
        }
      }
      assert frames[..i] == frames;
    }
  }
}
