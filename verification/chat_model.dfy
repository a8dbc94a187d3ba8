/**
  The chat client's entity store as values: what `users_list` and
  `messages_list` hold, what one received frame does to them, and what a
  sequence of received frames does to them. The imperative store in
  module ChatStore is proved against these functions.
 */
module ChatModel {

  datatype Option<T> = None | Some(value: T)

  /** A chat message as the client keeps it. The username is None when
      the owner lookup misses, as find_user then returns nothing. */
  datatype Message = Message(id: int, username: Option<string>, text: string, date: string)

  /** What a User entry holds: its id, its name and its presence flag. */
  datatype UserRec = UserRec(id: int, username: string, online: bool)

  /** The store: users and messages, each in arrival order. */
  datatype State = State(users: seq<UserRec>, messages: seq<Message>)

  /** The JSON object decoded from a frame's body. A field is None when
      the object has no such key. */
  datatype Body = Body(
    id: Option<int>,
    ownerId: Option<int>,
    message: Option<string>,
    date: Option<string>,
    name: Option<string>,
    onlineStatus: Option<bool>)

  /** What handling one frame leads to outside the store: the view call
      it makes, nothing, or the exception that leaves the handler. */
  datatype Reaction =
    | Skipped                     // a frame of length <= 1: the loop goes on
    | Ignored                     // a tag outside '0'..'3'
    | MountMessage(m: Message)
    | UpdatePresence(id: int, online: bool)  // the labels of the matching users
    | PresenceUnmatched           // no user has the id: no view call
    | MountUser(u: UserRec)
    | ViewLookupFailed(id: int)   // NoMatches from the view query: uncaught
    | KeyMissing(key: string)     // KeyError: uncaught

  /** The reaction is an exception, which ends the receive loop: only
      TimeoutError is caught there. */
  predicate Raises(r: Reaction) {
    r.KeyMissing? || r.ViewLookupFailed?
  }

  /** The store after a frame, and the frame's reaction. */
  datatype Effect = Effect(after: State, reaction: Reaction)

  /** A received frame: its raw text, and the object decoded from the
      text after the tag (irrelevant when the frame is too short). */
  datatype Frame = Frame(raw: string, body: Body)

  /** The store after a run of frames, and one reaction per frame handled. */
  datatype Trace = Trace(after: State, reactions: seq<Reaction>)

  // ---------------------------------------------------------------------
  // Looking a user up by id

  predicate HasUser(users: seq<UserRec>, id: int) {
    exists i :: 0 <= i < |users| && users[i].id == id
  }

  /** Index i holds the first user whose id is `id`. */
  predicate IsFirstMatch(users: seq<UserRec>, id: int, i: int) {
    0 <= i < |users| && users[i].id == id &&
    forall j :: 0 <= j < i ==> users[j].id != id
  }

  /** find_user: the name of the first user with this id, or nothing. */
  function FindUser(users: seq<UserRec>, id: int): (r: Option<string>)
    ensures r.None? <==> !HasUser(users, id)
    ensures forall i :: IsFirstMatch(users, id, i) ==> r == Some(users[i].username)
  {
    if users == [] then None
    else if users[0].id == id then Some(users[0].username)
    else
      var r := FindUser(users[1..], id);
      assert forall i :: IsFirstMatch(users, id, i) ==> IsFirstMatch(users[1..], id, i - 1);
      assert HasUser(users[1..], id) ==> HasUser(users, id);
      assert HasUser(users, id) ==> HasUser(users[1..], id) by {
        if HasUser(users, id) {
          var i :| 0 <= i < |users| && users[i].id == id;
          assert users[1..][i - 1].id == id;
        }
      }
      r
  }

  // ---------------------------------------------------------------------
  // The four handlers as functions of the store

  /** Every user whose id is `id` takes the presence flag `online`. */
  function SetPresence(users: seq<UserRec>, id: int, online: bool): seq<UserRec> {
    seq(|users|, k requires 0 <= k < |users| =>
      if users[k].id == id then users[k].(online := online) else users[k])
  }

  /** Tag '0': build a message (keys read in the order ID, OwnerID,
      Message, Date) and append it. */
  function NewMessageFrame(s: State, body: Body): Effect {
    if body.id.None? then Effect(s, KeyMissing("ID"))
    else if body.ownerId.None? then Effect(s, KeyMissing("OwnerID"))
    else if body.message.None? then Effect(s, KeyMissing("Message"))
    else if body.date.None? then Effect(s, KeyMissing("Date"))
    else
      var m := Message(body.id.value, FindUser(s.users, body.ownerId.value),
                       body.message.value, body.date.value);
      Effect(s.(messages := s.messages + [m]), MountMessage(m))
  }

  /** Tag '1': the scan reads the ID key once per user, and the
      OnlineStatus key only on a match, so a missing key raises only
      when the scan reaches the read; no user has changed by then. */
  function OnlineStatusFrame(s: State, body: Body): Effect {
    if s.users == [] then Effect(s, PresenceUnmatched)
    else if body.id.None? then Effect(s, KeyMissing("ID"))
    else if !HasUser(s.users, body.id.value) then Effect(s, PresenceUnmatched)
    else if body.onlineStatus.None? then Effect(s, KeyMissing("OnlineStatus"))
    else
      Effect(s.(users := SetPresence(s.users, body.id.value, body.onlineStatus.value)),
             UpdatePresence(body.id.value, body.onlineStatus.value))
  }

  /** Tag '2': build a user (keys ID, Name, OnlineStatus) and append it. */
  function NewUserFrame(s: State, body: Body): Effect {
    if body.id.None? then Effect(s, KeyMissing("ID"))
    else if body.name.None? then Effect(s, KeyMissing("Name"))
    else if body.onlineStatus.None? then Effect(s, KeyMissing("OnlineStatus"))
    else
      var u := UserRec(body.id.value, body.name.value, body.onlineStatus.value);
      Effect(s.(users := s.users + [u]), MountUser(u))
  }

  /** Tag '3': the store is left alone; the view is queried with the
      selector `message_<ID>`, which names no widget type of this client,
      so the query raises NoMatches. */
  function DeleteMessageFrame(s: State, body: Body): Effect {
    if body.id.None? then Effect(s, KeyMissing("ID"))
    else Effect(s, ViewLookupFailed(body.id.value))
  }

  /** One received frame: skip it when it has at most one character,
      otherwise dispatch on its first character. */
  function Apply(s: State, raw: string, body: Body): Effect {
    if |raw| <= 1 then Effect(s, Skipped)
    else
      match raw[0]
      case '0' => NewMessageFrame(s, body)
      case '1' => OnlineStatusFrame(s, body)
      case '2' => NewUserFrame(s, body)
      case '3' => DeleteMessageFrame(s, body)
      case _ => Effect(s, Ignored)
  }

  /** The receive loop has ended: its last frame raised. */
  predicate Stopped(reactions: seq<Reaction>) {
    |reactions| > 0 && Raises(reactions[|reactions| - 1])
  }

  /** The receive loop over `frames`, in order, until a frame raises. */
  function Replay(s: State, frames: seq<Frame>): (t: Trace)
    ensures |t.reactions| <= |frames|
    ensures !Stopped(t.reactions) ==> |t.reactions| == |frames|
    decreases |frames|
  {
    if frames == [] then Trace(s, [])
    else
      var t := Replay(s, frames[..|frames| - 1]);
      if Stopped(t.reactions) then t
      else
        var f := frames[|frames| - 1];
        var e := Apply(t.after, f.raw, f.body);
        Trace(e.after, t.reactions + [e.reaction])
  }

  /** The frames of length greater than one, in order. */
  function LongFrames(frames: seq<Frame>): seq<Frame> {
    if frames == [] then []
    else
      var f := frames[|frames| - 1];
      LongFrames(frames[..|frames| - 1]) + (if |f.raw| > 1 then [f] else [])
  }

  // ---------------------------------------------------------------------
  // Lemmas

  /** A frame of length at most one changes nothing. */
  lemma ShortFrameIsNoop(s: State, raw: string, body: Body)
    requires |raw| <= 1
    ensures Apply(s, raw, body) == Effect(s, Skipped)
  {
  }

  /** A tag outside '0'..'3' changes nothing. */
  lemma UnknownTagIsNoop(s: State, raw: string, body: Body)
    requires |raw| > 1 && raw[0] !in {'0', '1', '2', '3'}
    ensures Apply(s, raw, body) == Effect(s, Ignored)
  {
  }

  /** Tag '3' leaves both lists as they were, and always raises. */
  lemma DeleteFrameKeepsStore(s: State, raw: string, body: Body)
    requires |raw| > 1 && raw[0] == '3'
    ensures Apply(s, raw, body).after == s
    ensures Raises(Apply(s, raw, body).reaction)
    ensures Apply(s, raw, body).reaction ==
              if body.id.Some? then ViewLookupFailed(body.id.value) else KeyMissing("ID")
  {
  }

  /** Tag '0' appends exactly one message at the end, carrying the body's
      fields and the owner's name as find_user finds it; users stay. */
  lemma NewMessageAppends(s: State, raw: string, body: Body)
    requires |raw| > 1 && raw[0] == '0'
    ensures Apply(s, raw, body).after.users == s.users
    ensures !Apply(s, raw, body).reaction.KeyMissing? <==>
              body.id.Some? && body.ownerId.Some? && body.message.Some? && body.date.Some?
    ensures Apply(s, raw, body).reaction.KeyMissing? ==> Apply(s, raw, body).after == s
    ensures !Apply(s, raw, body).reaction.KeyMissing? ==>
              var ms := Apply(s, raw, body).after.messages;
              |ms| == |s.messages| + 1 && ms[..|s.messages|] == s.messages &&
              ms[|s.messages|] == Message(body.id.value, FindUser(s.users, body.ownerId.value),
                                           body.message.value, body.date.value)
  {
  }

  /** Tag '2' appends exactly one user at the end; messages stay. */
  lemma NewUserAppends(s: State, raw: string, body: Body)
    requires |raw| > 1 && raw[0] == '2'
    ensures Apply(s, raw, body).after.messages == s.messages
    ensures !Apply(s, raw, body).reaction.KeyMissing? <==>
              body.id.Some? && body.name.Some? && body.onlineStatus.Some?
    ensures Apply(s, raw, body).reaction.KeyMissing? ==> Apply(s, raw, body).after == s
    ensures !Apply(s, raw, body).reaction.KeyMissing? ==>
              var us := Apply(s, raw, body).after.users;
              |us| == |s.users| + 1 && us[..|s.users|] == s.users &&
              us[|s.users|] == UserRec(body.id.value, body.name.value, body.onlineStatus.value)
  {
  }

  /** SetPresence keeps length, order, ids and names, sets the flag of
      every matching user and of no other. */
  lemma SetPresenceAt(users: seq<UserRec>, id: int, online: bool, k: int)
    requires 0 <= k < |users|
    ensures |SetPresence(users, id, online)| == |users|
    ensures SetPresence(users, id, online)[k].id == users[k].id
    ensures SetPresence(users, id, online)[k].username == users[k].username
    ensures SetPresence(users, id, online)[k].online ==
              if users[k].id == id then online else users[k].online
  {
  }

  /** Tag '1' sets the flag of every user with the body's id, leaves
      every other user, the length and order, and the messages as they
      were; a missing key changes nothing. */
  lemma OnlineStatusUpdatesAllMatches(s: State, raw: string, body: Body)
    requires |raw| > 1 && raw[0] == '1'
    ensures Apply(s, raw, body).after.messages == s.messages
    ensures |Apply(s, raw, body).after.users| == |s.users|
    ensures Apply(s, raw, body).reaction.KeyMissing? ==> Apply(s, raw, body).after == s
    ensures Apply(s, raw, body).reaction.KeyMissing? <==>
              (s.users != [] && body.id.None?) ||
              (body.id.Some? && body.onlineStatus.None? && HasUser(s.users, body.id.value))
    ensures Apply(s, raw, body).reaction.UpdatePresence? <==>
              body.id.Some? && body.onlineStatus.Some? && HasUser(s.users, body.id.value)
    ensures Apply(s, raw, body).reaction.UpdatePresence? ==>
              Apply(s, raw, body).reaction == UpdatePresence(body.id.value, body.onlineStatus.value)
    ensures forall k :: 0 <= k < |s.users| ==>
              var u := Apply(s, raw, body).after.users[k];
              u.id == s.users[k].id && u.username == s.users[k].username &&
              u.online == if body.id.Some? && body.onlineStatus.Some? && s.users[k].id == body.id.value
                          then body.onlineStatus.value else s.users[k].online
  {
  }

  /** SetPresence applied twice is SetPresence applied once. */
  lemma SetPresenceIdempotent(users: seq<UserRec>, id: int, online: bool)
    ensures SetPresence(SetPresence(users, id, online), id, online) == SetPresence(users, id, online)
  {
  }

  /** Applying the same '1' frame twice yields the store and reaction of
      applying it once. */
  lemma OnlineStatusIdempotent(s: State, raw: string, body: Body)
    requires |raw| > 1 && raw[0] == '1'
    ensures Apply(Apply(s, raw, body).after, raw, body) == Apply(s, raw, body)
  {
    if s.users != [] && body.id.Some? && body.onlineStatus.Some? && HasUser(s.users, body.id.value) {
      var k :| 0 <= k < |s.users| && s.users[k].id == body.id.value;
      SetPresenceAt(s.users, body.id.value, body.onlineStatus.value, k);
      SetPresenceIdempotent(s.users, body.id.value, body.onlineStatus.value);
    }
  }

  /** Appending a user is seen by a lookup only when no earlier user has
      the same id: the first match wins. */
  lemma {:induction false} FindUserAppend(users: seq<UserRec>, u: UserRec, id: int)
    ensures FindUser(users + [u], id) ==
              if HasUser(users, id) then FindUser(users, id)
              else if u.id == id then Some(u.username)
              else None
  {
    if users == [] {
      assert users + [u] == [u];
    } else {
      assert (users + [u])[1..] == users[1..] + [u];
      FindUserAppend(users[1..], u, id);
      if users[0].id != id {
        assert HasUser(users, id) ==> HasUser(users[1..], id) by {
          if HasUser(users, id) {
            var i :| 0 <= i < |users| && users[i].id == id;
            assert users[1..][i - 1].id == id;
          }
        }
        assert HasUser(users[1..], id) ==> HasUser(users, id) by {
          if HasUser(users[1..], id) {
            var i :| 0 <= i < |users[1..]| && users[1..][i].id == id;
            assert users[i + 1].id == id;
          }
        }
      } else {
        assert HasUser(users, id) by { assert users[0].id == id; }
      }
    }
  }

  /** After a '2' frame, its id resolves to its name unless an earlier
      user already had that id; every other id resolves as before. */
  lemma NewUserLookup(s: State, raw: string, body: Body, id: int)
    requires |raw| > 1 && raw[0] == '2'
    requires body.id.Some? && body.name.Some? && body.onlineStatus.Some?
    ensures FindUser(Apply(s, raw, body).after.users, id) ==
              if id == body.id.value && !HasUser(s.users, id) then Some(body.name.value)
              else FindUser(s.users, id)
  {
    FindUserAppend(s.users, UserRec(body.id.value, body.name.value, body.onlineStatus.value), id);
  }

  /** A presence update never changes what a lookup by id returns. */
  lemma {:induction false} SetPresenceKeepsLookup(users: seq<UserRec>, id: int, online: bool, x: int)
    ensures FindUser(SetPresence(users, id, online), x) == FindUser(users, x)
  {
    if users != [] {
      var after := SetPresence(users, id, online);
      assert after[1..] == SetPresence(users[1..], id, online);
      SetPresenceKeepsLookup(users[1..], id, online, x);
      SetPresenceAt(users, id, online, 0);
    }
  }

  /** Once the loop has stopped, later frames change nothing. */
  lemma {:induction false} ReplayStaysStopped(s: State, frames: seq<Frame>, i: nat)
    requires i <= |frames|
    requires Stopped(Replay(s, frames[..i]).reactions)
    ensures Replay(s, frames) == Replay(s, frames[..i])
    decreases |frames| - i
  {
    if i < |frames| {
      assert frames[..i + 1][..i] == frames[..i];
      ReplayStaysStopped(s, frames, i + 1);
    } else {
      assert frames[..i] == frames;
    }
  }

  /** Replaying `a` then `b` is replaying `b` from where `a` left the
      store: the store is the fold of Apply over the frames in order. */
  lemma {:induction false} ReplayConcat(s: State, a: seq<Frame>, b: seq<Frame>)
    ensures Replay(s, a + b) ==
              var ta := Replay(s, a);
              if Stopped(ta.reactions) then ta
              else
                var tb := Replay(ta.after, b);
                Trace(tb.after, ta.reactions + tb.reactions)
    decreases |b|
  {
    var ta := Replay(s, a);
    if b == [] {
      assert a + b == a;
    } else {
      var b' := b[..|b| - 1];
      assert (a + b)[..|a + b| - 1] == a + b';
      ReplayConcat(s, a, b');
      if !Stopped(ta.reactions) {
        var tb' := Replay(ta.after, b');
        if !Stopped(tb'.reactions) {
          assert !Stopped(ta.reactions + tb'.reactions) by {
            if tb'.reactions != [] {
              assert (ta.reactions + tb'.reactions)[|ta.reactions + tb'.reactions| - 1]
                  == tb'.reactions[|tb'.reactions| - 1];
            }
          }
          assert ta.reactions + tb'.reactions + [Replay(ta.after, b).reactions[|Replay(ta.after, b).reactions| - 1]]
              == ta.reactions + Replay(ta.after, b).reactions;
        } else {
          assert (ta.reactions + tb'.reactions)[|ta.reactions + tb'.reactions| - 1]
              == tb'.reactions[|tb'.reactions| - 1];
        }
      }
    }
  }

  /** A '3' frame that carries an ID ends the receive loop: the frames
      after it are never handled, and the store stays as it was before it. */
  lemma DeleteFrameEndsLoop(s: State, a: seq<Frame>, f: Frame, b: seq<Frame>)
    requires |f.raw| > 1 && f.raw[0] == '3' && f.body.id.Some?
    requires !Stopped(Replay(s, a).reactions)
    ensures Replay(s, a + [f] + b) ==
              Trace(Replay(s, a).after, Replay(s, a).reactions + [ViewLookupFailed(f.body.id.value)])
  {
    assert (a + [f])[..|a + [f]| - 1] == a;
    ReplayConcat(s, a + [f], b);
  }

  /** Frames of length at most one can be dropped from a run: the store
      it ends with, and whether it stopped, stay the same. */
  lemma {:induction false} ReplayIgnoresShortFrames(s: State, frames: seq<Frame>)
    ensures Replay(s, LongFrames(frames)).after == Replay(s, frames).after
    ensures Stopped(Replay(s, LongFrames(frames)).reactions) <==> Stopped(Replay(s, frames).reactions)
    decreases |frames|
  {
    if frames != [] {
      var init := frames[..|frames| - 1];
      var f := frames[|frames| - 1];
      ReplayIgnoresShortFrames(s, init);
      var t := Replay(s, init);
      var tl := Replay(s, LongFrames(init));
      if |f.raw| > 1 {
        assert LongFrames(frames)[..|LongFrames(frames)| - 1] == LongFrames(init);
      } else {
        assert LongFrames(frames) == LongFrames(init);
        if !Stopped(t.reactions) {
          assert (t.reactions + [Skipped])[|t.reactions|] == Skipped;
        }
      }
    }
  }
}
