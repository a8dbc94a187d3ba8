# Chat client session state, modelled in Dafny

This project models the client-side state of a small terminal chat client
(`main.py`). Frames from the chat server and the user's Enter key act on
that state. There are three parts:

- **The entity store.** `users_list` and `messages_list` are global lists
  kept in arrival order. Four frame handlers change them:
  - `get_new_message` (tag `'0'`)
  - `get_online_status` (tag `'1'`)
  - `get_new_user` (tag `'2'`)
  - `delete_message` (tag `'3'`)

  `find_user` resolves a message owner's id to a name. It is a linear scan
  that returns at the first match and returns nothing on a miss.
- **Frame dispatch.** `listen_server` skips a received string of at most one
  character. Otherwise it takes the first character as the tag and decodes
  the rest as a JSON object. It hands that object to the handler for the
  tag. Any other tag falls through and does nothing. The loop catches
  only `TimeoutError`. So any other exception from a handler ends the
  receive loop: a `KeyError` for a missing key, or the view query's
  `NoMatches`.
- **The outbound queue.** `key_enter` appends one `{OwnerID, Message}`
  payload to `waiting_message` and does not check for empty text. Each
  pass of `send_message_on_server` sends every queued payload in list
  order and then clears the list.

Files:

- `chat_model.dfy` (module `ChatModel`): the store and the frame handlers
  as pure functions, plus the lemmas that state what each frame does.
  - `Apply` is one received frame.
  - `Replay` is the receive loop over a sequence of frames.
- `chat_store.dfy` (module `ChatStore`): the store as the program keeps
  it.
  - Class `User` has a presence flag that is changed in place.
  - Class `Store` has `users: seq<User>` and `messages: seq<Message>`.
  - Each handler is a method, proved against its `ChatModel` function
    through the abstraction `Snapshot()`.
  - `Store.Listen` is the receive loop, proved against `Replay`.
- `outbox.dfy` (module `Outbound`): the queue.
  - Class `Outbox` holds `waiting_message` and the socket, modelled as
    class `Channel`, which records the payloads written to it.
  - `Run` is any interleaving of Enter presses and send passes.
  - `RunLossless` proves that nothing is lost, duplicated or reordered.

The decoded JSON body is the record `ChatModel.Body`, with one
`Option` per key the handlers read. `None` means the key is absent. The
handlers read keys in the same order as the source, so the model raises
on the same missing key:

- `'0'` reads `ID`, `OwnerID`, `Message`, `Date`.
- `'2'` reads `ID`, `Name`, `OnlineStatus`.
- `'3'` reads `ID`. It then queries the view with the selector
  `message_<ID>`. That selector names a widget type that does not exist,
  so the query raises `NoMatches`. As a result, every `'3'` frame ends
  the receive loop, and the store is left as it was.
- `'1'` reads `ID` once per user scanned and `OnlineStatus` only on a
  match. So a `'1'` frame without `ID` does nothing when there are no
  users, and one without `OnlineStatus` raises only if some user matches.
  No user has changed when it raises. A `'1'` frame yields a view update
  only when some user matched.

Other behaviours of the code that the model keeps:

- There is no buffering phase and no `'R'` frame. Every handled frame
  goes to the view at once.
- The handshake reply is read and discarded (main.py:112).
  `current_user_id` stays `1` (main.py:18).
- If `find_user` cannot resolve an owner, the message's username is
  `None`.
- Tag `'3'` never removes anything from `messages_list`.
- `key_enter` queues empty text too.
- Nothing recovers from a body that fails to decode or from a missing key.

## Model

| member | source | states |
|---|---|---|
| `ChatModel.FindUser` | main.py:166-171 | returns nothing exactly when no user has the id; otherwise returns the name of the first user whose id matches |
| `ChatStore.Store.FindUser` | main.py:166-171 | the early-return scan over the user objects returns what `ChatModel.FindUser` returns on the current users |
| `ChatModel.FindUserAppend` | main.py:169-171 | after a user is appended, a lookup returns the earlier answer if some user already had the id, else the new user's name if the id matches, else nothing |
| `ChatModel.Apply` | main.py:139-152 | one received frame: skip it at length at most 1, otherwise dispatch on the tag; its behaviour per tag is stated by `ShortFrameIsNoop`, `UnknownTagIsNoop`, `NewMessageAppends`, `OnlineStatusUpdatesAllMatches`, `NewUserAppends` and `DeleteFrameKeepsStore` |
| `ChatModel.NewMessageFrame` | main.py:157-161 | the get_new_message handler on the store; its behaviour is stated by `NewMessageAppends` |
| `ChatModel.OnlineStatusFrame` | main.py:173-178 | the get_online_status handler on the store; its behaviour is stated by `OnlineStatusUpdatesAllMatches` and `OnlineStatusIdempotent` |
| `ChatModel.SetPresence` | main.py:176-178 | the update of every matching user; its behaviour is stated by `SetPresenceAt`, `SetPresenceIdempotent` and `SetPresenceKeepsLookup` |
| `ChatModel.NewUserFrame` | main.py:185-188 | the get_new_user handler on the store; its behaviour is stated by `NewUserAppends` and `NewUserLookup` |
| `ChatModel.DeleteMessageFrame` | main.py:193-196 | the delete_message handler on the store; its behaviour is stated by `DeleteFrameKeepsStore` and `DeleteFrameEndsLoop` |
| `ChatModel.ShortFrameIsNoop` | main.py:139-140 | a frame of at most one character changes neither list and is skipped |
| `ChatModel.UnknownTagIsNoop` | main.py:144-152 | a tag outside '0'..'3' changes neither list |
| `ChatModel.NewMessageAppends` | main.py:157-161 | tag '0' leaves users alone. It succeeds exactly when all four keys are present. Then it appends one message at the end, with the body's ID, Message and Date and the owner's name from find_user, and keeps earlier messages. A missing key changes nothing |
| `ChatModel.OnlineStatusUpdatesAllMatches` | main.py:173-178 | tag '1' keeps messages, user count, order, ids and names. Every user with the body's id takes OnlineStatus; every other user keeps its flag. It raises exactly when ID is missing from a non-empty roster, or OnlineStatus is missing and some user matches. Raising changes nothing. It yields the view update for the id and flag exactly when some user matched and both keys are present |
| `ChatModel.SetPresenceAt` | main.py:176-178 | the update-all-matches step keeps length, ids and names, and sets the flag at an index exactly when that user's id matches |
| `ChatModel.SetPresenceIdempotent` | main.py:176-178 | setting the same flag for the same id twice equals setting it once |
| `ChatModel.OnlineStatusIdempotent` | main.py:147-148 | applying the same '1' frame twice gives the store and reaction of applying it once |
| `ChatModel.SetPresenceKeepsLookup` | main.py:176-178 | a presence update never changes what find_user returns for any id |
| `ChatModel.NewUserAppends` | main.py:185-188 | tag '2' leaves messages alone. It succeeds exactly when ID, Name and OnlineStatus are present. Then it appends one user with those values at the end and keeps earlier users. A missing key changes nothing |
| `ChatModel.NewUserLookup` | main.py:149-150 | after a '2' frame, its id resolves to its name unless an earlier user had that id; every other id resolves as before |
| `ChatModel.DeleteFrameKeepsStore` | main.py:193-196 | tag '3' changes neither list and always raises. The view query fails (NoMatches) when ID is present; KeyError is raised when ID is missing |
| `ChatModel.DeleteFrameEndsLoop` | main.py:136-155 | a '3' frame with an ID ends the receive loop: later frames are not handled, and the store is the one before the frame |
| `ChatModel.Replay` | main.py:129-155 | the receive loop yields one reaction per frame handled. That is one per frame unless a frame raised (KeyError or NoMatches), after which no more are handled |
| `ChatModel.ReplayStaysStopped` | main.py:136-155 | once a frame has raised, later frames change neither the store nor the reactions |
| `ChatModel.ReplayConcat` | main.py:129-152 | running two batches of frames equals running the second from the store the first left, so the store is the in-order fold of the frames |
| `ChatModel.ReplayIgnoresShortFrames` | main.py:139-140 | dropping every frame of at most one character changes neither the final store nor whether the loop stopped |
| `ChatStore.User.constructor` | main.py:38-42 | a new user carries the given id, name and presence flag |
| `ChatStore.User.ChangeOnlineStatus` | main.py:52-53 | sets the presence flag and leaves id and name as they were |
| `ChatStore.Store.constructor` | main.py:15-16 | both lists start empty |
| `ChatStore.Store.GetNewMessage` | main.py:157-161 | the new store and reaction are those of `NewMessageFrame`; the user objects are untouched |
| `ChatStore.Store.GetOnlineStatus` | main.py:173-178 | the index loop changes the user objects in place so that the new store and reaction are those of `OnlineStatusFrame` |
| `ChatStore.Store.GetNewUser` | main.py:185-188 | on success, keeps the earlier user objects at their positions and appends one freshly built object. On a missing key, leaves the sequence as it was. Every entry stays a distinct object, and the new store and reaction are those of `NewUserFrame` |
| `ChatStore.Store.DeleteMessage` | main.py:193-196 | changes nothing and always raises: the failed view query for ID, or the KeyError exactly when ID is missing |
| `ChatStore.Store.Dispatch` | main.py:139-152 | one received frame changes the store exactly as `Apply` says and yields its reaction |
| `ChatStore.Store.Listen` | main.py:129-155 | the loop over received frames ends with the store and reactions that `Replay` gives, returning at the first frame that raises |
| `Outbound.Channel.Send` | main.py:123 | the socket has recorded the payload after all earlier ones |
| `Outbound.Outbox.constructor` | main.py:20 | the queue starts empty |
| `Outbound.Outbox.KeyEnter` | main.py:217-223 | appends one payload with OwnerID 1 and the input text at the end of the queue; earlier entries and the socket are untouched |
| `Outbound.Outbox.Drain` | main.py:120-125 | when the queue is non-empty, writes its payloads to the socket in list order, then empties it; an empty queue writes nothing |
| `Outbound.Submit` | main.py:217-223 | key_enter on the queue; its behaviour is stated by `Outbox.KeyEnter` and `RunLossless` |
| `Outbound.Flush` | main.py:121-125 | one send pass on the queue; its behaviour is stated by `FlushSendsQueue` and `FlushIdempotent` |
| `Outbound.Run` | main.py:117-127 | any interleaving of Enter presses and send passes; its behaviour is stated by `RunLossless` and `RunEndingInSendPass` |
| `Outbound.FlushSendsQueue` | main.py:121-125 | a send pass sends exactly the queued payloads after those already sent and leaves the queue empty; on an empty queue it changes nothing |
| `Outbound.FlushIdempotent` | main.py:121-125 | a second send pass straight after a first sends nothing |
| `Outbound.RunLossless` | main.py:117-127 | under any interleaving of Enter presses and send passes, the payloads sent followed by those waiting are exactly the submitted ones in submission order. Nothing sent is taken back |
| `Outbound.RunEndingInSendPass` | main.py:120-125 | after a run that ends with a send pass, every submitted payload has been sent once, in order, and the queue is empty |

## Left out

- Textual rendering is not modelled: `compose`, CSS, `mount`, `scroll_visible`, `query_one`, and the label visibility that `change_online_status` also sets. View calls appear only as the `Reaction` a frame yields.
- The websocket transport, `asyncio.gather`, `asyncio.sleep` and the one-second `wait_for` timeout with its retry are not modelled. Received frames are a parameter, and the socket is a `Channel` that records what is sent.
- The handshake is not modelled. It sends fixed credentials and discards the reply, so the owner id is the constant `CurrentUserId`.
- The close path (`action_close` and the polled `app_is_closing` flag) is not modelled. It is socket I/O.
- The race between `key_enter` appending and the drain's `clear()` is not modelled. Both are atomic steps.
- `json.loads` and `json.dumps` are not modelled. A body is a record of optional fields with the wire types. A payload is the `{OwnerID, Message}` object before serialisation. Bodies that are not objects, values of other types, and decode failures are out; the source does not catch decode failures either.
- The view query in `delete_message` is modelled only by its outcome: it always raises `NoMatches`, because no widget type is named `message_<ID>`. Textual's selector matching itself is not modelled.
- Clearing the input field after Enter (main.py:225) is not modelled. It is a view effect.
- `Message` is a value (datatype), not an object. The source never changes a message after building it.
- `Store.Listen` handles a finite sequence of received frames. The unbounded `while True` loop is not modelled beyond that.
- `Outbox.Drain` is one pass of the send loop. The 0.1-second sleep between passes is not modelled.
- `1.py` is not part of this model. It is a UI mock-up with no protocol or state logic.
