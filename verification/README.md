# Message broker and chat service, modelled in Dafny

This project models two pieces of a set of PyQt5 chat demos.

**The in-process publish/subscribe broker** (`PYQt5/pub_sub.py`, module `PubSub` in
`pub_sub.dfy`). `MessageBroker` keeps three tables keyed by topic:
- the ordered subscriber callbacks of each topic;
- a per-topic queue that is created but never used;
- the per-topic store from message id to message record `{id, content, timestamp, topic}`.

`subscribe` creates a topic lazily and appends a callback. `unsubscribe` removes the
first equal callback. `publish` stores a fresh record, calls every subscriber of the
topic in list order, and returns the id. The `producer` and `consumer` wrappers use the
topic `"default"` unless given another.

In the model, the broker is a class whose methods update its fields in place:
- `deliveries` is a log of callback invocations, in the order they happen;
- `nextId` is the fresh-id supply that stands for `uuid4`;
- `queues` is the key set of the queue table.

The invariant `Valid()` says:
- the subscriber table and the queue table have the same topics;
- every record is filed under its own topic and id;
- an id names at most one record across all topics;
- every delivered record is the stored one.

The loop of `publish` is the method `MessageBroker.Deliver`, which `Publish` calls.

**The chat service logic** (`code/service.py`, module `Service` in `service.dfy`):
- the login/logout state of `ChatService`;
- the slash-command dispatcher;
- the constant assistant reply;
- the texts of the two email exports, including the check that rejects an empty
  history or empty log content.

`pystr.dfy` (module `PyStr`) models the Python string operations these use:
- `str.isspace` and `str.strip`;
- `"\n".join`;
- `split`, used only to state that a join can be undone.

`results.dfy` holds `Option` (Python's `None`) and `Result` (a return value or a raised
exception).

Two behaviours of the code are worth noting:
- A topic is known to `unsubscribe` only once it has been subscribed to
  (pub_sub.py:25-33). `publish` creates only the store entry, not a subscriber list
  (pub_sub.py:42-43).
- A topic whose list was emptied by `unsubscribe` stays known. Unsubscribing from it
  again raises `ValueError`; it is not a no-op.

## Model

| member | source | states |
|---|---|---|
| `PubSub.ListRemove` | PYQt5/pub_sub.py:33 | `list.remove` fails with `ValueError` exactly when the callback is absent; otherwise the result is the list with its first occurrence cut out |
| `PubSub.RemoveDropsOne` | PYQt5/pub_sub.py:33 | a successful removal shortens the list by exactly one and takes away exactly one copy of the callback |
| `PubSub.RemoveUndoesAppend` | PYQt5/pub_sub.py:23-33 | unsubscribing a callback just subscribed, that was not subscribed before, restores the old list |
| `PubSub.DoubleSubscribeSingleRemove` | PYQt5/pub_sub.py:23-33 | subscribing a callback twice and unsubscribing once leaves it registered once more than before |
| `PubSub.Fanout` | PYQt5/pub_sub.py:56-58 | the invocations a publish makes: exactly one per subscriber entry |
| `PubSub.FanoutAt` | PYQt5/pub_sub.py:56-58 | delivery order is subscription order: the k-th invocation goes to the k-th subscriber, with the published record |
| `PubSub.FanoutCount` | PYQt5/pub_sub.py:56-58 | a callback receives a published record as many times as it is subscribed: once if subscribed once, never if not subscribed |
| `PubSub.Insert` | PYQt5/pub_sub.py:42-53 | storing a record creates its topic's table if absent, files the record under its id, keeps every earlier id, grows the table by one for a new id and leaves other topics alone |
| `PubSub.FreshNotStored` | PYQt5/pub_sub.py:45 | the id the supply hands out next is not stored under any topic |
| `PubSub.InsertWellKeyed` | PYQt5/pub_sub.py:45-53 | after storing a record with the fresh id, every record is still filed under its own topic and id |
| `PubSub.InsertedFrom` | PYQt5/pub_sub.py:45-53 | after storing a record, every id a topic holds is either the new record's id under its topic or was already held by that topic |
| `PubSub.InsertIdsUnique` | PYQt5/pub_sub.py:45-53 | after storing a record with the fresh id, ids are still unique across all topics |
| `PubSub.InsertKeepsStored` | PYQt5/pub_sub.py:53 | storing a new record never displaces an earlier one: the store is append-only |
| `PubSub.MessageBroker.constructor` | PYQt5/pub_sub.py:18-21 | a new broker has empty subscriber, queue and store tables and has delivered nothing |
| `PubSub.MessageBroker.Subscribe` | PYQt5/pub_sub.py:23-28 | the topic's list becomes the old list (empty for a new topic) plus the callback; the topic gets a queue entry, so both tables keep one key set; other lists, the store and the log are unchanged |
| `PubSub.MessageBroker.Unsubscribe` | PYQt5/pub_sub.py:30-33 | unknown topic: nothing changes; callback absent: `ValueError` and nothing changes; otherwise the first occurrence is removed and the list shrinks by one |
| `PubSub.MessageBroker.Publish` | PYQt5/pub_sub.py:35-60 | returns an id stored nowhere before; the record `{id, content, timestamp, topic}` is filed under `store[topic][id]`; subscriber lists and queues are unchanged; the log grows by one delivery per subscriber of the topic, in list order |
| `PubSub.MessageBroker.Deliver` | PYQt5/pub_sub.py:56-58 | the delivery loop appends one invocation per subscriber, in list order, and keeps the broker invariant |
| `PubSub.Producer` | PYQt5/pub_sub.py:62-72 | behaves as `publish` on the given topic, `"default"` when none is given |
| `PubSub.Consumer` | PYQt5/pub_sub.py:74-82 | behaves as `subscribe` on the given topic, `"default"` when none is given |
| `PyStr.TrimStart` | code/service.py:45 | the leading part `strip` drops is all whitespace, and what remains starts with a non-whitespace character or is empty |
| `PyStr.TrimEnd` | code/service.py:45 | the trailing part `strip` drops is all whitespace, and what remains ends with a non-whitespace character or is empty |
| `PyStr.StripEmptyIffBlank` | code/service.py:45 | `len(username.strip()) == 0` holds exactly when every character is whitespace |
| `PyStr.Join` | code/service.py:108 | `"\n".join` gives the empty string for no items and starts with the first item otherwise |
| `PyStr.SplitJoin` | code/service.py:108 | joining lines that hold no newline and splitting on newlines gives the lines back |
| `Service.ValidateUsername` | code/service.py:44-52 | login succeeds exactly for a present, non-blank name of at least 3 raw characters and returns it unchanged; a missing, empty or blank name fails as empty; a shorter one fails as too short |
| `Service.PaddedNameAccepted` | code/service.py:45-48 | the length is counted before stripping: `" ab"` is accepted as given, `"   "` is refused as empty and `"ab"` as too short |
| `Service.ChatService.constructor` | code/service.py:37-40 | nobody is logged in at first |
| `Service.ChatService.LoginUser` | code/service.py:42-59 | on success `logged_in_user` becomes the given name and the name is returned; on `LoginError` `logged_in_user` is unchanged |
| `Service.ChatService.LogoutUser` | code/service.py:61-69 | afterwards nobody is logged in, whatever the state before, so logging out twice is the same as once |
| `Service.AtMostOneCommandMatches` | code/service.py:73-85 | no command is a prefix of another, so at most one command prefixes any input |
| `Service.ProcessCommand` | code/service.py:71-86 | the reply is "Unknown command" exactly when no command prefixes the input; otherwise it is the reply of the command that does |
| `Service.FirstMatchIsFirst` | code/service.py:73-86 | a first-match scan of a prefix table returns the reply of the first matching prefix, or "Unknown command" when none matches |
| `Service.ProcessCommandIsFirstMatch` | code/service.py:73-86 | the if/elif chain is the first-match scan of the command table in the order `/fix`, `/help`, `/search`, `/text`, `/image`, `/video` |
| `Service.HelpListsEveryCommand` | code/service.py:76 | `/help` answers with the title line followed by all six commands, one per line, in list order |
| `Service.ProcessMessage` | code/service.py:91-94 | every message gets the same sample assistant reply |
| `Service.HistoryLines` | code/service.py:108 | one `"timestamp: message"` line per history entry, in history order |
| `Service.HistoryBody` | code/service.py:110 | the export body ends with the history text |
| `Service.HistoryTextLines` | code/service.py:108 | when no entry holds a newline, the history text splits back into exactly one line per entry, in order |
| `Service.SendHistoryEmail` | code/service.py:104-115 | an empty history raises `EmailError`; otherwise the mail goes to the support address with subject "Chat History" and the export body |
| `Service.SendLogsEmail` | code/service.py:117-125 | empty log content raises `EmailError`; otherwise the mail goes to the support address with subject "Issue" and the content unchanged |

## Left out

- The singleton `__new__` and its `threading.Lock` (pub_sub.py:8-16) are not modelled. The model works on one explicitly constructed broker, because the lock only matters for concurrent first access.
- Concurrent calls on one broker are not modelled. The source does not guard its tables, and every method here runs alone.
- The `Queue` objects in the queue table (pub_sub.py:27) are not modelled; only the table's key set is. They are never read or written.
- Message ids are natural numbers from a counter, not `uuid4` strings. The counter gives the freshness that the source relies on `uuid4` for.
- Timestamps (`datetime.now()` in pub_sub.py:49 and service.py:110, `strftime` formatting) are string parameters, because clocks are outside the model.
- Subscriber callbacks are opaque handles, and calling one appends to the delivery log. What a callback does is not modelled.
- MessageBroker.Publish: does not model the sharing in pub_sub.py:46-58.
  - The record dict handed to every callback is the object stored at `store[topic][msg_id]`, and its `content` is the producer's own dict. A callback or producer that mutates either one changes the stored record, so in the source "every stored record's topic equals its key" holds only while nobody mutates them. The model treats records as immutable values.
  - The loop at pub_sub.py:57 walks the live subscriber list. A callback that unsubscribes itself makes the loop skip the next subscriber. A callback that subscribes another callback to the same topic has that callback invoked in the same publish. The model delivers to the list as it was before the publish.
- MessageBroker.Publish: does not model a callback that raises. In the source, that exception stops the remaining deliveries and propagates to the publisher. Here every delivery is made.
- Message content is a JSON-like value tree; Python's arbitrary objects are not modelled.
- `list.remove` compares callbacks with `==`, which is identity for plain functions; the handles are compared by value.
- Service.ChatService.LoginUser: a non-string argument is not modelled. The argument is `None` or a string.
- Service.ProcessCommand: does not model a non-string command, which raises `CommandError`. The command is a string.
- Service.SendHistoryEmail: does not model history entries without a `timestamp` or `message` key, or with non-string values. Entries always carry both strings.
- Service.SendLogsEmail: does not model `None` content. The only caller passes the log view's text, which is a string.
- Service.SendHistoryEmail and Service.SendLogsEmail return the mail (recipient, subject, body) handed to the mail client instead of `True`. `_send_email`'s percent-encoding with `quote` and its `webbrowser.open` (service.py:127-130) are I/O, and so are failures raised from them.
- `load_logs` (service.py:132-144) and `log_message` (service.py:99-102) are not modelled: they read files and the clock.
- The `logging` calls throughout service.py are not modelled, because logging is a side channel.
- The demo script at the end of pub_sub.py (lines 84-106) is not modelled. Its handler only prints.
