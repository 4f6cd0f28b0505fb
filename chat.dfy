/** The chat badge counters and the "open chat" action of the map client:
    `msgNum`, `msgNum1` and `openChat` over the `messages` the server sent and
    the set of message ids the user has already seen. */
module Chat {
  import opened JsValues
  import opened Opt

  /** One conversation as the server sends it; `messages` is None when the
      object has no (or a falsy) `messages` field. */
  datatype Thread = Thread(messages: Option<seq<Record>>)

  /** One `[key, value]` pair of `Object.entries(messages)`. */
  datatype Entry = Entry(key: string, thread: Thread)

  function MessageId(m: Record): JsValue {
    Get(m, "message_id")
  }

  /** The ids of a list of messages. */
  function Ids(ms: seq<Record>): set<JsValue> {
    set m | m in ms :: MessageId(m)
  }

  /** How many of `ms` the badge counts: all of them, or only those whose id
      has not been seen. */
  function Counted(ms: seq<Record>, seen: set<JsValue>, all: bool): (n: nat)
    ensures n <= |ms|
    ensures all ==> n == |ms|
  {
    if ms == [] then 0
    else Counted(ms[..|ms| - 1], seen, all) + (if all || MessageId(ms[|ms| - 1]) !in seen then 1 else 0)
  }

  /** `messages[key]`: the value stored under a key, if any. The thread
      found is the one of the first entry with that key (the keys of
      `Object.entries` are distinct, so it is the only one). */
  function Lookup(entries: seq<Entry>, key: string): (t: Option<Thread>)
    ensures t.Some? <==> exists i :: 0 <= i < |entries| && entries[i].key == key
    ensures t.Some? ==> exists i :: 0 <= i < |entries| && entries[i].key == key && entries[i].thread == t.value
                                    && forall j :: 0 <= j < i ==> entries[j].key != key
  {
    if entries == [] then None
    else if entries[0].key == key then Some(entries[0].thread)
    else
      var t := Lookup(entries[1..], key);
      if t.Some? then
        var i :| 0 <= i < |entries| - 1 && entries[1..][i].key == key && entries[1..][i].thread == t.value
                 && forall j :: 0 <= j < i ==> entries[1..][j].key != key;
        assert forall j :: 0 <= j < i + 1 ==> entries[j].key != key by {
          forall j | 0 <= j < i + 1 ensures entries[j].key != key {
            if j > 0 { assert entries[j] == entries[1..][j - 1]; }
          }
        }
        t
      else t
  }

  /** The badge count over every conversation (`msgNum`'s loop); a thread
      without `messages` contributes nothing. */
  function Total(entries: seq<Entry>, seen: set<JsValue>, all: bool): (n: nat)
    ensures forall i | 0 <= i < |entries| :: ThreadCount(entries[i].thread, seen, all) <= n
  {
    if entries == [] then 0
    else
      var last := entries[|entries| - 1];
      Total(entries[..|entries| - 1], seen, all) + ThreadCount(last.thread, seen, all)
  }

  function ThreadCount(t: Thread, seen: set<JsValue>, all: bool): nat {
    match t.messages
    case None => 0
    case Some(ms) => Counted(ms, seen, all)
  }

  /** No message is unseen exactly when every id of the thread is in the seen
      set. */
  lemma {:induction false} UnseenZeroIff(ms: seq<Record>, seen: set<JsValue>)
    ensures Counted(ms, seen, false) == 0 <==> Ids(ms) <= seen
  {
    if ms != [] {
      var init := ms[..|ms| - 1];
      UnseenZeroIff(init, seen);
      assert ms == init + [ms[|ms| - 1]];
      assert Ids(ms) == Ids(init) + {MessageId(ms[|ms| - 1])};
    }
  }

  /** Seeing more messages never raises the unseen count. */
  lemma {:induction false} UnseenAntitone(ms: seq<Record>, seen: set<JsValue>, more: set<JsValue>)
    requires seen <= more
    ensures Counted(ms, more, false) <= Counted(ms, seen, false)
  {
    if ms != [] {
      UnseenAntitone(ms[..|ms| - 1], seen, more);
    }
  }

  /** A conversation's own badge never exceeds the badge over all of them. */
  lemma {:induction false} ThreadWithinTotal(entries: seq<Entry>, key: string, seen: set<JsValue>, all: bool)
    requires Lookup(entries, key).Some?
    ensures ThreadCount(Lookup(entries, key).value, seen, all) <= Total(entries, seen, all)
  {
    var last := entries[|entries| - 1];
    var init := entries[..|entries| - 1];
    if Lookup(init, key).Some? {
      assert Lookup(entries, key) == Lookup(init, key) by {
        LookupPrefix(entries, key);
      }
      ThreadWithinTotal(init, key, seen, all);
    } else {
      assert Lookup(entries, key) == Some(last.thread) by {
        LookupPrefix(entries, key);
      }
    }
  }

  /** Looking up a key in a non-empty list: the match in all but the last
      entry if there is one, otherwise the last entry's. */
  lemma {:induction false} LookupPrefix(entries: seq<Entry>, key: string)
    requires Lookup(entries, key).Some?
    ensures var init := entries[..|entries| - 1];
      Lookup(entries, key) == if Lookup(init, key).Some? then Lookup(init, key) else Some(entries[|entries| - 1].thread)
  {
    if entries[0].key != key {
      assert entries[1..][..|entries| - 2] == entries[..|entries| - 1][1..];
      LookupPrefix(entries[1..], key);
    }
  }

  /** The chat part of the client's state. */
  class ChatState {
    /** `messages`: None when it is null (the client starts with `[]`). */
    var messages: Option<seq<Entry>>
    var seenMessages: set<JsValue>
    var chatUid: string
    var chatroom: string

    constructor ()
      ensures messages == Some([]) && seenMessages == {} && chatUid == "" && chatroom == ""
    {
      messages := Some([]);
      seenMessages := {};
      chatUid := "";
      chatroom := "";
    }

    /** `msgNum(all)`: the number of messages (or of unseen messages) over
        every conversation. */
    method MsgNum(all: bool) returns (n: nat)
      ensures messages.None? ==> n == 0
      ensures messages.Some? ==> n == Total(messages.value, seenMessages, all)
    {
      if messages.None? {
        return 0;
      }
      var entries := messages.value;
      n := 0;
      var i := 0;
      while i < |entries|
        invariant 0 <= i <= |entries|
        invariant n == Total(entries[..i], seenMessages, all)
      {
        assert entries[..i + 1][..i] == entries[..i];
        match entries[i].thread.messages {
          case None =>
          case Some(ms) =>
            var c := CountThread(ms, all);
            n := n + c;
        }
        i := i + 1;
      }
      assert entries[..i] == entries;
    }

    /** The inner loop of `msgNum` and `msgNum1` over one conversation. */
    method CountThread(ms: seq<Record>, all: bool) returns (n: nat)
      ensures n == Counted(ms, seenMessages, all)
    {
      n := 0;
      var j := 0;
      while j < |ms|
        invariant 0 <= j <= |ms|
        invariant n == Counted(ms[..j], seenMessages, all)
      {
        assert ms[..j + 1][..j] == ms[..j];
        if all || MessageId(ms[j]) !in seenMessages {
          n := n + 1;
        }
        j := j + 1;
      }
      assert ms[..j] == ms;
    }

    /** `msgNum1(uid, all)`: the badge of one conversation. A null `messages`
        or a conversation without `messages` gives 0; a uid with no
        conversation at all throws, since its `messages` is read from
        `undefined`. */
    method MsgNum1(uid: string, all: bool) returns (r: Outcome<nat>)
      ensures messages.None? ==> r == Returned(0)
      ensures messages.Some? && Lookup(messages.value, uid).None? ==> r.Threw?
      ensures messages.Some? && Lookup(messages.value, uid).Some? ==>
        r == Returned(ThreadCount(Lookup(messages.value, uid).value, seenMessages, all))
    {
      if messages.None? {
        return Returned(0);
      }
      var t := Lookup(messages.value, uid);
      if t.None? {
        return Threw("Cannot read properties of undefined (reading 'messages')");
      }
      match t.value.messages {
        case None =>
          r := Returned(0);
        case Some(ms) =>
          var n := CountThread(ms, all);
          r := Returned(n);
      }
    }

    /** `openChat(uid, chatroom)`: records the open conversation, then marks
        each of its messages as seen. A null `messages` throws on the lookup
        and a conversation without `messages` throws on the iteration; both
        after the conversation was recorded. */
    method OpenChat(uid: string, room: string) returns (r: Outcome<()>)
      modifies this`chatUid, this`chatroom, this`seenMessages
      ensures chatUid == uid && chatroom == room
      ensures messages.None? ==> r.Threw? && seenMessages == old(seenMessages)
      ensures messages.Some? && Lookup(messages.value, uid).None? ==>
        r.Returned? && seenMessages == old(seenMessages)
      ensures messages.Some? && Lookup(messages.value, uid).Some? ==>
        var t := Lookup(messages.value, uid).value;
        (t.messages.None? ==> r.Threw? && seenMessages == old(seenMessages))
        && (t.messages.Some? ==> r.Returned? && seenMessages == old(seenMessages) + Ids(t.messages.value))
    {
      chatUid := uid;
      chatroom := room;
      if messages.None? {
        return Threw("Cannot read properties of null");
      }
      var t := Lookup(messages.value, chatUid);
      if t.None? {
        return Returned(());
      }
      if t.value.messages.None? {
        return Threw("messages is not iterable");
      }
      var ms := t.value.messages.value;
      var j := 0;
      while j < |ms|
        invariant 0 <= j <= |ms|
        invariant seenMessages == old(seenMessages) + Ids(ms[..j])
        invariant chatUid == uid && chatroom == room
      {
        assert Ids(ms[..j + 1]) == Ids(ms[..j]) + {MessageId(ms[j])} by {
          assert ms[..j + 1] == ms[..j] + [ms[j]];
        }
        seenMessages := seenMessages + {MessageId(ms[j])};
        j := j + 1;
      }
      assert ms[..j] == ms;
      r := Returned(());
    }
  }

  /** After a successful `openChat(uid, …)` the conversation's unseen badge
      `msgNum1(uid, false)` is 0, while its total `msgNum1(uid, true)` is
      unchanged. */
  lemma OpenedChatHasNoUnseen(ms: seq<Record>, seen: set<JsValue>)
    ensures Counted(ms, seen + Ids(ms), false) == 0
    ensures Counted(ms, seen + Ids(ms), true) == Counted(ms, seen, true)
  {
    UnseenZeroIff(ms, seen + Ids(ms));
  }
}
