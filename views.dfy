/** conversations/views.py: the webhook endpoint, the REST close endpoint and the
    stats query, over an in-memory store that stands for the database.

    Each handler is a function from the store before to a response (status code
    and store after); class Store holds the tables as fields and runs the same
    handlers step by step, and its methods promise the new tables are the ones
    the function gives. The lemmas below state what the views promise. */
module Webhook {
  import opened Text
  import opened Choices
  import opened Models

  const OK: int := 200
  const CREATED: int := 201
  const BAD_REQUEST: int := 400
  const NOT_FOUND: int := 404

  /** The `data` object of an event, field name to field value. */
  type Payload = map<string, string>

  /** A decoded webhook body. `eventType` is None when "type" is absent; `data`
      is None when "data" is absent or not a JSON object. */
  datatype Envelope = Envelope(eventType: Option<string>, data: Option<Payload>)

  /** The tables: conversations and messages by primary key, message keys in
      insertion order, and the time of the latest insertion. */
  datatype Db = Db(conversations: map<Uuid, Conversation>, messages: map<Uuid, Message>,
                   log: seq<Uuid>, clock: int)

  datatype Response = Response(status: int, db: Db)

  /** `data.get(key)` is truthy. */
  predicate Truthy(data: Payload, key: string) {
    key in data && data[key] != ""
  }

  /** `log` lists every message key exactly once, oldest first. */
  ghost predicate LogOrdered(log: seq<Uuid>, messages: map<Uuid, Message>) {
    && (forall i :: 0 <= i < |log| ==> log[i] in messages)
    && (forall m :: m in messages ==> m in log)
    && (forall i, j :: 0 <= i < j < |log| ==> log[i] != log[j])
    && (forall i, j :: 0 <= i < j < |log| ==> messages[log[i]].createdAt <= messages[log[j]].createdAt)
  }

  /** What the schema guarantees of the tables: keys are UUIDs, every message
      points at an existing conversation (the foreign key), and created_at was
      taken from a clock that does not run backwards. */
  ghost predicate Consistent(db: Db) {
    && (forall c :: c in db.conversations ==> IsCanonicalUuid(c))
    && (forall m :: m in db.messages ==> IsCanonicalUuid(m))
    && (forall m :: m in db.messages ==> db.messages[m].conversation in db.conversations)
    && (forall m :: m in db.messages ==> db.messages[m].createdAt <= db.clock)
    && LogOrdered(db.log, db.messages)
  }

  /** The messages of conversation `c`, in the order the store lists them. */
  function Thread(log: seq<Uuid>, messages: map<Uuid, Message>, c: Uuid): (t: seq<Uuid>)
    requires forall i :: 0 <= i < |log| ==> log[i] in messages
    ensures forall i :: 0 <= i < |t| ==> t[i] in messages && messages[t[i]].conversation == c
  {
    if log == [] then []
    else
      var rest := Thread(log[..|log| - 1], messages, c);
      var m := log[|log| - 1];
      if messages[m].conversation == c then rest + [m] else rest
  }

  function ThreadOf(db: Db, c: Uuid): seq<Uuid>
    requires Consistent(db)
  {
    Thread(db.log, db.messages, c)
  }

  // ---------------------------------------------------------------------------
  // The handlers

  /** handle_new_conversation. */
  function NewConversation(db: Db, data: Payload, elapsed: nat): (r: Response)
    ensures r.status == CREATED || r.status == BAD_REQUEST
    ensures r.status == BAD_REQUEST ==> r.db == db
    ensures r.status == CREATED <==>
      Truthy(data, "id") && ParseUuid(data["id"]).Some? && ParseUuid(data["id"]).value !in db.conversations
  {
    if !Truthy(data, "id") then Response(BAD_REQUEST, db)
    else match ParseUuid(data["id"])
      // the lookup raises ValidationError, which post turns into 400
      case None => Response(BAD_REQUEST, db)
      case Some(id) =>
        if id in db.conversations then Response(BAD_REQUEST, db)
        else
          var now := db.clock + elapsed;
          Response(CREATED, db.(conversations := db.conversations[id := FreshConversation(now)], clock := now))
  }

  /** All four message fields are present and non-empty. */
  predicate MessageFieldsPresent(data: Payload) {
    Truthy(data, "id") && Truthy(data, "conversation_id") && Truthy(data, "direction") && Truthy(data, "content")
  }

  /** handle_new_message. */
  function NewMessage(db: Db, data: Payload, elapsed: nat): (r: Response)
    ensures r.status in {CREATED, BAD_REQUEST, NOT_FOUND}
    ensures r.status != CREATED ==> r.db == db
    ensures !MessageFieldsPresent(data) ==> r.status == BAD_REQUEST
    ensures && MessageFieldsPresent(data)
            && ParseUuid(data["id"]).Some? && ParseUuid(data["id"]).value !in db.messages
            && ParseUuid(data["conversation_id"]).Some?
            && ParseUuid(data["conversation_id"]).value in db.conversations
            && db.conversations[ParseUuid(data["conversation_id"]).value].state == Open
            ==> r.status == CREATED
  {
    if !MessageFieldsPresent(data) then Response(BAD_REQUEST, db)
    else match ParseUuid(data["id"])
      case None => Response(BAD_REQUEST, db)
      case Some(mid) =>
        if mid in db.messages then Response(BAD_REQUEST, db)
        else match ParseUuid(data["conversation_id"])
          // Conversation.objects.get raises ValidationError, not DoesNotExist
          case None => Response(BAD_REQUEST, db)
          case Some(cid) =>
            if cid !in db.conversations then Response(NOT_FOUND, db)
            else if db.conversations[cid].state == Closed then Response(BAD_REQUEST, db)
            else
              var now := db.clock + elapsed;
              var msg := Message(cid, data["direction"], data["content"], now);
              Response(CREATED, db.(messages := db.messages[mid := msg], log := db.log + [mid], clock := now))
  }

  /** handle_close_conversation: closing is allowed whatever the current state. */
  function CloseConversation(db: Db, data: Payload): (r: Response)
    ensures r.status in {OK, BAD_REQUEST, NOT_FOUND}
    ensures r.status != OK ==> r.db == db
    ensures r.status == OK <==>
      Truthy(data, "id") && ParseUuid(data["id"]).Some? && ParseUuid(data["id"]).value in db.conversations
  {
    if !Truthy(data, "id") then Response(BAD_REQUEST, db)
    else match ParseUuid(data["id"])
      case None => Response(BAD_REQUEST, db)
      case Some(id) =>
        if id !in db.conversations then Response(NOT_FOUND, db)
        else Response(OK, db.(conversations := db.conversations[id := db.conversations[id].(state := Closed)]))
  }

  /** The envelope has a non-empty type and non-empty data. */
  predicate WellFormed(body: Option<Envelope>) {
    && body.Some?
    && body.value.eventType.Some? && body.value.eventType.value != ""
    && body.value.data.Some? && body.value.data.value != map[]
  }

  /** WebhookView.post: check the envelope, then dispatch on the type. Every
      exception the handlers raise becomes 400. */
  function PostEvent(db: Db, body: Option<Envelope>, elapsed: nat): (r: Response)
    ensures r.status in {OK, CREATED, BAD_REQUEST, NOT_FOUND}
    ensures !WellFormed(body) ==> r == Response(BAD_REQUEST, db)
  {
    if !WellFormed(body) then Response(BAD_REQUEST, db)
    else
      var data := body.value.data.value;
      match body.value.eventType.value
      case "NEW_CONVERSATION" => NewConversation(db, data, elapsed)
      case "NEW_MESSAGE" => NewMessage(db, data, elapsed)
      case "CLOSE_CONVERSATION" => CloseConversation(db, data)
      case _ => Response(BAD_REQUEST, db)
  }

  /** CloseConversation.post (the REST endpoint). get_object_or_404 raises
      inside the try, so an unknown or malformed id also comes back as 400. */
  function RestClose(db: Db, rawId: string): (r: Response)
    ensures r.status == OK || r.status == BAD_REQUEST
    ensures r.status == BAD_REQUEST ==> r.db == db
  {
    match ParseUuid(rawId)
    case None => Response(BAD_REQUEST, db)
    case Some(id) =>
      if id !in db.conversations then Response(BAD_REQUEST, db)
      else if db.conversations[id].state == Closed then Response(BAD_REQUEST, db)
      else Response(OK, db.(conversations := db.conversations[id := db.conversations[id].(state := Closed)]))
  }

  /** Deleting a conversation row: on_delete=CASCADE removes its messages too. */
  function DeleteConversation(db: Db, id: Uuid): (r: Db)
    ensures r.conversations == db.conversations - {id}
    ensures forall m :: m in r.messages <==> m in db.messages && db.messages[m].conversation != id
  {
    var kept := map m | m in db.messages && db.messages[m].conversation != id :: db.messages[m];
    db.(conversations := db.conversations - {id}, messages := kept, log := KeepKeys(db.log, kept.Keys))
  }

  function KeepKeys(log: seq<Uuid>, keys: set<Uuid>): (r: seq<Uuid>)
    ensures forall i :: 0 <= i < |r| ==> r[i] in keys
    ensures forall x :: x in r <==> x in log && x in keys
  {
    if log == [] then []
    else
      var rest := KeepKeys(log[..|log| - 1], keys);
      if log[|log| - 1] in keys then rest + [log[|log| - 1]] else rest
  }

  // ---------------------------------------------------------------------------
  // Stats

  datatype Stats = Stats(total: nat, open: nat, closed: nat, withMessages: nat)

  predicate HasMessages(db: Db, c: Uuid) {
    exists m :: m in db.messages && db.messages[m].conversation == c
  }

  function KeysInState(convs: map<Uuid, Conversation>, s: State): set<Uuid> {
    set c | c in convs && convs[c].state == s
  }

  lemma StatePartition(convs: map<Uuid, Conversation>)
    ensures |KeysInState(convs, Open)| + |KeysInState(convs, Closed)| == |convs|
  {
    var o, c := KeysInState(convs, Open), KeysInState(convs, Closed);
    assert o + c == convs.Keys by {
      forall k | k in convs.Keys ensures k in o + c {
        if convs[k].state == Open { assert k in o; } else { assert k in c; }
      }
    }
    assert o * c == {};
  }

  lemma SubsetSize<T>(a: set<T>, b: set<T>)
    requires a <= b
    ensures |a| <= |b|
  {
    assert b == a + (b - a);
  }

  /** ConversationStats.get. */
  function StatsOf(db: Db): (r: Stats)
    ensures r.open + r.closed == r.total
    ensures r.withMessages <= r.total
    ensures r.total == |db.conversations|
  {
    var withMessages := set c | c in db.conversations && HasMessages(db, c);
    StatePartition(db.conversations);
    SubsetSize(withMessages, db.conversations.Keys);
    Stats(|db.conversations|, |KeysInState(db.conversations, Open)|,
          |KeysInState(db.conversations, Closed)|, |withMessages|)
  }

  // ---------------------------------------------------------------------------
  // The store object

  class Store {
    var conversations: map<Uuid, Conversation>
    var messages: map<Uuid, Message>
    var log: seq<Uuid>
    var clock: int

    function Snapshot(): Db
      reads this
    {
      Db(conversations, messages, log, clock)
    }

    ghost predicate Valid()
      reads this
    {
      Consistent(Snapshot())
    }

    constructor (start: int)
      ensures Valid() && Snapshot() == Db(map[], map[], [], start)
    {
      conversations, messages, log, clock := map[], map[], [], start;
    }

    method HandleNewConversation(data: Payload, elapsed: nat) returns (status: int)
      requires Valid()
      modifies this
      ensures Valid()
      ensures Response(status, Snapshot()) == NewConversation(old(Snapshot()), data, elapsed)
    {
      ghost var before := Snapshot();
      if !Truthy(data, "id") {
        return BAD_REQUEST;
      }
      var id := ParseUuid(data["id"]);
      if id.None? || id.value in conversations {
        return BAD_REQUEST;
      }
      var now := clock + elapsed;
      conversations := conversations[id.value := FreshConversation(now)];
      clock := now;
      status := CREATED;
      assert Response(status, Snapshot()) == NewConversation(before, data, elapsed);
      NewConversationKeepsConsistent(before, data, elapsed);
    }

    method HandleNewMessage(data: Payload, elapsed: nat) returns (status: int)
      requires Valid()
      modifies this
      ensures Valid()
      ensures Response(status, Snapshot()) == NewMessage(old(Snapshot()), data, elapsed)
    {
      ghost var before := Snapshot();
      if !MessageFieldsPresent(data) {
        return BAD_REQUEST;
      }
      var mid := ParseUuid(data["id"]);
      if mid.None? || mid.value in messages {
        return BAD_REQUEST;
      }
      var cid := ParseUuid(data["conversation_id"]);
      if cid.None? {
        return BAD_REQUEST;
      }
      if cid.value !in conversations {
        return NOT_FOUND;
      }
      if conversations[cid.value].state == Closed {
        return BAD_REQUEST;
      }
      var now := clock + elapsed;
      messages := messages[mid.value := Message(cid.value, data["direction"], data["content"], now)];
      log := log + [mid.value];
      clock := now;
      status := CREATED;
      assert Response(status, Snapshot()) == NewMessage(before, data, elapsed);
      NewMessageKeepsConsistent(before, data, elapsed);
    }

    method HandleCloseConversation(data: Payload) returns (status: int)
      requires Valid()
      modifies this
      ensures Valid()
      ensures Response(status, Snapshot()) == CloseConversation(old(Snapshot()), data)
    {
      ghost var before := Snapshot();
      if !Truthy(data, "id") {
        return BAD_REQUEST;
      }
      var id := ParseUuid(data["id"]);
      if id.None? {
        return BAD_REQUEST;
      }
      if id.value !in conversations {
        return NOT_FOUND;
      }
      conversations := conversations[id.value := conversations[id.value].(state := Closed)];
      status := OK;
      assert Response(status, Snapshot()) == CloseConversation(before, data);
      CloseKeepsConsistent(before, data);
    }

    /** WebhookView.post. */
    method Post(body: Option<Envelope>, elapsed: nat) returns (status: int)
      requires Valid()
      modifies this
      ensures Valid()
      ensures Response(status, Snapshot()) == PostEvent(old(Snapshot()), body, elapsed)
    {
      if !WellFormed(body) {
        return BAD_REQUEST;
      }
      var data := body.value.data.value;
      var eventType := body.value.eventType.value;
      if eventType == "NEW_CONVERSATION" {
        status := HandleNewConversation(data, elapsed);
      } else if eventType == "NEW_MESSAGE" {
        status := HandleNewMessage(data, elapsed);
      } else if eventType == "CLOSE_CONVERSATION" {
        status := HandleCloseConversation(data);
      } else {
        status := BAD_REQUEST;
      }
    }

    /** CloseConversation.post. */
    method RestCloseConversation(rawId: string) returns (status: int)
      requires Valid()
      modifies this
      ensures Valid()
      ensures Response(status, Snapshot()) == RestClose(old(Snapshot()), rawId)
    {
      ghost var before := Snapshot();
      var id := ParseUuid(rawId);
      if id.None? || id.value !in conversations || conversations[id.value].state == Closed {
        return BAD_REQUEST;
      }
      conversations := conversations[id.value := conversations[id.value].(state := Closed)];
      status := OK;
      assert Response(status, Snapshot()) == RestClose(before, rawId);
      RestCloseKeepsConsistent(before, rawId);
    }

    /** ConversationStats.get. */
    method GetStats() returns (stats: Stats)
      ensures stats == StatsOf(Snapshot())
      ensures stats.open + stats.closed == stats.total
    {
      stats := StatsOf(Snapshot());
    }

    /** Conversation.delete(): the cascade removes the conversation's messages. */
    method Delete(id: Uuid)
      requires Valid()
      modifies this
      ensures Valid()
      ensures Snapshot() == DeleteConversation(old(Snapshot()), id)
    {
      ghost var before := Snapshot();
      DeleteKeepsConsistent(before, id);
      var kept := map m | m in messages && messages[m].conversation != id :: messages[m];
      conversations := conversations - {id};
      messages := kept;
      log := KeepKeys(log, kept.Keys);
    }
  }

  // ---------------------------------------------------------------------------
  // Every handler keeps the tables consistent

  lemma NewConversationKeepsConsistent(db: Db, data: Payload, elapsed: nat)
    requires Consistent(db)
    ensures Consistent(NewConversation(db, data, elapsed).db)
  {
  }

  /** Inserting a fresh message row stamped no earlier than the clock, aimed at
      an existing conversation, keeps the tables consistent. */
  lemma InsertKeepsConsistent(db: Db, mid: Uuid, msg: Message)
    requires Consistent(db)
    requires IsCanonicalUuid(mid) && mid !in db.messages
    requires msg.conversation in db.conversations && db.clock <= msg.createdAt
    ensures Consistent(db.(messages := db.messages[mid := msg], log := db.log + [mid], clock := msg.createdAt))
  {
    var log', msgs' := db.log + [mid], db.messages[mid := msg];
    forall i, j | 0 <= i < j < |log'|
      ensures log'[i] != log'[j]
      ensures msgs'[log'[i]].createdAt <= msgs'[log'[j]].createdAt
    {
      if j == |log'| - 1 {
        assert log'[i] == db.log[i] && log'[i] in db.messages;
      } else {
        assert log'[i] == db.log[i] && log'[j] == db.log[j];
      }
    }
    forall m | m in msgs' ensures m in log' {
      if m != mid {
        assert m in db.log;
      } else {
        assert log'[|log'| - 1] == m;
      }
    }
  }

  lemma NewMessageKeepsConsistent(db: Db, data: Payload, elapsed: nat)
    requires Consistent(db)
    ensures Consistent(NewMessage(db, data, elapsed).db)
  {
    if NewMessage(db, data, elapsed).status == CREATED {
      NewMessageCreated(db, data, elapsed);
      var mid, cid := ParseUuid(data["id"]).value, ParseUuid(data["conversation_id"]).value;
      InsertKeepsConsistent(db, mid, Message(cid, data["direction"], data["content"], db.clock + elapsed));
    }
  }

  lemma CloseKeepsConsistent(db: Db, data: Payload)
    requires Consistent(db)
    ensures Consistent(CloseConversation(db, data).db)
  {
  }

  lemma RestCloseKeepsConsistent(db: Db, rawId: string)
    requires Consistent(db)
    ensures Consistent(RestClose(db, rawId).db)
  {
  }

  lemma PostKeepsConsistent(db: Db, body: Option<Envelope>, elapsed: nat)
    requires Consistent(db)
    ensures Consistent(PostEvent(db, body, elapsed).db)
  {
    if WellFormed(body) {
      var data := body.value.data.value;
      NewConversationKeepsConsistent(db, data, elapsed);
      NewMessageKeepsConsistent(db, data, elapsed);
      CloseKeepsConsistent(db, data);
    }
  }

  lemma {:induction false} KeepKeysOrdered(log: seq<Uuid>, keys: set<Uuid>, messages: map<Uuid, Message>)
    requires forall i :: 0 <= i < |log| ==> log[i] in messages
    requires forall i, j :: 0 <= i < j < |log| ==> log[i] != log[j]
    requires forall i, j :: 0 <= i < j < |log| ==> messages[log[i]].createdAt <= messages[log[j]].createdAt
    ensures forall i, j :: 0 <= i < j < |KeepKeys(log, keys)| ==> KeepKeys(log, keys)[i] != KeepKeys(log, keys)[j]
    ensures forall i, j :: 0 <= i < j < |KeepKeys(log, keys)| ==>
      messages[KeepKeys(log, keys)[i]].createdAt <= messages[KeepKeys(log, keys)[j]].createdAt
  {
    if log != [] {
      var init := log[..|log| - 1];
      var last := log[|log| - 1];
      KeepKeysOrdered(init, keys, messages);
      var rest := KeepKeys(init, keys);
      if last in keys {
        var r := rest + [last];
        forall i, j | 0 <= i < j < |r|
          ensures r[i] != r[j]
          ensures messages[r[i]].createdAt <= messages[r[j]].createdAt
        {
          if j == |r| - 1 {
            assert r[i] in init;
            var k :| 0 <= k < |init| && init[k] == r[i];
            assert log[k] == r[i];
          }
        }
      }
    }
  }

  lemma DeleteKeepsConsistent(db: Db, id: Uuid)
    requires Consistent(db)
    ensures Consistent(DeleteConversation(db, id))
  {
    var r := DeleteConversation(db, id);
    KeepKeysOrdered(db.log, r.messages.Keys, db.messages);
    forall m | m in r.messages ensures r.messages[m].conversation in r.conversations {
      assert r.messages[m] == db.messages[m];
    }
    forall i, j | 0 <= i < j < |r.log|
      ensures r.messages[r.log[i]].createdAt <= r.messages[r.log[j]].createdAt
    {
      assert db.messages[r.log[i]].createdAt <= db.messages[r.log[j]].createdAt;
    }
  }

  // ---------------------------------------------------------------------------
  // Message order and ownership

  lemma {:induction false} ThreadFacts(log: seq<Uuid>, messages: map<Uuid, Message>, c: Uuid)
    requires forall i :: 0 <= i < |log| ==> log[i] in messages
    requires forall i, j :: 0 <= i < j < |log| ==> log[i] != log[j]
    requires forall i, j :: 0 <= i < j < |log| ==> messages[log[i]].createdAt <= messages[log[j]].createdAt
    ensures forall x :: x in Thread(log, messages, c) <==> x in log && messages[x].conversation == c
    ensures forall i, j :: 0 <= i < j < |Thread(log, messages, c)| ==>
      Thread(log, messages, c)[i] != Thread(log, messages, c)[j]
    ensures forall i, j :: 0 <= i < j < |Thread(log, messages, c)| ==>
      messages[Thread(log, messages, c)[i]].createdAt <= messages[Thread(log, messages, c)[j]].createdAt
  {
    if log != [] {
      var init, last := log[..|log| - 1], log[|log| - 1];
      ThreadFacts(init, messages, c);
      var t := Thread(log, messages, c);
      var rest := Thread(init, messages, c);
      assert log == init + [last];
      if messages[last].conversation == c {
        forall i, j | 0 <= i < j < |t|
          ensures t[i] != t[j]
          ensures messages[t[i]].createdAt <= messages[t[j]].createdAt
        {
          if j == |t| - 1 {
            assert t[i] in init;
            var k :| 0 <= k < |init| && init[k] == t[i];
            assert log[k] == t[i];
          } else {
            assert t[i] == rest[i] && t[j] == rest[j];
          }
        }
      }
    }
  }

  /** A conversation's messages are listed oldest first (Meta.ordering =
      ['created_at']), each once, and they are exactly the messages whose
      foreign key names that conversation, so every message is listed under
      exactly one conversation. */
  lemma ThreadOrdered(db: Db, c: Uuid)
    requires Consistent(db)
    ensures forall m :: m in ThreadOf(db, c) <==> m in db.messages && db.messages[m].conversation == c
    ensures forall i, j :: 0 <= i < j < |ThreadOf(db, c)| ==> ThreadOf(db, c)[i] != ThreadOf(db, c)[j]
    ensures forall i, j :: 0 <= i < j < |ThreadOf(db, c)| ==>
      db.messages[ThreadOf(db, c)[i]].createdAt <= db.messages[ThreadOf(db, c)[j]].createdAt
  {
    ThreadFacts(db.log, db.messages, c);
  }

  lemma {:induction false} ThreadFrame(log: seq<Uuid>, m1: map<Uuid, Message>, m2: map<Uuid, Message>, c: Uuid)
    requires forall i :: 0 <= i < |log| ==> log[i] in m1 && log[i] in m2 && m1[log[i]] == m2[log[i]]
    ensures Thread(log, m1, c) == Thread(log, m2, c)
  {
    if log != [] {
      ThreadFrame(log[..|log| - 1], m1, m2, c);
    }
  }

  // ---------------------------------------------------------------------------
  // What each webhook event does

  /** An unrecognised event type is refused and changes nothing. */
  lemma UnknownTypeRejected(db: Db, body: Option<Envelope>, elapsed: nat)
    requires WellFormed(body)
    requires body.value.eventType.value !in {"NEW_CONVERSATION", "NEW_MESSAGE", "CLOSE_CONVERSATION"}
    ensures PostEvent(db, body, elapsed) == Response(BAD_REQUEST, db)
  {
  }

  /** The one way a conversation is created: the id parses to a new key, and
      an OPEN row stamped now is added under it. */
  lemma NewConversationCreated(db: Db, data: Payload, elapsed: nat)
    requires NewConversation(db, data, elapsed).status == CREATED
    ensures Truthy(data, "id") && ParseUuid(data["id"]).Some?
    ensures var id, now := ParseUuid(data["id"]).value, db.clock + elapsed;
            && id !in db.conversations
            && NewConversation(db, data, elapsed).db
               == db.(conversations := db.conversations[id := FreshConversation(now)], clock := now)
  {
  }

  /** A created conversation is new, OPEN, has no messages, and is the only change. */
  lemma NewConversationAddsOne(db: Db, data: Payload, elapsed: nat)
    requires Consistent(db)
    requires NewConversation(db, data, elapsed).status == CREATED
    ensures var id := ParseUuid(data["id"]).value;
            var after := NewConversation(db, data, elapsed).db;
            && id !in db.conversations
            && after.conversations.Keys == db.conversations.Keys + {id}
            && |after.conversations| == |db.conversations| + 1
            && after.conversations[id].state == Open
            && Consistent(after) && ThreadOf(after, id) == []
            && (forall c :: c in db.conversations ==> after.conversations[c] == db.conversations[c])
            && after.messages == db.messages
  {
    NewConversationCreated(db, data, elapsed);
    NewConversationKeepsConsistent(db, data, elapsed);
    var id, now := ParseUuid(data["id"]).value, db.clock + elapsed;
    AddConversationFacts(db, id, FreshConversation(now), now);
  }

  lemma AddConversationFacts(db: Db, id: Uuid, conv: Conversation, now: int)
    requires Consistent(db) && id !in db.conversations
    requires Consistent(db.(conversations := db.conversations[id := conv], clock := now))
    ensures var after := db.(conversations := db.conversations[id := conv], clock := now);
            && after.conversations.Keys == db.conversations.Keys + {id}
            && |after.conversations| == |db.conversations| + 1
            && ThreadOf(after, id) == []
  {
    var after := db.(conversations := db.conversations[id := conv], clock := now);
    assert after.conversations.Keys == db.conversations.Keys + {id};
    forall i | 0 <= i < |after.log|
      ensures after.log[i] in after.messages && after.messages[after.log[i]].conversation != id
    {
      assert after.log[i] in db.messages;
    }
    ThreadNone(after.log, after.messages, id);
  }

  /** A repeated conversation id is refused and changes nothing. */
  lemma ExistingConversationRejected(db: Db, data: Payload, elapsed: nat)
    requires Truthy(data, "id") && ParseUuid(data["id"]).Some?
    requires ParseUuid(data["id"]).value in db.conversations
    ensures NewConversation(db, data, elapsed) == Response(BAD_REQUEST, db)
  {
  }

  /** The duplicate-message check runs before the conversation lookup: a
      repeated message id is 400 even when the conversation does not exist. */
  lemma DuplicateMessageBeforeLookup(db: Db, data: Payload, elapsed: nat)
    requires MessageFieldsPresent(data)
    requires ParseUuid(data["id"]).Some? && ParseUuid(data["id"]).value in db.messages
    ensures NewMessage(db, data, elapsed) == Response(BAD_REQUEST, db)
  {
  }

  /** A fresh message aimed at a well-formed but unknown conversation id is 404. */
  lemma UnknownConversationNotFound(db: Db, data: Payload, elapsed: nat)
    requires MessageFieldsPresent(data)
    requires ParseUuid(data["id"]).Some? && ParseUuid(data["id"]).value !in db.messages
    requires ParseUuid(data["conversation_id"]).Some?
    requires ParseUuid(data["conversation_id"]).value !in db.conversations
    ensures NewMessage(db, data, elapsed) == Response(NOT_FOUND, db)
  {
  }

  /** A CLOSED conversation never receives a message. */
  lemma ClosedConversationRefusesMessages(db: Db, data: Payload, elapsed: nat)
    requires MessageFieldsPresent(data) && ParseUuid(data["conversation_id"]).Some?
    requires var cid := ParseUuid(data["conversation_id"]).value;
             cid in db.conversations && db.conversations[cid].state == Closed
    ensures NewMessage(db, data, elapsed).status == BAD_REQUEST
    ensures NewMessage(db, data, elapsed).db == db
  {
  }

  /** A created message carries the payload's keys, direction and content, is
      the only new row, and goes to an OPEN conversation. */
  lemma NewMessageStoresOne(db: Db, data: Payload, elapsed: nat)
    requires Consistent(db)
    requires NewMessage(db, data, elapsed).status == CREATED
    ensures var mid, cid := ParseUuid(data["id"]).value, ParseUuid(data["conversation_id"]).value;
            var after := NewMessage(db, data, elapsed).db;
            && Consistent(after)
            && mid !in db.messages && cid in db.conversations && db.conversations[cid].state == Open
            && after.messages.Keys == db.messages.Keys + {mid}
            && after.messages[mid].conversation == cid
            && after.messages[mid].direction == data["direction"]
            && after.messages[mid].content == data["content"]
            && after.conversations == db.conversations
  {
    NewMessageKeepsConsistent(db, data, elapsed);
  }

  /** Appending a fresh key to the log adds it to the end of its own
      conversation's thread and to no other. */
  lemma ThreadAppend(log: seq<Uuid>, messages: map<Uuid, Message>, mid: Uuid, msg: Message, c: Uuid)
    requires forall i :: 0 <= i < |log| ==> log[i] in messages
    requires mid !in messages
    ensures forall i :: 0 <= i < |log + [mid]| ==> (log + [mid])[i] in messages[mid := msg]
    ensures Thread(log + [mid], messages[mid := msg], c)
            == Thread(log, messages, c) + (if msg.conversation == c then [mid] else [])
  {
    var m2, l2 := messages[mid := msg], log + [mid];
    assert forall i :: 0 <= i < |log| ==> l2[i] == log[i];
    assert l2[..|l2| - 1] == log;
    ThreadFrame(log, messages, m2, c);
  }

  /** The one way a message is created: every check passed, and the new row is
      added under the payload's key and appended to the log. */
  lemma NewMessageCreated(db: Db, data: Payload, elapsed: nat)
    requires NewMessage(db, data, elapsed).status == CREATED
    ensures MessageFieldsPresent(data)
    ensures ParseUuid(data["id"]).Some? && ParseUuid(data["conversation_id"]).Some?
    ensures var mid, cid := ParseUuid(data["id"]).value, ParseUuid(data["conversation_id"]).value;
            var now := db.clock + elapsed;
            && mid !in db.messages && cid in db.conversations && db.conversations[cid].state == Open
            && NewMessage(db, data, elapsed).db
               == db.(messages := db.messages[mid := Message(cid, data["direction"], data["content"], now)],
                      log := db.log + [mid], clock := now)
  {
  }

  /** A created message is appended at the end of its conversation's thread and
      every other thread is unchanged. */
  lemma NewMessageAppendsToThread(db: Db, data: Payload, elapsed: nat)
    requires Consistent(db)
    requires NewMessage(db, data, elapsed).status == CREATED
    ensures var mid, cid := ParseUuid(data["id"]).value, ParseUuid(data["conversation_id"]).value;
            var after := NewMessage(db, data, elapsed).db;
            && Consistent(after)
            && ThreadOf(after, cid) == ThreadOf(db, cid) + [mid]
            && (forall c :: c != cid ==> ThreadOf(after, c) == ThreadOf(db, c))
  {
    NewMessageCreated(db, data, elapsed);
    NewMessageKeepsConsistent(db, data, elapsed);
    var mid, cid := ParseUuid(data["id"]).value, ParseUuid(data["conversation_id"]).value;
    var msg := Message(cid, data["direction"], data["content"], db.clock + elapsed);
    forall c ensures Thread(db.log + [mid], db.messages[mid := msg], c)
                     == Thread(db.log, db.messages, c) + (if c == cid then [mid] else []) {
      ThreadAppend(db.log, db.messages, mid, msg, c);
    }
  }

  /** Closing by webhook succeeds on an already CLOSED conversation too, and a
      second close is the same as the first. */
  lemma WebhookCloseIdempotent(db: Db, data: Payload)
    requires CloseConversation(db, data).status == OK
    ensures var once := CloseConversation(db, data);
            var id := ParseUuid(data["id"]).value;
            && once.db.conversations[id].state == Closed
            && CloseConversation(once.db, data) == once
  {
    var once := CloseConversation(db, data);
    var id := ParseUuid(data["id"]).value;
    assert once.db.conversations[id := once.db.conversations[id].(state := Closed)] == once.db.conversations;
  }

  /** The REST endpoint refuses an already CLOSED conversation and closes an OPEN one. */
  lemma RestCloseOnlyOpen(db: Db, rawId: string)
    requires ParseUuid(rawId).Some? && ParseUuid(rawId).value in db.conversations
    ensures var id := ParseUuid(rawId).value;
            var r := RestClose(db, rawId);
            && (db.conversations[id].state == Closed ==> r == Response(BAD_REQUEST, db))
            && (db.conversations[id].state == Open ==>
                  r.status == OK && r.db.conversations[id].state == Closed
                  && r.db.conversations[id].createdAt == db.conversations[id].createdAt
                  && (forall c :: c in db.conversations && c != id ==> r.db.conversations[c] == db.conversations[c])
                  && r.db.messages == db.messages)
  {
  }

  // ---------------------------------------------------------------------------
  // The lifecycle: OPEN -> CLOSED only

  /** How the tables may change from `before` to `after`: rows are never
      removed, created_at never changes, CLOSED stays CLOSED, messages are
      immutable, and a new message never lands in a
      conversation that was already CLOSED. */
  ghost predicate Evolves(before: Db, after: Db) {
    && (forall c :: c in before.conversations ==>
          c in after.conversations
          && after.conversations[c].createdAt == before.conversations[c].createdAt
          && (before.conversations[c].state == Closed ==> after.conversations[c].state == Closed))
    && (forall m :: m in before.messages ==> m in after.messages && after.messages[m] == before.messages[m])
    && (forall m :: m in after.messages && m !in before.messages && after.messages[m].conversation in before.conversations
          ==> before.conversations[after.messages[m].conversation].state == Open)
  }

  lemma EvolvesTransitive(a: Db, b: Db, c: Db)
    requires Evolves(a, b) && Evolves(b, c)
    ensures Evolves(a, c)
  {
    forall m | m in c.messages && m !in a.messages && c.messages[m].conversation in a.conversations
      ensures a.conversations[c.messages[m].conversation].state == Open
    {
      var k := c.messages[m].conversation;
      if m in b.messages {
        assert b.messages[m] == c.messages[m];
      } else {
        assert b.conversations[k].state == Open;
      }
    }
  }

  lemma NewConversationEvolves(db: Db, data: Payload, elapsed: nat)
    ensures Evolves(db, NewConversation(db, data, elapsed).db)
  {
  }

  lemma NewMessageEvolves(db: Db, data: Payload, elapsed: nat)
    ensures Evolves(db, NewMessage(db, data, elapsed).db)
  {
    if NewMessage(db, data, elapsed).status == CREATED {
      NewMessageCreated(db, data, elapsed);
    }
  }

  lemma CloseEvolves(db: Db, data: Payload)
    ensures Evolves(db, CloseConversation(db, data).db)
  {
  }

  lemma PostEvolves(db: Db, body: Option<Envelope>, elapsed: nat)
    ensures Evolves(db, PostEvent(db, body, elapsed).db)
  {
    if WellFormed(body) {
      var data := body.value.data.value;
      NewConversationEvolves(db, data, elapsed);
      NewMessageEvolves(db, data, elapsed);
      CloseEvolves(db, data);
    }
  }

  lemma RestCloseEvolves(db: Db, rawId: string)
    ensures Evolves(db, RestClose(db, rawId).db)
  {
  }

  /** A webhook delivery: the body and the time since the previous insertion. */
  datatype Delivery = Delivery(body: Option<Envelope>, elapsed: nat)

  /** The store after a sequence of deliveries, in order. */
  function Replay(db: Db, ds: seq<Delivery>): Db
    decreases |ds|
  {
    if ds == [] then db else Replay(PostEvent(db, ds[0].body, ds[0].elapsed).db, ds[1..])
  }

  /** Over any sequence of webhook deliveries the tables only evolve: no
      handler ever reopens a conversation or rewrites a message. */
  lemma {:induction false} ReplayEvolves(db: Db, ds: seq<Delivery>)
    ensures Evolves(db, Replay(db, ds))
    decreases |ds|
  {
    if ds != [] {
      var next := PostEvent(db, ds[0].body, ds[0].elapsed).db;
      PostEvolves(db, ds[0].body, ds[0].elapsed);
      ReplayEvolves(next, ds[1..]);
      EvolvesTransitive(db, next, Replay(next, ds[1..]));
    }
  }

  /** Closing is terminal: once a conversation is CLOSED, no sequence of
      deliveries reopens it or adds a message to it. */
  lemma ClosedIsTerminal(db: Db, ds: seq<Delivery>, c: Uuid)
    requires c in db.conversations && db.conversations[c].state == Closed
    ensures var after := Replay(db, ds);
            && c in after.conversations && after.conversations[c].state == Closed
            && (forall m :: m in after.messages && after.messages[m].conversation == c ==> m in db.messages)
  {
    ReplayEvolves(db, ds);
  }

  /** Deleting a conversation leaves no message pointing at it. */
  lemma CascadeLeavesNoOrphans(db: Db, id: Uuid)
    requires Consistent(db)
    ensures var after := DeleteConversation(db, id);
            && Consistent(after)
            && id !in after.conversations
            && ThreadOf(after, id) == []
            && (forall c :: c != id && c in db.conversations ==> ThreadOf(after, c) == ThreadOf(db, c))
  {
    var after := DeleteConversation(db, id);
    DeleteKeepsConsistent(db, id);
    ThreadNone(after.log, after.messages, id);
    forall c | c != id && c in db.conversations ensures ThreadOf(after, c) == ThreadOf(db, c) {
      KeepThread(db.log, db.messages, after.messages.Keys, id, c);
      ThreadFrame(after.log, after.messages, db.messages, c);
    }
  }

  lemma {:induction false} KeepThread(log: seq<Uuid>, messages: map<Uuid, Message>, keys: set<Uuid>, id: Uuid, c: Uuid)
    requires forall i :: 0 <= i < |log| ==> log[i] in messages
    requires forall x :: x in keys <==> x in messages && messages[x].conversation != id
    requires c != id
    ensures forall i :: 0 <= i < |KeepKeys(log, keys)| ==> KeepKeys(log, keys)[i] in messages
    ensures Thread(KeepKeys(log, keys), messages, c) == Thread(log, messages, c)
  {
    if log != [] {
      KeepThread(log[..|log| - 1], messages, keys, id, c);
    }
  }

  lemma {:induction false} ThreadNone(log: seq<Uuid>, messages: map<Uuid, Message>, c: Uuid)
    requires forall i :: 0 <= i < |log| ==> log[i] in messages && messages[log[i]].conversation != c
    ensures Thread(log, messages, c) == []
  {
    if log != [] {
      ThreadNone(log[..|log| - 1], messages, c);
    }
  }
}
