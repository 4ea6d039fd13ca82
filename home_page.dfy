/** frontend/src/app/page.tsx: the page controller that holds the conversation
    list and the open conversation, turns user actions into webhook events and
    fetches, and the dashboard's figures.

    Network calls are not made here: each method returns the request it issues
    (a webhook event, a conversation id to fetch), and the outcome of a call is a
    parameter of the method that continues after it. Fresh UUIDs, the clock and
    the random pick of a canned reply are parameters too. */
module HomePage {
  import opened Text
  import opened Choices
  import opened Chat
  import opened PhoneForm
  import ChatView
  import Models
  import Webhook

  /** The `data` object of an outgoing webhook event. */
  type Fields = map<string, string>

  datatype Event = Event(eventType: string, data: Fields)

  datatype Screen = DashboardScreen | ChatScreen | AnalyticsScreen

  /** The six canned customer replies. */
  const Phrases: seq<string> := [
    "Ol\U{00E1}, obrigado pelo contato! Como posso ajudar?",
    "Entendi sua solicita\U{00E7}\U{00E3}o. Pode me dar mais detalhes?",
    "Estou avaliando sua proposta, aguarde um momento.",
    "Perfeito! Vamos prosseguir com o atendimento.",
    "Preciso de mais informa\U{00E7}\U{00F5}es sobre isso. Voc\U{00EA} poderia detalhar?",
    "Agrade\U{00E7}o o retorno. Estou \U{00E0} disposi\U{00E7}\U{00E3}o para ajudar."
  ]

  /** `Math.floor(Math.random() * 6)`. */
  type PhraseIndex = i: int | 0 <= i < 6

  // ---------------------------------------------------------------------------
  // The simulated reply

  /** The content handleSimulateResponse posts and whether it empties the shared
      slot: a truthy pending manual reply is used and cleared; otherwise a
      canned phrase is used and the slot is left alone. */
  function SimulatedContent(pending: Option<string>, pick: PhraseIndex): (r: (string, bool))
    ensures r.1 <==> pending.Some? && pending.value != ""
    ensures r.1 ==> r.0 == pending.value
    ensures !r.1 ==> r.0 in Phrases
  {
    if pending.Some? && pending.value != "" then (pending.value, true) else (Phrases[pick], false)
  }

  /** A manual reply written in the chat view is the text that is posted, and
      the slot is emptied so the next simulated reply is a canned one again. */
  lemma ManualReplyDelivered(text: string, pick: PhraseIndex, next: PhraseIndex)
    requires !Blank(text)
    ensures SimulatedContent(Some(text), pick) == (text, true)
    ensures SimulatedContent(None, next).0 == Phrases[next]
  {
  }

  // ---------------------------------------------------------------------------
  // The dashboard

  /** The number of messages over the list (the reduce), missing arrays counting 0. */
  function TotalMessages(conversations: seq<Conversation>): (n: nat)
  {
    if conversations == [] then 0
    else TotalMessages(conversations[..|conversations| - 1]) + |MessagesOf(conversations[|conversations| - 1])|
  }

  datatype DashboardStats = DashboardStats(total: nat, open: nat, closed: nat, totalMessages: nat)

  /** The dashboard's counters. */
  function StatsOf(conversations: seq<Conversation>): (r: DashboardStats)
    ensures r.total == |conversations| && r.open + r.closed == r.total
  {
    CountStatesPartition(conversations);
    DashboardStats(|conversations|, CountState(conversations, Open), CountState(conversations, Closed),
                   TotalMessages(conversations))
  }

  function OpenPercentage(s: DashboardStats): real {
    if s.total > 0 then (s.open as real / s.total as real) * 100.0 else 0.0
  }

  function ClosedPercentage(s: DashboardStats): real {
    if s.total > 0 then (s.closed as real / s.total as real) * 100.0 else 0.0
  }

  /** A share of a positive total, as a percentage, lies in [0, 100]. */
  lemma ShareBounds(part: nat, total: nat)
    requires 0 < total && part <= total
    ensures 0.0 <= (part as real / total as real) * 100.0 <= 100.0
  {
    var t := total as real;
    var q := part as real / t;
    assert q * t == part as real;
    assert q <= 1.0;
  }

  /** Two shares of a positive total that make up the total add up to 100%. */
  lemma SharesSum(a: nat, b: nat)
    requires a + b > 0
    ensures (a as real / (a + b) as real) * 100.0 + (b as real / (a + b) as real) * 100.0 == 100.0
  {
    var t := (a + b) as real;
    var p, q := a as real / t, b as real / t;
    assert p * t == a as real && q * t == b as real;
    assert t == a as real + b as real;
    assert (p + q) * t == p * t + q * t;
    assert p + q == 1.0;
  }

  /** Both percentages are 0 for an empty list; otherwise they lie in [0, 100]
      and add up to 100. */
  lemma PercentagesSplit(conversations: seq<Conversation>)
    ensures var s := StatsOf(conversations);
            && (s.total == 0 ==> OpenPercentage(s) == 0.0 && ClosedPercentage(s) == 0.0)
            && (s.total > 0 ==> OpenPercentage(s) + ClosedPercentage(s) == 100.0)
            && 0.0 <= OpenPercentage(s) <= 100.0 && 0.0 <= ClosedPercentage(s) <= 100.0
  {
    var s := StatsOf(conversations);
    if s.total > 0 {
      ShareBounds(s.open, s.total);
      ShareBounds(s.closed, s.total);
      SharesSum(s.open, s.closed);
    }
  }

  /** Math.ceil(a / b) for a non-negative numerator. */
  function CeilDiv(a: nat, b: nat): (r: nat)
    requires b > 0
    ensures r * b >= a && (a > 0 ==> (r - 1) * b < a) && (a == 0 ==> r == 0)
  {
    (a + b - 1) / b
  }

  datatype Ago = DaysAgo(days: nat) | HoursAgo(hours: nat) | MinutesAgo(minutes: nat)

  /** The "time ago" label of the recent list: whole days if more than one,
      else whole hours if more than one, else minutes, each rounded up, of the
      distance between `now` and created_at. The clock is read twice: `fallback`
      is the reading that stands in for a missing created_at, `now` the one
      taken just after. */
  function TimeAgo(fallback: int, now: int, createdAt: Option<int>): Ago {
    var date := if createdAt.Some? then createdAt.value else fallback;
    var diff := Abs(now - date);
    var days, hours, minutes := CeilDiv(diff, DAY), CeilDiv(diff, HOUR), CeilDiv(diff, MINUTE);
    if days > 1 then DaysAgo(days)
    else if hours > 1 then HoursAgo(hours)
    else MinutesAgo(minutes)
  }

  /** Which unit is chosen: days beyond one day, hours (2 to 24) beyond one
      hour, minutes (0 to 60) otherwise. A missing date reads "0 minutes" when
      both clock readings agree and "1 minute" when they are less than a minute
      apart. */
  lemma TimeAgoUnits(fallback: int, now: int, createdAt: Option<int>)
    ensures var diff := Abs(now - (if createdAt.Some? then createdAt.value else fallback));
            match TimeAgo(fallback, now, createdAt)
            case DaysAgo(n) => diff > DAY && n >= 2
            case HoursAgo(n) => HOUR < diff <= DAY && 2 <= n <= 24
            case MinutesAgo(n) => diff <= HOUR && n <= 60
    ensures createdAt.None? && Abs(now - fallback) <= MINUTE ==>
              TimeAgo(fallback, now, createdAt) == MinutesAgo(if now == fallback then 0 else 1)
  {
    var diff := Abs(now - (if createdAt.Some? then createdAt.value else fallback));
    var days, hours, minutes := CeilDiv(diff, DAY), CeilDiv(diff, HOUR), CeilDiv(diff, MINUTE);
    if days <= 1 && hours > 1 {
      assert diff <= DAY;
      assert (hours - 1) * HOUR < diff;
    } else if days <= 1 && hours <= 1 {
      assert diff <= HOUR;
      assert (minutes - 1) * MINUTE < diff || minutes == 0;
    }
  }

  /** The recent list: the first eight conversations. */
  function Recent(conversations: seq<Conversation>): seq<Conversation> {
    if |conversations| <= 8 then conversations else conversations[..8]
  }

  /** The "view all" link. */
  predicate ShowViewAll(conversations: seq<Conversation>) {
    |conversations| > 8
  }

  /** The recent list is a prefix of at most eight, and "view all" appears
      exactly when it leaves conversations out. */
  lemma RecentAndViewAll(conversations: seq<Conversation>)
    ensures |Recent(conversations)| <= 8 && Recent(conversations) <= conversations
    ensures ShowViewAll(conversations) <==> Recent(conversations) != conversations
  {
  }

  // ---------------------------------------------------------------------------
  // The controller

  /** The NEW_MESSAGE event for a message the agent writes. */
  function SentEvent(id: string, conversationId: string, content: string): Event {
    Event("NEW_MESSAGE", map["id" := id, "conversation_id" := conversationId, "direction" := DirectionLabel(Sent),
                             "content" := content])
  }

  /** The NEW_CONVERSATION event for a fresh conversation id. */
  function CreateEvent(newId: string): Event {
    Event("NEW_CONVERSATION", map["id" := newId])
  }

  /** The CLOSE_CONVERSATION event for a conversation id. */
  function CloseEvent(id: string): Event {
    Event("CLOSE_CONVERSATION", map["id" := id])
  }

  /** The body sendWebhook posts, `{type, timestamp, data}`, as the webhook view
      reads it (the timestamp is not read). */
  function Delivered(e: Event): Option<Webhook.Envelope> {
    Some(Webhook.Envelope(Some(e.eventType), Some(e.data)))
  }

  // ---------------------------------------------------------------------------
  // What the backend makes of the events the page sends. Ids the browser
  // invents with crypto.randomUUID are the dashed form of a canonical key.

  /** The creation event for a key the store does not hold is accepted with
      201 and adds exactly that conversation, OPEN, touching no message. */
  lemma CreateEventAccepted(db: Webhook.Db, u: Models.Uuid, elapsed: nat)
    requires Models.IsCanonicalUuid(u) && u !in db.conversations
    ensures var r := Webhook.PostEvent(db, Delivered(CreateEvent(Models.Dashed(u))), elapsed);
            && r.status == Webhook.CREATED
            && r.db.conversations.Keys == db.conversations.Keys + {u}
            && r.db.conversations[u].state == Open
            && (forall c :: c in db.conversations ==> r.db.conversations[c] == db.conversations[c])
            && r.db.messages == db.messages
  {
    Models.ParseCanonical(u);
    var e := CreateEvent(Models.Dashed(u));
    assert "id" in e.data && e.data["id"] == Models.Dashed(u) && |Models.Dashed(u)| == 36;
    assert Webhook.WellFormed(Delivered(e));
    assert Webhook.PostEvent(db, Delivered(e), elapsed) == Webhook.NewConversation(db, e.data, elapsed);
  }

  /** A key the store already holds is refused with 400 and nothing changes.
      sendWebhook then throws, and the page reports the failure and leaves its
      list alone; the modal still shows success (see SubmitFromModal). */
  lemma CreateEventCollides(db: Webhook.Db, u: Models.Uuid, elapsed: nat)
    requires Models.IsCanonicalUuid(u) && u in db.conversations
    ensures Webhook.PostEvent(db, Delivered(CreateEvent(Models.Dashed(u))), elapsed)
            == Webhook.Response(Webhook.BAD_REQUEST, db)
  {
    Models.ParseCanonical(u);
    var e := CreateEvent(Models.Dashed(u));
    assert "id" in e.data && e.data["id"] == Models.Dashed(u) && |Models.Dashed(u)| == 36;
    assert Webhook.WellFormed(Delivered(e));
    assert Webhook.PostEvent(db, Delivered(e), elapsed) == Webhook.NewConversation(db, e.data, elapsed);
  }

  /** The close event for a stored conversation is accepted with 200 and leaves
      it CLOSED, whatever its state, touching nothing else. */
  lemma CloseEventAccepted(db: Webhook.Db, u: Models.Uuid, elapsed: nat)
    requires Models.IsCanonicalUuid(u) && u in db.conversations
    ensures var r := Webhook.PostEvent(db, Delivered(CloseEvent(Models.Dashed(u))), elapsed);
            && r.status == Webhook.OK
            && r.db.conversations.Keys == db.conversations.Keys
            && r.db.conversations[u] == db.conversations[u].(state := Closed)
            && (forall c :: c in db.conversations && c != u ==> r.db.conversations[c] == db.conversations[c])
            && r.db.messages == db.messages
  {
    Models.ParseCanonical(u);
    var e := CloseEvent(Models.Dashed(u));
    assert "id" in e.data && e.data["id"] == Models.Dashed(u) && |Models.Dashed(u)| == 36;
    assert Webhook.WellFormed(Delivered(e));
    assert Webhook.PostEvent(db, Delivered(e), elapsed) == Webhook.CloseConversation(db, e.data);
  }

  /** The event of an accepted send, for a fresh message key and a conversation
      the store holds OPEN, is accepted with 201 and stores the message as
      written, with a direction that reads back as SENT. */
  lemma SentEventAccepted(db: Webhook.Db, mu: Models.Uuid, cu: Models.Uuid, content: string, elapsed: nat)
    requires Models.IsCanonicalUuid(mu) && mu !in db.messages
    requires Models.IsCanonicalUuid(cu) && cu in db.conversations && db.conversations[cu].state == Open
    requires !Blank(content)
    ensures var r := Webhook.PostEvent(db, Delivered(SentEvent(Models.Dashed(mu), Models.Dashed(cu), content)), elapsed);
            && r.status == Webhook.CREATED
            && r.db.messages.Keys == db.messages.Keys + {mu}
            && r.db.messages[mu] == Models.Message(cu, DirectionLabel(Sent), content, db.clock + elapsed)
            && ParseDirection(r.db.messages[mu].direction) == Some(Sent)
            && r.db.conversations == db.conversations
  {
    Models.ParseCanonical(mu);
    Models.ParseCanonical(cu);
    DirectionLabelRoundTrip(Sent);
    assert Blank("");
    var e := SentEvent(Models.Dashed(mu), Models.Dashed(cu), content);
    assert e.data["id"] == Models.Dashed(mu) && |Models.Dashed(mu)| == 36;
    assert e.data["conversation_id"] == Models.Dashed(cu) && |Models.Dashed(cu)| == 36;
    assert e.data["direction"] == "SENT" && e.data["content"] == content;
    assert Webhook.MessageFieldsPresent(e.data);
    assert Webhook.WellFormed(Delivered(e));
    assert Webhook.PostEvent(db, Delivered(e), elapsed) == Webhook.NewMessage(db, e.data, elapsed);
  }

  /** The page's state slots. */
  class Home {
    var conversations: seq<Conversation>
    var active: Option<Conversation>
    var showNew: bool
    var view: Screen
    var loadingConversation: bool

    constructor ()
      ensures conversations == [] && active == None && !showNew && view == DashboardScreen && !loadingConversation
    {
      conversations, active, showNew, view, loadingConversation := [], None, false, DashboardScreen, false;
    }

    /** handleConversationSelect, up to the fetch: 'new' only opens the modal;
        any other id starts loading and is fetched. */
    method SelectConversation(id: string) returns (fetch: Option<string>)
      modifies this
      ensures id == "new" ==> fetch == None && showNew && loadingConversation == old(loadingConversation)
      ensures id != "new" ==> fetch == Some(id) && loadingConversation && showNew == old(showNew)
      ensures active == old(active) && view == old(view) && conversations == old(conversations)
    {
      if id == "new" {
        showNew := true;
        return None;
      }
      loadingConversation := true;
      fetch := Some(id);
    }

    /** handleConversationSelect, after the fetch settles (None: it failed). */
    method FinishSelect(fetched: Option<Conversation>)
      modifies this
      ensures !loadingConversation
      ensures fetched.Some? ==> active == fetched && view == ChatScreen
      ensures fetched.None? ==> active == old(active) && view == old(view)
      ensures conversations == old(conversations) && showNew == old(showNew)
    {
      if fetched.Some? {
        active := fetched;
        view := ChatScreen;
      }
      loadingConversation := false;
    }

    /** handleSendMessage, up to the webhook call: nothing at all without an
        OPEN active conversation and non-blank content; otherwise the message
        is appended to the open conversation at once, as SENT, with the content
        as typed, and the NEW_MESSAGE event carries the same id. */
    method SendMessage(content: string, freshId: string, now: int) returns (event: Option<Event>)
      modifies this
      ensures old(active).None? || old(active).value.state == Closed || Blank(content) ==>
                event == None && active == old(active)
      ensures old(active).Some? && old(active).value.state == Open && !Blank(content) ==>
                var c := old(active).value;
                && active == Some(c.(messages := Some(MessagesOf(c) + [Message(freshId, Sent, content, now, c.id)])))
                && event == Some(SentEvent(freshId, c.id, content))
      ensures conversations == old(conversations) && showNew == old(showNew) && view == old(view)
      ensures loadingConversation == old(loadingConversation)
    {
      if active.None? || active.value.state == Closed || Blank(content) {
        return None;
      }
      var c := active.value;
      var msg := Message(freshId, Sent, content, now, c.id);
      active := Some(c.(messages := Some(MessagesOf(c) + [msg])));
      event := Some(SentEvent(freshId, c.id, content));
    }

    /** handleCreateConversation, after the calls settle: a fetched conversation
        is put first and opened. Every failure is caught and only reported, so
        the promise the modal awaits always resolves: `rejected` is false. */
    method FinishCreate(fetched: Option<Conversation>) returns (rejected: bool)
      modifies this
      ensures !rejected
      ensures fetched.Some? ==>
                && conversations == [fetched.value] + old(conversations)
                && active == fetched && !showNew && view == ChatScreen
      ensures fetched.None? ==>
                conversations == old(conversations) && active == old(active)
                && showNew == old(showNew) && view == old(view)
      ensures loadingConversation == old(loadingConversation)
    {
      if fetched.Some? {
        conversations := [fetched.value] + conversations;
        active := fetched;
        showNew := false;
        view := ChatScreen;
      }
      rejected := false;
    }

    /** handleCloseConversation, after the calls settle. `fetched` is None when
        the webhook or the conversation fetch failed: the error is caught and
        nothing changes. Otherwise the refetched conversation becomes the active
        one and the refetched list replaces the list. fetchConversations never
        fails: on any error it answers the empty list, which then replaces the
        list all the same. */
    method FinishClose(fetched: Option<Conversation>, list: seq<Conversation>)
      modifies this
      ensures fetched.Some? ==> active == fetched && conversations == list
      ensures fetched.None? ==> active == old(active) && conversations == old(conversations)
      ensures showNew == old(showNew) && view == old(view) && loadingConversation == old(loadingConversation)
    {
      if fetched.Some? {
        active := fetched;
        conversations := list;
      }
    }

    /** handleSimulateResponse, up to the webhook call: a RECEIVED message with
        the pending manual reply if there is one (and the slot is emptied), or a
        canned phrase. The page's own state is not touched. */
    method SimulateResponse(conversationId: string, freshId: string, pick: PhraseIndex, win: Window)
      returns (event: Event)
      modifies win
      ensures var (content, cleared) := SimulatedContent(old(win.tempSimulatedMessage), pick);
              && event == Event("NEW_MESSAGE", map["id" := freshId, "direction" := DirectionLabel(Received),
                                                   "content" := content, "conversation_id" := conversationId])
              && win.tempSimulatedMessage == (if cleared then None else old(win.tempSimulatedMessage))
    {
      var content := "";
      if win.tempSimulatedMessage.Some? && win.tempSimulatedMessage.value != "" {
        content := win.tempSimulatedMessage.value;
        win.tempSimulatedMessage := None;
      } else {
        content := Phrases[pick];
      }
      event := Event("NEW_MESSAGE", map["id" := freshId, "direction" := DirectionLabel(Received),
                                        "content" := content, "conversation_id" := conversationId]);
    }
  }

  /** The chat view's manual-reply button wired to the page: the text the agent
      typed is left in the shared slot, the page's simulate handler posts exactly
      that text as a RECEIVED message on the active conversation, and the slot
      is empty again afterwards. */
  method ManualReplyFromView(home: Home, text: string, freshId: string, pick: PhraseIndex, win: Window)
    returns (event: Option<Event>)
    modifies win
    ensures home.active.None? || Blank(text) ==>
              event == None && win.tempSimulatedMessage == old(win.tempSimulatedMessage)
    ensures home.active.Some? && !Blank(text) ==>
              && event == Some(Event("NEW_MESSAGE", map["id" := freshId, "direction" := DirectionLabel(Received),
                                                         "content" := text,
                                                         "conversation_id" := home.active.value.id]))
              && win.tempSimulatedMessage == None
  {
    var invoked := ChatView.HandleManualResponse(home.active, true, text, win);
    if !invoked {
      return None;
    }
    ManualReplyDelivered(text, pick, pick);
    var e := home.SimulateResponse(home.active.value.id, freshId, pick, win);
    event := Some(e);
  }

  /** The modal's submit wired to the page: whatever happens to the calls, the
      modal is told the creation succeeded, so its failure branch (back to step
      1 with an error) is never taken through this page. A submit made while one
      is in flight is ignored and leaves the modal as it was, still loading. */
  method SubmitFromModal(home: Home, modal: Modal, newId: string, fetched: Option<Conversation>)
    returns (event: Option<Event>)
    requires modal.Valid()
    modifies home, modal
    ensures modal.Valid()
    ensures old(modal.isLoading) ==>
              && event == None && modal.isLoading && modal.success == old(modal.success)
              && modal.step == old(modal.step) && modal.errors == old(modal.errors)
              && modal.name == old(modal.name) && modal.phone == old(modal.phone)
    ensures !old(modal.isLoading) ==>
              event == Some(CreateEvent(newId)) && !modal.isLoading && modal.success && modal.step == old(modal.step)
    ensures old(modal.isLoading) ==>
              && home.conversations == old(home.conversations) && home.active == old(home.active)
              && home.showNew == old(home.showNew) && home.view == old(home.view)
    ensures !old(modal.isLoading) && fetched.Some? ==>
              && home.conversations == [fetched.value] + old(home.conversations)
              && home.active == fetched && !home.showNew && home.view == ChatScreen
    ensures !old(modal.isLoading) && fetched.None? ==>
              home.conversations == old(home.conversations) && home.active == old(home.active)
  {
    var started := modal.HandleSubmit();
    if !started {
      return None;
    }
    var e := CreateEvent(newId);
    var rejected := home.FinishCreate(fetched);
    modal.FinishSubmit(!rejected);
    event := Some(e);
  }
}
