/** The chat service's in-memory conversation store: histories and
    metadata kept in two dictionaries under the same ids, histories
    trimmed to the newest `maxHistory` messages, a title taken from the
    first user message, and expiry after `timeout` seconds without
    activity. Clock readings and fresh ids are parameters. */
module Conversations {
  import opened Options
  import opened Text

  datatype Role = User | Assistant | System

  /** A chat message; its timestamp and free-form metadata are not read by
      the store and are left out. */
  datatype Message = Message(role: Role, content: string)

  /** The metadata of a conversation; `topics` is always empty. */
  datatype Meta = Meta(createdAt: int, lastActivity: int, title: string, topics: seq<string>)

  datatype Manager = Manager(
    conversations: map<string, seq<Message>>,
    metadata: map<string, Meta>,
    maxHistory: int,
    timeout: int)

  /** The store's invariant: every conversation has metadata and every
      metadata entry a conversation. */
  predicate Valid(m: Manager) {
    m.conversations.Keys == m.metadata.Keys
  }

  /** `ConversationManager()` with its defaults of 50 messages and an hour. */
  function NewManager(): (m: Manager)
    ensures Valid(m) && m.conversations == map[]
  {
    Manager(map[], map[], 50, 3600)
  }

  // ---------------------------------------------------------------------
  // Python's `h[-n:]`

  /** Python's `h[start:]` for any integer `start`: a negative start counts
      from the end, and starts beyond either end are clamped. */
  function SliceFrom<T>(h: seq<T>, start: int): seq<T> {
    if start >= 0 then (if start <= |h| then h[start..] else [])
    else if |h| + start < 0 then h
    else h[|h| + start..]
  }

  /** For positive `n`, `h[-n:]` is the newest `n` elements: a suffix of
      `h` of length `min(n, |h|)`. */
  lemma LastN<T>(h: seq<T>, n: int)
    requires n > 0
    ensures var r := SliceFrom(h, -n);
      |r| == (if n < |h| then n else |h|) && h == h[..|h| - |r|] + r
  {
  }

  /** With `n` zero, `h[-0:]` is all of `h`. */
  lemma LastZero<T>(h: seq<T>)
    ensures SliceFrom(h, -0) == h
  {
  }

  /** The length bound of `add_message`, and the trimming it does. */
  function Trim(h: seq<Message>, maxHistory: int): seq<Message> {
    if |h| > maxHistory then SliceFrom(h, -maxHistory) else h
  }

  /** A positive bound keeps the newest messages, at most the bound of
      them; a bound of zero keeps everything, and a negative bound `-k`
      drops the oldest `k` messages. */
  lemma TrimMeaning(h: seq<Message>, maxHistory: int)
    ensures maxHistory > 0 ==> (|Trim(h, maxHistory)| == (if |h| < maxHistory then |h| else maxHistory)
      && h == h[..|h| - |Trim(h, maxHistory)|] + Trim(h, maxHistory))
    ensures maxHistory == 0 ==> Trim(h, maxHistory) == h
    ensures maxHistory < 0 ==> Trim(h, maxHistory) == (if -maxHistory <= |h| then h[-maxHistory..] else [])
  {
    if maxHistory > 0 {
      LastN(h, maxHistory);
    }
  }

  // ---------------------------------------------------------------------
  // Operations

  /** `create_conversation`, with the fresh id and the clock reading as
      parameters. An id already in use is reset. */
  function Create(m: Manager, id: string, now: int): (r: Manager)
    ensures r.conversations == m.conversations[id := []]
    ensures r.metadata == m.metadata[id := Meta(now, now, "New Conversation", [])]
    ensures r.maxHistory == m.maxHistory && r.timeout == m.timeout
  {
    m.(conversations := m.conversations[id := []],
       metadata := m.metadata[id := Meta(now, now, "New Conversation", [])])
  }

  /** The title drawn from a first user message: its first 50 characters,
      with "..." when it is longer. */
  function Title(content: string): (t: string)
    ensures |content| <= 50 ==> t == content
    ensures |content| > 50 ==> |t| == 53 && t[..50] == content[..50] && t[50..] == "..."
  {
    if |content| > 50 then content[..50] + "..." else content
  }

  /** `add_message`: the new store and the returned flag. An unknown id
      changes nothing and gives false. The message is appended before the
      metadata is touched, so a conversation without metadata keeps the
      message and still reports false. */
  function AddMessage(m: Manager, id: string, role: Role, content: string, now: int): (r: (Manager, bool))
    ensures r.1 <==> id in m.conversations && id in m.metadata
    ensures id !in m.conversations ==> r.0 == m
    ensures r.0.maxHistory == m.maxHistory && r.0.timeout == m.timeout
    ensures r.0.conversations.Keys == m.conversations.Keys && r.0.metadata.Keys == m.metadata.Keys
  {
    if id !in m.conversations then (m, false)
    else
      var appended := m.conversations[id] + [Message(role, content)];
      if id !in m.metadata then (m.(conversations := m.conversations[id := appended]), false)
      else
        var h := Trim(appended, m.maxHistory);
        var meta := m.metadata[id].(lastActivity := now);
        var meta' := if role == User && |h| == 1 then meta.(title := Title(content)) else meta;
        (m.(conversations := m.conversations[id := h], metadata := m.metadata[id := meta']), true)
  }

  /** Whether a conversation's last activity lies more than `timeout`
      seconds before `now`. */
  predicate Expired(m: Manager, id: string, now: int)
    requires id in m.metadata
  {
    now - m.metadata[id].lastActivity > m.timeout
  }

  /** `get_conversation`: the history of a known conversation that has not
      expired. */
  function GetConversation(m: Manager, id: string, now: int): (r: Option<seq<Message>>)
    requires Valid(m)
    ensures r.Some? <==> id in m.conversations && !Expired(m, id, now)
    ensures r.Some? ==> r.value == m.conversations[id]
  {
    if id !in m.conversations then None
    else if Expired(m, id, now) then None
    else Some(m.conversations[id])
  }

  /** How `get_conversation_context` names a role. */
  function Speaker(role: Role): string {
    if role == User then "User" else "Assistant"
  }

  /** One line of context per message. */
  function ContextLines(msgs: seq<Message>): (r: seq<string>)
    ensures |r| == |msgs|
    ensures forall k :: 0 <= k < |msgs| ==> r[k] == Speaker(msgs[k].role) + ": " + msgs[k].content
  {
    seq(|msgs|, (k: int) requires 0 <= k < |msgs| => Speaker(msgs[k].role) + ": " + msgs[k].content)
  }

  /** `get_conversation_context`: the newest six messages of a live,
      non-empty conversation, one line each, joined by newlines. */
  function Context(m: Manager, id: string, now: int): (r: string)
    requires Valid(m)
    ensures GetConversation(m, id, now).None? ==> r == ""
    ensures GetConversation(m, id, now) == Some([]) ==> r == ""
  {
    match GetConversation(m, id, now)
    case None => ""
    case Some(h) => if h == [] then "" else Join(ContextLines(SliceFrom(h, -6)), "\n")
  }

  /** The context of a live conversation is its newest six messages, one
      line each in order; older messages do not matter. */
  lemma ContextOfRecent(m: Manager, id: string, now: int)
    requires Valid(m) && id in m.conversations && !Expired(m, id, now) && m.conversations[id] != []
    ensures var h := m.conversations[id];
      var recent := h[|h| - (if |h| < 6 then |h| else 6)..];
      Context(m, id, now) == Join(ContextLines(recent), "\n") && 1 <= |recent| <= 6
  {
    var h := m.conversations[id];
    LastN(h, 6);
  }

  /** `cleanup_expired_conversations` at clock reading `now`. */
  function Cleanup(m: Manager, now: int): (r: Manager)
    requires Valid(m)
    ensures Valid(r)
    ensures forall id :: id in r.conversations <==> id in m.conversations && !Expired(m, id, now)
    ensures r.maxHistory == m.maxHistory && r.timeout == m.timeout
  {
    var live := set id | id in m.metadata && !Expired(m, id, now);
    m.(conversations := map id | id in live :: m.conversations[id],
       metadata := map id | id in live :: m.metadata[id])
  }

  // ---------------------------------------------------------------------
  // Properties

  /** Every operation keeps the invariant. */
  lemma OperationsKeepValid(m: Manager, id: string, role: Role, content: string, now: int)
    requires Valid(m)
    ensures Valid(Create(m, id, now))
    ensures Valid(AddMessage(m, id, role, content, now).0)
    ensures Valid(Cleanup(m, now))
  {
  }

  /** On a valid store, adding to a known conversation succeeds: its
      history becomes the old one with the message appended, trimmed; its
      last activity becomes `now`; no other conversation changes. */
  lemma AddMessageEffect(m: Manager, id: string, role: Role, content: string, now: int)
    requires Valid(m) && id in m.conversations
    ensures var (r, ok) := AddMessage(m, id, role, content, now);
      ok
      && r.conversations[id] == Trim(m.conversations[id] + [Message(role, content)], m.maxHistory)
      && r.metadata[id].lastActivity == now && r.metadata[id].createdAt == m.metadata[id].createdAt
      && (forall k :: k in m.conversations && k != id ==>
            r.conversations[k] == m.conversations[k] && r.metadata[k] == m.metadata[k])
  {
  }

  /** With a positive bound the newest message is the one just added and
      the history never exceeds the bound. */
  lemma AddMessageNewest(m: Manager, id: string, role: Role, content: string, now: int)
    requires Valid(m) && id in m.conversations && m.maxHistory > 0
    ensures var h := AddMessage(m, id, role, content, now).0.conversations[id];
      |h| <= m.maxHistory && |h| >= 1 && h[|h| - 1] == Message(role, content)
  {
    TrimMeaning(m.conversations[id] + [Message(role, content)], m.maxHistory);
  }

  /** The title changes exactly when a user message leaves the history
      with one message, and then it is drawn from that message. */
  lemma AddMessageTitle(m: Manager, id: string, role: Role, content: string, now: int)
    requires Valid(m) && id in m.conversations
    ensures var r := AddMessage(m, id, role, content, now).0;
      var h := Trim(m.conversations[id] + [Message(role, content)], m.maxHistory);
      r.metadata[id].title == if role == User && |h| == 1 then Title(content) else m.metadata[id].title
  {
  }

  /** The first user message of a fresh conversation names it (unless a
      negative bound trims it away at once), and with a bound of one
      message every user message renames it. */
  lemma FirstMessageNames(m: Manager, id: string, content: string, now: int)
    requires Valid(m) && id in m.conversations
    requires (m.conversations[id] == [] && m.maxHistory >= 0) || m.maxHistory == 1
    ensures AddMessage(m, id, User, content, now).0.metadata[id].title == Title(content)
  {
    var h := m.conversations[id] + [Message(User, content)];
    if m.maxHistory == 1 && |h| > 1 {
      assert |SliceFrom(h, -1)| == 1;
    }
  }

  /** A new conversation can be read back empty at once, unless the
      timeout is negative. */
  lemma CreateThenGet(m: Manager, id: string, now: int)
    requires Valid(m)
    ensures GetConversation(Create(m, id, now), id, now) == if m.timeout >= 0 then Some([]) else None
  {
  }

  /** An expired conversation still accepts messages, and the new activity
      revives it. */
  lemma ExpiredStillAccepts(m: Manager, id: string, role: Role, content: string, now: int)
    requires Valid(m) && id in m.conversations && Expired(m, id, now) && m.timeout >= 0
    ensures GetConversation(m, id, now).None?
    ensures var r := AddMessage(m, id, role, content, now);
      r.1 && GetConversation(r.0, id, now).Some?
  {
  }

  /** Cleaning up changes no reading taken at the same time, and leaves no
      expired conversation behind. */
  lemma CleanupInvisible(m: Manager, now: int, id: string)
    requires Valid(m)
    ensures GetConversation(Cleanup(m, now), id, now) == GetConversation(m, id, now)
    ensures Context(Cleanup(m, now), id, now) == Context(m, id, now)
    ensures id in Cleanup(m, now).conversations ==> !Expired(Cleanup(m, now), id, now)
  {
  }
}
