/** The migration that turns each conversation's messages into a branch: parent pointers from
    every message to the one before it, and a pointer to the last. */
module ConversationBranches {
  import opened Options

  /** An id stands for its place in the text order of ids. */
  type Id = int

  datatype Message = Message(conversation: Id, createdAt: int, content: string, parent: Option<Id>)
  datatype Conversation = Conversation(title: string, active: Option<Id>)

  type Messages = map<Id, Message>

  /** `ORDER BY created_at, id`. */
  predicate Before(ms: Messages, i: Id, j: Id)
    requires i in ms && j in ms
  {
    ms[i].createdAt < ms[j].createdAt || (ms[i].createdAt == ms[j].createdAt && i < j)
  }

  predicate SameConversation(ms: Messages, i: Id, j: Id)
    requires i in ms && j in ms
  {
    ms[i].conversation == ms[j].conversation
  }

  predicate IsEarlier(ms: Messages, i: Id, j: Id)
    requires i in ms && j in ms
  {
    SameConversation(ms, i, j) && Before(ms, j, i)
  }

  /** `lag(id)` within the conversation: the last message before `i`, if there is one. */
  predicate IsLag(ms: Messages, i: Id, lag: Option<Id>)
    requires i in ms
  {
    match lag
    case None => forall j | j in ms && SameConversation(ms, i, j) :: !Before(ms, j, i)
    case Some(p) =>
      && p in ms && SameConversation(ms, i, p) && Before(ms, p, i)
      && forall j | j in ms && SameConversation(ms, i, j) && Before(ms, j, i) :: j == p || Before(ms, j, p)
  }

  /** The last message of a conversation, if it has one. */
  predicate IsLast(ms: Messages, conversation: Id, last: Option<Id>) {
    match last
    case None => forall j | j in ms :: ms[j].conversation != conversation
    case Some(l) =>
      && l in ms && ms[l].conversation == conversation
      && forall j | j in ms && ms[j].conversation == conversation :: j == l || Before(ms, j, l)
  }

  /** Every parent pointer is the message's predecessor. */
  predicate Linked(ms: Messages) {
    forall i | i in ms :: IsLag(ms, i, ms[i].parent)
  }

  class AgentTables {
    var messages: Messages
    var conversations: map<Id, Conversation>

    constructor (messages: Messages, conversations: map<Id, Conversation>)
      ensures this.messages == messages && this.conversations == conversations
    {
      this.messages, this.conversations := messages, conversations;
    }

    /** The window function, for one row. */
    method Lag(i: Id) returns (lag: Option<Id>)
      requires i in messages
      ensures IsLag(messages, i, lag)
    {
      lag := None;
      var todo := messages.Keys;
      while exists j :: j in todo
        invariant todo <= messages.Keys
        invariant lag.Some? ==> lag.value in messages && IsEarlier(messages, i, lag.value)
        invariant forall j | j in messages && j !in todo && IsEarlier(messages, i, j) ::
                    lag.Some? && (j == lag.value || Before(messages, j, lag.value))
        decreases todo
      {
        var j :| j in todo;
        todo := todo - {j};
        if IsEarlier(messages, i, j) && (lag.None? || Before(messages, lag.value, j)) {
          lag := Some(j);
        }
      }
      assert forall j :: j !in todo;
    }

    /** The subquery with a descending order and a limit of one row. */
    method Last(conversation: Id) returns (last: Option<Id>)
      ensures IsLast(messages, conversation, last)
    {
      last := None;
      var todo := messages.Keys;
      while exists j :: j in todo
        invariant todo <= messages.Keys
        invariant last.Some? ==> last.value in messages && messages[last.value].conversation == conversation
        invariant forall j | j in messages && j !in todo && messages[j].conversation == conversation ::
                    last.Some? && (j == last.value || Before(messages, j, last.value))
        decreases todo
      {
        var j :| j in todo;
        todo := todo - {j};
        if messages[j].conversation == conversation && (last.None? || Before(messages, last.value, j)) {
          last := Some(j);
        }
      }
      assert forall j :: j !in todo;
    }

    method SetParents()
      modifies this`messages
      ensures messages.Keys == old(messages).Keys && Linked(messages)
      ensures forall i | i in messages :: messages[i] == old(messages)[i].(parent := messages[i].parent)
    {
      ghost var before := messages;
      var todo := messages.Keys;
      while exists i :: i in todo
        invariant todo <= messages.Keys == before.Keys
        invariant forall i | i in messages :: messages[i] == before[i].(parent := messages[i].parent)
        invariant forall i | i in messages && i !in todo :: IsLag(before, i, messages[i].parent)
        decreases todo
      {
        var i :| i in todo;
        var lag := Lag(i);
        LagIgnoresParents(messages, before, i, lag);
        messages := messages[i := messages[i].(parent := lag)];
        todo := todo - {i};
      }
      forall i | i in messages ensures IsLag(messages, i, messages[i].parent) {
        assert i !in todo;
        LagIgnoresParents(before, messages, i, messages[i].parent);
      }
    }

    method SetActive()
      modifies this`conversations
      ensures conversations.Keys == old(conversations).Keys
      ensures forall c | c in conversations ::
                && conversations[c] == old(conversations)[c].(active := conversations[c].active)
                && if exists i | i in messages :: messages[i].conversation == c
                   then conversations[c].active.Some? && IsLast(messages, c, conversations[c].active)
                   else conversations[c].active == old(conversations)[c].active
    {
      ghost var before := conversations;
      var todo := conversations.Keys;
      while exists c :: c in todo
        invariant todo <= conversations.Keys == before.Keys
        invariant forall c | c in todo :: conversations[c] == before[c]
        invariant forall c | c in conversations && c !in todo ::
                    && conversations[c] == before[c].(active := conversations[c].active)
                    && if exists i | i in messages :: messages[i].conversation == c
                       then conversations[c].active.Some? && IsLast(messages, c, conversations[c].active)
                       else conversations[c].active == before[c].active
        decreases todo
      {
        var c :| c in todo;
        var last := Last(c);
        if last.Some? {
          conversations := conversations[c := conversations[c].(active := last)];
        }
        todo := todo - {c};
      }
      assert forall c :: c !in todo;
    }

    method Upgrade()
      requires forall i | i in messages :: messages[i].conversation in conversations
      modifies this
      ensures messages.Keys == old(messages).Keys && Linked(messages)
      ensures forall i | i in messages :: messages[i] == old(messages)[i].(parent := messages[i].parent)
      ensures conversations.Keys == old(conversations).Keys
      ensures forall i | i in messages ::
                var c := messages[i].conversation;
                c in conversations && conversations[c].active.Some? && IsLast(messages, c, conversations[c].active)
      ensures forall c | c in conversations ::
                conversations[c] == old(conversations)[c].(active := conversations[c].active)
      ensures forall c | c in conversations && IsLast(messages, c, None) ::
                conversations[c] == old(conversations)[c]
    {
      SetParents();
      SetActive();
    }
  }

  lemma LagIgnoresParents(ms: Messages, ns: Messages, i: Id, lag: Option<Id>)
    requires i in ms && ms.Keys == ns.Keys
    requires forall j | j in ms :: ms[j] == ns[j].(parent := ms[j].parent)
    ensures IsLag(ms, i, lag) <==> IsLag(ns, i, lag)
  {
    assert forall j | j in ms :: ms[j].conversation == ns[j].conversation && ms[j].createdAt == ns[j].createdAt;
  }

  // ----- The branch ----------------------------------------------------------------

  function Earlier(ms: Messages, i: Id): set<Id>
    requires i in ms
  {
    set j | j in ms && SameConversation(ms, i, j) && Before(ms, j, i)
  }

  lemma ParentIsEarlier(ms: Messages, i: Id)
    requires Linked(ms) && i in ms && ms[i].parent.Some?
    ensures ms[i].parent.value in ms
    ensures Earlier(ms, i) == Earlier(ms, ms[i].parent.value) + {ms[i].parent.value}
    ensures ms[i].parent.value !in Earlier(ms, ms[i].parent.value)
  {
    assert IsLag(ms, i, ms[i].parent);
  }

  /** The messages met from `i` on by following parents until there is none. */
  ghost function Branch(ms: Messages, i: Id): seq<Id>
    requires Linked(ms) && i in ms
    decreases |Earlier(ms, i)|
  {
    if ms[i].parent.None? then [i]
    else
      ParentIsEarlier(ms, i);
      [i] + Branch(ms, ms[i].parent.value)
  }

  /** Following parents from `i` meets `i` and every earlier message of its conversation, and
      nothing else. */
  lemma {:induction false} BranchHoldsEarlier(ms: Messages, i: Id)
    requires Linked(ms) && i in ms
    ensures forall j :: j in Branch(ms, i) <==> j == i || j in Earlier(ms, i)
    decreases |Earlier(ms, i)|
  {
    assert IsLag(ms, i, ms[i].parent);
    if ms[i].parent.Some? {
      ParentIsEarlier(ms, i);
      BranchHoldsEarlier(ms, ms[i].parent.value);
    } else {
      assert Earlier(ms, i) == {};
    }
  }

  /** It meets them one after the other, later ones first. */
  lemma {:induction false} BranchDescends(ms: Messages, i: Id)
    requires Linked(ms) && i in ms
    ensures Descends(ms, Branch(ms, i))
    decreases |Earlier(ms, i)|
  {
    if ms[i].parent.Some? {
      ParentIsEarlier(ms, i);
      var p := ms[i].parent.value;
      var rest := Branch(ms, p);
      BranchDescends(ms, p);
      BranchHoldsEarlier(ms, p);
      forall b | 0 <= b < |rest| ensures Before(ms, rest[b], i) {
        assert rest[b] in rest;
        assert rest[b] in Earlier(ms, i);
      }
      PrependDescends(ms, i, rest);
    }
  }

  predicate Descends(ms: Messages, branch: seq<Id>) {
    && (forall a | 0 <= a < |branch| :: branch[a] in ms)
    && forall a, b | 0 <= a < b < |branch| :: Before(ms, branch[b], branch[a])
  }

  lemma PrependDescends(ms: Messages, i: Id, rest: seq<Id>)
    requires i in ms && Descends(ms, rest)
    requires forall b | 0 <= b < |rest| :: Before(ms, rest[b], i)
    ensures Descends(ms, [i] + rest)
  {
  }

  /** After the migration the active message of a conversation starts a branch that visits every
      message of the conversation exactly once, in descending order of time and id, and never
      leaves the conversation: the parent pointers form one acyclic path. */
  lemma ActiveBranchIsTheConversation(ms: Messages, conversation: Id, active: Id)
    requires Linked(ms) && IsLast(ms, conversation, Some(active))
    ensures forall j :: j in Branch(ms, active) <==> j in ms && ms[j].conversation == conversation
    ensures Descends(ms, Branch(ms, active))
    ensures forall a, b | 0 <= a < b < |Branch(ms, active)| :: Branch(ms, active)[a] != Branch(ms, active)[b]
  {
    BranchHoldsEarlier(ms, active);
    BranchDescends(ms, active);
  }

  /** Any walk along parent pointers from the active message is that branch, as far as it goes. */
  lemma {:induction false} WalkIsBranch(ms: Messages, i: Id, walk: seq<Id>)
    requires Linked(ms) && i in ms && walk != [] && walk[0] == i
    requires forall a | 0 <= a < |walk| :: walk[a] in ms
    requires forall a | 0 <= a < |walk| - 1 :: ms[walk[a]].parent == Some(walk[a + 1])
    ensures walk <= Branch(ms, i)
    ensures ms[walk[|walk| - 1]].parent.None? ==> walk == Branch(ms, i)
    decreases |Earlier(ms, i)|
  {
    if |walk| > 1 {
      assert ms[walk[0]].parent == Some(walk[1]);
      ParentIsEarlier(ms, i);
      forall a | 0 <= a < |walk[1..]| - 1 ensures ms[walk[1..][a]].parent == Some(walk[1..][a + 1]) {
        assert ms[walk[a + 1]].parent == Some(walk[a + 1 + 1]);
      }
      WalkIsBranch(ms, walk[1], walk[1..]);
      assert walk == [i] + walk[1..];
    }
  }

  // ----- Column by column ----------------------------------------------------------

  /** The parent of a message is the message of its conversation that was created last before it,
      where the id decides among those created at once; the first message has none. */
  lemma ParentByTime(ms: Messages, i: Id)
    requires Linked(ms) && i in ms
    ensures match ms[i].parent
            case None =>
              forall j | j in ms && ms[j].conversation == ms[i].conversation && j != i ::
                ms[i].createdAt < ms[j].createdAt || (ms[i].createdAt == ms[j].createdAt && i < j)
            case Some(p) =>
              && p in ms && ms[p].conversation == ms[i].conversation
              && (ms[p].createdAt < ms[i].createdAt || (ms[p].createdAt == ms[i].createdAt && p < i))
              && forall j | j in ms && ms[j].conversation == ms[i].conversation && j != i && j != p ::
                   || ms[j].createdAt < ms[p].createdAt || (ms[j].createdAt == ms[p].createdAt && j < p)
                   || ms[i].createdAt < ms[j].createdAt || (ms[i].createdAt == ms[j].createdAt && i < j)
  {
    assert IsLag(ms, i, ms[i].parent);
  }

  /** The active message was created last in its conversation. */
  lemma ActiveByTime(ms: Messages, conversation: Id, active: Id, j: Id)
    requires IsLast(ms, conversation, Some(active)) && j in ms && ms[j].conversation == conversation
    ensures active in ms && ms[active].conversation == conversation
    ensures ms[j].createdAt <= ms[active].createdAt
    ensures ms[j].createdAt == ms[active].createdAt ==> j <= active
  {
  }
}
