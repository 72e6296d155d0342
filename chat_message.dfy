// How one chat message is labelled (components/chat-message.tsx): the
// sender label, and the badge that names the agent that answered.

module ChatMessage {
  import opened Wrappers
  import opened KaisenAssistant

  /** `getAgentName`. */
  function AgentName(agentId: Option<string>): (r: Option<string>)
    ensures r.Some? <==> agentId.Some? && IsRegistered(agentId.value)
  {
    RegistryIds();
    match agentId
    case None => None
    case Some(id) =>
      if id == "twitter-agent" then Some("Twitter Trends")
      else if id == "finance-agent" then Some("Finance Agent")
      else if id == "reminder-agent" then Some("Reminder Agent")
      else if id == "search-agent" then Some("Web Search")
      else None
  }

  /** `getAgentIcon`. */
  function AgentIcon(agentId: Option<string>): (r: Option<Icon>)
    ensures r.Some? <==> agentId.Some? && IsRegistered(agentId.value)
  {
    RegistryIds();
    match agentId
    case None => None
    case Some(id) =>
      if id == "twitter-agent" then Some(TwitterIcon)
      else if id == "finance-agent" then Some(CreditCardIcon)
      else if id == "reminder-agent" then Some(BellIcon)
      else if id == "search-agent" then Some(SearchIcon)
      else None
  }

  /** The name above a message. */
  function SenderLabel(role: Role): string {
    match role
    case Assistant => "Kaisen Assistant"
    case User => "You"
  }

  /** The badge is drawn when the message's agent is truthy. */
  predicate ShowsBadge(m: Message) {
    m.agent.Some? && m.agent.value != ""
  }

  /** The icon is there exactly when the name is. */
  lemma IconIffName(agentId: Option<string>)
    ensures AgentIcon(agentId).Some? <==> AgentName(agentId).Some?
  {
  }

  /** The names and icons shown are those of the same agent in the registry. */
  lemma NameAndIconMatchRegistry(i: nat)
    requires i < |AvailableAgents|
    ensures AgentName(Some(AvailableAgents[i].id)) == Some(AvailableAgents[i].name)
    ensures AgentIcon(Some(AvailableAgents[i].id)) == Some(AvailableAgents[i].icon)
  {
  }

  /** Every badge in a valid session names its agent: only replies carry
      one, and the router only picks registered agents. */
  lemma BadgesNameTheirAgent(ms: seq<Message>, i: nat)
    requires ValidMessages(ms) && ms[0].agent.None? && i < |ms| && ShowsBadge(ms[i])
    ensures ms[i].role == Assistant && SenderLabel(ms[i].role) == "Kaisen Assistant"
    ensures AgentName(ms[i].agent).Some? && AgentIcon(ms[i].agent).Some?
  {
    assert WellFormed(ms[i]);
    assert Reply(ms[i].agent, ms[i].content) in RouterReplies();
    RegistryIds();
  }

  /** Conversely, a message labelled "You" never carries a badge: the user's
      own messages have no agent. */
  lemma UserMessagesHaveNoBadge(ms: seq<Message>, i: nat)
    requires ValidMessages(ms) && ms[0].agent.None? && i < |ms| && SenderLabel(ms[i].role) == "You"
    ensures ms[i].role == User && !ShowsBadge(ms[i])
  {
    if i > 0 {
      assert WellFormed(ms[i]);
    }
  }
}
