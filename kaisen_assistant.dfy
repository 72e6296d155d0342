// The chat screen (components/kaisen-assistant.tsx): the registry of
// agents, the keyword router that picks an agent and a canned reply for a
// user's input, and the chat session state driven by send, reply-timer,
// speaking-timer and recording events.

module KaisenAssistant {
  import opened Wrappers
  import Text

  // ---- the agent registry --------------------------------------------------

  datatype Icon = TwitterIcon | CreditCardIcon | BellIcon | SearchIcon

  datatype AgentDescriptor = AgentDescriptor(
    id: string,
    name: string,
    description: string,
    icon: Icon,
    active: bool)

  const AvailableAgents: seq<AgentDescriptor> := [
    AgentDescriptor("twitter-agent", "Twitter Trends",
      "Monitors Twitter for trending topics and provides real-time updates", TwitterIcon, true),
    AgentDescriptor("finance-agent", "Finance Agent",
      "Makes financial decisions and executes trades based on market conditions", CreditCardIcon, true),
    AgentDescriptor("reminder-agent", "Reminder Agent",
      "Sets and manages reminders and sends push notifications", BellIcon, true),
    AgentDescriptor("search-agent", "Web Search",
      "Searches the internet for information on any topic", SearchIcon, true)
  ]

  predicate IsRegistered(id: string) {
    exists i :: 0 <= i < |AvailableAgents| && AvailableAgents[i].id == id
  }

  /** The registry holds exactly four agents, with pairwise distinct ids. */
  lemma RegistryIds()
    ensures forall id :: IsRegistered(id) <==>
      id in {"twitter-agent", "finance-agent", "reminder-agent", "search-agent"}
    ensures forall i, j :: 0 <= i < j < |AvailableAgents| ==> AvailableAgents[i].id != AvailableAgents[j].id
  {
    assert AvailableAgents[0].id == "twitter-agent";
    assert AvailableAgents[1].id == "finance-agent";
    assert AvailableAgents[2].id == "reminder-agent";
    assert AvailableAgents[3].id == "search-agent";
  }

  // ---- the keyword router --------------------------------------------------

  datatype Reply = Reply(agent: Option<string>, content: string)

  const TwitterText: string :=
    "I'm checking the latest Twitter trends for you. Currently, #AI and #MachineLearning are trending topics in the tech space."
  const FinanceText: string :=
    "I've analyzed the market conditions. Based on current trends, I recommend waiting before making any purchases. I'll notify you when market conditions are favorable."
  const ReminderText: string :=
    "I've set a reminder for you. You'll receive a notification at the specified time."
  const SearchText: string :=
    "I'm searching the web for that information. Here's what I found: [Search results would appear here]"
  const FallbackText: string :=
    "I understand your request. How else can I assist you today?"

  /** `input.toLowerCase().includes(keyword)` for a lowercase ASCII keyword. */
  predicate Mentions(input: string, keyword: string) {
    Text.Contains(Text.ToLowerAscii(input), keyword)
  }

  /** `handleAssistantResponse`'s choice of agent and text. */
  function Route(input: string): (r: Reply) {
    if Mentions(input, "twitter") || Mentions(input, "trend") then
      Reply(Some("twitter-agent"), TwitterText)
    else if Mentions(input, "buy") || Mentions(input, "invest") || Mentions(input, "coin") then
      Reply(Some("finance-agent"), FinanceText)
    else if Mentions(input, "remind") || Mentions(input, "notification") then
      Reply(Some("reminder-agent"), ReminderText)
    else if Mentions(input, "search") || Mentions(input, "who is") then
      Reply(Some("search-agent"), SearchText)
    else
      Reply(None, FallbackText)
  }

  // A reference definition of the router: an ordered rule table searched
  // for the first rule one of whose keywords occurs.

  datatype Rule = Rule(keywords: seq<string>, agent: string, content: string)

  const Rules: seq<Rule> := [
    Rule(["twitter", "trend"], "twitter-agent", TwitterText),
    Rule(["buy", "invest", "coin"], "finance-agent", FinanceText),
    Rule(["remind", "notification"], "reminder-agent", ReminderText),
    Rule(["search", "who is"], "search-agent", SearchText)
  ]

  predicate MentionsAny(input: string, keywords: seq<string>) {
    |keywords| > 0 && (Mentions(input, keywords[0]) || MentionsAny(input, keywords[1..]))
  }

  lemma {:induction false} MentionsAnyIff(input: string, keywords: seq<string>)
    ensures MentionsAny(input, keywords) <==> exists k :: 0 <= k < |keywords| && Mentions(input, keywords[k])
  {
    if keywords != [] {
      MentionsAnyIff(input, keywords[1..]);
      if MentionsAny(input, keywords[1..]) {
        var k :| 0 <= k < |keywords[1..]| && Mentions(input, keywords[1..][k]);
        assert keywords[k + 1] == keywords[1..][k];
      }
      forall k | 1 <= k < |keywords| && Mentions(input, keywords[k])
        ensures MentionsAny(input, keywords[1..])
      {
        assert keywords[1..][k - 1] == keywords[k];
      }
    }
  }

  function FirstMatch(rules: seq<Rule>, input: string): (r: Reply) {
    if rules == [] then Reply(None, FallbackText)
    else if MentionsAny(input, rules[0].keywords) then Reply(Some(rules[0].agent), rules[0].content)
    else FirstMatch(rules[1..], input)
  }

  /** The reference definition answers with the first rule that matches,
      and with the fallback when none does. */
  lemma {:induction false} FirstMatchIsFirst(rules: seq<Rule>, input: string)
    ensures forall j ::
      (0 <= j < |rules| && MentionsAny(input, rules[j].keywords) &&
       forall i :: 0 <= i < j ==> !MentionsAny(input, rules[i].keywords)) ==>
      FirstMatch(rules, input) == Reply(Some(rules[j].agent), rules[j].content)
    ensures (forall i :: 0 <= i < |rules| ==> !MentionsAny(input, rules[i].keywords)) ==>
      FirstMatch(rules, input) == Reply(None, FallbackText)
  {
    if rules != [] {
      FirstMatchIsFirst(rules[1..], input);
      forall j | 1 <= j < |rules| && MentionsAny(input, rules[j].keywords) &&
          (forall i :: 0 <= i < j ==> !MentionsAny(input, rules[i].keywords))
        ensures FirstMatch(rules, input) == Reply(Some(rules[j].agent), rules[j].content)
      {
        assert rules[1..][j - 1] == rules[j];
        assert forall i :: 0 <= i < j - 1 ==> rules[1..][i] == rules[i + 1];
      }
      if forall i :: 0 <= i < |rules| ==> !MentionsAny(input, rules[i].keywords) {
        assert forall i :: 0 <= i < |rules| - 1 ==> rules[1..][i] == rules[i + 1];
      }
    }
  }

  lemma MentionsAnyOfTwo(input: string, a: string, b: string)
    ensures MentionsAny(input, [a, b]) <==> Mentions(input, a) || Mentions(input, b)
  {
    assert [a, b][1..] == [b];
    assert [b][1..] == [];
    assert !MentionsAny(input, []);
    assert MentionsAny(input, [b]) <==> Mentions(input, b);
  }

  lemma MentionsAnyOfThree(input: string, a: string, b: string, c: string)
    ensures MentionsAny(input, [a, b, c]) <==> Mentions(input, a) || Mentions(input, b) || Mentions(input, c)
  {
    assert [a, b, c][1..] == [b, c];
    MentionsAnyOfTwo(input, b, c);
  }

  /** What each rule of the table tests, spelled out. */
  lemma RuleTests(input: string)
    ensures MatchesRule(input, 0) <==> Mentions(input, "twitter") || Mentions(input, "trend")
    ensures MatchesRule(input, 1) <==> Mentions(input, "buy") || Mentions(input, "invest") || Mentions(input, "coin")
    ensures MatchesRule(input, 2) <==> Mentions(input, "remind") || Mentions(input, "notification")
    ensures MatchesRule(input, 3) <==> Mentions(input, "search") || Mentions(input, "who is")
  {
    MentionsAnyOfTwo(input, "twitter", "trend");
    MentionsAnyOfThree(input, "buy", "invest", "coin");
    MentionsAnyOfTwo(input, "remind", "notification");
    MentionsAnyOfTwo(input, "search", "who is");
  }

  /** The if-chain and the rule table agree on every input. */
  lemma RouteIsFirstMatch(input: string)
    ensures Route(input) == FirstMatch(Rules, input)
  {
    RuleTests(input);
    assert FirstMatch(Rules[4..], input) == Reply(None, FallbackText);
    assert Rules[3..][1..] == Rules[4..] && Rules[3..][0] == Rules[3];
    assert Rules[2..][1..] == Rules[3..] && Rules[2..][0] == Rules[2];
    assert Rules[1..][1..] == Rules[2..] && Rules[1..][0] == Rules[1];
    assert FirstMatch(Rules[3..], input) == if MatchesRule(input, 3) then Reply(Some("search-agent"), SearchText) else Reply(None, FallbackText);
    assert FirstMatch(Rules[2..], input) == if MatchesRule(input, 2) then Reply(Some("reminder-agent"), ReminderText) else FirstMatch(Rules[3..], input);
    assert FirstMatch(Rules[1..], input) == if MatchesRule(input, 1) then Reply(Some("finance-agent"), FinanceText) else FirstMatch(Rules[2..], input);
  }

  predicate MatchesRule(input: string, j: nat)
    requires j < |Rules|
  {
    MentionsAny(input, Rules[j].keywords)
  }

  /** Routing is first-match-wins over the categories twitter, finance,
      reminder and search: the j-th agent is chosen exactly when one of its
      keywords occurs and none of an earlier category does. */
  lemma RouteChoosesFirstCategory(input: string, j: nat)
    requires j < |Rules|
    ensures Route(input).agent == Some(Rules[j].agent) <==>
      MatchesRule(input, j) && forall i :: 0 <= i < j ==> !MatchesRule(input, i)
    ensures Route(input).agent == Some(Rules[j].agent) ==> Route(input).content == Rules[j].content
  {
    RuleTests(input);
  }

  /** Input mentioning "twitter" or "trend" goes to the twitter agent,
      whatever other keywords it holds. */
  lemma TwitterWins(input: string)
    requires Mentions(input, "twitter") || Mentions(input, "trend")
    ensures Route(input) == Reply(Some("twitter-agent"), TwitterText)
  {
  }

  /** Input with no keyword gets no agent and the fallback text. */
  lemma FallbackIff(input: string)
    ensures Route(input).agent.None? <==> forall j :: 0 <= j < |Rules| ==> !MatchesRule(input, j)
    ensures Route(input).agent.None? ==> Route(input).content == FallbackText
  {
    RuleTests(input);
  }

  /** Every agent the router names is in the registry. */
  lemma RoutedAgentRegistered(input: string)
    ensures Route(input).agent.Some? ==> IsRegistered(Route(input).agent.value)
  {
    RegistryIds();
  }

  lemma ToLowerAsciiIdempotent(s: string)
    ensures Text.ToLowerAscii(Text.ToLowerAscii(s)) == Text.ToLowerAscii(s)
  {
  }

  /** Routing ignores ASCII letter case. */
  lemma RouteIgnoresCase(input: string)
    ensures Route(Text.ToLowerAscii(input)) == Route(input)
  {
    ToLowerAsciiIdempotent(input);
  }

  // ---- the chat session ----------------------------------------------------

  datatype Role = Assistant | User

  /** A chat message; the timestamp is not modelled. */
  datatype Message = Message(id: int, role: Role, content: string, agent: Option<string>)

  const Greeting: Message :=
    Message(1, Assistant, "Hello! I'm Kaisen Assistant. How can I help you today?", None)

  /** The agent value shown while a reply is pending. */
  const Processing: string := "processing"

  /** The replies the router can give: one per rule, and the fallback. */
  function RouterReplies(): (rs: seq<Reply>)
    ensures |rs| == |Rules| + 1
  {
    seq(|Rules|, j requires 0 <= j < |Rules| => Reply(Some(Rules[j].agent), Rules[j].content))
      + [Reply(None, FallbackText)]
  }

  predicate IsRouterReply(m: Message) {
    Reply(m.agent, m.content) in RouterReplies()
  }

  /** A user message is a non-blank input with no agent; an assistant
      message is a router reply. */
  predicate WellFormed(m: Message) {
    (m.role == User ==> m.agent.None? && Text.Trim(m.content) != []) &&
    (m.role == Assistant ==> IsRouterReply(m))
  }

  /** There is an opening message and every later message is well formed. */
  predicate ValidMessages(ms: seq<Message>) {
    |ms| >= 1 && forall i :: 1 <= i < |ms| ==> WellFormed(ms[i])
  }

  lemma ValidMessagesAppend(ms: seq<Message>, m: Message)
    requires ValidMessages(ms) && WellFormed(m)
    ensures ValidMessages(ms + [m])
  {
    var ms' := ms + [m];
    forall i | 1 <= i < |ms'| ensures WellFormed(ms'[i]) {
      if i < |ms| {
        assert ms'[i] == ms[i];
      }
    }
  }

  /** Every reply of the router is one of its five fixed replies. */
  lemma RouteIsRouterReply(input: string, now: int)
    ensures var r := Route(input); WellFormed(Message(now, Assistant, r.content, r.agent))
  {
    var rs := RouterReplies();
    assert rs[0] == Reply(Some("twitter-agent"), TwitterText);
    assert rs[1] == Reply(Some("finance-agent"), FinanceText);
    assert rs[2] == Reply(Some("reminder-agent"), ReminderText);
    assert rs[3] == Reply(Some("search-agent"), SearchText);
    assert rs[4] == Reply(None, FallbackText);
  }

  class Session {
    var messages: seq<Message>
    var inputValue: string
    var isRecording: bool
    var isAssistantSpeaking: bool
    var activeAgent: Option<string>
    /** The inputs captured by reply timers that have not fired yet. */
    var pendingReplies: seq<string>
    /** The number of speaking timers that have not fired yet. */
    var pendingSilences: nat

    /** The greeting opens the chat, the later messages are well formed and
        the active agent is none, "processing" or a registered one. */
    ghost predicate Valid()
      reads this
    {
      ValidMessages(messages) && messages[0] == Greeting &&
      (activeAgent.None? || activeAgent == Some(Processing) || IsRegistered(activeAgent.value))
    }

    constructor()
      ensures messages == [Greeting] && inputValue == ""
      ensures !isRecording && !isAssistantSpeaking && activeAgent.None?
      ensures pendingReplies == [] && pendingSilences == 0
      ensures Valid()
    {
      messages := [Greeting];
      inputValue := "";
      isRecording := false;
      isAssistantSpeaking := false;
      activeAgent := None;
      pendingReplies := [];
      pendingSilences := 0;
    }

    /** The input field's `onChange`. */
    method SetInput(value: string)
      modifies this
      ensures inputValue == value
      ensures messages == old(messages) && activeAgent == old(activeAgent)
      ensures isRecording == old(isRecording) && isAssistantSpeaking == old(isAssistantSpeaking)
      ensures pendingReplies == old(pendingReplies) && pendingSilences == old(pendingSilences)
    {
      inputValue := value;
    }

    /** `handleSendMessage`, with `now` for `Date.now()`: a blank input does
        nothing; otherwise the untrimmed input is appended as a user
        message, the field is cleared, the agent shows "processing" and a
        reply timer is scheduled with the input as it was at send time. */
    method HandleSendMessage(now: int)
      requires Valid()
      modifies this
      ensures Valid()
      ensures isRecording == old(isRecording) && isAssistantSpeaking == old(isAssistantSpeaking)
      ensures pendingSilences == old(pendingSilences)
      ensures if Text.Trim(old(inputValue)) == [] then
          messages == old(messages) && inputValue == old(inputValue) &&
          activeAgent == old(activeAgent) && pendingReplies == old(pendingReplies)
        else
          messages == old(messages) + [Message(now, User, old(inputValue), None)] &&
          inputValue == "" && activeAgent == Some(Processing) &&
          pendingReplies == old(pendingReplies) + [old(inputValue)]
    {
      if Text.Trim(inputValue) == [] {
        return;
      }
      var captured := inputValue;
      var m := Message(now, User, captured, None);
      ValidMessagesAppend(messages, m);
      assert (messages + [m])[0] == messages[0];
      messages := messages + [m];
      inputValue := "";
      activeAgent := Some(Processing);
      pendingReplies := pendingReplies + [captured];
    }

    /** The body of `handleAssistantResponse`: the routed agent becomes
        active, its reply is appended, the assistant starts speaking and a
        speaking timer is scheduled. */
    method HandleAssistantResponse(userInput: string, now: int)
      requires Valid()
      modifies this
      ensures Valid()
      ensures var r := Route(userInput);
        activeAgent == r.agent &&
        messages == old(messages) + [Message(now, Assistant, r.content, r.agent)] &&
        isAssistantSpeaking && pendingSilences == old(pendingSilences) + 1
      ensures inputValue == old(inputValue) && isRecording == old(isRecording)
      ensures pendingReplies == old(pendingReplies)
    {
      var r := Route(userInput);
      activeAgent := r.agent;
      RoutedAgentRegistered(userInput);
      var reply := Message(now, Assistant, r.content, r.agent);
      RouteIsRouterReply(userInput, now);
      ValidMessagesAppend(messages, reply);
      assert (messages + [reply])[0] == messages[0];
      messages := messages + [reply];
      isAssistantSpeaking := true;
      pendingSilences := pendingSilences + 1;
    }

    /** The k-th pending reply timer fires: it routes the input captured
        when it was scheduled, whatever the field holds now. */
    method ReplyTimerFires(k: nat, now: int)
      requires Valid() && k < |pendingReplies|
      modifies this
      ensures Valid()
      ensures var r := Route(old(pendingReplies)[k]);
        activeAgent == r.agent &&
        messages == old(messages) + [Message(now, Assistant, r.content, r.agent)] &&
        isAssistantSpeaking && pendingSilences == old(pendingSilences) + 1
      ensures pendingReplies == old(pendingReplies)[..k] + old(pendingReplies)[k + 1..]
      ensures inputValue == old(inputValue) && isRecording == old(isRecording)
    {
      var captured := pendingReplies[k];
      pendingReplies := pendingReplies[..k] + pendingReplies[k + 1..];
      HandleAssistantResponse(captured, now);
    }

    /** A speaking timer fires: speech ends and no agent is active. */
    method SpeakingTimerFires()
      requires Valid() && pendingSilences > 0
      modifies this
      ensures Valid()
      ensures !isAssistantSpeaking && activeAgent.None?
      ensures pendingSilences == old(pendingSilences) - 1
      ensures messages == old(messages) && inputValue == old(inputValue)
      ensures isRecording == old(isRecording) && pendingReplies == old(pendingReplies)
    {
      isAssistantSpeaking := false;
      activeAgent := None;
      pendingSilences := pendingSilences - 1;
    }

    /** `toggleRecording`: only the recording flag flips. */
    method ToggleRecording()
      modifies this
      ensures isRecording == !old(isRecording)
      ensures messages == old(messages) && inputValue == old(inputValue)
      ensures isAssistantSpeaking == old(isAssistantSpeaking) && activeAgent == old(activeAgent)
      ensures pendingReplies == old(pendingReplies) && pendingSilences == old(pendingSilences)
    {
      isRecording := !isRecording;
    }
  }
}
