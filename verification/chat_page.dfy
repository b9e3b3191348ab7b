/**
 * The chat widget page: the transcript and input state, the send handler that appends the
 * user's turn and clears the input, and the keyword auto-reply delivered after a delay.
 *
 * The delay is not modelled as time: a send schedules its reply, and a separate step delivers
 * the oldest scheduled reply (timers with equal delays fire in the order they were set).
 */
module ChatPage {
  import opened JsText

  /** One transcript entry. */
  datatype Message = Message(text: string, isBot: bool)

  const Welcome: string := "Hi! How can I help you today?"

  // ---------------------------------------------------------------------------
  // Reply selection (the if/else chain inside the timer callback)
  // ---------------------------------------------------------------------------

  /** The branches of the reply chain, in the order they are tried; `Unmatched` is the default. */
  datatype Topic = Greeting | Wellbeing | HelpRequest | Farewell | ContactRequest | PriceRequest | Unmatched

  /** Position of a topic's branch in the chain. */
  function Priority(t: Topic): nat {
    match t
    case Greeting => 0
    case Wellbeing => 1
    case HelpRequest => 2
    case Farewell => 3
    case ContactRequest => 4
    case PriceRequest => 5
    case Unmatched => 6
  }

  /** The lower-cased input includes one of the substrings the topic's branch tests for; the default tests nothing. */
  predicate Matches(input: string, t: Topic) {
    var s := Lower(input);
    match t
    case Greeting => Contains(s, "hello") || Contains(s, "hi")
    case Wellbeing => Contains(s, "how are you")
    case HelpRequest => Contains(s, "help") || Contains(s, "support")
    case Farewell => Contains(s, "bye") || Contains(s, "goodbye")
    case ContactRequest => Contains(s, "contact")
    case PriceRequest => Contains(s, "price") || Contains(s, "cost")
    case Unmatched => false
  }

  /** The branch the chain takes: the first topic whose keywords the lower-cased input includes. */
  function TopicOf(input: string): (t: Topic)
    ensures t != Unmatched ==> Matches(input, t)
    ensures forall u :: Priority(u) < Priority(t) ==> !Matches(input, u)
  {
    var userInput := Lower(input);
    if Contains(userInput, "hello") || Contains(userInput, "hi") then Greeting
    else if Contains(userInput, "how are you") then Wellbeing
    else if Contains(userInput, "help") || Contains(userInput, "support") then HelpRequest
    else if Contains(userInput, "bye") || Contains(userInput, "goodbye") then Farewell
    else if Contains(userInput, "contact") then ContactRequest
    else if Contains(userInput, "price") || Contains(userInput, "cost") then PriceRequest
    else Unmatched
  }

  /** The reply sent when no branch matches. */
  const DefaultReply: string := "I'm not sure how to respond to that."

  /**
   * The bot's text for each branch; only the default branch sends the default reply. (Long texts
   * are written as concatenations of shorter literals, which keeps the verifier's reasoning about
   * them cheap.)
   */
  function ReplyText(t: Topic): (r: string)
    ensures r == DefaultReply <==> t == Unmatched
  {
    match t
    case Greeting => "Hello there! How are you today?"
    case Wellbeing => "I'm just a simple chatbot," + " but I'm working well! How about you?"
    case HelpRequest => "I can help with basic information." + " What do you need assistance with?"
    case Farewell => "Goodbye! Have a great day!"
    case ContactRequest => "You can contact us at support@example.com" + " or call (123) 456-7890."
    case PriceRequest => "Our basic package starts at $99/month." + " Premium plans start at $199/month."
    case Unmatched => DefaultReply
  }

  /** The reply to a sent input: the default reply exactly when no branch's keywords occur in it. */
  function Reply(input: string): (r: string)
    ensures r == DefaultReply <==> forall t :: !Matches(input, t)
  {
    ReplyText(TopicOf(input))
  }

  /** The branch depends on the input only through its lower-cased form. */
  lemma TopicDependsOnLower(a: string, b: string)
    requires Lower(a) == Lower(b)
    ensures TopicOf(a) == TopicOf(b)
  {
  }

  /** Matching ignores letter case: an input and its lower-cased form take the same branch and get the same reply. */
  lemma TopicIgnoresCase(input: string)
    ensures TopicOf(Lower(input)) == TopicOf(input)
    ensures Reply(Lower(input)) == Reply(input)
  {
    LowerIdempotent(input);
    TopicDependsOnLower(Lower(input), input);
  }

  /**
   * Any input containing "hi" anywhere, in any letter case, is answered as a greeting, whatever
   * else it contains: the test is a substring test, so "this", "which" or "shipping" count too,
   * and the greeting branch comes before every other.
   */
  lemma SubstringHiGreets(before: string, hi: string, after: string)
    requires Lower(hi) == "hi"
    ensures TopicOf(before + hi + after) == Greeting
  {
    LowerAppend(before + hi, after);
    LowerAppend(before, hi);
    assert Contains("hi", "hi");
    ContainsWithin(Lower(before), "hi", Lower(after), "hi");
  }

  /** With no keyword present the default reply is sent. */
  lemma NoKeywordDefault(input: string)
    requires forall t :: !Matches(input, t)
    ensures Reply(input) == DefaultReply
  {
  }

  // ---------------------------------------------------------------------------
  // The widget state (messages, input) and the send handler
  // ---------------------------------------------------------------------------

  /** How many entries of a transcript are the user's. */
  function UserTurns(ms: seq<Message>): nat {
    if ms == [] then 0 else UserTurns(ms[..|ms| - 1]) + (if ms[|ms| - 1].isBot then 0 else 1)
  }

  /** How many entries of a transcript are the bot's. */
  function BotTurns(ms: seq<Message>): nat {
    if ms == [] then 0 else BotTurns(ms[..|ms| - 1]) + (if ms[|ms| - 1].isBot then 1 else 0)
  }

  /** Every entry is the user's or the bot's. */
  lemma {:induction false} TurnsAddUp(ms: seq<Message>)
    ensures UserTurns(ms) + BotTurns(ms) == |ms|
  {
    if ms != [] {
      TurnsAddUp(ms[..|ms| - 1]);
    }
  }

  class ChatWidget {
    /** The transcript, oldest first. */
    var messages: seq<Message>
    /** The text box. */
    var input: string
    /** The inputs captured by reply timers that have not fired yet, oldest first. */
    var pending: seq<string>

    /** The welcome message opens the transcript, and every user turn has its reply delivered or pending. */
    ghost predicate Valid()
      reads this
    {
      && |messages| >= 1
      && messages[0] == Message(Welcome, true)
      && UserTurns(messages) + 1 == BotTurns(messages) + |pending|
    }

    /**
     * Once every scheduled reply has been delivered, each user turn has exactly one bot reply:
     * the transcript is the welcome message and one reply per user turn.
     */
    lemma EveryTurnAnswered()
      requires Valid() && pending == []
      ensures BotTurns(messages) == UserTurns(messages) + 1
      ensures |messages| == 2 * UserTurns(messages) + 1
    {
      TurnsAddUp(messages);
    }

    /** The initial state: the welcome message alone, and an empty text box. */
    constructor()
      ensures messages == [Message(Welcome, true)]
      ensures input == "" && pending == []
      ensures Valid()
    {
      messages := [Message(Welcome, true)];
      input := "";
      pending := [];
    }

    /** Typing into the text box replaces its content. */
    method SetInput(text: string)
      requires Valid()
      modifies this
      ensures input == text
      ensures messages == old(messages) && pending == old(pending)
      ensures Valid()
    {
      input := text;
    }

    /**
     * handleSendMessage: a blank input changes nothing; otherwise the user's turn is appended,
     * a reply timer captures the input, and the text box is cleared.
     */
    method SendMessage()
      requires Valid()
      modifies this
      ensures IsBlank(old(input)) ==>
        messages == old(messages) && input == old(input) && pending == old(pending)
      ensures !IsBlank(old(input)) ==>
        && messages == old(messages) + [Message(old(input), false)]
        && input == ""
        && pending == old(pending) + [old(input)]
      ensures Valid()
    {
      if IsBlank(input) {
        return;
      }
      var userMessage := Message(input, false);
      assert (messages + [userMessage])[..|messages|] == messages;
      messages := messages + [userMessage];
      pending := pending + [input];
      input := "";
    }

    /**
     * The oldest reply timer fires: the reply chosen for its captured input is appended as a bot
     * turn after everything already in the transcript.
     */
    method DeliverReply()
      requires Valid() && pending != []
      modifies this
      ensures messages == old(messages) + [Message(Reply(old(pending)[0]), true)]
      ensures pending == old(pending)[1..] && input == old(input)
      ensures Valid()
    {
      var botMessage := Message(Reply(pending[0]), true);
      assert (messages + [botMessage])[..|messages|] == messages;
      messages := messages + [botMessage];
      pending := pending[1..];
    }
  }
}
