/** The chatbot page: the send guard, the ordered keyword table that
    picks a canned reply, and the conversation as a small state machine.
    The reply delay is a timer; its firing is an explicit event. */
module Chat {
  import opened Text

  datatype Sender = User | Ai

  datatype Message = Message(id: string, content: string, sender: Sender)

  /** The five canned replies. */
  datatype Reply = Investment | Budget | Loan | Credit | Default

  function ReplyText(r: Reply): string
  {
    match r
    case Investment => "Based on your financial profile, I recommend diversifying your investments. Consider allocating 60% to traditional investments (stocks, bonds), 20% to alternative investments like crowdfunding, and 20% to emergency funds. Would you like me to explain any of these options in more detail?"
    case Budget => "Looking at your expense patterns, I notice you're spending above average on operational costs. Here are three strategies to reduce expenses: 1) Consider co-working spaces instead of dedicated offices, 2) Use subscription-based software instead of one-time purchases, 3) Outsource non-core business functions. Would you like a detailed analysis of your spending?"
    case Loan => "For your business size and industry, microloans or community development financial institutions (CDFIs) might be your best option. These typically offer lower interest rates and more flexible terms for women entrepreneurs. Your current credit profile suggests you'd qualify for loans up to $50,000. Would you like me to recommend specific lenders?"
    case Credit => "Your business credit score is currently in the 'good' range at 680. To improve it, I recommend: 1) Reducing your credit utilization to below 30%, 2) Setting up automatic payments for all business expenses, 3) Increasing the average age of your credit accounts. Would you like guidance on implementing any of these strategies?"
    case Default => "I'm your AI financial advisor specialized in helping women entrepreneurs. I can assist with budgeting, investment strategies, loan options, credit improvement, expense tracking, and personalized financial planning. What specific financial topic would you like help with today?"
  }

  const Welcome: string := "Hello! I'm your AI financial assistant. How can I help you today?\n\nYou can also chat with me on WhatsApp for:\n- Instant loan application support\n- Financial literacy tips\n- Market updates\n- Emergency financial assistance\n- Multilingual support"

  /** A row of the keyword table: any keyword occurring selects `reply`. */
  datatype Rule = Rule(keywords: seq<string>, reply: Reply)

  /** The keyword tests in the order they are tried. */
  const Rules: seq<Rule> := [
    Rule(["invest", "stock", "fund"], Investment),
    Rule(["budget", "spend", "expense"], Budget),
    Rule(["loan", "borrow", "finance"], Loan),
    Rule(["credit", "score"], Credit)]

  predicate Fires(s: string, rule: Rule)
  {
    exists j :: 0 <= j < |rule.keywords| && Contains(s, rule.keywords[j])
  }

  /** The reply of the first rule that fires on `s`, else `fallback`. */
  function FirstMatch(s: string, rules: seq<Rule>, fallback: Reply): Reply
  {
    if |rules| == 0 then fallback
    else if Fires(s, rules[0]) then rules[0].reply
    else FirstMatch(s, rules[1..], fallback)
  }

  /** First match wins: the reply is that of the earliest rule that
      fires, and the fallback exactly when none fires. */
  lemma {:induction false} FirstMatchLeast(s: string, rules: seq<Rule>, fallback: Reply, k: nat)
    requires k < |rules| && Fires(s, rules[k])
    requires forall j :: 0 <= j < k ==> !Fires(s, rules[j])
    ensures FirstMatch(s, rules, fallback) == rules[k].reply
  {
    if k > 0 {
      assert !Fires(s, rules[0]);
      FirstMatchLeast(s, rules[1..], fallback, k - 1);
    }
  }

  lemma {:induction false} FirstMatchNone(s: string, rules: seq<Rule>, fallback: Reply)
    requires forall j :: 0 <= j < |rules| ==> !Fires(s, rules[j])
    ensures FirstMatch(s, rules, fallback) == fallback
  {
    if |rules| > 0 {
      assert !Fires(s, rules[0]);
      FirstMatchNone(s, rules[1..], fallback);
    }
  }

  /** The reply chosen for a sent message: the table tried over the
      lower-cased input. */
  function SelectReply(input: string): Reply
  {
    FirstMatch(Lower(input), Rules, Default)
  }

  predicate AnyOf(s: string, a: string, b: string, c: string)
  {
    Contains(s, a) || Contains(s, b) || Contains(s, c)
  }

  lemma FiresThree(s: string, rule: Rule, a: string, b: string, c: string)
    requires rule.keywords == [a, b, c]
    ensures Fires(s, rule) <==> AnyOf(s, a, b, c)
  {
    if AnyOf(s, a, b, c) {
      var j := if Contains(s, a) then 0 else if Contains(s, b) then 1 else 2;
      assert Contains(s, rule.keywords[j]);
    }
  }

  lemma FiresTwo(s: string, rule: Rule, a: string, b: string)
    requires rule.keywords == [a, b]
    ensures Fires(s, rule) <==> Contains(s, a) || Contains(s, b)
  {
    if Contains(s, a) || Contains(s, b) {
      var j := if Contains(s, a) then 0 else 1;
      assert Contains(s, rule.keywords[j]);
    }
  }

  lemma FiresRules(s: string)
    ensures Fires(s, Rules[0]) <==> AnyOf(s, "invest", "stock", "fund")
    ensures Fires(s, Rules[1]) <==> AnyOf(s, "budget", "spend", "expense")
    ensures Fires(s, Rules[2]) <==> AnyOf(s, "loan", "borrow", "finance")
    ensures Fires(s, Rules[3]) <==> Contains(s, "credit") || Contains(s, "score")
  {
    FiresThree(s, Rules[0], "invest", "stock", "fund");
    FiresThree(s, Rules[1], "budget", "spend", "expense");
    FiresThree(s, Rules[2], "loan", "borrow", "finance");
    FiresTwo(s, Rules[3], "credit", "score");
  }

  /** The reply as the chain of keyword tests reads: each test only
      counts when every earlier one failed. */
  lemma SelectReplyChain(input: string)
    ensures var s := Lower(input);
      && (SelectReply(input) == Investment <==> AnyOf(s, "invest", "stock", "fund"))
      && (SelectReply(input) == Budget <==>
            !AnyOf(s, "invest", "stock", "fund") && AnyOf(s, "budget", "spend", "expense"))
      && (SelectReply(input) == Loan <==>
            !AnyOf(s, "invest", "stock", "fund") && !AnyOf(s, "budget", "spend", "expense")
            && AnyOf(s, "loan", "borrow", "finance"))
      && (SelectReply(input) == Credit <==>
            !AnyOf(s, "invest", "stock", "fund") && !AnyOf(s, "budget", "spend", "expense")
            && !AnyOf(s, "loan", "borrow", "finance") && (Contains(s, "credit") || Contains(s, "score")))
      && (SelectReply(input) == Default <==>
            !AnyOf(s, "invest", "stock", "fund") && !AnyOf(s, "budget", "spend", "expense")
            && !AnyOf(s, "loan", "borrow", "finance") && !Contains(s, "credit") && !Contains(s, "score"))
  {
    var s := Lower(input);
    FiresRules(s);
    if Fires(s, Rules[0]) {
      FirstMatchLeast(s, Rules, Default, 0);
    } else if Fires(s, Rules[1]) {
      FirstMatchLeast(s, Rules, Default, 1);
    } else if Fires(s, Rules[2]) {
      FirstMatchLeast(s, Rules, Default, 2);
    } else if Fires(s, Rules[3]) {
      FirstMatchLeast(s, Rules, Default, 3);
    } else {
      FirstMatchNone(s, Rules, Default);
    }
  }

  /** Earlier rules win: a question about a fund and a loan gets the
      investment reply. */
  lemma EarlierRuleWins()
    ensures SelectReply("fund or loan?") == Investment
  {
    var a := "fund or loan?";
    assert Lower(a) == a;
    assert OccursAt(a, "fund", 0);
    SelectReplyChain(a);
  }

  /** Keywords match inside words: a question about a refund gets the
      investment reply. */
  lemma KeywordInsideWord()
    ensures SelectReply("my refund") == Investment
  {
    var b := "my refund";
    assert Lower(b) == b;
    assert OccursAt(b, "fund", 5);
    SelectReplyChain(b);
  }

  /** The page's state. `pending` holds, oldest first, the inputs whose
      delayed reply has not arrived yet. */
  datatype ChatState = ChatState(messages: seq<Message>, input: string, loading: bool, pending: seq<string>)

  const Initial: ChatState := ChatState([Message("1", Welcome, Ai)], "", false, [])

  predicate IsBlank(s: string)
  {
    Trim(s) == ""
  }

  /** The send button is enabled. */
  predicate CanSend(c: ChatState)
  {
    !c.loading && !IsBlank(c.input)
  }

  /** Sending: blank input changes nothing; otherwise the raw input is
      appended as the user's message, the input is cleared, loading is
      set and a reply is scheduled. */
  function Send(c: ChatState, id: string): (r: ChatState)
    ensures IsBlank(c.input) <==> r == c
    ensures !IsBlank(c.input) ==>
      && r.messages == c.messages + [Message(id, c.input, User)]
      && r.input == ""
      && r.loading
      && r.pending == c.pending + [c.input]
  {
    if IsBlank(c.input) then c
    else ChatState(c.messages + [Message(id, c.input, User)], "", true, c.pending + [c.input])
  }

  /** The oldest scheduled reply arrives: one AI message answering that
      input is appended and loading is cleared. */
  function Deliver(c: ChatState, id: string): (r: ChatState)
    requires |c.pending| > 0
    ensures r.messages == c.messages + [Message(id, ReplyText(SelectReply(c.pending[0])), Ai)]
    ensures !r.loading && r.input == c.input
    ensures r.pending == c.pending[1..]
  {
    ChatState(c.messages + [Message(id, ReplyText(SelectReply(c.pending[0])), Ai)],
              c.input, false, c.pending[1..])
  }

  datatype Event =
    | Type(text: string)
    | Click(id: string)
    | KeyDown(key: string, shift: bool, id: string)
    | Timer(id: string)

  /** One event. A click only reaches the handler when the button is
      enabled; Enter without Shift calls the handler directly, whether
      or not a reply is pending; a timer fires only for a scheduled reply. */
  function Apply(c: ChatState, e: Event): ChatState
  {
    match e
    case Type(text) => c.(input := text)
    case Click(id) => if CanSend(c) then Send(c, id) else c
    case KeyDown(key, shift, id) => if key == "Enter" && !shift then Send(c, id) else c
    case Timer(id) => if |c.pending| > 0 then Deliver(c, id) else c
  }

  /** Enter sends even while a reply is still loading, when the button
      is disabled. */
  lemma EnterSendsWhileLoading(c: ChatState, id: string)
    requires c.loading && !IsBlank(c.input)
    ensures !CanSend(c)
    ensures |Apply(c, KeyDown("Enter", false, id)).messages| == |c.messages| + 1
    ensures |Apply(c, KeyDown("Enter", false, id)).pending| == |c.pending| + 1
  {
  }

  function CountFrom(ms: seq<Message>, s: Sender): nat
  {
    if |ms| == 0 then 0
    else CountFrom(ms[..|ms| - 1], s) + (if ms[|ms| - 1].sender == s then 1 else 0)
  }

  lemma CountAppend(ms: seq<Message>, m: Message, s: Sender)
    ensures CountFrom(ms + [m], s) == CountFrom(ms, s) + (if m.sender == s then 1 else 0)
  {
    assert (ms + [m])[..|ms|] == ms;
  }

  predicate IsReply(t: string)
  {
    exists r: Reply :: t == ReplyText(r)
  }

  /** A message the page can show: a user message is never blank, and an
      AI message is the welcome or one of the canned replies. */
  predicate WellFormed(m: Message)
  {
    match m.sender
    case User => !IsBlank(m.content)
    case Ai => m.content == Welcome || IsReply(m.content)
  }

  /** What every reachable state satisfies: every user message was
      non-blank, every AI message is the welcome or a canned reply, each
      user message is answered once or still pending, and loading means
      a reply is pending. */
  predicate Inv(c: ChatState)
  {
    && (forall i :: 0 <= i < |c.messages| ==> WellFormed(c.messages[i]))
    && CountFrom(c.messages, User) + 1 == CountFrom(c.messages, Ai) + |c.pending|
    && (c.loading ==> |c.pending| > 0)
  }

  lemma InitialInv()
    ensures Inv(Initial)
    ensures CountFrom(Initial.messages, Ai) == 1
  {
    assert Initial.messages == [] + [Message("1", Welcome, Ai)];
    CountAppend([], Message("1", Welcome, Ai), User);
    CountAppend([], Message("1", Welcome, Ai), Ai);
  }

  lemma AppendKeepsInv(c: ChatState, m: Message, r: ChatState)
    requires Inv(c)
    requires r.messages == c.messages + [m]
    requires WellFormed(m)
    requires m.sender == User ==> |r.pending| == |c.pending| + 1
    requires m.sender == Ai ==> |r.pending| + 1 == |c.pending|
    requires r.loading ==> |r.pending| > 0
    ensures Inv(r)
  {
    CountAppend(c.messages, m, User);
    CountAppend(c.messages, m, Ai);
    forall i | 0 <= i < |r.messages|
      ensures WellFormed(r.messages[i])
    {
      if i < |c.messages| {
        assert r.messages[i] == c.messages[i];
      }
    }
  }

  lemma ApplyKeepsInv(c: ChatState, e: Event)
    requires Inv(c)
    ensures Inv(Apply(c, e))
  {
    match e
    case Type(_) =>
    case Click(id) =>
      if CanSend(c) {
        AppendKeepsInv(c, Message(id, c.input, User), Send(c, id));
      }
    case KeyDown(key, shift, id) =>
      if key == "Enter" && !shift && !IsBlank(c.input) {
        AppendKeepsInv(c, Message(id, c.input, User), Send(c, id));
      }
    case Timer(id) =>
      if |c.pending| > 0 {
        var m := Message(id, ReplyText(SelectReply(c.pending[0])), Ai);
        assert WellFormed(m) by {
          assert m.content == ReplyText(SelectReply(c.pending[0]));
        }
        AppendKeepsInv(c, m, Deliver(c, id));
      }
  }

  function Run(c: ChatState, es: seq<Event>): ChatState
    decreases es
  {
    if |es| == 0 then c else Run(Apply(c, es[0]), es[1..])
  }

  /** Every state reached from the initial one satisfies the invariant. */
  lemma {:induction false} RunKeepsInv(c: ChatState, es: seq<Event>)
    requires Inv(c)
    ensures Inv(Run(c, es))
    decreases es
  {
    if |es| > 0 {
      ApplyKeepsInv(c, es[0]);
      RunKeepsInv(Apply(c, es[0]), es[1..]);
    }
  }
}
