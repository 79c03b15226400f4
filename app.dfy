/**
  One chat session: the intents catalog, the label vocabulary and the
  classifier are fixed when the session starts; the chat history is the
  state each submission changes.
 */
module App {
  import opened Wrappers
  import opened Labels
  import opened Catalog
  import opened ChatLog

  class Chatbot {
    const catalog: seq<IntentRecord>
    const labels: seq<string>
    /** The classifier: the index of the most likely class for a text. */
    const classify: string -> nat
    /** The session's "chat_history" entry: None until it is first created. */
    var chatHistory: Option<seq<Entry>>

    /** The vocabulary is a fitted label encoder's class list, which holds
        each tag once. */
    predicate Valid() {
      Distinct(labels)
    }

    constructor (catalog: seq<IntentRecord>, labels: seq<string>, classify: string -> nat)
      requires Distinct(labels)
      ensures Valid()
      ensures this.catalog == catalog && this.labels == labels && this.classify == classify
      ensures chatHistory == None
    {
      this.catalog := catalog;
      this.labels := labels;
      this.classify := classify;
      chatHistory := None;
    }

    /** What a turn on `text` needs: a class index inside the vocabulary and
        a reply to pick for the decoded tag. */
    predicate CanAnswer(text: string) {
      classify(text) < |labels| && Answerable(catalog, labels[classify(text)])
    }

    /** The tag the classifier predicts for `text`. */
    function PredictIntent(text: string): (tag: string)
      requires Valid()
      requires classify(text) < |labels|
      ensures tag in labels
      ensures Encode(labels, tag) == Some(classify(text))
    {
      Decode(labels, classify(text))
    }

    /** Creates the history, empty, only when the session has none. */
    method InitHistory()
      modifies this
      ensures chatHistory == if old(chatHistory).None? then Some([]) else old(chatHistory)
    {
      if chatHistory.None? {
        chatHistory := Some([]);
      }
    }

    /** The form handler: a submission with a non-empty input appends the
        user's entry and then the bot's reply; anything else changes nothing. */
    method HandleTurn(submitted: bool, input: string) returns (reply: Option<string>)
      requires Valid()
      requires chatHistory.Some?
      requires submitted && input != "" ==> CanAnswer(input)
      modifies this
      ensures chatHistory.Some?
      ensures reply.Some? <==> submitted && input != ""
      ensures reply.None? ==> chatHistory == old(chatHistory)
      ensures reply.Some? ==>
        IsReply(catalog, PredictIntent(input), reply.value) &&
        chatHistory.value == old(chatHistory.value) + [(User, input), (Bot, reply.value)]
      ensures reply.Some? ==>
        |chatHistory.value| == |old(chatHistory.value)| + 2 &&
        chatHistory.value[|old(chatHistory.value)|] == (User, input) &&
        chatHistory.value[|old(chatHistory.value)| + 1] == (Bot, reply.value) &&
        chatHistory.value[..|old(chatHistory.value)|] == old(chatHistory.value)
    {
      reply := None;
      if submitted && input != "" {
        var tag := PredictIntent(input);
        var response := GetResponse(catalog, tag);
        chatHistory := Some(chatHistory.value + [(User, input)]);
        chatHistory := Some(chatHistory.value + [(Bot, response)]);
        reply := Some(response);
      }
    }

    /** One run of the page script: create the history if needed, handle the
        form, then produce the chat view. */
    method Run(submitted: bool, input: string) returns (view: seq<Bubble>)
      requires Valid()
      requires submitted && input != "" ==> CanAnswer(input)
      modifies this
      ensures chatHistory.Some?
      ensures view == Render(chatHistory.value)
      ensures !(submitted && input != "") ==>
        chatHistory == if old(chatHistory).None? then Some([]) else old(chatHistory)
      ensures submitted && input != "" ==>
        |view| >= 2 && view[0].cssClass == BotClass && view[1] == Bubble(UserClass, input) &&
        IsReply(catalog, PredictIntent(input), view[0].message) &&
        view[2..] == Render(if old(chatHistory).None? then [] else old(chatHistory).value) &&
        chatHistory.value ==
          (if old(chatHistory).None? then [] else old(chatHistory).value) +
          [(User, input), (Bot, view[0].message)]
    {
      InitHistory();
      ghost var before := chatHistory.value;
      var reply := HandleTurn(submitted, input);
      view := Display(chatHistory.value);
      if reply.Some? {
        NewTurnOnTop(before, input, reply.value);
      }
    }
  }

  /** After a turn the view starts with the bot's reply and then the
      user's message, above everything shown before. */
  lemma NewTurnOnTop(history: seq<Entry>, input: string, reply: string)
    ensures Render(history + [(User, input), (Bot, reply)]) ==
      [Bubble(BotClass, reply), Bubble(UserClass, input)] + Render(history)
  {
    var turn := [(User, input), (Bot, reply)];
    RenderAppend(history, turn);
    assert turn[1..] == [(Bot, reply)] && turn[1..][1..] == [];
    assert Render(turn[1..]) == [ToBubble((Bot, reply))];
    assert Render(turn) == [ToBubble((Bot, reply)), ToBubble((User, input))];
  }

  /** A session over a two-tag vocabulary: two answered turns, then an
      empty submission that leaves the log as it was. */
  method ExampleSession() {
    var catalog := [IntentRecord("greeting", ["Hi!"]), IntentRecord("hours", ["We open at 9."])];
    var labels := ["greeting", "hours"];
    var classify := (text: string) => if text == "hello" then 0 else 1;
    assert Distinct(labels);
    var bot := new Chatbot(catalog, labels, classify);
    bot.InitHistory();
    bot.InitHistory();
    assert bot.chatHistory == Some([]);

    assert FirstMatch(catalog, "greeting") == Some(0);
    var view := bot.Run(true, "hello");
    assert view[0] == Bubble(BotClass, "Hi!");
    assert |bot.chatHistory.value| == 2;

    assert catalog[0].tag != "hours";
    assert FirstMatch(catalog, "hours") == Some(1);
    view := bot.Run(true, "what time");
    assert view[0] == Bubble(BotClass, "We open at 9.");
    assert |bot.chatHistory.value| == 4;

    view := bot.Run(true, "");
    assert |bot.chatHistory.value| == 4 && |view| == 4;
  }
}
