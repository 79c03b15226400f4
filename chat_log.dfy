/**
  The conversation log and the order in which it is shown: entries are
  (sender, message) pairs, displayed newest first, each in a bubble whose
  style class depends on whether the user sent it.
 */
module ChatLog {
  /** The two senders the handler writes, "user" and "bot". */
  datatype Sender = User | Bot

  type Entry = (Sender, string)

  /** One displayed message: its style class and its text. */
  datatype Bubble = Bubble(cssClass: string, message: string)

  const UserClass: string := "user-msg"
  const BotClass: string := "bot-msg"

  /** The style class of an entry's bubble. */
  function CssClass(sender: Sender): (c: string)
    ensures c == UserClass || c == BotClass
    ensures c == UserClass <==> sender == User
  {
    if sender == User then UserClass else BotClass
  }

  function ToBubble(e: Entry): Bubble {
    Bubble(CssClass(e.0), e.1)
  }

  /** The bubbles in display order: the log reversed, most recent first. */
  function Render(history: seq<Entry>): seq<Bubble> {
    if history == [] then [] else Render(history[1..]) + [ToBubble(history[0])]
  }

  /** The i-th bubble shows the i-th entry counted from the end. */
  lemma {:induction false} RenderAt(history: seq<Entry>, i: nat)
    requires i < |history|
    ensures |Render(history)| == |history|
    ensures Render(history)[i] == ToBubble(history[|history| - 1 - i])
    ensures Render(history)[i].cssClass == UserClass <==> history[|history| - 1 - i].0 == User
    ensures Render(history)[i].message == history[|history| - 1 - i].1
  {
    RenderLength(history);
    if i < |history| - 1 {
      RenderAt(history[1..], i);
    }
  }

  lemma {:induction false} RenderLength(history: seq<Entry>)
    ensures |Render(history)| == |history|
  {
    if history != [] {
      RenderLength(history[1..]);
    }
  }

  /** Entries appended to the log are shown ahead of all earlier ones. */
  lemma {:induction false} RenderAppend(history: seq<Entry>, more: seq<Entry>)
    ensures Render(history + more) == Render(more) + Render(history)
  {
    if history == [] {
      assert history + more == more;
    } else {
      assert (history + more)[1..] == history[1..] + more;
      RenderAppend(history[1..], more);
    }
  }

  /** The display loop: walks the log from its last entry to its first,
      emitting one bubble per entry. */
  method Display(history: seq<Entry>) returns (view: seq<Bubble>)
    ensures view == Render(history)
  {
    view := [];
    var i := |history|;
    while i > 0
      invariant 0 <= i <= |history|
      invariant view == Render(history[i..])
    {
      i := i - 1;
      var (sender, message) := history[i];
      view := view + [Bubble(CssClass(sender), message)];
      assert history[i..][1..] == history[i + 1..];
    }
    assert history[0..] == history;
  }
}
