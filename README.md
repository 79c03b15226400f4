# Chatbot Seputar PESANMASA — a Dafny model of the reply logic

The chatbot is a Streamlit page. It classifies a user's message into an intent tag
with a BERT classifier, picks a canned reply for that tag from an intents dataset,
and keeps a per-session chat history that it shows newest first. This project models
the deterministic part underneath the page:

- **Label vocabulary** (`labels.dfy`, module `Labels`): the label encoder's class list
  as an immutable `seq<string>`. `Decode` maps a class index to its tag. `Encode` is the
  forward direction, and the two round-trip.
- **Intent catalog and response selection** (`catalog.dfy`, module `Catalog`): intent
  records of a tag plus replies. `FirstMatch` specifies the first-match search.
  `GetResponse` is the source's loop with an early return. It picks *some* member of the
  matched record's replies, or returns the fixed fallback text
  `"Maaf, saya belum bisa menjawab pertanyaan itu."`.
- **Conversation log and its display** (`chat_log.dfy`, module `ChatLog`): entries are
  `(Sender, string)` pairs. `Render` is the view, newest first. Each bubble's style class
  is `"user-msg"` for the user and `"bot-msg"` otherwise. `Display` is the display loop
  over the reversed history.
- **Session** (`app.dfy`, module `App`): class `Chatbot`. It holds the catalog, the
  vocabulary and the classifier as constants, and the session's `chat_history` as
  `chatHistory: Option<seq<Entry>>`, where `None` means the key is not yet in the
  session state. `InitHistory` creates the key, `HandleTurn` is the form handler, and
  `Run` is one execution of the page script.

The classifier is a constructor parameter `classify: string -> nat`. It stands for
tokenisation, BERT inference and `argmax`. Beyond its type, the model assumes one thing
about it: for every input it answers, the class index is inside the vocabulary
(`Chatbot.CanAnswer`, required by `HandleTurn` and `Run`). The catalog and the
vocabulary are also constructor parameters. They replace loading the JSON and pickle
files. The vocabulary is a fitted label encoder's class list, which holds each tag
once. The constructor requires this, and `Chatbot.Valid` keeps it.

Behaviour worth noting, taken from the code:
- Whitespace-only input is processed. The guard is Python truthiness of the input
  string, so only `""` is ignored (app.py:81).
- A class index outside the vocabulary is not mapped to the fallback reply. The encoder's
  inverse transform raises, and nothing catches it (app.py:27, 82).
- A matched record with no replies makes `random.choice` raise (app.py:34). Only the
  *first* matching record matters, because later records with the same tag are never
  consulted.
- Duplicate tags in the dataset are not rejected. The first record wins.

`App.ExampleSession` is a worked session with no contract of its own. It has a two-tag
vocabulary and catalog: two answered turns grow the log to two and then four entries,
an empty submission leaves it at four, and creating the history twice leaves it empty.

## Model

| member | source | states |
|---|---|---|
| Labels.Decode | app.py:27 | the decoded tag is a member of the vocabulary and has an index; over a duplicate-free vocabulary its index is exactly the decoded class id |
| Labels.Encode | app.py:27 | forward direction of the encoder: None exactly when the tag is outside the vocabulary, otherwise the first position holding the tag |
| Labels.EncodeDecode | app.py:27 | decoding the index Encode gives for a known tag yields that tag back |
| Catalog.FirstMatch | app.py:32-33 | None exactly when no record carries the tag; otherwise an in-range record with the tag and no earlier record with it |
| Catalog.GetResponse | app.py:31-35 | given that the first matching record has replies, the reply is a member of that record's replies, or the fallback text when no record matches; the catalog is a value and is not changed |
| Catalog.NoMatchGivesFallback | app.py:32-35 | when no record has the tag, a reply is possible exactly when it is the fallback text |
| Catalog.MatchGivesFirstRecordsReply | app.py:32-34 | when record i is the first with the tag, the possible replies are exactly record i's replies |
| Catalog.LaterRecordsIgnored | app.py:32-34 | appending records after a catalog that already matches, duplicates of the tag included, leaves the match unchanged |
| Catalog.MissingPrefixSkipped | app.py:32-35 | records without the tag are skipped: the match in front + back is the match in back, shifted by the length of front |
| ChatLog.CssClass | app.py:92 | the class is "user-msg" exactly when the sender is the user, and "bot-msg" otherwise |
| ChatLog.RenderLength | app.py:91 | one bubble per history entry |
| ChatLog.RenderAt | app.py:91-92 | the i-th bubble shows entry number size-1-i of the history, with the user class exactly when that entry's sender is the user |
| ChatLog.RenderAppend | app.py:91 | entries appended to the history are shown, reversed, ahead of all earlier ones |
| ChatLog.Display | app.py:91-93 | the display loop emits exactly the reversed-order view of the history |
| App.Chatbot.constructor | app.py:10-19 | a new session holds the given catalog, duplicate-free vocabulary and classifier and has no chat history yet |
| App.Chatbot.PredictIntent | app.py:22-28 | the predicted tag is in the vocabulary and encodes back to exactly the classifier's index |
| App.Chatbot.InitHistory | app.py:73-74 | the history becomes empty only when absent; an existing history is left unchanged, so running it again changes nothing |
| App.Chatbot.HandleTurn | app.py:81-87 | a submitted non-empty input appends exactly ("user", input) at the old length and ("bot", reply) right after, leaving earlier entries unchanged, with a reply valid for the predicted tag; otherwise the history is unchanged |
| App.Chatbot.Run | app.py:73-93 | one script run: the view is the rendered history; an answered turn puts the bot's reply first and the user's message second, above the earlier view |
| App.NewTurnOnTop | app.py:86-92 | after a turn the view begins with the bot bubble and then the user bubble, followed by the previous view |

## Left out

- BERT tokenizer and model loading, inference and the `argmax` over float logits
  (app.py:10-11, 23-26). They are a foreign library and floating-point numerics. The
  model has an arbitrary `classify` function in their place.
- Reading `label_encoder.pkl` and `datasets.json` (app.py:14-19). This is file I/O, so
  the vocabulary and catalog are constructor arguments. The code does no load-time
  validation (non-empty tags, unique tags, non-empty reply lists), so none is modelled.
  The one assumption on loaded data is that the vocabulary holds each tag once, as a
  fitted label encoder's class list does.
- The crash when the classifier's index is outside the vocabulary (app.py:27). The
  encoder's inverse transform raises there. `Chatbot.CanAnswer` makes an in-range index
  a precondition of `HandleTurn` and `Run`, so the crash path is not modelled. In the
  code the history stays as it was after such a crash, because the appends at
  app.py:86-87 come after the raise.
- The crash when the first matching record has no replies (app.py:34). `random.choice`
  raises there. `Catalog.Answerable` makes a non-empty reply list a precondition of
  `GetResponse`, and through `CanAnswer` also of `HandleTurn` and `Run`. As with the
  index crash, the history stays as it was in the code.
- The random number generator behind `random.choice`. The pick is a nondeterministic
  choice of a member. Nothing is stated about uniformity.
- Catalog.GetResponse: its contract cannot say that every member of the reply list *can*
  be chosen. A postcondition only constrains the one result that is produced.
- Streamlit markup, CSS, the page title, the logo and the form widgets (app.py:38-70,
  77-79, 90-94). These are presentation only. Of lines 90-94 the model keeps only the
  order of the bubbles and each bubble's class and text. The HTML string is not modelled.
- Persistence of the session state across script reruns. This is host plumbing, so the
  history is a field of the `Chatbot` object, and each `Run` call is one rerun.
- Senders are a two-valued datatype rather than the strings `"user"` and `"bot"`. The
  handler only ever writes those two strings, so the source's test `sender == "user"`
  becomes `sender == User`.
