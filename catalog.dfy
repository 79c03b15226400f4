/**
  The intent catalog and response selection: an ordered list of intent
  records searched front to back for the first record with the wanted tag.
 */
module Catalog {
  import opened Wrappers

  /** One entry of the intents dataset: a tag and its canned replies. */
  datatype IntentRecord = IntentRecord(tag: string, responses: seq<string>)

  /** The reply used when no record carries the tag. */
  const Fallback: string := "Maaf, saya belum bisa menjawab pertanyaan itu."

  /** Position of the first record whose tag is `tag`, if any. */
  function FirstMatch(catalog: seq<IntentRecord>, tag: string): (r: Option<nat>)
    ensures r.None? <==> forall i | 0 <= i < |catalog| :: catalog[i].tag != tag
    ensures r.Some? ==> r.value < |catalog| && catalog[r.value].tag == tag
    ensures r.Some? ==> forall j | 0 <= j < r.value :: catalog[j].tag != tag
  {
    if |catalog| == 0 then None
    else if catalog[0].tag == tag then Some(0)
    else match FirstMatch(catalog[1..], tag)
      case None => None
      case Some(k) => Some(k + 1)
  }

  /** The selection can be made: a matched record has a reply to pick. */
  predicate Answerable(catalog: seq<IntentRecord>, tag: string) {
    match FirstMatch(catalog, tag)
    case None => true
    case Some(i) => |catalog[i].responses| > 0
  }

  /** `reply` is one of the replies selection may give for `tag`. */
  predicate IsReply(catalog: seq<IntentRecord>, tag: string, reply: string) {
    match FirstMatch(catalog, tag)
    case None => reply == Fallback
    case Some(i) => reply in catalog[i].responses
  }

  /** Linear search with early return; the pick among the matched record's
      replies is any member of them. */
  method GetResponse(catalog: seq<IntentRecord>, tag: string) returns (reply: string)
    requires Answerable(catalog, tag)
    ensures IsReply(catalog, tag, reply)
  {
    var i := 0;
    while i < |catalog|
      invariant 0 <= i <= |catalog|
      invariant forall j | 0 <= j < i :: catalog[j].tag != tag
    {
      var intent := catalog[i];
      if intent.tag == tag {
        assert FirstMatch(catalog, tag) == Some(i);
        assert intent.responses[0] in intent.responses;
        reply :| reply in intent.responses;
        return;
      }
      i := i + 1;
    }
    return Fallback;
  }

  /** With no record for the tag, the only possible reply is the fallback. */
  lemma NoMatchGivesFallback(catalog: seq<IntentRecord>, tag: string, reply: string)
    requires forall i | 0 <= i < |catalog| :: catalog[i].tag != tag
    ensures IsReply(catalog, tag, reply) <==> reply == Fallback
  {
  }

  /** With a record for the tag, the possible replies are exactly the
      replies of the first such record. */
  lemma MatchGivesFirstRecordsReply(catalog: seq<IntentRecord>, tag: string, i: nat, reply: string)
    requires i < |catalog| && catalog[i].tag == tag
    requires forall j | 0 <= j < i :: catalog[j].tag != tag
    ensures IsReply(catalog, tag, reply) <==> reply in catalog[i].responses
  {
  }

  /** Records after the first match are never consulted: appending more
      records (duplicates of the tag included) leaves selection unchanged. */
  lemma {:induction false} LaterRecordsIgnored(front: seq<IntentRecord>, back: seq<IntentRecord>, tag: string)
    requires FirstMatch(front, tag).Some?
    ensures FirstMatch(front + back, tag) == FirstMatch(front, tag)
  {
    if front[0].tag != tag {
      assert (front + back)[1..] == front[1..] + back;
      LaterRecordsIgnored(front[1..], back, tag);
    }
  }

  /** A catalog with no record for the tag defers entirely to what follows. */
  lemma {:induction false} MissingPrefixSkipped(front: seq<IntentRecord>, back: seq<IntentRecord>, tag: string)
    requires FirstMatch(front, tag).None?
    ensures FirstMatch(front + back, tag) ==
      match FirstMatch(back, tag)
      case None => None
      case Some(k) => Some(|front| + k)
  {
    if |front| == 0 {
      assert front + back == back;
    } else {
      assert front[0].tag != tag;
      assert (front + back)[1..] == front[1..] + back;
      MissingPrefixSkipped(front[1..], back, tag);
    }
  }
}
