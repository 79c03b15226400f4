/**
  The label vocabulary: the classifier's class indices and the intent tags
  they stand for. The vocabulary is the ordered list of tags the label
  encoder was fitted on; index i names the tag at position i.
 */
module Labels {
  import opened Wrappers

  /** No tag occurs at two different indices. */
  predicate Distinct(labels: seq<string>) {
    forall i, j | 0 <= i < j < |labels| :: labels[i] != labels[j]
  }

  /** Index to tag (the encoder's inverse transform of one class id). */
  function Decode(labels: seq<string>, id: nat): (tag: string)
    requires id < |labels|
    ensures tag in labels
    ensures Encode(labels, tag).Some?
    ensures Distinct(labels) ==> Encode(labels, tag) == Some(id)
  {
    labels[id]
  }

  /** Tag to index (the encoder's forward transform): the first position
      holding the tag, or None for a tag outside the vocabulary. */
  function Encode(labels: seq<string>, tag: string): (r: Option<nat>)
    ensures r.None? <==> tag !in labels
    ensures r.Some? ==> r.value < |labels| && labels[r.value] == tag
    ensures r.Some? ==> forall j | 0 <= j < r.value :: labels[j] != tag
  {
    if |labels| == 0 then None
    else if labels[0] == tag then Some(0)
    else match Encode(labels[1..], tag)
      case None => None
      case Some(k) => Some(k + 1)
  }

  /** Decoding whatever Encode returns gives back the tag. */
  lemma EncodeDecode(labels: seq<string>, tag: string)
    requires tag in labels
    ensures Encode(labels, tag).Some?
    ensures Decode(labels, Encode(labels, tag).value) == tag
  {
  }
}
