/**
  Label vocabularies: the label-to-index dictionaries the encoder builds and
  the list indexing the decoder uses to map ids back to label strings.
 */
module LabelVocab {
  import opened Wrappers

  /** The three classification heads, each with its own vocabulary. */
  datatype Head = Intent | Topic | Ability

  /** The intent, topic and ability label lists, in file order. */
  datatype LabelLists = LabelLists(intent: seq<string>, topic: seq<string>, ability: seq<string>)
  {
    function Of(head: Head): seq<string> {
      match head
      case Intent => intent
      case Topic => topic
      case Ability => ability
    }
  }

  /** `i` is the position of the last occurrence of `name` in `labels`. */
  predicate IsLastIndex(labels: seq<string>, i: nat, name: string) {
    && i < |labels|
    && labels[i] == name
    && forall j :: i < j < |labels| ==> labels[j] != name
  }

  /**
    The index a label gets in a dictionary filled by enumerating `labels`:
    later writes overwrite earlier ones, so the last occurrence wins.
   */
  function LastIndexOf(labels: seq<string>, name: string): (r: Option<nat>)
    ensures r.None? <==> name !in labels
    ensures r.Some? ==> IsLastIndex(labels, r.value, name)
    decreases |labels|
  {
    if |labels| == 0 then None
    else if labels[|labels| - 1] == name then Some(|labels| - 1)
    else LastIndexOf(labels[..|labels| - 1], name)
  }

  /**
    Fills a label-to-index dictionary by enumerating the list, as the
    encoder does once per vocabulary.
   */
  method BuildLabelMap(labels: seq<string>) returns (m: map<string, nat>)
    ensures forall l :: l in m <==> l in labels
    ensures forall l :: l in m ==> LastIndexOf(labels, l) == Some(m[l])
  {
    m := map[];
    var i := 0;
    while i < |labels|
      invariant 0 <= i <= |labels|
      invariant forall l :: l in m <==> l in labels[..i]
      invariant forall l :: l in m ==> LastIndexOf(labels[..i], l) == Some(m[l])
    {
      assert labels[..i + 1][..i] == labels[..i];
      m := m[labels[i] := i];
      i := i + 1;
    }
    assert labels[..i] == labels;
  }

  /**
    Python's `labels[id]`: a non-negative id counts from the front, a
    negative one from the back, and anything else raises IndexError (None).
   */
  function PyIndex(labels: seq<string>, id: int): (r: Option<string>)
    ensures r.Some? <==> -|labels| <= id < |labels|
    ensures r.Some? ==> r.value in labels
  {
    if 0 <= id < |labels| then Some(labels[id])
    else if -|labels| <= id < 0 then Some(labels[|labels| + id])
    else None
  }

  /** Indexing a vocabulary with the id the encoder gave a label yields that label. */
  lemma LabelIdRoundTrip(labels: seq<string>, name: string)
    requires name in labels
    ensures LastIndexOf(labels, name).Some?
    ensures PyIndex(labels, LastIndexOf(labels, name).value) == Some(name)
  {
  }
}
