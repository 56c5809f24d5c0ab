/**
  Example-to-feature encoding: truncation, [CLS]/[SEP] framing, the
  attention mask, zero segment ids, right zero-padding and the label ids.
 */
module FeatureConversion {
  import opened Wrappers
  import opened Wordpiece
  import opened LabelVocab

  /** A raw example, or the sentinel that pads the last batch to full size. */
  datatype Example =
    | InputExample(guid: string, text: string, intentLabel: string, topicLabel: string, abilityLabel: string)
    | PaddingInputExample

  /** The fixed-length arrays and the three label ids fed to the classifier. */
  datatype InputFeatures = InputFeatures(
    inputIds: seq<int>,
    inputMasks: seq<int>,
    segmentIds: seq<int>,
    intentLabelId: nat,
    topicLabelId: nat,
    abilityLabelId: nat)

  /** The dictionary lookup of a label failed (a KeyError). */
  datatype ConvertError = LabelNotFound(head: Head, name: string)

  function Zeros(n: nat): seq<int> {
    seq(n, _ => 0)
  }

  function Ones(n: nat): seq<int> {
    seq(n, _ => 1)
  }

  lemma ZerosAppend(m: nat, n: nat)
    ensures Zeros(m) + Zeros(n) == Zeros(m + n)
  {
  }

  /**
    A real example needs room for the two markers; the padding sentinel is
    encoded for any length.
   */
  predicate Admissible(example: Example, maxSeqLength: nat) {
    example.PaddingInputExample? || maxSeqLength >= 2
  }

  /** The wordpieces kept for an example: the first `maxSeqLength - 2` of them. */
  function Truncate(tokens: seq<string>, maxSeqLength: nat): (kept: seq<string>)
    requires maxSeqLength >= 2
    ensures kept <= tokens
    ensures |tokens| <= maxSeqLength - 2 ==> kept == tokens
    ensures |tokens| > maxSeqLength - 2 ==> |kept| == maxSeqLength - 2
  {
    if |tokens| > maxSeqLength - 2 then tokens[..maxSeqLength - 2] else tokens
  }

  /** The token sequence handed to the vocabulary lookup. */
  function Framed(tokens: seq<string>): seq<string> {
    [CLS] + tokens + [SEP]
  }

  /**
    `f` encodes `tokens` in `maxSeqLength` positions: [CLS], the tokens and
    [SEP] as ids and then only zero ids; mask 1 exactly on those framed
    positions; every segment id 0.
   */
  predicate IsFramedEncoding(f: InputFeatures, tokens: seq<string>, maxSeqLength: nat, tok: Tokenizer) {
    && |tokens| + 2 <= maxSeqLength
    && |f.inputIds| == maxSeqLength
    && |f.inputMasks| == maxSeqLength
    && |f.segmentIds| == maxSeqLength
    && f.inputIds[0] == tok.tokenToId(CLS)
    && (forall k :: 0 <= k < |tokens| ==> f.inputIds[k + 1] == tok.tokenToId(tokens[k]))
    && f.inputIds[|tokens| + 1] == tok.tokenToId(SEP)
    && (forall k :: |tokens| + 2 <= k < maxSeqLength ==> f.inputIds[k] == 0)
    && (forall k :: 0 <= k < maxSeqLength ==> f.inputMasks[k] == if k < |tokens| + 2 then 1 else 0)
    && (forall k :: 0 <= k < maxSeqLength ==> f.segmentIds[k] == 0)
  }

  /** `f` is the all-zero feature of length `maxSeqLength` with label ids 0. */
  predicate IsAllZero(f: InputFeatures, maxSeqLength: nat) {
    && |f.inputIds| == maxSeqLength
    && |f.inputMasks| == maxSeqLength
    && |f.segmentIds| == maxSeqLength
    && (forall k :: 0 <= k < maxSeqLength ==> f.inputIds[k] == 0 && f.inputMasks[k] == 0 && f.segmentIds[k] == 0)
    && f.intentLabelId == 0 && f.topicLabelId == 0 && f.abilityLabelId == 0
  }

  /** The feature of a real example with kept wordpieces `kept` and the given label ids. */
  function Encode(kept: seq<string>, maxSeqLength: nat, tok: Tokenizer, intentLabelId: nat, topicLabelId: nat,
                  abilityLabelId: nat): (f: InputFeatures)
    requires |kept| + 2 <= maxSeqLength
    ensures |f.inputIds| == maxSeqLength && |f.inputMasks| == maxSeqLength && |f.segmentIds| == maxSeqLength
    ensures f.intentLabelId == intentLabelId && f.topicLabelId == topicLabelId && f.abilityLabelId == abilityLabelId
  {
    var ids := ConvertTokensToIds(tok, Framed(kept));
    var pad := Zeros(maxSeqLength - |ids|);
    InputFeatures(ids + pad, Ones(|ids|) + pad, Zeros(maxSeqLength), intentLabelId, topicLabelId, abilityLabelId)
  }

  /** The feature `Encode` builds frames the kept wordpieces and pads with zeros. */
  lemma EncodeIsFramed(kept: seq<string>, maxSeqLength: nat, tok: Tokenizer, intentLabelId: nat, topicLabelId: nat,
                       abilityLabelId: nat)
    requires |kept| + 2 <= maxSeqLength
    ensures IsFramedEncoding(Encode(kept, maxSeqLength, tok, intentLabelId, topicLabelId, abilityLabelId),
                             kept, maxSeqLength, tok)
  {
  }

  /** The feature one example converts to, or the KeyError its labels raise. */
  function ConvertSingle(example: Example, labels: LabelLists, maxSeqLength: nat, tok: Tokenizer)
    : (r: Result<InputFeatures, ConvertError>)
    requires Admissible(example, maxSeqLength)
    ensures r.Ok? ==>
      |r.value.inputIds| == maxSeqLength && |r.value.inputMasks| == maxSeqLength
      && |r.value.segmentIds| == maxSeqLength
  {
    match example
    case PaddingInputExample =>
      Ok(InputFeatures(Zeros(maxSeqLength), Zeros(maxSeqLength), Zeros(maxSeqLength), 0, 0, 0))
    case InputExample(_, text, intentLabel, topicLabel, abilityLabel) =>
      var kept := Truncate(tok.tokenize(text), maxSeqLength);
      match (LastIndexOf(labels.intent, intentLabel), LastIndexOf(labels.topic, topicLabel),
             LastIndexOf(labels.ability, abilityLabel))
      case (None, _, _) => Err(LabelNotFound(Intent, intentLabel))
      case (Some(_), None, _) => Err(LabelNotFound(Topic, topicLabel))
      case (Some(_), Some(_), None) => Err(LabelNotFound(Ability, abilityLabel))
      case (Some(i), Some(t), Some(a)) =>
        Ok(Encode(kept, maxSeqLength, tok, i, t, a))
  }

  /** The padding sentinel becomes the all-zero feature, whatever the vocabularies. */
  lemma PaddingConvertsToZeros(labels: LabelLists, maxSeqLength: nat, tok: Tokenizer)
    ensures ConvertSingle(PaddingInputExample, labels, maxSeqLength, tok).Ok?
    ensures IsAllZero(ConvertSingle(PaddingInputExample, labels, maxSeqLength, tok).value, maxSeqLength)
  {
  }

  /**
    A real example fails exactly when one of its labels is missing from its
    vocabulary, and the first missing one (intent, then topic, then ability)
    is the one reported.
   */
  lemma ConvertSingleErrors(example: Example, labels: LabelLists, maxSeqLength: nat, tok: Tokenizer)
    requires example.InputExample? && maxSeqLength >= 2
    ensures var r := ConvertSingle(example, labels, maxSeqLength, tok);
      && (r == Err(LabelNotFound(Intent, example.intentLabel)) <==> example.intentLabel !in labels.intent)
      && (r == Err(LabelNotFound(Topic, example.topicLabel)) <==>
            example.intentLabel in labels.intent && example.topicLabel !in labels.topic)
      && (r == Err(LabelNotFound(Ability, example.abilityLabel)) <==>
            example.intentLabel in labels.intent && example.topicLabel in labels.topic
            && example.abilityLabel !in labels.ability)
      && (r.Ok? <==>
            example.intentLabel in labels.intent && example.topicLabel in labels.topic
            && example.abilityLabel in labels.ability)
  {
  }

  /**
    A converted real example frames its kept wordpieces, pads with zeros,
    and carries for each head the last position of its label in that
    head's vocabulary.
   */
  lemma ConvertSingleEncodes(example: Example, labels: LabelLists, maxSeqLength: nat, tok: Tokenizer)
    requires example.InputExample? && maxSeqLength >= 2
    requires ConvertSingle(example, labels, maxSeqLength, tok).Ok?
    ensures var f := ConvertSingle(example, labels, maxSeqLength, tok).value;
      && IsFramedEncoding(f, Truncate(tok.tokenize(example.text), maxSeqLength), maxSeqLength, tok)
      && IsLastIndex(labels.intent, f.intentLabelId, example.intentLabel)
      && IsLastIndex(labels.topic, f.topicLabelId, example.topicLabel)
      && IsLastIndex(labels.ability, f.abilityLabelId, example.abilityLabel)
  {
    var kept := Truncate(tok.tokenize(example.text), maxSeqLength);
    var f := ConvertSingle(example, labels, maxSeqLength, tok).value;
    EncodeIsFramed(kept, maxSeqLength, tok, f.intentLabelId, f.topicLabelId, f.abilityLabelId);
  }

  /** The framing loop: [CLS], each kept token, [SEP], with a zero segment id per token. */
  method FrameTokens(tokens: seq<string>) returns (inputTokens: seq<string>, segmentIds: seq<int>)
    ensures inputTokens == Framed(tokens)
    ensures segmentIds == Zeros(|tokens| + 2)
  {
    inputTokens := [CLS];
    segmentIds := [0];
    var i := 0;
    while i < |tokens|
      invariant 0 <= i <= |tokens|
      invariant inputTokens == [CLS] + tokens[..i]
      invariant segmentIds == Zeros(i + 1)
    {
      inputTokens := inputTokens + [tokens[i]];
      segmentIds := segmentIds + [0];
      i := i + 1;
    }
    assert tokens[..i] == tokens;
    inputTokens := inputTokens + [SEP];
    segmentIds := segmentIds + [0];
  }

  /** The padding loop: appends zeros to all three lists until the ids fill `maxSeqLength`. */
  method ZeroPad(ids: seq<int>, masks: seq<int>, segments: seq<int>, maxSeqLength: nat)
    returns (ids': seq<int>, masks': seq<int>, segments': seq<int>)
    requires |ids| == |masks| == |segments| <= maxSeqLength
    ensures ids' == ids + Zeros(maxSeqLength - |ids|)
    ensures masks' == masks + Zeros(maxSeqLength - |ids|)
    ensures segments' == segments + Zeros(maxSeqLength - |ids|)
  {
    ids', masks', segments' := ids, masks, segments;
    while |ids'| < maxSeqLength
      invariant |ids| <= |ids'| <= maxSeqLength
      invariant ids' == ids + Zeros(|ids'| - |ids|)
      invariant masks' == masks + Zeros(|ids'| - |ids|)
      invariant segments' == segments + Zeros(|ids'| - |ids|)
      decreases maxSeqLength - |ids'|
    {
      ids' := ids' + [0];
      masks' := masks' + [0];
      segments' := segments' + [0];
    }
  }

  /**
    The second half of the conversion: frame the kept wordpieces, look up
    their ids, mask the real positions and zero-pad all three lists.
   */
  method EncodeKept(tokens: seq<string>, maxSeqLength: nat, tok: Tokenizer, intentLabelId: nat, topicLabelId: nat,
                    abilityLabelId: nat) returns (feature: InputFeatures)
    requires |tokens| + 2 <= maxSeqLength
    ensures feature == Encode(tokens, maxSeqLength, tok, intentLabelId, topicLabelId, abilityLabelId)
  {
    var inputTokens, segmentIds := FrameTokens(tokens);
    var inputIds := ConvertTokensToIds(tok, inputTokens);
    var inputMasks := Ones(|inputIds|);
    inputIds, inputMasks, segmentIds := ZeroPad(inputIds, inputMasks, segmentIds, maxSeqLength);

    // The length asserts the source makes after padding, here discharged statically.
    assert |inputIds| == maxSeqLength;
    assert |inputMasks| == maxSeqLength;
    assert |segmentIds| == maxSeqLength;
    ZerosAppend(|tokens| + 2, maxSeqLength - (|tokens| + 2));

    feature := InputFeatures(inputIds, inputMasks, segmentIds, intentLabelId, topicLabelId, abilityLabelId);
  }

  /**
    Converts one example step by step: the three label dictionaries, the
    truncation and the label lookups, then the framing and padding.
   */
  method ConvertSingleExample(example: Example, labels: LabelLists, maxSeqLength: nat, tok: Tokenizer)
    returns (r: Result<InputFeatures, ConvertError>)
    requires Admissible(example, maxSeqLength)
    ensures r == ConvertSingle(example, labels, maxSeqLength, tok)
  {
    if example.PaddingInputExample? {
      return Ok(InputFeatures(Zeros(maxSeqLength), Zeros(maxSeqLength), Zeros(maxSeqLength), 0, 0, 0));
    }

    var intentMap := BuildLabelMap(labels.intent);
    var topicMap := BuildLabelMap(labels.topic);
    var abilityMap := BuildLabelMap(labels.ability);

    var tokens := tok.tokenize(example.text);
    if |tokens| > maxSeqLength - 2 {
      tokens := tokens[0..maxSeqLength - 2];
    }
    assert tokens == Truncate(tok.tokenize(example.text), maxSeqLength);

    if example.intentLabel !in intentMap {
      assert LastIndexOf(labels.intent, example.intentLabel).None?;
      return Err(LabelNotFound(Intent, example.intentLabel));
    }
    var intentLabelId := intentMap[example.intentLabel];
    assert LastIndexOf(labels.intent, example.intentLabel) == Some(intentLabelId);
    if example.topicLabel !in topicMap {
      assert LastIndexOf(labels.topic, example.topicLabel).None?;
      return Err(LabelNotFound(Topic, example.topicLabel));
    }
    var topicLabelId := topicMap[example.topicLabel];
    assert LastIndexOf(labels.topic, example.topicLabel) == Some(topicLabelId);
    if example.abilityLabel !in abilityMap {
      assert LastIndexOf(labels.ability, example.abilityLabel).None?;
      return Err(LabelNotFound(Ability, example.abilityLabel));
    }
    var abilityLabelId := abilityMap[example.abilityLabel];
    assert LastIndexOf(labels.ability, example.abilityLabel) == Some(abilityLabelId);

    var feature := EncodeKept(tokens, maxSeqLength, tok, intentLabelId, topicLabelId, abilityLabelId);
    r := Ok(feature);
  }

  /**
    Converts every example in order; the first KeyError aborts the whole
    conversion.
   */
  method ConvertExamplesToFeatures(examples: seq<Example>, labels: LabelLists, maxSeqLength: nat, tok: Tokenizer)
    returns (r: Result<seq<InputFeatures>, ConvertError>)
    requires forall i :: 0 <= i < |examples| ==> Admissible(examples[i], maxSeqLength)
    ensures r.Ok? <==> forall i :: 0 <= i < |examples| ==> ConvertSingle(examples[i], labels, maxSeqLength, tok).Ok?
    ensures r.Ok? ==>
      && |r.value| == |examples|
      && forall i :: 0 <= i < |examples| ==> ConvertSingle(examples[i], labels, maxSeqLength, tok) == Ok(r.value[i])
    ensures r.Err? ==>
      exists i :: 0 <= i < |examples|
        && ConvertSingle(examples[i], labels, maxSeqLength, tok) == Err(r.error)
        && forall j :: 0 <= j < i ==> ConvertSingle(examples[j], labels, maxSeqLength, tok).Ok?
  {
    var features: seq<InputFeatures> := [];
    var exIndex := 0;
    while exIndex < |examples|
      invariant 0 <= exIndex <= |examples|
      invariant |features| == exIndex
      invariant forall i :: 0 <= i < exIndex ==> ConvertSingle(examples[i], labels, maxSeqLength, tok) == Ok(features[i])
    {
      var feature := ConvertSingleExample(examples[exIndex], labels, maxSeqLength, tok);
      if feature.Err? {
        return Err(feature.error);
      }
      features := features + [feature.value];
      exIndex := exIndex + 1;
    }
    r := Ok(features);
  }
}
