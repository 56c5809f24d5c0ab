/**
  The prediction path end to end: an example is encoded, the estimator's
  ids are attached to its feature, and the record is decoded again.
 */
module Pipeline {
  import opened Wrappers
  import opened Wordpiece
  import opened LabelVocab
  import opened FeatureConversion
  import opened PredictionDecoding

  /**
    The prediction record built from a feature and the estimator's three
    predicted ids: the feature supplies the ids, the mask and the gold ids.
   */
  function PredictOf(f: InputFeatures, intentPredictId: int, topicPredictId: int, abilityPredictId: int): (p: Predict)
    ensures p.inputIds == f.inputIds && p.inputMasks == f.inputMasks
    ensures p.intentLabelId == f.intentLabelId && p.topicLabelId == f.topicLabelId
    ensures p.abilityLabelId == f.abilityLabelId
    ensures p.intentPredictId == intentPredictId && p.topicPredictId == topicPredictId
    ensures p.abilityPredictId == abilityPredictId
  {
    Predict(f.inputIds, f.inputMasks, f.intentLabelId, intentPredictId, f.topicLabelId, topicPredictId,
            f.abilityLabelId, abilityPredictId)
  }

  /** Wordpieces among which the tokenizer produced no "[CLS]" or "[SEP]". */
  predicate NoMarkers(tokens: seq<string>) {
    forall k :: 0 <= k < |tokens| ==> !IsMarker(tokens[k])
  }

  /** Wordpieces that are whole words: no marker and no continuation piece. */
  predicate WholeWords(tokens: seq<string>) {
    forall k :: 0 <= k < |tokens| ==> !IsMarker(tokens[k]) && !IsContinuation(tokens[k])
  }

  /** The walk over an encoded feature visits exactly the framed positions. */
  lemma ActiveLengthOfEncoding(f: InputFeatures, kept: seq<string>, maxSeqLength: nat, tok: Tokenizer, tokens: seq<string>)
    requires IsFramedEncoding(f, kept, maxSeqLength, tok)
    requires |tokens| == maxSeqLength
    ensures ActiveLength(tokens, f.inputMasks) == |kept| + 2
  {
    var n := ActiveLength(tokens, f.inputMasks);
    assert f.inputMasks[|kept| + 1] == 1;
    assert |kept| + 2 < maxSeqLength ==> f.inputMasks[|kept| + 2] == 0;
  }

  /** Where the vocabulary round-trips, the framed ids read back as the framed tokens. */
  lemma FramedIdsReadBack(f: InputFeatures, all: seq<string>, kept: seq<string>, maxSeqLength: nat, tok: Tokenizer)
    requires IsFramedEncoding(f, kept, maxSeqLength, tok)
    requires kept <= all && RoundTripsThroughVocab(tok, all)
    ensures ConvertIdsToTokens(tok, f.inputIds)[..|kept| + 2] == [CLS] + kept + [SEP]
  {
    var tokens := ConvertIdsToTokens(tok, f.inputIds);
    forall k | 0 <= k < |kept|
      ensures tokens[k + 1] == kept[k]
    {
      assert kept[k] == all[k];
    }
  }

  /** Framing marker-free pieces and stripping the frame again gives the pieces back. */
  lemma StripFramed(kept: seq<string>)
    requires NoMarkers(kept)
    ensures Strip([CLS] + kept + [SEP]) == kept
  {
    StripAppend([CLS] + kept, [SEP]);
    StripAppend([CLS], kept);
    StripOne(CLS);
    StripOne(SEP);
    StripWithoutMarkers(kept);
  }

  /**
    Decoding the ids of a freshly encoded example whose wordpieces hold no
    marker glues back exactly the wordpieces the encoder kept, continuation
    pieces included, provided the kept pieces do not start with one.
   */
  lemma EncodeThenDecodePieces(example: Example, labels: LabelLists, maxSeqLength: nat, tok: Tokenizer)
    requires example.InputExample? && maxSeqLength >= 2
    requires ConvertSingle(example, labels, maxSeqLength, tok).Ok?
    requires NoMarkers(tok.tokenize(example.text))
    requires Glueable(Truncate(tok.tokenize(example.text), maxSeqLength))
    requires RoundTripsThroughVocab(tok, tok.tokenize(example.text))
    ensures var f := ConvertSingle(example, labels, maxSeqLength, tok).value;
      var tokens := ConvertIdsToTokens(tok, f.inputIds);
      && Decodable(tokens, f.inputMasks)
      && DecodeWords(tokens, f.inputMasks) == Glue(Truncate(tok.tokenize(example.text), maxSeqLength))
  {
    var all := tok.tokenize(example.text);
    var kept := Truncate(all, maxSeqLength);
    var f := ConvertSingle(example, labels, maxSeqLength, tok).value;
    ConvertSingleEncodes(example, labels, maxSeqLength, tok);
    var tokens := ConvertIdsToTokens(tok, f.inputIds);
    ActiveLengthOfEncoding(f, kept, maxSeqLength, tok, tokens);
    FramedIdsReadBack(f, all, kept, maxSeqLength, tok);
    assert NoMarkers(kept) by {
      forall k | 0 <= k < |kept| ensures kept[k] == all[k] { }
    }
    StripFramed(kept);
  }

  /**
    When the wordpieces are moreover whole words, the decoded words are the
    kept wordpieces themselves.
   */
  lemma EncodeThenDecodeWords(example: Example, labels: LabelLists, maxSeqLength: nat, tok: Tokenizer)
    requires example.InputExample? && maxSeqLength >= 2
    requires ConvertSingle(example, labels, maxSeqLength, tok).Ok?
    requires WholeWords(tok.tokenize(example.text))
    requires RoundTripsThroughVocab(tok, tok.tokenize(example.text))
    ensures var f := ConvertSingle(example, labels, maxSeqLength, tok).value;
      var tokens := ConvertIdsToTokens(tok, f.inputIds);
      && Decodable(tokens, f.inputMasks)
      && DecodeWords(tokens, f.inputMasks) == Truncate(tok.tokenize(example.text), maxSeqLength)
  {
    var all := tok.tokenize(example.text);
    var kept := Truncate(all, maxSeqLength);
    assert forall k :: 0 <= k < |kept| ==> !IsContinuation(kept[k]) by {
      forall k | 0 <= k < |kept| ensures kept[k] == all[k] { }
    }
    GlueWithoutContinuations(kept);
    EncodeThenDecodePieces(example, labels, maxSeqLength, tok);
  }

  /**
    The whole prediction path for such an example: the record carries the
    kept words joined by spaces, the example's own gold labels, and the
    labels at the predicted ids.
   */
  lemma PredictRoundTrip(
    example: Example, labels: LabelLists, maxSeqLength: nat, tok: Tokenizer,
    intentPredictId: nat, topicPredictId: nat, abilityPredictId: nat)
    requires example.InputExample? && maxSeqLength >= 2
    requires ConvertSingle(example, labels, maxSeqLength, tok).Ok?
    requires WholeWords(tok.tokenize(example.text))
    requires RoundTripsThroughVocab(tok, tok.tokenize(example.text))
    requires intentPredictId < |labels.intent| && topicPredictId < |labels.topic|
    requires abilityPredictId < |labels.ability|
    ensures var f := ConvertSingle(example, labels, maxSeqLength, tok).value;
      var p := PredictOf(f, intentPredictId, topicPredictId, abilityPredictId);
      && PredictDecodable(p, tok)
      && DecodePredict(p, labels, tok) == Ok(DecodedPredict(
           Join(Truncate(tok.tokenize(example.text), maxSeqLength)),
           example.intentLabel, labels.intent[intentPredictId],
           example.topicLabel, labels.topic[topicPredictId],
           example.abilityLabel, labels.ability[abilityPredictId]))
  {
    EncodeThenDecodeWords(example, labels, maxSeqLength, tok);
    ConvertSingleEncodes(example, labels, maxSeqLength, tok);
  }

  /**
    A padding example decodes to the empty text, and its gold ids 0 read
    the first label of each vocabulary.
   */
  lemma PaddingPredictDecodesToEmptyText(
    labels: LabelLists, maxSeqLength: nat, tok: Tokenizer,
    intentPredictId: nat, topicPredictId: nat, abilityPredictId: nat)
    requires |labels.intent| > 0 && |labels.topic| > 0 && |labels.ability| > 0
    requires intentPredictId < |labels.intent| && topicPredictId < |labels.topic|
    requires abilityPredictId < |labels.ability|
    ensures var f := ConvertSingle(PaddingInputExample, labels, maxSeqLength, tok).value;
      var p := PredictOf(f, intentPredictId, topicPredictId, abilityPredictId);
      && PredictDecodable(p, tok)
      && DecodePredict(p, labels, tok) == Ok(DecodedPredict(
           "", labels.intent[0], labels.intent[intentPredictId],
           labels.topic[0], labels.topic[topicPredictId],
           labels.ability[0], labels.ability[abilityPredictId]))
  {
    var f := ConvertSingle(PaddingInputExample, labels, maxSeqLength, tok).value;
    ZeroMaskDecodesToNothing(ConvertIdsToTokens(tok, f.inputIds), f.inputMasks);
  }
}
