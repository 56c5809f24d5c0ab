/**
  Prediction decoding: the wordpiece walk that rebuilds the text of an
  example, and the lookup of label strings for gold and predicted ids.
 */
module PredictionDecoding {
  import opened Wrappers
  import opened Wordpiece
  import opened LabelVocab

  /**
    How many leading positions the walk visits: it runs over the tokens
    and the mask side by side (stopping at the shorter) and breaks at the
    first zero mask entry.
   */
  function ActiveLength(tokens: seq<string>, masks: seq<int>): (n: nat)
    ensures n <= |tokens| && n <= |masks|
    ensures forall k :: 0 <= k < n ==> masks[k] != 0
    ensures n < |tokens| && n < |masks| ==> masks[n] == 0
    decreases |tokens|
  {
    if |tokens| == 0 || |masks| == 0 || masks[0] == 0 then 0
    else 1 + ActiveLength(tokens[1..], masks[1..])
  }

  /** The visited tokens without the [CLS] and [SEP] markers, in order. */
  function Strip(tokens: seq<string>): (pieces: seq<string>)
    ensures |pieces| <= |tokens|
    ensures forall k :: 0 <= k < |pieces| ==> !IsMarker(pieces[k])
    decreases |tokens|
  {
    if |tokens| == 0 then []
    else
      var last := tokens[|tokens| - 1];
      Strip(tokens[..|tokens| - 1]) + (if IsMarker(last) then [] else [last])
  }

  /**
    The walk needs a word to glue onto: the first piece must not be a
    continuation piece (otherwise the source indexes an empty list).
   */
  predicate Glueable(pieces: seq<string>) {
    |pieces| > 0 ==> !IsContinuation(pieces[0])
  }

  /**
    The words the pieces make: a continuation piece loses its "##" and is
    appended to the word before it; any other piece starts a new word.
   */
  function Glue(pieces: seq<string>): (words: seq<string>)
    requires Glueable(pieces)
    ensures |words| == 0 <==> |pieces| == 0
    decreases |pieces|
  {
    if |pieces| == 0 then []
    else
      var last := pieces[|pieces| - 1];
      var words := Glue(pieces[..|pieces| - 1]);
      if IsContinuation(last) then words[|words| - 1 := words[|words| - 1] + last[2..]]
      else words + [last]
  }

  /** The decoder's precondition: the first piece the walk keeps is not a continuation. */
  predicate Decodable(tokens: seq<string>, masks: seq<int>) {
    Glueable(Strip(tokens[..ActiveLength(tokens, masks)]))
  }

  /**
    The word list the walk over `tokens` and `masks` produces: it spells
    out the visited non-marker pieces with their "##" removed, one word per
    piece that does not start with "##".
   */
  function DecodeWords(tokens: seq<string>, masks: seq<int>): (words: seq<string>)
    requires Decodable(tokens, masks)
    ensures Flatten(words) == Spelled(Strip(tokens[..ActiveLength(tokens, masks)]))
    ensures |words| == WordStarts(Strip(tokens[..ActiveLength(tokens, masks)]))
  {
    var pieces := Strip(tokens[..ActiveLength(tokens, masks)]);
    GlueKeepsCharacters(pieces);
    GlueCountsWords(pieces);
    Glue(pieces)
  }

  /**
    Python's `" ".join(words)`: the characters of the words with one space
    between neighbours.
   */
  function Join(words: seq<string>): (text: string)
    ensures |words| == 0 ==> text == ""
    ensures |words| > 0 ==> |text| == |Flatten(words)| + |words| - 1
    decreases |words|
  {
    if |words| == 0 then ""
    else if |words| == 1 then words[0]
    else Join(words[..|words| - 1]) + " " + words[|words| - 1]
  }

  /** Stripping a prefix of the tokens gives a prefix of the stripped tokens. */
  lemma {:induction false} StripPrefix(tokens: seq<string>, j: nat)
    requires j <= |tokens|
    ensures Strip(tokens[..j]) <= Strip(tokens)
    decreases |tokens|
  {
    if j < |tokens| {
      var init := tokens[..|tokens| - 1];
      assert init[..j] == tokens[..j];
      StripPrefix(init, j);
    } else {
      assert tokens[..j] == tokens;
    }
  }

  /** One more visited token adds itself to the stripped pieces unless it is a marker. */
  lemma StripStep(tokens: seq<string>, i: nat)
    requires i < |tokens|
    ensures Strip(tokens[..i + 1]) == Strip(tokens[..i]) + (if IsMarker(tokens[i]) then [] else [tokens[i]])
  {
    assert tokens[..i + 1][..i] == tokens[..i];
  }

  /** One more piece either extends the last word or adds a word. */
  lemma GlueStep(pieces: seq<string>, piece: string)
    requires Glueable(pieces + [piece])
    ensures Glueable(pieces)
    ensures IsContinuation(piece) ==> |pieces| > 0
    ensures var words := Glue(pieces);
      Glue(pieces + [piece]) ==
        if IsContinuation(piece) then words[|words| - 1 := words[|words| - 1] + piece[2..]]
        else words + [piece]
  {
    assert (pieces + [piece])[..|pieces|] == pieces;
  }

  /** Every prefix of the visited tokens strips to glueable pieces. */
  lemma VisitedPrefixGlueable(tokens: seq<string>, n: nat, j: nat)
    requires j <= n <= |tokens|
    requires Glueable(Strip(tokens[..n]))
    ensures Glueable(Strip(tokens[..j]))
  {
    assert tokens[..n][..j] == tokens[..j];
    StripPrefix(tokens[..n], j);
  }

  /**
    One step of the walk at a visited position `i`: what the words become
    when the token there is a marker, a continuation piece or a new word.
   */
  lemma WalkStep(tokens: seq<string>, n: nat, i: nat)
    requires i < n <= |tokens|
    requires Glueable(Strip(tokens[..n]))
    ensures Glueable(Strip(tokens[..i])) && Glueable(Strip(tokens[..i + 1]))
    ensures var words := Glue(Strip(tokens[..i]));
      var token := tokens[i];
      && (!IsMarker(token) && IsContinuation(token) ==> |words| > 0)
      && Glue(Strip(tokens[..i + 1])) ==
           if IsMarker(token) then words
           else if IsContinuation(token) then words[|words| - 1 := words[|words| - 1] + token[2..]]
           else words + [token]
  {
    VisitedPrefixGlueable(tokens, n, i);
    VisitedPrefixGlueable(tokens, n, i + 1);
    StripStep(tokens, i);
    var pieces, token := Strip(tokens[..i]), tokens[i];
    if IsMarker(token) {
      assert Strip(tokens[..i + 1]) == pieces;
    } else {
      assert Strip(tokens[..i + 1]) == pieces + [token];
      GlueStep(pieces, token);
    }
  }

  /**
    The token walk: stop at the first zero mask, skip the markers, glue a
    "##" piece onto the last word in place, start a new word otherwise.
   */
  method DecodeText(tokens: seq<string>, masks: seq<int>) returns (text: string)
    requires Decodable(tokens, masks)
    ensures text == Join(DecodeWords(tokens, masks))
  {
    ghost var n := ActiveLength(tokens, masks);
    var decoded: seq<string> := [];
    var i := 0;
    while i < |tokens| && i < |masks|
      invariant 0 <= i <= n
      invariant Glueable(Strip(tokens[..i]))
      invariant decoded == Glue(Strip(tokens[..i]))
    {
      if masks[i] == 0 {
        break;
      }
      var token := tokens[i];
      WalkStep(tokens, n, i);
      if IsMarker(token) {
      } else if IsContinuation(token) {
        decoded := decoded[|decoded| - 1 := decoded[|decoded| - 1] + token[2..]];
      } else {
        decoded := decoded + [token];
      }
      i := i + 1;
    }
    assert i == n;
    text := Join(decoded);
  }

  /** Tokens with no marker among them are kept as they are. */
  lemma {:induction false} StripWithoutMarkers(tokens: seq<string>)
    requires forall k :: 0 <= k < |tokens| ==> !IsMarker(tokens[k])
    ensures Strip(tokens) == tokens
    decreases |tokens|
  {
    if |tokens| > 0 {
      var init := tokens[..|tokens| - 1];
      StripWithoutMarkers(init);
      assert init + [tokens[|tokens| - 1]] == tokens;
    }
  }

  /** Stripping distributes over concatenation. */
  lemma {:induction false} StripAppend(a: seq<string>, b: seq<string>)
    ensures Strip(a + b) == Strip(a) + Strip(b)
    decreases |b|
  {
    if |b| == 0 {
      assert a + b == a;
    } else {
      var init := b[..|b| - 1];
      StripAppend(a, init);
      assert (a + b)[..|a + b| - 1] == a + init;
    }
  }

  /** Pieces with no continuation piece among them are each a word of their own. */
  lemma {:induction false} GlueWithoutContinuations(pieces: seq<string>)
    requires forall k :: 0 <= k < |pieces| ==> !IsContinuation(pieces[k])
    ensures Glueable(pieces) && Glue(pieces) == pieces
    decreases |pieces|
  {
    if |pieces| > 0 {
      var init := pieces[..|pieces| - 1];
      GlueWithoutContinuations(init);
      assert init + [pieces[|pieces| - 1]] == pieces;
    }
  }

  /** All the characters of a word list, without separators. */
  function Flatten(words: seq<string>): string
    decreases |words|
  {
    if |words| == 0 then "" else Flatten(words[..|words| - 1]) + words[|words| - 1]
  }

  /** A piece's characters once its "##" marker, if any, is removed. */
  function Unmarked(piece: string): string {
    if IsContinuation(piece) then piece[2..] else piece
  }

  /** All the characters of the pieces, their "##" markers removed. */
  function Spelled(pieces: seq<string>): string
    decreases |pieces|
  {
    if |pieces| == 0 then "" else Spelled(pieces[..|pieces| - 1]) + Unmarked(pieces[|pieces| - 1])
  }

  /** The number of pieces that start a new word. */
  function WordStarts(pieces: seq<string>): nat
    decreases |pieces|
  {
    if |pieces| == 0 then 0
    else WordStarts(pieces[..|pieces| - 1]) + (if IsContinuation(pieces[|pieces| - 1]) then 0 else 1)
  }

  lemma FlattenSnoc(words: seq<string>, w: string)
    ensures Flatten(words + [w]) == Flatten(words) + w
  {
    assert (words + [w])[..|words|] == words;
  }

  lemma FlattenExtendLast(words: seq<string>, s: string)
    requires |words| > 0
    ensures Flatten(words[|words| - 1 := words[|words| - 1] + s]) == Flatten(words) + s
  {
    var init, last := words[..|words| - 1], words[|words| - 1];
    assert words == init + [last];
    assert words[|words| - 1 := last + s] == init + [last + s];
    FlattenSnoc(init, last + s);
    FlattenSnoc(init, last);
  }

  /**
    Gluing loses and adds no character: the words spell out the pieces
    with their "##" markers removed.
   */
  lemma {:induction false} GlueKeepsCharacters(pieces: seq<string>)
    requires Glueable(pieces)
    ensures Flatten(Glue(pieces)) == Spelled(pieces)
    decreases |pieces|
  {
    if |pieces| > 0 {
      var init, last := pieces[..|pieces| - 1], pieces[|pieces| - 1];
      assert init + [last] == pieces;
      GlueStep(init, last);
      GlueKeepsCharacters(init);
      if IsContinuation(last) {
        FlattenExtendLast(Glue(init), last[2..]);
      } else {
        FlattenSnoc(Glue(init), last);
      }
    }
  }

  /** Every piece that is not a continuation starts a word of its own, and no other piece does. */
  lemma {:induction false} GlueCountsWords(pieces: seq<string>)
    requires Glueable(pieces)
    ensures |Glue(pieces)| == WordStarts(pieces)
    decreases |pieces|
  {
    if |pieces| > 0 {
      var init, last := pieces[..|pieces| - 1], pieces[|pieces| - 1];
      assert init + [last] == pieces;
      GlueStep(init, last);
      GlueCountsWords(init);
    }
  }

  /** A single token is stripped exactly when it is a marker. */
  lemma StripOne(t: string)
    ensures Strip([t]) == if IsMarker(t) then [] else [t]
  {
    assert [t][..0] == [];
  }

  /** "play" followed by "##ing" decodes to the single word "playing". */
  lemma ContinuationJoinsWithoutSpace()
    ensures Decodable([CLS, "play", "##ing", SEP], [1, 1, 1, 1, 0])
    ensures Join(DecodeWords([CLS, "play", "##ing", SEP], [1, 1, 1, 1, 0])) == "playing"
  {
    var tokens := [CLS, "play", "##ing", SEP];
    assert ActiveLength(tokens, [1, 1, 1, 1, 0]) == 4;
    assert tokens[..4] == tokens;
    PlayingPieces();
    PlayingWords();
  }

  /** The pieces the "playing" walk keeps. */
  lemma PlayingPieces()
    ensures Strip([CLS, "play", "##ing", SEP]) == ["play", "##ing"]
  {
    assert [CLS, "play", "##ing", SEP] == [CLS] + ["play"] + ["##ing"] + [SEP];
    StripAppend([CLS] + ["play"] + ["##ing"], [SEP]);
    StripAppend([CLS] + ["play"], ["##ing"]);
    StripAppend([CLS], ["play"]);
    StripOne(CLS);
    StripOne("play");
    StripOne("##ing");
    StripOne(SEP);
  }

  /** The word those pieces glue into. */
  lemma PlayingWords()
    ensures Glueable(["play", "##ing"]) && Glue(["play", "##ing"]) == ["playing"]
  {
    assert "play"[..2] == "pl";
    assert "##ing"[..2] == "##";
    GlueWithoutContinuations(["play"]);
    assert ["play"] + ["##ing"] == ["play", "##ing"];
    GlueStep(["play"], "##ing");
    assert "##ing"[2..] == "ing";
    assert "play" + "ing" == "playing";
  }

  /** Once the mask is all zero the walk stops at once: no words. */
  lemma ZeroMaskDecodesToNothing(tokens: seq<string>, masks: seq<int>)
    requires forall k :: 0 <= k < |masks| ==> masks[k] == 0
    ensures Decodable(tokens, masks) && DecodeWords(tokens, masks) == []
  {
  }

  /** Entries past the first zero mask do not affect the words. */
  lemma DecodeIgnoresPadding(tokens: seq<string>, masks: seq<int>, tokens': seq<string>, masks': seq<int>, n: nat)
    requires n < |tokens| && n < |masks| && n < |tokens'| && n < |masks'|
    requires masks[n] == 0
    requires tokens[..n] == tokens'[..n] && masks[..n + 1] == masks'[..n + 1]
    ensures ActiveLength(tokens, masks) == ActiveLength(tokens', masks') <= n
    ensures Decodable(tokens, masks) <==> Decodable(tokens', masks')
    ensures Decodable(tokens, masks) ==> DecodeWords(tokens, masks) == DecodeWords(tokens', masks')
  {
    var a, b := ActiveLength(tokens, masks), ActiveLength(tokens', masks');
    forall k | 0 <= k <= n
      ensures masks'[k] == masks[k]
    {
      assert masks'[k] == masks'[..n + 1][k];
    }
    assert tokens[..a] == tokens[..n][..a] == tokens'[..n][..a] == tokens'[..a];
  }

  /** A prediction record from the estimator, without its float outputs. */
  datatype Predict = Predict(
    inputIds: seq<int>,
    inputMasks: seq<int>,
    intentLabelId: int,
    intentPredictId: int,
    topicLabelId: int,
    topicPredictId: int,
    abilityLabelId: int,
    abilityPredictId: int)

  /** The human-readable record written for one prediction. */
  datatype DecodedPredict = DecodedPredict(
    text: string,
    intentLabel: string,
    intentPredict: string,
    topicLabel: string,
    topicPredict: string,
    abilityLabel: string,
    abilityPredict: string)

  /** A label id that indexes outside its vocabulary list (an IndexError). */
  datatype DecodeError = LabelIndexOutOfRange(head: Head, id: int)

  /** The tokens the decoder walks for a prediction. */
  function TokensOf(p: Predict, tok: Tokenizer): seq<string> {
    ConvertIdsToTokens(tok, p.inputIds)
  }

  predicate PredictDecodable(p: Predict, tok: Tokenizer) {
    Decodable(TokensOf(p, tok), p.inputMasks)
  }

  /** `id` indexes `labels` the way Python list indexing allows. */
  predicate InPyRange(labels: seq<string>, id: int) {
    -|labels| <= id < |labels|
  }

  /**
    The record one prediction decodes to; the label lookups run in the
    order intent gold, intent predicted, topic gold, topic predicted,
    ability gold, ability predicted, and the first failing one is reported.
   */
  function DecodePredict(p: Predict, labels: LabelLists, tok: Tokenizer): (r: Result<DecodedPredict, DecodeError>)
    requires PredictDecodable(p, tok)
    ensures r.Ok? <==>
      && InPyRange(labels.intent, p.intentLabelId) && InPyRange(labels.intent, p.intentPredictId)
      && InPyRange(labels.topic, p.topicLabelId) && InPyRange(labels.topic, p.topicPredictId)
      && InPyRange(labels.ability, p.abilityLabelId) && InPyRange(labels.ability, p.abilityPredictId)
    ensures r.Err? && r.error.head == Intent ==> !InPyRange(labels.intent, r.error.id)
    ensures r.Err? && r.error.head == Topic ==> !InPyRange(labels.topic, r.error.id)
    ensures r.Err? && r.error.head == Ability ==> !InPyRange(labels.ability, r.error.id)
    // The error is the first failing lookup, in the order intent gold,
    // intent predicted, topic gold, topic predicted, ability gold, ability predicted.
    ensures !InPyRange(labels.intent, p.intentLabelId) ==>
      r == Err(LabelIndexOutOfRange(Intent, p.intentLabelId))
    ensures (InPyRange(labels.intent, p.intentLabelId) && !InPyRange(labels.intent, p.intentPredictId)) ==>
      r == Err(LabelIndexOutOfRange(Intent, p.intentPredictId))
    ensures (InPyRange(labels.intent, p.intentLabelId) && InPyRange(labels.intent, p.intentPredictId)
             && !InPyRange(labels.topic, p.topicLabelId)) ==>
      r == Err(LabelIndexOutOfRange(Topic, p.topicLabelId))
    ensures (InPyRange(labels.intent, p.intentLabelId) && InPyRange(labels.intent, p.intentPredictId)
             && InPyRange(labels.topic, p.topicLabelId) && !InPyRange(labels.topic, p.topicPredictId)) ==>
      r == Err(LabelIndexOutOfRange(Topic, p.topicPredictId))
    ensures (InPyRange(labels.intent, p.intentLabelId) && InPyRange(labels.intent, p.intentPredictId)
             && InPyRange(labels.topic, p.topicLabelId) && InPyRange(labels.topic, p.topicPredictId)
             && !InPyRange(labels.ability, p.abilityLabelId)) ==>
      r == Err(LabelIndexOutOfRange(Ability, p.abilityLabelId))
    ensures (InPyRange(labels.intent, p.intentLabelId) && InPyRange(labels.intent, p.intentPredictId)
             && InPyRange(labels.topic, p.topicLabelId) && InPyRange(labels.topic, p.topicPredictId)
             && InPyRange(labels.ability, p.abilityLabelId) && !InPyRange(labels.ability, p.abilityPredictId)) ==>
      r == Err(LabelIndexOutOfRange(Ability, p.abilityPredictId))
    ensures r.Ok? ==>
      && r.value.intentLabel in labels.intent && r.value.intentPredict in labels.intent
      && r.value.topicLabel in labels.topic && r.value.topicPredict in labels.topic
      && r.value.abilityLabel in labels.ability && r.value.abilityPredict in labels.ability
  {
    var text := Join(DecodeWords(TokensOf(p, tok), p.inputMasks));
    var intentLabel := PyIndex(labels.intent, p.intentLabelId);
    var intentPredict := PyIndex(labels.intent, p.intentPredictId);
    var topicLabel := PyIndex(labels.topic, p.topicLabelId);
    var topicPredict := PyIndex(labels.topic, p.topicPredictId);
    var abilityLabel := PyIndex(labels.ability, p.abilityLabelId);
    var abilityPredict := PyIndex(labels.ability, p.abilityPredictId);
    if intentLabel.None? then Err(LabelIndexOutOfRange(Intent, p.intentLabelId))
    else if intentPredict.None? then Err(LabelIndexOutOfRange(Intent, p.intentPredictId))
    else if topicLabel.None? then Err(LabelIndexOutOfRange(Topic, p.topicLabelId))
    else if topicPredict.None? then Err(LabelIndexOutOfRange(Topic, p.topicPredictId))
    else if abilityLabel.None? then Err(LabelIndexOutOfRange(Ability, p.abilityLabelId))
    else if abilityPredict.None? then Err(LabelIndexOutOfRange(Ability, p.abilityPredictId))
    else Ok(DecodedPredict(text, intentLabel.value, intentPredict.value, topicLabel.value,
                           topicPredict.value, abilityLabel.value, abilityPredict.value))
  }

  /**
    Decodes every prediction in order: the token walk, then the label
    lookups; the first IndexError aborts the whole decoding.
   */
  method DecodePredicts(predicts: seq<Predict>, labels: LabelLists, tok: Tokenizer)
    returns (r: Result<seq<DecodedPredict>, DecodeError>)
    requires forall i :: 0 <= i < |predicts| ==> PredictDecodable(predicts[i], tok)
    ensures r.Ok? <==> forall i :: 0 <= i < |predicts| ==> DecodePredict(predicts[i], labels, tok).Ok?
    ensures r.Ok? ==>
      && |r.value| == |predicts|
      && forall i :: 0 <= i < |predicts| ==> DecodePredict(predicts[i], labels, tok) == Ok(r.value[i])
    ensures r.Err? ==>
      exists i :: 0 <= i < |predicts|
        && DecodePredict(predicts[i], labels, tok) == Err(r.error)
        && forall j :: 0 <= j < i ==> DecodePredict(predicts[j], labels, tok).Ok?
  {
    var decodedPredicts: seq<DecodedPredict> := [];
    var i := 0;
    while i < |predicts|
      invariant 0 <= i <= |predicts|
      invariant |decodedPredicts| == i
      invariant forall j :: 0 <= j < i ==> DecodePredict(predicts[j], labels, tok) == Ok(decodedPredicts[j])
    {
      var predict := predicts[i];
      var inputTokens := ConvertIdsToTokens(tok, predict.inputIds);
      var text := DecodeText(inputTokens, predict.inputMasks);
      var intentLabel := PyIndex(labels.intent, predict.intentLabelId);
      var intentPredict := PyIndex(labels.intent, predict.intentPredictId);
      var topicLabel := PyIndex(labels.topic, predict.topicLabelId);
      var topicPredict := PyIndex(labels.topic, predict.topicPredictId);
      var abilityLabel := PyIndex(labels.ability, predict.abilityLabelId);
      var abilityPredict := PyIndex(labels.ability, predict.abilityPredictId);
      if intentLabel.None? {
        return Err(LabelIndexOutOfRange(Intent, predict.intentLabelId));
      } else if intentPredict.None? {
        return Err(LabelIndexOutOfRange(Intent, predict.intentPredictId));
      } else if topicLabel.None? {
        return Err(LabelIndexOutOfRange(Topic, predict.topicLabelId));
      } else if topicPredict.None? {
        return Err(LabelIndexOutOfRange(Topic, predict.topicPredictId));
      } else if abilityLabel.None? {
        return Err(LabelIndexOutOfRange(Ability, predict.abilityLabelId));
      } else if abilityPredict.None? {
        return Err(LabelIndexOutOfRange(Ability, predict.abilityPredictId));
      }
      var decodedPredict := DecodedPredict(text, intentLabel.value, intentPredict.value, topicLabel.value,
                                           topicPredict.value, abilityLabel.value, abilityPredict.value);
      decodedPredicts := decodedPredicts + [decodedPredict];
      i := i + 1;
    }
    r := Ok(decodedPredicts);
  }
}
