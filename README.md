# Feature encoding and prediction decoding of the intent classifier

This project models, in Dafny, the list-manipulation code of `run_intent.py`
that sits around the external BERT encoder of a multi-head (intent, topic,
ability) text classifier, and proves properties of it.

- **Encoder** (`FeatureConversion`). `convert_single_example` builds a
  label-to-index dictionary for each of the three label vocabularies. It
  truncates the wordpieces to `max_seq_length - 2`, frames them as
  `[CLS] + tokens + [SEP]`, looks up their ids, and sets mask 1 on the real
  positions and segment id 0 everywhere. It then right-pads the ids, mask and
  segment ids with zeros to exactly `max_seq_length`. A
  `PaddingInputExample` becomes the all-zero feature.
  `convert_examples_to_features` does this for each example, in order.
- **Decoder** (`PredictionDecoding`). `decode_predicts` walks the tokens
  until the first zero mask and drops `[CLS]`/`[SEP]`. It glues `##`
  continuation pieces onto the previous word and joins the words with
  spaces. It maps the gold and predicted label ids back to label strings by
  indexing the vocabulary lists.
- **Round trip** (`Pipeline`). Take a freshly encoded example whose
  wordpieces contain no `[CLS]`/`[SEP]` and whose kept pieces do not start
  with `##`. Decoding its ids glues the kept wordpieces back into words. When
  the wordpieces are whole words, the text is the kept wordpieces joined by
  spaces, and the record carries the example's own gold labels.

The tokenizer is external. It is modelled as a record of three total
functions (`Wordpiece.Tokenizer`): text to wordpieces, token to id, and id to
token. The Python `KeyError` of a missing label and the `IndexError` of an
out-of-range label id become `Err` values. The three label lists are passed
together as `LabelVocab.LabelLists`; the source passes them as three
arguments.

Two preconditions are stated on purpose. Neither is checked up front: the first
surfaces as the `AssertionError` at run_intent.py:294-296, the second as the
`IndexError` at run_intent.py:732.
- A real example needs `max_seq_length >= 2`. Otherwise the slice at
  run_intent.py:246 has a negative bound and the length asserts at
  run_intent.py:294-296 fail. The padding sentinel needs nothing.
- The decoder needs the first token it keeps not to start with `##`.
  Otherwise `decoded_tokens[-1]` at run_intent.py:732 indexes an empty list.
  This is `PredictionDecoding.Decodable`.

Where the design description and the code differ, the model follows the
code:
- Label vocabularies are not deduplicated. When a label appears twice, the
  dictionary keeps the last position, because later writes overwrite earlier
  ones.
- `labels[id]` is Python list indexing, so a negative id counts from the back
  of the list.

## Model

| member | source | states |
|---|---|---|
| `Wordpiece.ConvertTokensToIds` | run_intent.py:283 | defines the tokenizer's token-to-id conversion: one id per token, each the vocabulary id of the token at the same position |
| `Wordpiece.ConvertIdsToTokens` | run_intent.py:720 | defines the tokenizer's id-to-token conversion: one token per id, each the vocabulary token of the id at the same position |
| `LabelVocab.LastIndexOf` | run_intent.py:231-241 | the index a label gets is its last position in the list; there is none exactly when the label is absent |
| `LabelVocab.BuildLabelMap` | run_intent.py:231-241 | the dictionary filled by the enumeration loop has exactly the list's labels as keys, each mapped to its last position |
| `LabelVocab.PyIndex` | run_intent.py:740-749 | label-list indexing succeeds exactly for ids in `[-len, len)` and yields a label of the list |
| `LabelVocab.LabelIdRoundTrip` | run_intent.py:269-271 | indexing a vocabulary with the id the encoder gave a label yields that label again |
| `FeatureConversion.Truncate` | run_intent.py:245-246 | the kept wordpieces are a prefix of the tokens: all of them when they fit, else exactly the first `max_seq_length - 2` |
| `FeatureConversion.Encode` | run_intent.py:273-292 | defines the feature of the kept wordpieces; its ids, mask and segment ids all have length `max_seq_length`, and it carries the given label ids |
| `FeatureConversion.EncodeIsFramed` | run_intent.py:273-292 | that feature's ids are those of `[CLS]`, the kept tokens and `[SEP]`, followed by zeros; its mask is 1 on the framed positions and 0 after; its segment ids are 0 |
| `FeatureConversion.ConvertSingle` | run_intent.py:289-296 | every converted feature has ids, mask and segment ids of length exactly `max_seq_length` |
| `FeatureConversion.PaddingConvertsToZeros` | run_intent.py:222-229 | the padding sentinel converts to `max_seq_length` zeros in all three lists with label ids 0, whatever the vocabularies |
| `FeatureConversion.ConvertSingleErrors` | run_intent.py:269-271 | a real example fails exactly when a label is missing from its vocabulary, and the first missing one (intent, topic, ability) is reported |
| `FeatureConversion.ConvertSingleEncodes` | run_intent.py:273-292 | ids are `[CLS]`, the kept tokens, `[SEP]`, then zeros; mask is 1 on the first `len(tokens) + 2` positions and 0 after; segment ids are 0; each label id is its label's last position in its vocabulary |
| `FeatureConversion.FrameTokens` | run_intent.py:273-281 | the framing loop yields `[CLS] + tokens + [SEP]` and one zero segment id per framed token |
| `FeatureConversion.ZeroPad` | run_intent.py:288-292 | the padding loop appends zeros to the ids, mask and segment ids until they reach `max_seq_length` |
| `FeatureConversion.EncodeKept` | run_intent.py:273-296 | framing, id lookup, masking and padding of the kept wordpieces produce exactly the feature `Encode` defines, with the three length asserts holding |
| `FeatureConversion.ConvertSingleExample` | run_intent.py:214-316 | the step-by-step conversion returns exactly the specified feature or error |
| `FeatureConversion.ConvertExamplesToFeatures` | run_intent.py:318-334 | one feature per example in the same order; succeeds exactly when every example converts, and otherwise reports the first example's error |
| `PredictionDecoding.ActiveLength` | run_intent.py:724-726 | the walk visits the positions before the first zero mask, bounded by the shorter of tokens and mask |
| `PredictionDecoding.Strip` | run_intent.py:728-729 | defines the pieces the walk keeps, in order: the visited tokens minus `[CLS]`/`[SEP]`; none of them is a marker and there are no more of them than tokens |
| `PredictionDecoding.Glue` | run_intent.py:731-735 | the words are empty exactly when there are no pieces |
| `PredictionDecoding.DecodeWords` | run_intent.py:724-735 | defines the word list of one record: it spells out the kept pieces before the first zero mask with their `##` removed, with one word per piece that does not start with `##` |
| `PredictionDecoding.Join` | run_intent.py:738 | defines `" ".join`: no words give the empty text; otherwise the text has the words' characters plus one space between each pair of neighbours |
| `PredictionDecoding.StripWithoutMarkers` | run_intent.py:728-729 | tokens with no `[CLS]`/`[SEP]` among them are all kept |
| `PredictionDecoding.StripAppend` | run_intent.py:728-729 | dropping markers distributes over concatenation |
| `PredictionDecoding.WalkStep` | run_intent.py:724-735 | one visited token leaves the words unchanged if it is a marker, extends the last word if it starts with `##`, and adds a word otherwise |
| `PredictionDecoding.GlueWithoutContinuations` | run_intent.py:735 | pieces without `##` each become a word of their own |
| `PredictionDecoding.GlueKeepsCharacters` | run_intent.py:731-735 | the words spell out the pieces with their `##` removed: no character is lost or added |
| `PredictionDecoding.GlueCountsWords` | run_intent.py:731-735 | there is one word per piece that does not start with `##` |
| `PredictionDecoding.ContinuationJoinsWithoutSpace` | run_intent.py:731-733 | `play`, `##ing` decodes to the single word `playing` |
| `PredictionDecoding.ZeroMaskDecodesToNothing` | run_intent.py:725-726 | an all-zero mask decodes to no words |
| `PredictionDecoding.DecodeIgnoresPadding` | run_intent.py:725-726 | tokens and mask entries after the first zero mask do not change the decoded words |
| `PredictionDecoding.DecodeText` | run_intent.py:723-738 | the walk with its early exit at a zero mask and its in-place gluing returns `Join` of the words `DecodeWords` defines |
| `PredictionDecoding.DecodePredict` | run_intent.py:737-752 | a record decodes exactly when all six label ids index their lists, and each label string is from its list; otherwise the error is exactly the first out-of-range id, in the order intent gold, intent predicted, topic gold, topic predicted, ability gold, ability predicted, with its head |
| `PredictionDecoding.DecodePredicts` | run_intent.py:712-756 | one record per prediction in the same order; succeeds exactly when every record decodes, and otherwise reports the first error |
| `Pipeline.ActiveLengthOfEncoding` | run_intent.py:286-291 | the decoder's walk over an encoded feature visits exactly the framed positions |
| `Pipeline.PredictOf` | run_intent.py:920-936 | defines the prediction record of a feature: ids, mask and gold label ids come from the feature, and the predicted ids from the estimator |
| `Pipeline.StripFramed` | run_intent.py:273-281 | framing marker-free wordpieces and dropping the markers gives the wordpieces back |
| `Pipeline.EncodeThenDecodePieces` | run_intent.py:245-292 | decoding a freshly encoded example whose wordpieces have no marker, and whose kept pieces do not start with `##`, gives back the kept wordpieces glued into words |
| `Pipeline.EncodeThenDecodeWords` | run_intent.py:245-292 | decoding a freshly encoded example whose wordpieces are whole words gives back the kept wordpieces |
| `Pipeline.PredictRoundTrip` | run_intent.py:920-944 | the decoded record of such an example has the kept words joined by spaces, the example's own gold labels, and the labels at the predicted ids |
| `Pipeline.PaddingPredictDecodesToEmptyText` | run_intent.py:222-229 | a padding example decodes to the empty text, with the first label of each vocabulary as its gold label |

## Left out

- `create_model`, `model_fn_builder`, `serving_input_fn` (run_intent.py:464-710): TensorFlow graph construction, the BERT forward pass, dense heads, dropout, softmax, the masked loss and metrics. This is floating-point numerics and foreign library calls.
- `input_fn_builder`, `file_based_convert_examples_to_features`, `file_based_input_fn_builder`: tf.data batching, shuffling and TFRecord serialisation through external writers.
- `IntentProcessor` (JSON and vocabulary file reading), `write_to_json`, `write_to_text`, `main` and the flag definitions: file I/O and command-line plumbing. Example labels are modelled as strings, because the JSON reader always supplies them.
- The tokenizer's internals and vocabulary: an abstract parameter. Its id lookups are taken as total, so a `KeyError` on an unknown token or id is not modelled.
- The logging at run_intent.py:298-307 and run_intent.py:327-328. With it goes the `ex_index` argument, which is used only for logging. The `max_seq_length` argument of `decode_predicts` is unused in the source and is left out as well.
- The float fields of a prediction (`sent_embed`, scores and probability vectors): they are converted to float and passed through unchanged.
- `FeatureConversion.ConvertSingleExample`: requires `max_seq_length >= 2` for a real example. It does not model the `AssertionError` the source raises at run_intent.py:294-296 for shorter lengths.
- `PredictionDecoding.DecodeText`: requires the first kept token not to start with `##`. It does not model the `IndexError` the source raises at run_intent.py:732 in that case.
- The defects that stop the module from running are not reproduced. These are the missing commas at run_intent.py:688 and :691, `abilityt_result_mask` at run_intent.py:548, the `abilityt_predict_id` key at run_intent.py:692, and `ClassificationProcessor` at run_intent.py:795. They all lie outside the modelled code.
