/**
  The external wordpiece tokenizer, taken as an abstract parameter, and the
  token conventions the encoder and the decoder share.
 */
module Wordpiece {

  /** Sentence-start marker put in front of every encoded example. */
  const CLS: string := "[CLS]"

  /** Sentence-end marker put after the last kept token. */
  const SEP: string := "[SEP]"

  /**
    The tokenizer's three operations: text into wordpieces, and the
    vocabulary lookups in both directions.
   */
  datatype Tokenizer = Tokenizer(
    tokenize: string -> seq<string>,
    tokenToId: string -> int,
    idToToken: int -> string)

  /** One of the two structural markers the decoder drops. */
  predicate IsMarker(t: string) {
    t == CLS || t == SEP
  }

  /** A continuation piece: its first two characters are "##". */
  predicate IsContinuation(t: string) {
    |t| >= 2 && t[..2] == "##"
  }

  /** The tokenizer's element-wise token-to-id conversion. */
  function ConvertTokensToIds(tok: Tokenizer, tokens: seq<string>): (ids: seq<int>)
    ensures |ids| == |tokens|
    ensures forall k :: 0 <= k < |tokens| ==> ids[k] == tok.tokenToId(tokens[k])
  {
    seq(|tokens|, k requires 0 <= k < |tokens| => tok.tokenToId(tokens[k]))
  }

  /** The tokenizer's element-wise id-to-token conversion. */
  function ConvertIdsToTokens(tok: Tokenizer, ids: seq<int>): (tokens: seq<string>)
    ensures |tokens| == |ids|
    ensures forall k :: 0 <= k < |ids| ==> tokens[k] == tok.idToToken(ids[k])
  {
    seq(|ids|, k requires 0 <= k < |ids| => tok.idToToken(ids[k]))
  }

  /** The vocabulary maps every token of `tokens`, and both markers, back to itself. */
  predicate RoundTripsThroughVocab(tok: Tokenizer, tokens: seq<string>) {
    && tok.idToToken(tok.tokenToId(CLS)) == CLS
    && tok.idToToken(tok.tokenToId(SEP)) == SEP
    && forall k :: 0 <= k < |tokens| ==> tok.idToToken(tok.tokenToId(tokens[k])) == tokens[k]
  }
}
