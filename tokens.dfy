/**
  A token as the external English parser hands it to the analysis: only the
  attributes the analysis reads are kept. Tagging and parsing themselves are
  not modelled; a parsed sentence is simply a `seq<Token>` in document order.
 */
module Tokens {
  datatype Token = Token(
    text: string,        // the surface word
    pos: string,         // coarse part-of-speech tag, e.g. "AUX", "VERB", "NOUN"
    baseForm: string,    // the lemma, e.g. "be" for "was"
    morph: set<string>,  // morphological features, e.g. "Tense=Past", "Aspect=Prog"
    dep: string          // dependency label, e.g. "ROOT"
  )
}
