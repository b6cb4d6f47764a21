/** The quote flag three detectors keep while walking the tokens: it starts closed and
    flips at every straight quote token (`"` or `'`), before the token is checked. */
module QuoteToggle {
  import opened Annotations
  import opened Findings

  predicate IsQuoteMark(t: Token) {
    t.text == "\"" || t.text == "'"
  }

  /** The flag once the first `n` tokens have been toggled; token `i` is checked
      against `QuoteOpen(doc, i + 1)`. */
  function QuoteOpen(doc: Doc, n: nat): bool
    requires n <= |doc.tokens|
  {
    if n == 0 then false else QuoteOpen(doc, n - 1) != IsQuoteMark(doc.tokens[n - 1])
  }

  /** The positions of the quote tokens among the first `n`. */
  function QuoteMarks(doc: Doc, n: nat): seq<nat> {
    Select((i: nat) => i < |doc.tokens| && IsQuoteMark(doc.tokens[i]), n)
  }

  /** The flag is open exactly when an odd number of quote tokens has been seen. */
  lemma {:induction false} QuoteOpenParity(doc: Doc, n: nat)
    requires n <= |doc.tokens|
    ensures QuoteOpen(doc, n) <==> |QuoteMarks(doc, n)| % 2 == 1
  {
    if n > 0 {
      QuoteOpenParity(doc, n - 1);
    }
  }
}
