/** The dialogue-and-clause pipeline: six components, run in registration order,
    each walking the tokens or sentences of one annotated document and appending
    findings to the document's result list. */
module DialogueRules {
  import opened Strings
  import opened Annotations
  import opened Findings
  import opened QuoteToggle


  /*
   * What one iteration of each component's loop appends for site `i`, and the
   * component's whole output.
   */

  /** The finding that marks token `t` as a whole. */
  function TokenFinding(comp: int, t: Token, flag: Flag): Finding {
    Finding(comp, t.idx, t.idx + |t.text|, flag)
  }

  function DialogueMarkAt(doc: Doc, i: nat): seq<Finding> {
    if i < |doc.tokens| && QuoteOpen(doc, i + 1) then [TokenFinding(1, doc.tokens[i], Pass)] else []
  }

  function DialogueMarkFindings(doc: Doc): seq<Finding> {
    Flatten(i => DialogueMarkAt(doc, i), |doc.tokens|)
  }

  predicate IsClauseHead(t: Token) {
    t.dep in ["advcl", "relcl"]
  }

  /** The position of the `j`-th child of token `i`. */
  function Child(doc: Doc, i: nat, j: nat): (c: nat)
    requires WellFormed(doc) && i < |doc.tokens| && j < |doc.tokens[i].children|
    ensures c < |doc.tokens| && c in doc.tokens[i].children
  {
    var t := doc.tokens[i];
    assert t in doc.tokens && t.children[j] in t.children;
    t.children[j]
  }

  /** Child `j` of token `i` is a comma. */
  predicate IsCommaChild(doc: Doc, i: nat, j: nat)
    requires WellFormed(doc)
  {
    i < |doc.tokens| && j < |doc.tokens[i].children| && doc.tokens[Child(doc, i, j)].text == ","
  }

  function CommaChildAt(doc: Doc, i: nat, j: nat): seq<Finding>
    requires WellFormed(doc)
  {
    if IsCommaChild(doc, i, j) then [TokenFinding(2, doc.tokens[Child(doc, i, j)], Pass)] else []
  }

  /** The `comma_found` flag once the first `n` children of token `i` have been looked at. */
  predicate CommaFound(doc: Doc, i: nat, n: nat)
    requires WellFormed(doc)
  {
    n > 0 && (CommaFound(doc, i, n - 1) || IsCommaChild(doc, i, n - 1))
  }

  function ClauseCommaAt(doc: Doc, i: nat): seq<Finding>
    requires WellFormed(doc)
  {
    if i < |doc.tokens| && IsClauseHead(doc.tokens[i]) then
      var t := doc.tokens[i];
      var commaFound := CommaFound(doc, i, |t.children|);
      Flatten((j: nat) => CommaChildAt(doc, i, j), |t.children|) +
      if commaFound then [] else [TokenFinding(2, t, Fail)]
    else []
  }

  /** The end of one iteration of the clause loop: the comma findings, then the
      failure when no comma was found, make up what the clause token yields. */
  lemma ClauseCommaStep(doc: Doc, i: nat, before: seq<Finding>, commas: seq<Finding>, after: seq<Finding>)
    requires WellFormed(doc) && i < |doc.tokens| && IsClauseHead(doc.tokens[i])
    requires commas == before + Flatten((j: nat) => CommaChildAt(doc, i, j), |doc.tokens[i].children|)
    requires CommaFound(doc, i, |doc.tokens[i].children|) ==> after == commas
    requires !CommaFound(doc, i, |doc.tokens[i].children|) ==> after == commas + [TokenFinding(2, doc.tokens[i], Fail)]
    ensures after == before + ClauseCommaAt(doc, i)
  {
    assert commas + [] == commas;
  }

  function ClauseCommaFindings(doc: Doc): seq<Finding>
    requires WellFormed(doc)
  {
    Flatten(i => ClauseCommaAt(doc, i), |doc.tokens|)
  }

  /** Token `i` is a subordinator whose head heads an adverbial clause. */
  predicate IsSubordinatorSite(doc: Doc, i: nat)
    requires WellFormed(doc)
  {
    i < |doc.tokens| && doc.tokens[i].dep == "mark" && doc.tokens[doc.tokens[i].head].dep == "advcl"
  }

  function SubordinatorAt(doc: Doc, i: nat): seq<Finding>
    requires WellFormed(doc)
  {
    if IsSubordinatorSite(doc, i) then [TokenFinding(3, doc.tokens[i], Pass)] else []
  }

  function SubordinatorFindings(doc: Doc): seq<Finding>
    requires WellFormed(doc)
  {
    Flatten(i => SubordinatorAt(doc, i), |doc.tokens|)
  }

  function ComplexDialogueAt(doc: Doc, i: nat): seq<Finding> {
    if i < |doc.tokens| && QuoteOpen(doc, i + 1) && doc.tokens[i].pos in ["VERB", "PRON"] then
      [TokenFinding(4, doc.tokens[i], Pass)]
    else []
  }

  function ComplexDialogueFindings(doc: Doc): seq<Finding> {
    Flatten(i => ComplexDialogueAt(doc, i), |doc.tokens|)
  }

  function SimplePunctuationAt(doc: Doc, i: nat): seq<Finding>
    requires WellFormed(doc)
  {
    if i < |doc.sents| then
      var s := doc.sents[i];
      var ok := Contains(TerminalMarks, doc.tokens[s.last].text);
      [Finding(5, s.endChar - 1, s.endChar, FlagOf(ok))]
    else []
  }

  function SimplePunctuationFindings(doc: Doc): seq<Finding>
    requires WellFormed(doc)
  {
    Flatten(i => SimplePunctuationAt(doc, i), |doc.sents|)
  }

  predicate IsComplexPunctuation(t: Token) {
    t.text in [":", ";", "--"]
  }

  function ComplexPunctuationAt(doc: Doc, i: nat): seq<Finding> {
    if i < |doc.tokens| && IsComplexPunctuation(doc.tokens[i]) then [TokenFinding(6, doc.tokens[i], Pass)] else []
  }

  function ComplexPunctuationFindings(doc: Doc): seq<Finding> {
    Flatten(i => ComplexPunctuationAt(doc, i), |doc.tokens|)
  }

  /** Each component's output, in registration order. */
  function DialogueOutputs(doc: Doc): seq<seq<Finding>>
    requires WellFormed(doc)
  {
    [ DialogueMarkFindings(doc), ClauseCommaFindings(doc), SubordinatorFindings(doc),
      ComplexDialogueFindings(doc), SimplePunctuationFindings(doc), ComplexPunctuationFindings(doc) ]
  }

  /** The result list of one run. */
  function DialogueFindings(doc: Doc): seq<Finding>
    requires WellFormed(doc)
  {
    Concat(DialogueOutputs(doc))
  }

  /*
   * The components, each appending to the shared result list.
   */

  class DialoguePipeline {
    /** The document's result list, shared by all components. */
    var result: seq<Finding>

    constructor ()
      ensures result == []
    {
      result := [];
    }

    method DetectQuotesForDialogue(doc: Doc)
      modifies this
      ensures result == old(result) + DialogueMarkFindings(doc)
    {
      var quoteOpen := false;
      for i := 0 to |doc.tokens|
        invariant quoteOpen == QuoteOpen(doc, i)
        invariant result == old(result) + Flatten(j => DialogueMarkAt(doc, j), i)
      {
        var token := doc.tokens[i];
        if token.text in ["\"", "'"] {
          quoteOpen := !quoteOpen;
        }
        if quoteOpen {
          result := result + [Finding(1, token.idx, token.idx + |token.text|, if quoteOpen then Pass else Fail)];
        }
      }
    }

    method DetectCommasSeparatingClauses(doc: Doc)
      requires WellFormed(doc)
      modifies this
      ensures result == old(result) + ClauseCommaFindings(doc)
    {
      for i := 0 to |doc.tokens|
        invariant result == old(result) + Flatten(j => ClauseCommaAt(doc, j), i)
      {
        AppendClauseComma(doc, i);
        FlattenStep(old(result), j => ClauseCommaAt(doc, j), i);
      }
    }

    /** The body of the loop over tokens: for a clause head, its comma children, or a
        failure on the head when it has none. */
    method AppendClauseComma(doc: Doc, i: nat)
      requires WellFormed(doc) && i < |doc.tokens|
      modifies this
      ensures result == old(result) + ClauseCommaAt(doc, i)
    {
      var token := doc.tokens[i];
      if token.dep in ["advcl", "relcl"] {
        var commaFound := AppendCommaChildren(doc, i);
        ghost var commas := result;
        if !commaFound {
          result := result + [Finding(2, token.idx, token.idx + |token.text|, Fail)];
        }
        ClauseCommaStep(doc, i, old(result), commas, result);
      } else {
        assert ClauseCommaAt(doc, i) == [];
      }
    }

    /** The inner loop over the children of clause token `i`: appends one finding per
        comma child and reports whether it found one. */
    method AppendCommaChildren(doc: Doc, i: nat) returns (commaFound: bool)
      requires WellFormed(doc) && i < |doc.tokens|
      modifies this
      ensures result == old(result) + Flatten((j: nat) => CommaChildAt(doc, i, j), |doc.tokens[i].children|)
      ensures commaFound == CommaFound(doc, i, |doc.tokens[i].children|)
    {
      var token := doc.tokens[i];
      commaFound := false;
      for k := 0 to |token.children|
        invariant commaFound == CommaFound(doc, i, k)
        invariant result == old(result) + Flatten((j: nat) => CommaChildAt(doc, i, j), k)
      {
        var child := doc.tokens[Child(doc, i, k)];
        assert child.text == "," <==> IsCommaChild(doc, i, k);
        if child.text == "," {
          commaFound := true;
          result := result + [Finding(2, child.idx, child.idx + |child.text|, Pass)];
        }
      }
    }

    method DetectSubordinatingClauses(doc: Doc)
      requires WellFormed(doc)
      modifies this
      ensures result == old(result) + SubordinatorFindings(doc)
    {
      for i := 0 to |doc.tokens|
        invariant result == old(result) + Flatten(j => SubordinatorAt(doc, j), i)
      {
        var token := doc.tokens[i];
        if token.dep == "mark" && doc.tokens[token.head].dep == "advcl" {
          result := result + [Finding(3, token.idx, token.idx + |token.text|, Pass)];
        }
      }
    }

    method DetectComplexDialogue(doc: Doc)
      modifies this
      ensures result == old(result) + ComplexDialogueFindings(doc)
    {
      var dialogue := false;
      for i := 0 to |doc.tokens|
        invariant dialogue == QuoteOpen(doc, i)
        invariant result == old(result) + Flatten(j => ComplexDialogueAt(doc, j), i)
      {
        var token := doc.tokens[i];
        if token.text in ["\"", "'"] {
          dialogue := !dialogue;
        }
        if dialogue && token.pos in ["VERB", "PRON"] {
          result := result + [Finding(4, token.idx, token.idx + |token.text|, Pass)];
        }
      }
    }

    method DetectSimplePunctuation(doc: Doc)
      requires WellFormed(doc)
      modifies this
      ensures result == old(result) + SimplePunctuationFindings(doc)
    {
      for i := 0 to |doc.sents|
        invariant result == old(result) + Flatten(j => SimplePunctuationAt(doc, j), i)
      {
        var sent := doc.sents[i];
        if !Contains(TerminalMarks, doc.tokens[sent.last].text) {
          result := result + [Finding(5, sent.endChar - 1, sent.endChar, Fail)];
        } else {
          result := result + [Finding(5, sent.endChar - 1, sent.endChar, Pass)];
        }
      }
    }

    method DetectComplexPunctuation(doc: Doc)
      modifies this
      ensures result == old(result) + ComplexPunctuationFindings(doc)
    {
      for i := 0 to |doc.tokens|
        invariant result == old(result) + Flatten(j => ComplexPunctuationAt(doc, j), i)
      {
        var token := doc.tokens[i];
        if token.text in [":", ";", "--"] {
          result := result + [Finding(6, token.idx, token.idx + |token.text|, Pass)];
        }
      }
    }

    /** Runs the components in the order they were added to the pipeline. Entries
        already in the list are kept, unchanged, in front. */
    method Run(doc: Doc)
      requires WellFormed(doc)
      modifies this
      ensures result == old(result) + DialogueMarkFindings(doc) + ClauseCommaFindings(doc) +
        SubordinatorFindings(doc) + ComplexDialogueFindings(doc) + SimplePunctuationFindings(doc) +
        ComplexPunctuationFindings(doc)
    {
      DetectQuotesForDialogue(doc);
      DetectCommasSeparatingClauses(doc);
      DetectSubordinatingClauses(doc);
      DetectComplexDialogue(doc);
      DetectSimplePunctuation(doc);
      DetectComplexPunctuation(doc);
    }
  }

  /** The result list of one run is every component's output in registration order. */
  lemma DialogueFindingsInOrder(doc: Doc)
    requires WellFormed(doc)
    ensures DialogueFindings(doc) == DialogueMarkFindings(doc) + ClauseCommaFindings(doc) +
      SubordinatorFindings(doc) + ComplexDialogueFindings(doc) + SimplePunctuationFindings(doc) +
      ComplexPunctuationFindings(doc)
  {
    var outputs := DialogueOutputs(doc);
    var acc := DialogueMarkFindings(doc);
    assert Concat(outputs[..1]) == acc by { assert outputs[..1][..0] == []; }
    acc := acc + ClauseCommaFindings(doc);
    assert Concat(outputs[..2]) == acc by { assert outputs[..2][..1] == outputs[..1]; }
    acc := acc + SubordinatorFindings(doc);
    assert Concat(outputs[..3]) == acc by { assert outputs[..3][..2] == outputs[..2]; }
    acc := acc + ComplexDialogueFindings(doc);
    assert Concat(outputs[..4]) == acc by { assert outputs[..4][..3] == outputs[..3]; }
    acc := acc + SimplePunctuationFindings(doc);
    assert Concat(outputs[..5]) == acc by { assert outputs[..5][..4] == outputs[..4]; }
    acc := acc + ComplexPunctuationFindings(doc);
    assert Concat(outputs[..6]) == acc by { assert outputs[..6][..5] == outputs[..5]; }
    assert outputs[..6] == outputs;
  }

  /** Processes one annotated document from an empty result list. */
  method ProcessText(doc: Doc) returns (result: seq<Finding>)
    requires WellFormed(doc)
    ensures result == DialogueFindings(doc)
  {
    var pipeline := new DialoguePipeline();
    pipeline.Run(doc);
    result := pipeline.result;
    DialogueFindingsInOrder(doc);
    assert [] + DialogueMarkFindings(doc) == DialogueMarkFindings(doc);
  }
}
