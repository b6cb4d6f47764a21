/** What each dialogue-and-clause component's output is, site by site, and what the
    whole result list of a run satisfies. */
module DialogueProperties {
  import opened Strings
  import opened Annotations
  import opened Findings
  import opened QuoteToggle
  import opened DialogueRules

  /** One passing finding per token checked while the quote flag is open, in token
      order, spanning the token. */
  lemma DialogueMarksPerToken(doc: Doc)
    ensures var sel := Select((j: nat) => j < |doc.tokens| && QuoteOpen(doc, j + 1), |doc.tokens|);
      var out := DialogueMarkFindings(doc);
      && |out| == |sel|
      && forall k :: 0 <= k < |sel| ==> out[k] == TokenFinding(1, doc.tokens[sel[k]], Pass)
  {
    FlattenSelect(i => DialogueMarkAt(doc, i), (j: nat) => j < |doc.tokens| && QuoteOpen(doc, j + 1), |doc.tokens|);
  }

  /** A token is checked while the quote flag is open exactly when an odd number of
      quote tokens come up to and including it. */
  lemma DialogueTokensByParity(doc: Doc, j: nat)
    requires j < |doc.tokens|
    ensures j in Select((j: nat) => j < |doc.tokens| && QuoteOpen(doc, j + 1), |doc.tokens|)
        <==> |QuoteMarks(doc, j + 1)| % 2 == 1
  {
    QuoteOpenParity(doc, j + 1);
  }

  /** A quote token is marked as dialogue exactly when it opens a quotation (an even
      number of quote tokens precede it); the closing quote is not marked. */
  lemma OpeningQuoteMarkedClosingNot(doc: Doc, i: nat)
    requires i < |doc.tokens| && IsQuoteMark(doc.tokens[i])
    ensures DialogueMarkAt(doc, i) != [] <==> |QuoteMarks(doc, i)| % 2 == 0
  {
    QuoteOpenParity(doc, i);
  }

  /** The `comma_found` flag says whether some child looked at so far is a comma. */
  lemma {:induction false} CommaFoundMeaning(doc: Doc, i: nat, n: nat)
    requires WellFormed(doc)
    ensures CommaFound(doc, i, n) <==> exists j :: 0 <= j < n && IsCommaChild(doc, i, j)
  {
    if n > 0 {
      CommaFoundMeaning(doc, i, n - 1);
    }
  }

  /** For an adverbial or relative clause token: one passing finding per comma among
      its children, in child order, spanning the comma; when it has no comma child,
      a single failing finding spanning the clause token. */
  lemma ClauseCommasPerClause(doc: Doc, i: nat)
    requires WellFormed(doc) && i < |doc.tokens| && IsClauseHead(doc.tokens[i])
    ensures var t := doc.tokens[i];
      var sel := Select((j: nat) => IsCommaChild(doc, i, j), |t.children|);
      var out := ClauseCommaAt(doc, i);
      && (sel == [] ==> out == [TokenFinding(2, t, Fail)])
      && (sel != [] ==>
            && |out| == |sel|
            && forall k :: 0 <= k < |sel| ==>
                 doc.tokens[t.children[sel[k]]].text == "," &&
                 out[k] == TokenFinding(2, doc.tokens[Child(doc, i, sel[k])], Pass))
  {
    var t := doc.tokens[i];
    FlattenSelect((j: nat) => CommaChildAt(doc, i, j), (j: nat) => IsCommaChild(doc, i, j), |t.children|);
    CommaFoundWhenSelected(doc, i);
  }

  /** The flag ends up set exactly when some child is a comma. */
  lemma CommaFoundWhenSelected(doc: Doc, i: nat)
    requires WellFormed(doc) && i < |doc.tokens|
    ensures CommaFound(doc, i, |doc.tokens[i].children|)
        <==> Select((j: nat) => IsCommaChild(doc, i, j), |doc.tokens[i].children|) != []
  {
    var n := |doc.tokens[i].children|;
    var sel := Select((j: nat) => IsCommaChild(doc, i, j), n);
    CommaFoundMeaning(doc, i, n);
    if sel != [] {
      assert IsCommaChild(doc, i, sel[0]);
    } else {
      assert forall j :: 0 <= j < n && IsCommaChild(doc, i, j) ==> j in sel;
    }
  }

  /** Every adverbial or relative clause token yields at least one finding, so the
      component outputs at least as many findings as there are such tokens. */
  lemma ClauseCommasAtLeastOnePerClause(doc: Doc)
    requires WellFormed(doc)
    ensures |Select((j: nat) => j < |doc.tokens| && IsClauseHead(doc.tokens[j]), |doc.tokens|)|
      <= |ClauseCommaFindings(doc)|
  {
    forall i | 0 <= i < |doc.tokens| && IsClauseHead(doc.tokens[i]) ensures 1 <= |ClauseCommaAt(doc, i)| {
      ClauseCommasPerClause(doc, i);
    }
    FlattenAtLeast((i: nat) => ClauseCommaAt(doc, i),
                   (j: nat) => j < |doc.tokens| && IsClauseHead(doc.tokens[j]), |doc.tokens|);
  }

  /** One passing finding per `mark` token whose head is an adverbial clause, in token
      order, spanning the marker. */
  lemma SubordinatorsPerMarker(doc: Doc)
    requires WellFormed(doc)
    ensures var sel := Select((j: nat) => IsSubordinatorSite(doc, j), |doc.tokens|);
      var out := SubordinatorFindings(doc);
      && |out| == |sel|
      && forall k :: 0 <= k < |sel| ==>
           var t := doc.tokens[sel[k]];
           && t.dep == "mark" && doc.tokens[t.head].dep == "advcl"
           && out[k] == TokenFinding(3, t, Pass)
  {
    FlattenSelect(i => SubordinatorAt(doc, i), (j: nat) => IsSubordinatorSite(doc, j), |doc.tokens|);
  }

  /** One passing finding per verb or pronoun checked while the quote flag is open, in
      token order, spanning the token. */
  lemma ComplexDialoguePerToken(doc: Doc)
    ensures var sel := Select((j: nat) => j < |doc.tokens| && QuoteOpen(doc, j + 1) && doc.tokens[j].pos in ["VERB", "PRON"], |doc.tokens|);
      var out := ComplexDialogueFindings(doc);
      && |out| == |sel|
      && forall k :: 0 <= k < |sel| ==> out[k] == TokenFinding(4, doc.tokens[sel[k]], Pass)
  {
    FlattenSelect(i => ComplexDialogueAt(doc, i),
                  (j: nat) => j < |doc.tokens| && QuoteOpen(doc, j + 1) && doc.tokens[j].pos in ["VERB", "PRON"],
                  |doc.tokens|);
  }

  /** Every token the complex-dialogue component reports was also reported as dialogue,
      and each of its findings has the span of a dialogue finding. Both components
      report in token order, so the spans of the one are a subsequence of the other's. */
  lemma ComplexDialogueWithinDialogue(doc: Doc)
    ensures var dialogue := Select((j: nat) => j < |doc.tokens| && QuoteOpen(doc, j + 1), |doc.tokens|);
      var complex := Select((j: nat) => j < |doc.tokens| && QuoteOpen(doc, j + 1) && doc.tokens[j].pos in ["VERB", "PRON"], |doc.tokens|);
      forall k :: 0 <= k < |complex| ==> complex[k] in dialogue
    ensures forall f :: f in ComplexDialogueFindings(doc) ==>
      exists g :: g in DialogueMarkFindings(doc) && g.start == f.start && g.end == f.end
  {
    forall f | f in ComplexDialogueFindings(doc)
      ensures exists g :: g in DialogueMarkFindings(doc) && g.start == f.start && g.end == f.end
    {
      FlattenMember((i: nat) => ComplexDialogueAt(doc, i), |doc.tokens|, f);
      var m :| 0 <= m < |doc.tokens| && f in ComplexDialogueAt(doc, m);
      var g := TokenFinding(1, doc.tokens[m], Pass);
      FlattenContains((i: nat) => DialogueMarkAt(doc, i), |doc.tokens|, m, g);
    }
  }

  /** The substring test against ".!?" accepts exactly its seven contiguous runs: a
      lone mark, "!?" or ".!" pass while "...", "?!" or "." followed by a quote fail. */
  lemma TerminalMarkTest(text: string)
    ensures Contains(TerminalMarks, text) <==> text in ["", ".", "!", "?", ".!", "!?", ".!?"]
  {
    if Contains(TerminalMarks, text) {
      var k: nat :| k <= |TerminalMarks| && OccursAt(TerminalMarks, text, k);
      assert text == TerminalMarks[k..k + |text|];
      if |text| == 1 {
        assert text == [TerminalMarks[k]];
      } else if |text| == 2 {
        assert text == [TerminalMarks[k], TerminalMarks[k + 1]];
      }
    }
    assert OccursAt(TerminalMarks, "", 0);
    assert OccursAt(TerminalMarks, ".", 0);
    assert OccursAt(TerminalMarks, "!", 1);
    assert OccursAt(TerminalMarks, "?", 2);
    assert OccursAt(TerminalMarks, ".!", 0);
    assert OccursAt(TerminalMarks, "!?", 1);
    assert OccursAt(TerminalMarks, ".!?", 0);
  }

  /** Exactly one finding per sentence, in sentence order, on its last character; it
      passes exactly when the text of the sentence's last token is a run of ".!?". */
  lemma SimplePunctuationPerSentence(doc: Doc)
    requires WellFormed(doc)
    ensures var out := SimplePunctuationFindings(doc);
      && |out| == |doc.sents|
      && forall k :: 0 <= k < |doc.sents| ==>
           var s := doc.sents[k];
           && out[k].compIndex == 5 && out[k].start == s.endChar - 1 && out[k].end == s.endChar
           && (out[k].flag == Pass <==> doc.tokens[s.last].text in ["", ".", "!", "?", ".!", "!?", ".!?"])
  {
    FlattenEach(i => SimplePunctuationAt(doc, i), |doc.sents|);
    forall k | 0 <= k < |doc.sents|
      ensures Contains(TerminalMarks, doc.tokens[doc.sents[k].last].text)
          <==> doc.tokens[doc.sents[k].last].text in ["", ".", "!", "?", ".!", "!?", ".!?"]
    {
      TerminalMarkTest(doc.tokens[doc.sents[k].last].text);
    }
  }

  /** A sentence whose whole text is a closing curly quote is accepted: its last
      token is not a run of ".!?", so the sentence gets one failing finding on the
      quote. (The quote-aware narrative check cannot read such a sentence.) */
  lemma LoneClosingQuoteSentence()
    ensures var quote := [RightDoubleQuote];
      var doc := Doc(1, [Token(0, quote, "punct", "PUNCT", 0, [])], [Sentence(1, quote, 0)], []);
      && WellFormed(doc) && Positioned(doc) && !QuoteEndingsReadable(doc)
      && SimplePunctuationFindings(doc) == [Finding(5, 0, 1, Fail)]
  {
    var quote := [RightDoubleQuote];
    var doc := Doc(1, [Token(0, quote, "punct", "PUNCT", 0, [])], [Sentence(1, quote, 0)], []);
    TerminalMarkTest(quote);
    assert doc.sents[0] in doc.sents;
    assert SimplePunctuationFindings(doc) == Flatten((i: nat) => SimplePunctuationAt(doc, i), 0) + SimplePunctuationAt(doc, 0);
  }

  /** One passing finding per ":", ";" or "--" token, in token order, spanning it. */
  lemma ComplexPunctuationPerToken(doc: Doc)
    ensures var sel := Select((j: nat) => j < |doc.tokens| && IsComplexPunctuation(doc.tokens[j]), |doc.tokens|);
      var out := ComplexPunctuationFindings(doc);
      && |out| == |sel|
      && forall k :: 0 <= k < |sel| ==>
           doc.tokens[sel[k]].text in [":", ";", "--"] && out[k] == TokenFinding(6, doc.tokens[sel[k]], Pass)
  {
    FlattenSelect(i => ComplexPunctuationAt(doc, i),
                  (j: nat) => j < |doc.tokens| && IsComplexPunctuation(doc.tokens[j]), |doc.tokens|);
  }

  /** The four marker components never report a failure. */
  lemma MarkersOnlyPass(doc: Doc)
    requires WellFormed(doc)
    ensures AllPass(DialogueMarkFindings(doc))
    ensures AllPass(SubordinatorFindings(doc))
    ensures AllPass(ComplexDialogueFindings(doc))
    ensures AllPass(ComplexPunctuationFindings(doc))
  {
    FlattenPass((i: nat) => DialogueMarkAt(doc, i), |doc.tokens|);
    FlattenPass((i: nat) => SubordinatorAt(doc, i), |doc.tokens|);
    FlattenPass((i: nat) => ComplexDialogueAt(doc, i), |doc.tokens|);
    FlattenPass((i: nat) => ComplexPunctuationAt(doc, i), |doc.tokens|);
  }

  /** The `k`-th registered component tags its findings `k`. */
  lemma DialogueComponentIndices(doc: Doc)
    requires WellFormed(doc)
    ensures forall k :: 0 <= k < |DialogueOutputs(doc)| ==> AllFrom(DialogueOutputs(doc)[k], k + 1)
  {
    forall i | 0 <= i < |doc.tokens| ensures AllFrom(ClauseCommaAt(doc, i), 2) {
      if IsClauseHead(doc.tokens[i]) {
        FlattenFrom((j: nat) => CommaChildAt(doc, i, j), |doc.tokens[i].children|, 2);
      }
    }
    FlattenFrom((i: nat) => DialogueMarkAt(doc, i), |doc.tokens|, 1);
    FlattenFrom((i: nat) => ClauseCommaAt(doc, i), |doc.tokens|, 2);
    FlattenFrom((i: nat) => SubordinatorAt(doc, i), |doc.tokens|, 3);
    FlattenFrom((i: nat) => ComplexDialogueAt(doc, i), |doc.tokens|, 4);
    FlattenFrom((i: nat) => SimplePunctuationAt(doc, i), |doc.sents|, 5);
    FlattenFrom((i: nat) => ComplexPunctuationAt(doc, i), |doc.tokens|, 6);
  }

  /** The result list holds the components' findings grouped in registration order:
      component indices run from 1 to 6 and never decrease along the list. */
  lemma DialogueOrderedByComponent(doc: Doc)
    requires WellFormed(doc)
    ensures OrderedByComponent(DialogueFindings(doc))
    ensures forall f :: f in DialogueFindings(doc) ==> 1 <= f.compIndex <= 6
  {
    DialogueComponentIndices(doc);
    ConcatOrdered(DialogueOutputs(doc));
  }

  /** The clause component keeps its spans inside the text. */
  lemma ClauseCommaSpansWithinText(doc: Doc)
    requires WellFormed(doc) && Positioned(doc)
    ensures SpansWithin(ClauseCommaFindings(doc), doc.length)
  {
    forall i | 0 <= i < |doc.tokens| ensures SpansWithin(ClauseCommaAt(doc, i), doc.length) {
      var t := doc.tokens[i];
      assert t in doc.tokens;
      if IsClauseHead(t) {
        forall j | 0 <= j < |t.children| ensures SpansWithin(CommaChildAt(doc, i, j), doc.length) {
          assert doc.tokens[Child(doc, i, j)] in doc.tokens;
        }
        FlattenWithin((j: nat) => CommaChildAt(doc, i, j), |t.children|, doc.length);
      }
    }
    FlattenWithin((i: nat) => ClauseCommaAt(doc, i), |doc.tokens|, doc.length);
  }

  /** On a document whose offsets are consistent, every finding of a run spans a
      non-empty range of characters inside the text. */
  lemma DialogueSpansWithinText(doc: Doc)
    requires WellFormed(doc) && Positioned(doc)
    ensures SpansWithin(DialogueFindings(doc), doc.length)
  {
    forall i | 0 <= i < |doc.sents| ensures SpansWithin(SimplePunctuationAt(doc, i), doc.length) {
      assert doc.sents[i] in doc.sents;
    }
    forall i | 0 <= i < |doc.tokens|
      ensures SpansWithin(DialogueMarkAt(doc, i), doc.length)
      ensures SpansWithin(SubordinatorAt(doc, i), doc.length)
      ensures SpansWithin(ComplexDialogueAt(doc, i), doc.length)
      ensures SpansWithin(ComplexPunctuationAt(doc, i), doc.length)
    {
      assert doc.tokens[i] in doc.tokens;
    }
    FlattenWithin((i: nat) => DialogueMarkAt(doc, i), |doc.tokens|, doc.length);
    ClauseCommaSpansWithinText(doc);
    FlattenWithin((i: nat) => SubordinatorAt(doc, i), |doc.tokens|, doc.length);
    FlattenWithin((i: nat) => ComplexDialogueAt(doc, i), |doc.tokens|, doc.length);
    FlattenWithin((i: nat) => SimplePunctuationAt(doc, i), |doc.sents|, doc.length);
    FlattenWithin((i: nat) => ComplexPunctuationAt(doc, i), |doc.tokens|, doc.length);
    ConcatWithin(DialogueOutputs(doc), doc.length);
  }
}
