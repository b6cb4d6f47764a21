/** What each narrative component's output is, site by site, and what the whole
    result list of a run satisfies. */
module NarrativeProperties {
  import opened Strings
  import opened Annotations
  import opened Findings
  import opened QuoteToggle
  import opened NarrativeRules

  /** One finding per PERSON, ORG or GPE entity, in entity order, spanning the entity;
      it passes exactly when the entity's text is title-cased. */
  lemma ProperNounsPerEntity(doc: Doc)
    ensures var sel := Select((j: nat) => j < |doc.ents| && IsProperNoun(doc.ents[j]), |doc.ents|);
      var out := ProperNounFindings(doc);
      && |out| == |sel|
      && forall k :: 0 <= k < |sel| ==>
           var e := doc.ents[sel[k]];
           && out[k].compIndex == 1 && out[k].start == e.startChar && out[k].end == e.endChar
           && (out[k].flag == Pass <==> TitleCased(e.text))
  {
    var sel := Select((j: nat) => j < |doc.ents| && IsProperNoun(doc.ents[j]), |doc.ents|);
    FlattenSelect(i => ProperNounAt(doc, i), (j: nat) => j < |doc.ents| && IsProperNoun(doc.ents[j]), |doc.ents|);
    forall k | 0 <= k < |sel| ensures IsTitle(doc.ents[sel[k]].text) <==> TitleCased(doc.ents[sel[k]].text) {
      IsTitleMeansTitleCased(doc.ents[sel[k]].text);
    }
  }

  /** One finding per EVENT entity, in entity order, spanning the entity; it passes
      exactly when the entity's text is title-cased. */
  lemma KeyEventsPerEntity(doc: Doc)
    ensures var sel := Select((j: nat) => j < |doc.ents| && IsKeyEvent(doc.ents[j]), |doc.ents|);
      var out := KeyEventFindings(doc);
      && |out| == |sel|
      && forall k :: 0 <= k < |sel| ==>
           var e := doc.ents[sel[k]];
           && out[k].compIndex == 2 && out[k].start == e.startChar && out[k].end == e.endChar
           && (out[k].flag == Pass <==> TitleCased(e.text))
  {
    var sel := Select((j: nat) => j < |doc.ents| && IsKeyEvent(doc.ents[j]), |doc.ents|);
    FlattenSelect(i => KeyEventAt(doc, i), (j: nat) => j < |doc.ents| && IsKeyEvent(doc.ents[j]), |doc.ents|);
    forall k | 0 <= k < |sel| ensures IsTitle(doc.ents[sel[k]].text) <==> TitleCased(doc.ents[sel[k]].text) {
      IsTitleMeansTitleCased(doc.ents[sel[k]].text);
    }
  }

  /** One finding per possessive modifier whose head contains `’s`, in token order,
      spanning the head; it passes exactly when the head ends in `’s` or `s’`. */
  lemma PossessivesPerModifier(doc: Doc)
    requires WellFormed(doc)
    ensures var sel := Select((j: nat) => IsPossessiveSite(doc, j), |doc.tokens|);
      var out := PossessiveFindings(doc);
      && |out| == |sel|
      && forall k :: 0 <= k < |sel| ==>
           var t := doc.tokens[sel[k]];
           var head := doc.tokens[t.head];
           && t.dep == "poss" && Contains(head.text, PossessiveMark)
           && out[k].compIndex == 3 && out[k].start == head.idx && out[k].end == head.idx + |head.text|
           && (out[k].flag == Pass <==> EndsWith(head.text, PossessiveMark) || EndsWith(head.text, PluralPossessiveMark))
  {
    FlattenSelect(i => PossessiveAt(doc, i), (j: nat) => IsPossessiveSite(doc, j), |doc.tokens|);
  }

  /** Only heads written with the typographic apostrophe are checked: a head with a
      straight `'s`, say, yields no finding. */
  lemma PossessiveNeedsTypographicApostrophe(doc: Doc, i: nat)
    requires WellFormed(doc) && i < |doc.tokens|
    ensures PossessiveAt(doc, i) != [] ==> RightSingleQuote in doc.tokens[doc.tokens[i].head].text
  {
    var text := doc.tokens[doc.tokens[i].head].text;
    if PossessiveAt(doc, i) != [] {
      var k: nat :| k <= |text| && OccursAt(text, PossessiveMark, k);
      assert text[k] == text[k..k + 2][0];
    }
  }

  /** Exactly one finding per sentence, in sentence order. After a terminal mark
      followed by a closing curly quote it passes on the mark; otherwise it is on the
      last character and passes exactly when that character is `.`, `!` or `?`. */
  lemma SentenceBoundaryPerSentence(doc: Doc)
    requires WellFormed(doc) && QuoteEndingsReadable(doc)
    ensures var out := SentenceBoundaryFindings(doc);
      && |out| == |doc.sents|
      && forall k :: 0 <= k < |doc.sents| ==>
           var s := doc.sents[k];
           var n := |s.text|;
           && out[k].compIndex == 4
           && if s.text[n - 1] == RightDoubleQuote && s.text[n - 2] in TerminalMarks then
                out[k].start == s.endChar - 2 && out[k].end == s.endChar - 1 && out[k].flag == Pass
              else
                && out[k].start == s.endChar - 1 && out[k].end == s.endChar
                && (out[k].flag == Pass <==> s.text[n - 1] in TerminalMarks)
  {
    FlattenEach(i => SentenceBoundaryAt(doc, i), |doc.sents|);
  }

  /** One finding per "and"/"or" conjunction, in token order. With two tokens before
      it, the finding is on the token two places back and passes exactly when that
      token is a comma; nearer the start it is a failure on the conjunction itself. */
  lemma ListCommasPerConjunction(doc: Doc)
    ensures var sel := Select((j: nat) => j < |doc.tokens| && IsListConjunction(doc.tokens[j]), |doc.tokens|);
      var out := ListCommaFindings(doc);
      && |out| == |sel|
      && forall k :: 0 <= k < |sel| ==>
           var i := sel[k];
           && out[k].compIndex == 5
           && (out[k].flag == Pass <==> i > 1 && doc.tokens[i - 2].text == ",")
           && var spanned := if i > 1 then doc.tokens[i - 2] else doc.tokens[i];
              out[k].start == spanned.idx && out[k].end == spanned.idx + |spanned.text|
  {
    FlattenSelect(i => ListCommaAt(doc, i),
                  (j: nat) => j < |doc.tokens| && IsListConjunction(doc.tokens[j]), |doc.tokens|);
  }

  /** One finding per DATE entity, in entity order. It passes exactly when the text has
      a comma, and then spans the first comma; otherwise it spans the last character. */
  lemma DateCommasPerEntity(doc: Doc)
    ensures var sel := Select((j: nat) => j < |doc.ents| && doc.ents[j].kind == "DATE", |doc.ents|);
      var out := DateCommaFindings(doc);
      && |out| == |sel|
      && forall k :: 0 <= k < |sel| ==>
           var e := doc.ents[sel[k]];
           && out[k].compIndex == 6
           && (out[k].flag == Pass <==> ',' in e.text)
           && if ',' in e.text then
                var offset := out[k].start - e.startChar;
                && 0 <= offset < |e.text| && e.text[offset] == ',' && ',' !in e.text[..offset]
                && out[k].end == out[k].start + 1
              else
                out[k].start == e.endChar - 1 && out[k].end == e.endChar
  {
    FlattenSelect(i => DateCommaAt(doc, i), (j: nat) => j < |doc.ents| && doc.ents[j].kind == "DATE", |doc.ents|);
  }

  /** One finding per adverbial clause attached to a verb, in token order. It passes
      exactly when a next token exists and is a comma, and then spans that comma;
      otherwise it spans the clause token. */
  lemma PauseCommasPerClause(doc: Doc)
    requires WellFormed(doc)
    ensures var sel := Select((j: nat) => IsPauseSite(doc, j), |doc.tokens|);
      var out := PauseCommaFindings(doc);
      && |out| == |sel|
      && forall k :: 0 <= k < |sel| ==>
           var i := sel[k];
           var t := doc.tokens[i];
           && t.dep == "advcl" && doc.tokens[t.head].pos == "VERB"
           && out[k].compIndex == 7
           && (out[k].flag == Pass <==> i + 1 < |doc.tokens| && doc.tokens[i + 1].text == ",")
           && if out[k].flag == Pass then
                out[k].start == doc.tokens[i + 1].idx && out[k].end == out[k].start + 1
              else
                out[k].start == t.idx && out[k].end == t.idx + |t.text|
  {
    FlattenSelect(i => PauseCommaAt(doc, i), (j: nat) => IsPauseSite(doc, j), |doc.tokens|);
  }

  /** One finding per token checked while the quote flag is closed, which are exactly
      the tokens with an even number of quote tokens up to and including them. It
      passes exactly when a previous token exists and is a comma, and spans that
      previous token (the first token itself when there is none). */
  lemma QuoteCommasPerToken(doc: Doc)
    ensures var sel := Select((j: nat) => j < |doc.tokens| && !QuoteOpen(doc, j + 1), |doc.tokens|);
      var out := QuoteCommaFindings(doc);
      && |out| == |sel|
      && (forall j :: 0 <= j < |doc.tokens| ==> (j in sel <==> |QuoteMarks(doc, j + 1)| % 2 == 0))
      && forall k :: 0 <= k < |sel| ==>
           var i := sel[k];
           && out[k].compIndex == 8
           && (out[k].flag == Pass <==> i > 0 && doc.tokens[i - 1].text == ",")
           && var spanned := if i > 0 then doc.tokens[i - 1] else doc.tokens[i];
              out[k].start == spanned.idx && out[k].end == spanned.idx + |spanned.text|
  {
    var sel := Select((j: nat) => j < |doc.tokens| && !QuoteOpen(doc, j + 1), |doc.tokens|);
    FlattenSelect(i => QuoteCommaAt(doc, i), (j: nat) => j < |doc.tokens| && !QuoteOpen(doc, j + 1), |doc.tokens|);
    forall j | 0 <= j < |doc.tokens| ensures j in sel <==> |QuoteMarks(doc, j + 1)| % 2 == 0 {
      QuoteOpenParity(doc, j + 1);
    }
  }

  /** The `k`-th registered component tags its findings `k`. */
  lemma NarrativeComponentIndices(doc: Doc)
    requires WellFormed(doc) && QuoteEndingsReadable(doc)
    ensures forall k :: 0 <= k < |NarrativeOutputs(doc)| ==> AllFrom(NarrativeOutputs(doc)[k], k + 1)
  {
    FlattenFrom((i: nat) => ProperNounAt(doc, i), |doc.ents|, 1);
    FlattenFrom((i: nat) => KeyEventAt(doc, i), |doc.ents|, 2);
    FlattenFrom((i: nat) => PossessiveAt(doc, i), |doc.tokens|, 3);
    FlattenFrom((i: nat) => SentenceBoundaryAt(doc, i), |doc.sents|, 4);
    FlattenFrom((i: nat) => ListCommaAt(doc, i), |doc.tokens|, 5);
    FlattenFrom((i: nat) => DateCommaAt(doc, i), |doc.ents|, 6);
    FlattenFrom((i: nat) => PauseCommaAt(doc, i), |doc.tokens|, 7);
    FlattenFrom((i: nat) => QuoteCommaAt(doc, i), |doc.tokens|, 8);
  }

  /** The result list holds the components' findings grouped in registration order:
      component indices run from 1 to 8 and never decrease along the list. */
  lemma NarrativeOrderedByComponent(doc: Doc)
    requires WellFormed(doc) && QuoteEndingsReadable(doc)
    ensures OrderedByComponent(NarrativeFindings(doc))
    ensures forall f :: f in NarrativeFindings(doc) ==> 1 <= f.compIndex <= 8
  {
    NarrativeComponentIndices(doc);
    ConcatOrdered(NarrativeOutputs(doc));
  }

  /** The entity components keep their spans inside the text. */
  lemma EntitySpansWithinText(doc: Doc)
    requires Positioned(doc)
    ensures SpansWithin(ProperNounFindings(doc), doc.length)
    ensures SpansWithin(KeyEventFindings(doc), doc.length)
    ensures SpansWithin(DateCommaFindings(doc), doc.length)
  {
    forall i | 0 <= i < |doc.ents| ensures SpansWithin(DateCommaAt(doc, i), doc.length) {
      assert doc.ents[i] in doc.ents;
    }
    forall i | 0 <= i < |doc.ents|
      ensures SpansWithin(ProperNounAt(doc, i), doc.length) && SpansWithin(KeyEventAt(doc, i), doc.length)
    {
      assert doc.ents[i] in doc.ents;
    }
    FlattenWithin((i: nat) => ProperNounAt(doc, i), |doc.ents|, doc.length);
    FlattenWithin((i: nat) => KeyEventAt(doc, i), |doc.ents|, doc.length);
    FlattenWithin((i: nat) => DateCommaAt(doc, i), |doc.ents|, doc.length);
  }

  /** The token and sentence components keep their spans inside the text. */
  lemma TokenSpansWithinText(doc: Doc)
    requires WellFormed(doc) && QuoteEndingsReadable(doc) && Positioned(doc)
    ensures SpansWithin(PossessiveFindings(doc), doc.length)
    ensures SpansWithin(SentenceBoundaryFindings(doc), doc.length)
    ensures SpansWithin(ListCommaFindings(doc), doc.length)
    ensures SpansWithin(PauseCommaFindings(doc), doc.length)
    ensures SpansWithin(QuoteCommaFindings(doc), doc.length)
  {
    forall i | 0 <= i < |doc.sents| ensures SpansWithin(SentenceBoundaryAt(doc, i), doc.length) {
      assert doc.sents[i] in doc.sents;
    }
    forall i | 0 <= i < |doc.tokens|
      ensures SpansWithin(PossessiveAt(doc, i), doc.length)
      ensures SpansWithin(ListCommaAt(doc, i), doc.length)
      ensures SpansWithin(PauseCommaAt(doc, i), doc.length)
      ensures SpansWithin(QuoteCommaAt(doc, i), doc.length)
    {
      assert doc.tokens[i] in doc.tokens && doc.tokens[doc.tokens[i].head] in doc.tokens;
      if i > 0 { assert doc.tokens[i - 1] in doc.tokens; }
      if i > 1 { assert doc.tokens[i - 2] in doc.tokens; }
      if i + 1 < |doc.tokens| { assert doc.tokens[i + 1] in doc.tokens; }
    }
    FlattenWithin((i: nat) => PossessiveAt(doc, i), |doc.tokens|, doc.length);
    FlattenWithin((i: nat) => SentenceBoundaryAt(doc, i), |doc.sents|, doc.length);
    FlattenWithin((i: nat) => ListCommaAt(doc, i), |doc.tokens|, doc.length);
    FlattenWithin((i: nat) => PauseCommaAt(doc, i), |doc.tokens|, doc.length);
    FlattenWithin((i: nat) => QuoteCommaAt(doc, i), |doc.tokens|, doc.length);
  }

  /** On a document whose offsets are consistent, every finding of a run spans a
      non-empty range of characters inside the text. */
  lemma NarrativeSpansWithinText(doc: Doc)
    requires WellFormed(doc) && QuoteEndingsReadable(doc) && Positioned(doc)
    ensures SpansWithin(NarrativeFindings(doc), doc.length)
  {
    EntitySpansWithinText(doc);
    TokenSpansWithinText(doc);
    ConcatWithin(NarrativeOutputs(doc), doc.length);
  }
}
