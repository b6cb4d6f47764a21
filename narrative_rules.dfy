/** The narrative-conventions pipeline: eight components, run in registration order,
    each walking the entities, sentences or tokens of one annotated document and
    appending findings to the document's result list. */
module NarrativeRules {
  import opened Strings
  import opened Annotations
  import opened Findings
  import opened QuoteToggle

  const PossessiveMark: string := [RightSingleQuote, 's']
  const PluralPossessiveMark: string := ['s', RightSingleQuote]

  /*
   * What one iteration of each component's loop appends for site `i`, and the
   * component's whole output.
   */

  predicate IsProperNoun(e: Entity) {
    e.kind in ["PERSON", "ORG", "GPE"]
  }

  predicate IsKeyEvent(e: Entity) {
    e.kind in ["EVENT"]
  }

  /** Component `comp`'s check that entity `e` is written in title case. */
  function CapitalisationFinding(comp: int, e: Entity): Finding {
    Finding(comp, e.startChar, e.endChar, FlagOf(IsTitle(e.text)))
  }

  function ProperNounAt(doc: Doc, i: nat): seq<Finding> {
    if i < |doc.ents| && IsProperNoun(doc.ents[i]) then [CapitalisationFinding(1, doc.ents[i])] else []
  }

  function ProperNounFindings(doc: Doc): seq<Finding> {
    Flatten(i => ProperNounAt(doc, i), |doc.ents|)
  }

  function KeyEventAt(doc: Doc, i: nat): seq<Finding> {
    if i < |doc.ents| && IsKeyEvent(doc.ents[i]) then [CapitalisationFinding(2, doc.ents[i])] else []
  }

  function KeyEventFindings(doc: Doc): seq<Finding> {
    Flatten(i => KeyEventAt(doc, i), |doc.ents|)
  }

  /** Token `i` is a possessive modifier whose head contains the typographic `’s`. */
  predicate IsPossessiveSite(doc: Doc, i: nat)
    requires WellFormed(doc)
  {
    i < |doc.tokens| && doc.tokens[i].dep == "poss" &&
    Contains(doc.tokens[doc.tokens[i].head].text, PossessiveMark)
  }

  function PossessiveAt(doc: Doc, i: nat): seq<Finding>
    requires WellFormed(doc)
  {
    if IsPossessiveSite(doc, i) then
      var head := doc.tokens[doc.tokens[i].head];
      var ok := EndsWith(head.text, PossessiveMark) || EndsWith(head.text, PluralPossessiveMark);
      [Finding(3, head.idx, head.idx + |head.text|, FlagOf(ok))]
    else []
  }

  function PossessiveFindings(doc: Doc): seq<Finding>
    requires WellFormed(doc)
  {
    Flatten(i => PossessiveAt(doc, i), |doc.tokens|)
  }

  function SentenceBoundaryAt(doc: Doc, i: nat): seq<Finding>
    requires WellFormed(doc) && QuoteEndingsReadable(doc)
  {
    if i < |doc.sents| then
      var s := doc.sents[i];
      var n := |s.text|;
      if s.text[n - 1] == RightDoubleQuote then
        if s.text[n - 2] in TerminalMarks then [Finding(4, s.endChar - 2, s.endChar - 1, Pass)]
        else [Finding(4, s.endChar - 1, s.endChar, Fail)]
      else [Finding(4, s.endChar - 1, s.endChar, FlagOf(s.text[n - 1] in TerminalMarks))]
    else []
  }

  function SentenceBoundaryFindings(doc: Doc): seq<Finding>
    requires WellFormed(doc) && QuoteEndingsReadable(doc)
  {
    Flatten(i => SentenceBoundaryAt(doc, i), |doc.sents|)
  }

  /** A coordinating conjunction spelled "and" or "or" in any case. */
  predicate IsListConjunction(t: Token) {
    t.dep == "cc" && Lower(t.text) in ["and", "or"]
  }

  function ListCommaAt(doc: Doc, i: nat): seq<Finding> {
    if i < |doc.tokens| && IsListConjunction(doc.tokens[i]) then
      if i > 1 then
        var before := doc.tokens[i - 2];
        [Finding(5, before.idx, before.idx + |before.text|, FlagOf(before.text == ","))]
      else
        var t := doc.tokens[i];
        [Finding(5, t.idx, t.idx + |t.text|, Fail)]
    else []
  }

  function ListCommaFindings(doc: Doc): seq<Finding> {
    Flatten(i => ListCommaAt(doc, i), |doc.tokens|)
  }

  function DateCommaAt(doc: Doc, i: nat): seq<Finding> {
    if i < |doc.ents| && doc.ents[i].kind == "DATE" then
      var e := doc.ents[i];
      if ',' in e.text then
        var k := FirstIndex(e.text, ',');
        [Finding(6, e.startChar + k, e.startChar + k + 1, Pass)]
      else [Finding(6, e.endChar - 1, e.endChar, Fail)]
    else []
  }

  function DateCommaFindings(doc: Doc): seq<Finding> {
    Flatten(i => DateCommaAt(doc, i), |doc.ents|)
  }

  /** Token `i` heads an adverbial clause attached to a verb. */
  predicate IsPauseSite(doc: Doc, i: nat)
    requires WellFormed(doc)
  {
    i < |doc.tokens| && doc.tokens[i].dep == "advcl" && doc.tokens[doc.tokens[i].head].pos == "VERB"
  }

  function PauseCommaAt(doc: Doc, i: nat): seq<Finding>
    requires WellFormed(doc)
  {
    if IsPauseSite(doc, i) then
      var t := doc.tokens[i];
      if i < |doc.tokens| - 1 && doc.tokens[i + 1].text == "," then
        [Finding(7, doc.tokens[i + 1].idx, doc.tokens[i + 1].idx + 1, Pass)]
      else [Finding(7, t.idx, t.idx + |t.text|, Fail)]
    else []
  }

  function PauseCommaFindings(doc: Doc): seq<Finding>
    requires WellFormed(doc)
  {
    Flatten(i => PauseCommaAt(doc, i), |doc.tokens|)
  }

  function QuoteCommaAt(doc: Doc, i: nat): seq<Finding> {
    if i < |doc.tokens| && !QuoteOpen(doc, i + 1) then
      if i > 0 then
        var before := doc.tokens[i - 1];
        [Finding(8, before.idx, before.idx + |before.text|, FlagOf(before.text == ","))]
      else
        var t := doc.tokens[i];
        [Finding(8, t.idx, t.idx + |t.text|, Fail)]
    else []
  }

  function QuoteCommaFindings(doc: Doc): seq<Finding> {
    Flatten(i => QuoteCommaAt(doc, i), |doc.tokens|)
  }

  /** Each component's output, in registration order. */
  function NarrativeOutputs(doc: Doc): seq<seq<Finding>>
    requires WellFormed(doc) && QuoteEndingsReadable(doc)
  {
    [ ProperNounFindings(doc), KeyEventFindings(doc), PossessiveFindings(doc),
      SentenceBoundaryFindings(doc), ListCommaFindings(doc), DateCommaFindings(doc),
      PauseCommaFindings(doc), QuoteCommaFindings(doc) ]
  }

  /** The result list of one run. */
  function NarrativeFindings(doc: Doc): seq<Finding>
    requires WellFormed(doc) && QuoteEndingsReadable(doc)
  {
    Concat(NarrativeOutputs(doc))
  }

  /*
   * The components, each appending to the shared result list.
   */

  class NarrativePipeline {
    /** The document's result list, shared by all components. */
    var result: seq<Finding>

    constructor ()
      ensures result == []
    {
      result := [];
    }

    method DetectProperNouns(doc: Doc)
      modifies this
      ensures result == old(result) + ProperNounFindings(doc)
    {
      for i := 0 to |doc.ents|
        invariant result == old(result) + Flatten(j => ProperNounAt(doc, j), i)
      {
        var ent := doc.ents[i];
        if ent.kind in ["PERSON", "ORG", "GPE"] {
          var isCapitalized := IsTitle(ent.text);
          result := result + [Finding(1, ent.startChar, ent.endChar, if isCapitalized then Pass else Fail)];
        }
      }
    }

    method DetectKeyEvents(doc: Doc)
      modifies this
      ensures result == old(result) + KeyEventFindings(doc)
    {
      for i := 0 to |doc.ents|
        invariant result == old(result) + Flatten(j => KeyEventAt(doc, j), i)
      {
        var ent := doc.ents[i];
        if ent.kind in ["EVENT"] {
          var isCapitalized := IsTitle(ent.text);
          result := result + [Finding(2, ent.startChar, ent.endChar, if isCapitalized then Pass else Fail)];
        }
      }
    }

    method DetectPossessiveApostrophes(doc: Doc)
      requires WellFormed(doc)
      modifies this
      ensures result == old(result) + PossessiveFindings(doc)
    {
      for i := 0 to |doc.tokens|
        invariant result == old(result) + Flatten(j => PossessiveAt(doc, j), i)
      {
        var token := doc.tokens[i];
        var head := doc.tokens[token.head];
        if token.dep == "poss" && Contains(head.text, PossessiveMark) {
          var ok := EndsWith(head.text, PossessiveMark) || EndsWith(head.text, PluralPossessiveMark);
          result := result + [Finding(3, head.idx, head.idx + |head.text|, if ok then Pass else Fail)];
        }
      }
    }

    method DetectSentenceBoundaryPunctuation(doc: Doc)
      requires WellFormed(doc) && QuoteEndingsReadable(doc)
      modifies this
      ensures result == old(result) + SentenceBoundaryFindings(doc)
    {
      for i := 0 to |doc.sents|
        invariant result == old(result) + Flatten(j => SentenceBoundaryAt(doc, j), i)
      {
        var sent := doc.sents[i];
        var n := |sent.text|;
        var flag, start, end;
        if sent.text[n - 1] == RightDoubleQuote {
          if sent.text[n - 2] in TerminalMarks {
            flag, start, end := Pass, sent.endChar - 2, sent.endChar - 1;
          } else {
            flag, start, end := Fail, sent.endChar - 1, sent.endChar;
          }
        } else {
          if sent.text[n - 1] in TerminalMarks {
            flag, start, end := Pass, sent.endChar - 1, sent.endChar;
          } else {
            flag, start, end := Fail, sent.endChar - 1, sent.endChar;
          }
        }
        result := result + [Finding(4, start, end, flag)];
      }
    }

    method DetectCommasInLists(doc: Doc)
      modifies this
      ensures result == old(result) + ListCommaFindings(doc)
    {
      for i := 0 to |doc.tokens|
        invariant result == old(result) + Flatten(j => ListCommaAt(doc, j), i)
      {
        var token := doc.tokens[i];
        if token.dep == "cc" && Lower(token.text) in ["and", "or"] {
          var flag := if i > 1 && doc.tokens[i - 2].text == "," then Pass else Fail;
          var start := if i > 1 then doc.tokens[i - 2].idx else token.idx;
          var end := if i > 1 then doc.tokens[i - 2].idx + |doc.tokens[i - 2].text| else token.idx + |token.text|;
          result := result + [Finding(5, start, end, flag)];
        }
      }
    }

    method DetectCommasInDates(doc: Doc)
      modifies this
      ensures result == old(result) + DateCommaFindings(doc)
    {
      for i := 0 to |doc.ents|
        invariant result == old(result) + Flatten(j => DateCommaAt(doc, j), i)
      {
        var ent := doc.ents[i];
        if ent.kind == "DATE" {
          var flag, start, end;
          if ',' in ent.text {
            flag := Pass;
            var commaIndex := FirstIndex(ent.text, ',');
            start := ent.startChar + commaIndex;
            end := start + 1;
          } else {
            flag := Fail;
            start := ent.endChar - 1;
            end := ent.endChar;
          }
          result := result + [Finding(6, start, end, flag)];
        }
      }
    }

    method DetectCommasForPauses(doc: Doc)
      requires WellFormed(doc)
      modifies this
      ensures result == old(result) + PauseCommaFindings(doc)
    {
      for i := 0 to |doc.tokens|
        invariant result == old(result) + Flatten(j => PauseCommaAt(doc, j), i)
      {
        var token := doc.tokens[i];
        if token.dep == "advcl" && doc.tokens[token.head].pos == "VERB" {
          var flag, start, end;
          if i < |doc.tokens| - 1 && doc.tokens[i + 1].text == "," {
            flag := Pass;
            start := doc.tokens[i + 1].idx;
            end := start + 1;
          } else {
            flag := Fail;
            start := token.idx;
            end := token.idx + |token.text|;
          }
          result := result + [Finding(7, start, end, flag)];
        }
      }
    }

    method DetectCommasInQuotes(doc: Doc)
      modifies this
      ensures result == old(result) + QuoteCommaFindings(doc)
    {
      var quoteOpen := false;
      for i := 0 to |doc.tokens|
        invariant quoteOpen == QuoteOpen(doc, i)
        invariant result == old(result) + Flatten(j => QuoteCommaAt(doc, j), i)
      {
        var token := doc.tokens[i];
        if token.text in ["\"", "'"] {
          quoteOpen := !quoteOpen;
        }
        if !quoteOpen {
          var flag := if i > 0 && doc.tokens[i - 1].text == "," then Pass else Fail;
          var start := if i > 0 then doc.tokens[i - 1].idx else token.idx;
          var end := if i > 0 then doc.tokens[i - 1].idx + |doc.tokens[i - 1].text| else token.idx + |token.text|;
          result := result + [Finding(8, start, end, flag)];
        }
      }
    }

    /** Runs the components in the order they were added to the pipeline. Entries
        already in the list are kept, unchanged, in front. */
    method Run(doc: Doc)
      requires WellFormed(doc) && QuoteEndingsReadable(doc)
      modifies this
      ensures result == old(result) + ProperNounFindings(doc) + KeyEventFindings(doc) +
        PossessiveFindings(doc) + SentenceBoundaryFindings(doc) + ListCommaFindings(doc) +
        DateCommaFindings(doc) + PauseCommaFindings(doc) + QuoteCommaFindings(doc)
    {
      DetectProperNouns(doc);
      DetectKeyEvents(doc);
      DetectPossessiveApostrophes(doc);
      DetectSentenceBoundaryPunctuation(doc);
      DetectCommasInLists(doc);
      DetectCommasInDates(doc);
      DetectCommasForPauses(doc);
      DetectCommasInQuotes(doc);
    }
  }

  /** The result list of one run is every component's output in registration order. */
  lemma NarrativeFindingsInOrder(doc: Doc)
    requires WellFormed(doc) && QuoteEndingsReadable(doc)
    ensures NarrativeFindings(doc) == ProperNounFindings(doc) + KeyEventFindings(doc) +
      PossessiveFindings(doc) + SentenceBoundaryFindings(doc) + ListCommaFindings(doc) +
      DateCommaFindings(doc) + PauseCommaFindings(doc) + QuoteCommaFindings(doc)
  {
    var outputs := NarrativeOutputs(doc);
    var acc := ProperNounFindings(doc);
    assert Concat(outputs[..1]) == acc by { assert outputs[..1][..0] == []; }
    acc := acc + KeyEventFindings(doc);
    assert Concat(outputs[..2]) == acc by { assert outputs[..2][..1] == outputs[..1]; }
    acc := acc + PossessiveFindings(doc);
    assert Concat(outputs[..3]) == acc by { assert outputs[..3][..2] == outputs[..2]; }
    acc := acc + SentenceBoundaryFindings(doc);
    assert Concat(outputs[..4]) == acc by { assert outputs[..4][..3] == outputs[..3]; }
    acc := acc + ListCommaFindings(doc);
    assert Concat(outputs[..5]) == acc by { assert outputs[..5][..4] == outputs[..4]; }
    acc := acc + DateCommaFindings(doc);
    assert Concat(outputs[..6]) == acc by { assert outputs[..6][..5] == outputs[..5]; }
    acc := acc + PauseCommaFindings(doc);
    assert Concat(outputs[..7]) == acc by { assert outputs[..7][..6] == outputs[..6]; }
    acc := acc + QuoteCommaFindings(doc);
    assert Concat(outputs[..8]) == acc by { assert outputs[..8][..7] == outputs[..7]; }
    assert outputs[..8] == outputs;
  }

  /** Processes one annotated document from an empty result list. */
  method ProcessText(doc: Doc) returns (result: seq<Finding>)
    requires WellFormed(doc) && QuoteEndingsReadable(doc)
    ensures result == NarrativeFindings(doc)
  {
    var pipeline := new NarrativePipeline();
    pipeline.Run(doc);
    result := pipeline.result;
    NarrativeFindingsInOrder(doc);
    assert [] + ProperNounFindings(doc) == ProperNounFindings(doc);
  }
}
