# Punctuation and capitalisation rule detectors

This project models the rule-detector core of two spaCy pipelines,
`Prompts/Punctuation/Skill1.py` and `Prompts/Punctuation/Skill1_p2.py`, and proves
what each detector reports.

Each pipeline registers a list of components. Each component walks an annotated
document and appends *findings* to one result list that the document carries. The
document is made of tokens, sentences and named entities.

- A finding is a component index, a character span `[start, end)` and a flag. The
  flag is 10 when the convention is followed (`Pass`) and 11 when it is not (`Fail`).
- `Skill1.py` (module `NarrativeRules`) runs eight checks, in this order:
  - proper-noun capitalisation;
  - key-event capitalisation;
  - possessive apostrophes;
  - quote-aware sentence-final punctuation;
  - the comma before "and"/"or" in a list;
  - the comma inside a date;
  - the comma after an adverbial clause;
  - the comma before a token outside quotes.
- `Skill1_p2.py` (module `DialogueRules`) runs six checks, in this order:
  - dialogue marking;
  - clause-separating commas;
  - subordinator marking;
  - verbs and pronouns inside dialogue;
  - simple sentence-final punctuation;
  - colon, semicolon and `--` marking.

The annotation is input data here: datatype `Annotations.Doc`. The tokeniser,
tagger, parser, entity recogniser and sentence splitter that produce it are not part
of this model.

## Layout

- `strings.dfy`: module `Strings`. The Python string operations the detectors use:
  `istitle`, `lower`, substring `in`, `endswith` and `index`. Case covers the ASCII
  letters only.
- `annotations.dfy`: module `Annotations`. Tokens, sentences, entities and documents.
  - `WellFormed` says every head, child and last-token position is a token, and
    every sentence has some text. Both pipelines require it.
  - `QuoteEndingsReadable` says a sentence ending in ” has a character before the
    quote. Only the quote-aware sentence check reads that character, so only that
    check and the narrative members built on it require it.
  - `Positioned` says the character offsets describe one text.
- `findings.dfy`: module `Findings`. Flags and findings.
  - `Flatten` is what a loop over sites appends.
  - `Select` lists the sites a detector reports, in increasing order.
  - `Concat` joins the components' outputs in order.
  - Generic lemmas about these three.
- `quote_toggle.dfy`: module `QuoteToggle`. The quote flag three detectors keep,
  and its parity characterisation.
- `narrative_rules.dfy` and `dialogue_rules.dfy`: the two pipelines.
  - Each pipeline is a class whose field `result` is the document's result list.
    It has one method per component and a `Run` method that calls the components
    in registration order.
  - Each module also has a module-level `ProcessText` method that runs a fresh
    pipeline on one document.
  - Every component method is a loop over the document. It is proved to append
    exactly the output of a specification function.
  - The clause-comma component of the dialogue pipeline has two nested loops. Its
    loop body and its inner child loop are methods of their own
    (`AppendClauseComma`, `AppendCommaChildren`), each proved against the same
    specification functions.
  - The quote flag and the `comma_found` flag are loop invariants.
- `narrative_properties.dfy` and `dialogue_properties.dfy`: what each component's
  output is, site by site, and what the whole result list satisfies.

## Behaviour of the code

Where a plain reading of the conventions and the code differ, the model follows the
code:

- The list-comma check looks two tokens back, not one. In "apples, oranges, and
  bananas" the token two places before "and" is "oranges", so an Oxford comma
  directly before the conjunction is reported as `Fail`.
- The quote-aware sentence check gives a one-character span on the terminal mark,
  `[end - 2, end - 1)`, when a sentence ends in a mark followed by ”.
- The simple sentence-final check tests whether the last token's text is a
  *substring* of ".!?". So "!?" and ".!" pass, "..." and "?!" fail, and an empty
  token text passes (`DialogueProperties.TerminalMarkTest`).
- The possessive check only looks at heads whose text contains `’s`. A plural
  possessive written `friends’` therefore gives no finding at all, even though the
  `s’` ending would pass.
- The dialogue marker's `11` branch can never be taken: it sits inside
  `if quote_open`. Every dialogue finding passes.
- Each document starts from an empty result list (the `default=[]` of the
  extension), and `process_text` returns that one run's findings. `ProcessText`
  models exactly that. `Run` is stated relative to whatever the list held before,
  for generality. Whether a list default is shared between documents depends on the
  spaCy version, which is not part of this model.
- A sentence whose whole text is a closing ” is handled differently by the two
  files. The quote-aware check in `Skill1.py` reads the character before the quote
  and fails with an IndexError. The simple check in `Skill1_p2.py` flags it 11
  (`DialogueProperties.LoneClosingQuoteSentence`).

## Model

| member | source | states |
|---|---|---|
| `Strings.LowerChar` | Prompts/Punctuation/Skill1.py:97 | A lower-cased character is never upper case. An ASCII capital maps to its small letter; anything else is unchanged |
| `Strings.Lower` | Prompts/Punctuation/Skill1.py:97 | `lower()` keeps the length and lower-cases each character in place |
| `Strings.FirstIndex` | Prompts/Punctuation/Skill1.py:122 | `index(',')` gives a position holding the comma, with no comma before it |
| `Strings.IsTitleMeansTitleCased` | Prompts/Punctuation/Skill1.py:15 | The `istitle` scan is true exactly when the text has a cased letter, every capital follows an uncased character, and every small letter follows a cased one |
| `Strings.IsTitleExamples` | Prompts/Punctuation/Skill1.py:31 | "Sarah" and "New York" are title case; "sarah", "USA", "" and "4" are not |
| `QuoteToggle.QuoteOpenParity` | Prompts/Punctuation/Skill1.py:168-171 | After toggling at each `"` or `'` token, the quote flag is open exactly when an odd number of quote tokens has been seen |
| `NarrativeRules.NarrativePipeline.constructor` | Prompts/Punctuation/Skill1.py:188 | A new document's result list is empty |
| `NarrativeRules.NarrativePipeline.DetectProperNouns` | Prompts/Punctuation/Skill1.py:10-22 | Appends exactly the proper-noun findings to the list and changes nothing already in it |
| `NarrativeRules.NarrativePipeline.DetectKeyEvents` | Prompts/Punctuation/Skill1.py:26-38 | Appends exactly the key-event findings to the list and changes nothing already in it |
| `NarrativeRules.NarrativePipeline.DetectPossessiveApostrophes` | Prompts/Punctuation/Skill1.py:42-53 | Appends exactly the possessive findings to the list and changes nothing already in it |
| `NarrativeRules.NarrativePipeline.DetectSentenceBoundaryPunctuation` | Prompts/Punctuation/Skill1.py:57-89 | Appends exactly one sentence-boundary finding per sentence, after the existing entries |
| `NarrativeRules.NarrativePipeline.DetectCommasInLists` | Prompts/Punctuation/Skill1.py:93-110 | Appends exactly the list-comma findings to the list and changes nothing already in it |
| `NarrativeRules.NarrativePipeline.DetectCommasInDates` | Prompts/Punctuation/Skill1.py:114-137 | Appends exactly the date-comma findings to the list and changes nothing already in it |
| `NarrativeRules.NarrativePipeline.DetectCommasForPauses` | Prompts/Punctuation/Skill1.py:141-162 | Appends exactly the pause-comma findings to the list and changes nothing already in it |
| `NarrativeRules.NarrativePipeline.DetectCommasInQuotes` | Prompts/Punctuation/Skill1.py:166-185 | Appends exactly the quote-comma findings; the loop keeps the flag equal to the toggle state after the tokens seen so far |
| `NarrativeRules.NarrativePipeline.Run` | Prompts/Punctuation/Skill1.py:191-198 | The list becomes its old contents followed by the eight components' outputs in registration order |
| `NarrativeRules.NarrativeFindingsInOrder` | Prompts/Punctuation/Skill1.py:188-198 | The result list of one run is the concatenation of the eight outputs, in registration order |
| `NarrativeRules.ProcessText` | Prompts/Punctuation/Skill1.py:201-208 | Processing one document from an empty list returns the result list of one run |
| `NarrativeProperties.ProperNounsPerEntity` | Prompts/Punctuation/Skill1.py:10-22 | One finding per PERSON, ORG or GPE entity, in entity order, with index 1 and the entity's span. It passes exactly when the text is title-cased |
| `NarrativeProperties.KeyEventsPerEntity` | Prompts/Punctuation/Skill1.py:26-38 | One finding per EVENT entity, in entity order, with index 2 and the entity's span. It passes exactly when the text is title-cased |
| `NarrativeProperties.PossessivesPerModifier` | Prompts/Punctuation/Skill1.py:42-53 | One finding per `poss` token whose head contains `’s`, in token order, spanning the head. It passes exactly when the head ends in `’s` or `s’` |
| `NarrativeProperties.PossessiveNeedsTypographicApostrophe` | Prompts/Punctuation/Skill1.py:45 | A possessive finding exists only when the head's text contains the typographic apostrophe; straight-apostrophe heads give none |
| `NarrativeProperties.SentenceBoundaryPerSentence` | Prompts/Punctuation/Skill1.py:57-89 | One finding per sentence. A mark before a closing ” passes on `[end-2, end-1)`; otherwise the span is the last character and it passes exactly when that character is `.`, `!` or `?` |
| `NarrativeProperties.ListCommasPerConjunction` | Prompts/Punctuation/Skill1.py:93-110 | One finding per conjunction whose lower-cased text is "and" or "or". It passes exactly when its position is above 1 and the token two back is ","; the span is that token, or the conjunction nearer the start |
| `NarrativeProperties.DateCommasPerEntity` | Prompts/Punctuation/Skill1.py:114-137 | One finding per DATE entity. It passes exactly when the text has a comma, and then spans the first comma; otherwise it spans the last character |
| `NarrativeProperties.PauseCommasPerClause` | Prompts/Punctuation/Skill1.py:141-162 | One finding per `advcl` token with a VERB head. It passes exactly when a next token exists and is ","; the pass span is that comma and the fail span is the clause token |
| `NarrativeProperties.QuoteCommasPerToken` | Prompts/Punctuation/Skill1.py:166-185 | One finding per token checked with the quote flag closed, which means an even number of quote tokens up to it. It passes exactly when the previous token is ","; the span is the previous token, or the first token itself |
| `NarrativeProperties.NarrativeComponentIndices` | Prompts/Punctuation/Skill1.py:191-198 | The k-th registered component tags every finding it makes with index k |
| `NarrativeProperties.NarrativeOrderedByComponent` | Prompts/Punctuation/Skill1.py:188-208 | In the result list, component indices run from 1 to 8 and never decrease |
| `NarrativeProperties.EntitySpansWithinText` | Prompts/Punctuation/Skill1.py:10-137 | On consistent offsets, the entity components' spans are non-empty and inside the text |
| `NarrativeProperties.TokenSpansWithinText` | Prompts/Punctuation/Skill1.py:42-185 | On consistent offsets, the token and sentence components' spans are non-empty and inside the text |
| `NarrativeProperties.NarrativeSpansWithinText` | Prompts/Punctuation/Skill1.py:188-208 | On consistent offsets, every span in one run's result list is non-empty and inside the text |
| `DialogueRules.Child` | Prompts/Punctuation/Skill1_p2.py:33 | The children of a token are positions of tokens of the document |
| `DialogueRules.DialoguePipeline.constructor` | Prompts/Punctuation/Skill1_p2.py:118 | A new document's result list is empty |
| `DialogueRules.DialoguePipeline.DetectQuotesForDialogue` | Prompts/Punctuation/Skill1_p2.py:10-24 | Appends exactly the dialogue findings; the loop keeps the flag equal to the toggle state after the tokens seen so far |
| `DialogueRules.DialoguePipeline.DetectCommasSeparatingClauses` | Prompts/Punctuation/Skill1_p2.py:28-49 | Appends exactly the clause-comma findings and changes nothing already in it; each pass of the token loop is `AppendClauseComma` |
| `DialogueRules.DialoguePipeline.AppendClauseComma` | Prompts/Punctuation/Skill1_p2.py:30-48 | One pass of the token loop: appends exactly the findings of that token, which are its comma children, or one failure on an `advcl`/`relcl` token without any |
| `DialogueRules.DialoguePipeline.AppendCommaChildren` | Prompts/Punctuation/Skill1_p2.py:32-41 | The child loop: appends one passing finding per comma child, in child order, and returns `comma_found` set exactly when some child is a comma |
| `DialogueRules.DialoguePipeline.DetectSubordinatingClauses` | Prompts/Punctuation/Skill1_p2.py:53-63 | Appends exactly the subordinator findings to the list and changes nothing already in it |
| `DialogueRules.DialoguePipeline.DetectComplexDialogue` | Prompts/Punctuation/Skill1_p2.py:67-80 | Appends exactly the complex-dialogue findings; the loop keeps the dialogue flag equal to the toggle state |
| `DialogueRules.DialoguePipeline.DetectSimplePunctuation` | Prompts/Punctuation/Skill1_p2.py:84-101 | Appends exactly one simple-punctuation finding per sentence, after the existing entries |
| `DialogueRules.DialoguePipeline.DetectComplexPunctuation` | Prompts/Punctuation/Skill1_p2.py:105-115 | Appends exactly the complex-punctuation findings to the list and changes nothing already in it |
| `DialogueRules.DialoguePipeline.Run` | Prompts/Punctuation/Skill1_p2.py:121-126 | The list becomes its old contents followed by the six components' outputs in registration order |
| `DialogueRules.DialogueFindingsInOrder` | Prompts/Punctuation/Skill1_p2.py:118-126 | The result list of one run is the concatenation of the six outputs, in registration order |
| `DialogueRules.ProcessText` | Prompts/Punctuation/Skill1_p2.py:129-136 | Processing one document from an empty list returns the result list of one run |
| `DialogueProperties.DialogueMarksPerToken` | Prompts/Punctuation/Skill1_p2.py:10-24 | One passing finding per token checked with the quote flag open, in token order, spanning the token |
| `DialogueProperties.DialogueTokensByParity` | Prompts/Punctuation/Skill1_p2.py:12-16 | A token is marked as dialogue exactly when an odd number of quote tokens come up to and including it |
| `DialogueProperties.OpeningQuoteMarkedClosingNot` | Prompts/Punctuation/Skill1_p2.py:14-16 | A quote token is marked exactly when an even number of quote tokens precede it: the opening quote is marked and the closing one is not |
| `DialogueProperties.CommaFoundMeaning` | Prompts/Punctuation/Skill1_p2.py:32-35 | After the first n children, `comma_found` is set exactly when one of them is a comma |
| `DialogueProperties.CommaFoundWhenSelected` | Prompts/Punctuation/Skill1_p2.py:32-42 | At the end of the child loop, `comma_found` is set exactly when the list of comma children is non-empty |
| `DialogueProperties.ClauseCommasPerClause` | Prompts/Punctuation/Skill1_p2.py:31-48 | For an `advcl`/`relcl` token: one passing finding per comma child, in child order, spanning the comma. With no comma child, a single failing finding spans the token |
| `DialogueProperties.ClauseCommasAtLeastOnePerClause` | Prompts/Punctuation/Skill1_p2.py:28-49 | Every `advcl`/`relcl` token yields a finding, so the output has at least as many findings as there are such tokens |
| `DialogueProperties.SubordinatorsPerMarker` | Prompts/Punctuation/Skill1_p2.py:53-63 | One passing finding per `mark` token whose head is `advcl`, in token order, spanning the marker; no other token yields one |
| `DialogueProperties.ComplexDialoguePerToken` | Prompts/Punctuation/Skill1_p2.py:67-80 | One passing finding per VERB or PRON token checked with the quote flag open, in token order, spanning the token |
| `DialogueProperties.ComplexDialogueWithinDialogue` | Prompts/Punctuation/Skill1_p2.py:69-73 | The tokens the complex-dialogue component reports are among those dialogue marking reports, and each of its spans is the span of a dialogue finding |
| `DialogueProperties.TerminalMarkTest` | Prompts/Punctuation/Skill1_p2.py:87 | The substring test against ".!?" accepts exactly "", ".", "!", "?", ".!", "!?" and ".!?" |
| `DialogueProperties.SimplePunctuationPerSentence` | Prompts/Punctuation/Skill1_p2.py:84-101 | One finding per sentence, spanning `[end-1, end)`. It passes exactly when the last token's text is one of the seven runs of ".!?" |
| `DialogueProperties.LoneClosingQuoteSentence` | Prompts/Punctuation/Skill1_p2.py:87-93 | A document whose only sentence is a lone ” satisfies the dialogue pipeline's precondition, and its simple-punctuation output is one failing finding on the quote |
| `DialogueProperties.ComplexPunctuationPerToken` | Prompts/Punctuation/Skill1_p2.py:105-115 | One passing finding per token whose text is exactly ":", ";" or "--", in token order, spanning it |
| `DialogueProperties.MarkersOnlyPass` | Prompts/Punctuation/Skill1_p2.py:10-115 | Dialogue marking, subordinator marking, complex dialogue and complex punctuation never report a failure |
| `DialogueProperties.DialogueComponentIndices` | Prompts/Punctuation/Skill1_p2.py:121-126 | The k-th registered component tags every finding it makes with index k |
| `DialogueProperties.DialogueOrderedByComponent` | Prompts/Punctuation/Skill1_p2.py:118-136 | In the result list, component indices run from 1 to 6 and never decrease |
| `DialogueProperties.ClauseCommaSpansWithinText` | Prompts/Punctuation/Skill1_p2.py:36-48 | On consistent offsets, every clause-comma span is non-empty and inside the text |
| `DialogueProperties.DialogueSpansWithinText` | Prompts/Punctuation/Skill1_p2.py:118-136 | On consistent offsets, every span in one run's result list is non-empty and inside the text |

## Left out

- Loading the language model and calling it on the text (`spacy.load`, `nlp(text)`)
  are not modelled. Tokenisation, tagging, parsing, entity recognition and sentence
  splitting belong to a foreign library. Their output is the input datatype `Doc`,
  with heads and children given as token positions.
- The `@Language.component`, `Doc.set_extension` and `add_pipe` registration
  mechanics are not modelled. The registered order is the order `Run` calls the
  component methods, and the extension is the `result` field.
- The framework's handling of the result list across documents is not modelled.
  `ProcessText` starts each document from an empty list.
- `str.istitle` and `str.lower` are modelled for ASCII letters only. Every other
  character counts as uncased, so non-ASCII capitals are not title-cased.
- Malformed annotations are excluded by precondition. In the source, a head, child
  or last-token position outside the document, or an empty sentence, raises an
  exception. Here `Annotations.WellFormed` is a precondition of the components that
  index through them.
- NarrativeRules.NarrativePipeline.DetectSentenceBoundaryPunctuation: requires
  `QuoteEndingsReadable`, so it does not model the IndexError that Prompts/Punctuation/Skill1.py:63 raises
  on a sentence whose whole text is a closing ”. The exception aborts the whole run.
  The model has no exception path, so `Run`, `NarrativeFindingsInOrder`,
  `ProcessText` and the narrative whole-run lemmas carry the same requirement.
- NarrativeProperties.SentenceBoundaryPerSentence: requires `QuoteEndingsReadable`
  for the same reason. On a lone-” sentence the source raises instead of reporting.
- The demo texts and the loops that print the results are not modelled.
- `DialogueProperties.ComplexDialogueWithinDialogue`: states that the reported token
  positions are included and the spans shared. The subsequence of spans follows from
  both position lists being strictly increasing (`Findings.Select`); it is not stated
  as one predicate.
