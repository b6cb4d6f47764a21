/** The annotated document the detectors read. The tokeniser, tagger, dependency
    parser, entity recogniser and sentence splitter that build it are outside the
    model: their output is this datatype, taken as given. */
module Annotations {

  /** One token. `idx` is its character offset in the text; `head` and `children`
      are positions in the document's token sequence (a token's `i` is its position). */
  datatype Token = Token(
    idx: nat,
    text: string,
    dep: string,
    pos: string,
    head: nat,
    children: seq<nat>)

  /** One sentence: the offset one past its last character, its text, and the
      position of its last token. */
  datatype Sentence = Sentence(endChar: nat, text: string, last: nat)

  /** One named entity with its label (`kind`) and character span `[startChar, endChar)`. */
  datatype Entity = Entity(kind: string, startChar: nat, endChar: nat, text: string)

  /** A document: the length of its text, then its tokens, sentences and entities in
      document order. */
  datatype Doc = Doc(length: nat, tokens: seq<Token>, sents: seq<Sentence>, ents: seq<Entity>)

  /** What the annotation guarantees and the detectors rely on so that no lookup
      fails: heads, children and last tokens are positions of tokens, and every
      sentence has some text. */
  predicate WellFormed(doc: Doc) {
    && (forall t :: t in doc.tokens ==>
          t.head < |doc.tokens| && forall c :: c in t.children ==> c < |doc.tokens|)
    && (forall s :: s in doc.sents ==> 1 <= |s.text| && s.last < |doc.tokens|)
  }

  /** Every sentence that ends in a closing curly quote has a character before the
      quote. Only the quote-aware sentence check reads that character; on a sentence
      whose whole text is the quote, that lookup fails. */
  predicate QuoteEndingsReadable(doc: Doc) {
    forall s :: s in doc.sents && 1 <= |s.text| && s.text[|s.text| - 1] == '\U{201D}' ==> 2 <= |s.text|
  }

  /** The character offsets are those of one text of `doc.length` characters: every
      token and entity is non-empty and lies inside it, an entity spans exactly its
      text, and a sentence's text ends at its `endChar`. */
  predicate Positioned(doc: Doc) {
    && (forall t :: t in doc.tokens ==> 1 <= |t.text| && t.idx + |t.text| <= doc.length)
    && (forall s :: s in doc.sents ==> |s.text| <= s.endChar <= doc.length)
    && (forall e :: e in doc.ents ==>
          1 <= |e.text| && e.startChar + |e.text| == e.endChar <= doc.length)
  }
}
