/**
 * The accordion block's save function: the front-end markup, as one
 * `<details>` fragment per item, and the optional FAQ structured data that
 * follows the schema.org FAQPage / Question / Answer vocabulary. The JSON
 * document is modelled as structured values, not as the bytes
 * `JSON.stringify` writes.
 */
module AccordionSave {
  import opened AccordionItems
  import opened TagStrip

  const SchemaContext := "https://schema.org"

  /** `{"@type": "Answer", "text": …}` */
  datatype Answer = Answer(kind: string, text: string)

  /** `{"@type": "Question", "name": …, "acceptedAnswer": …}` */
  datatype Question = Question(kind: string, name: string, acceptedAnswer: Answer)

  /** `{"@context": …, "@type": "FAQPage", "mainEntity": […]}` */
  datatype FaqPage = FaqPage(context: string, kind: string, mainEntity: seq<Question>)

  /**
   * One `<details class="accordion-item" open={open}>`: the summary holds the
   * emoji span (when there is one) and the title as rich text, the body
   * holds the content as rich text.
   */
  datatype Disclosure = Disclosure(open: bool, emoji: Option<string>, title: Option<string>, content: Option<string>)

  /**
   * The saved markup: the `<script type="application/ld+json">` element
   * holding the FAQ document, when emitted, and the fragments in order.
   */
  datatype Markup = Markup(ldJson: Option<FaqPage>, fragments: seq<Disclosure>)

  /**
   * `field?.replace(/<[^>]+>/g, '') || ''`: a missing field reads as the
   * empty string, a present one loses its tags.
   */
  function PlainText(field: Option<string>): (r: string)
    ensures TagFree(r)
    ensures field.None? ==> r == ""
    ensures field.Some? ==> |r| <= |field.value|
    ensures field.Some? && '<' !in field.value ==> r == field.value
  {
    match field
    case None => ""
    case Some(t) =>
      StripTagFree(t);
      if '<' !in t then StripWithoutAngle(t); Strip(t) else Strip(t)
  }

  /**
   * The Question entry of one item: the name is the title without tags, the
   * answer text the content without tags, and a missing field gives "".
   */
  function QuestionOf(it: Item): (q: Question)
    ensures q.kind == "Question" && q.acceptedAnswer.kind == "Answer"
    ensures TagFree(q.name) && TagFree(q.acceptedAnswer.text)
    ensures it.title.None? ==> q.name == ""
    ensures it.title.Some? ==> q.name == Strip(it.title.value)
    ensures it.content.None? ==> q.acceptedAnswer.text == ""
    ensures it.content.Some? ==> q.acceptedAnswer.text == Strip(it.content.value)
  {
    Question("Question", PlainText(it.title), Answer("Answer", PlainText(it.content)))
  }

  /** `items.map(item => ({ "@type": "Question", … }))` */
  function Questions(items: seq<Item>): (qs: seq<Question>)
    ensures |qs| == |items|
    ensures forall i :: 0 <= i < |items| ==> qs[i] == QuestionOf(items[i])
  {
    if items == [] then [] else [QuestionOf(items[0])] + Questions(items[1..])
  }

  /** `faqSchema`: the FAQ document when the flag is set, null otherwise. */
  function FaqSchema(a: Attributes): (r: Option<FaqPage>)
    ensures r.Some? <==> a.enableFAQSchema
    ensures r.Some? ==> r.value.context == SchemaContext && r.value.kind == "FAQPage"
    ensures r.Some? ==> |r.value.mainEntity| == |a.items|
    ensures r.Some? ==> forall i :: 0 <= i < |a.items| ==> r.value.mainEntity[i] == QuestionOf(a.items[i])
  {
    if a.enableFAQSchema then Some(FaqPage(SchemaContext, "FAQPage", Questions(a.items))) else None
  }

  /** The fragment of one item; `item.emoji && …` shows the span only for a non-empty emoji. */
  function DisclosureOf(it: Item): (d: Disclosure)
    ensures d.open == it.open
    ensures d.emoji.Some? <==> (it.emoji.Some? && it.emoji.value != "")
    ensures d.emoji.Some? ==> d.emoji == it.emoji
    ensures d.title == it.title && d.content == it.content
  {
    var shown := if it.emoji.Some? && it.emoji.value != "" then it.emoji else None;
    Disclosure(it.open, shown, it.title, it.content)
  }

  /** `items.map((item, index) => <details …>)` */
  function Disclosures(items: seq<Item>): (ds: seq<Disclosure>)
    ensures |ds| == |items|
    ensures forall i :: 0 <= i < |items| ==> ds[i] == DisclosureOf(items[i])
  {
    if items == [] then [] else [DisclosureOf(items[0])] + Disclosures(items[1..])
  }

  /** `save({ attributes })` */
  function Save(a: Attributes): (m: Markup)
    ensures m.ldJson.Some? <==> a.enableFAQSchema
    ensures m.ldJson == FaqSchema(a)
    ensures |m.fragments| == |a.items|
    ensures forall i :: 0 <= i < |a.items| ==> m.fragments[i] == DisclosureOf(a.items[i])
  {
    Markup(FaqSchema(a), Disclosures(a.items))
  }

  /**
   * Only titles, contents and the flag reach the FAQ document: two attribute
   * sets that agree on those give the same document, whatever their open
   * flags and emojis.
   */
  lemma SchemaIgnoresPresentation(a: Attributes, b: Attributes)
    requires a.enableFAQSchema == b.enableFAQSchema && |a.items| == |b.items|
    requires forall i :: 0 <= i < |a.items| ==>
      a.items[i].title == b.items[i].title && a.items[i].content == b.items[i].content
    ensures FaqSchema(a) == FaqSchema(b)
  {
    if a.enableFAQSchema {
      var qa, qb := Questions(a.items), Questions(b.items);
      forall i | 0 <= i < |qa| ensures qa[i] == qb[i] {
        assert qa[i] == QuestionOf(a.items[i]) && qb[i] == QuestionOf(b.items[i]);
      }
      assert qa == qb;
    }
  }

  /** Markup inside a title does not reach the document's question name. */
  lemma StrongTitleIsPlainName(a: Attributes)
    requires a.enableFAQSchema && |a.items| >= 1
    requires a.items[0].title == Some("<strong>Hello</strong>")
    ensures FaqSchema(a).value.mainEntity[0].name == "Hello"
  {
    StripStrongHello();
  }

  /** One closed item "Q1"/"A1" with the flag set. */
  lemma SingleQuestionScenario()
    ensures var a := Attributes([Item(Some("Q1"), Some("A1"), false, None)], true);
      Save(a) == Markup(
        Some(FaqPage("https://schema.org", "FAQPage", [Question("Question", "Q1", Answer("Answer", "A1"))])),
        [Disclosure(false, None, Some("Q1"), Some("A1"))])
  {
    var it := Item(Some("Q1"), Some("A1"), false, None);
    var a := Attributes([it], true);
    assert '<' !in "Q1" && '<' !in "A1";
    assert Questions(a.items) == [Question("Question", "Q1", Answer("Answer", "A1"))];
    assert Disclosures(a.items) == [Disclosure(false, None, Some("Q1"), Some("A1"))];
  }
}
