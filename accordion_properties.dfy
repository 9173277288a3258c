/**
 * How the editor's list operations show up in the saved output: which
 * fragments and which FAQ entries each operation changes, and which it
 * leaves alone.
 */
module AccordionProperties {
  import opened AccordionItems
  import opened AccordionEdit
  import opened AccordionSave
  import opened TagStrip
  import Decimal

  /** After `addItem` the FAQ document keeps every entry it had, in place. */
  lemma AppendKeepsQuestions(items: seq<Item>)
    ensures var before := FaqSchema(Attributes(items, true)).value.mainEntity;
      var after := FaqSchema(Attributes(Appended(items), true)).value.mainEntity;
      |after| == |before| + 1 && after[..|items|] == before
  {
  }

  /**
   * The entry `addItem` adds to the FAQ document: the new item's default
   * text carries no markup, so it appears verbatim.
   */
  lemma AppendedQuestion(items: seq<Item>)
    ensures var after := FaqSchema(Attributes(Appended(items), true)).value.mainEntity;
      var n := Decimal.NatToString(|items| + 1);
      after[|items|] == Question("Question", "Item " + n, Answer("Answer", "Content for item " + n))
  {
    var after := Questions(Appended(items));
    assert after[|items|] == QuestionOf(NewItem(|items| + 1));
    NewItemIsPlainText(|items| + 1);
  }

  /** The default title and content of a new item contain no markup. */
  lemma NewItemIsPlainText(number: nat)
    ensures var n := Decimal.NatToString(number);
      PlainText(NewItem(number).title) == "Item " + n &&
      PlainText(NewItem(number).content) == "Content for item " + n
  {
  }

  /** After `removeItem(index)` at a valid index the document loses exactly that entry. */
  lemma RemoveDropsQuestion(items: seq<Item>, index: int)
    requires 0 <= index < |items|
    ensures var before := FaqSchema(Attributes(items, true)).value.mainEntity;
      FaqSchema(Attributes(Removed(items, index), true)).value.mainEntity == before[..index] + before[index + 1..]
  {
    var before, rest := Questions(items), Removed(items, index);
    var after, expected := Questions(rest), before[..index] + before[index + 1..];
    assert |after| == |expected|;
    forall j | 0 <= j < |after| ensures after[j] == expected[j] {
      if j < index {
        assert rest[j] == items[j];
      } else {
        assert rest[j] == items[j + 1];
      }
    }
  }

  /** `toggleItem` changes the open attribute of its own fragment and nothing else in the markup. */
  lemma ToggleChangesOneFragment(items: seq<Item>, index: int, flag: bool)
    requires 0 <= index < |items|
    ensures var before := Save(Attributes(items, flag));
      var after := Save(Attributes(Toggled(items, index), flag));
      && after.ldJson == before.ldJson
      && after.fragments == before.fragments[index := before.fragments[index].(open := !items[index].open)]
  {
    SchemaIgnoresPresentation(Attributes(items, flag), Attributes(Toggled(items, index), flag));
    var before := Save(Attributes(items, flag));
    var after := Save(Attributes(Toggled(items, index), flag));
    assert after.fragments == before.fragments[index := before.fragments[index].(open := !items[index].open)];
  }

  /** Updating an item's open flag or emoji never changes the FAQ document. */
  lemma PresentationUpdateKeepsSchema(items: seq<Item>, index: int, c: Change, flag: bool)
    requires 0 <= index < |items|
    requires FieldOf(c) == Open || FieldOf(c) == Emoji
    ensures FaqSchema(Attributes(Updated(items, index, c), flag)) == FaqSchema(Attributes(items, flag))
  {
    var u := Updated(items, index, c);
    assert Get(u[index], Title) == Get(items[index], Title);
    assert Get(u[index], Content) == Get(items[index], Content);
    SchemaIgnoresPresentation(Attributes(u, flag), Attributes(items, flag));
  }

  /**
   * Updating a title sets the question name of that entry to the stripped
   * title; every other entry stays as it was.
   */
  lemma TitleUpdateRenamesQuestion(items: seq<Item>, index: int, title: string)
    requires 0 <= index < |items|
    ensures var before := FaqSchema(Attributes(items, true)).value.mainEntity;
      var after := FaqSchema(Attributes(Updated(items, index, SetTitle(title)), true)).value.mainEntity;
      && |after| == |before|
      && after[index].name == Strip(title)
      && after[index].acceptedAnswer == before[index].acceptedAnswer
      && forall j :: 0 <= j < |before| && j != index ==> after[j] == before[j]
  {
  }

  /** The editor's own state never uses the empty-string fallback: names are the stripped titles. */
  lemma EditorItemsNameTheirTitles(a: Attributes)
    requires a.enableFAQSchema && FieldsPresent(a.items)
    ensures forall i :: 0 <= i < |a.items| ==>
      FaqSchema(a).value.mainEntity[i].name == Strip(a.items[i].title.value) &&
      FaqSchema(a).value.mainEntity[i].acceptedAnswer.text == Strip(a.items[i].content.value)
  {
  }
}
