/**
 * The accordion block's attributes: an ordered list of items and the flag
 * that switches the FAQ structured-data output on.
 */
module AccordionItems {

  /** A field of a JavaScript object that may be missing (undefined or null). */
  datatype Option<T> = None | Some(value: T)

  /**
   * One accordion entry. `title` and `content` hold rich text (HTML with
   * inline tags); either may be missing in attributes parsed back from a
   * saved post. `emoji` is decorative and usually absent.
   */
  datatype Item = Item(title: Option<string>, content: Option<string>, open: bool, emoji: Option<string>)

  /** The block attributes handed to the editor and to the save function. */
  datatype Attributes = Attributes(items: seq<Item>, enableFAQSchema: bool)

  /** Every item carries a title and a content (the editor never removes one). */
  predicate FieldsPresent(items: seq<Item>) {
    forall i :: 0 <= i < |items| ==> items[i].title.Some? && items[i].content.Some?
  }

  /**
   * The default value of the `items` attribute declared in the block
   * metadata: a single closed item with a title and a content and no emoji.
   */
  function DefaultItems(): (r: seq<Item>)
    ensures |r| == 1 && FieldsPresent(r)
    ensures !r[0].open && r[0].emoji.None?
  {
    [Item(Some("Item 1"), Some("Content for item 1"), false, None)]
  }
}
