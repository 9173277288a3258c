# Accordion block: item list and saved output

A model of the accordion block of the `wp-multi-block-example` WordPress plugin.
The block holds an ordered list of items. Each item has a rich-text title, a
rich-text content, an `open` flag and an optional emoji. The block also has an
`enableFAQSchema` flag. The model covers two parts:

- **The editor** (`accordion_edit.dfy`, module `AccordionEdit`). Class
  `AccordionBlock` holds the `items` and `enableFAQSchema` attributes. It has
  one method per operation of the editor component: `addItem`, `updateItem`,
  `removeItem`, `toggleItem`, and the FAQ schema toggle. Each list method builds
  the new list the way the source does. `addItem`, `updateItem` and
  `toggleItem` copy the list, change the copy and store it. `removeItem`
  stores a filtered list. Each list method's postcondition ties the new list
  to a specification function of the old one: `Appended`, `Updated`, `Removed` or `Toggled`. The lemmas about those
  functions state the guarantees: the length, which positions change, and
  that nothing else changes.
- **The save function** (`accordion_save.dfy`, module `AccordionSave`). This is
  a pure function from the attributes to the markup. The markup is one
  `<details>` disclosure per item, plus the schema.org `FAQPage` document. The
  document is emitted only when the flag is set. Its question names and answer
  texts pass through the tag stripper `replace(/<[^>]+>/g, '')`, which is
  modelled in `tag_strip.dfy` (module `TagStrip`) as a recursive
  left-to-right scan.

`accordion_items.dfy` (module `AccordionItems`) holds the shared data model
and the default item list from the block metadata. `decimal.dfy` (module
`Decimal`) renders the item number of the default texts ("Item 3") and
parses it back. `accordion_properties.dfy` (module `AccordionProperties`)
relates the editor operations to the saved output.

Modelling choices:

- A field that a JavaScript object may lack (`title`, `content`, `emoji`) is an
  `Option<string>`. `open` is a `bool`. It may be missing too, but a missing
  `open` behaves as `false` everywhere in this code: `open={undefined}`
  renders a closed `<details>`, and `!undefined` is `true`, so a toggle opens
  it.
- `updateItem(index, field, value)` takes a `Change`: `SetTitle`,
  `SetContent`, `SetOpen` or `SetEmoji`. The value's type always matches its
  field.
- The editor passes only indices of existing items. For any other index the
  model follows the code:
  - `removeItem` filters by position, so the list is unchanged.
  - `updateItem` and `toggleItem` read `newItems[index]`, which is
    `undefined`, and throw a `TypeError` before `setAttributes` runs. The
    methods return `ok = false` and leave the state unchanged.
- A new item has no `emoji` field (edit.js lines 53-57). The model writes
  this as `None`. The save function shows the emoji span only when the emoji
  is present and non-empty.
- The save function is a total function of its input, so it is deterministic
  by construction. No separate lemma states that.

## Model

| member | source | states |
|---|---|---|
| `AccordionItems.DefaultItems` | wordpress/wp-content/plugins/wp-multi-block-example/build/blocks-manifest.php:19-25 | the declared default list holds one closed item with a title and a content and no emoji |
| `AccordionEdit.AccordionBlock.constructor` | wordpress/wp-content/plugins/wp-multi-block-example/build/blocks-manifest.php:16-31 | a new block has the declared default: one closed item "Item 1" / "Content for item 1", with the FAQ flag off |
| `AccordionEdit.AccordionBlock.AddItem` | wordpress/wp-content/plugins/wp-multi-block-example/src/accordion-block/edit.js:51-59 | the new list is `Appended(old list)`; the FAQ flag is unchanged; an item list with all titles and contents present keeps that property |
| `AccordionEdit.AccordionBlock.UpdateItem` | wordpress/wp-content/plugins/wp-multi-block-example/src/accordion-block/edit.js:85-89 | succeeds exactly when the index is in range, giving `Updated(old list, index, change)`; otherwise it throws and stores nothing; the FAQ flag is unchanged |
| `AccordionEdit.AccordionBlock.RemoveItem` | wordpress/wp-content/plugins/wp-multi-block-example/src/accordion-block/edit.js:107-110 | the new list is `Removed(old list, index)` for any integer index; the FAQ flag is unchanged |
| `AccordionEdit.AccordionBlock.ToggleItem` | wordpress/wp-content/plugins/wp-multi-block-example/src/accordion-block/edit.js:128-132 | succeeds exactly when the index is in range, giving `Toggled(old list, index)`; otherwise it throws and stores nothing; the FAQ flag is unchanged |
| `AccordionEdit.AccordionBlock.SetEnableFAQSchema` | wordpress/wp-content/plugins/wp-multi-block-example/src/accordion-block/edit.js:138-143 | the flag takes the toggle's value and the item list is unchanged; it is the only method that changes the flag |
| `AccordionEdit.SetField` | wordpress/wp-content/plugins/wp-multi-block-example/src/accordion-block/edit.js:87 | afterwards, reading the named field gives the new value, and every other field reads as before |
| `AccordionEdit.NewItem` | wordpress/wp-content/plugins/wp-multi-block-example/src/accordion-block/edit.js:53-57 | the pushed record is closed, has no emoji, and has a title and a content, neither containing '<' |
| `AccordionEdit.Appended` | wordpress/wp-content/plugins/wp-multi-block-example/src/accordion-block/edit.js:52-57 | the length grows by exactly one; every old item keeps its position; the last item is the default item numbered old length + 1 |
| `AccordionEdit.Updated` | wordpress/wp-content/plugins/wp-multi-block-example/src/accordion-block/edit.js:86-87 | same length; the named field of the item at index holds the value; its other fields and all other items are unchanged |
| `AccordionEdit.Removed` | wordpress/wp-content/plugins/wp-multi-block-example/src/accordion-block/edit.js:108 | a position filter; for a valid index it equals `items[..index] + items[index+1..]`; for any other index it equals `items` |
| `AccordionEdit.Toggled` | wordpress/wp-content/plugins/wp-multi-block-example/src/accordion-block/edit.js:129-130 | same length; `open` at index is negated; that item's title, content and emoji are kept; all other items are unchanged |
| `AccordionEdit.AppendedDefaultText` | wordpress/wp-content/plugins/wp-multi-block-example/src/accordion-block/edit.js:53-57 | the appended item is closed with no emoji; its title is "Item d" and its content "Content for item d", where d is a non-empty digit string with no leading zero that denotes old length + 1 |
| `AccordionEdit.DefaultItemsAreFirstAppend` | wordpress/wp-content/plugins/wp-multi-block-example/build/blocks-manifest.php:17-26 | the declared default list is exactly what `addItem` makes of an empty list |
| `AccordionEdit.RemoveUndoesAppend` | wordpress/wp-content/plugins/wp-multi-block-example/src/accordion-block/edit.js:107-110 | removing the last position after an append gives back the original list |
| `AccordionEdit.ToggleTwice` | wordpress/wp-content/plugins/wp-multi-block-example/src/accordion-block/edit.js:130 | toggling the same valid index twice restores the list |
| `AccordionEdit.ToggleIsUpdateOfOpen` | wordpress/wp-content/plugins/wp-multi-block-example/src/accordion-block/edit.js:82-83 | a toggle equals an update of `open` to the negation of its current value |
| `AccordionEdit.UpdateSameFieldTwice` | wordpress/wp-content/plugins/wp-multi-block-example/src/accordion-block/edit.js:87 | a second update of the same field overrides the first |
| `AccordionEdit.OperationsKeepFieldsPresent` | wordpress/wp-content/plugins/wp-multi-block-example/src/accordion-block/edit.js:51-131 | none of the four operations turns a present title or content into a missing one |
| `Decimal.NatToString` | wordpress/wp-content/plugins/wp-multi-block-example/src/accordion-block/edit.js:54-55 | `${n}` is a non-empty string of decimal digits with no leading zero; it is one digit exactly when n < 10 |
| `Decimal.DigitsValueOfNatToString` | wordpress/wp-content/plugins/wp-multi-block-example/src/accordion-block/edit.js:54-55 | reading the digits back gives n (round trip) |
| `Decimal.NatToStringInjective` | wordpress/wp-content/plugins/wp-multi-block-example/src/accordion-block/edit.js:54-55 | different item numbers give different numerals |
| `Decimal.NatToStringHasNoAngle` | wordpress/wp-content/plugins/wp-multi-block-example/src/accordion-block/edit.js:54-55 | a numeral contains no '<' |
| `TagStrip.CloseFrom` | wordpress/wp-content/plugins/wp-multi-block-example/src/accordion-block/save.js:75 | the `[^>]+` run: the position of the first '>' at or after i, or the end of the string |
| `TagStrip.TagLength` | wordpress/wp-content/plugins/wp-multi-block-example/src/accordion-block/save.js:75 | non-zero exactly when `<[^>]+>` matches at the start; the match is then exactly the first n characters |
| `TagStrip.Strip` | wordpress/wp-content/plugins/wp-multi-block-example/src/accordion-block/save.js:75 | the global replace never makes its input longer |
| `TagStrip.StripSubMultiset` | wordpress/wp-content/plugins/wp-multi-block-example/src/accordion-block/save.js:75 | the stripper only deletes: the output's characters are a sub-multiset of the input's |
| `TagStrip.StripTagFree` | wordpress/wp-content/plugins/wp-multi-block-example/src/accordion-block/save.js:75 | the output contains no match of `<[^>]+>` |
| `TagStrip.StripTagFreeIdentity` | wordpress/wp-content/plugins/wp-multi-block-example/src/accordion-block/save.js:75 | tag-free text passes through unchanged |
| `TagStrip.StripFixedPoint` | wordpress/wp-content/plugins/wp-multi-block-example/src/accordion-block/save.js:75 | a string is left unchanged exactly when it is tag-free |
| `TagStrip.StripIdempotent` | wordpress/wp-content/plugins/wp-multi-block-example/src/accordion-block/save.js:75 | stripping twice equals stripping once |
| `TagStrip.StripWithoutAngle` | wordpress/wp-content/plugins/wp-multi-block-example/src/accordion-block/save.js:75 | text without '<' passes through unchanged |
| `TagStrip.StripPlainPrefix` | wordpress/wp-content/plugins/wp-multi-block-example/src/accordion-block/save.js:75 | a leading run without '<' is copied to the output, and the scan continues after it |
| `TagStrip.StripLeadingTag` | wordpress/wp-content/plugins/wp-multi-block-example/src/accordion-block/save.js:75 | a complete tag at the start is deleted as a whole |
| `TagStrip.StripEnclosed` | wordpress/wp-content/plugins/wp-multi-block-example/src/accordion-block/save.js:75 | text without '<' between an opening and a closing tag is all that remains |
| `TagStrip.StripStrongHello` | wordpress/wp-content/plugins/wp-multi-block-example/src/accordion-block/save.js:46 | `"<strong>Hello</strong>"` strips to "Hello" |
| `AccordionSave.PlainText` | wordpress/wp-content/plugins/wp-multi-block-example/src/accordion-block/save.js:75-78 | the question or answer text: tag-free; "" for a missing field; never longer than the field; the field itself when it has no '<' |
| `AccordionSave.QuestionOf` | wordpress/wp-content/plugins/wp-multi-block-example/src/accordion-block/save.js:73-80 | one entry of type Question with an Answer; name and answer text are tag-free; each is "" when its field is missing and the stripped field otherwise |
| `AccordionSave.Questions` | wordpress/wp-content/plugins/wp-multi-block-example/src/accordion-block/save.js:73-80 | one entry per item, in order; entry i is `QuestionOf(items[i])` |
| `AccordionSave.FaqSchema` | wordpress/wp-content/plugins/wp-multi-block-example/src/accordion-block/save.js:70-81 | present exactly when the flag is set; then it has context "https://schema.org", type FAQPage, and exactly one entry per item, in list order, entry i being `QuestionOf(items[i])` |
| `AccordionSave.DisclosureOf` | wordpress/wp-content/plugins/wp-multi-block-example/src/accordion-block/save.js:92-108 | the fragment's open attribute is the item's flag; the emoji span is present exactly when the emoji is non-empty; title and content are carried as given |
| `AccordionSave.Disclosures` | wordpress/wp-content/plugins/wp-multi-block-example/src/accordion-block/save.js:91-109 | one fragment per item, in list order |
| `AccordionSave.Save` | wordpress/wp-content/plugins/wp-multi-block-example/src/accordion-block/save.js:83-113 | the ld+json script is emitted exactly when the flag is set and holds `faqSchema`; one fragment per item, in order |
| `AccordionSave.SchemaIgnoresPresentation` | wordpress/wp-content/plugins/wp-multi-block-example/src/accordion-block/save.js:73-80 | two lists with the same titles and contents give the same document, whatever their `open` flags and emojis |
| `AccordionSave.StrongTitleIsPlainName` | wordpress/wp-content/plugins/wp-multi-block-example/src/accordion-block/save.js:75 | a first item titled `"<strong>Hello</strong>"` yields the question name "Hello" |
| `AccordionSave.SingleQuestionScenario` | wordpress/wp-content/plugins/wp-multi-block-example/src/accordion-block/save.js:70-113 | one closed item Q1/A1 with the flag set yields one closed fragment and the one-question FAQPage document |
| `AccordionProperties.AppendKeepsQuestions` | wordpress/wp-content/plugins/wp-multi-block-example/src/accordion-block/edit.js:51-58 | after an append, the document gains one entry and keeps all earlier entries in place |
| `AccordionProperties.AppendedQuestion` | wordpress/wp-content/plugins/wp-multi-block-example/src/accordion-block/edit.js:53-57 | the appended entry is the Question "Item n" with the Answer "Content for item n", verbatim |
| `AccordionProperties.NewItemIsPlainText` | wordpress/wp-content/plugins/wp-multi-block-example/src/accordion-block/edit.js:54-55 | the default title and content pass through the stripper unchanged |
| `AccordionProperties.RemoveDropsQuestion` | wordpress/wp-content/plugins/wp-multi-block-example/src/accordion-block/edit.js:107-109 | removing a valid index removes exactly that entry from the document |
| `AccordionProperties.ToggleChangesOneFragment` | wordpress/wp-content/plugins/wp-multi-block-example/src/accordion-block/edit.js:128-131 | a toggle changes only the open attribute of its own fragment; the document is unchanged |
| `AccordionProperties.PresentationUpdateKeepsSchema` | wordpress/wp-content/plugins/wp-multi-block-example/src/accordion-block/edit.js:85-88 | updating `open` or `emoji` never changes the document |
| `AccordionProperties.TitleUpdateRenamesQuestion` | wordpress/wp-content/plugins/wp-multi-block-example/src/accordion-block/edit.js:85-88 | updating a title renames that entry to the stripped title; its answer and every other entry are unchanged |
| `AccordionProperties.EditorItemsNameTheirTitles` | wordpress/wp-content/plugins/wp-multi-block-example/src/accordion-block/save.js:75-78 | when every item has a title and a content, the empty-string fallback never applies: names and texts are the stripped fields |

## Left out

- Aliasing from the shallow copy: `addItem`, `updateItem` and `toggleItem` copy only the array, so `updateItem` and `toggleItem` also change the item object that the previous attribute value still shares. Items are values in the model, so that change is not visible to whoever holds the old array.
- `updateItem` with a field name outside title, content, open and emoji, or with a value of another type (such as a boolean title). The editor never makes such calls, and the `Change` type rules them out.
- Non-integer or non-numeric indices. Indices are `int`.
- Rendering through the host framework: the editor JSX, `RichText` formatting, `useBlockProps`, i18n, the styles, and the exact bytes `JSON.stringify` writes. The FAQ document and the fragments are structured values.
- Block registration (`accordion-block/index.js`). It calls the host's registry, which is not part of this model.
- The dialog block (`dialog-block/edit.js`, `save.js`, `view.js`). Its id comes from `Math.random()`, and the rest is a static template plus browser event wiring.
- `Decimal.NatToString`: JavaScript prints item counts below 10^21 with plain digits. An array's length is below 2^32, so the model assumes no exponent form.
- String length: Dafny strings are sequences of Unicode characters, while JavaScript strings are sequences of UTF-16 code units. `Strip` produces the same text either way, because `<` and `>` are single code units. The length in `|Strip(s)| <= |s|` counts characters, not code units.
