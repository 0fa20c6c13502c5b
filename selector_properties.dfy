/**
 * What `htmlToCSSProvider` promises about the selector it derives and about
 * when it declines, stated over the model in `InlineEditorProviders`.
 */
module SelectorProperties {
  import opened Wrappers
  import opened ClassList
  import opened InlineEditorProviders

  // ---------------------------------------------------------------------
  // Guards
  // ---------------------------------------------------------------------

  /** A selection that is a range, not an insertion point, is always declined. */
  lemma ProvideNeedsInsertionPoint(mode: string, innerMode: string, selStart: CursorPos, selEnd: CursorPos, info: TagInfo)
    requires selStart.line != selEnd.line || selStart.ch != selEnd.ch
    ensures Provide(mode, innerMode, selStart, selEnd, info) == None
  {
  }

  /** Outside the markup part of a mixed HTML document the provider declines. */
  lemma ProvideNeedsHtmlMarkup(mode: string, innerMode: string, selStart: CursorPos, selEnd: CursorPos, info: TagInfo)
    requires mode != HtmlMixedMode || innerMode != HtmlInnerMode
    ensures Provide(mode, innerMode, selStart, selEnd, info) == None
  {
  }

  /**
   * Past the guards the provider accepts exactly when a selector was
   * derived, and then offers that selector.
   */
  lemma ProvideAcceptsExactlyDerivedSelectors(mode: string, innerMode: string, pos: CursorPos, info: TagInfo)
    requires mode == HtmlMixedMode && innerMode == HtmlInnerMode
    ensures Provide(mode, innerMode, pos, pos, info) ==
      if DeriveSelector(info) == "" then None else Some(DeriveSelector(info))
  {
  }

  // ---------------------------------------------------------------------
  // Tag names, ids and other contexts
  // ---------------------------------------------------------------------

  /**
   * In an `id` value the selector does not depend on where the cursor is
   * in the value.
   */
  lemma IdSelectorIgnoresOffset(info: TagInfo, otherOffset: int)
    requires info.tokenType == AttrValue && info.attrName == "id"
    ensures DeriveSelector(info.(offset := otherOffset)) == DeriveSelector(info)
  {
  }

  /** `#` alone is not empty, so an empty `id` value is still offered. */
  lemma EmptyIdIsNotDeclined(pos: CursorPos, tagName: string, offset: int)
    ensures Provide(HtmlMixedMode, HtmlInnerMode, pos, pos, TagInfo(tagName, "id", "", AttrValue, offset)) == Some("#")
  {
    assert "#" + "" == "#";
  }

  /**
   * Attribute values of attributes other than `class` and `id`, and every
   * token that is neither a tag name nor an attribute value, give no
   * selector, so the provider declines.
   */
  lemma OtherContextsDecline(mode: string, innerMode: string, selStart: CursorPos, selEnd: CursorPos, info: TagInfo)
    requires || info.tokenType == AttrName
             || info.tokenType == NoToken
             || (info.tokenType == AttrValue && info.attrName != "class" && info.attrName != "id")
    ensures Provide(mode, innerMode, selStart, selEnd, info) == None
  {
  }

  // ---------------------------------------------------------------------
  // Class values
  // ---------------------------------------------------------------------

  /**
   * For a cursor inside the value there is exactly one space-delimited run
   * around it: its borders are fixed by where the nearest spaces are.
   */
  lemma ClassNameIsUnique(v: string, offset: int, start1: int, end1: int, start2: int, end2: int)
    requires IsClassNameAt(v, offset, start1, end1)
    requires IsClassNameAt(v, offset, start2, end2)
    ensures start1 == start2 && end1 == end2
  {
  }

  /**
   * In a `class` value with the cursor inside it, the selector is `.` and
   * the one space-delimited run containing the cursor, or no selector when
   * that run is empty.
   */
  lemma ClassSelectorIsNameAtCursor(info: TagInfo, start: int, end: int)
    requires info.tokenType == AttrValue && info.attrName == "class"
    requires IsClassNameAt(info.attrValue, info.offset, start, end)
    ensures DeriveSelector(info) == if start == end then "" else "." + info.attrValue[start..end]
  {
    var v := info.attrValue;
    var b := ClassNameBounds(v, info.offset);
    ClassNameIsUnique(v, info.offset, start, end, b.0, b.1);
    assert ClassNameAt(v, info.offset) == v[start..end];
  }

  /**
   * The class selector is declined exactly when the cursor has a space or
   * an end of the value on both sides: on `" "` at offset 0, in an empty
   * value, or between two adjacent spaces.
   */
  lemma ClassSelectorEmptyIffCursorBetweenSpaces(info: TagInfo)
    requires info.tokenType == AttrValue && info.attrName == "class"
    requires 0 <= info.offset <= |info.attrValue|
    ensures var v, o := info.attrValue, info.offset;
      DeriveSelector(info) == "" <==> (o == 0 || v[o - 1] == ' ') && (o == |v| || v[o] == ' ')
  {
    var v, o := info.attrValue, info.offset;
    var b := ClassNameBounds(v, o);
    ClassSelectorIsNameAtCursor(info, b.0, b.1);
    if (o == 0 || v[o - 1] == ' ') && (o == |v| || v[o] == ' ') {
      ClassNameIsUnique(v, o, o, o, b.0, b.1);
    }
  }

  /**
   * Whatever the offset, a class selector that is offered is `.` followed
   * by one of the names of the space-separated class list, never empty.
   */
  lemma ClassSelectorIsListedName(info: TagInfo)
    requires info.tokenType == AttrValue && info.attrName == "class"
    ensures var sel := DeriveSelector(info);
      sel != "" ==> |sel| >= 2 && sel[0] == '.' && sel[1..] in SplitOnSpace(info.attrValue)
  {
    var v := info.attrValue;
    var b := ClassNameBounds(v, info.offset);
    var name := ClassNameAt(v, info.offset);
    assert name == v[b.0..b.1];
    SpaceDelimitedIsPiece(v, b.0, b.1);
    var sel := DeriveSelector(info);
    if sel != "" {
      assert sel == "." + name;
      assert sel[1..] == name;
      if b.0 == 0 {
        assert name == SplitOnSpace(v)[0];
      } else {
        assert name in SplitOnSpace(v)[1..];
      }
    }
  }

  /**
   * Every non-empty name of the class list is offered from some cursor
   * position inside the value: together with `ClassSelectorIsListedName`,
   * the class selectors are exactly `.` and the non-empty listed names.
   */
  lemma EveryListedNameIsOffered(tagName: string, v: string, k: nat)
    requires k < |SplitOnSpace(v)| && SplitOnSpace(v)[k] != ""
    ensures exists offset ::
      && 0 <= offset <= |v|
      && DeriveSelector(TagInfo(tagName, "class", v, AttrValue, offset)) == "." + SplitOnSpace(v)[k]
  {
    var start, end := PieceIsSpaceDelimited(v, k);
    var info := TagInfo(tagName, "class", v, AttrValue, start);
    ClassSelectorIsNameAtCursor(info, start, end);
  }

  /**
   * `class="error-dialog modal hide"` with the cursor anywhere in `modal`,
   * from just before its `m` to just after its `l`, gives `.modal`.
   */
  lemma ModalExample(tagName: string, value: string, offset: int)
    requires value == "error-dialog modal hide"
    requires 13 <= offset <= 18
    ensures DeriveSelector(TagInfo(tagName, "class", value, AttrValue, offset)) == ".modal"
  {
    ModalSelectorIsSlice(tagName, value, offset);
    ModalSliceSpellsModal(value);
  }

  /** The run from 13 to 18 is the class name around every such cursor. */
  lemma ModalSelectorIsSlice(tagName: string, value: string, offset: int)
    requires value == "error-dialog modal hide"
    requires 13 <= offset <= 18
    ensures DeriveSelector(TagInfo(tagName, "class", value, AttrValue, offset)) == "." + value[13..18]
  {
    assert IsClassNameAt(value, offset, 13, 18);
    ClassSelectorIsNameAtCursor(TagInfo(tagName, "class", value, AttrValue, offset), 13, 18);
  }

  /** Characters 13 to 18 of the example value spell `modal`. */
  lemma ModalSliceSpellsModal(value: string)
    requires value == "error-dialog modal hide"
    ensures "." + value[13..18] == ".modal"
  {
    assert value[13..18] == "modal";
  }

  /** A lone space, an empty value and a cursor between two spaces are declined. */
  lemma EmptyClassNameExamples(pos: CursorPos, tagName: string)
    ensures Provide(HtmlMixedMode, HtmlInnerMode, pos, pos, TagInfo(tagName, "class", " ", AttrValue, 0)) == None
    ensures Provide(HtmlMixedMode, HtmlInnerMode, pos, pos, TagInfo(tagName, "class", "", AttrValue, 0)) == None
    ensures Provide(HtmlMixedMode, HtmlInnerMode, pos, pos, TagInfo(tagName, "class", "a  b", AttrValue, 2)) == None
  {
    ClassSelectorEmptyIffCursorBetweenSpaces(TagInfo(tagName, "class", " ", AttrValue, 0));
    ClassSelectorEmptyIffCursorBetweenSpaces(TagInfo(tagName, "class", "", AttrValue, 0));
    ClassSelectorEmptyIffCursorBetweenSpaces(TagInfo(tagName, "class", "a  b", AttrValue, 2));
  }

  // ---------------------------------------------------------------------
  // What an accepted request carries
  // ---------------------------------------------------------------------

  /**
   * An offered selector is one of the three kinds: the tag name verbatim,
   * `.` and a non-empty name from the class list, or `#` and the id value.
   */
  lemma ProvidedSelectorKinds(mode: string, innerMode: string, selStart: CursorPos, selEnd: CursorPos, info: TagInfo)
    requires Provide(mode, innerMode, selStart, selEnd, info).Some?
    ensures var sel := Provide(mode, innerMode, selStart, selEnd, info).value;
      || (info.tokenType == TagName && sel == info.tagName && sel != "")
      || (&& info.tokenType == AttrValue && info.attrName == "class"
          && |sel| >= 2 && sel[0] == '.' && sel[1..] in SplitOnSpace(info.attrValue))
      || (info.tokenType == AttrValue && info.attrName == "id" && sel == "#" + info.attrValue)
  {
    if info.tokenType == AttrValue && info.attrName == "class" {
      ClassSelectorIsListedName(info);
    }
  }
}
