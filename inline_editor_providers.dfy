/**
 * The HTML-to-CSS inline editor provider: when the cursor sits on a tag
 * name, in a `class` value or in an `id` value of an HTML document, it
 * works out the CSS selector (`div`, `.modal`, `#main-header`) whose rule
 * would be shown in an inline editor, and declines (returns `null`) when
 * there is none.
 *
 * What the editor reports is taken as input: the editor mode, the mode of
 * the tokenizer state at the cursor, the two ends of the selection and the
 * tag information at the cursor.
 */
module InlineEditorProviders {
  import opened Wrappers
  import opened JsString
  import opened ClassList

  /** Where in a tag the cursor is, as the tag inspector classifies it. */
  datatype TokenType = TagName | AttrName | AttrValue | NoToken

  /**
   * The tag inspector's answer for the cursor position: the tag's name,
   * the attribute under the cursor (name and full value), the kind of
   * token the cursor is on and the cursor's offset inside that token.
   */
  datatype TagInfo = TagInfo(
    tagName: string,
    attrName: string,
    attrValue: string,
    tokenType: TokenType,
    offset: int)

  /** A cursor position: line and column. */
  datatype CursorPos = CursorPos(line: int, ch: int)

  /** The editor mode for HTML with embedded script and style. */
  const HtmlMixedMode: string := "htmlmixed"

  /** The inner tokenizer mode for markup, as opposed to script or style. */
  const HtmlInnerMode: string := "html"

  /** The cursor lies inside the run, its borders included. */
  predicate IsClassNameAt(v: string, offset: int, start: int, end: int)
  {
    IsSpaceDelimited(v, start, end) && start <= offset <= end
  }

  /**
   * The bounds of the class name around the cursor: from just after the
   * last space before `offset` (or the start) to the first space at or
   * after `offset` (or the end). Whatever the offset, the bounds delimit a
   * space-free run between spaces, in order, so `substring` never has to
   * swap them; an offset inside the value lies between them.
   */
  function ClassNameBounds(v: string, offset: int): (b: (int, int))
    ensures IsSpaceDelimited(v, b.0, b.1)
    ensures 0 <= offset <= |v| ==> b.0 <= offset <= b.1
    ensures offset < 0 ==> b.0 == 0
    ensures |v| < offset ==> b.1 == |v|
  {
    var prefix := SubstrFromZero(v, offset);
    var startIndex := LastIndexOf(prefix, ' ');
    var endIndex := IndexOf(v, ' ', offset);
    var start := if startIndex == -1 then 0 else startIndex + 1;
    var end := if endIndex == -1 then |v| else endIndex;
    BoundsDelimitClassName(v, offset, prefix, startIndex, endIndex, start, end);
    (start, end)
  }

  /** The facts about the searches of `ClassNameBounds` that its contract rests on. */
  lemma BoundsDelimitClassName(v: string, offset: int, prefix: string, startIndex: int, endIndex: int, start: int, end: int)
    requires prefix == SubstrFromZero(v, offset)
    requires startIndex == LastIndexOf(prefix, ' ')
    requires endIndex == IndexOf(v, ' ', offset)
    requires start == if startIndex == -1 then 0 else startIndex + 1
    requires end == if endIndex == -1 then |v| else endIndex
    ensures IsSpaceDelimited(v, start, end)
    ensures 0 <= offset <= |v| ==> start <= offset <= end
    ensures offset < 0 ==> start == 0
    ensures |v| < offset ==> end == |v|
  {
    assert prefix == v[..|prefix|];
    assert offset < 0 ==> prefix == [] && startIndex == -1;
    assert |v| < offset ==> v[Clamp(offset, 0, |v|)..] == [] && endIndex == -1;
    assert start <= |prefix|;
    assert v[start..|prefix|] == prefix[start..];
    assert ' ' !in v[start..|prefix|];
    if endIndex != -1 {
      assert |prefix| <= end;
      assert ' ' !in v[|prefix|..end];
      assert v[start..end] == v[start..|prefix|] + v[|prefix|..end];
    }
  }

  /**
   * Only the class name that contains the cursor is looked up: for
   * `class="error-dialog modal hide"` with the cursor inside `modal`, the
   * candidate is `modal`, never the whole value.
   */
  function ClassNameAt(v: string, offset: int): (name: string)
    ensures ' ' !in name
    ensures 0 <= offset <= |v| ==>
      exists start, end :: IsClassNameAt(v, offset, start, end) && name == v[start..end]
  {
    var b := ClassNameBounds(v, offset);
    var name := Substring(v, b.0, b.1);
    assert name == v[b.0..b.1];
    assert 0 <= offset <= |v| ==> IsClassNameAt(v, offset, b.0, b.1);
    name
  }

  /**
   * The selector for the cursor's tag context: the tag name verbatim as a
   * type selector, `.` and the class name under the cursor in a `class`
   * value, `#` and the whole value in an `id` value, and "" (no selector)
   * anywhere else. A class candidate that comes out as `.` alone is
   * turned into "", so the only way to get `.` is a tag name that is `.`.
   */
  function DeriveSelector(info: TagInfo): (selectorName: string)
    ensures info.tokenType == TagName ==> selectorName == info.tagName
    ensures info.tokenType == AttrValue && info.attrName == "id" ==> selectorName == "#" + info.attrValue
    ensures info.tokenType == AttrValue && info.attrName == "class" ==>
      selectorName == "" || (|selectorName| >= 2 && selectorName[0] == '.' && ' ' !in selectorName)
    ensures info.tokenType == AttrValue && info.attrName != "class" && info.attrName != "id" ==> selectorName == ""
    ensures info.tokenType !in {TagName, AttrValue} ==> selectorName == ""
    ensures selectorName == "." ==> info.tokenType == TagName && info.tagName == "."
  {
    match info.tokenType
    case TagName => info.tagName
    case AttrValue =>
      if info.attrName == "class" then
        var candidate := "." + ClassNameAt(info.attrValue, info.offset);
        if candidate == "." then "" else candidate
      else if info.attrName == "id" then
        assert ("#" + info.attrValue)[0] == '#';
        "#" + info.attrValue
      else
        ""
    case _ => ""
  }

  /**
   * `htmlToCSSProvider` up to the point where it commits: `None` (the
   * provider's `null`) unless the editor is in mixed HTML mode, the
   * tokenizer is in its markup sub-mode, the selection is an insertion
   * point and a selector was derived; otherwise the selector for which
   * the inline editor would be opened.
   */
  function Provide(mode: string, innerMode: string, selStart: CursorPos, selEnd: CursorPos, info: TagInfo): (r: Option<string>)
    ensures r.Some? ==> mode == HtmlMixedMode && innerMode == HtmlInnerMode && selStart == selEnd
    ensures r.Some? ==> r.value != "" && (r.value == "." ==> info.tokenType == TagName)
  {
    if mode != HtmlMixedMode then None
    else if innerMode != HtmlInnerMode then None
    else if selStart.line != selEnd.line || selStart.ch != selEnd.ch then None
    else
      var selectorName := DeriveSelector(info);
      if selectorName == "" then None else Some(selectorName)
  }
}
