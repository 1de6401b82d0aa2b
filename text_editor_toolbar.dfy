/**
 * `TextEditorToolbar.jsx`: the floating toolbar over the note editor. Its
 * format buttons wrap the selected range of the editor's content in one new
 * node (a styled span, an anchor, or a list with one item), and its
 * selection listener decides when the toolbar is hidden and when it is
 * scheduled to appear.
 */
module TextEditorToolbar {
  import opened Wrappers
  import opened JsString
  import opened Document

  /** The formats the toolbar's buttons send. */
  predicate IsToolbarFormat(format: string) {
    format in {"bold", "italic", "underline", "link", "highlight", "color",
               "insertUnorderedList", "insertOrderedList"}
  }

  /** The selected range `[start, end)` over the editor's top-level nodes; `start == end` is a caret. */
  datatype Range = Range(start: nat, end: nat) {
    predicate IsCollapsed() { start == end }
  }

  /** The node applyFormatting builds around the extracted range. */
  datatype Wrapper = SpanWith(style: seq<StyleProp>) | LinkTo(href: string) | ListOf(ordered: bool)

  /**
   * Which wrapper a format asks for. A link whose prompt was cancelled or
   * answered with `''`, and a format no case matches, fall through to the
   * span created before the switch, with no style set.
   */
  function WrapperFor(format: string, highlightColor: string, textColor: string, url: Option<string>): (w: Wrapper)
    ensures w.SpanWith? ==> |w.style| <= 1
    ensures w == SpanWith([]) <==> !IsToolbarFormat(format) || (format == "link" && !Truthy(url))
    ensures w.LinkTo? <==> format == "link" && Truthy(url)
    ensures w.LinkTo? ==> w.href == url.value
    ensures w.ListOf? <==> format == "insertUnorderedList" || format == "insertOrderedList"
    ensures w.ListOf? ==> (w.ordered <==> format == "insertOrderedList")
    ensures format == "bold" ==> w == SpanWith([StyleProp("fontWeight", "bold")])
    ensures format == "italic" ==> w == SpanWith([StyleProp("fontStyle", "italic")])
    ensures format == "underline" ==> w == SpanWith([StyleProp("textDecoration", "underline")])
    ensures format == "highlight" ==> w == SpanWith([StyleProp("backgroundColor", highlightColor)])
    ensures format == "color" ==> w == SpanWith([StyleProp("color", textColor)])
  {
    match format
    case "bold" => SpanWith([StyleProp("fontWeight", "bold")])
    case "italic" => SpanWith([StyleProp("fontStyle", "italic")])
    case "underline" => SpanWith([StyleProp("textDecoration", "underline")])
    case "highlight" => SpanWith([StyleProp("backgroundColor", highlightColor)])
    case "color" => SpanWith([StyleProp("color", textColor)])
    case "link" => if Truthy(url) then LinkTo(url.value) else SpanWith([])
    case "insertUnorderedList" => ListOf(false)
    case "insertOrderedList" => ListOf(true)
    case _ => SpanWith([])
  }

  /**
   * The node built around the extracted fragment: it holds the fragment and so
   * its text, and is strictly deeper than it (a span or link by one level, a
   * list by two: the list and its item).
   */
  function Wrap(w: Wrapper, fragment: seq<Node>): (n: Node)
    ensures NodeText(n) == TextOf(fragment)
    ensures Depth(n) > MaxDepth(fragment)
  {
    match w
    case SpanWith(style) => Span(style, fragment)
    case LinkTo(href) => Anchor(href, "_blank", "noopener noreferrer", fragment)
    case ListOf(ordered) =>
      var item := ListItem(fragment);
      assert MaxDepth([item]) == Depth(item) by { assert [item][1..] == []; }
      TextOfSingle(item);
      ListBlock(ordered, [item])
  }

  /**
   * The content after applyFormatting: unchanged for a caret, otherwise the
   * range replaced by one wrapper holding exactly the nodes it covered.
   */
  function Formatted(content: seq<Node>, sel: Range, w: Wrapper): (r: seq<Node>)
    requires sel.start <= sel.end <= |content|
    ensures sel.IsCollapsed() ==> r == content
    ensures !sel.IsCollapsed() ==>
      && |r| == |content| - (sel.end - sel.start) + 1
      && r[..sel.start] == content[..sel.start]
      && r[sel.start] == Wrap(w, content[sel.start..sel.end])
      && r[sel.start + 1..] == content[sel.end..]
  {
    if sel.IsCollapsed() then content
    else content[..sel.start] + [Wrap(w, content[sel.start..sel.end])] + content[sel.end..]
  }

  /** Whether applyFormatting ends by focusing the editor: the link and list cases return before that line. */
  predicate RestoresFocus(sel: Range, w: Wrapper) {
    sel.IsCollapsed() || w.SpanWith?
  }

  /** Formatting only extracts nodes and re-inserts them at the same place, so the text reads the same. */
  lemma FormattedKeepsText(content: seq<Node>, sel: Range, w: Wrapper)
    requires sel.start <= sel.end <= |content|
    ensures TextOf(Formatted(content, sel, w)) == TextOf(content)
  {
    if !sel.IsCollapsed() {
      var s, e := sel.start, sel.end;
      var node := Wrap(w, content[s..e]);
      TextOfAppend(content[..s] + [node], content[e..]);
      TextOfAppend(content[..s], [node]);
      TextOfSingle(node);
      TextOfSplit(content, s, e);
    }
  }

  /**
   * No de-duplication: formatting again the one node the first application
   * produced (the range the DOM leaves around an inserted node) wraps it a
   * second time, so the same style ends up nested inside itself.
   */
  lemma ReapplyingNests(content: seq<Node>, sel: Range, w: Wrapper)
    requires sel.start < sel.end <= |content|
    ensures var once := Formatted(content, sel, w);
      Formatted(once, Range(sel.start, sel.start + 1), w)
        == content[..sel.start] + [Wrap(w, [Wrap(w, content[sel.start..sel.end])])] + content[sel.end..]
  {
    var once := Formatted(content, sel, w);
    assert once[sel.start..sel.start + 1] == [once[sel.start]];
  }

  /** Formatting a non-empty range always changes the content, even when the range is already wrapped the same way. */
  lemma FormattingNeverIdempotent(content: seq<Node>, sel: Range, w: Wrapper)
    requires sel.start < sel.end <= |content|
    ensures Formatted(content, sel, w) != content
  {
    var r := Formatted(content, sel, w);
    if |r| == |content| {
      assert sel.end == sel.start + 1;
      var inner := content[sel.start];
      assert content[sel.start..sel.end] == [inner];
      var outer := Wrap(w, [inner]);
      assert Depth(outer) > Depth(inner) by {
        assert MaxDepth([inner]) == Depth(inner) by { assert [inner][1..] == []; }
      }
      assert r[sel.start] == outer;
    }
  }

  /**
   * Selecting "world" in the run "hello world" (the DOM splits the run at
   * the selection's start) and pressing bold gives "hello " followed by a
   * bold span around "world". In the browser the insertion also leaves an
   * empty text node after the span; the model has no such node, so the
   * result has two nodes where the DOM has three, with the same text.
   */
  lemma BoldWorld(highlightColor: string, textColor: string, url: Option<string>)
    ensures var split := SplitText([Text("hello world")], 0, 6);
      Formatted(split, Range(1, 2), WrapperFor("bold", highlightColor, textColor, url))
        == [Text("hello "), Span([StyleProp("fontWeight", "bold")], [Text("world")])]
  {
    var split := SplitText([Text("hello world")], 0, 6);
    assert "hello world"[..6] == "hello " && "hello world"[6..] == "world";
    assert split == [Text("hello "), Text("world")];
    assert split[..1] == [Text("hello ")] && split[1..2] == [Text("world")] && split[2..] == [];
  }

  /** Selecting the whole line "buy milk" and pressing the ordered-list button gives one list with one item. */
  lemma OrderedListOfLine(highlightColor: string, textColor: string, url: Option<string>)
    ensures Formatted([Text("buy milk")], Range(0, 1), WrapperFor("insertOrderedList", highlightColor, textColor, url))
      == [ListBlock(true, [ListItem([Text("buy milk")])])]
  {
    var line := [Text("buy milk")];
    assert line[..0] == [] && line[0..1] == line && line[1..] == [];
  }

  /** The editor element: its content and whether it has focus. */
  class Editor {
    var content: seq<Node>
    var focused: bool

    constructor (initial: seq<Node>)
      ensures content == initial && !focused
    {
      content := initial;
      focused := false;
    }

    /** `range.extractContents()`: take the nodes of the range out of the content. */
    method ExtractContents(start: nat, end: nat) returns (fragment: seq<Node>)
      requires start <= end <= |content|
      modifies this`content
      ensures fragment == old(content)[start..end]
      ensures content == old(content)[..start] + old(content)[end..]
    {
      fragment := content[start..end];
      content := content[..start] + content[end..];
    }

    /**
     * `range.insertNode(node)`: put one node at the range's start, which is
     * between top-level nodes here. An empty text node the DOM may leave when
     * it splits a text node at that point is not modelled.
     */
    method InsertNode(at: nat, node: Node)
      requires at <= |content|
      modifies this`content
      ensures content == old(content)[..at] + [node] + old(content)[at..]
    {
      content := content[..at] + [node] + content[at..];
    }

    /** `editorRef.current?.focus()`. */
    method Focus()
      modifies this`focused
      ensures focused
    {
      focused := true;
    }
  }

  /** What the selection listener reads: whether there is a selection, whether it is a caret, where its anchor is. */
  datatype SelectionSnapshot = SelectionSnapshot(isCollapsed: bool, anchorInEditor: bool)

  /** The listener schedules the toolbar to appear exactly when a non-collapsed selection is anchored in the editor. */
  predicate ShowsToolbar(selection: Option<SelectionSnapshot>) {
    selection.Some? && !selection.value.isCollapsed && selection.value.anchorInEditor
  }

  class Toolbar {
    var showToolbar: bool
    var highlightColor: string
    var textColor: string
    const editor: Editor

    constructor (editor: Editor)
      ensures this.editor == editor
      ensures !showToolbar && highlightColor == "#FFFF00" && textColor == "#000000"
    {
      this.editor := editor;
      showToolbar := false;
      highlightColor, textColor := "#FFFF00", "#000000";
    }

    /**
     * handleSelectionChange: either schedule the delayed show (returned, the
     * toolbar's state is not touched now) or hide the toolbar at once.
     */
    method HandleSelectionChange(selection: Option<SelectionSnapshot>) returns (scheduleShow: bool)
      modifies this`showToolbar
      ensures scheduleShow == ShowsToolbar(selection)
      ensures showToolbar == if scheduleShow then old(showToolbar) else false
    {
      if selection.Some? && !selection.value.isCollapsed && selection.value.anchorInEditor {
        scheduleShow := true;
      } else {
        scheduleShow := false;
        showToolbar := false;
      }
    }

    /** applyFormatting: wrap the selected range in the node the format asks for. */
    method ApplyFormatting(format: string, sel: Range, url: Option<string>)
      requires sel.start <= sel.end <= |editor.content|
      modifies editor
      ensures editor.content == Formatted(old(editor.content), sel, WrapperFor(format, highlightColor, textColor, url))
      ensures editor.focused == (old(editor.focused) || RestoresFocus(sel, WrapperFor(format, highlightColor, textColor, url)))
    {
      if !sel.IsCollapsed() {
        var style: seq<StyleProp> := [];
        match format {
          case "bold" => style := [StyleProp("fontWeight", "bold")];
          case "italic" => style := [StyleProp("fontStyle", "italic")];
          case "underline" => style := [StyleProp("textDecoration", "underline")];
          case "highlight" => style := [StyleProp("backgroundColor", highlightColor)];
          case "color" => style := [StyleProp("color", textColor)];
          case "link" =>
            if Truthy(url) {
              var fragment := editor.ExtractContents(sel.start, sel.end);
              editor.InsertNode(sel.start, Anchor(url.value, "_blank", "noopener noreferrer", fragment));
              return;
            }
          case "insertUnorderedList" =>
            var fragment := editor.ExtractContents(sel.start, sel.end);
            editor.InsertNode(sel.start, ListBlock(false, [ListItem(fragment)]));
            return;
          case "insertOrderedList" =>
            var fragment := editor.ExtractContents(sel.start, sel.end);
            editor.InsertNode(sel.start, ListBlock(true, [ListItem(fragment)]));
            return;
          case _ =>
        }
        var fragment := editor.ExtractContents(sel.start, sel.end);
        editor.InsertNode(sel.start, Span(style, fragment));
      }
      editor.Focus();
    }
  }
}
