/** The viewer's state machine (ui/model.go): the file list, the document
    view, the help overlay and the raw toggle, driven by key presses and
    window resizes. The scrolling viewport of the terminal library is a record
    of its size, content and scroll position; how it scrolls on a message is
    an input. */
module Viewer {
  import opened Bytes
  import opened Document
  import opened Styles
  import opened FileTree
  import Render

  datatype View = ViewFileList | ViewDocument

  /** Where the viewport is scrolled to: the top, the bottom, or a line
      offset the viewport itself chose. */
  datatype Position = Top | Bottom | Scrolled(offset: int)

  /** viewport.Model, as far as the viewer sets it. */
  datatype Viewport = Viewport(width: int, height: int, yPosition: int, content: Bytes, position: Position)

  /** The viewport before the first resize: Go's zero value. */
  const ZERO_VIEWPORT: Viewport := Viewport(0, 0, 0, [], Top)

  /** tea.Cmd: none, the quit command, a command the viewport returned
      (known by a tag), or a batch of them. */
  datatype Cmd = NoCmd | Quit | ScrollCmd(tag: int) | Batch(cmds: seq<Cmd>)

  /** tea.Msg: a key press by its name, a new window size, or anything else
      (mouse events, ticks), by a name of its kind. */
  datatype Msg = Key(key: Bytes) | WindowSize(width: int, height: int) | Other(kind: Bytes)

  /** What the model is built with and never changes: the styles and the
      renderer's inputs, and the viewport's own reaction to a message (its new
      scroll position and its command). */
  datatype Config = Config(theme: Theme, highlighter: (Bytes, Bytes) -> Bytes, show: Node -> Bytes,
                           scroll: (Viewport, Msg) -> (Position, Cmd))

  /** The fields Update reads and writes. */
  datatype State = State(width: int, height: int, selectedIndex: int, currentView: View,
                         viewport: Viewport, ready: bool, currentDoc: Option<OrgFile>,
                         showHelp: bool, rawView: bool)

  const HeaderHeight: int := 4
  const FooterHeight: int := 3
  const VerticalMargins: int := HeaderHeight + FooterHeight

  const KEY_HELP: Bytes := Ascii("?")
  const KEY_Q: Bytes := Ascii("q")
  const KEY_CTRL_C: Bytes := Ascii("ctrl+c")
  const KEY_ESC: Bytes := Ascii("esc")
  const KEY_UP: Bytes := Ascii("up")
  const KEY_K: Bytes := Ascii("k")
  const KEY_DOWN: Bytes := Ascii("down")
  const KEY_J: Bytes := Ascii("j")
  const KEY_HOME: Bytes := Ascii("home")
  const KEY_G: Bytes := Ascii("g")
  const KEY_END: Bytes := Ascii("end")
  const KEY_SHIFT_G: Bytes := Ascii("G")
  const KEY_ENTER: Bytes := Ascii("enter")
  const KEY_L: Bytes := Ascii("l")
  const KEY_RIGHT: Bytes := Ascii("right")
  const KEY_H: Bytes := Ascii("h")
  const KEY_LEFT: Bytes := Ascii("left")
  const KEY_R: Bytes := Ascii("r")

  /** The key names, byte by byte: no two of them are equal. */
  lemma KeyBytes()
    ensures KEY_HELP == [63]
    ensures KEY_Q == [113]
    ensures KEY_CTRL_C == [99, 116, 114, 108, 43, 99]
    ensures KEY_ESC == [101, 115, 99]
    ensures KEY_UP == [117, 112]
    ensures KEY_K == [107]
    ensures KEY_DOWN == [100, 111, 119, 110]
    ensures KEY_J == [106]
    ensures KEY_HOME == [104, 111, 109, 101]
    ensures KEY_G == [103]
    ensures KEY_END == [101, 110, 100]
    ensures KEY_SHIFT_G == [71]
    ensures KEY_ENTER == [101, 110, 116, 101, 114]
    ensures KEY_L == [108]
    ensures KEY_RIGHT == [114, 105, 103, 104, 116]
    ensures KEY_H == [104]
    ensures KEY_LEFT == [108, 101, 102, 116]
    ensures KEY_R == [114]
  {
  }

  /** renderDocument: the document's nodes rendered eight columns narrower
      than the window. */
  function RenderDocument(c: Config, width: int, doc: OrgFile): Bytes {
    Render.RenderNodes(Renderer(c.theme, width - 8, c.highlighter, c.show), doc.document.nodes)
  }

  /** NewModel's state: the file list, the first file selected, nothing
      shown yet. */
  const INITIAL: State := State(0, 0, 0, ViewFileList, ZERO_VIEWPORT, false, None, false, false)

  /** What every reachable state keeps: a file is selected whenever there
      are files, the document view is exactly when a document is open, and
      the raw toggle is off in the file list. */
  predicate Inv(files: seq<OrgFile>, s: State) {
    && (|files| > 0 ==> 0 <= s.selectedIndex < |files|)
    && (s.currentView == ViewDocument <==> s.currentDoc.Some?)
    && (s.currentView == ViewFileList ==> !s.rawView)
  }

  // The transition, as a function of the old state.

  /** Update: the new state and the command for a message. */
  function Step(c: Config, files: seq<OrgFile>, s: State, msg: Msg): (State, Cmd)
    requires Inv(files, s)
  {
    match msg
    case WindowSize(w, h) => Forward(c, Resize(c, s, w, h), msg)
    case Key(k) =>
      if k == KEY_HELP then (s.(showHelp := !s.showHelp), NoCmd)
      else if s.showHelp then (s.(showHelp := false), NoCmd)
      else if k == KEY_Q || k == KEY_CTRL_C then (s, Quit)
      else Forward(c, KeyStep(c, files, s, k), msg)
    case Other(_) => Forward(c, s, msg)
  }

  /** The window-size case: the new size, the viewport made on the first
      resize and sized on later ones, and the open document rendered again
      at the new width. */
  function Resize(c: Config, s: State, w: int, h: int): State {
    var sized :=
      if !s.ready then Viewport(w - 4, h - VerticalMargins, HeaderHeight, [], Top)
      else s.viewport.(width := w - 4, height := h - VerticalMargins);
    var vp := if s.currentDoc.Some? then sized.(content := RenderDocument(c, w, s.currentDoc.value)) else sized;
    s.(width := w, height := h, viewport := vp, ready := true)
  }

  /** The key switch, once help is closed and the key is not a quit key. */
  function KeyStep(c: Config, files: seq<OrgFile>, s: State, k: Bytes): State
    requires Inv(files, s)
  {
    var list := s.currentView == ViewFileList;
    if k == KEY_ESC || k == KEY_H || k == KEY_LEFT then
      if !list then s.(currentView := ViewFileList, currentDoc := None, rawView := false) else s
    else if k == KEY_UP || k == KEY_K then
      if list && s.selectedIndex > 0 then s.(selectedIndex := s.selectedIndex - 1) else s
    else if k == KEY_DOWN || k == KEY_J then
      if list && s.selectedIndex < |files| - 1 then s.(selectedIndex := s.selectedIndex + 1) else s
    else if k == KEY_HOME || k == KEY_G then
      if list then s.(selectedIndex := 0) else s.(viewport := s.viewport.(position := Top))
    else if k == KEY_END || k == KEY_SHIFT_G then
      if list then s.(selectedIndex := |files| - 1) else s.(viewport := s.viewport.(position := Bottom))
    else if k == KEY_ENTER || k == KEY_L || k == KEY_RIGHT then
      if list && |files| > 0 then
        var doc := files[s.selectedIndex];
        s.(currentDoc := Some(doc), currentView := ViewDocument,
           viewport := s.viewport.(content := RenderDocument(c, s.width, doc), position := Top))
      else s
    else if k == KEY_R then
      if !list then
        var raw := !s.rawView;
        var doc := s.currentDoc.value;
        var content := if raw then doc.rawContent else RenderDocument(c, s.width, doc);
        s.(rawView := raw, viewport := s.viewport.(content := content, position := Top))
      else s
    else s
  }

  /** The tail of Update: in the document view with help closed the viewport
      sees the message too and may scroll; the commands are batched. */
  function Forward(c: Config, s: State, msg: Msg): (State, Cmd) {
    if s.currentView == ViewDocument && !s.showHelp then
      var (p, cmd) := c.scroll(s.viewport, msg);
      (s.(viewport := s.viewport.(position := p)), Batch([cmd]))
    else (s, Batch([]))
  }

  // The model, as the object the viewer updates in place.

  /** NewModel's parsing loop: the files that parse, in order; those that do
      not are dropped. */
  function Parsed(files: seq<Bytes>, parse: Bytes -> Result<OrgFile>): (fs: seq<OrgFile>)
    ensures |fs| <= |files|
  {
    if files == [] then []
    else (if parse(files[0]).Ok? then [parse(files[0]).value] else []) + Parsed(files[1..], parse)
  }

  class Model {
    const config: Config
    const files: seq<Bytes>
    const orgFiles: seq<OrgFile>
    var width: int
    var height: int
    var selectedIndex: int
    var currentView: View
    var viewport: Viewport
    var ready: bool
    var currentDoc: Option<OrgFile>
    var showHelp: bool
    var rawView: bool

    /** The fields Update reads and writes, as one value. */
    function Fields(): State
      reads this
    {
      State(width, height, selectedIndex, currentView, viewport, ready, currentDoc, showHelp, rawView)
    }

    predicate Valid()
      reads this
    {
      Inv(orgFiles, Fields())
    }

    /** NewModel: every file is parsed; the ones that parse are listed. */
    constructor (config: Config, files: seq<Bytes>, parse: Bytes -> Result<OrgFile>)
      ensures this.config == config && this.files == files && orgFiles == Parsed(files, parse)
      ensures Fields() == INITIAL && Valid()
    {
      var parsed := [];
      var i := 0;
      while i < |files|
        invariant 0 <= i <= |files|
        invariant parsed + Parsed(files[i..], parse) == Parsed(files, parse)
      {
        assert files[i..][1..] == files[i + 1..];
        var result := parse(files[i]);
        if result.Ok? {
          assert parsed + ([result.value] + Parsed(files[i + 1..], parse))
              == (parsed + [result.value]) + Parsed(files[i + 1..], parse);
          parsed := parsed + [result.value];
        }
        i := i + 1;
      }
      assert files[i..] == [] && parsed + [] == parsed;
      this.config := config;
      this.files := files;
      orgFiles := parsed;
      width, height := 0, 0;
      selectedIndex := 0;
      currentView := ViewFileList;
      viewport := ZERO_VIEWPORT;
      ready := false;
      currentDoc := None;
      showHelp := false;
      rawView := false;
    }

    /** Update, field by field as the source assigns them. */
    method Update(msg: Msg) returns (cmd: Cmd)
      requires Valid()
      modifies this
      ensures Valid()
      ensures (Fields(), cmd) == Step(config, orgFiles, old(Fields()), msg)
    {
      match msg {
        case WindowSize(w, h) =>
          width := w;
          height := h;
          if !ready {
            viewport := Viewport(w - 4, h - VerticalMargins, HeaderHeight, [], Top);
            ready := true;
          } else {
            viewport := viewport.(width := w - 4, height := h - VerticalMargins);
          }
          if currentDoc.Some? {
            viewport := viewport.(content := RenderDocument(config, width, currentDoc.value));
          }
        case Key(k) =>
          if k == KEY_HELP {
            showHelp := !showHelp;
            return NoCmd;
          }
          if showHelp {
            showHelp := false;
            return NoCmd;
          }
          if k == KEY_Q || k == KEY_CTRL_C {
            return Quit;
          }
          PressKey(k);
        case Other(_) =>
      }
      cmd := Batch([]);
      if currentView == ViewDocument && !showHelp {
        var (p, c) := config.scroll(viewport, msg);
        viewport := viewport.(position := p);
        cmd := Batch([c]);
      }
    }

    /** The key switch of Update. */
    method PressKey(k: Bytes)
      requires Valid()
      modifies this
      ensures Valid()
      ensures Fields() == KeyStep(config, orgFiles, old(Fields()), k)
    {
      if k == KEY_ESC || k == KEY_H || k == KEY_LEFT {
        if currentView == ViewDocument {
          currentView := ViewFileList;
          currentDoc := None;
          rawView := false;
        }
      } else if k == KEY_UP || k == KEY_K {
        if currentView == ViewFileList {
          if selectedIndex > 0 {
            selectedIndex := selectedIndex - 1;
          }
        }
      } else if k == KEY_DOWN || k == KEY_J {
        if currentView == ViewFileList {
          if selectedIndex < |orgFiles| - 1 {
            selectedIndex := selectedIndex + 1;
          }
        }
      } else if k == KEY_HOME || k == KEY_G {
        if currentView == ViewFileList {
          selectedIndex := 0;
        } else {
          viewport := viewport.(position := Top);
        }
      } else if k == KEY_END || k == KEY_SHIFT_G {
        if currentView == ViewFileList {
          selectedIndex := |orgFiles| - 1;
        } else {
          viewport := viewport.(position := Bottom);
        }
      } else if k == KEY_ENTER || k == KEY_L || k == KEY_RIGHT {
        if currentView == ViewFileList && |orgFiles| > 0 {
          currentDoc := Some(orgFiles[selectedIndex]);
          currentView := ViewDocument;
          viewport := viewport.(content := RenderDocument(config, width, currentDoc.value));
          viewport := viewport.(position := Top);
        }
      } else if k == KEY_R {
        if currentView == ViewDocument {
          rawView := !rawView;
          if rawView {
            viewport := viewport.(content := currentDoc.value.rawContent);
          } else {
            viewport := viewport.(content := RenderDocument(config, width, currentDoc.value));
          }
          viewport := viewport.(position := Top);
        }
      }
    }
  }

  // What the transition promises.

  /** Every message keeps the invariant, so the selection is always a valid
      index when there are files and the document view always has a
      document. */
  lemma StepKeepsInv(c: Config, files: seq<OrgFile>, s: State, msg: Msg)
    requires Inv(files, s)
    ensures Inv(files, Step(c, files, s, msg).0)
  {
  }


  /** "?" flips the help overlay and changes nothing else, in any view. */
  lemma HelpToggles(c: Config, files: seq<OrgFile>, s: State)
    requires Inv(files, s)
    ensures Step(c, files, s, Key(KEY_HELP)) == (s.(showHelp := !s.showHelp), NoCmd)
  {
  }

  /** While help is shown every other key only closes it: no navigation, no
      quitting, no scrolling. */
  lemma HelpSwallowsKeys(c: Config, files: seq<OrgFile>, s: State, k: Bytes)
    requires Inv(files, s) && s.showHelp && k != KEY_HELP
    ensures Step(c, files, s, Key(k)) == (s.(showHelp := false), NoCmd)
  {
    KeyBytes();
  }

  /** q and ctrl+c quit and leave the state alone. */
  lemma QuitKeys(c: Config, files: seq<OrgFile>, s: State, k: Bytes)
    requires Inv(files, s) && !s.showHelp && (k == KEY_Q || k == KEY_CTRL_C)
    ensures Step(c, files, s, Key(k)) == (s, Quit)
  {
    KeyBytes();
  }

  /** In the file list the movement keys only move the selection, and never
      out of the list: up stops at the first file, down at the last, home
      goes to the first and end to the last (-1 for an empty list). */
  lemma ListNavigation(c: Config, files: seq<OrgFile>, s: State, k: Bytes)
    requires Inv(files, s) && !s.showHelp && s.currentView == ViewFileList
    ensures k == KEY_UP || k == KEY_K ==>
              Step(c, files, s, Key(k))
              == (s.(selectedIndex := if s.selectedIndex > 0 then s.selectedIndex - 1 else s.selectedIndex), Batch([]))
    ensures k == KEY_DOWN || k == KEY_J ==>
              Step(c, files, s, Key(k))
              == (s.(selectedIndex := if s.selectedIndex < |files| - 1 then s.selectedIndex + 1 else s.selectedIndex), Batch([]))
    ensures k == KEY_HOME || k == KEY_G ==> Step(c, files, s, Key(k)) == (s.(selectedIndex := 0), Batch([]))
    ensures k == KEY_END || k == KEY_SHIFT_G ==> Step(c, files, s, Key(k)) == (s.(selectedIndex := |files| - 1), Batch([]))
    ensures |files| > 0 ==> 0 <= Step(c, files, s, Key(k)).0.selectedIndex < |files|
  {
    KeyBytes();
    if k != KEY_HELP && k != KEY_Q && k != KEY_CTRL_C {
      var t := KeyStep(c, files, s, k);
      assert Step(c, files, s, Key(k)) == Forward(c, t, Key(k));
      if t.currentView == ViewFileList {
        assert Forward(c, t, Key(k)) == (t, Batch([]));
      }
    }
  }

  /** In the document view the movement keys leave the selection alone;
      home and end put the viewport at the top and the bottom before it
      sees the key. */
  lemma DocumentNavigation(c: Config, files: seq<OrgFile>, s: State, k: Bytes)
    requires Inv(files, s) && !s.showHelp && s.currentView == ViewDocument
    requires k in [KEY_UP, KEY_K, KEY_DOWN, KEY_J, KEY_HOME, KEY_G, KEY_END, KEY_SHIFT_G, KEY_ENTER, KEY_L, KEY_RIGHT]
    ensures var t := Step(c, files, s, Key(k)).0;
            && t.selectedIndex == s.selectedIndex && t.currentView == ViewDocument
            && t.currentDoc == s.currentDoc && t.rawView == s.rawView
            && t.viewport.content == s.viewport.content
    ensures k == KEY_HOME || k == KEY_G ==>
              Step(c, files, s, Key(k)) == Forward(c, s.(viewport := s.viewport.(position := Top)), Key(k))
    ensures k == KEY_END || k == KEY_SHIFT_G ==>
              Step(c, files, s, Key(k)) == Forward(c, s.(viewport := s.viewport.(position := Bottom)), Key(k))
  {
    KeyBytes();
    assert Step(c, files, s, Key(k)) == Forward(c, KeyStep(c, files, s, k), Key(k));
    if k == KEY_HOME || k == KEY_G {
      assert KeyStep(c, files, s, k) == s.(viewport := s.viewport.(position := Top));
    } else if k == KEY_END || k == KEY_SHIFT_G {
      assert KeyStep(c, files, s, k) == s.(viewport := s.viewport.(position := Bottom));
    } else {
      assert KeyStep(c, files, s, k) == s;
    }
  }

  /** enter, l and right open the selected file from a non-empty file list:
      the document view shows it rendered, from the top, with the raw toggle
      off. From an empty list they change nothing. */
  lemma OpenSelected(c: Config, files: seq<OrgFile>, s: State, k: Bytes)
    requires Inv(files, s) && !s.showHelp && s.currentView == ViewFileList
    requires k == KEY_ENTER || k == KEY_L || k == KEY_RIGHT
    ensures |files| == 0 ==> Step(c, files, s, Key(k)) == (s, Batch([]))
    ensures |files| > 0 ==>
              var t := Step(c, files, s, Key(k)).0;
              && t.currentView == ViewDocument && t.currentDoc == Some(files[s.selectedIndex])
              && t.viewport.content == RenderDocument(c, s.width, files[s.selectedIndex])
              && !t.rawView && !t.showHelp && t.selectedIndex == s.selectedIndex
              && t.width == s.width && t.height == s.height && t.ready == s.ready
  {
    KeyBytes();
  }

  /** esc, h and left leave the document for the file list, dropping the
      document and the raw toggle; in the file list they change nothing. */
  lemma BackToList(c: Config, files: seq<OrgFile>, s: State, k: Bytes)
    requires Inv(files, s) && !s.showHelp
    requires k == KEY_ESC || k == KEY_H || k == KEY_LEFT
    ensures s.currentView == ViewDocument ==>
              Step(c, files, s, Key(k)) == (s.(currentView := ViewFileList, currentDoc := None, rawView := false), Batch([]))
    ensures s.currentView == ViewFileList ==> Step(c, files, s, Key(k)) == (s, Batch([]))
  {
    KeyBytes();
  }

  /** r flips the raw toggle in the document view only; the viewport then
      holds the file's raw text when the toggle is on and the rendered
      document when it is off. */
  lemma RawToggle(c: Config, files: seq<OrgFile>, s: State)
    requires Inv(files, s) && !s.showHelp
    ensures s.currentView == ViewFileList ==> Step(c, files, s, Key(KEY_R)) == (s, Batch([]))
    ensures s.currentView == ViewDocument ==>
              var t := Step(c, files, s, Key(KEY_R)).0;
              && t.rawView == !s.rawView && t.currentDoc == s.currentDoc && t.currentView == ViewDocument
              && t.viewport.content
                 == (if t.rawView then s.currentDoc.value.rawContent else RenderDocument(c, s.width, s.currentDoc.value))
  {
    KeyBytes();
  }

  /** Toggling raw twice shows the rendered document again. */
  lemma RawToggleTwice(c: Config, files: seq<OrgFile>, s: State)
    requires Inv(files, s) && !s.showHelp && s.currentView == ViewDocument && !s.rawView
    ensures var t := Step(c, files, Step(c, files, s, Key(KEY_R)).0, Key(KEY_R)).0;
            !t.rawView && t.viewport.content == RenderDocument(c, s.width, s.currentDoc.value)
  {
    var t1 := Step(c, files, s, Key(KEY_R)).0;
    StepKeepsInv(c, files, s, Key(KEY_R));
    RawToggle(c, files, s);
    RawToggle(c, files, t1);
  }

  /** A resize records the window size, makes the viewport four columns
      narrower and seven rows shorter than the window, and marks the model
      ready. */
  lemma ResizeSizes(c: Config, files: seq<OrgFile>, s: State, w: int, h: int)
    requires Inv(files, s)
    ensures var t := Step(c, files, s, WindowSize(w, h)).0;
            && t.width == w && t.height == h && t.ready
            && t.viewport.width == w - 4 && t.viewport.height == h - 7
            && t.currentView == s.currentView && t.currentDoc == s.currentDoc
            && t.selectedIndex == s.selectedIndex && t.showHelp == s.showHelp && t.rawView == s.rawView
  {
  }

  /** A resize with a document open renders it again at the new width, even
      when the raw toggle is on: the viewport then shows the rendered
      document while the toggle still says raw. */
  lemma ResizeRendersDocument(c: Config, files: seq<OrgFile>, s: State, w: int, h: int)
    requires Inv(files, s) && s.currentDoc.Some?
    ensures Step(c, files, s, WindowSize(w, h)).0.viewport.content == RenderDocument(c, w, s.currentDoc.value)
    ensures Step(c, files, s, WindowSize(w, h)).0.rawView == s.rawView
  {
  }

  lemma InitialInv(files: seq<OrgFile>)
    ensures Inv(files, INITIAL)
  {
  }
}
