/** What the renderer needs from the terminal-styling library: one opaque
    "render this string" capability per style role, plus the same with a
    wrap width (lipgloss `Style.Width(n).Render`). Also the glyphs the
    renderer writes, as their UTF-8 bytes, and the renderer's configuration. */
module Styles {
  import opened Bytes
  import opened Document

  datatype Role =
    | Heading1 | Heading2 | Heading3 | Heading4
    | Todo | Done | Priority | Tag
    | Paragraph
    | ListBullet | ListItem | DescTerm | DescSeparator
    | CheckboxEmpty | CheckboxDone | CheckboxPartial
    | BlockHeader | CodeBlock | Example | Quote | Verse | Center
    | TableBorder | TableHeader | TableCell
    | Bold | Italic | Underline | Strikethrough | Verbatim | InlineCode | Link
    | HRule | Keyword | KeywordValue | DrawerHeader | Property | Timestamp
    | FootnoteLabel | FootnoteContent | FootnoteRef | Statistics
    | Scheduled | Deadline | Closed

  /** `apply(role, s)` is `styles.<role>.Render(s)`;
      `applyWidth(role, w, s)` is `styles.<role>.Width(w).Render(s)`. */
  datatype Theme = Theme(apply: (Role, Bytes) -> Bytes, applyWidth: (Role, int, Bytes) -> Bytes)

  /** The identity instantiation: every style leaves its text alone. */
  function Plain(): (t: Theme)
    ensures forall role, s :: t.apply(role, s) == s
    ensures forall role, w, s :: t.applyWidth(role, w, s) == s
  {
    Theme((role: Role, s: Bytes) => s, (role: Role, w: int, s: Bytes) => s)
  }

  /** The renderer's fixed inputs: the styles, the content width, the syntax
      highlighter (chroma: code, language -> coloured code, falling back to
      the code on error) and the parser's `%v` printing of a node. */
  datatype Renderer = Renderer(theme: Theme, width: int,
                               highlighter: (Bytes, Bytes) -> Bytes,
                               show: Node -> Bytes)

  // Glyphs, UTF-8 encoded.
  const STAR: Bytes := [0xE2, 0x98, 0x85]          // ★
  const BULLET: Bytes := [0xE2, 0x80, 0xA2]        // •
  const CHECK: Bytes := [0xE2, 0x9C, 0x93]         // ✓
  const H_LINE: Bytes := [0xE2, 0x94, 0x80]        // ─
  const V_LINE: Bytes := [0xE2, 0x94, 0x82]        // │
  const TOP_LEFT: Bytes := [0xE2, 0x94, 0x8C]      // ┌
  const TOP_RIGHT: Bytes := [0xE2, 0x94, 0x90]     // ┐
  const BOTTOM_LEFT: Bytes := [0xE2, 0x94, 0x94]   // └
  const BOTTOM_RIGHT: Bytes := [0xE2, 0x94, 0x98]  // ┘
  const ROUND_TOP_LEFT: Bytes := [0xE2, 0x95, 0xAD]     // ╭
  const ROUND_TOP_RIGHT: Bytes := [0xE2, 0x95, 0xAE]    // ╮
  const ROUND_BOTTOM_LEFT: Bytes := [0xE2, 0x95, 0xB0]  // ╰
  const ROUND_BOTTOM_RIGHT: Bytes := [0xE2, 0x95, 0xAF] // ╯
  const TEE_DOWN: Bytes := [0xE2, 0x94, 0xAC]      // ┬
  const TEE_UP: Bytes := [0xE2, 0x94, 0xB4]        // ┴
  const TEE_RIGHT: Bytes := [0xE2, 0x94, 0x9C]     // ├
  const TEE_LEFT: Bytes := [0xE2, 0x94, 0xA4]      // ┤
  const CROSS: Bytes := [0xE2, 0x94, 0xBC]         // ┼
  const ICON_WEB: Bytes := [0xF0, 0x9F, 0x94, 0x97]    // 🔗
  const ICON_FILE: Bytes := [0xF0, 0x9F, 0x93, 0x84]   // 📄
  const ICON_MAIL: Bytes := [0xF0, 0x9F, 0x93, 0xA7]   // 📧
  const ICON_ORG: Bytes := [0xF0, 0x9F, 0x93, 0x9D]    // 📝
  const ICON_ARROW: Bytes := [0xE2, 0x86, 0x92]        // →
  const ICON_CALENDAR: Bytes := [0xF0, 0x9F, 0x93, 0x85] // 📅
}
