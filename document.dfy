/** The document tree the external org parser (go-org) produces, as far as
    the renderer looks at it: one constructor per node kind it dispatches on,
    carrying only the fields it reads. The tree is never mutated. */
module Document {
  import opened Bytes

  datatype Node =
    | Headline(lvl: nat, status: Bytes, priority: Bytes, tags: seq<Bytes>,
               title: seq<Node>, children: seq<Node>)
    | Block(name: Bytes, parameters: seq<Bytes>, children: seq<Node>)
    | Paragraph(children: seq<Node>)
    | List(items: seq<Node>)
    | ListItem(bullet: Bytes, status: Bytes, children: seq<Node>)
    | DescriptiveListItem(term: seq<Node>, details: seq<Node>)
    | Table(rows: seq<Row>)
    | HorizontalRule
    | Keyword(key: Bytes, value: Bytes)
    | PropertyDrawer(properties: seq<seq<Bytes>>)
    | Drawer(name: Bytes, children: seq<Node>)
    | Example(children: seq<Node>)
    | FootnoteDefinition(name: Bytes, children: seq<Node>)
      // inline kinds
    | Text(content: Bytes)
    | Emphasis(kind: Bytes, inner: seq<Node>)
    | RegularLink(url: Bytes, description: seq<Node>)
    | StatisticToken(token: Bytes)
      /** `day` is the instant formatted as "2006-01-02 Mon", `clock` as "15:04". */
    | Timestamp(day: Bytes, clock: Bytes, isDate: bool, interval: Bytes)
    | FootnoteLink(name: Bytes)
    | ExplicitLineBreak
    | LineBreak
      /** Any node kind of the parser that the renderer has no case for. */
    | Other(kind: Bytes)

  /** A table row; a separator row (`|---+---|`) is "special". */
  datatype Row = Row(isSpecial: bool, columns: seq<Column>)
  datatype Column = Column(children: seq<Node>)

  /** A parsed file: its nodes and its `#+KEY: value` buffer settings. */
  datatype Doc = Doc(nodes: seq<Node>, settings: map<Bytes, Bytes>)

  /** Document.Get: the setting, or "" when absent. */
  function Get(d: Doc, key: Bytes): (v: Bytes)
    ensures key in d.settings ==> v == d.settings[key]
    ensures key !in d.settings ==> v == []
  {
    if key in d.settings then d.settings[key] else []
  }
}
