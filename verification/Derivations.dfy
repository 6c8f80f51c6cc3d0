/**
 Derivations of the token grammar that heads gopkg.in/yaml.v2/parserc.go.

 A derivation says which production was used at every point. `Tokens` writes it down as the
 scanner would, `Events` says what it means.
 */
module Derivations {
  import opened Options
  import opened ParserModel

  // ---------------------------------------------------------------- derivations

  datatype Tag = NoTag | Tag(handle: string, suffix: string)
  datatype Properties = Properties(anchor: string, tag: Tag, tagFirst: bool)

  datatype Node =
    | Absent                                  // an optional node that is left out
    | Alias(name: string)
    | Atom(props: Properties, value: string, style: Style)
    | Bare(props: Properties)                 // properties without content
    | BlockSequence(props: Properties, items: Items)
    | Indentless(props: Properties, items: Items)
    | BlockMapping(props: Properties, entries: Entries)
    | FlowSequence(props: Properties, parts: Parts)
    | FlowMapping(props: Properties, parts: Parts)

  datatype Items = NoItem | Item(node: Node, more: Items)

  datatype Value = NoValue | HasValue(node: Node)
  /** The grammar also lets a block mapping have a value without any key. */
  datatype Entries = NoEntry | Entry(key: Node, value: Value, more: Entries) | Keyless(node: Node, more: Entries)

  /** The inside of a flow collection; `comma` says whether a separator follows the part. */
  datatype Part = Single(node: Node) | Pair(key: Node, value: Value)
  datatype Parts = NoPart | More(part: Part, comma: bool, more: Parts)

  // ---------------------------------------------------------------- tokens

  function PropertyTokens(p: Properties): seq<Token> {
    var anchor := if p.anchor == "" then [] else [TAnchor(p.anchor)];
    var tag := if p.tag.NoTag? then [] else [TTag(p.tag.handle, p.tag.suffix)];
    if p.tagFirst then tag + anchor else anchor + tag
  }

  function Tokens(n: Node): seq<Token> {
    match n
    case Absent => []
    case Alias(name) => [TAlias(name)]
    case Atom(p, value, style) => PropertyTokens(p) + [TScalar(value, style)]
    case Bare(p) => PropertyTokens(p)
    case BlockSequence(p, items) => PropertyTokens(p) + ([TBlockSequenceStart] + (ItemTokens(items) + [TBlockEnd]))
    case Indentless(p, items) => PropertyTokens(p) + ItemTokens(items)
    case BlockMapping(p, entries) => PropertyTokens(p) + ([TBlockMappingStart] + (EntryTokens(entries) + [TBlockEnd]))
    case FlowSequence(p, parts) => PropertyTokens(p) + ([TFlowSequenceStart] + (PartTokens(parts) + [TFlowSequenceEnd]))
    case FlowMapping(p, parts) => PropertyTokens(p) + ([TFlowMappingStart] + (PartTokens(parts) + [TFlowMappingEnd]))
  }

  function ItemTokens(items: Items): seq<Token> {
    match items
    case NoItem => []
    case Item(n, more) => [TBlockEntry] + (Tokens(n) + ItemTokens(more))
  }

  function ValueTokens(v: Value): seq<Token> {
    match v
    case NoValue => []
    case HasValue(n) => [TValue] + Tokens(n)
  }

  function EntryTokens(entries: Entries): seq<Token> {
    match entries
    case NoEntry => []
    case Entry(k, v, more) => [TKey] + (Tokens(k) + (ValueTokens(v) + EntryTokens(more)))
    case Keyless(n, more) => [TValue] + (Tokens(n) + EntryTokens(more))
  }

  function PartTokens(parts: Parts): seq<Token> {
    match parts
    case NoPart => []
    case More(part, comma, more) => OnePartTokens(part) + ((if comma then [TFlowEntry] else []) + PartTokens(more))
  }

  function OnePartTokens(part: Part): seq<Token> {
    match part
    case Single(n) => Tokens(n)
    case Pair(k, v) => [TKey] + (Tokens(k) + ValueTokens(v))
  }

  // ---------------------------------------------------------------- events

  /** Where the first directive for a handle is, from `i` on; the length of the list if there is none. */
  function FirstFor(dirs: seq<Directive>, handle: string, i: nat): (k: nat)
    requires i <= |dirs|
    ensures i <= k <= |dirs| && (k < |dirs| ==> dirs[k].handle == handle)
    ensures forall j :: i <= j < k ==> dirs[j].handle != handle
    decreases |dirs| - i
  {
    if i == |dirs| || dirs[i].handle == handle then i else FirstFor(dirs, handle, i + 1)
  }

  /** The tag in full: the prefix that the handle stands for, then the suffix. There is none for an unknown handle. */
  function TagOf(dirs: seq<Directive>, p: Properties): Option<string> {
    match p.tag
    case NoTag => Some("")
    case Tag(h, s) =>
      if h == "" then Some(s)
      else
        var i := FirstFor(dirs, h, 0);
        if i == |dirs| || |dirs[i].prefix| + |s| == 0 then None else Some(dirs[i].prefix + s)
  }

  /** The tag of properties whose handle is defined. */
  function TagText(dirs: seq<Directive>, p: Properties): string {
    match TagOf(dirs, p) case None => "" case Some(t) => t
  }

  /** What stands for a node that is left out: a plain scalar of no characters, without a tag of its own. */
  const NO_NODE := EScalar("", "", "", true, false, Plain)

  /**
   A scalar. Without a tag, or with the tag `!`, its tag is left to be found: for a plain scalar
   by looking at its text, for any other without.
   */
  function AtomEvent(anchor: string, tag: string, value: string, style: Style): Event {
    if tag == "" then EScalar(anchor, "", value, style == Plain, style != Plain, style)
    else if tag == "!" then EScalar(anchor, "!", value, true, false, style)
    else EScalar(anchor, tag, value, false, false, style)
  }

  function Events(n: Node, dirs: seq<Directive>): (s: seq<Event>)
    ensures s != []
  {
    match n
    case Absent => [NO_NODE]
    case Alias(name) => [EAlias(name)]
    case Atom(p, value, style) => [AtomEvent(p.anchor, TagText(dirs, p), value, style)]
    case Bare(p) => [EScalar(p.anchor, TagText(dirs, p), "", TagText(dirs, p) == "", false, Plain)]
    case BlockSequence(p, items) => [SequenceEvent(p, dirs, false)] + (ItemEvents(items, dirs) + [ESequenceEnd])
    case Indentless(p, items) => [SequenceEvent(p, dirs, false)] + (ItemEvents(items, dirs) + [ESequenceEnd])
    case BlockMapping(p, entries) => [MappingEvent(p, dirs, false)] + (EntryEvents(entries, dirs) + [EMappingEnd])
    case FlowSequence(p, parts) => [SequenceEvent(p, dirs, true)] + (SequencePartEvents(parts, dirs) + [ESequenceEnd])
    case FlowMapping(p, parts) => [MappingEvent(p, dirs, true)] + (MappingPartEvents(parts, dirs) + [EMappingEnd])
  }

  function SequenceEvent(p: Properties, dirs: seq<Directive>, flow: bool): Event {
    var tag := TagText(dirs, p);
    ESequenceStart(p.anchor, tag, tag == "", flow)
  }

  function MappingEvent(p: Properties, dirs: seq<Directive>, flow: bool): Event {
    var tag := TagText(dirs, p);
    EMappingStart(p.anchor, tag, tag == "", flow)
  }

  function ItemEvents(items: Items, dirs: seq<Directive>): seq<Event> {
    match items
    case NoItem => []
    case Item(n, more) => Events(n, dirs) + ItemEvents(more, dirs)
  }

  function ValueEvents(v: Value, dirs: seq<Directive>): seq<Event> {
    match v
    case NoValue => [NO_NODE]
    case HasValue(n) => Events(n, dirs)
  }

  function EntryEvents(entries: Entries, dirs: seq<Directive>): seq<Event> {
    match entries
    case NoEntry => []
    case Entry(k, v, more) => Events(k, dirs) + (ValueEvents(v, dirs) + EntryEvents(more, dirs))
    case Keyless(n, more) => [NO_NODE] + (Events(n, dirs) + EntryEvents(more, dirs))
  }

  /** In a flow sequence a pair is a mapping of its own. */
  function SequencePartEvents(parts: Parts, dirs: seq<Directive>): seq<Event> {
    match parts
    case NoPart => []
    case More(part, _, more) =>
      (match part
       case Single(n) => Events(n, dirs)
       case Pair(k, v) =>
         [EMappingStart("", "", true, true)] + (Events(k, dirs) + (ValueEvents(v, dirs) + [EMappingEnd])))
      + SequencePartEvents(more, dirs)
  }

  /** In a flow mapping a lone node is a key without a value. */
  function MappingPartEvents(parts: Parts, dirs: seq<Directive>): seq<Event> {
    match parts
    case NoPart => []
    case More(part, _, more) =>
      (match part
       case Single(n) => Events(n, dirs) + [NO_NODE]
       case Pair(k, v) => Events(k, dirs) + ValueEvents(v, dirs))
      + MappingPartEvents(more, dirs)
  }

  // ---------------------------------------------------------------- well-formed derivations

  predicate GoodProps(p: Properties, dirs: seq<Directive>) { TagOf(dirs, p).Some? }

  /** `n` is a node that may stand where `block` and `indentless` say what is allowed. */
  predicate Good(n: Node, block: bool, indentless: bool, dirs: seq<Directive>)
    decreases n, 0
  {
    match n
    case Absent => false
    case Alias(_) => true
    case Atom(p, _, _) => GoodProps(p, dirs)
    case Bare(p) => GoodProps(p, dirs) && (p.anchor != "" || TagText(dirs, p) != "")
    case BlockSequence(p, items) => block && GoodProps(p, dirs) && GoodItems(items, dirs)
    case Indentless(p, items) => indentless && GoodProps(p, dirs) && items.Item? && GoodItems(items, dirs)
    case BlockMapping(p, entries) => block && GoodProps(p, dirs) && GoodEntries(entries, dirs)
    case FlowSequence(p, parts) => GoodProps(p, dirs) && GoodParts(parts, dirs)
    case FlowMapping(p, parts) => GoodProps(p, dirs) && GoodParts(parts, dirs)
  }

  predicate GoodOptional(n: Node, block: bool, indentless: bool, dirs: seq<Directive>)
    decreases n, 1
  {
    n.Absent? || Good(n, block, indentless, dirs)
  }

  predicate GoodItems(items: Items, dirs: seq<Directive>) {
    match items
    case NoItem => true
    case Item(n, more) => GoodOptional(n, true, false, dirs) && GoodItems(more, dirs)
  }

  predicate GoodValue(v: Value, block: bool, dirs: seq<Directive>) {
    v.HasValue? ==> GoodOptional(v.node, block, block, dirs)
  }

  predicate GoodEntries(entries: Entries, dirs: seq<Directive>) {
    match entries
    case NoEntry => true
    case Entry(k, v, more) =>
      && GoodOptional(k, true, true, dirs) && GoodValue(v, true, dirs) && GoodEntries(more, dirs)
      && (more.Keyless? ==> v.HasValue?)   // otherwise the value belongs to this key
    case Keyless(n, more) => GoodOptional(n, true, true, dirs) && GoodEntries(more, dirs)
  }

  predicate GoodParts(parts: Parts, dirs: seq<Directive>) {
    match parts
    case NoPart => true
    case More(part, comma, more) =>
      && (more.More? ==> comma)
      && GoodParts(more, dirs)
      && match part
         case Single(n) => Good(n, false, false, dirs)
         case Pair(k, v) => GoodOptional(k, false, false, dirs) && GoodValue(v, false, dirs)
  }

  /**
   One of the two places where code and documented grammar part: in a flow sequence, the token
   after an empty key is skipped unread. That is harmless only if the pair's value is empty as
   well, and the skipped token is either the value indicator or a last comma.
   */
  predicate HarmlessPair(part: Part, comma: bool, more: Parts) {
    part.Pair? && part.key.Absent? ==> part.value == HasValue(Absent) || (part.value.NoValue? && comma && more.NoPart?)
  }

  predicate Keyed(n: Node)
    decreases n, 0
  {
    match n
    case BlockSequence(_, items) => KeyedItems(items)
    case Indentless(_, items) => KeyedItems(items)
    case BlockMapping(_, entries) => KeyedEntries(entries)
    case FlowSequence(_, parts) => KeyedParts(parts, true)
    case FlowMapping(_, parts) => KeyedParts(parts, false)
    case _ => true
  }

  predicate KeyedItems(items: Items) {
    items.Item? ==> Keyed(items.node) && KeyedItems(items.more)
  }

  predicate KeyedValue(v: Value) { v.HasValue? ==> Keyed(v.node) }

  /** The other place: a block mapping entry without a key is refused. */
  predicate KeyedEntries(entries: Entries) {
    match entries
    case NoEntry => true
    case Entry(k, v, more) => Keyed(k) && KeyedValue(v) && KeyedEntries(more)
    case Keyless(_, _) => false
  }

  predicate KeyedParts(parts: Parts, inSequence: bool) {
    parts.More? ==>
      && (match parts.part
          case Single(n) => Keyed(n)
          case Pair(k, v) => Keyed(k) && KeyedValue(v))
      && (inSequence ==> HarmlessPair(parts.part, parts.comma, parts.more))
      && KeyedParts(parts.more, inSequence)
  }

  // ---------------------------------------------------------------- documents and streams

  /** DIRECTIVE* DOCUMENT-START block_node? DOCUMENT-END* */
  datatype Document = Document(directives: seq<Token>, root: Node, ends: nat)
  datatype Documents = NoDocument | Another(doc: Document, more: Documents)

  /** A first document without DOCUMENT-START, if any, then explicit ones. */
  datatype Implicit = NoImplicit | Implicit(root: Node, ends: nat)
  datatype Stream = Stream(implicit: Implicit, documents: Documents)

  function Ends(n: nat): (s: seq<Token>)
    ensures |s| == n
  {
    if n == 0 then [] else [TDocumentEnd] + Ends(n - 1)
  }

  function DocumentTokens(d: Document): seq<Token> {
    d.directives + ([TDocumentStart] + (Tokens(d.root) + Ends(d.ends)))
  }

  function DocumentsTokens(docs: Documents): seq<Token> {
    match docs
    case NoDocument => []
    case Another(d, more) => DocumentTokens(d) + DocumentsTokens(more)
  }

  function ImplicitTokens(i: Implicit): seq<Token> {
    match i
    case NoImplicit => []
    case Implicit(root, ends) => Tokens(root) + Ends(ends)
  }

  function StreamTokens(s: Stream): seq<Token> {
    [TStreamStart] + (ImplicitTokens(s.implicit) + (DocumentsTokens(s.documents) + [TStreamEnd]))
  }

  function TagsIn(directives: seq<Token>): seq<Directive> {
    if directives == [] then []
    else (if directives[0].TTagDirective? then [directives[0].directive] else []) + TagsIn(directives[1..])
  }

  predicate VersionIn(directives: seq<Token>) { exists i :: 0 <= i < |directives| && directives[i].TVersion? }

  /** The tag handles in force in a document with these directives. */
  function Scope(directives: seq<Token>): seq<Directive> {
    TagsIn(directives) + Default(directives, "!", "!") + Default(directives, "!!", "tag:yaml.org,2002:")
  }

  /** A handle that every document knows, unless it declares it itself. */
  function Default(directives: seq<Token>, handle: string, prefix: string): seq<Directive> {
    if exists i :: 0 <= i < |directives| && Declares(directives[i], handle) then [] else [Directive(handle, prefix)]
  }

  predicate Declares(t: Token, handle: string) { t.TTagDirective? && t.directive.handle == handle }

  function DocumentEvents(d: Document): seq<Event> {
    [EDocumentStart(VersionIn(d.directives), TagsIn(d.directives))]
    + (Events(d.root, Scope(d.directives)) + [EDocumentEnd(d.ends == 0)])
  }

  function DocumentsEvents(docs: Documents): seq<Event> {
    match docs
    case NoDocument => []
    case Another(d, more) => DocumentEvents(d) + DocumentsEvents(more)
  }

  function ImplicitEvents(i: Implicit): seq<Event> {
    match i
    case NoImplicit => []
    case Implicit(root, ends) => [EDocumentStart(false, [])] + (Events(root, Scope([])) + [EDocumentEnd(ends == 0)])
  }

  function StreamEvents(s: Stream): seq<Event> {
    [EStreamStart] + (ImplicitEvents(s.implicit) + (DocumentsEvents(s.documents) + [EStreamEnd]))
  }

  /** At most one version directive, for 1.1, and no handle twice. */
  predicate GoodDirectives(directives: seq<Token>, version: bool, dirs: seq<Directive>) {
    directives == [] ||
    match directives[0]
    case TVersion(major, minor) => !version && major == 1 && minor == 1 && GoodDirectives(directives[1..], true, dirs)
    case TTagDirective(d) => !HasHandle(dirs, d.handle) && GoodDirectives(directives[1..], version, dirs + [d])
    case _ => false
  }

  predicate GoodDocuments(docs: Documents) {
    docs.Another? ==>
      && GoodDirectives(docs.doc.directives, false, [])
      && GoodOptional(docs.doc.root, true, false, Scope(docs.doc.directives))
      && GoodDocuments(docs.more)
  }

  predicate GoodStream(s: Stream) {
    (s.implicit.Implicit? ==> Good(s.implicit.root, true, false, Scope([]))) && GoodDocuments(s.documents)
  }

  predicate KeyedDocuments(docs: Documents) {
    docs.Another? ==> Keyed(docs.doc.root) && KeyedDocuments(docs.more)
  }

  predicate KeyedStream(s: Stream) {
    (s.implicit.Implicit? ==> Keyed(s.implicit.root)) && KeyedDocuments(s.documents)
  }
}
