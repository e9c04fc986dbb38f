/**
 * The descriptive (SDES) half of an RTP participant record and the
 * change-detecting merge of an SDES chunk into it, as pure functions.
 * The SDES item kinds are those of section 6.5 of RFC 3550.
 */
module SdesMerge {
  import opened Wrappers

  /** An optional SDES text; `None` is a field or item value that is null. */
  type Text = Option<string>

  /** The descriptive fields of a participant; PRIV is a prefix/value pair. */
  datatype Description = Description(
    name: Text, cname: Text, email: Text, phone: Text, location: Text,
    tool: Text, note: Text, privPrefix: Text, priv: Text)

  /** A record on which no descriptive field has been set. */
  const NoDescription := Description(None, None, None, None, None, None, None, None, None)

  /** One item of an SDES chunk, tagged by kind; PRIV also carries a prefix. */
  datatype SdesItem =
    | Cname(value: Text)
    | Name(value: Text)
    | Email(value: Text)
    | Phone(value: Text)
    | Location(value: Text)
    | Tool(value: Text)
    | Note(value: Text)
    | Priv(prefix: Text, value: Text)
    | Unrecognized(value: Text)

  /** An SDES chunk: the SSRC it describes and its items, in order. */
  datatype SdesChunk = SdesChunk(ssrc: int, items: seq<SdesItem>)

  /** The names of the fields of a Description. */
  datatype Field =
    NameField | CnameField | EmailField | PhoneField | LocationField |
    ToolField | NoteField | PrivPrefixField | PrivField

  /** The fields written together by a PRIV item. */
  const PrivFields: set<Field> := {PrivPrefixField, PrivField}

  function Get(d: Description, f: Field): Text
  {
    match f
    case NameField => d.name
    case CnameField => d.cname
    case EmailField => d.email
    case PhoneField => d.phone
    case LocationField => d.location
    case ToolField => d.tool
    case NoteField => d.note
    case PrivPrefixField => d.privPrefix
    case PrivField => d.priv
  }

  /** The fields an item of this kind may write. */
  function Targets(it: SdesItem): set<Field>
  {
    match it
    case Cname(_) => {CnameField}
    case Name(_) => {NameField}
    case Email(_) => {EmailField}
    case Phone(_) => {PhoneField}
    case Location(_) => {LocationField}
    case Tool(_) => {ToolField}
    case Note(_) => {NoteField}
    case Priv(_, _) => PrivFields
    case Unrecognized(_) => {}
  }

  /** What an item stores into one of its target fields when it writes. */
  function Payload(it: SdesItem, f: Field): Text
  {
    if it.Priv? && f == PrivPrefixField then it.prefix else it.value
  }

  /**
   * Whether storing `candidate` over `current` counts as a modification:
   * a null candidate never does, and neither does one equal to the current
   * value (Java's `String.equals` is false against null).
   */
  function WillCauseModification(current: Text, candidate: Text): (r: bool)
    ensures !r <==> candidate.None? || candidate == current
  {
    match candidate
    case None => false
    case Some(v) => !(current.Some? && current.value == v)
  }

  /** No field outside the PRIV pair has gone from present to absent. */
  predicate NeverErased(d: Description, e: Description)
  {
    forall f :: f !in PrivFields ==> Get(d, f).Some? ==> Get(e, f).Some?
  }

  /** The description after one merge step, and whether the step wrote. */
  datatype Step = Step(desc: Description, wrote: bool)

  /**
   * One iteration of the item loop of the merge. The TOOL and NOTE branches
   * decide by comparing the item's value with `location`, not with `tool` or
   * `note`: that is what the program does, and it is almost certainly a
   * copy-paste defect (see ToolUpdateNotIdempotent and ToolSuppressedByLocation).
   */
  function MergeItem(d: Description, it: SdesItem): (r: Step)
    ensures forall f :: f !in Targets(it) ==> Get(r.desc, f) == Get(d, f)
    ensures r.wrote ==> forall f :: f in Targets(it) ==> Get(r.desc, f) == Payload(it, f)
    ensures !r.wrote ==> r.desc == d
    ensures it.Cname? ==> (r.wrote <==> it.value.Some? && it.value != d.cname)
    ensures it.Name? ==> (r.wrote <==> it.value.Some? && it.value != d.name)
    ensures it.Email? ==> (r.wrote <==> it.value.Some? && it.value != d.email)
    ensures it.Phone? ==> (r.wrote <==> it.value.Some? && it.value != d.phone)
    ensures it.Location? ==> (r.wrote <==> it.value.Some? && it.value != d.location)
    ensures it.Tool? || it.Note? ==> (r.wrote <==> it.value.Some? && it.value != d.location)
    ensures it.Priv? ==>
      (r.wrote <==> (it.prefix.Some? && it.prefix != d.privPrefix) || (it.value.Some? && it.value != d.priv))
    ensures it.Unrecognized? ==> !r.wrote
    ensures NeverErased(d, r.desc)
  {
    match it
    case Cname(v) =>
      if WillCauseModification(d.cname, v) then Step(d.(cname := v), true) else Step(d, false)
    case Name(v) =>
      if WillCauseModification(d.name, v) then Step(d.(name := v), true) else Step(d, false)
    case Email(v) =>
      if WillCauseModification(d.email, v) then Step(d.(email := v), true) else Step(d, false)
    case Phone(v) =>
      if WillCauseModification(d.phone, v) then Step(d.(phone := v), true) else Step(d, false)
    case Location(v) =>
      if WillCauseModification(d.location, v) then Step(d.(location := v), true) else Step(d, false)
    case Tool(v) =>
      // compared with location, as written
      if WillCauseModification(d.location, v) then Step(d.(tool := v), true) else Step(d, false)
    case Note(v) =>
      // compared with location, as written
      if WillCauseModification(d.location, v) then Step(d.(note := v), true) else Step(d, false)
    case Priv(p, v) =>
      // prefix and value are written as a pair, so one half may become null
      if WillCauseModification(d.privPrefix, p) || WillCauseModification(d.priv, v)
      then Step(d.(privPrefix := p, priv := v), true)
      else Step(d, false)
    case Unrecognized(_) =>
      Step(d, false)
  }

  /**
   * The item loop of the merge over `items`, in order: the final description
   * and whether any item wrote.
   */
  function MergeItems(d: Description, items: seq<SdesItem>): (r: Step)
    ensures !r.wrote ==> r.desc == d
    ensures NeverErased(d, r.desc)
    decreases |items|
  {
    if items == [] then Step(d, false)
    else
      var before := MergeItems(d, items[..|items| - 1]);
      var last := MergeItem(before.desc, items[|items| - 1]);
      Step(last.desc, before.wrote || last.wrote)
  }

  /**
   * The evident intent of the item step: as MergeItem, except that TOOL is
   * compared with `tool` and NOTE with `note`.
   */
  function MergeItemIntended(d: Description, it: SdesItem): (r: Step)
    ensures forall f :: f !in Targets(it) ==> Get(r.desc, f) == Get(d, f)
    ensures r.wrote ==> forall f :: f in Targets(it) ==> Get(r.desc, f) == Payload(it, f)
    ensures !r.wrote ==> r.desc == d
    ensures it.Tool? ==> (r.wrote <==> it.value.Some? && it.value != d.tool)
    ensures it.Note? ==> (r.wrote <==> it.value.Some? && it.value != d.note)
    ensures !it.Tool? && !it.Note? ==> r == MergeItem(d, it)
    ensures NeverErased(d, r.desc)
  {
    match it
    case Tool(v) =>
      if WillCauseModification(d.tool, v) then Step(d.(tool := v), true) else Step(d, false)
    case Note(v) =>
      if WillCauseModification(d.note, v) then Step(d.(note := v), true) else Step(d, false)
    case _ =>
      MergeItem(d, it)
  }

  /** The item loop over MergeItemIntended. */
  function MergeItemsIntended(d: Description, items: seq<SdesItem>): (r: Step)
    ensures !r.wrote ==> r.desc == d
    ensures NeverErased(d, r.desc)
    decreases |items|
  {
    if items == [] then Step(d, false)
    else
      var before := MergeItemsIntended(d, items[..|items| - 1]);
      var last := MergeItemIntended(before.desc, items[|items| - 1]);
      Step(last.desc, before.wrote || last.wrote)
  }
}
