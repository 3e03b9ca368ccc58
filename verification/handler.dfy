/** The slog handler: its options, its level gate and its attribute/group accumulator. A handler
    is never changed after it is made; every derivation returns a new one. */
module Handler {
  import opened Outcomes
  import opened ByteStrings
  import opened Slog

  /** A Go function value supplied by the caller; the model only tells such values apart. */
  datatype Hook = Hook(id: nat)

  datatype Converter = DefaultConverter | CustomConverter(hook: Hook)

  datatype Marshaler = JsonMarshal | CustomMarshaler(hook: Hook)

  /** A connection to the collector, seen through what the frame builder asks of it: the
      String() of its remote address. */
  datatype Conn = Conn(remoteAddr: Bytes)

  /** Option: every field that may be nil in Go is an Option here. */
  datatype Options = Options(
    level: Option<int>,
    conn: Option<Conn>,
    app: Bytes,
    converter: Option<Converter>,
    marshaler: Option<Marshaler>,
    attrFromContext: Option<seq<Hook>>,
    addSource: bool,
    replaceAttr: Option<Hook>)

  /** LogdocHandler: the options it was built with, the attributes and the group names accumulated. */
  datatype LogdocHandler = LogdocHandler(option: Options, attrs: seq<Attr>, groups: seq<Bytes>)

  /** The Go panics the model tracks: no connection at construction, Error() on a nil error, a nil
      record dereferenced, and FileLine called on the nil function FuncForPC gives for an unknown
      program counter. */
  datatype Panic = MissingConnection | NilError | NilRecord | NilFunc

  /** What NewLogdocHandler establishes and every derivation keeps: a level and a connection. */
  predicate Ready(h: LogdocHandler) {
    h.option.level.Some? && h.option.conn.Some?
  }

  /** Option.NewLogdocHandler: fills in the defaults, and panics when there is no connection. */
  function NewLogdocHandler(o: Options): (r: Result<LogdocHandler, Panic>)
    ensures r.Failure? <==> o.conn.None?
    ensures r.Failure? ==> r.error == MissingConnection
    ensures r.Success? ==> Ready(r.value) && r.value.attrs == [] && r.value.groups == []
    ensures r.Success? ==> r.value.option.level == Some(o.level.GetOr(LevelDebug))
    ensures r.Success? ==> r.value.option.conn == o.conn && r.value.option.app == o.app
    ensures r.Success? ==> r.value.option.converter == Some(o.converter.GetOr(DefaultConverter))
    ensures r.Success? ==> r.value.option.marshaler == Some(o.marshaler.GetOr(JsonMarshal))
    ensures r.Success? ==> r.value.option.attrFromContext == Some(o.attrFromContext.GetOr([]))
    ensures r.Success? ==> r.value.option.addSource == o.addSource && r.value.option.replaceAttr == o.replaceAttr
  {
    var o := o.(level := Some(o.level.GetOr(LevelDebug)));
    if o.conn.None? then Failure(MissingConnection)
    else
      var o := o.(converter := Some(o.converter.GetOr(DefaultConverter)));
      var o := o.(marshaler := Some(o.marshaler.GetOr(JsonMarshal)));
      var o := o.(attrFromContext := Some(o.attrFromContext.GetOr([])));
      Success(LogdocHandler(o, [], []))
  }

  /** Enabled: whether a record at this level gets through. */
  function Enabled(h: LogdocHandler, level: int): bool
    requires Ready(h)
  {
    level >= h.option.level.value
  }

  /** WithAttrs: a new handler whose attributes are merge(groups, attrs, new attributes); merge stands
      for slog-common's AppendAttrsToGroup, which is not part of this model. */
  function WithAttrs(h: LogdocHandler, attrs: seq<Attr>, merge: (seq<Bytes>, seq<Attr>, seq<Attr>) -> seq<Attr>)
    : (r: LogdocHandler)
    ensures r.groups == h.groups && r.option == h.option
    ensures r.attrs == merge(h.groups, h.attrs, attrs)
  {
    LogdocHandler(h.option, merge(h.groups, h.attrs, attrs), h.groups)
  }

  /** WithGroup: a new handler with one more group name. */
  function WithGroup(h: LogdocHandler, name: Bytes): (r: LogdocHandler)
    ensures r.groups == h.groups + [name]
    ensures r.attrs == h.attrs && r.option == h.option
  {
    LogdocHandler(h.option, h.attrs, h.groups + [name])
  }

  /** A chain of WithGroup derivations, one per name. */
  function WithGroups(h: LogdocHandler, names: seq<Bytes>): LogdocHandler
    decreases |names|
  {
    if names == [] then h else WithGroups(WithGroup(h, names[0]), names[1..])
  }

  /** Deriving by group names appends exactly those names, in order, and changes nothing else. */
  lemma {:induction false} WithGroupsAccumulate(h: LogdocHandler, names: seq<Bytes>)
    ensures WithGroups(h, names).groups == h.groups + names
    ensures WithGroups(h, names).attrs == h.attrs && WithGroups(h, names).option == h.option
    decreases |names|
  {
    if names != [] {
      WithGroupsAccumulate(WithGroup(h, names[0]), names[1..]);
      assert h.groups + [names[0]] + names[1..] == h.groups + names;
    }
  }

  /** Without a configured level, a new handler lets through exactly the levels from Debug up. */
  lemma DefaultLevelIsDebug(o: Options, level: int)
    requires o.level.None? && o.conn.Some?
    ensures NewLogdocHandler(o).Success?
    ensures Enabled(NewLogdocHandler(o).value, level) <==> level >= LevelDebug
  {
  }

  /** The gate is a threshold: once a level is enabled, every higher level is too, and the
      configured minimum is the lowest enabled level. */
  lemma EnabledThreshold(h: LogdocHandler, level: int, higher: int)
    requires Ready(h) && level <= higher
    ensures Enabled(h, level) ==> Enabled(h, higher)
    ensures Enabled(h, h.option.level.value) && !Enabled(h, h.option.level.value - 1)
  {
  }

  /** Derivations keep the handler ready and do not change its gate. */
  lemma DerivationsKeepGate(h: LogdocHandler, name: Bytes, attrs: seq<Attr>,
                            merge: (seq<Bytes>, seq<Attr>, seq<Attr>) -> seq<Attr>, level: int)
    requires Ready(h)
    ensures Ready(WithGroup(h, name)) && Enabled(WithGroup(h, name), level) == Enabled(h, level)
    ensures Ready(WithAttrs(h, attrs, merge)) && Enabled(WithAttrs(h, attrs, merge), level) == Enabled(h, level)
  {
  }
}
