/** The LogDoc frame builder: one slog record in, one byte frame out. */
module Frame {
  import opened Outcomes
  import opened ByteStrings
  import opened Decimal
  import opened Timestamp
  import opened Slog
  import opened Wire
  import opened Handler

  /** The two bytes every frame starts with. */
  const Header: Bytes := [6, 3]

  const Warning: Bytes := [119, 97, 114, 110, 105, 110, 103]  // "warning"
  const Warn: Bytes := [119, 97, 114, 110]                    // "warn"

  const MsgKey: Bytes := [109, 115, 103]    // "msg"
  const AppKey: Bytes := [97, 112, 112]     // "app"
  const TsrcKey: Bytes := [116, 115, 114, 99]  // "tsrc"
  const LvlKey: Bytes := [108, 118, 108]    // "lvl"
  const IpKey: Bytes := [105, 112]          // "ip"
  const PidKey: Bytes := [112, 105, 100]    // "pid"
  const SrcKey: Bytes := [115, 114, 99]     // "src"

  /** The source location written when there is no record. */
  const Todo: Bytes := [84, 79, 68, 79]     // "TODO"

  /** An error value, seen through its Error() text. */
  datatype GoError = GoError(text: Bytes)

  /** What the Go runtime reports for a program counter: the function's name and the line. */
  datatype Caller = Caller(name: Bytes, line: int)

  /** The readings of the environment a frame needs: the clock, the process id, and the functions of
      the running program by program counter (what runtime.FuncForPC and FileLine report). */
  datatype Env = Env(now: DateTime, pid: int, symbols: map<nat, Caller>)

  /** runtime.FuncForPC: the function at pc, or nil when pc lies in none; a zero pc, slog's
      "no program counter", lies in none. */
  function FuncForPC(env: Env, pc: nat): (r: Option<Caller>)
    ensures r.None? <==> pc == 0 || pc !in env.symbols
    ensures r.Some? ==> r.value == env.symbols[pc]
  {
    if pc != 0 && pc in env.symbols then Some(env.symbols[pc]) else None
  }

  /** The level string as sendLogDocEvent passes it on: "warning" becomes "warn", all else is kept. */
  function NormaliseLevel(s: Bytes): (r: Bytes)
    ensures r != Warning
    ensures s == Warning ==> r == Warn
    ensures s != Warning ==> r == s
  {
    if s == Warning then Warn else s
  }

  /** slog never names a level "warning", so the normalisation leaves every slog level name as it is. */
  lemma SlogLevelsPassThrough(l: int)
    ensures NormaliseLevel(LevelString(l)) == LevelString(l)
  {
    var s := LevelString(l);
    assert s[0] != Warning[0];
  }

  /** The pair an attribute contributes: its key and text when its value is a Go string, else none. */
  function AttrPairs(a: Attr): (r: seq<Pair>)
    ensures |r| <= 1
    ensures |r| == 1 <==> a.value.StringValue?
    ensures |r| == 1 ==> r[0].key == a.key
  {
    if a.value.StringValue? then [Pair(a.key, a.value.text)] else []
  }

  /** The pairs processCustomFields writes for a record's attributes: never more than there are
      attributes, and one for each when all are strings. */
  function StringPairs(attrs: seq<Attr>): (r: seq<Pair>)
    ensures |r| <= |attrs|
    ensures (forall k | 0 <= k < |attrs| :: attrs[k].value.StringValue?) ==> |r| == |attrs|
  {
    if attrs == [] then [] else AttrPairs(attrs[0]) + StringPairs(attrs[1..])
  }

  /** Attributes keep their order: the pairs of a concatenation are the pairs of its parts. */
  lemma {:induction false} StringPairsAppend(a: seq<Attr>, b: seq<Attr>)
    ensures StringPairs(a + b) == StringPairs(a) + StringPairs(b)
  {
    if a != [] {
      assert (a + b)[1..] == a[1..] + b;
      StringPairsAppend(a[1..], b);
    } else {
      assert a + b == b;
    }
  }

  /** A pair is written exactly when some attribute has that key and that string value. */
  lemma {:induction false} StringPairsExact(attrs: seq<Attr>, p: Pair)
    ensures p in StringPairs(attrs) <==>
      exists a | a in attrs :: a.value.StringValue? && p == Pair(a.key, a.value.text)
  {
    if attrs != [] {
      StringPairsExact(attrs[1..], p);
      assert forall a | a in attrs :: a == attrs[0] || a in attrs[1..];
    }
  }

  /** The lines for the string attributes: one per attribute, in record order. */
  lemma {:induction false} StringPairsOneLine(attrs: seq<Attr>)
    requires forall k | 0 <= k < |attrs| :: NoNewline(attrs[k].key)
    requires forall k | 0 <= k < |attrs| :: attrs[k].value.StringValue? ==> NoNewline(attrs[k].value.text)
    ensures forall k | 0 <= k < |StringPairs(attrs)| :: OneLine(StringPairs(attrs)[k])
  {
    if attrs != [] {
      StringPairsOneLine(attrs[1..]);
    }
  }

  lemma AttrLine(a: Attr)
    ensures Serialize(AttrPairs(a)) == if a.value.StringValue? then a.key + [EQ] + a.value.text + [NL] else []
  {
    if a.value.StringValue? {
      assert Serialize(AttrPairs(a)) == PairLine(Pair(a.key, a.value.text)) + Serialize([]);
    }
  }

  lemma SinglePairs(a: Attr)
    ensures StringPairs([a]) == AttrPairs(a)
  {
    assert StringPairs([a]) == AttrPairs(a) + StringPairs([]);
  }

  /** The pairs of one more attribute follow the pairs of those before it. */
  lemma StringPairsSnoc(prefix: seq<Attr>, a: Attr)
    ensures Serialize(StringPairs(prefix + [a])) == Serialize(StringPairs(prefix)) + Serialize(AttrPairs(a))
  {
    SinglePairs(a);
    StringPairsAppend(prefix, [a]);
    SerializeAppend(StringPairs(prefix), AttrPairs(a));
  }

  /** Associativity of concatenation, stated for the solver's sake. */
  lemma Associative(a: Bytes, b: Bytes, c: Bytes)
    ensures (a + b) + c == a + (b + c)
  {
  }

  /** One more attribute extends the bytes written so far by its own line, if it has one. */
  lemma CustomFieldsStep(result: Bytes, attrs: seq<Attr>, i: nat, out: Bytes)
    requires i < |attrs| && out == result + Serialize(StringPairs(attrs[..i]))
    ensures attrs[i].value.StringValue? ==>
      out + (attrs[i].key + [EQ] + attrs[i].value.text + [NL]) == result + Serialize(StringPairs(attrs[..i + 1]))
    ensures !attrs[i].value.StringValue? ==> out == result + Serialize(StringPairs(attrs[..i + 1]))
  {
    var prefix, a := attrs[..i], attrs[i];
    assert attrs[..i + 1] == prefix + [a];
    StringPairsSnoc(prefix, a);
    AttrLine(a);
    Associative(result, Serialize(StringPairs(prefix)), Serialize(AttrPairs(a)));
    if !a.value.StringValue? {
      assert out + [] == out;
    }
  }

  /** processCustomFields: appends `key=value\n` for each string-valued attribute of the record,
      skipping the others; a nil record is dereferenced and panics. */
  method ProcessCustomFields(record: Option<Record>, result: Bytes) returns (r: Result<Bytes, Panic>)
    ensures record.None? ==> r == Failure(NilRecord)
    ensures record.Some? ==> r == Success(result + Serialize(StringPairs(record.value.attrs)))
  {
    if record.None? {
      return Failure(NilRecord);
    }
    var attrs := record.value.attrs;
    var out := result;
    for i := 0 to |attrs|
      invariant out == result + Serialize(StringPairs(attrs[..i]))
    {
      var a := attrs[i];
      CustomFieldsStep(result, attrs, i, out);
      if a.value.StringValue? {
        out := out + (a.key + [EQ] + a.value.text + [NL]);
      }
    }
    assert attrs[..|attrs|] == attrs;
    return Success(out);
  }

  /** The `src` value for a record: the function's name, a colon and the line number. */
  function SourceLocation(c: Caller): (r: Bytes)
    ensures |r| > |c.name| && r[..|c.name|] == c.name && r[|c.name|] == COLON
    ensures NoNewline(r) <==> NoNewline(c.name)
    ensures ParseInt(r[|c.name| + 1..]) == Some(c.line)
  {
    var line := Itoa(c.line);
    assert (c.name + [COLON] + line)[|c.name| + 1..] == line;
    ItoaRoundTrip(c.line);
    assert (c.name + [COLON] + line)[..|c.name|] == c.name;
    assert forall j | |c.name| <= j < |c.name| + 1 + |line| :: (c.name + [COLON] + line)[j] != NL;
    c.name + [COLON] + line
  }

  /** The fixed service pairs, in the order they are written. The timestamp carries its own newline. */
  function ServicePairs(h: LogdocHandler, level: Bytes, src: Bytes, env: Env): seq<Pair>
    requires Ready(h) && Valid(env.now)
  {
    [Pair(AppKey, h.option.app), Pair(TsrcKey, FormatTsrc(env.now) + [NL]), Pair(LvlKey, level),
     Pair(IpKey, h.option.conn.value.remoteAddr), Pair(PidKey, Itoa(env.pid)), Pair(SrcKey, src)]
  }

  /** Every pair of the frame for a record, in order: the message, the string attributes, the service pairs. */
  function FramePairs(h: LogdocHandler, level: Bytes, rec: Record, src: Bytes, env: Env): seq<Pair>
    requires Ready(h) && Valid(env.now)
  {
    [Pair(MsgKey, rec.message)] + StringPairs(rec.attrs) + ServicePairs(h, level, src, env)
  }

  /** The bytes of a frame for a record whose source location is src. */
  function FrameBytes(h: LogdocHandler, level: Bytes, rec: Record, src: Bytes, env: Env): (r: Bytes)
    requires Ready(h) && Valid(env.now)
    ensures |r| >= 4 && r[..2] == Header && r[|r| - 2..] == [NL, NL]
  {
    var body := Serialize(FramePairs(h, level, rec, src, env));
    Closing(body);
    Header + body + [NL]
  }

  /** The frame sendLogdoc writes to the connection, or the panic it stops at: Error() on a nil error
      when there is no record, FileLine on a nil function when the record's program counter lies in
      no function, and the nil record dereferenced by processCustomFields otherwise. */
  function LogdocFrame(h: LogdocHandler, level: Bytes, entry: Option<Record>, err: Option<GoError>, env: Env)
    : (r: Result<Bytes, Panic>)
    requires Ready(h) && Valid(env.now)
    ensures r.Failure? <==> entry.None? || FuncForPC(env, entry.value.pc).None?
    ensures entry.None? ==> r == Failure(if err.None? then NilError else NilRecord)
    ensures entry.Some? && FuncForPC(env, entry.value.pc).None? ==> r == Failure(NilFunc)
    ensures r.Success? ==> |r.value| >= 4 && r.value[..2] == Header
    ensures r.Success? ==> r.value[|r.value| - 2..] == [NL, NL]
  {
    match entry
    case None => Failure(if err.None? then NilError else NilRecord)
    case Some(rec) =>
      match FuncForPC(env, rec.pc)
      case None => Failure(NilFunc)
      case Some(c) => Success(FrameBytes(h, level, rec, SourceLocation(c), env))
  }

  /** Header, body and the final newline: the frame's first and last bytes. */
  lemma Closing(body: Bytes)
    requires |body| > 0 && body[|body| - 1] == NL
    ensures var v := Header + body + [NL]; |v| >= 4 && v[..2] == Header && v[|v| - 2..] == [NL, NL]
  {
  }

  /** A record without a program counter never reaches the connection: FuncForPC gives nil and
      FileLine panics on it. */
  lemma NoProgramCounterPanics(h: LogdocHandler, level: Bytes, rec: Record, err: Option<GoError>, env: Env)
    requires Ready(h) && Valid(env.now) && rec.pc == 0
    ensures LogdocFrame(h, level, Some(rec), err, env) == Failure(NilFunc)
  {
  }

  /** sendLogdoc with FuncForPC's nil result checked: the source location falls back to the
      placeholder the code already writes when there is no record. */
  function GuardedFrame(h: LogdocHandler, level: Bytes, entry: Option<Record>, err: Option<GoError>, env: Env)
    : (r: Result<Bytes, Panic>)
    requires Ready(h) && Valid(env.now)
    ensures r.Failure? <==> entry.None?
  {
    match entry
    case None => Failure(if err.None? then NilError else NilRecord)
    case Some(rec) =>
      var src := match FuncForPC(env, rec.pc) case None => Todo case Some(c) => SourceLocation(c);
      Success(FrameBytes(h, level, rec, src, env))
  }

  /** The guarded frame differs from the code's only where the code panics: every record yields a
      frame, the same one whenever its program counter resolves, and one with `src=TODO` otherwise. */
  lemma GuardedFrameAgrees(h: LogdocHandler, level: Bytes, rec: Record, err: Option<GoError>, env: Env)
    requires Ready(h) && Valid(env.now)
    ensures GuardedFrame(h, level, Some(rec), err, env).Success?
    ensures LogdocFrame(h, level, Some(rec), err, env).Success? ==>
      GuardedFrame(h, level, Some(rec), err, env) == LogdocFrame(h, level, Some(rec), err, env)
    ensures LogdocFrame(h, level, Some(rec), err, env).Failure? ==>
      GuardedFrame(h, level, Some(rec), err, env).value == FrameBytes(h, level, rec, Todo, env)
  {
  }

  /** The message, the string attributes and `app`: the pairs written before the timestamp. */
  function LeadingPairs(h: LogdocHandler, rec: Record): seq<Pair>
    requires Ready(h)
  {
    [Pair(MsgKey, rec.message)] + StringPairs(rec.attrs) + [Pair(AppKey, h.option.app)]
  }

  /** `lvl`, `ip`, `pid` and `src`: the pairs written after the timestamp. */
  function TrailingPairs(h: LogdocHandler, level: Bytes, src: Bytes, env: Env): seq<Pair>
    requires Ready(h)
  {
    [Pair(LvlKey, level), Pair(IpKey, h.option.conn.value.remoteAddr), Pair(PidKey, Itoa(env.pid)),
     Pair(SrcKey, src)]
  }

  lemma ServiceSplit(h: LogdocHandler, level: Bytes, src: Bytes, env: Env)
    requires Ready(h) && Valid(env.now)
    ensures ServicePairs(h, level, src, env)
      == [Pair(AppKey, h.option.app)] + ([Pair(TsrcKey, FormatTsrc(env.now) + [NL])] + TrailingPairs(h, level, src, env))
  {
  }

  /** Associativity of concatenation, stated for the solver's sake. */
  lemma PairsAssociative(a: seq<Pair>, b: seq<Pair>, c: seq<Pair>)
    ensures (a + b) + c == a + (b + c)
  {
  }

  /** The frame's body is the leading pairs, the timestamp line with its doubled newline, the
      trailing pairs and the final newline. */
  lemma FrameBody(h: LogdocHandler, level: Bytes, rec: Record, src: Bytes, env: Env)
    requires Ready(h) && Valid(env.now)
    ensures FrameBytes(h, level, rec, src, env)[2..]
      == Serialize(LeadingPairs(h, rec)) + (Line(Pair(TsrcKey, FormatTsrc(env.now))) + [NL]
           + ([NL] + (Serialize(TrailingPairs(h, level, src, env)) + [NL])))
  {
    var lead, trail := LeadingPairs(h, rec), TrailingPairs(h, level, src, env);
    var first := [Pair(MsgKey, rec.message)] + StringPairs(rec.attrs);
    var app := Pair(AppKey, h.option.app);
    var ts := Pair(TsrcKey, FormatTsrc(env.now) + [NL]);
    ServiceSplit(h, level, src, env);
    PairsAssociative(first, [app], [ts] + trail);
    var body := Serialize(FramePairs(h, level, rec, src, env));
    assert (Header + body + [NL])[2..] == body + [NL];
    SerializeDoubled(lead, TsrcKey, FormatTsrc(env.now), trail);
  }

  /** What a line reader sees in a frame, behind its header: one line per pair, except that the
      timestamp's own newline puts an empty line right after `tsrc`, and the frame closes with an
      empty line. Holds when none of the texts written holds a newline. */
  lemma FrameLines(h: LogdocHandler, level: Bytes, rec: Record, src: Bytes, env: Env)
    requires Ready(h) && Valid(env.now)
    requires NoNewline(rec.message) && NoNewline(level) && NoNewline(h.option.app)
    requires NoNewline(h.option.conn.value.remoteAddr) && NoNewline(src)
    requires forall k | 0 <= k < |rec.attrs| :: NoNewline(rec.attrs[k].key)
    requires forall k | 0 <= k < |rec.attrs| :: rec.attrs[k].value.StringValue? ==> NoNewline(rec.attrs[k].value.text)
    ensures Lines(FrameBytes(h, level, rec, src, env)[2..])
      == PairLines(LeadingPairs(h, rec))
         + ([TsrcKey + [EQ] + FormatTsrc(env.now)] + ([[]] + (PairLines(TrailingPairs(h, level, src, env)) + [[]])))
  {
    var lead, trail := LeadingPairs(h, rec), TrailingPairs(h, level, src, env);
    StringPairsOneLine(rec.attrs);
    LeadingOneLine(h, rec);
    TsrcNoNewline(env.now);
    TrailingOneLine(h, level, src, env);
    FrameBody(h, level, rec, src, env);
    LinesAround(lead, Line(Pair(TsrcKey, FormatTsrc(env.now))), trail);
  }

  /** The frame holds an empty line before its end: a reader that takes the first empty line as
      the end of the frame stops right after `tsrc`, before `lvl`, `ip`, `pid` and `src`. */
  lemma FirstEmptyLineAfterTsrc(h: LogdocHandler, level: Bytes, rec: Record, src: Bytes, env: Env)
    requires Ready(h) && Valid(env.now)
    requires NoNewline(rec.message) && NoNewline(level) && NoNewline(h.option.app)
    requires NoNewline(h.option.conn.value.remoteAddr) && NoNewline(src)
    requires forall k | 0 <= k < |rec.attrs| :: NoNewline(rec.attrs[k].key)
    requires forall k | 0 <= k < |rec.attrs| :: rec.attrs[k].value.StringValue? ==> NoNewline(rec.attrs[k].value.text)
    ensures var lines := Lines(FrameBytes(h, level, rec, src, env)[2..]);
      var n := |LeadingPairs(h, rec)|;
      n + 2 < |lines| && lines[n] == TsrcKey + [EQ] + FormatTsrc(env.now) && lines[n + 1] == []
      && (forall k | 0 <= k <= n :: lines[k] != [])
  {
    var lead, trail := LeadingPairs(h, rec), TrailingPairs(h, level, src, env);
    FrameLines(h, level, rec, src, env);
    PairLinesAt(lead);
    var n := |lead|;
    var pre := PairLines(lead);
    var post := [TsrcKey + [EQ] + FormatTsrc(env.now)] + ([[]] + (PairLines(trail) + [[]]));
    var lines := pre + post;
    assert |pre| == n;
    assert lines[n] == post[0] && lines[n + 1] == post[1];
    forall k | 0 <= k < n
      ensures lines[k] != []
    {
      assert lines[k] == pre[k];
    }
  }

  /** The record's own time is not what the frame carries: `tsrc` is read from the clock. */
  lemma FrameIgnoresRecordTime(h: LogdocHandler, level: Bytes, rec: Record, t: DateTime, env: Env)
    requires Ready(h) && Valid(env.now)
    ensures LogdocFrame(h, level, Some(rec), None, env) == LogdocFrame(h, level, Some(rec.(time := t)), None, env)
  {
  }

  lemma TrailingOneLine(h: LogdocHandler, level: Bytes, src: Bytes, env: Env)
    requires Ready(h)
    requires NoNewline(level) && NoNewline(h.option.conn.value.remoteAddr) && NoNewline(src)
    ensures forall k | 0 <= k < |TrailingPairs(h, level, src, env)| :: OneLine(TrailingPairs(h, level, src, env)[k])
  {
    assert NoNewline(Itoa(env.pid));
  }

  lemma LeadingOneLine(h: LogdocHandler, rec: Record)
    requires Ready(h)
    requires NoNewline(rec.message) && NoNewline(h.option.app)
    requires forall k | 0 <= k < |StringPairs(rec.attrs)| :: OneLine(StringPairs(rec.attrs)[k])
    ensures forall k | 0 <= k < |LeadingPairs(h, rec)| :: OneLine(LeadingPairs(h, rec)[k])
  {
    var lead, ps := LeadingPairs(h, rec), StringPairs(rec.attrs);
    forall k | 0 <= k < |lead|
      ensures OneLine(lead[k])
    {
      if 0 < k <= |ps| {
        assert lead[k] == ps[k - 1];
      }
    }
  }

  /** The `&result` slice sendLogdoc builds the frame in. */
  class Buffer {
    var bytes: Bytes

    constructor (initial: Bytes)
      ensures bytes == initial
    {
      bytes := initial;
    }

    /** common.WritePair, taken to append key, '=', value and a newline. */
    method WritePair(key: Bytes, value: Bytes)
      modifies this
      ensures bytes == old(bytes) + PairLine(Pair(key, value))
    {
      bytes := bytes + PairLine(Pair(key, value));
    }
  }

  /** The header followed by the given pairs: what the buffer holds while sendLogdoc writes. */
  function Framed(written: seq<Pair>): Bytes {
    Header + Serialize(written)
  }

  /** Writing more pairs extends the buffer by their serialisation. */
  lemma FramedAppend(written: seq<Pair>, more: seq<Pair>)
    ensures Framed(written + more) == Framed(written) + Serialize(more)
  {
    SerializeAppend(written, more);
  }

  /** The pairs written after one more WritePair; its contract carries the buffer fact. */
  ghost function Write(written: seq<Pair>, p: Pair): (r: seq<Pair>)
    ensures r == written + [p]
    ensures Framed(r) == Framed(written) + PairLine(p)
  {
    FramedAppend(written, [p]);
    assert Serialize([p]) == PairLine(p) + Serialize([]);
    written + [p]
  }

  lemma FramePairsWritten(h: LogdocHandler, level: Bytes, rec: Record, src: Bytes, env: Env)
    requires Ready(h) && Valid(env.now)
    ensures FrameBytes(h, level, rec, src, env) == Framed(
      [Pair(MsgKey, rec.message)] + StringPairs(rec.attrs) + [Pair(AppKey, h.option.app)]
      + [Pair(TsrcKey, FormatTsrc(env.now) + [NL])] + [Pair(LvlKey, level)]
      + [Pair(IpKey, h.option.conn.value.remoteAddr)] + [Pair(PidKey, Itoa(env.pid))]
      + [Pair(SrcKey, src)]) + [NL]
  {
    assert FramePairs(h, level, rec, src, env) == [Pair(MsgKey, rec.message)] + StringPairs(rec.attrs)
      + [Pair(AppKey, h.option.app)] + [Pair(TsrcKey, FormatTsrc(env.now) + [NL])] + [Pair(LvlKey, level)]
      + [Pair(IpKey, h.option.conn.value.remoteAddr)] + [Pair(PidKey, Itoa(env.pid))]
      + [Pair(SrcKey, src)];
  }

  /** sendLogdoc: picks the message and source, then writes header, message, string attributes,
      service pairs and a final newline. The write to the connection is the frame returned. */
  method SendLogdoc(h: LogdocHandler, level: Bytes, entry: Option<Record>, err: Option<GoError>, env: Env)
    returns (r: Result<Bytes, Panic>)
    requires Ready(h) && Valid(env.now)
    ensures r == LogdocFrame(h, level, entry, err, env)
  {
    var msg: Bytes;
    if entry.Some? {
      msg := entry.value.message;
    } else if err.Some? {
      msg := err.value.text;
    } else {
      return Failure(NilError);
    }
    var app := h.option.app;
    var ip := h.option.conn.value.remoteAddr;
    var pid := Itoa(env.pid);
    var src: Bytes;
    if entry.Some? {
      var f := FuncForPC(env, entry.value.pc);
      if f.None? {
        return Failure(NilFunc);
      }
      src := SourceLocation(f.value);
    } else {
      src := Todo;
    }
    var tsrc := FormatTsrc(env.now) + [NL];

    // written: the pairs in the buffer so far, behind the header
    var result := new Buffer(Header);
    ghost var written: seq<Pair> := [];
    assert result.bytes == Framed(written);
    result.WritePair(MsgKey, msg);
    written := Write(written, Pair(MsgKey, msg));
    assert written == [Pair(MsgKey, msg)];
    var custom := ProcessCustomFields(entry, result.bytes);
    if custom.Failure? {
      return Failure(custom.error);
    }
    result.bytes := custom.value;
    FramedAppend(written, StringPairs(entry.value.attrs));
    written := written + StringPairs(entry.value.attrs);
    assert result.bytes == Framed(written);
    result.WritePair(AppKey, app);
    written := Write(written, Pair(AppKey, app));
    result.WritePair(TsrcKey, tsrc);
    written := Write(written, Pair(TsrcKey, tsrc));
    result.WritePair(LvlKey, level);
    written := Write(written, Pair(LvlKey, level));
    result.WritePair(IpKey, ip);
    written := Write(written, Pair(IpKey, ip));
    result.WritePair(PidKey, pid);
    written := Write(written, Pair(PidKey, pid));
    result.WritePair(SrcKey, src);
    written := Write(written, Pair(SrcKey, src));
    assert result.bytes == Framed(written);
    result.bytes := result.bytes + [NL];

    FramePairsWritten(h, level, entry.value, src, env);
    r := Success(result.bytes);
  }

  /** sendLogDocEvent followed by the sendLogdoc it starts: a nil record panics when its level is
      read; a record yields a frame exactly when its program counter lies in a function, and the
      frame's `lvl` is slog's own name for the level. */
  method SendLogDocEvent(h: LogdocHandler, entry: Option<Record>, env: Env) returns (r: Result<Bytes, Panic>)
    requires Ready(h) && Valid(env.now)
    ensures entry.None? ==> r == Failure(NilRecord)
    ensures entry.Some? ==> (r.Success? <==> FuncForPC(env, entry.value.pc).Some?)
    ensures entry.Some? && r.Failure? ==> r.error == NilFunc
    ensures entry.Some? ==> r == LogdocFrame(h, LevelString(entry.value.level), entry, None, env)
  {
    if entry.None? {
      return Failure(NilRecord);
    }
    var lvl := NormaliseLevel(LevelString(entry.value.level));
    SlogLevelsPassThrough(entry.value.level);
    r := SendLogdoc(h, lvl, entry, None, env);
  }
}
