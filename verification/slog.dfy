/** The parts of Go's log/slog package the handler reads: levels, attributes and records. */
module Slog {
  import opened Outcomes
  import opened ByteStrings
  import opened Decimal
  import opened Timestamp

  const LevelDebug: int := -4
  const LevelInfo: int := 0
  const LevelWarn: int := 4
  const LevelError: int := 8

  const DebugName: Bytes := [68, 69, 66, 85, 71]  // "DEBUG"
  const InfoName: Bytes := [73, 78, 70, 79]       // "INFO"
  const WarnName: Bytes := [87, 65, 82, 78]       // "WARN"
  const ErrorName: Bytes := [69, 82, 82, 79, 82]  // "ERROR"

  predicate IsUpper(b: byte) {
    65 <= b <= 90
  }

  /** A base name, followed by the signed offset from its level when there is one. */
  function LevelName(base: Bytes, offset: int): Bytes {
    if offset == 0 then base else base + SignedItoa(offset)
  }

  /** slog.Level.String: the name of the nearest named level at or below l, and how far above it l is. */
  function LevelString(l: int): (r: Bytes)
    ensures |r| > 0 && IsUpper(r[0])
    ensures NoNewline(r)
  {
    if l < LevelInfo then LevelName(DebugName, l - LevelDebug)
    else if l < LevelWarn then LevelName(InfoName, l - LevelInfo)
    else if l < LevelError then LevelName(WarnName, l - LevelWarn)
    else LevelName(ErrorName, l - LevelError)
  }

  /** The position of the first '+' or '-' in s, or |s| when there is none. */
  function SignIndex(s: Bytes): (i: nat)
    ensures i <= |s|
    ensures i < |s| ==> s[i] == PLUS || s[i] == MINUS
    ensures forall j | 0 <= j < i :: s[j] != PLUS && s[j] != MINUS
  {
    if s == [] then 0
    else if s[0] == PLUS || s[0] == MINUS then 0
    else 1 + SignIndex(s[1..])
  }

  /** The level of a base name; this reader accepts only the upper-case names Level.String writes. */
  function BaseLevel(name: Bytes): Option<int> {
    if name == DebugName then Some(LevelDebug)
    else if name == InfoName then Some(LevelInfo)
    else if name == WarnName then Some(LevelWarn)
    else if name == ErrorName then Some(LevelError)
    else None
  }

  /** Reads a level name back: a base name, then an optional signed decimal offset. */
  function ParseLevel(s: Bytes): Option<int> {
    var i := SignIndex(s);
    var base := BaseLevel(s[..i]);
    if base.None? then None
    else if i == |s| then base
    else match ParseInt(s[i..])
      case None => None
      case Some(offset) => Some(base.value + offset)
  }

  /** A sign-free prefix is skipped whole when a sign or nothing follows it. */
  lemma {:induction false} SignIndexAfter(base: Bytes, rest: Bytes)
    requires forall j | 0 <= j < |base| :: base[j] != PLUS && base[j] != MINUS
    requires rest == [] || rest[0] == PLUS || rest[0] == MINUS
    ensures SignIndex(base + rest) == |base|
  {
    if base != [] {
      assert (base + rest)[1..] == base[1..] + rest;
      SignIndexAfter(base[1..], rest);
    } else {
      assert base + rest == rest;
    }
  }

  /** No base name holds a sign. */
  lemma BaseSignFree(base: Bytes)
    requires BaseLevel(base).Some?
    ensures forall j | 0 <= j < |base| :: base[j] != PLUS && base[j] != MINUS
  {
  }

  lemma ParseLevelName(s: Bytes, base: Bytes, level: int, offset: int)
    requires BaseLevel(base) == Some(level) && s == LevelName(base, offset)
    ensures ParseLevel(s) == Some(level + offset)
  {
    BaseSignFree(base);
    var signed: Bytes := if offset == 0 then [] else SignedItoa(offset);
    assert s == base + signed;
    SignIndexAfter(base, signed);
    assert s[..|base|] == base;
    if offset != 0 {
      assert s[|base|..] == signed;
      ItoaRoundTrip(offset);
    }
  }

  lemma BaseLevels()
    ensures BaseLevel(DebugName) == Some(LevelDebug) && BaseLevel(InfoName) == Some(LevelInfo)
    ensures BaseLevel(WarnName) == Some(LevelWarn) && BaseLevel(ErrorName) == Some(LevelError)
  {
    assert InfoName[0] != DebugName[0];
    assert WarnName[0] != DebugName[0] && WarnName[0] != InfoName[0];
    assert ErrorName[0] != DebugName[0] && ErrorName[0] != InfoName[0] && ErrorName[0] != WarnName[0];
  }

  /** Level names determine their level: no two levels print the same. */
  lemma LevelStringRoundTrip(l: int)
    ensures ParseLevel(LevelString(l)) == Some(l)
  {
    var s := LevelString(l);
    BaseLevels();
    var base, level := ErrorName, LevelError;
    if l < LevelInfo {
      base, level := DebugName, LevelDebug;
    } else if l < LevelWarn {
      base, level := InfoName, LevelInfo;
    } else if l < LevelError {
      base, level := WarnName, LevelWarn;
    }
    var offset := l - level;
    assert s == LevelName(base, offset);
    ParseLevelName(s, base, level, offset);
  }

  /** The four named levels print as their bare names. */
  lemma NamedLevels()
    ensures LevelString(LevelDebug) == DebugName && LevelString(LevelInfo) == InfoName
    ensures LevelString(LevelWarn) == WarnName && LevelString(LevelError) == ErrorName
  {
  }

  /** An attribute value, as far as its kind matters here: a Go string or something else. */
  datatype Value = StringValue(text: Bytes) | Int64Value(i: int) | BoolValue(b: bool) | OtherValue

  datatype Attr = Attr(key: Bytes, value: Value)

  /** slog.Record: its time, message, level, program counter and attributes in the order added. */
  datatype Record = Record(time: DateTime, message: Bytes, level: int, pc: nat, attrs: seq<Attr>)
}
