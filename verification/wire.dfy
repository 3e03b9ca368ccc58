/** The LogDoc line format: `key=value` lines, each ended by a newline byte. */
module Wire {
  import opened Outcomes
  import opened ByteStrings

  datatype Pair = Pair(key: Bytes, value: Bytes)

  /** A pair's line without its terminator. */
  function Line(p: Pair): Bytes {
    p.key + [EQ] + p.value
  }

  /** The bytes one pair occupies in a frame: key, '=', value and a newline (common.WritePair, assumed
      to write what processCustomFields writes inline). */
  function PairLine(p: Pair): (r: Bytes)
    ensures |r| > 0 && r[|r| - 1] == NL
  {
    Line(p) + [NL]
  }

  /** The pairs written one after the other. */
  function Serialize(ps: seq<Pair>): (r: Bytes)
    ensures |ps| > 0 ==> |r| > 0 && r[|r| - 1] == NL
  {
    if ps == [] then [] else PairLine(ps[0]) + Serialize(ps[1..])
  }

  lemma {:induction false} SerializeAppend(a: seq<Pair>, b: seq<Pair>)
    ensures Serialize(a + b) == Serialize(a) + Serialize(b)
  {
    if a == [] {
      assert a + b == b;
    } else {
      assert (a + b)[1..] == a[1..] + b;
      SerializeAppend(a[1..], b);
    }
  }

  /** A pair whose line holds no newline byte. */
  predicate OneLine(p: Pair) {
    NoNewline(p.key) && NoNewline(p.value)
  }

  /** A pair whose line reads back as that pair: one line, and no '=' in the key. */
  predicate WellFormed(p: Pair) {
    OneLine(p) && EQ !in p.key
  }

  /** The lines the pairs occupy, terminators removed. */
  function PairLines(ps: seq<Pair>): (r: seq<Bytes>)
    ensures |r| == |ps|
  {
    if ps == [] then [] else [Line(ps[0])] + PairLines(ps[1..])
  }

  /** The k-th line is the k-th pair's line, and no pair's line is empty. */
  lemma {:induction false} PairLinesAt(ps: seq<Pair>)
    ensures forall k | 0 <= k < |ps| :: PairLines(ps)[k] == Line(ps[k]) && |PairLines(ps)[k]| > 0
  {
    if ps != [] {
      PairLinesAt(ps[1..]);
    }
  }

  /** The position of the first b in s, or |s| when there is none. */
  function IndexOf(s: Bytes, b: byte): (i: nat)
    ensures i <= |s|
    ensures i < |s| ==> s[i] == b
    ensures forall j | 0 <= j < i :: s[j] != b
  {
    if s == [] then 0 else if s[0] == b then 0 else 1 + IndexOf(s[1..], b)
  }

  /** s cut at its newline bytes; a final unterminated piece is a line of its own. */
  function Lines(s: Bytes): seq<Bytes>
    decreases |s|
  {
    if s == [] then []
    else
      var i := IndexOf(s, NL);
      if i == |s| then [s] else [s[..i]] + Lines(s[i + 1..])
  }

  /** A line split at its first '='; a line without one is not a pair. */
  function ParsePair(line: Bytes): Option<Pair> {
    var i := IndexOf(line, EQ);
    if i == |line| then None else Some(Pair(line[..i], line[i + 1..]))
  }

  /** Every line parsed as a pair, or None when one is not. */
  function ParsePairs(lines: seq<Bytes>): Option<seq<Pair>> {
    if lines == [] then Some([])
    else match (ParsePair(lines[0]), ParsePairs(lines[1..]))
      case (Some(p), Some(ps)) => Some([p] + ps)
      case _ => None
  }

  /** A reader of the line format: the independent reference the serialiser is checked against. */
  function Deserialize(s: Bytes): Option<seq<Pair>> {
    ParsePairs(Lines(s))
  }

  lemma LinesAfterLine(x: Bytes, rest: Bytes)
    requires NoNewline(x)
    ensures Lines(x + [NL] + rest) == [x] + Lines(rest)
  {
    var s := x + [NL] + rest;
    assert s[|x|] == NL;
    var i := IndexOf(s, NL);
    assert i == |x|;
    assert s[..i] == x;
    assert s[i + 1..] == rest;
  }

  lemma SerializeCons(ps: seq<Pair>, rest: Bytes)
    requires ps != []
    ensures Serialize(ps) + rest == Line(ps[0]) + [NL] + (Serialize(ps[1..]) + rest)
  {
  }

  lemma OneLineLine(p: Pair)
    requires OneLine(p)
    ensures NoNewline(Line(p))
  {
  }

  lemma ConsLines(line: Bytes, after: Bytes, last: seq<Bytes>, more: seq<Bytes>)
    requires NoNewline(line) && Lines(after) == more + last
    ensures Lines(line + [NL] + after) == [line] + more + last
  {
    LinesAfterLine(line, after);
  }

  lemma {:induction false} LinesOfSerialize(ps: seq<Pair>, rest: Bytes)
    requires forall k | 0 <= k < |ps| :: OneLine(ps[k])
    ensures Lines(Serialize(ps) + rest) == PairLines(ps) + Lines(rest)
  {
    if ps != [] {
      var line, tail := Line(ps[0]), Serialize(ps[1..]);
      OneLineLine(ps[0]);
      LinesOfSerialize(ps[1..], rest);
      SerializeCons(ps, rest);
      ConsLines(line, tail + rest, Lines(rest), PairLines(ps[1..]));
    } else {
      assert Serialize(ps) + rest == rest;
      assert PairLines(ps) + Lines(rest) == Lines(rest);
    }
  }

  /** A line made of nothing but its terminator reads as one empty line. */
  lemma LinesOfEmptyLine(rest: Bytes)
    ensures Lines([NL] + rest) == [[]] + Lines(rest)
  {
    LinesAfterLine([], rest);
    assert [] + [NL] + rest == [NL] + rest;
  }

  /** Pairs, then a line x that is followed by an extra terminator, then more pairs and a final
      terminator: the reader sees the first pairs' lines, x, an empty line, the last pairs' lines and
      a closing empty line. */
  lemma LinesAround(before: seq<Pair>, x: Bytes, after: seq<Pair>)
    requires forall k | 0 <= k < |before| :: OneLine(before[k])
    requires forall k | 0 <= k < |after| :: OneLine(after[k])
    requires NoNewline(x)
    ensures Lines(Serialize(before) + (x + [NL] + ([NL] + (Serialize(after) + [NL]))))
      == PairLines(before) + ([x] + ([[]] + (PairLines(after) + [[]])))
  {
    var tail := Serialize(after) + [NL];
    LinesOfSerialize(after, [NL]);
    LinesOfEmptyLine([]);
    assert [NL] + [] == [NL];
    assert Lines(tail) == PairLines(after) + [[]];
    var blank := [NL] + tail;
    LinesOfEmptyLine(tail);
    var mid := x + [NL] + blank;
    LinesAfterLine(x, blank);
    assert Lines(mid) == [x] + ([[]] + (PairLines(after) + [[]]));
    LinesOfSerialize(before, mid);
  }

  /** Concatenation regrouped, stated for the solver's sake. */
  lemma Regroup(a: Bytes, line: Bytes, c: Bytes)
    ensures a + ((line + [NL] + [NL]) + c) + [NL] == a + (line + [NL] + ([NL] + (c + [NL])))
  {
  }

  /** A pair whose value ends in a newline is followed by an empty line. */
  lemma SerializeDoubled(lead: seq<Pair>, key: Bytes, value: Bytes, trail: seq<Pair>)
    ensures Serialize(lead + ([Pair(key, value + [NL])] + trail)) + [NL]
      == Serialize(lead) + (Line(Pair(key, value)) + [NL] + ([NL] + (Serialize(trail) + [NL])))
  {
    var p := Pair(key, value + [NL]);
    var rest := [p] + trail;
    SerializeAppend(lead, rest);
    assert rest[0] == p && rest[1..] == trail;
    var line := Line(Pair(key, value));
    assert Line(p) == line + [NL];
    assert Serialize(rest) == (line + [NL] + [NL]) + Serialize(trail);
    Regroup(Serialize(lead), line, Serialize(trail));
  }

  lemma ParseLine(p: Pair)
    requires EQ !in p.key
    ensures ParsePair(Line(p)) == Some(p)
  {
    var line := Line(p);
    assert line[|p.key|] == EQ;
    var i := IndexOf(line, EQ);
    assert i == |p.key|;
    assert line[..i] == p.key;
    assert line[i + 1..] == p.value;
  }

  lemma {:induction false} ParseLines(ps: seq<Pair>)
    requires forall k | 0 <= k < |ps| :: EQ !in ps[k].key
    ensures ParsePairs(PairLines(ps)) == Some(ps)
  {
    if ps != [] {
      ParseLine(ps[0]);
      ParseLines(ps[1..]);
      assert [ps[0]] + ps[1..] == ps;
    }
  }

  /** Reading back what was written gives the pairs, in order, when every pair is well formed. */
  lemma SerializeRoundTrip(ps: seq<Pair>)
    requires forall k | 0 <= k < |ps| :: WellFormed(ps[k])
    ensures Deserialize(Serialize(ps)) == Some(ps)
  {
    var s, lines := Serialize(ps), PairLines(ps);
    LinesOfSerialize(ps, []);
    assert s + [] == s;
    assert Lines([]) == [];
    assert lines + [] == lines;
    ParseLines(ps);
  }
}
