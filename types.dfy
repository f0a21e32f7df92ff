/** The shared data types: the state of a port, its raw counters, and the
    adapters and ports one poll of the device tree yields. */
module Types {
  import opened Text

  type u16 = x: int | 0 <= x < 0x1_0000
  type u64 = x: int | 0 <= x < 0x1_0000_0000_0000_0000

  const U16_MAX: nat := 0xFFFF
  const U64_MAX: nat := 0xFFFF_FFFF_FFFF_FFFF

  /** The closed set of port states shown in the table. */
  datatype PortState = Active | Down | Unknown

  /** The derived `Default` of `PortState`. */
  function DefaultPortState(): (st: PortState)
    ensures st.Unknown?
  {
    Unknown
  }

  /** `Display for PortState`. */
  function StateToString(st: PortState): (s: string)
    ensures IsTrimmed(s) && |s| >= 4
  {
    match st
    case Active => "ACTIVE"
    case Down => "DOWN"
    case Unknown => "UNKNOWN"
  }

  /** The error type of `FromStr for PortState` is `()`; it is never produced. */
  datatype ParseResult = Ok(state: PortState) | Err

  /** `FromStr for PortState`: the trimmed text "ACTIVE" or "DOWN" names that
      state, every other text (the empty one included) is `Unknown`. */
  function ParseState(s: string): (r: ParseResult)
    ensures r.Ok?
    ensures r.state == Active <==> Trim(s) == "ACTIVE"
    ensures r.state == Down <==> Trim(s) == "DOWN"
    ensures r.state == Unknown <==> Trim(s) != "ACTIVE" && Trim(s) != "DOWN"
  {
    match Trim(s)
    case "ACTIVE" => Ok(Active)
    case "DOWN" => Ok(Down)
    case _ => Ok(Unknown)
  }

  /** Parsing what `Display` prints gives back the same state, for every state. */
  lemma DisplayParseRoundTrip(st: PortState)
    ensures ParseState(StateToString(st)) == Ok(st)
  {
    TrimOfTrimmed(StateToString(st));
  }

  /** Whitespace around the text never changes the parsed state. */
  lemma ParseStateIgnoresPadding(pre: string, s: string, post: string)
    requires AllWhitespace(pre) && AllWhitespace(post)
    ensures ParseState(pre + s + post) == ParseState(s)
  {
    TrimIgnoresPadding(pre, s, post);
  }

  /** The raw cumulative counters of one port, as read in one poll. */
  datatype PortCounters = PortCounters(
    rxBytes: u64,
    txBytes: u64,
    rxPackets: u64,
    txPackets: u64,
    rxErrors: u64,
    txErrors: u64,
    rxDropped: u64)

  /** The derived `Default` of `PortCounters`. */
  function DefaultCounters(): (c: PortCounters)
    ensures c.rxBytes == c.txBytes == c.rxPackets == c.txPackets == 0
    ensures c.rxErrors == c.txErrors == c.rxDropped == 0
  {
    PortCounters(0, 0, 0, 0, 0, 0, 0)
  }

  datatype PortInfo = PortInfo(portNumber: u16, state: PortState, rate: string, counters: PortCounters)

  datatype AdapterInfo = AdapterInfo(name: string, ports: seq<PortInfo>)

  /** The identity of a port everywhere in the engine: `format!("{adapter}:{port}")`. */
  function PortKey(adapter: string, port: u16): string {
    adapter + ":" + NatToString(port)
  }

  /** The number of decimal digits at the end of `s`. */
  function TrailingDigits(s: string): nat {
    if |s| > 0 && IsDigit(s[|s| - 1]) then 1 + TrailingDigits(s[..|s| - 1]) else 0
  }

  lemma {:induction false} TrailingDigitsOfKey(a: string, d: string)
    requires AllDigits(d)
    ensures TrailingDigits(a + ":" + d) == |d|
  {
    if d != [] {
      var d' := d[..|d| - 1];
      assert (a + ":" + d)[..|a + ":" + d| - 1] == a + ":" + d';
      TrailingDigitsOfKey(a, d');
    }
  }

  /** Two ports share a key only when they are the same port: the adapter name
      ends at the last ':' because a port number's digits hold none. */
  lemma PortKeyInjective(a1: string, p1: u16, a2: string, p2: u16)
    requires PortKey(a1, p1) == PortKey(a2, p2)
    ensures a1 == a2 && p1 == p2
  {
    var d1, d2 := NatToString(p1), NatToString(p2);
    var k := PortKey(a1, p1);
    TrailingDigitsOfKey(a1, d1);
    TrailingDigitsOfKey(a2, d2);
    assert d1 == k[|k| - |d1|..] == d2;
    assert a1 == k[..|a1|] == a2;
    NatToStringInjective(p1, p2);
  }
}
